/** Planning the transition for one node's capacity change, from the membership to the checked movement plan. */
module CapacityRebalance {
  import opened Collections
  import opened RaftSpec
  import opened Placement
  import opened Rebalance
  import opened RebalanceExecution

  ghost predicate NamedWell(m: Members)
  {
    forall id :: id in m ==> ValidNodeId(id)
  }

  lemma {:induction false} MembersNamed(local: string, capacity: nat, peers: seq<Peer>)
    requires ValidNodeId(local) && PeersFine(local, capacity, peers)
    ensures NamedWell(MembersOf(local, capacity, peers))
    decreases |peers|
  {
    hide ValidNodeId;
    if peers != [] { MembersNamed(local, capacity, peers[..|peers| - 1]); }
  }

  /** Rows of a planned table have distinct valid nodes, their leader first. */
  lemma PlannedRowSound(h: Hash, m: Members, p: Placed, k: nat)
    requires Capable(m) && NamedWell(m) && k > 0 && Places(h, m, p.slot, k, p.replicas) && |p.replicas| == k
             && p.leader == p.replicas[0]
    ensures SoundRow(p)
  {
    hide ValidNodeId, Better;
    var order :| IsOrder(h, m, p.slot, order) && k <= |order| && p.replicas == order[..k];
    OrderDistinct(h, m, p.slot, order);
  }

  /** A peer list with one peer's capacity replaced. */
  function WithCapacity(peers: seq<Peer>, i: nat, capacity: nat): seq<Peer>
    requires i < |peers|
  {
    peers[i := peers[i].(capacity := capacity)]
  }

  lemma {:induction false} MembersChange(local: string, own: nat, peers: seq<Peer>, i: nat, capacity: nat)
    requires i < |peers| && PeersFine(local, own, peers) && peers[i].id != "" && 0 < capacity <= MAX_CAPACITY
    ensures PeersFine(local, own, WithCapacity(peers, i, capacity))
    ensures MembersOf(local, own, WithCapacity(peers, i, capacity))
            == MembersOf(local, own, peers)[peers[i].id := capacity]
    decreases |peers|
  {
    hide ValidNodeId;
    var n := |peers| - 1;
    var changed := WithCapacity(peers, i, capacity);
    if i < n {
      MembersChange(local, own, peers[..n], i, capacity);
      assert changed[..n] == WithCapacity(peers[..n], i, capacity);
      MembersExact(local, own, peers[..n], peers[i].id);
      assert peers[..n][i].id == peers[i].id;
    } else {
      assert changed[..n] == peers[..n];
    }
  }

  lemma {:induction false} LocalChange(local: string, own: nat, peers: seq<Peer>, capacity: nat)
    requires PeersFine(local, own, peers)
    ensures PeersFine(local, capacity, peers)
    ensures MembersOf(local, capacity, peers) == MembersOf(local, own, peers)[local := capacity]
    decreases |peers|
  {
    hide ValidNodeId;
    if peers != [] {
      var n := |peers| - 1;
      LocalChange(local, own, peers[..n], capacity);
      MembersExact(local, own, peers[..n], local);
    }
  }

  datatype Transition = Transition(current: Table, next: Table, plan: Plan)

  /** Where a planned plan takes data: to the raised node only; a lowered node is the only one that loses any. */
  ghost predicate OnlyMoves(plan: Plan, x: string, raised: bool, lowered: bool)
  {
    forall i, a :: 0 <= i < |plan.movements| && a in plan.movements[i].actions ==>
      (raised && (a.kind == Copy || a.kind == CatchUp) ==> a.target == x)
          && (lowered && a.kind == Removal ==> a.target == x)
  }

  lemma RowMoves(h: Hash, m: Members, k: nat, x: string, capacity: nat, src: Placed, dst: Placed, a: Action)
    requires Capable(m) && x in m && 0 < capacity <= MAX_CAPACITY && src.slot == dst.slot
    requires Capable(m[x := capacity]) && Places(h, m, src.slot, k, src.replicas)
             && Places(h, m[x := capacity], dst.slot, k, dst.replicas)
    requires Planned(src, dst, a)
    ensures m[x] <= capacity && MovesData(a) ==> a.target == x
    ensures capacity <= m[x] && a.kind == Removal ==> a.target == x
  {
    hide Places, Capable;
    if m[x] <= capacity { RaiseAddsOnlyIt(h, m, src.slot, k, x, capacity, src.replicas, dst.replicas); }
    if capacity <= m[x] { LowerRemovesOnlyIt(h, m, src.slot, k, x, capacity, src.replicas, dst.replicas); }
    if MovesData(a) && m[x] <= capacity { Single(dst.replicas, src.replicas, x, a.target); }
    if a.kind == Removal && capacity <= m[x] { Single(src.replicas, dst.replicas, x, a.target); }
  }

  lemma Single(a: seq<string>, b: seq<string>, x: string, t: string)
    requires Elements(a) - Elements(b) <= {x} && t in a && t !in b
    ensures t == x
  {
    assert t in Elements(a) - Elements(b);
  }

  ghost predicate PlacedRows(h: Hash, m: Members, k: nat, rows: seq<Placed>)
    requires Capable(m)
  {
    forall p :: p in rows ==>
        Places(h, m, p.slot, k, p.replicas) && |p.replicas| == k && (k > 0 ==> p.leader == p.replicas[0])
  }

  lemma TableRows(h: Hash, m: Members, slots: seq<Slot>, k: nat, rows: seq<Placed>)
    requires Capable(m) && ReplicasOf(h, m, slots, k, rows)
    ensures PlacedRows(h, m, k, rows)
  {
    hide Places, Capable;
  }

  lemma PlanMoves(h: Hash, m: Members, k: nat, x: string, capacity: nat, before: seq<Placed>, after: seq<Placed>,
      plan: Plan)
    requires Capable(m) && x in m && 0 < capacity <= MAX_CAPACITY && Capable(m[x := capacity])
    requires PlacedRows(h, m, k, before) && PlacedRows(h, m[x := capacity], k, after)
    requires forall i :: 0 <= i < |SortRows(after)| ==> SortRows(after)[i].slot in RowsBySlot(before)
    requires plan.movements == MovementsFor(RowsBySlot(before), SortRows(after))
    ensures OnlyMoves(plan, x, m[x] <= capacity, capacity <= m[x])
  {
    hide Places, Capable, ActionsOf, SortRows, RowsBySlot, MovementsFor;
    RowsBySlotKeys(before);
    SortedRows(after);
    forall i, a | 0 <= i < |plan.movements| && a in plan.movements[i].actions
      ensures (m[x] <= capacity && MovesData(a) ==> a.target == x)
              && (capacity <= m[x] && a.kind == Removal ==> a.target == x)
    {
      MovementsFrom(RowsBySlot(before), SortRows(after), i);
      var mv := plan.movements[i];
      ActionsPlanned(mv.source, mv.dest, a);
      RowMoves(h, m, k, x, capacity, mv.source, mv.dest, a);
    }
  }

  /* ---------- when a plan can be made ---------- */

  lemma RowsAlone(h: Hash, m: Members, slots: seq<Slot>, k: nat, rows: seq<Placed>)
    requires Capable(m) && ReplicasOf(h, m, slots, k, rows)
    ensures OneRowEach(rows) <==> Distinct(slots)
    ensures SlotSet(rows) == set s | s in slots
  {
    hide Places, Capable;
    forall s | s in slots ensures s in SlotSet(rows)
    {
      var i :| 0 <= i < |slots| && slots[i] == s;
      assert rows[i] in rows && rows[i].slot == s;
    }
    if !Distinct(slots) {
      var i, j :| 0 <= i < j < |slots| && slots[i] == slots[j];
      assert rows[i].slot == rows[j].slot;
    }
  }

  lemma ChangedSize(m: Members, x: string, capacity: nat)
    requires x in m
    ensures |m[x := capacity]| == |m|
  {
    assert m[x := capacity].Keys == m.Keys;
    assert |m[x := capacity].Keys| == |m[x := capacity]| && |m.Keys| == |m|;
  }

  /** Finds the peer whose capacity changes. */
  method FindPeer(peers: seq<Peer>, target: string) returns (found: bool, at: nat)
    ensures found ==> at < |peers| && peers[at].id == target
    ensures !found ==> forall i :: 0 <= i < |peers| ==> peers[i].id != target
  {
    at := 0;
    while at < |peers|
      invariant at <= |peers| && forall i :: 0 <= i < at ==> peers[i].id != target
    {
      if peers[at].id == target { return true, at; }
      at := at + 1;
    }
    found := false;
  }

  /** The members after the change, and the local capacity and peers they come from. */
  method ChangeCapacity(local: string, own: nat, peers: seq<Peer>, target: string, capacity: nat)
    returns (ok: bool, own2: nat, peers2: seq<Peer>)
    requires PeersFine(local, own, peers) && 0 < own && 0 < capacity <= MAX_CAPACITY && target != ""
    ensures ok <==> target in MembersOf(local, own, peers) && MembersOf(local, own, peers)[target] != capacity
    ensures ok ==>
            PeersFine(local, own2, peers2) && MembersOf(local, own2, peers2)
                == MembersOf(local, own, peers)[target := capacity]
    ensures ok ==> (own2 == own || own2 == capacity)
  {
    hide PeersFine, MembersOf;
    own2, peers2 := own, peers;
    MembersExact(local, own, peers, target);
    if target == local {
      if capacity == own { return false, own2, peers2; }
      LocalChange(local, own, peers, capacity);
      return true, capacity, peers;
    }
    var found, at := FindPeer(peers, target);
    if !found || CapacityOf(peers[at]) == capacity { return false, own2, peers2; }
    MembersChange(local, own, peers, at, capacity);
    ok, peers2 := true, WithCapacity(peers, at, capacity);
  }

  /** A plan that is made passes validation and moves data for the changed node alone. */
  method PlanCapacityRebalance(h: Hash, epoch: nat, local: string, address: string, own: nat, peers: seq<Peer>,
                               configs: seq<Config>, factor: int, target: string, capacity: nat)
    returns (r: Option<Transition>)
    ensures r.Some? <==>
              && ValidNodeId(target) && 0 < capacity <= MAX_CAPACITY
              && epoch > 0 && ValidNodeId(local) && address != "" && 0 < own <= MAX_CAPACITY
                 && PeersFine(local, own, peers)
              && AllValid(SortConfigs(configs)) && Distinct(Slots(SortConfigs(configs)))
                 && 1 <= factor <= |MembersOf(local, own, peers)|
              && target in MembersOf(local, own, peers) && MembersOf(local, own, peers)[target] != capacity
    ensures r.Some? ==>
              var m, slots := MembersOf(local, own, peers), Slots(SortConfigs(configs));
              && Capable(m) && ReplicasOf(h, m, slots, factor, r.value.current.rows)
              && Capable(m[target := capacity]) && ReplicasOf(h, m[target := capacity], slots, factor,
                 r.value.next.rows)
              && (forall i :: 0 <= i < |SortRows(r.value.next.rows)| ==>
                 SortRows(r.value.next.rows)[i].slot in RowsBySlot(r.value.current.rows))
              && r.value.plan == Plan(epoch, epoch + 1, false,
                 MovementsFor(RowsBySlot(r.value.current.rows), SortRows(r.value.next.rows)))
    ensures r.Some? ==>
              && target in MembersOf(local, own, peers) && MembersOf(local, own, peers)[target] != capacity
              && MovesChanges(r.value.current.rows, r.value.next.rows, r.value.plan.movements)
              && PlanValid(r.value.plan) && Ordered(FlatActions(r.value.plan.movements))
              && OnlyMoves(r.value.plan, target, MembersOf(local, own, peers)[target] <= capacity,
                 capacity <= MembersOf(local, own, peers)[target])
  {
    hide ValidNodeId, PeersFine, MembersOf, ReplicasOf, PlanValid, Ordered, OnlyMoves, SortRows, SortConfigs, Slots,
        AllValid, Capable, Distinct, OneRowEach, SlotSet, MovesChanges;
    if !ValidNodeId(target) || capacity < 1 || capacity > MAX_CAPACITY { return None; }
    NotEmpty(target);
    var before := PlanReplicas(h, epoch, local, address, own, peers, configs, factor);
    if before.None? { return None; }
    var ok, own2, peers2 := ChangeCapacity(local, own, peers, target, capacity);
    if !ok { return None; }
    ChangedSize(MembersOf(local, own, peers), target, capacity);
    var after := PlanReplicas(h, epoch + 1, local, address, own2, peers2, configs, factor);
    if after.None? { return None; }
    var current, next := Table(epoch, factor, before.value), Table(epoch + 1, factor, after.value);
    ghost var m := MembersOf(local, own, peers);
    RowsAlone(h, m, Slots(SortConfigs(configs)), factor, current.rows);
    RowsAlone(h, m[target := capacity], Slots(SortConfigs(configs)), factor, next.rows);
    SortAlone(next.rows);
    var plan := PlanRebalance(current, next);
    if plan.None? { return None; }
    r := Some(Transition(current, next, plan.value));
    MembersNamed(local, own, peers);
    MembersNamed(local, own2, peers2);
    TransitionSound(h, m, factor, target, capacity, Slots(SortConfigs(configs)), current, next, plan.value);
  }

  lemma NotEmpty(id: string)
    requires ValidNodeId(id)
    ensures id != ""
  {
  }

  lemma TransitionSound(h: Hash, m: Members, k: nat, x: string, capacity: nat, slots: seq<Slot>, current: Table,
      next: Table, plan: Plan)
    requires Capable(m) && NamedWell(m) && NamedWell(m[x := capacity]) && x in m && 0 < capacity <= MAX_CAPACITY
             && Capable(m[x := capacity]) && k > 0
    requires ReplicasOf(h, m, slots, k, current.rows) && ReplicasOf(h, m[x := capacity], slots, k, next.rows)
    requires 0 < current.epoch < next.epoch && OneRowEach(SortRows(next.rows))
    requires forall i :: 0 <= i < |SortRows(next.rows)| ==> SortRows(next.rows)[i].slot in RowsBySlot(current.rows)
    requires plan == Plan(current.epoch, next.epoch, false, MovementsFor(RowsBySlot(current.rows), SortRows(next.rows)))
    ensures PlanValid(plan) && Ordered(FlatActions(plan.movements))
            && OnlyMoves(plan, x, m[x] <= capacity, capacity <= m[x])
  {
    hide ReplicasOf, PlanValid, Ordered, OnlyMoves, SortRows, Capable, NamedWell, SoundRow, Places, RowsBySlot,
        MovementsFor, OneRowEach, FlatActions;
    TableRows(h, m, slots, k, current.rows);
    TableRows(h, m[x := capacity], slots, k, next.rows);
    forall p | p in current.rows ensures SoundRow(p) { PlannedRowSound(h, m, p, k); }
    forall p | p in next.rows ensures SoundRow(p) { PlannedRowSound(h, m[x := capacity], p, k); }
    PlannedPlansValid(current, next, plan);
    PlanMoves(h, m, k, x, capacity, current.rows, next.rows, plan);
  }
}
