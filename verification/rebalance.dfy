/** Moving shards from one replica table to the next: copy, catch up, transfer, commit, and only then remove. */
module Rebalance {
  import opened Strings
  import opened Collections
  import opened RaftSpec
  import opened Placement

  /** Action names, as the parts they are printed from; `ActionNames` shows that these identify them. */
  datatype Id = CopyId(slot: Slot, node: string) | CatchUpId(slot: Slot, node: string)
      | TransferId(slot: Slot, node: string)
              | CommitId(slot: Slot) | RemoveId(slot: Slot, node: string) | NoId

  datatype Kind = Copy | CatchUp | Transfer | Commit | Removal

  datatype Action = Action(id: Id, kind: Kind, source: string, target: string, needs: seq<Id>)

  datatype Movement = Movement(slot: Slot, source: Placed, dest: Placed, actions: seq<Action>)

  datatype Plan = Plan(from: nat, to: nat, authoritative: bool, movements: seq<Movement>)

  /* ---------- the actions of one movement ---------- */

  /** The nodes of `list` that are not in `have`, in order. */
  function Without(list: seq<string>, have: seq<string>): seq<string>
  {
    if list == [] then []
    else Without(list[..|list| - 1], have) + if list[|list| - 1] in have then [] else [list[|list| - 1]]
  }

  lemma {:induction false} WithoutMembers(list: seq<string>, have: seq<string>, x: string)
    ensures x in Without(list, have) <==> x in list && x !in have
    decreases |list|
  {
    if list != [] { WithoutMembers(list[..|list| - 1], have, x); }
  }

  function CopyOf(slot: Slot, leader: string, node: string): Action
  {
    Action(CopyId(slot, node), Copy, leader, node, [])
  }

  function CatchUpOf(slot: Slot, leader: string, node: string): Action
  {
    Action(CatchUpId(slot, node), CatchUp, leader, node, [CopyId(slot, node)])
  }

  function Arrivals(slot: Slot, leader: string, nodes: seq<string>): seq<Action>
  {
    if nodes == [] then []
    else
      var node := nodes[|nodes| - 1];
      Arrivals(slot, leader, nodes[..|nodes| - 1]) + [CopyOf(slot, leader, node), CatchUpOf(slot, leader, node)]
  }

  function CatchUps(slot: Slot, nodes: seq<string>): seq<Id>
  {
    if nodes == [] then [] else CatchUps(slot, nodes[..|nodes| - 1]) + [CatchUpId(slot, nodes[|nodes| - 1])]
  }

  function Removals(slot: Slot, nodes: seq<string>): seq<Action>
  {
    if nodes == [] then []
    else Removals(slot, nodes[..|nodes| - 1]) + [Action(RemoveId(slot, nodes[|nodes| - 1]), Removal, "",
        nodes[|nodes| - 1], [CommitId(slot)])]
  }

  function TransferOf(src: Placed, dst: Placed): Action
  {
    Action(TransferId(dst.slot, dst.leader), Transfer, src.leader, dst.leader,
        CatchUps(dst.slot, Without(dst.replicas, src.replicas)))
  }

  function CommitOf(src: Placed, dst: Placed): Action
  {
    Action(CommitId(dst.slot), Commit, "", "",
           CatchUps(dst.slot, Without(dst.replicas, src.replicas)) + if src.leader != dst.leader
               then [TransferId(dst.slot, dst.leader)] else [])
  }

  function ActionsOf(src: Placed, dst: Placed): seq<Action>
  {
    Arrivals(dst.slot, src.leader, Without(dst.replicas, src.replicas))
    + (if src.leader != dst.leader then [TransferOf(src, dst)] else [])
    + [CommitOf(src, dst)]
    + Removals(dst.slot, Without(src.replicas, dst.replicas))
  }

  lemma WithoutPush(list: seq<string>, have: seq<string>, i: nat)
    requires i < |list|
    ensures Without(list[..i + 1], have) == Without(list[..i], have) + if list[i] in have then [] else [list[i]]
  {
    assert list[..i + 1][..i] == list[..i];
  }

  lemma ArrivalsPush(slot: Slot, leader: string, nodes: seq<string>, node: string)
    ensures Arrivals(slot, leader, nodes + [node]) == Arrivals(slot, leader, nodes)
            + [CopyOf(slot, leader, node), CatchUpOf(slot, leader, node)]
    ensures CatchUps(slot, nodes + [node]) == CatchUps(slot, nodes) + [CatchUpId(slot, node)]
  {
    assert (nodes + [node])[..|nodes|] == nodes;
  }

  lemma RemovalsPush(slot: Slot, nodes: seq<string>, node: string)
    ensures Removals(slot, nodes + [node]) == Removals(slot, nodes)
            + [Action(RemoveId(slot, node), Removal, "", node, [CommitId(slot)])]
  {
    assert (nodes + [node])[..|nodes|] == nodes;
  }

  method BuildArrivals(src: Placed, dst: Placed) returns (actions: seq<Action>, caughtUp: seq<Id>)
    ensures actions == Arrivals(dst.slot, src.leader, Without(dst.replicas, src.replicas))
    ensures caughtUp == CatchUps(dst.slot, Without(dst.replicas, src.replicas))
  {
    hide Arrivals, CatchUps, Without;
    actions, caughtUp := [], [];
    NothingArrives(dst.slot, src.leader, dst.replicas[..0], src.replicas);
    for i := 0 to |dst.replicas|
      invariant actions == Arrivals(dst.slot, src.leader, Without(dst.replicas[..i], src.replicas))
      invariant caughtUp == CatchUps(dst.slot, Without(dst.replicas[..i], src.replicas))
    {
      var node := dst.replicas[i];
      WithoutPush(dst.replicas, src.replicas, i);
      ArrivalsPush(dst.slot, src.leader, Without(dst.replicas[..i], src.replicas), node);
      assert Without(dst.replicas[..i], src.replicas) + [] == Without(dst.replicas[..i], src.replicas);
      if node !in src.replicas {
        actions := actions + [CopyOf(dst.slot, src.leader, node), CatchUpOf(dst.slot, src.leader, node)];
        caughtUp := caughtUp + [CatchUpId(dst.slot, node)];
      }
    }
    assert dst.replicas[..|dst.replicas|] == dst.replicas;
  }

  lemma NothingArrives(slot: Slot, leader: string, list: seq<string>, have: seq<string>)
    requires list == []
    ensures Without(list, have) == [] && Arrivals(slot, leader, []) == [] && CatchUps(slot, []) == []
            && Removals(slot, []) == []
  {
  }

  method BuildRemovals(src: Placed, dst: Placed) returns (actions: seq<Action>)
    ensures actions == Removals(dst.slot, Without(src.replicas, dst.replicas))
  {
    hide Removals, Without;
    actions := [];
    NothingArrives(dst.slot, "", src.replicas[..0], dst.replicas);
    for i := 0 to |src.replicas|
      invariant actions == Removals(dst.slot, Without(src.replicas[..i], dst.replicas))
    {
      var node := src.replicas[i];
      WithoutPush(src.replicas, dst.replicas, i);
      RemovalsPush(dst.slot, Without(src.replicas[..i], dst.replicas), node);
      assert Without(src.replicas[..i], dst.replicas) + [] == Without(src.replicas[..i], dst.replicas);
      if node !in dst.replicas {
        actions := actions + [Action(RemoveId(dst.slot, node), Removal, "", node, [CommitId(dst.slot)])];
      }
    }
    assert src.replicas[..|src.replicas|] == src.replicas;
  }

  /** Copies and catch-ups first, then the leadership transfer, the commit and the removals. */
  method BuildActions(src: Placed, dst: Placed) returns (actions: seq<Action>)
    ensures actions == ActionsOf(src, dst)
  {
    hide Arrivals, CatchUps, Removals, Without;
    var caughtUp;
    actions, caughtUp := BuildArrivals(src, dst);
    assert actions + [] == actions && caughtUp + [] == caughtUp;
    var dependencies := caughtUp;
    if src.leader != dst.leader {
      actions := actions + [Action(TransferId(dst.slot, dst.leader), Transfer, src.leader, dst.leader, caughtUp)];
      dependencies := dependencies + [TransferId(dst.slot, dst.leader)];
    }
    actions := actions + [Action(CommitId(dst.slot), Commit, "", "", dependencies)];
    var removals := BuildRemovals(src, dst);
    actions := actions + removals;
  }

  /* ---------- what the actions are, one by one ---------- */

  ghost predicate Planned(src: Placed, dst: Placed, a: Action)
  {
    || (exists node :: node in dst.replicas && node !in src.replicas && a == CopyOf(dst.slot, src.leader, node))
    || (exists node :: node in dst.replicas && node !in src.replicas && a == CatchUpOf(dst.slot, src.leader, node))
    || (src.leader != dst.leader && a == TransferOf(src, dst))
    || a == CommitOf(src, dst)
    || (exists node ::
       node in src.replicas && node !in dst.replicas && a
           == Action(RemoveId(dst.slot, node), Removal, "", node, [CommitId(dst.slot)]))
  }

  lemma {:induction false} ArrivalsMembers(slot: Slot, leader: string, nodes: seq<string>, a: Action)
    ensures a in Arrivals(slot, leader, nodes) <==>
            exists node :: node in nodes && (a == CopyOf(slot, leader, node) || a == CatchUpOf(slot, leader, node))
    decreases |nodes|
  {
    if nodes != [] {
      ArrivalsMembers(slot, leader, nodes[..|nodes| - 1], a);
      var n := |nodes| - 1;
      assert forall x :: x in nodes <==> x in nodes[..n] || x == nodes[n];
    }
  }

  lemma {:induction false} RemovalsMembers(slot: Slot, nodes: seq<string>, a: Action)
    ensures a in Removals(slot, nodes) <==>
            exists node :: node in nodes && a == Action(RemoveId(slot, node), Removal, "", node, [CommitId(slot)])
    decreases |nodes|
  {
    if nodes != [] {
      RemovalsMembers(slot, nodes[..|nodes| - 1], a);
      var n := |nodes| - 1;
      assert forall x :: x in nodes <==> x in nodes[..n] || x == nodes[n];
    }
  }

  lemma {:induction false} CatchUpsMembers(slot: Slot, nodes: seq<string>, node: string)
    ensures CatchUpId(slot, node) in CatchUps(slot, nodes) <==> node in nodes
    ensures forall id :: id in CatchUps(slot, nodes) ==> id.CatchUpId? && id.slot == slot && id.node in nodes
    decreases |nodes|
  {
    if nodes != [] {
      CatchUpsMembers(slot, nodes[..|nodes| - 1], node);
      var n := |nodes| - 1;
      assert forall x :: x in nodes <==> x in nodes[..n] || x == nodes[n];
    }
  }

  lemma ActionsPlanned(src: Placed, dst: Placed, a: Action)
    ensures a in ActionsOf(src, dst) <==> Planned(src, dst, a)
  {
    var newcomers, gone := Without(dst.replicas, src.replicas), Without(src.replicas, dst.replicas);
    ArrivalsMembers(dst.slot, src.leader, newcomers, a);
    RemovalsMembers(dst.slot, gone, a);
    forall x
        ensures (x in newcomers <==> x in dst.replicas && x !in src.replicas)
                && (x in gone <==> x in src.replicas && x !in dst.replicas)
    {
      WithoutMembers(dst.replicas, src.replicas, x);
      WithoutMembers(src.replicas, dst.replicas, x);
    }
  }

  /* ---------- executions ---------- */

  ghost predicate DoneBefore(order: seq<Action>, i: nat, id: Id)
  {
    exists j :: 0 <= j < i && j < |order| && order[j].id == id
  }

  /** Some of the movement's actions, in any order in which everything an action needs comes before it. */
  ghost predicate Respects(src: Placed, dst: Placed, order: seq<Action>)
  {
    && (forall i :: 0 <= i < |order| ==> Planned(src, dst, order[i]))
    && (forall i, d :: 0 <= i < |order| && d in order[i].needs ==> DoneBefore(order, i, d))
  }

  ghost predicate Committed(order: seq<Action>)
  {
    exists i :: 0 <= i < |order| && order[i].kind == Commit
  }

  ghost function CaughtUp(order: seq<Action>): set<string>
  {
    set a | a in order && a.kind == CatchUp :: a.target
  }

  ghost function RemovedNodes(order: seq<Action>): set<string>
  {
    set a | a in order && a.kind == Removal :: a.target
  }

  ghost predicate Transferred(order: seq<Action>)
  {
    exists i :: 0 <= i < |order| && order[i].kind == Transfer
  }

  /** The nodes that hold the shard's data. */
  ghost function Serving(src: Placed, order: seq<Action>): set<string>
  {
    Elements(src.replicas) + CaughtUp(order) - RemovedNodes(order)
  }

  lemma RespectsPrefix(src: Placed, dst: Placed, order: seq<Action>, n: nat)
    requires Respects(src, dst, order) && n <= |order|
    ensures Respects(src, dst, order[..n])
  {
    hide Planned;
    forall i, d | 0 <= i < n && d in order[..n][i].needs ensures DoneBefore(order[..n], i, d)
    {
      assert DoneBefore(order, i, d);
      var j :| 0 <= j < i && order[j].id == d;
      assert order[..n][j].id == d;
    }
  }

  lemma CatchUpsNeeded(src: Placed, dst: Placed, order: seq<Action>, i: nat, node: string)
    requires Respects(src, dst, order) && i < |order| && (order[i].kind == Commit || order[i].kind == Transfer)
    requires node in dst.replicas && node !in src.replicas
    ensures node in CaughtUp(order)
  {
    hide Without, CatchUps;
    var newcomers := Without(dst.replicas, src.replicas);
    WithoutMembers(dst.replicas, src.replicas, node);
    CatchUpsMembers(dst.slot, newcomers, node);
    assert Planned(src, dst, order[i]);
    assert CatchUpId(dst.slot, node) in order[i].needs;
    assert DoneBefore(order, i, CatchUpId(dst.slot, node));
    var j :| 0 <= j < i && order[j].id == CatchUpId(dst.slot, node);
    assert Planned(src, dst, order[j]);
    assert order[j] in order && order[j].kind == CatchUp && order[j].target == node;
  }

  lemma RemovalNeedsCommit(src: Placed, dst: Placed, order: seq<Action>, x: string)
    requires Respects(src, dst, order) && x in RemovedNodes(order)
    ensures Committed(order) && x !in dst.replicas
  {
    var a :| a in order && a.kind == Removal && a.target == x;
    var i :| 0 <= i < |order| && order[i] == a;
    assert Planned(src, dst, order[i]);
    assert DoneBefore(order, i, CommitId(dst.slot));
    var j :| 0 <= j < i && order[j].id == CommitId(dst.slot);
    assert Planned(src, dst, order[j]);
  }

  lemma CommitNeedsTransfer(src: Placed, dst: Placed, order: seq<Action>)
    requires Respects(src, dst, order) && Committed(order) && src.leader != dst.leader
    ensures Transferred(order)
  {
    var i :| 0 <= i < |order| && order[i].kind == Commit;
    assert Planned(src, dst, order[i]);
    var id := TransferId(dst.slot, dst.leader);
    assert id in CommitOf(src, dst).needs;
    assert DoneBefore(order, i, id);
    var j :| 0 <= j < i && order[j].id == id;
    assert Planned(src, dst, order[j]);
  }

  /**
   * At every moment of every execution: until the commit nothing is removed and all source replicas serve; from the
   * commit on all target replicas serve; and the acting leader is one of the nodes that serve.
   */
  lemma NeverUnsafe(src: Placed, dst: Placed, order: seq<Action>, n: nat)
    requires Respects(src, dst, order) && n <= |order| && src.leader in src.replicas && dst.leader in dst.replicas
    ensures var now := order[..n];
            && (!Committed(now) ==> RemovedNodes(now) == {} && Elements(src.replicas) <= Serving(src, now))
            && (Committed(now) ==> Elements(dst.replicas) <= Serving(src, now))
            && (if Transferred(now) then dst.leader else src.leader) in Serving(src, now)
  {
    hide Planned, Respects;
    var now := order[..n];
    RespectsPrefix(src, dst, order, n);
    forall x | x in RemovedNodes(now)
        ensures Committed(now) && x !in dst.replicas { RemovalNeedsCommit(src, dst, now, x); }
    if Committed(now) || Transferred(now) { TargetsServe(src, dst, now); }
    if Committed(now) && src.leader != dst.leader { CommitNeedsTransfer(src, dst, now); }
  }

  lemma TargetsServe(src: Placed, dst: Placed, now: seq<Action>)
    requires Respects(src, dst, now) && (Committed(now) || Transferred(now))
    ensures Elements(dst.replicas) <= Serving(src, now)
  {
    hide Planned, Respects;
    var i :| 0 <= i < |now| && (now[i].kind == Commit || now[i].kind == Transfer);
    forall x | x in dst.replicas ensures x in Serving(src, now)
    {
      if x !in src.replicas { CatchUpsNeeded(src, dst, now, i, x); }
      if x in RemovedNodes(now) { RemovalNeedsCommit(src, dst, now, x); }
    }
  }

  /** Once everything has run, exactly the target replicas are left. */
  lemma EndsAtTarget(src: Placed, dst: Placed, order: seq<Action>)
    requires Respects(src, dst, order) && forall a :: Planned(src, dst, a) ==> a in order
    ensures Serving(src, order) == Elements(dst.replicas)
  {
    assert CommitOf(src, dst) in order;
    var i :| 0 <= i < |order| && order[i] == CommitOf(src, dst);
    TargetsServe(src, dst, order);
    forall x | x in Serving(src, order) ensures x in dst.replicas
    {
      if x in src.replicas { LeftoverRemoved(src, dst, order, x); } else { CaughtUpAreTargets(src, dst, order, x); }
    }
  }

  lemma LeftoverRemoved(src: Placed, dst: Placed, order: seq<Action>, x: string)
    requires x in src.replicas && forall a :: Planned(src, dst, a) ==> a in order
    ensures x in dst.replicas || x in RemovedNodes(order)
  {
    var gone := Action(RemoveId(dst.slot, x), Removal, "", x, [CommitId(dst.slot)]);
    assert x !in dst.replicas ==> Planned(src, dst, gone);
  }

  lemma CaughtUpAreTargets(src: Placed, dst: Placed, order: seq<Action>, x: string)
    requires Respects(src, dst, order) && x in CaughtUp(order)
    ensures x in dst.replicas
  {
    var a :| a in order && a.kind == CatchUp && a.target == x;
    var i :| 0 <= i < |order| && order[i] == a;
    assert Planned(src, dst, order[i]);
  }

  /* ---------- whole plans ---------- */

  datatype Table = Table(epoch: nat, factor: nat, rows: seq<Placed>)

  /** Rows as the planner makes them: distinct valid nodes, the leader among them. */
  ghost predicate SoundRow(p: Placed)
  {
    && p.leader in p.replicas
    && (forall i :: 0 <= i < |p.replicas| ==> ValidNodeId(p.replicas[i]))
    && (forall i, j :: 0 <= i < j < |p.replicas| ==> p.replicas[i] != p.replicas[j])
  }

  ghost function SlotSet(rows: seq<Placed>): set<Slot>
  {
    set p | p in rows :: p.slot
  }

  ghost predicate OneRowEach(rows: seq<Placed>)
  {
    forall i, j :: 0 <= i < j < |rows| ==> rows[i].slot != rows[j].slot
  }

  ghost function RowsBySlot(rows: seq<Placed>): map<Slot, Placed>
  {
    if rows == [] then map[] else RowsBySlot(rows[..|rows| - 1])[rows[|rows| - 1].slot := rows[|rows| - 1]]
  }

  lemma {:induction false} RowsBySlotKeys(rows: seq<Placed>)
    ensures RowsBySlot(rows).Keys == SlotSet(rows)
    ensures forall s :: s in RowsBySlot(rows) ==> RowsBySlot(rows)[s] in rows && RowsBySlot(rows)[s].slot == s
    decreases |rows|
  {
    if rows != [] {
      var n := |rows| - 1;
      RowsBySlotKeys(rows[..n]);
      assert rows == rows[..n] + [rows[n]];
    }
  }

  lemma OneRowPush(rows: seq<Placed>, i: nat)
    requires i < |rows| && OneRowEach(rows[..i])
    ensures OneRowEach(rows[..i + 1]) <==> rows[i].slot !in SlotSet(rows[..i])
    ensures SlotSet(rows[..i + 1]) == SlotSet(rows[..i]) + {rows[i].slot}
    ensures !OneRowEach(rows[..i + 1]) ==> !OneRowEach(rows)
  {
    assert rows[..i + 1] == rows[..i] + [rows[i]];
    if rows[i].slot in SlotSet(rows[..i]) {
      var p :| p in rows[..i] && p.slot == rows[i].slot;
      var k :| 0 <= k < i && rows[..i][k] == p;
      assert rows[..i + 1][k].slot == rows[..i + 1][i].slot;
    }
    if !OneRowEach(rows[..i + 1]) {
      var a, b :| 0 <= a < b < i + 1 && rows[..i + 1][a].slot == rows[..i + 1][b].slot;
      assert rows[a].slot == rows[b].slot;
    }
  }

  method IndexRows(rows: seq<Placed>) returns (ok: bool, index: map<Slot, Placed>)
    ensures ok <==> OneRowEach(rows)
    ensures ok ==> index == RowsBySlot(rows)
  {
    hide OneRowEach, SlotSet;
    index := map[];
    NoRows();
    assert rows[..0] == [];
    for i := 0 to |rows|
      invariant OneRowEach(rows[..i]) && index == RowsBySlot(rows[..i])
    {
      RowsBySlotKeys(rows[..i]);
      OneRowPush(rows, i);
      if rows[i].slot in index { return false, index; }
      assert rows[..i + 1][..i] == rows[..i];
      index := index[rows[i].slot := rows[i]];
    }
    assert rows[..|rows|] == rows;
    ok := true;
  }

  lemma NoRows()
    ensures OneRowEach([]) && SlotSet([]) == {}
  {
  }

  predicate Unmoved(src: Placed, dst: Placed)
  {
    src.replicas == dst.replicas && src.leader == dst.leader
  }

  /** The movements for the first target rows: one for every row that differs from its source. */
  ghost function MovementsFor(index: map<Slot, Placed>, targets: seq<Placed>): seq<Movement>
    requires forall i :: 0 <= i < |targets| ==> targets[i].slot in index
  {
    if targets == [] then []
    else
      var dst := targets[|targets| - 1];
      var src := index[dst.slot];
      MovementsFor(index, targets[..|targets| - 1]) + if Unmoved(src, dst) then []
          else [Movement(dst.slot, src, dst, ActionsOf(src, dst))]
  }

  predicate Ahead(a: Slot, b: Slot)
  {
    Less(a.collection, b.collection) || (a.collection == b.collection && a.shard < b.shard)
  }

  predicate RowBefore(a: Placed, b: Placed)
  {
    Ahead(a.slot, b.slot)
  }

  function InsertRow(sorted: seq<Placed>, p: Placed): (r: seq<Placed>)
    ensures multiset(r) == multiset(sorted) + multiset{p}
  {
    if sorted == [] || !RowBefore(p, sorted[|sorted| - 1]) then sorted + [p]
    else
      assert sorted == sorted[..|sorted| - 1] + [sorted[|sorted| - 1]];
      InsertRow(sorted[..|sorted| - 1], p) + [sorted[|sorted| - 1]]
  }

  /** Rows by collection and shard. */
  function SortRows(rows: seq<Placed>): (r: seq<Placed>)
    ensures multiset(r) == multiset(rows)
  {
    if rows == [] then []
    else
      assert rows == rows[..|rows| - 1] + [rows[|rows| - 1]];
      InsertRow(SortRows(rows[..|rows| - 1]), rows[|rows| - 1])
  }

  ghost predicate RowsOrdered(rows: seq<Placed>)
  {
    forall i, j :: 0 <= i < j < |rows| ==> !RowBefore(rows[j], rows[i])
  }

  lemma RowBeforeTransitive(a: Placed, b: Placed, c: Placed)
    requires !RowBefore(b, a) && !RowBefore(c, b)
    ensures !RowBefore(c, a)
  {
    NotLessTransitive(a.slot.collection, b.slot.collection, c.slot.collection);
    if a.slot.collection == c.slot.collection && a.slot.collection != b.slot.collection {
      LessTotal(a.slot.collection, b.slot.collection);
    }
  }

  lemma RowBeforeAsymmetric(a: Placed, b: Placed)
    requires RowBefore(a, b)
    ensures !RowBefore(b, a)
  {
    if a.slot.collection == b.slot.collection {
      LessIrreflexive(a.slot.collection);
    } else {
      LessAsymmetric(a.slot.collection, b.slot.collection);
    }
  }

  lemma {:induction false} InsertRowOrdered(sorted: seq<Placed>, p: Placed)
    requires RowsOrdered(sorted)
    ensures RowsOrdered(InsertRow(sorted, p))
    decreases |sorted|
  {
    hide RowBefore;
    var r := InsertRow(sorted, p);
    if sorted != [] {
      var n := |sorted| - 1;
      var last := sorted[n];
      if RowBefore(p, last) {
        InsertRowOrdered(sorted[..n], p);
        var front := InsertRow(sorted[..n], p);
        forall x | x in front ensures !RowBefore(last, x)
        {
          assert x in multiset(front);
          assert x in sorted[..n] || x == p;
          RowBeforeAsymmetric(p, last);
        }
        forall i, j | 0 <= i < j < |r| ensures !RowBefore(r[j], r[i])
        {
          if j == |front| { assert front[i] in front; }
        }
      } else {
        forall i | 0 <= i <= n ensures !RowBefore(p, sorted[i])
        {
          if i < n { RowBeforeTransitive(sorted[i], last, p); }
        }
      }
    }
  }

  /** Rows come out by collection, and those of one collection by shard. */
  lemma SortRowsOrdered(rows: seq<Placed>)
    ensures RowsOrdered(SortRows(rows))
    ensures var r := SortRows(rows);
            forall i, j :: 0 <= i < j < |r| ==>
              !Less(r[j].slot.collection, r[i].slot.collection)
              && (r[i].slot.collection == r[j].slot.collection ==> r[i].slot.shard <= r[j].slot.shard)
  {
    hide SortRows;
    SortedInOrder(rows);
    var r := SortRows(rows);
    forall i, j | 0 <= i < j < |r|
      ensures !Less(r[j].slot.collection, r[i].slot.collection)
              && (r[i].slot.collection == r[j].slot.collection ==> r[i].slot.shard <= r[j].slot.shard)
    {
      assert !RowBefore(r[j], r[i]);
    }
  }

  lemma {:induction false} SortedInOrder(rows: seq<Placed>)
    ensures RowsOrdered(SortRows(rows))
    decreases |rows|
  {
    if rows != [] {
      SortedInOrder(rows[..|rows| - 1]);
      InsertRowOrdered(SortRows(rows[..|rows| - 1]), rows[|rows| - 1]);
    }
  }

  lemma SortedRows(rows: seq<Placed>)
    ensures forall p :: p in SortRows(rows) <==> p in rows
  {
    hide SortRows;
    forall p ensures p in SortRows(rows) <==> p in rows
    {
      assert p in SortRows(rows) <==> p in multiset(SortRows(rows));
      assert p in rows <==> p in multiset(rows);
    }
  }

  lemma {:induction false} MovementsFrom(index: map<Slot, Placed>, targets: seq<Placed>, i: nat)
    requires forall k :: 0 <= k < |targets| ==> targets[k].slot in index
    requires i < |MovementsFor(index, targets)|
    ensures var mv := MovementsFor(index, targets)[i];
            mv.dest in targets && mv.slot == mv.dest.slot && mv.slot in index && mv.source == index[mv.slot]
                && mv.actions == ActionsOf(mv.source, mv.dest)
    decreases |targets|
  {
    hide ActionsOf;
    var n := |targets| - 1;
    if targets != [] && i < |MovementsFor(index, targets[..n])| {
      MovementsFrom(index, targets[..n], i);
    }
  }

  lemma {:induction false} AloneSize(rows: seq<Placed>)
    ensures |SlotSet(rows)| <= |rows|
    ensures OneRowEach(rows) <==> |SlotSet(rows)| == |rows|
    decreases |rows|
  {
    if rows == [] {
      assert SlotSet(rows) == {};
    } else {
      var n := |rows| - 1;
      AloneSize(rows[..n]);
      assert rows[..n + 1] == rows;
      if OneRowEach(rows[..n]) {
        OneRowPush(rows, n);
      } else {
        StillRepeats(rows, n);
        assert rows == rows[..n] + [rows[n]];
        assert SlotSet(rows) == SlotSet(rows[..n]) + {rows[n].slot};
      }
    }
  }

  lemma StillRepeats(rows: seq<Placed>, n: nat)
    requires n <= |rows| && !OneRowEach(rows[..n])
    ensures !OneRowEach(rows)
  {
    var i, j :| 0 <= i < j < n && rows[..n][i].slot == rows[..n][j].slot;
    assert rows[i].slot == rows[j].slot;
  }

  lemma SortAlone(rows: seq<Placed>)
    ensures OneRowEach(SortRows(rows)) <==> OneRowEach(rows)
    ensures SlotSet(SortRows(rows)) == SlotSet(rows)
  {
    hide SortRows, OneRowEach;
    SortedRows(rows);
    AloneSize(rows);
    AloneSize(SortRows(rows));
    assert |SortRows(rows)| == |multiset(SortRows(rows))| == |multiset(rows)| == |rows|;
  }

  lemma {:induction false} RowFound(rows: seq<Placed>, p: Placed)
    requires OneRowEach(rows) && p in rows
    ensures p.slot in RowsBySlot(rows) && RowsBySlot(rows)[p.slot] == p
    decreases |rows|
  {
    var n := |rows| - 1;
    if p != rows[n] {
      assert rows == rows[..n] + [rows[n]];
      var i :| 0 <= i < n && rows[i] == p;
      assert rows[..n][i] == p;
      RowFound(rows[..n], p);
    }
  }

  ghost predicate Moved(movements: seq<Movement>, slot: Slot)
  {
    exists i :: 0 <= i < |movements| && movements[i].slot == slot
  }

  /**
   * Exactly the shards that change a replica or the leader are moved, each once, from its current row to its target
   * row, by collection and shard.
   */
  ghost predicate MovesChanges(current: seq<Placed>, target: seq<Placed>, movements: seq<Movement>)
  {
    && (forall src, dst :: src in current && dst in target && src.slot == dst.slot ==>
          (Moved(movements, dst.slot) <==> src.replicas != dst.replicas || src.leader != dst.leader))
    && (forall i :: 0 <= i < |movements| ==>
          && movements[i].source in current && movements[i].dest in target
          && movements[i].slot == movements[i].source.slot == movements[i].dest.slot
          && movements[i].actions == ActionsOf(movements[i].source, movements[i].dest))
    && (forall i, j :: 0 <= i < j < |movements| ==> Ahead(movements[i].slot, movements[j].slot))
  }

  /** The rows the movements are for, in their order. */
  lemma {:induction false} MovementsCover(index: map<Slot, Placed>, targets: seq<Placed>)
    requires (forall k :: 0 <= k < |targets| ==> targets[k].slot in index) && OneRowEach(targets)
             && RowsOrdered(targets)
    ensures var movements := MovementsFor(index, targets);
            && (forall k :: 0 <= k < |targets| ==>
                  (Moved(movements, targets[k].slot) <==>
                     index[targets[k].slot].replicas != targets[k].replicas
                     || index[targets[k].slot].leader != targets[k].leader))
            && (forall i, j :: 0 <= i < j < |movements| ==> Ahead(movements[i].slot, movements[j].slot))
    decreases |targets|
  {
    hide ActionsOf, Ahead, Moved, RowsOrdered, OneRowEach;
    if targets != [] {
      var n := |targets| - 1;
      OrderedInit(targets, n);
      var before, dst := targets[..n], targets[n];
      MovementsCover(index, before);
      var earlier, movements := MovementsFor(index, before), MovementsFor(index, targets);
      forall i | 0 <= i < |earlier| ensures Ahead(earlier[i].slot, dst.slot) && movements[i] == earlier[i]
      {
        MovementsFrom(index, before, i);
        var k :| 0 <= k < n && before[k] == earlier[i].dest;
        Precedes(targets, k, n);
      }
      forall k | 0 <= k < |targets|
        ensures Moved(movements, targets[k].slot) <==>
            index[targets[k].slot].replicas != targets[k].replicas || index[targets[k].slot].leader != targets[k].leader
      {
        LastMoved(index, targets, k);
      }
    }
  }

  lemma OrderedInit(rows: seq<Placed>, n: nat)
    requires OneRowEach(rows) && RowsOrdered(rows) && n <= |rows|
    ensures OneRowEach(rows[..n]) && RowsOrdered(rows[..n])
  {
  }

  lemma Precedes(rows: seq<Placed>, i: nat, j: nat)
    requires OneRowEach(rows) && RowsOrdered(rows) && i < j < |rows|
    ensures Ahead(rows[i].slot, rows[j].slot)
  {
    var a, b := rows[i].slot, rows[j].slot;
    assert a != b && !RowBefore(rows[j], rows[i]);
    if a.collection != b.collection { LessTotal(a.collection, b.collection); }
  }

  lemma LastMoved(index: map<Slot, Placed>, targets: seq<Placed>, k: nat)
    requires (forall i :: 0 <= i < |targets| ==> targets[i].slot in index) && OneRowEach(targets)
    requires k < |targets|
    requires k < |targets| - 1 ==>
        (Moved(MovementsFor(index, targets[..|targets| - 1]), targets[k].slot) <==>
           index[targets[k].slot].replicas != targets[k].replicas
           || index[targets[k].slot].leader != targets[k].leader)
    ensures Moved(MovementsFor(index, targets), targets[k].slot) <==>
            index[targets[k].slot].replicas != targets[k].replicas || index[targets[k].slot].leader != targets[k].leader
  {
    hide ActionsOf;
    var n := |targets| - 1;
    var dst := targets[n];
    var before, movements := MovementsFor(index, targets[..n]), MovementsFor(index, targets);
    if k < n {
      assert targets[k].slot != dst.slot;
      assert forall i :: 0 <= i < |before| ==> movements[i] == before[i];
    } else {
      forall i | 0 <= i < |before| ensures before[i].slot != dst.slot
      {
        MovementsFrom(index, targets[..n], i);
        var j :| 0 <= j < n && targets[..n][j] == before[i].dest;
        assert targets[j].slot != dst.slot;
      }
      if movements != before { assert movements[|before|].slot == dst.slot; }
    }
  }

  lemma PlansChanges(current: seq<Placed>, target: seq<Placed>)
    requires OneRowEach(current) && OneRowEach(SortRows(target))
    requires forall i :: 0 <= i < |SortRows(target)| ==> SortRows(target)[i].slot in RowsBySlot(current)
    ensures MovesChanges(current, target, MovementsFor(RowsBySlot(current), SortRows(target)))
  {
    hide ActionsOf, SortRows, RowsBySlot, MovementsFor, OneRowEach, RowsOrdered, Ahead, Moved;
    var index, rows := RowsBySlot(current), SortRows(target);
    var movements := MovementsFor(index, rows);
    SortRowsOrdered(target);
    SortedRows(target);
    RowsBySlotKeys(current);
    MovementsCover(index, rows);
    forall src, dst | src in current && dst in target && src.slot == dst.slot
      ensures Moved(movements, dst.slot) <==> src.replicas != dst.replicas || src.leader != dst.leader
    {
      RowFound(current, src);
      var k :| 0 <= k < |rows| && rows[k] == dst;
    }
    forall i | 0 <= i < |movements|
      ensures movements[i].source in current && movements[i].dest in target
              && movements[i].slot == movements[i].source.slot == movements[i].dest.slot
              && movements[i].actions == ActionsOf(movements[i].source, movements[i].dest)
    {
      MovementsFrom(index, rows, i);
    }
  }

  /* ---------- executions of a whole plan ---------- */

  /** An action taken for one shard. */
  datatype Taken = Taken(slot: Slot, action: Action)

  /** What was done for one shard, in order. */
  ghost function Part(order: seq<Taken>, slot: Slot): seq<Action>
  {
    if order == [] then []
    else
      var last := order[|order| - 1];
      Part(order[..|order| - 1], slot) + if last.slot == slot then [last.action] else []
  }

  /** Actions of the plan's movements, in any interleaving in which everything an action needs comes before it. */
  ghost predicate Follows(plan: Plan, order: seq<Taken>)
  {
    && (forall k :: 0 <= k < |order| ==> Moved(plan.movements, order[k].slot))
    && forall i :: 0 <= i < |plan.movements| ==>
         Respects(plan.movements[i].source, plan.movements[i].dest, Part(order, plan.movements[i].slot))
  }

  ghost predicate AllTaken(plan: Plan, order: seq<Taken>)
  {
    forall i, a :: 0 <= i < |plan.movements| && a in plan.movements[i].actions ==>
      a in Part(order, plan.movements[i].slot)
  }

  lemma {:induction false} PartPrefix(order: seq<Taken>, slot: Slot, n: nat)
    requires n <= |order|
    ensures Part(order[..n], slot) <= Part(order, slot)
    decreases |order|
  {
    if n < |order| {
      var m := |order| - 1;
      PartPrefix(order[..m], slot, n);
      assert order[..m][..n] == order[..n];
    } else {
      assert order[..n] == order;
    }
  }

  lemma {:induction false} PartEmpty(order: seq<Taken>, slot: Slot)
    requires forall k :: 0 <= k < |order| ==> order[k].slot != slot
    ensures Part(order, slot) == []
    decreases |order|
  {
    if order != [] { PartEmpty(order[..|order| - 1], slot); }
  }

  /** The movement of a shard is the only one, and is from and to its rows. */
  lemma MovementOf(current: seq<Placed>, target: seq<Placed>, plan: Plan, src: Placed, dst: Placed) returns (i: nat)
    requires MovesChanges(current, target, plan.movements) && OneRowEach(current) && OneRowEach(target)
    requires src in current && dst in target && src.slot == dst.slot && Moved(plan.movements, dst.slot)
    ensures i < |plan.movements| && plan.movements[i] == Movement(dst.slot, src, dst, ActionsOf(src, dst))
  {
    hide ActionsOf, Ahead;
    i :| 0 <= i < |plan.movements| && plan.movements[i].slot == dst.slot;
    RowFound(current, src);
    RowFound(target, dst);
    RowFound(current, plan.movements[i].source);
    RowFound(target, plan.movements[i].dest);
  }

  /** At every moment of every execution of the plan, no shard is unsafe. */
  lemma PlanNeverUnsafe(current: seq<Placed>, target: seq<Placed>, plan: Plan, order: seq<Taken>, n: nat, src: Placed,
      dst: Placed)
    requires MovesChanges(current, target, plan.movements) && OneRowEach(current) && OneRowEach(target)
    requires Follows(plan, order) && n <= |order|
    requires src in current && dst in target && src.slot == dst.slot
    requires src.leader in src.replicas && dst.leader in dst.replicas
    ensures var now := Part(order[..n], dst.slot);
            && (!Committed(now) ==> RemovedNodes(now) == {} && Elements(src.replicas) <= Serving(src, now))
            && (Committed(now) ==> Elements(dst.replicas) <= Serving(src, now))
            && (if Transferred(now) then dst.leader else src.leader) in Serving(src, now)
  {
    hide ActionsOf, Ahead, Respects, MovesChanges, OneRowEach;
    PartPrefix(order, dst.slot, n);
    var whole, now := Part(order, dst.slot), Part(order[..n], dst.slot);
    if Moved(plan.movements, dst.slot) {
      var i := MovementOf(current, target, plan, src, dst);
      assert whole[..|now|] == now;
      NeverUnsafe(src, dst, whole, |now|);
    } else {
      PartEmpty(order, dst.slot);
    }
  }

  /** Once every action of the plan has run, every shard is served by exactly its target replicas and led as planned. */
  lemma PlanEndsAtTarget(current: seq<Placed>, target: seq<Placed>, plan: Plan, order: seq<Taken>, src: Placed,
      dst: Placed)
    requires MovesChanges(current, target, plan.movements) && OneRowEach(current) && OneRowEach(target)
    requires Follows(plan, order) && AllTaken(plan, order)
    requires src in current && dst in target && src.slot == dst.slot
    ensures var done := Part(order, dst.slot);
            Serving(src, done) == Elements(dst.replicas)
            && (if Transferred(done) then dst.leader else src.leader) == dst.leader
  {
    hide Ahead, Respects, OneRowEach, ActionsOf, Planned;
    var done := Part(order, dst.slot);
    if Moved(plan.movements, dst.slot) {
      var i := MovementOf(current, target, plan, src, dst);
      forall a | Planned(src, dst, a) ensures a in done { ActionsPlanned(src, dst, a); }
      EndsAtTarget(src, dst, done);
      CommitTaken(src, dst, done);
      if src.leader != dst.leader { CommitNeedsTransfer(src, dst, done); }
    } else {
      PartEmpty(order, dst.slot);
    }
  }

  lemma CommitTaken(src: Placed, dst: Placed, order: seq<Action>)
    requires forall a :: Planned(src, dst, a) ==> a in order
    ensures Committed(order)
  {
    assert Planned(src, dst, CommitOf(src, dst));
    var i :| 0 <= i < |order| && order[i] == CommitOf(src, dst);
  }

  method PlanRebalance(current: Table, target: Table) returns (r: Option<Plan>)
    ensures r.Some? <==> 0 < current.epoch < target.epoch && current.factor == target.factor &&
                         OneRowEach(current.rows) && OneRowEach(SortRows(target.rows))
                             && SlotSet(current.rows) == SlotSet(SortRows(target.rows))
    ensures r.Some? ==> var rows := SortRows(target.rows);
                        && (forall i :: 0 <= i < |rows| ==> rows[i].slot in RowsBySlot(current.rows))
                        && r.value == Plan(current.epoch, target.epoch, false,
                           MovementsFor(RowsBySlot(current.rows), rows))
    ensures r.Some? ==> MovesChanges(current.rows, target.rows, r.value.movements)
  {
    hide OneRowEach, SlotSet, ActionsOf, SortRows, MovesChanges;
    if current.epoch == 0 || target.epoch <= current.epoch || current.factor != target.factor { return None; }
    var ok, index := IndexRows(current.rows);
    if !ok { return None; }
    RowsBySlotKeys(current.rows);
    NoRows();
    var left, rows := index, SortRows(target.rows);
    var movements: seq<Movement> := [];
    assert rows[..0] == [];
    for i := 0 to |rows|
      invariant OneRowEach(rows[..i]) && left == index - SlotSet(rows[..i]) && SlotSet(rows[..i]) <= index.Keys
      invariant forall k :: 0 <= k < i ==> rows[k].slot in index
      invariant movements == MovementsFor(index, rows[..i])
    {
      OneRowPush(rows, i);
      var dst := rows[i];
      if dst.slot !in left {
        StillOutside(rows, i, index);
        return None;
      }
      assert rows[..i + 1][..i] == rows[..i];
      var src := left[dst.slot];
      if !Unmoved(src, dst) {
        var actions := BuildActions(src, dst);
        movements := movements + [Movement(dst.slot, src, dst, actions)];
      }
      left := left - {dst.slot};
    }
    assert rows[..|rows|] == rows;
    if left != map[] {
      ghost var s :| s in left;
      return None;
    }
    r := Some(Plan(current.epoch, target.epoch, false, movements));
    AllCovered(index, SlotSet(rows));
    PlansChanges(current.rows, target.rows);
  }

  lemma StillOutside(rows: seq<Placed>, i: nat, index: map<Slot, Placed>)
    requires i < |rows| && (rows[i].slot in SlotSet(rows[..i]) || rows[i].slot !in index)
    ensures !OneRowEach(rows) || SlotSet(rows) != index.Keys
  {
    assert rows[i].slot in SlotSet(rows);
    if rows[i].slot in SlotSet(rows[..i]) {
      var p :| p in rows[..i] && p.slot == rows[i].slot;
      var k :| 0 <= k < i && rows[..i][k] == p;
      assert rows[k].slot == rows[i].slot;
    }
  }

  lemma AllCovered(index: map<Slot, Placed>, s: set<Slot>)
    requires s <= index.Keys && index - s == map[]
    ensures s == index.Keys
  {
    forall k | k in index ensures k in s { assert k in (index - s).Keys + s; }
  }
}
