/**
 * Checking a plan, and the resumable journal that prepares it: only copies and catch-ups run, each recorded once done.
 */
module RebalanceExecution {
  import opened Collections
  import opened RaftSpec
  import opened Placement
  import opened Rebalance
  import opened ActionNames

  function FlatActions(movements: seq<Movement>): seq<Action>
  {
    if movements == [] then [] else FlatActions(movements[..|movements| - 1]) + movements[|movements| - 1].actions
  }

  function IdsOf(actions: seq<Action>): seq<Id>
  {
    seq(|actions|, i requires 0 <= i < |actions| => actions[i].id)
  }

  predicate MovesData(a: Action)
  {
    a.kind == Copy || a.kind == CatchUp
  }

  predicate GoodAction(a: Action)
  {
    a.id != NoId && (MovesData(a) ==> ValidNodeId(a.source) && ValidNodeId(a.target) && a.source != a.target)
  }

  ghost predicate NeedsKnown(actions: seq<Action>)
  {
    forall i, d :: 0 <= i < |actions| && d in actions[i].needs ==> d in IdsOf(actions)
  }

  ghost predicate ActionsValid(actions: seq<Action>)
  {
    (forall i :: 0 <= i < |actions| ==> GoodAction(actions[i])) && Distinct(IdsOf(actions)) && NeedsKnown(actions)
  }

  ghost predicate PlanValid(p: Plan)
  {
    0 < p.from < p.to && !p.authoritative && ActionsValid(FlatActions(p.movements))
  }

  ghost function RequiredIds(actions: seq<Action>): set<Id>
  {
    set a | a in actions && MovesData(a) :: a.id
  }

  /* ---------- validation ---------- */

  lemma IdsPush(actions: seq<Action>, i: nat)
    requires i < |actions| && Distinct(IdsOf(actions[..i]))
    ensures Distinct(IdsOf(actions[..i + 1])) <==> actions[i].id !in Elements(IdsOf(actions[..i]))
    ensures Elements(IdsOf(actions[..i + 1])) == Elements(IdsOf(actions[..i])) + {actions[i].id}
    ensures !Distinct(IdsOf(actions[..i + 1])) ==> !Distinct(IdsOf(actions))
  {
    var a, b := IdsOf(actions[..i]), IdsOf(actions[..i + 1]);
    assert b == a + [actions[i].id];
    if actions[i].id in a {
      var k :| 0 <= k < |a| && a[k] == actions[i].id;
      assert b[k] == b[i];
    }
    if !Distinct(b) {
      var x, y :| 0 <= x < y < |b| && b[x] == b[y];
      assert IdsOf(actions)[x] == IdsOf(actions)[y];
    }
  }

  lemma RequiredPush(actions: seq<Action>, i: nat)
    requires i < |actions|
    ensures RequiredIds(actions[..i + 1]) == RequiredIds(actions[..i]) + if MovesData(actions[i]) then {actions[i].id}
            else {}
  {
    assert actions[..i + 1] == actions[..i] + [actions[i]];
  }

  method CheckIds(actions: seq<Action>) returns (ok: bool, all: set<Id>, required: set<Id>)
    ensures ok <==> (forall i :: 0 <= i < |actions| ==> GoodAction(actions[i])) && Distinct(IdsOf(actions))
    ensures ok ==> all == Elements(IdsOf(actions)) && required == RequiredIds(actions)
  {
    hide ValidNodeId, Distinct, Elements, RequiredIds;
    all, required := {}, {};
    NothingChecked(actions[..0]);
    for i := 0 to |actions|
      invariant forall k :: 0 <= k < i ==> GoodAction(actions[k])
      invariant Distinct(IdsOf(actions[..i])) && all == Elements(IdsOf(actions[..i]))
                && required == RequiredIds(actions[..i])
    {
      var a := actions[i];
      IdsPush(actions, i);
      RequiredPush(actions, i);
      if a.id == NoId { return false, all, required; }
      if a.id in all { return false, all, required; }
      all := all + {a.id};
      if MovesData(a) {
        if !ValidNodeId(a.source) || !ValidNodeId(a.target) || a.source == a.target { return false, all, required; }
        required := required + {a.id};
      }
    }
    assert actions[..|actions|] == actions;
    ok := true;
  }

  lemma NothingChecked(actions: seq<Action>)
    requires actions == []
    ensures Distinct(IdsOf(actions)) && Elements(IdsOf(actions)) == {} && RequiredIds(actions) == {}
  {
  }

  method CheckNeeds(actions: seq<Action>, all: set<Id>) returns (ok: bool)
    requires all == Elements(IdsOf(actions))
    ensures ok <==> NeedsKnown(actions)
  {
    hide IdsOf;
    assert forall d :: d in all <==> d in IdsOf(actions);
    for i := 0 to |actions|
      invariant forall k, d :: 0 <= k < i && d in actions[k].needs ==> d in all
    {
      for j := 0 to |actions[i].needs|
        invariant forall d :: d in actions[i].needs[..j] ==> d in all
      {
        if actions[i].needs[j] !in all {
          assert actions[i].needs[j] in actions[i].needs;
          return false;
        }
      }
      assert actions[i].needs[..|actions[i].needs|] == actions[i].needs;
    }
    ok := true;
  }

  method ValidatePlan(p: Plan) returns (ok: bool, required: set<Id>)
    ensures ok <==> PlanValid(p)
    ensures ok ==> required == RequiredIds(FlatActions(p.movements))
  {
    hide Distinct, GoodAction, NeedsKnown, RequiredIds, IdsOf;
    required := {};
    if p.from == 0 || p.to <= p.from || p.authoritative { return false, required; }
    var actions, all := FlatActions(p.movements), {};
    ok, all, required := CheckIds(actions);
    if !ok { return; }
    ok := CheckNeeds(actions, all);
  }

  /* ---------- planned plans pass ---------- */

  /** Every name belongs to the movement's own slot. */
  predicate IdOf(slot: Slot, id: Id)
  {
    id != NoId && id.slot == slot
  }

  lemma {:induction false} WithoutDistinct(list: seq<string>, have: seq<string>)
    requires Distinct(list)
    ensures Distinct(Without(list, have))
    decreases |list|
  {
    if list != [] {
      var n := |list| - 1;
      WithoutDistinct(list[..n], have);
      WithoutMembers(list[..n], have, list[n]);
      assert list[n] !in list[..n];
    }
  }

  lemma IdsConcat(a: seq<Action>, b: seq<Action>)
    requires Distinct(IdsOf(a)) && Distinct(IdsOf(b))
    requires forall x, y :: x in a && y in b ==> x.id != y.id
    ensures Distinct(IdsOf(a + b))
  {
    forall i, j | 0 <= i < j < |a + b| ensures IdsOf(a + b)[i] != IdsOf(a + b)[j]
    {
      if j < |a| {
        assert IdsOf(a)[i] != IdsOf(a)[j];
      } else if i >= |a| {
        assert IdsOf(b)[i - |a|] != IdsOf(b)[j - |a|];
      } else {
        assert a[i] in a && b[j - |a|] in b;
      }
    }
  }

  lemma {:induction false} ArrivalsDistinct(slot: Slot, leader: string, nodes: seq<string>)
    requires Distinct(nodes)
    ensures Distinct(IdsOf(Arrivals(slot, leader, nodes)))
    decreases |nodes|
  {
    if nodes != [] {
      var n := |nodes| - 1;
      var rest, last := Arrivals(slot, leader, nodes[..n]),
          [CopyOf(slot, leader, nodes[n]), CatchUpOf(slot, leader, nodes[n])];
      ArrivalsDistinct(slot, leader, nodes[..n]);
      forall x, y | x in rest && y in last ensures x.id != y.id
      {
        ArrivalsMembers(slot, leader, nodes[..n], x);
        var k :| k in nodes[..n] && (x == CopyOf(slot, leader, k) || x == CatchUpOf(slot, leader, k));
        assert k != nodes[n];
      }
      IdsConcat(rest, last);
    }
  }

  lemma {:induction false} RemovalsDistinct(slot: Slot, nodes: seq<string>)
    requires Distinct(nodes)
    ensures Distinct(IdsOf(Removals(slot, nodes)))
    decreases |nodes|
  {
    if nodes != [] {
      var n := |nodes| - 1;
      var rest := Removals(slot, nodes[..n]);
      var last := [Action(RemoveId(slot, nodes[n]), Removal, "", nodes[n], [CommitId(slot)])];
      RemovalsDistinct(slot, nodes[..n]);
      forall x, y | x in rest && y in last ensures x.id != y.id
      {
        RemovalsMembers(slot, nodes[..n], x);
        var k :| k in nodes[..n] && x == Action(RemoveId(slot, k), Removal, "", k, [CommitId(slot)]);
        assert k != nodes[n];
      }
      IdsConcat(rest, last);
    }
  }

  lemma KindsOf(src: Placed, dst: Placed, a: Action)
    requires Planned(src, dst, a)
    ensures IdOf(dst.slot, a.id)
    ensures a.kind == Copy <==> a.id.CopyId?
    ensures a.kind == CatchUp <==> a.id.CatchUpId?
    ensures a.kind == Transfer <==> a.id.TransferId?
    ensures a.kind == Commit <==> a.id.CommitId?
    ensures a.kind == Removal <==> a.id.RemoveId?
  {
  }

  lemma ArrivalKinds(slot: Slot, leader: string, nodes: seq<string>)
    ensures forall a :: a in Arrivals(slot, leader, nodes) ==> a.id.CopyId? || a.id.CatchUpId?
  {
    forall a | a in Arrivals(slot, leader, nodes)
        ensures a.id.CopyId? || a.id.CatchUpId? { ArrivalsMembers(slot, leader, nodes, a); }
  }

  lemma RemovalKinds(slot: Slot, nodes: seq<string>)
    ensures forall a :: a in Removals(slot, nodes) ==> a.id.RemoveId?
  {
    forall a | a in Removals(slot, nodes) ensures a.id.RemoveId? { RemovalsMembers(slot, nodes, a); }
  }

  lemma ActionsDistinct(src: Placed, dst: Placed)
    requires Distinct(src.replicas) && Distinct(dst.replicas)
    ensures Distinct(IdsOf(ActionsOf(src, dst)))
  {
    hide Distinct, Arrivals, Removals, Without, Distinct;
    var arrivals := Arrivals(dst.slot, src.leader, Without(dst.replicas, src.replicas));
    var transfer := if src.leader != dst.leader then [TransferOf(src, dst)] else [];
    var commit := [CommitOf(src, dst)];
    var removals := Removals(dst.slot, Without(src.replicas, dst.replicas));
    WithoutDistinct(dst.replicas, src.replicas);
    WithoutDistinct(src.replicas, dst.replicas);
    ArrivalsDistinct(dst.slot, src.leader, Without(dst.replicas, src.replicas));
    RemovalsDistinct(dst.slot, Without(src.replicas, dst.replicas));
    ArrivalKinds(dst.slot, src.leader, Without(dst.replicas, src.replicas));
    RemovalKinds(dst.slot, Without(src.replicas, dst.replicas));
    OneDistinct(transfer);
    OneDistinct(commit);
    IdsConcat(arrivals, transfer);
    IdsConcat(arrivals + transfer, commit);
    IdsConcat(arrivals + transfer + commit, removals);
  }

  lemma OneDistinct(a: seq<Action>)
    requires |a| <= 1
    ensures Distinct(IdsOf(a))
  {
  }

  lemma PlannedGood(src: Placed, dst: Placed, a: Action)
    requires SoundRow(src) && SoundRow(dst) && Planned(src, dst, a)
    ensures GoodAction(a)
  {
    hide ValidNodeId;
    if MovesData(a) {
      var node :| node in dst.replicas && node !in src.replicas
          && (a == CopyOf(dst.slot, src.leader, node) || a == CatchUpOf(dst.slot, src.leader, node));
    }
  }

  lemma PlannedNeeds(src: Placed, dst: Placed, a: Action, d: Id)
    requires Planned(src, dst, a) && d in a.needs
    ensures exists b :: Planned(src, dst, b) && b.id == d
  {
    var newcomers := Without(dst.replicas, src.replicas);
    CatchUpsMembers(dst.slot, newcomers, "");
    if a.kind == CatchUp {
      var b := CopyOf(dst.slot, src.leader, a.target);
      assert Planned(src, dst, b) && b.id == d;
    } else if a.kind == Removal {
      assert Planned(src, dst, CommitOf(src, dst));
    } else if d.TransferId? {
      assert Planned(src, dst, TransferOf(src, dst));
    } else {
      WithoutMembers(dst.replicas, src.replicas, d.node);
      var b := CatchUpOf(dst.slot, src.leader, d.node);
      assert Planned(src, dst, b) && b.id == d;
    }
  }

  /** A movement as the planner makes it. */
  ghost predicate MovementOk(m: Movement)
  {
    && SoundRow(m.source) && SoundRow(m.dest) && m.slot == m.dest.slot && m.actions == ActionsOf(m.source, m.dest)
  }

  ghost predicate SlotsApart(ms: seq<Movement>)
  {
    forall i, j :: 0 <= i < j < |ms| ==> ms[i].slot != ms[j].slot
  }

  lemma {:induction false} FlatMembers(ms: seq<Movement>, a: Action)
    ensures a in FlatActions(ms) <==> exists i :: 0 <= i < |ms| && a in ms[i].actions
    decreases |ms|
  {
    if ms != [] { FlatMembers(ms[..|ms| - 1], a); }
  }

  lemma MovementIds(m: Movement, a: Action)
    requires MovementOk(m) && a in m.actions
    ensures Planned(m.source, m.dest, a) && IdOf(m.slot, a.id)
  {
    ActionsPlanned(m.source, m.dest, a);
    KindsOf(m.source, m.dest, a);
  }

  lemma {:induction false} FlatDistinct(ms: seq<Movement>)
    requires SlotsApart(ms) && forall i :: 0 <= i < |ms| ==> MovementOk(ms[i])
    ensures Distinct(IdsOf(FlatActions(ms)))
    decreases |ms|
  {
    hide Distinct, MovementOk;
    if ms == [] {
      OneDistinct([]);
    } else {
      var n := |ms| - 1;
      FlatDistinct(ms[..n]);
      LastDistinct(ms[n]);
      forall x, y | x in FlatActions(ms[..n]) && y in ms[n].actions ensures x.id != y.id
      {
        FlatMembers(ms[..n], x);
        var i :| 0 <= i < n && x in ms[..n][i].actions;
        MovementIds(ms[i], x);
        MovementIds(ms[n], y);
      }
      IdsConcat(FlatActions(ms[..n]), ms[n].actions);
    }
  }

  lemma LastDistinct(m: Movement)
    requires MovementOk(m)
    ensures Distinct(IdsOf(m.actions))
  {
    ActionsDistinct(m.source, m.dest);
  }

  lemma FlatNeeds(ms: seq<Movement>)
    requires forall i :: 0 <= i < |ms| ==> MovementOk(ms[i])
    ensures NeedsKnown(FlatActions(ms)) && forall a :: a in FlatActions(ms) ==> GoodAction(a)
  {
    hide MovementOk, GoodAction, Planned;
    var all := FlatActions(ms);
    forall a | a in all ensures GoodAction(a) { GoodIn(ms, a); }
    forall i, d | 0 <= i < |all| && d in all[i].needs ensures d in IdsOf(all)
    {
      NeedIn(ms, all[i], d);
      var b :| b in all && b.id == d;
      var j :| 0 <= j < |all| && all[j] == b;
      assert IdsOf(all)[j] == d;
    }
  }

  lemma GoodIn(ms: seq<Movement>, a: Action)
    requires a in FlatActions(ms) && forall i :: 0 <= i < |ms| ==> MovementOk(ms[i])
    ensures GoodAction(a)
  {
    hide GoodAction, SoundRow, Planned;
    FlatMembers(ms, a);
    var k :| 0 <= k < |ms| && a in ms[k].actions;
    MovementIds(ms[k], a);
    PlannedGood(ms[k].source, ms[k].dest, a);
  }

  lemma NeedIn(ms: seq<Movement>, a: Action, d: Id)
    requires a in FlatActions(ms) && d in a.needs && forall i :: 0 <= i < |ms| ==> MovementOk(ms[i])
    ensures exists b :: b in FlatActions(ms) && b.id == d
  {
    hide SoundRow, Planned;
    FlatMembers(ms, a);
    var k :| 0 <= k < |ms| && a in ms[k].actions;
    MovementIds(ms[k], a);
    PlannedNeeds(ms[k].source, ms[k].dest, a, d);
    var b :| Planned(ms[k].source, ms[k].dest, b) && b.id == d;
    ActionsPlanned(ms[k].source, ms[k].dest, b);
    FlatMembers(ms, b);
  }

  lemma {:induction false} MovementsOk(index: map<Slot, Placed>, targets: seq<Placed>)
    requires forall i :: 0 <= i < |targets| ==> targets[i].slot in index
    requires OneRowEach(targets) && (forall s :: s in index ==> SoundRow(index[s]))
             && (forall i :: 0 <= i < |targets| ==> SoundRow(targets[i]))
    ensures var ms := MovementsFor(index, targets);
            && (forall i :: 0 <= i < |ms| ==> MovementOk(ms[i]) && ms[i].slot in SlotSet(targets)) && SlotsApart(ms)
    decreases |targets|
  {
    hide ActionsOf, SoundRow;
    if targets != [] {
      var n := |targets| - 1;
      MovementsOk(index, targets[..n]);
      assert targets == targets[..n] + [targets[n]];
      assert targets[n].slot !in SlotSet(targets[..n]);
    }
  }

  lemma PlannedNamed(src: Placed, dst: Placed, a: Action)
    requires SoundRow(src) && SoundRow(dst) && Planned(src, dst, a)
    ensures WellNamed(a.id)
  {
    hide ValidNodeId;
    if a.id.CopyId? || a.id.CatchUpId? || a.id.TransferId? {
      assert a.id.node in dst.replicas;
    } else if a.id.RemoveId? {
      assert a.id.node in src.replicas;
    }
  }

  /** The names under which the actions are printed are not empty and differ. */
  ghost predicate PrintedApart(actions: seq<Action>)
  {
    && (forall i :: 0 <= i < |actions| ==> Print(actions[i].id) != "")
    && forall i, j :: 0 <= i < j < |actions| ==> Print(actions[i].id) != Print(actions[j].id)
  }

  lemma NamesApart(actions: seq<Action>)
    requires Distinct(IdsOf(actions)) && forall a :: a in actions ==> WellNamed(a.id)
    ensures PrintedApart(actions)
  {
    hide WellNamed, Print;
    forall i | 0 <= i < |actions| ensures Print(actions[i].id) != "" { PrintSomething(actions[i].id); }
    forall i, j | 0 <= i < j < |actions| ensures Print(actions[i].id) != Print(actions[j].id)
    {
      assert IdsOf(actions)[i] != IdsOf(actions)[j];
      if Print(actions[i].id) == Print(actions[j].id) { PrintInjective(actions[i].id, actions[j].id); }
    }
  }

  lemma PrintSomething(id: Id)
    requires WellNamed(id)
    ensures Print(id) != ""
  {
    hide ValidNodeId, Base;
  }

  lemma FlatNamed(ms: seq<Movement>)
    requires forall i :: 0 <= i < |ms| ==> MovementOk(ms[i])
    ensures forall a :: a in FlatActions(ms) ==> WellNamed(a.id)
  {
    hide WellNamed, SoundRow, Planned;
    forall a | a in FlatActions(ms) ensures WellNamed(a.id)
    {
      FlatMembers(ms, a);
      var k :| 0 <= k < |ms| && a in ms[k].actions;
      MovementIds(ms[k], a);
      PlannedNamed(ms[k].source, ms[k].dest, a);
    }
  }

  /** Every plan the planner makes from sound tables passes validation, also by its printed names. */
  lemma PlannedPlansValid(current: Table, target: Table, plan: Plan)
    requires 0 < current.epoch < target.epoch && OneRowEach(SortRows(target.rows))
    requires forall p :: p in current.rows || p in target.rows ==> SoundRow(p)
    requires forall i :: 0 <= i < |SortRows(target.rows)| ==> SortRows(target.rows)[i].slot in RowsBySlot(current.rows)
    requires plan == Plan(current.epoch, target.epoch, false,
             MovementsFor(RowsBySlot(current.rows), SortRows(target.rows)))
    ensures PlanValid(plan) && Ordered(FlatActions(plan.movements)) && PrintedApart(FlatActions(plan.movements))
  {
    hide SoundRow, MovementOk, Distinct, NeedsKnown, GoodAction, IdsOf, SortRows, Ordered, PrintedApart, WellNamed;
    var index, rows := RowsBySlot(current.rows), SortRows(target.rows);
    RowsBySlotKeys(current.rows);
    forall i | 0 <= i < |rows| ensures SoundRow(rows[i])
    {
      assert rows[i] in multiset(rows);
      assert rows[i] in multiset(target.rows);
    }
    MovementsOk(index, rows);
    FlatDistinct(plan.movements);
    FlatNeeds(plan.movements);
    FlatNamed(plan.movements);
    NamesApart(FlatActions(plan.movements));
    PlansOrdered(plan.movements);
  }

  /* ---------- the journal ---------- */

  /** The digest of a plan is taken to identify it, so the plan itself is kept. */
  datatype Preparation = Preparation(plan: Plan, completed: seq<Id>, ready: bool)

  datatype Outcome = Prepared | InvalidPlan | OtherPlan | Blocked(id: Id, need: Id) | Failed(id: Id)

  /** The action moves data, and everything it needs was done before. */
  ghost predicate Entered(a: Action, completed: seq<Id>, i: nat)
    requires i < |completed|
  {
    a.id == completed[i] && (a.kind == Copy || a.kind == CatchUp) && forall d :: d in a.needs ==> d in completed[..i]
  }

  /** A journal holds copies and catch-ups of the plan, each once and after what it needs. */
  ghost predicate Journaled(actions: seq<Action>, completed: seq<Id>)
  {
    Distinct(completed) && forall i :: 0 <= i < |completed| ==> EnteredAt(actions, completed, i)
  }

  ghost predicate EnteredAt(actions: seq<Action>, completed: seq<Id>, i: nat)
    requires i < |completed|
  {
    exists a :: a in actions && Entered(a, completed, i)
  }

  lemma JournaledPush(actions: seq<Action>, completed: seq<Id>, a: Action)
    requires Journaled(actions, completed) && a in actions && MovesData(a) && a.id !in completed
    requires forall d :: d in a.needs ==> d in completed
    ensures Journaled(actions, completed + [a.id])
  {
    var more := completed + [a.id];
    forall i | 0 <= i < |more| ensures EnteredAt(actions, more, i)
    {
      assert i <= |completed| ==> more[..i] == completed[..i];
      if i < |completed| {
        assert EnteredAt(actions, completed, i);
        var b :| b in actions && Entered(b, completed, i);
        assert Entered(b, more, i);
      } else {
        assert completed[..i] == completed;
        assert Entered(a, more, i);
      }
    }
  }

  /** Every copy and every catch-up is among the completed actions. */
  ghost predicate AllMoved(actions: seq<Action>, completed: seq<Id>)
  {
    forall a :: a in actions && (a.kind == Copy || a.kind == CatchUp) ==> a.id in completed
  }

  lemma RequiredMoved(actions: seq<Action>, completed: seq<Id>)
    ensures RequiredIds(actions) <= Elements(completed) <==> AllMoved(actions, completed)
  {
    if AllMoved(actions, completed) {
      forall id | id in RequiredIds(actions) ensures id in Elements(completed)
      {
        var a :| a in actions && MovesData(a) && a.id == id;
        assert a.id in completed;
      }
    }
    if RequiredIds(actions) <= Elements(completed) {
      forall a | a in actions && (a.kind == Copy || a.kind == CatchUp) ensures a.id in completed
      {
        assert a.id in RequiredIds(actions);
      }
    }
  }

  lemma AllRecorded(actions: seq<Action>, completed: seq<Id>)
    requires forall k :: 0 <= k < |actions| && MovesData(actions[k]) ==> actions[k].id in completed
    ensures RequiredIds(actions) <= Elements(completed)
  {
  }

  /** Whatever a data movement needs is an earlier data movement. */
  ghost predicate Ordered(actions: seq<Action>)
  {
    forall i, d :: 0 <= i < |actions| && MovesData(actions[i]) && d in actions[i].needs ==> MovedBefore(actions, i, d)
  }

  ghost predicate MovedBefore(actions: seq<Action>, i: nat, d: Id)
  {
    exists j :: 0 <= j < i && j < |actions| && MovesData(actions[j]) && actions[j].id == d
  }

  lemma OrderedConcat(a: seq<Action>, b: seq<Action>)
    requires Ordered(a) && Ordered(b)
    ensures Ordered(a + b)
  {
    var c := a + b;
    forall i, d | 0 <= i < |c| && MovesData(c[i]) && d in c[i].needs ensures MovedBefore(c, i, d)
    {
      if i < |a| {
        assert MovedBefore(a, i, d);
        var j :| 0 <= j < i && MovesData(a[j]) && a[j].id == d;
        assert c[j] == a[j];
      } else {
        assert MovedBefore(b, i - |a|, d);
        var j :| 0 <= j < i - |a| && MovesData(b[j]) && b[j].id == d;
        assert c[|a| + j] == b[j];
      }
    }
  }

  lemma {:induction false} ArrivalsOrdered(slot: Slot, leader: string, nodes: seq<string>)
    ensures Ordered(Arrivals(slot, leader, nodes))
    decreases |nodes|
  {
    if nodes != [] {
      var node := nodes[|nodes| - 1];
      var last := [CopyOf(slot, leader, node), CatchUpOf(slot, leader, node)];
      ArrivalsOrdered(slot, leader, nodes[..|nodes| - 1]);
      assert last[0].id == CopyId(slot, node) && MovesData(last[0]);
      assert MovedBefore(last, 1, CopyId(slot, node));
      OrderedConcat(Arrivals(slot, leader, nodes[..|nodes| - 1]), last);
    }
  }

  lemma RestOrdered(rest: seq<Action>)
    requires forall a :: a in rest ==> !MovesData(a)
    ensures Ordered(rest)
  {
  }

  lemma ActionsOrdered(src: Placed, dst: Placed)
    ensures Ordered(ActionsOf(src, dst))
  {
    hide Arrivals, Removals, Without, Ordered;
    var newcomers, gone := Without(dst.replicas, src.replicas), Without(src.replicas, dst.replicas);
    var arrivals := Arrivals(dst.slot, src.leader, newcomers);
    var transfer := if src.leader != dst.leader then [TransferOf(src, dst)] else [];
    var rest := transfer + [CommitOf(src, dst)] + Removals(dst.slot, gone);
    ArrivalsOrdered(dst.slot, src.leader, newcomers);
    forall a | a in Removals(dst.slot, gone) ensures !MovesData(a) { RemovalsMembers(dst.slot, gone, a); }
    RestOrdered(rest);
    OrderedConcat(arrivals, rest);
    assert ActionsOf(src, dst) == arrivals + rest;
  }

  /** Preparing a planned plan never blocks on an order of its own making. */
  lemma {:induction false} PlansOrdered(ms: seq<Movement>)
    requires forall i :: 0 <= i < |ms| ==> MovementOk(ms[i])
    ensures Ordered(FlatActions(ms))
    decreases |ms|
  {
    hide Ordered, SoundRow;
    if ms == [] {
      RestOrdered([]);
    } else {
      var n := |ms| - 1;
      PlansOrdered(ms[..n]);
      ActionsOrdered(ms[n].source, ms[n].dest);
      OrderedConcat(FlatActions(ms[..n]), ms[n].actions);
    }
  }

  lemma NothingJournaled(actions: seq<Action>)
    ensures Journaled(actions, [])
  {
  }

  class Executor {
    var state: Option<Preparation>
    /** The data movements that have really succeeded, in this or an earlier process. */
    ghost var moved: set<Id>

    ghost predicate Valid()
      reads this
    {
      state.Some? ==>
        && PlanValid(state.value.plan)
        && Elements(state.value.completed) <= moved
        && Journaled(FlatActions(state.value.plan.movements), state.value.completed)
        && (state.value.ready ==>
           RequiredIds(FlatActions(state.value.plan.movements)) <= Elements(state.value.completed))
    }

    constructor ()
      ensures Valid() && state == None && moved == {}
    {
      state, moved := None, {};
    }

    /** A copy or catch-up that is not in the journal yet. */
    predicate Outstanding(a: Action)
      reads this
      requires state.Some?
    {
      (a.kind == Copy || a.kind == CatchUp) && a.id !in state.value.completed
    }

    ghost predicate Awaits(a: Action)
      reads this
      requires state.Some?
    {
      exists d :: d in a.needs && d !in state.value.completed
    }

    /** One data movement: run only after what it needs, and recorded only after the mover reports success. */
    method RunAction(a: Action, mover: Id -> bool) returns (outcome: Option<Outcome>)
      requires Valid() && state.Some? && a in FlatActions(state.value.plan.movements)
      modifies this
      ensures Valid() && state.Some?
      ensures outcome.None? <==> !old(Outstanding(a)) || (!old(Awaits(a)) && mover(a.id))
      ensures outcome.Some? ==>
              if old(Awaits(a)) then outcome.value.Blocked? && outcome.value.id == a.id && outcome.value.need in a.needs
                  && outcome.value.need !in state.value.completed
              else outcome.value == Failed(a.id)
      ensures outcome.None? && old(Outstanding(a)) ==>
              && state == Some(old(state).value.(completed := old(state).value.completed + [a.id]))
              && moved == old(moved) + {a.id}
      ensures outcome.Some? || !old(Outstanding(a)) ==> state == old(state) && moved == old(moved)
    {
      hide PlanValid, RequiredIds, Journaled, FlatActions;
      var p := state.value;
      if !MovesData(a) || a.id in p.completed { return None; }
      for i := 0 to |a.needs|
        invariant forall k :: 0 <= k < i ==> a.needs[k] in p.completed
      {
        if a.needs[i] !in p.completed { return Some(Blocked(a.id, a.needs[i])); }
      }
      if !mover(a.id) { return Some(Failed(a.id)); }
      JournaledPush(FlatActions(p.plan.movements), p.completed, a);
      moved := moved + {a.id};
      state := Some(p.(completed := p.completed + [a.id]));
      outcome := None;
    }

    /** Resumes the journal of the same plan; it is declared ready only when every copy and catch-up has succeeded. */
    method Prepare(plan: Plan, mover: Id -> bool) returns (outcome: Outcome)
      requires Valid()
      modifies this
      ensures Valid() && old(moved) <= moved
      ensures outcome == InvalidPlan <==> !PlanValid(plan)
      ensures outcome == InvalidPlan ==> state == old(state) && moved == old(moved)
      ensures outcome == OtherPlan <==> PlanValid(plan) && old(state).Some? && old(state).value.plan != plan
      ensures outcome == OtherPlan ==> state == old(state) && moved == old(moved)
      ensures outcome == Prepared ==>
                && state.Some? && state.value.plan == plan && state.value.ready
                && AllMoved(FlatActions(plan.movements), state.value.completed)
                && Elements(state.value.completed) <= moved
      ensures outcome.Failed? ==> !mover(outcome.id)
      ensures outcome.Blocked? ==> state.Some? && outcome.need !in state.value.completed
      ensures PlanValid(plan) && (old(state).None? || old(state).value.plan == plan)
              && Ordered(FlatActions(plan.movements)) && (forall id :: mover(id)) ==>
                outcome == Prepared
      ensures old(state).Some? && state.Some? && state.value.plan == old(state).value.plan ==>
              old(state).value.completed <= state.value.completed
    {
      hide PlanValid, RequiredIds, FlatActions, Journaled, AllMoved;
      var ok, required := ValidatePlan(plan);
      if !ok { return InvalidPlan; }
      NothingJournaled(FlatActions(plan.movements));
      if state.None? {
        state := Some(Preparation(plan, [], false));
      } else if state.value.plan != plan {
        return OtherPlan;
      }
      var actions := FlatActions(plan.movements);
      ghost var start := state.value.completed;
      for i := 0 to |actions|
        invariant Valid() && state.Some? && state.value.plan == plan && start <= state.value.completed
                  && old(moved) <= moved
        invariant forall k :: 0 <= k < i && MovesData(actions[k]) ==> actions[k].id in state.value.completed
      {
        ghost var was := state.value.completed;
        var stop := RunAction(actions[i], mover);
        if stop.Some? { return stop.value; }
        assert forall id :: id in was ==> id in state.value.completed;
      }
      AllRecorded(actions, state.value.completed);
      RequiredMoved(actions, state.value.completed);
      var ready := true;
      var left := required;
      while left != {} && ready
        invariant left <= required && (ready ==> required - left <= Elements(state.value.completed))
        invariant !ready ==> !(required <= Elements(state.value.completed))
        decreases |left|, ready
      {
        var id :| id in left;
        if id !in state.value.completed { ready := false; } else { left := left - {id}; }
      }
      state := Some(state.value.(ready := ready));
      outcome := Prepared;
    }

    /** Clears a finished preparation once its epoch is committed. */
    method ResetCommitted(epoch: nat) returns (ok: bool)
      requires Valid()
      modifies this
      ensures Valid() && moved == old(moved)
      ensures ok <==> old(state).None? || (old(state).value.ready && epoch >= old(state).value.plan.to)
      ensures ok ==> state == None
      ensures !ok ==> state == old(state)
    {
      hide PlanValid, RequiredIds, Journaled;
      if state.None? { return true; }
      if !state.value.ready || epoch < state.value.plan.to { return false; }
      state := None;
      ok := true;
    }

    method Ready(plan: Plan) returns (ok: bool)
      requires Valid()
      ensures ok ==>
              && state.Some? && state.value.plan == plan && Elements(state.value.completed) <= moved
              && AllMoved(FlatActions(plan.movements), state.value.completed)
      ensures ok <==> PlanValid(plan) && state.Some? && state.value.plan == plan && state.value.ready
    {
      hide PlanValid, RequiredIds, Journaled, AllMoved;
      if state.Some? { RequiredMoved(FlatActions(state.value.plan.movements), state.value.completed); }
      var valid, _ := ValidatePlan(plan);
      ok := valid && state.Some? && state.value.plan == plan && state.value.ready;
    }
  }
}
