/** What holds in every run of the metadata group with a fixed voter set. */
module RaftSafety {
  import opened Collections
  import opened RaftTypes
  import opened RaftSpec
  import opened RaftRefinement
  import opened FullLog
  import opened FullLogSafety
  import opened FullLogInduction
  import opened RaftSimulation
  import C = RaftCluster
  import RaftReopen

  lemma StartRelated(g: Group, c: C.Cluster) returns (a: State)
    requires C.Start(g, c)
    ensures Rel(g, c, a) && Inv(a)
  {
    hide Inv, Canonical;
    a := State(map n | n in c.peers :: Node(0, "", [], 0, Follower), {}, map[], map[]);
    EmptyIsNoVoter(g);
    InitHolds(a);
    forall n | n in c.peers ensures PeerRel(g, c.peers[n], a.nodes[n]) {
      assert a.nodes[n].log[..0] == [];
    }
  }

  lemma EmptyIsNoVoter(g: Group)
    requires C.ValidGroup(g)
    ensures "" !in Elements(g.voters)
  {
    assert !ValidNodeId("");
  }

  lemma Simulate(g: Group, c: C.Cluster, c': C.Cluster, a: State, act: C.Action) returns (a': State)
    requires Rel(g, c, a) && Inv(a) && C.Move(g, c, c', act)
    ensures Rel(g, c', a') && Inv(a') && Ext(a, a')
  {
    hide Inv, Rel, Ext, PeerRel;
    match act
    case Restart(n) => a' := SimRestart(g, c, c', a, n, act);
    case StepDown(n) => a' := SimRestart(g, c, c', a, n, act);
    case Observe(n, term) => a' := SimRestart(g, c, c', a, n, act);
    case Campaign(n) => a' := SimCampaign(g, c, c', a, n);
    case AnswerVote(n, m) => a' := SimVote(g, c, c', a, n, m);
    case BecomeLeader(n, votes) => a' := SimLead(g, c, c', a, n, votes);
    case Propose(n, view) => a' := SimPropose(g, c, c', a, n, view);
    case SendAppend(n, next, limit) => a' := SimSendAppend(g, c, c', a, n, next, limit);
    case AnswerAppend(n, m) => a' := SimAppend(g, c, c', a, n, m);
    case SendSnapshot(n) => a' := SimSendSnapshot(g, c, c', a, n);
    case AnswerSnapshot(n, m) => a' := SimSnapshot(g, c, c', a, n, m);
    case CommitEntry(n, index, acks) => a' := SimCommit(g, c, c', a, n, index, acks);
    case Compact(n) => a' := a; SimCompact(g, c, c', a, n);
  }

  lemma SimRestart(g: Group, c: C.Cluster, c': C.Cluster, a: State, n: NodeId, act: C.Action) returns (a': State)
    requires Rel(g, c, a) && Inv(a) && C.Move(g, c, c', act) && act.n == n
    requires act.Restart? || act.StepDown? || act.Observe?
    ensures Rel(g, c', a') && Inv(a') && Ext(a, a')
  {
    hide Inv, Rel, Ext, Represents, Good, ApplyAll, RaftReopen.Reopen;
    RelFacts(g, c, a, n);
    var s := c.peers[n].store;
    FileReopens(g, c.peers[n], a.nodes[n]);
    a' := SimQuiet(g, c, c', a, n, if act.Observe? then Max(s.currentTerm, act.term)
        else s.currentTerm, Follower, c'.peers[n].won);
  }

  /**
   * The state file of a related peer passes the check on open: its retained entries replay from its snapshot to what it
   * says.
   */
  lemma FileReopens(g: Group, p: C.Peer, x: Node)
    requires C.ValidGroup(g) && PeerRel(g, p, x)
    ensures RaftReopen.Reopen(p.disk, g.boot) == Some(p.store)
  {
    hide RaftReopen.Reopen, PeerRel, RaftReopen.Keeps;
    StoreKeeps(g, p, x);
    RaftReopen.KeptReopens(p.store, g.boot);
    SameDisk(g, p, x);
  }

  lemma SameDisk(g: Group, p: C.Peer, x: Node)
    requires PeerRel(g, p, x)
    ensures p.disk == p.store
  {
  }

  lemma StoreKeeps(g: Group, p: C.Peer, x: Node)
    requires C.ValidGroup(g) && PeerRel(g, p, x)
    ensures RaftReopen.Keeps(p.store, g.boot)
  {
    hide ApplyAll, RaftReopen.ReplayAll, ValidEntry, RaftReopen.MachineFits, Canonical, RaftReopen.ViewFits;
    var s := p.store;
    BootFits(g);
    SnapshotFits(g, s, x.log);
    GoodTake(x.log, x.commit);
    RaftReopen.ApplyAllFits(Boot(g), x.log[..x.commit], g.boot);
    RetainedReplays(g, s, x.log);
  }

  lemma BootFits(g: Group)
    requires C.ValidGroup(g)
    ensures RaftReopen.MachineFits(Boot(g), g.boot)
  {
    hide Canonical;
  }

  lemma SnapshotFits(g: Group, s: Store, log: Log)
    requires C.ValidGroup(g) && Represents(s, log) && Good(log)
    requires ApplyAll(Boot(g), log[..s.snapshotIndex]) == Some(Machine(s.snapshotEpoch, s.snapshotView, g.voters, [],
             []))
    ensures s.snapshotIndex == 0 <==> s.snapshotTerm == 0
    ensures s.snapshotEpoch >= g.boot && RaftReopen.ViewFits(s.snapshotEpoch, g.boot, s.snapshotView)
  {
    hide ApplyAll, Canonical, ValidView;
    if s.snapshotIndex > 0 { assert log[s.snapshotIndex - 1] in log; }
    BootFits(g);
    GoodTake(log, s.snapshotIndex);
    RaftReopen.ApplyAllFits(Boot(g), log[..s.snapshotIndex], g.boot);
  }

  lemma RetainedReplays(g: Group, s: Store, log: Log)
    requires Represents(s, log) && ApplyAll(Boot(g), log[..s.commitIndex]) == Some(MachineOf(s))
    requires ApplyAll(Boot(g), log[..s.snapshotIndex]) == Some(Machine(s.snapshotEpoch, s.snapshotView, g.voters, [],
             []))
    ensures RaftReopen.Committable(s)
  {
    hide ApplyAll, RaftReopen.ReplayAll;
    var n, c := s.snapshotIndex, s.commitIndex;
    assert log[..c] == log[..n] + log[n..c] && s.entries[..c - n] == log[n..c];
    ApplyAllConcat(Boot(g), log[..n], log[n..c]);
    RaftReopen.ReplayAllFollows(Machine(s.snapshotEpoch, s.snapshotView, g.voters, [], []),
                                Machine(s.snapshotEpoch, s.snapshotView, [], [], []), log[n..c]);
  }

  /** A reference run alongside the cluster's run. */
  lemma {:induction false} Shadow(g: Group, run: seq<C.Cluster>, acts: seq<C.Action>) returns (h: seq<State>)
    requires C.IsRun(g, run, acts)
    ensures |h| == |run|
    ensures forall i :: 0 <= i < |h| ==> Rel(g, run[i], h[i]) && Inv(h[i])
    ensures forall i :: 0 <= i < |h| - 1 ==> Ext(h[i], h[i + 1])
    decreases |acts|
  {
    hide Inv, Rel, Ext, C.Move, C.Start;
    if acts == [] {
      var a := StartRelated(g, run[0]);
      h := [a];
    } else {
      var k := |acts| - 1;
      var before := Shadow(g, run[..k + 1], acts[..k]);
      assert C.Move(g, run[k], run[k + 1], acts[k]);
      var a := Simulate(g, run[k], run[k + 1], before[k], acts[k]);
      h := before + [a];
    }
  }

  lemma ExtTransitive(a: State, b: State, c: State)
    requires Ext(a, b) && Ext(b, c)
    ensures Ext(a, c)
  {
    forall t | t in a.logs
        ensures t in c.logs && a.logs[t] <= c.logs[t] { TakePrefix(b.logs[t], c.logs[t], |a.logs[t]|); }
  }

  lemma {:induction false} ExtAlong(h: seq<State>, i: nat, j: nat)
    requires i <= j < |h| && forall k :: 0 <= k < |h| - 1 ==> Ext(h[k], h[k + 1])
    ensures Ext(h[i], h[j])
    decreases j
  {
    if i < j {
      hide Ext;
      ExtAlong(h, i, j - 1);
      assert Ext(h[j - 1], h[j - 1 + 1]);
      ExtTransitive(h[i], h[j - 1], h[j]);
    } else {
      ExtSelf(h[i]);
    }
  }

  /** Whole logs of two nodes at two moments, with their committed parts lined up. */
  lemma Aligned(h: seq<State>, i: nat, a: NodeId, j: nat, b: NodeId)
    requires i < |h| && j < |h|
    requires forall k :: 0 <= k < |h| ==> Inv(h[k])
    requires forall k :: 0 <= k < |h| - 1 ==> Ext(h[k], h[k + 1])
    requires a in h[i].nodes && b in h[j].nodes && h[i].nodes[a].commit <= h[j].nodes[b].commit
    ensures var x, y := h[i].nodes[a], h[j].nodes[b];
            x.commit <= |x.log| && y.commit <= |y.log| && x.log[..x.commit] == y.log[..x.commit]
  {
    hide Ext, Inv, CommittedUpTo, Elections;
    var m := if i <= j then j else i;
    ExtAlong(h, i, m);
    ExtAlong(h, j, m);
    Lift(h[i], h[m], a);
    Lift(h[j], h[m], b);
    var x, y := h[i].nodes[a], h[j].nodes[b];
    if x.commit > 0 {
      ElectionsOf(h[m]);
      PrefixesAgree(h[m], x.log, x.commit, x.term, y.log, y.commit, y.term);
    }
  }

  lemma Lift(s: State, s': State, n: NodeId)
    requires Inv(s) && Ext(s, s') && n in s.nodes
    ensures var x := s.nodes[n]; CommittedUpTo(s', x.log, x.commit, x.term) && x.commit <= |x.log|
  {
    var x := s.nodes[n];
    assert NodeInv(s, n);
    CommittedUpToExt(s, s', x.log, x.log, x.commit, x.term, x.term);
  }

  lemma ElectionsOf(s: State)
    requires Inv(s)
    ensures Elections(s)
  {
  }

  /* ---------- the theorems ---------- */

  ghost predicate At(run: seq<C.Cluster>, i: nat, n: NodeId)
  {
    i < |run| && n in run[i].peers
  }

  /**
   State machine safety. Two nodes, at any two moments of a run, that have both
   committed index `k` and still retain it hold the same entry there.
   */
  lemma StateMachineSafety(g: Group, run: seq<C.Cluster>, acts: seq<C.Action>, i: nat, a: NodeId, j: nat, b: NodeId,
      k: nat)
    requires C.IsRun(g, run, acts) && At(run, i, a) && At(run, j, b)
    requires run[i].peers[a].store.snapshotIndex < k <= run[i].peers[a].store.commitIndex
    requires run[j].peers[b].store.snapshotIndex < k <= run[j].peers[b].store.commitIndex
    ensures var s, t := run[i].peers[a].store, run[j].peers[b].store;
            && k - s.snapshotIndex - 1 < |s.entries| && k - t.snapshotIndex - 1 < |t.entries|
            && s.entries[k - s.snapshotIndex - 1] == t.entries[k - t.snapshotIndex - 1]
  {
    hide C.IsRun, Rel, Inv, Ext, ApplyAll, Good, ValidNodeId;
    var h := Shadow(g, run, acts);
    RelFacts(g, run[i], h[i], a);
    RelFacts(g, run[j], h[j], b);
    var s, t, x, y := run[i].peers[a].store, run[j].peers[b].store, h[i].nodes[a], h[j].nodes[b];
    if s.commitIndex <= t.commitIndex {
      Aligned(h, i, a, j, b);
      assert x.log[..x.commit][k - 1] == y.log[..x.commit][k - 1];
    } else {
      Aligned(h, j, b, i, a);
      assert y.log[..y.commit][k - 1] == x.log[..y.commit][k - 1];
    }
  }

  /** Nodes at the same epoch, at any two moments, serve the same view; at the same commit index also the same epoch. */
  lemma EpochDeterminesView(g: Group, run: seq<C.Cluster>, acts: seq<C.Action>, i: nat, a: NodeId, j: nat, b: NodeId)
    requires C.IsRun(g, run, acts) && At(run, i, a) && At(run, j, b)
    ensures var s, t := run[i].peers[a].store, run[j].peers[b].store;
            && (s.appliedEpoch == t.appliedEpoch ==> s.committedView == t.committedView)
            && (s.commitIndex == t.commitIndex ==> MachineOf(s) == MachineOf(t))
  {
    hide C.IsRun, Rel, Inv, Ext, ApplyAll, Good, Represents;
    var h := Shadow(g, run, acts);
    RelFacts(g, run[i], h[i], a);
    RelFacts(g, run[j], h[j], b);
    if h[i].nodes[a].commit <= h[j].nodes[b].commit {
      Aligned(h, i, a, j, b);
      ViewsAgree(g, run[i].peers[a], h[i].nodes[a], run[j].peers[b], h[j].nodes[b]);
    } else {
      Aligned(h, j, b, i, a);
      ViewsAgree(g, run[j].peers[b], h[j].nodes[b], run[i].peers[a], h[i].nodes[a]);
    }
  }

  lemma ViewsAgree(g: Group, p: C.Peer, x: Node, q: C.Peer, y: Node)
    requires PeerRel(g, p, x) && PeerRel(g, q, y) && x.commit <= y.commit <= |y.log| && x.commit <= |x.log|
             && x.log[..x.commit] == y.log[..x.commit]
    ensures p.store.appliedEpoch == q.store.appliedEpoch ==> p.store.committedView == q.store.committedView
    ensures x.commit == y.commit ==> MachineOf(p.store) == MachineOf(q.store)
  {
    hide ApplyAll, Good, Represents;
    if p.store.appliedEpoch == q.store.appliedEpoch {
      SameEpochSameView(Boot(g), y.log, x.commit, y.commit);
    }
  }

  /** Leads term `t`, or won it and may still act on that. */
  ghost predicate Won(p: C.Peer, t: nat)
  {
    t > 0 && ((p.role == Leader && p.store.currentTerm == t) || p.won == t)
  }

  /** Election safety: no two nodes ever lead or win the same term. */
  lemma ElectionSafety(g: Group, run: seq<C.Cluster>, acts: seq<C.Action>, i: nat, a: NodeId, j: nat, b: NodeId, t: nat)
    requires C.IsRun(g, run, acts) && At(run, i, a) && At(run, j, b)
    requires Won(run[i].peers[a], t) && Won(run[j].peers[b], t)
    ensures a == b
  {
    hide C.IsRun, Rel, Inv, Won;
    var h := Shadow(g, run, acts);
    WonElected(g, run[i], h[i], a, t);
    WonElected(g, run[j], h[j], b, t);
    var m := if i <= j then j else i;
    ExtAlong(h, i, m);
    ExtAlong(h, j, m);
  }

  lemma WonElected(g: Group, c: C.Cluster, a: State, n: NodeId, t: nat)
    requires Rel(g, c, a) && Inv(a) && n in c.peers && Won(c.peers[n], t)
    ensures t in a.elect && a.elect[t].leader == n
  {
    hide WireRel, Good, Represents, ApplyAll, Inv, C.ValidGroup;
    assert PeerRel(g, c.peers[n], a.nodes[n]) && WonRel(n, c.peers[n], a);
    LocalFacts(a, n);
  }

  /**
   * A node can restart at any moment of any run if and only if its file has not outgrown what is read of it; the file
   * then passes the check on open and gives back exactly what the node held in memory.
   */
  lemma RestartsFromOwnFile(g: Group, run: seq<C.Cluster>, acts: seq<C.Action>, i: nat, n: NodeId, length: Store -> nat)
    requires C.IsRun(g, run, acts) && At(run, i, n)
    ensures RaftReopen.OpenFile(length, run[i].peers[n].disk, g.boot) ==
            if length(run[i].peers[n].disk) <= RaftReopen.FILE_LIMIT then Some(run[i].peers[n].store) else None
  {
    hide C.IsRun, Rel, Inv, PeerRel, RaftReopen.Reopen;
    var h := Shadow(g, run, acts);
    RelFacts(g, run[i], h[i], n);
    FileReopens(g, run[i].peers[n], h[i].nodes[n]);
  }

  /**
   * The append request of a leader never fails at a follower, whatever the follower has seen, and memory never runs
   * ahead of the file.
   */
  lemma AppendNeverFails(g: Group, run: seq<C.Cluster>, acts: seq<C.Action>, i: nat, n: NodeId, m: C.Wire)
    requires C.IsRun(g, run, acts) && At(run, i, n) && m in run[i].wire && m.AppendCall?
    ensures AppendEntries(run[i].peers[n].store, m.append).reply.Ok?
    ensures run[i].peers[n].disk == run[i].peers[n].store
  {
    hide C.IsRun, Rel, Inv, Ext, ApplyAll, Good, Represents, AppendAt, Canonical;
    var h := Shadow(g, run, acts);
    RelFacts(g, run[i], h[i], n);
    AppendSource(g, run[i], h[i], m);
    ReachableAppend(g, run[i], h[i], n, m);
    LeaderIsValid(g, m.append.leader);
    TermPositive(h[i], m.append.term);
  }

  lemma LeaderIsValid(g: Group, id: NodeId)
    requires C.ValidGroup(g) && id in g.voters
    ensures ValidNodeId(id)
  {
  }

  lemma TermPositive(a: State, t: nat)
    requires Inv(a) && t in a.logs
    ensures t > 0
  {
    assert LeaderLog(a, t);
  }

  lemma ReachableAppend(g: Group, c: C.Cluster, a: State, n: NodeId, m: C.Wire)
    requires Rel(g, c, a) && Inv(a) && n in c.peers && m in c.wire && m.AppendCall?
    ensures AppendReaches(c.peers[n].store, m.append) ==> AppendEntries(c.peers[n].store, m.append).reply.Ok?
  {
    hide Inv, Ext, Rel, ApplyAll, Represents, AppendAt, ValidNodeId, Merge, ValidEntry;
    if AppendReaches(c.peers[n].store, m.append) {
      RelFacts(g, c, a, n);
      AppendSource(g, c, a, m);
      var x, p, r := a.nodes[n], c.peers[n], m.append;
      TermAnswers(p.store, x.log, r.prevIndex);
      LastAnswers(p.store, x.log);
      MergeKeepsCommitted(a, n, App(r.term, r.prevIndex, r.prevTerm, r.entries, r.leaderCommit));
      AppendedPeer(g, p, x, r);
    }
  }
}
