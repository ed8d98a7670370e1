/**
 Every run of the cluster is a run of the reference protocol: one step of a
 compacted store is one step, or none, of the node with the whole log.
 */
module RaftSimulation {
  import opened Collections
  import opened RaftTypes
  import opened RaftSpec
  import opened RaftRefinement
  import opened RaftQuorum
  import opened FullLog
  import opened FullLogSafety
  import opened FullLogInduction
  import C = RaftCluster

  type Group = C.Group

  function Boot(g: Group): Machine
  {
    Machine(g.boot, None, g.voters, [], [])
  }

  /** Only valid epoch changes enter the log while the voter set is fixed. */
  ghost predicate Good(log: Log)
  {
    forall e :: e in log ==> ValidEntry(e) && e.command.kind == AdvanceEpoch
  }

  ghost predicate PeerRel(g: Group, p: C.Peer, x: Node)
  {
    && p.disk == p.store
    && x.term == p.store.currentTerm && x.voted == p.store.votedFor && x.commit == p.store.commitIndex
       && x.role == p.role
    && Represents(p.store, x.log) && Good(x.log)
    && p.store.voters == g.voters && p.store.jointOld == [] && p.store.jointNew == []
    && ApplyAll(Boot(g), x.log[..x.commit]) == Some(MachineOf(p.store))
    && ApplyAll(Boot(g), x.log[..p.store.snapshotIndex])
       == Some(Machine(p.store.snapshotEpoch, p.store.snapshotView, g.voters, [], []))
  }

  ghost predicate WireRel(g: Group, m: C.Wire, a: State)
  {
    match m
    case VoteCall(r) => exists log ::
        VoteReq(r.term, r.candidate, log) in a.net && |log| == r.lastIndex && LastTerm(log) == r.lastTerm
    case VoteGrant(v, t, c) => exists vlog, clog :: Grant(v, t, c, vlog, clog) in a.net
    case AppendCall(r) =>
      && App(r.term, r.prevIndex, r.prevTerm, r.entries, r.leaderCommit) in a.net
      && r.leader in g.voters && |r.entries| <= 1024
      && r.term in a.logs && r.leaderCommit <= |a.logs[r.term]|
      && ApplyAll(Boot(g), a.logs[r.term][..r.leaderCommit]).Some?
    case AppendAck(v, t, i) => Ack(v, t, i) in a.net
    case SnapshotCall(r) => exists log :: SnapRel(g, r, log) && Snap(r.term, log) in a.net
  }

  ghost predicate SnapRel(g: Group, r: SnapshotRequest, log: Log)
  {
    var p := r.snapshot;
    && |log| == p.index && LastTerm(log) == p.term && p.voters == g.voters
    && ApplyAll(Boot(g), log) == Some(Machine(p.epoch, p.view, g.voters, [], []))
  }

  /** The term a process remembers winning is one it was elected in. */
  ghost predicate WonRel(n: NodeId, p: C.Peer, a: State)
  {
    p.won > 0 ==> p.won in a.elect && a.elect[p.won].leader == n
  }

  ghost predicate Rel(g: Group, c: C.Cluster, a: State)
  {
    && C.ValidGroup(g)
    && c.peers.Keys == a.nodes.Keys == Elements(g.voters)
    && (forall n :: n in c.peers ==> PeerRel(g, c.peers[n], a.nodes[n]))
    && (forall t :: t in a.logs ==> Good(a.logs[t]))
    && (forall n :: n in c.peers ==> WonRel(n, c.peers[n], a))
    && (forall m :: m in c.wire ==> WireRel(g, m, a))
  }

  /* ---------- building blocks ---------- */

  /** Applying good entries never touches the voter configuration. */
  lemma {:induction false} GoodKeepsVoters(m: Machine, log: Log)
    requires Good(log) && ApplyAll(m, log).Some?
    ensures var x := ApplyAll(m, log).value;
            x.voters == m.voters && x.jointOld == m.jointOld && x.jointNew == m.jointNew
    decreases |log|
  {
    if log != [] {
      assert log[0] in log;
      GoodKeepsVoters(Apply(m, log[0].command).value, log[1..]);
    }
  }

  lemma WireExt(g: Group, m: C.Wire, a: State, a': State)
    requires WireRel(g, m, a) && Ext(a, a')
    ensures WireRel(g, m, a')
  {
    match m
    case VoteCall(r) =>
      var log :| VoteReq(r.term, r.candidate, log) in a.net && |log| == r.lastIndex && LastTerm(log) == r.lastTerm;
      assert VoteReq(r.term, r.candidate, log) in a'.net;
    case VoteGrant(v, t, c) =>
      var vlog, clog :| Grant(v, t, c, vlog, clog) in a.net;
      assert Grant(v, t, c, vlog, clog) in a'.net;
    case AppendCall(r) => TakePrefix(a.logs[r.term], a'.logs[r.term], r.leaderCommit);
    case AppendAck(v, t, i) =>
    case SnapshotCall(r) =>
      var log :| SnapRel(g, r, log) && Snap(r.term, log) in a.net;
      assert Snap(r.term, log) in a'.net;
  }

  lemma WonExt(n: NodeId, p: C.Peer, p': C.Peer, a: State, a': State)
    requires WonRel(n, p, a) && Ext(a, a') && p'.won in {0, p.won}
    ensures WonRel(n, p', a')
  {
  }

  /** Only node `n` and fresh messages need to be related again after a step. */
  lemma Relate(g: Group, c: C.Cluster, c': C.Cluster, a: State, a': State, n: NodeId)
    requires Rel(g, c, a) && Ext(a, a') && n in c.peers
    requires c'.peers.Keys == c.peers.Keys && c.wire <= c'.wire
    requires forall v :: v in c.peers && v != n ==> c'.peers[v] == c.peers[v] && a'.nodes[v] == a.nodes[v]
    requires PeerRel(g, c'.peers[n], a'.nodes[n])
    requires c'.peers[n].won in {0, c.peers[n].won} || WonRel(n, c'.peers[n], a')
    requires forall t :: t in a'.logs ==> Good(a'.logs[t])
    requires forall m :: m in c'.wire && m !in c.wire ==> WireRel(g, m, a')
    ensures Rel(g, c', a')
  {
    hide PeerRel, WireRel, WonRel, Good;
    forall m | m in c'.wire ensures WireRel(g, m, a')
    {
      if m in c.wire { WireExt(g, m, a, a'); }
    }
    forall v | v in c'.peers ensures WonRel(v, c'.peers[v], a')
    {
      if c'.peers[v].won in {0, c.peers[v].won} { WonExt(v, c.peers[v], c'.peers[v], a, a'); }
    }
  }

  /** The state after node `n` became `x`. */
  function With(a: State, n: NodeId, x: Node): State
  {
    a.(nodes := a.nodes[n := x])
  }

  lemma RelFacts(g: Group, c: C.Cluster, a: State, n: NodeId)
    requires Rel(g, c, a) && n in c.peers
    ensures n in a.nodes && PeerRel(g, c.peers[n], a.nodes[n])
    ensures forall t :: t in a.logs ==> Good(a.logs[t])
    ensures C.ValidGroup(g) && c.peers.Keys == a.nodes.Keys == Elements(g.voters)
    ensures C.InWonTerm(c.peers[n]) ==> Leads(a, n)
  {
    hide WireRel, Good, Represents, ApplyAll;
  }

  /** Term, vote and role may change freely; log and metadata are untouched. */
  lemma SamePeer(g: Group, p: C.Peer, x: Node, q: C.Peer, y: Node)
    requires PeerRel(g, p, x)
    requires q.disk == q.store && q.store == p.store.(currentTerm := y.term, votedFor := y.voted) && q.role == y.role
    requires y.log == x.log && y.commit == x.commit
    ensures PeerRel(g, q, y)
  {
  }

  /** A step of the reference protocol keeps its invariant and only adds to its history. */
  lemma Advance(a: State, a': State, step: Step)
    requires Inv(a) && Next(a, a', step)
    ensures Inv(a') && Ext(a, a')
  {
    hide Inv, Ext, Next;
    NextKeeps(a, a', step);
    NextExt(a, a', step);
  }

  /** Rejections, observed terms, lost leadership and restarts. */
  lemma SimQuiet(g: Group, c: C.Cluster, c': C.Cluster, a: State, n: NodeId, term: nat, role: Role, won: nat)
      returns (a': State)
    requires Rel(g, c, a) && Inv(a) && n in c.peers && won in {0, c.peers[n].won}
    requires term >= c.peers[n].store.currentTerm
    requires role == Follower || (role == c.peers[n].role && term == c.peers[n].store.currentTerm)
    requires var s := Raise(c.peers[n].store, term); c' == c.(peers := c.peers[n := C.Peer(s, s, role, won)])
    ensures Rel(g, c', a') && Inv(a') && Ext(a, a')
  {
    hide Inv, Rel, Ext, Good, ApplyAll, Represents, WireRel;
    RelFacts(g, c, a, n);
    var x := a.nodes[n];
    var y := x.(term := term, role := role, voted := if term > x.term then "" else x.voted);
    a' := With(a, n, y);
    Advance(a, a', QuietStep(n, term, role));
    SamePeer(g, c.peers[n], x, c'.peers[n], y);
    Relate(g, c, c', a, a', n);
  }

  lemma SimCampaign(g: Group, c: C.Cluster, c': C.Cluster, a: State, n: NodeId) returns (a': State)
    requires Rel(g, c, a) && Inv(a) && C.Move(g, c, c', C.Campaign(n))
    ensures Rel(g, c', a') && Inv(a') && Ext(a, a')
  {
    hide Inv, Rel, Ext, Good, ApplyAll, Represents, ValidNodeId, Active;
    RelFacts(g, c, a, n);
    var x, s := a.nodes[n], c.peers[n].store;
    LastAnswers(s, x.log);
    if BeginElection(s, n).reply.Ok? {
      var y := x.(term := x.term + 1, voted := n, role := Candidate);
      var call, vote := VoteReq(x.term + 1, n, x.log), Grant(n, x.term + 1, n, x.log, x.log);
      a' := With(a, n, y).(net := a.net + {call, vote});
      Advance(a, a', CampaignStep(n));
      SamePeer(g, c.peers[n], x, c'.peers[n], y);
      assert call in a'.net && vote in a'.net;
      Relate(g, c, c', a, a', n);
    } else {
      a' := SimQuiet(g, c, c', a, n, s.currentTerm, Follower, c.peers[n].won);
    }
  }

  /** What a granted vote does to the cluster. */
  lemma VoteMoved(g: Group, c: C.Cluster, c': C.Cluster, n: NodeId, m: C.Wire)
    requires n in c.peers && C.Move(g, c, c', C.AnswerVote(n, m)) && m.VoteCall?
    requires var o := RequestVote(c.peers[n].store, m.request); o.reply.Ok? && o.reply.value.granted
    requires c.peers[n].disk == c.peers[n].store
    ensures var p, r := c.peers[n], m.request; var s1 := Raise(p.store, r.term);
            && r.term >= p.store.currentTerm && (s1.votedFor == "" || s1.votedFor == r.candidate)
            && (r.lastTerm > LastLogTerm(s1) || (r.lastTerm == LastLogTerm(s1) && r.lastIndex >= LastIndex(s1)))
            && var t := s1.(votedFor := r.candidate);
               c' == C.Cluster(c.peers[n := C.Peer(t, t, if r.term > p.store.currentTerm then Follower
                   else p.role, p.won)],
                               c.wire + {C.VoteGrant(n, r.term, r.candidate)})
  {
    hide ValidNodeId;
  }

  lemma SimVote(g: Group, c: C.Cluster, c': C.Cluster, a: State, n: NodeId, m: C.Wire) returns (a': State)
    requires Rel(g, c, a) && Inv(a) && C.Move(g, c, c', C.AnswerVote(n, m))
    ensures Rel(g, c', a') && Inv(a') && Ext(a, a')
  {
    hide Inv, Rel, Ext, Good, ApplyAll, Represents, ValidNodeId;
    RelFacts(g, c, a, n);
    var o := RequestVote(c.peers[n].store, m.request);
    if o.reply.Ok? && o.reply.value.granted {
      a' := SimGranted(g, c, c', a, n, m);
    } else {
      a' := SimQuiet(g, c, c', a, n, o.store.currentTerm, c'.peers[n].role, c'.peers[n].won);
    }
  }

  lemma SimGranted(g: Group, c: C.Cluster, c': C.Cluster, a: State, n: NodeId, m: C.Wire) returns (a': State)
    requires Rel(g, c, a) && Inv(a) && n in c.peers && m in c.wire && m.VoteCall?
             && C.Move(g, c, c', C.AnswerVote(n, m))
    requires var o := RequestVote(c.peers[n].store, m.request); o.reply.Ok? && o.reply.value.granted
    ensures Rel(g, c', a') && Inv(a') && Ext(a, a')
  {
    hide Inv, Rel, Ext, Good, ApplyAll, Represents, ValidNodeId, C.Move, RequestVote;
    RelFacts(g, c, a, n);
    VoteMoved(g, c, c', n, m);
    var x, p, r := a.nodes[n], c.peers[n], m.request;
    LastAnswers(p.store, x.log);
    var log := VoteSource(g, c, a, m);
    var y := x.(term := r.term, voted := r.candidate, role := if r.term > x.term then Follower else x.role);
    var vote := Grant(n, r.term, r.candidate, x.log, log);
    a' := With(a, n, y).(net := a.net + {vote});
    Advance(a, a', VoteStep(n, VoteReq(r.term, r.candidate, log)));
    SamePeer(g, p, x, c'.peers[n], y);
    assert vote in a'.net;
    Relate(g, c, c', a, a', n);
  }

  lemma VoteSource(g: Group, c: C.Cluster, a: State, m: C.Wire) returns (log: Log)
    requires Rel(g, c, a) && m in c.wire && m.VoteCall?
    ensures VoteReq(m.request.term, m.request.candidate, log) in a.net
    ensures |log| == m.request.lastIndex && LastTerm(log) == m.request.lastTerm
  {
    hide PeerRel, Good;
    var r := m.request;
    assert WireRel(g, m, a);
    log :| VoteReq(r.term, r.candidate, log) in a.net && |log| == r.lastIndex && LastTerm(log) == r.lastTerm;
  }

  /** An operation that changes neither memory nor disk is no step at all. */
  lemma SimNothing(g: Group, c: C.Cluster, c': C.Cluster, a: State, n: NodeId)
    requires Rel(g, c, a) && n in c.peers && c'.wire == c.wire && c'.peers == c.peers[n := c.peers[n]]
    ensures Rel(g, c', a) && Ext(a, a)
  {
    hide Rel, Ext;
    assert c'.peers == c.peers;
    ExtSelf(a);
  }

  lemma ExtSelf(a: State)
    ensures Ext(a, a)
  {
  }

  lemma {:induction false} VotesCount(g: Group, s: Store, acks: set<NodeId>)
    requires C.ValidGroup(g) && s.voters == g.voters && s.jointOld == [] && HasQuorum(s, acks)
    ensures IsQuorum(Elements(g.voters), Elements(g.voters) * acks)
  {
    MajorityIsQuorum(g.voters, acks);
  }

  lemma GrantSource(g: Group, c: C.Cluster, a: State, n: NodeId, v: NodeId)
    requires Rel(g, c, a) && Inv(a) && n in c.peers && c.peers[n].role == Candidate
    requires C.VoteGrant(v, c.peers[n].store.currentTerm, n) in c.wire
    ensures n in a.nodes && exists vlog :: Grant(v, a.nodes[n].term, n, vlog, a.nodes[n].log) in a.net
  {
    hide Good, ApplyAll, Represents, NodeInv, AckInv, LeaderInv, Elections;
    var t := c.peers[n].store.currentTerm;
    assert PeerRel(g, c.peers[n], a.nodes[n]);
    assert WireRel(g, C.VoteGrant(v, t, n), a);
    var vlog, clog :| Grant(v, t, n, vlog, clog) in a.net;
    assert MsgInv(a, Grant(v, t, n, vlog, clog));
  }

  lemma SimLead(g: Group, c: C.Cluster, c': C.Cluster, a: State, n: NodeId, votes: set<NodeId>) returns (a': State)
    requires Rel(g, c, a) && Inv(a) && C.Move(g, c, c', C.BecomeLeader(n, votes))
    ensures Rel(g, c', a') && Inv(a') && Ext(a, a')
  {
    hide Inv, Ext, Rel, Good, ApplyAll, Represents, WireRel, HasQuorum, C.ValidGroup;
    RelFacts(g, c, a, n);
    var x, p := a.nodes[n], c.peers[n];
    var q := Elements(g.voters) * votes;
    VotesCount(g, p.store, votes);
    forall v | v in q ensures exists vlog :: Grant(v, x.term, n, vlog, x.log) in a.net { GrantSource(g, c, a, n, v); }
    var voters := map v | v in q :: var vlog :| Grant(v, x.term, n, vlog, x.log) in a.net; vlog;
    assert voters.Keys == q;
    a' := SimLeadWith(g, c, c', a, n, voters);
  }

  lemma SimLeadWith(g: Group, c: C.Cluster, c': C.Cluster, a: State, n: NodeId, voters: map<NodeId, Log>)
      returns (a': State)
    requires Rel(g, c, a) && Inv(a) && n in c.peers && c.peers[n].role == Candidate
    requires c' == c.(peers := c.peers[n := c.peers[n].(role := Leader, won := c.peers[n].store.currentTerm)])
    requires n in a.nodes && IsQuorum(a.nodes.Keys, voters.Keys)
    requires forall v :: v in voters ==> Grant(v, a.nodes[n].term, n, voters[v], a.nodes[n].log) in a.net
    ensures Rel(g, c', a') && Inv(a') && Ext(a, a')
  {
    hide Inv, Ext, Rel, Good, ApplyAll, Represents, WireRel;
    RelFacts(g, c, a, n);
    var x, y := a.nodes[n], a.nodes[n].(role := Leader);
    a' := With(a, n, y).(logs := a.logs[x.term := x.log], elect := a.elect[x.term := Election(n, x.log, voters)]);
    Advance(a, a', WinStep(n, voters));
    SamePeer(g, c.peers[n], x, c'.peers[n], y);
    Relate(g, c, c', a, a', n);
  }

  lemma LeaderHolds(a: State, n: NodeId)
    requires Inv(a) && n in a.nodes && Leads(a, n)
    ensures a.nodes[n].term in a.logs && a.logs[a.nodes[n].term] == a.nodes[n].log
  {
    LocalFacts(a, n);
  }

  lemma GrownPeer(g: Group, p: C.Peer, x: Node, e: Entry)
    requires PeerRel(g, p, x) && ValidEntry(e) && e.command.kind == AdvanceEpoch
    ensures var s := p.store.(entries := p.store.entries + [e]);
            PeerRel(g, C.Peer(s, s, p.role, p.won), x.(log := x.log + [e]))
  {
    hide ValidEntry, ApplyAll;
    var s, y := p.store.(entries := p.store.entries + [e]), x.(log := x.log + [e]);
    assert y.log[s.snapshotIndex..] == s.entries;
    assert y.log[..x.commit] == x.log[..x.commit] && y.log[..s.snapshotIndex] == x.log[..s.snapshotIndex];
    TermSplit(x.log, y.log, s.snapshotIndex);
  }

  lemma SimPropose(g: Group, c: C.Cluster, c': C.Cluster, a: State, n: NodeId, view: View) returns (a': State)
    requires Rel(g, c, a) && Inv(a) && C.Move(g, c, c', C.Propose(n, view))
    ensures Rel(g, c', a') && Inv(a') && Ext(a, a')
  {
    hide Inv, Ext, Rel, ApplyAll, Represents, WireRel, ValidEntry;
    RelFacts(g, c, a, n);
    var x, p := a.nodes[n], c.peers[n];
    var cmd := Command(AdvanceEpoch, p.store.appliedEpoch + 1, view, [], []);
    var o := AppendCommand(p.store, n, p.store.currentTerm, cmd);
    if o.durable {
      var e := Entry(x.term, cmd);
      GrownPeer(g, p, x, e);
      var y := x.(log := x.log + [e]);
      a' := With(a, n, y).(logs := a.logs[x.term := y.log]);
      Advance(a, a', ProposeStep(n, cmd));
      Relate(g, c, c', a, a', n);
    } else {
      a' := a;
      SimNothing(g, c, c', a, n);
    }
  }

  /** A batch that was read is a slice of the whole log. */
  lemma BatchOf(s: Store, log: Log, next: nat, limit: int)
    requires Represents(s, log) && LogBatch(s, next, limit).Some?
    ensures var b := LogBatch(s, next, limit).value;
            && b.term == s.currentTerm && b.commitIndex == s.commitIndex && |b.entries| <= 1024
            && b.prevIndex + |b.entries| <= |log| && b.entries == log[b.prevIndex..b.prevIndex + |b.entries|]
            && b.prevTerm == TermAt(log, b.prevIndex)
  {
    BatchForm(s, log, next, limit);
  }

  lemma SimSendAppend(g: Group, c: C.Cluster, c': C.Cluster, a: State, n: NodeId, next: nat, limit: int)
      returns (a': State)
    requires Rel(g, c, a) && Inv(a) && C.Move(g, c, c', C.SendAppend(n, next, limit))
    ensures Rel(g, c', a') && Inv(a') && Ext(a, a')
  {
    hide Inv, Ext, Rel, ApplyAll, Represents, Good, LogBatch;
    RelFacts(g, c, a, n);
    var x, s := a.nodes[n], c.peers[n].store;
    BatchOf(s, x.log, next, limit);
    var b := LogBatch(s, next, limit).value;
    LeaderHolds(a, n);
    a' := a.(net := a.net + {App(x.term, b.prevIndex, b.prevTerm, b.entries, x.commit)});
    Advance(a, a', SendAppStep(n, b.prevIndex, |b.entries|, x.commit));
    AppendRel(g, a', x, AppendRequest(b.term, n, b.prevIndex, b.prevTerm, b.entries, b.commitIndex));
    Relate(g, c, c', a, a', n);
  }

  lemma AppendRel(g: Group, a: State, x: Node, r: AppendRequest)
    requires App(r.term, r.prevIndex, r.prevTerm, r.entries, r.leaderCommit) in a.net
    requires r.leader in g.voters && |r.entries| <= 1024
    requires r.term in a.logs && a.logs[r.term] == x.log && r.leaderCommit <= |x.log|
             && ApplyAll(Boot(g), x.log[..r.leaderCommit]).Some?
    ensures WireRel(g, C.AppendCall(r), a)
  {
  }

  lemma SimSendSnapshot(g: Group, c: C.Cluster, c': C.Cluster, a: State, n: NodeId) returns (a': State)
    requires Rel(g, c, a) && Inv(a) && C.Move(g, c, c', C.SendSnapshot(n))
    ensures Rel(g, c', a') && Inv(a') && Ext(a, a')
  {
    hide Inv, Ext, Rel, ApplyAll, Good;
    RelFacts(g, c, a, n);
    var x, s := a.nodes[n], c.peers[n].store;
    var snap := x.log[..s.snapshotIndex];
    a' := a.(net := a.net + {Snap(x.term, snap)});
    Advance(a, a', SendSnapStep(n, s.snapshotIndex));
    TermSplit(x.log, snap, s.snapshotIndex);
    assert SnapRel(g, SnapshotRequest(s.currentTerm, n, SnapshotOf(s)), snap) && Snap(x.term, snap) in a'.net;
    Relate(g, c, c', a, a', n);
  }

  lemma SimCompact(g: Group, c: C.Cluster, c': C.Cluster, a: State, n: NodeId)
    requires Rel(g, c, a) && C.Move(g, c, c', C.Compact(n))
    ensures Rel(g, c', a) && Ext(a, a)
  {
    hide Rel, ApplyAll, Good, WireRel;
    RelFacts(g, c, a, n);
    var x, p := a.nodes[n], c.peers[n];
    CompactionInvisible(p.store, x.log, 0);
    assert PeerRel(g, c'.peers[n], x);
    Relate(g, c, c', a, a, n);
  }

  /* ---------- receiving entries ---------- */

  /** A leader's batch never contradicts what the follower has committed: the refusal in the append loop cannot fire. */
  lemma MergeKeepsCommitted(a: State, n: NodeId, m: Msg)
    requires Inv(a) && n in a.nodes && m in a.net && m.App? && m.term >= a.nodes[n].term
    requires m.prev <= |a.nodes[n].log| && TermAt(a.nodes[n].log, m.prev) == m.prevTerm
    ensures m.term in a.logs && m.prev + |m.entries| <= |a.logs[m.term]| && m.commit <= m.prev + |m.entries|
    ensures forall e :: e in m.entries ==> e in a.logs[m.term]
    ensures var x := a.nodes[n]; var log := Merge(x.log, m.prev, m.entries);
            && x.commit <= |x.log| && x.commit <= |log| && log[..x.commit] == x.log[..x.commit]
            && m.commit <= |log| && log[..m.commit] == a.logs[m.term][..m.commit]
            && (log == x.log || log <= a.logs[m.term])
  {
    hide Elections, CommittedUpTo, VotersInv, LogOK, Inv, Local;
    AppFacts(a, n, m);
    LocalFacts(a, n);
    var x, leader, k := a.nodes[n], a.logs[m.term], m.prev + |m.entries|;
    MergedLog(a, x.log, leader, m.prev, m.entries, m.commit);
    CommitHeld(a, n, m.term);
    AdoptTake(x.log, leader, k, x.commit);
  }

  /** What a node has committed is in the log of every leader of its term or later. */
  lemma CommitHeld(a: State, n: NodeId, t: nat)
    requires Inv(a) && n in a.nodes && t in a.elect && a.nodes[n].term <= t
    ensures var x := a.nodes[n];
            x.commit <= |x.log| && x.commit <= |a.logs[t]| && x.log[..x.commit] == a.logs[t][..x.commit]
  {
    assert NodeInv(a, n);
    CommittedInLeader(a, a.nodes[n].log, a.nodes[n].commit, a.nodes[n].term, t);
  }

  /** Following the leader's commit index on the merged log replays exactly its new part and cannot fail. */
  lemma FollowApplies(boot: Machine, s: Store, log: Log, r: AppendRequest)
    requires s.snapshotIndex == 0 && s.entries == log && s.commitIndex <= |log| && r.leaderCommit <= |log|
    requires ApplyAll(boot, log[..s.commitIndex]) == Some(MachineOf(s))
    requires ApplyAll(boot, log[..r.leaderCommit]).Some?
    ensures var o := Follow(s, r);
            && o.reply == Ok(AppendResponse(s.currentTerm, true, r.prevIndex + |r.entries|)) && o.durable
            && o.store == WithMachine(s, MachineOf(o.store), Max(s.commitIndex, r.leaderCommit))
            && ApplyAll(boot, log[..o.store.commitIndex]) == Some(MachineOf(o.store))
  {
    hide ApplyAll;
    if r.leaderCommit > s.commitIndex {
      assert log[..r.leaderCommit][..s.commitIndex] == log[..s.commitIndex];
      assert log[..r.leaderCommit][s.commitIndex..] == log[s.commitIndex..r.leaderCommit];
      ApplyPrefix(boot, log[..r.leaderCommit], s.commitIndex);
    }
  }

  /** The append on the uncompacted store is the reference merge followed by the replay. */
  lemma AppendFull(boot: Machine, s: Store, log: Log, r: AppendRequest)
    requires s.snapshotIndex == 0 && s.entries == log && s.commitIndex <= |log| && r.prevIndex <= |log|
    requires forall e :: e in r.entries ==> ValidEntry(e)
    requires var m := Merge(log, r.prevIndex, r.entries);
             && s.commitIndex <= |m| && m[..s.commitIndex] == log[..s.commitIndex]
             && r.leaderCommit <= |m| && ApplyAll(boot, m[..r.leaderCommit]).Some?
    requires ApplyAll(boot, log[..s.commitIndex]) == Some(MachineOf(s))
    ensures var o, m := AppendAt(s, r), Merge(log, r.prevIndex, r.entries);
            && o.reply == Ok(AppendResponse(s.currentTerm, true, r.prevIndex + |r.entries|)) && o.durable
            && o.store == WithMachine(s.(entries := m), MachineOf(o.store), Max(s.commitIndex, r.leaderCommit))
            && ApplyAll(boot, m[..o.store.commitIndex]) == Some(MachineOf(o.store))
  {
    hide ApplyAll, Follow, ValidEntry, AppendLoop, Merge;
    LoopMerges(log, s.commitIndex, r.prevIndex, r.entries);
    FollowApplies(boot, s.(entries := Merge(log, r.prevIndex, r.entries)), Merge(log, r.prevIndex, r.entries), r);
  }

  /** The store after a successful append represents the node after the reference step. */
  lemma AppendedPeer(g: Group, p: C.Peer, x: Node, r: AppendRequest)
    requires PeerRel(g, p, x) && r.term >= p.store.currentTerm
    requires TermOf(p.store, r.prevIndex) == Some(r.prevTerm)
    requires r.prevIndex <= |x.log| && forall e :: e in r.entries ==> ValidEntry(e)
    requires var m := Merge(x.log, r.prevIndex, r.entries);
             && x.commit <= |m| && m[..x.commit] == x.log[..x.commit] && Good(m)
             && r.leaderCommit <= |m| && ApplyAll(Boot(g), m[..r.leaderCommit]).Some?
    ensures p.store.snapshotIndex <= r.prevIndex <= LastIndex(p.store)
    ensures var o := AppendAt(Raise(p.store, r.term), r);
            && o.reply == Ok(AppendResponse(r.term, true, r.prevIndex + |r.entries|)) && o.durable
            && PeerRel(g, C.Peer(o.store, o.store, Follower, p.won),
                       Node(r.term, if r.term > x.term then "" else x.voted, Merge(x.log, r.prevIndex, r.entries),
                            Max(x.commit, r.leaderCommit), Follower))
  {
    hide ApplyAll, AppendAt, ValidEntry, Merge, Good;
    LastAnswers(p.store, x.log);
    var s, m := Raise(p.store, r.term), Merge(x.log, r.prevIndex, r.entries);
    AppendAtSame(s, x.log, r);
    AppendFull(Boot(g), Expand(s, x.log), x.log, r);
    var o := AppendAt(s, r);
    GoodTake(m, o.store.commitIndex);
    GoodKeepsVoters(Boot(g), m[..o.store.commitIndex]);
    SamePart(m, x.log, x.commit, p.store.snapshotIndex);
  }

  lemma GoodTake(log: Log, i: nat)
    requires Good(log) && i <= |log|
    ensures Good(log[..i])
  {
    hide ValidEntry;
  }

  lemma SamePart(a: Log, b: Log, c: nat, i: nat)
    requires i <= c <= |a| && c <= |b| && a[..c] == b[..c]
    ensures a[..i] == b[..i]
  {
    assert a[..c][..i] == a[..i] && b[..c][..i] == b[..i];
  }

  /** The request is current, comes from a voter and matches the log at its previous index. */
  predicate AppendReaches(s: Store, r: AppendRequest)
  {
    && ValidNodeId(r.leader) && r.term != 0 && (s.voters == [] || Active(s, r.leader)) && |r.entries| <= 1024
    && r.term >= s.currentTerm && TermOf(s, r.prevIndex) == Some(r.prevTerm)
  }

  lemma AppendSource(g: Group, c: C.Cluster, a: State, m: C.Wire)
    requires Rel(g, c, a) && m in c.wire && m.AppendCall?
    ensures WireRel(g, m, a)
  {
    hide PeerRel, WireRel, Good;
  }

  lemma SimAppend(g: Group, c: C.Cluster, c': C.Cluster, a: State, n: NodeId, m: C.Wire) returns (a': State)
    requires Rel(g, c, a) && Inv(a) && C.Move(g, c, c', C.AnswerAppend(n, m))
    ensures Rel(g, c', a') && Inv(a') && Ext(a, a')
  {
    hide Inv, Ext, Rel, ApplyAll, Good, Represents, AppendAt, ValidNodeId, WireRel;
    RelFacts(g, c, a, n);
    var x, p, r := a.nodes[n], c.peers[n], m.append;
    if AppendReaches(p.store, r) {
      a' := SimAppended(g, c, c', a, n, m);
    } else {
      var o := AppendEntries(p.store, r);
      assert c'.wire == c.wire;
      if o.reply.Err? {
        a' := a;
        SimNothing(g, c, c', a, n);
      } else {
        a' := SimQuiet(g, c, c', a, n, o.store.currentTerm, c'.peers[n].role, c'.peers[n].won);
      }
    }
  }

  /** What a request that reaches the log does to the cluster. */
  lemma AppendMoved(g: Group, c: C.Cluster, c': C.Cluster, n: NodeId, m: C.Wire, k: nat)
    requires n in c.peers && C.Move(g, c, c', C.AnswerAppend(n, m)) && AppendReaches(c.peers[n].store, m.append)
    requires c.peers[n].store.snapshotIndex <= m.append.prevIndex <= LastIndex(c.peers[n].store)
    requires var o := AppendAt(Raise(c.peers[n].store, m.append.term), m.append);
             o.durable && o.reply == Ok(AppendResponse(m.append.term, true, k))
    ensures var o := AppendAt(Raise(c.peers[n].store, m.append.term), m.append);
            c' == C.Cluster(c.peers[n := C.Peer(o.store, o.store, Follower, c.peers[n].won)],
                c.wire + {C.AppendAck(n, m.append.term, k)})
  {
    hide AppendAt, ValidNodeId;
  }

  function AppendedNode(x: Node, r: AppendRequest): Node
    requires r.prevIndex <= |x.log|
  {
    Node(r.term, if r.term > x.term then "" else x.voted, Merge(x.log, r.prevIndex, r.entries),
        Max(x.commit, r.leaderCommit), Follower)
  }

  /** The store side, `lead` being the leader's log the request was cut from. */
  lemma AppendedStore(g: Group, p: C.Peer, x: Node, r: AppendRequest, lead: Log)
    requires PeerRel(g, p, x) && r.term >= p.store.currentTerm && TermOf(p.store, r.prevIndex) == Some(r.prevTerm)
    requires Good(lead) && r.leaderCommit <= |lead| && ApplyAll(Boot(g), lead[..r.leaderCommit]).Some?
    requires r.prevIndex <= |x.log| && forall e :: e in r.entries ==> e in lead
    requires var m := Merge(x.log, r.prevIndex, r.entries);
             && x.commit <= |x.log| && x.commit <= |m| && m[..x.commit] == x.log[..x.commit]
             && r.leaderCommit <= |m| && m[..r.leaderCommit] == lead[..r.leaderCommit]
             && (m == x.log || m <= lead)
    ensures p.store.snapshotIndex <= r.prevIndex <= LastIndex(p.store)
    ensures var o := AppendAt(Raise(p.store, r.term), r);
            && o.durable && o.reply == Ok(AppendResponse(r.term, true, r.prevIndex + |r.entries|))
            && PeerRel(g, C.Peer(o.store, o.store, Follower, p.won), AppendedNode(x, r))
  {
    hide ApplyAll, Represents, AppendAt, Merge, ValidEntry;
    AppendedPeer(g, p, x, r);
  }

  lemma PrevKnown(g: Group, p: C.Peer, x: Node, r: AppendRequest)
    requires PeerRel(g, p, x) && AppendReaches(p.store, r)
    ensures r.prevIndex <= |x.log| && TermAt(x.log, r.prevIndex) == r.prevTerm && r.term >= x.term
    ensures r.term >= p.store.currentTerm && TermOf(p.store, r.prevIndex) == Some(r.prevTerm)
  {
    hide ApplyAll, Good, ValidNodeId;
    TermAnswers(p.store, x.log, r.prevIndex);
    LastAnswers(p.store, x.log);
  }

  lemma AppendedStep(a: State, n: NodeId, r: AppendRequest)
    requires n in a.nodes && App(r.term, r.prevIndex, r.prevTerm, r.entries, r.leaderCommit) in a.net
    requires var x := a.nodes[n];
             && r.prevIndex <= |x.log| && TermAt(x.log, r.prevIndex) == r.prevTerm && r.term >= x.term
             && r.leaderCommit <= |Merge(x.log, r.prevIndex, r.entries)|
    ensures RecvApp(a, With(a, n, AppendedNode(a.nodes[n], r)).(net :=
            a.net + {Ack(n, r.term, r.prevIndex + |r.entries|)}), n,
                    App(r.term, r.prevIndex, r.prevTerm, r.entries, r.leaderCommit))
  {
    hide Merge;
  }

  lemma SimAppended(g: Group, c: C.Cluster, c': C.Cluster, a: State, n: NodeId, m: C.Wire) returns (a': State)
    requires Rel(g, c, a) && Inv(a) && n in c.peers && m in c.wire && m.AppendCall?
    requires C.Move(g, c, c', C.AnswerAppend(n, m)) && AppendReaches(c.peers[n].store, m.append)
    ensures Rel(g, c', a') && Inv(a') && Ext(a, a')
  {
    hide Inv, Ext, Rel, PeerRel, Good, AppendAt, AppendReaches, C.Move, RecvApp, AppendedNode, ApplyAll, Merge;
    RelFacts(g, c, a, n);
    AppendSource(g, c, a, m);
    var r, x := m.append, a.nodes[n];
    PrevKnown(g, c.peers[n], x, r);
    MergeKeepsCommitted(a, n, App(r.term, r.prevIndex, r.prevTerm, r.entries, r.leaderCommit));
    AppendedStore(g, c.peers[n], x, r, a.logs[r.term]);
    AppendedStep(a, n, r);
    var k := r.prevIndex + |r.entries|;
    AppendMoved(g, c, c', n, m, k);
    a' := With(a, n, AppendedNode(x, r)).(net := a.net + {Ack(n, r.term, k)});
    Advance(a, a', RecvAppStep(n, App(r.term, r.prevIndex, r.prevTerm, r.entries, r.leaderCommit)));
    Relate(g, c, c', a, a', n);
  }

  /* ---------- receiving snapshots ---------- */

  lemma SnapshotSource(g: Group, c: C.Cluster, a: State, m: C.Wire) returns (log: Log)
    requires Rel(g, c, a) && m in c.wire && m.SnapshotCall?
    ensures SnapRel(g, m.install, log) && Snap(m.install.term, log) in a.net
  {
    hide PeerRel, Good;
    assert WireRel(g, m, a);
    log :| SnapRel(g, m.install, log) && Snap(m.install.term, log) in a.net;
  }

  /** An installed snapshot is the leader's committed prefix, below whatever the node could keep. */
  lemma InstalledHolds(a: State, n: NodeId, snap: Msg)
    requires Inv(a) && n in a.nodes && snap in a.net && snap.Snap? && 0 < |snap.log|
    ensures snap.term in a.logs && snap.log <= a.logs[snap.term]
    ensures var log := Installed(a.nodes[n].log, snap.log);
            snap.log <= log && (log == a.nodes[n].log || log == snap.log)
  {
    hide Elections, CommittedUpTo, VotersInv, AckInv, OneVote;
    assert NodeInv(a, n) && MsgInv(a, snap);
    LeaderOK(a, snap.term);
    hide Inv;
    InstalledLog(a, a.nodes[n].log, a.logs[snap.term], snap.log);
  }

  lemma LeaderOK(a: State, t: nat)
    requires Inv(a) && t in a.elect
    ensures t in a.logs && LogOK(a, a.logs[t])
  {
    assert LeaderLog(a, t);
  }

  lemma InstalledPeer(g: Group, p: C.Peer, x: Node, n: NodeId, r: SnapshotRequest, log: Log)
    requires PeerRel(g, p, x) && SnapRel(g, r, log) && r.term >= p.store.currentTerm
    requires p.store.commitIndex < r.snapshot.index
    requires var l := Installed(x.log, log); log <= l && Good(l)
    requires var o := InstallSnapshot(p.store, n, r); o.reply.Ok? && o.reply.value.success
    ensures var o := InstallSnapshot(p.store, n, r);
            && o.durable && o.reply == Ok(SnapshotResponse(r.term, true, |log|))
            && PeerRel(g, C.Peer(o.store, o.store, Follower, p.won),
                       Node(r.term, if r.term > x.term then "" else x.voted, Installed(x.log, log), |log|, Follower))
  {
    hide ApplyAll, ValidEntry, ValidNodeId, ValidSnapshot, Good;
    var s := Raise(p.store, r.term);
    TermAnswers(s, x.log, |log|);
    var l, o := Installed(x.log, log), InstallSnapshot(p.store, n, r);
    assert l[..|log|] == log;
    TermSplit(l, log, |log|);
    if TermOf(s, |log|) == Some(LastTerm(log)) {
      DropDrop(x.log, s.snapshotIndex, |log|);
    }
    assert o.store.entries == l[|log|..];
  }

  lemma DropDrop(log: Log, i: nat, j: nat)
    requires i <= j <= |log|
    ensures log[i..][j - i..] == log[j..]
  {
  }

  lemma SimSnapshot(g: Group, c: C.Cluster, c': C.Cluster, a: State, n: NodeId, m: C.Wire) returns (a': State)
    requires Rel(g, c, a) && Inv(a) && C.Move(g, c, c', C.AnswerSnapshot(n, m))
    ensures Rel(g, c', a') && Inv(a') && Ext(a, a')
  {
    hide Inv, Ext, Rel, ApplyAll, Good, Represents, ValidNodeId, WireRel, ValidSnapshot;
    RelFacts(g, c, a, n);
    var x, p, r := a.nodes[n], c.peers[n], m.install;
    var o := InstallSnapshot(p.store, n, r);
    if o.reply.Ok? && o.reply.value.success {
      a' := SimInstalled(g, c, c', a, n, m);
    } else {
      assert c'.wire == c.wire;
      if o.reply.Err? {
        a' := a;
        SimNothing(g, c, c', a, n);
      } else {
        a' := SimQuiet(g, c, c', a, n, o.store.currentTerm, c'.peers[n].role, c'.peers[n].won);
      }
    }
  }

  /** What an accepted snapshot does to the cluster. */
  lemma InstallMoved(g: Group, c: C.Cluster, c': C.Cluster, n: NodeId, m: C.Wire)
    requires n in c.peers && C.Move(g, c, c', C.AnswerSnapshot(n, m)) && m.SnapshotCall?
    requires var o := InstallSnapshot(c.peers[n].store, n, m.install); o.reply.Ok? && o.reply.value.success
    ensures var o := InstallSnapshot(c.peers[n].store, n, m.install);
            && c.peers[n].store.currentTerm <= m.install.term == o.reply.value.term && o.durable
            && c' == C.Cluster(c.peers[n := C.Peer(o.store, o.store, Follower, c.peers[n].won)],
               c.wire + {C.AppendAck(n, m.install.term, o.reply.value.matchIndex)})
  {
    hide ValidNodeId, ValidSnapshot, TermOf;
  }

  lemma InstalledOld(s: Store, n: NodeId, r: SnapshotRequest)
    requires InstallSnapshot(s, n, r).reply.Ok? && InstallSnapshot(s, n, r).reply.value.success
             && r.snapshot.index <= s.commitIndex
    ensures InstallSnapshot(s, n, r).store == Raise(s, r.term)
            && InstallSnapshot(s, n, r).reply.value.matchIndex == s.commitIndex
  {
    hide ValidNodeId, ValidSnapshot, TermOf;
  }

  lemma SimInstalled(g: Group, c: C.Cluster, c': C.Cluster, a: State, n: NodeId, m: C.Wire) returns (a': State)
    requires Rel(g, c, a) && Inv(a) && n in c.peers && m in c.wire && m.SnapshotCall?
             && C.Move(g, c, c', C.AnswerSnapshot(n, m))
    requires var o := InstallSnapshot(c.peers[n].store, n, m.install); o.reply.Ok? && o.reply.value.success
    ensures Rel(g, c', a') && Inv(a') && Ext(a, a')
  {
    hide Inv, Ext, Rel, ApplyAll, Represents, ValidNodeId, ValidSnapshot, ValidEntry, Installed, InstallSnapshot,
        C.Move, Good;
    RelFacts(g, c, a, n);
    InstallMoved(g, c, c', n, m);
    var log := SnapshotSource(g, c, a, m);
    var x, p, r := a.nodes[n], c.peers[n], m.install;
    var snap, voted := Snap(r.term, log), if r.term > x.term then "" else x.voted;
    if |log| <= x.commit {
      InstalledOld(p.store, n, r);
      var y := x.(term := r.term, voted := voted, role := Follower);
      a' := With(a, n, y).(net := a.net + {Ack(n, r.term, x.commit)});
      Advance(a, a', RecvSnapStep(n, snap));
      SamePeer(g, p, x, c'.peers[n], y);
    } else {
      InstalledHolds(a, n, snap);
      InstalledGood(x.log, log, a.logs[r.term]);
      InstalledPeer(g, p, x, n, r, log);
      var y := Node(r.term, voted, Installed(x.log, log), |log|, Follower);
      a' := With(a, n, y).(net := a.net + {Ack(n, r.term, |log|)});
      Advance(a, a', RecvSnapStep(n, snap));
    }
    Relate(g, c, c', a, a', n);
  }

  lemma InstalledGood(own: Log, log: Log, lead: Log)
    requires Good(own) && Good(lead) && log <= lead && (Installed(own, log) == own || Installed(own, log) == log)
    ensures Good(Installed(own, log))
  {
    hide Installed, ValidEntry;
    assert forall e :: e in log ==> e in lead;
  }

  /* ---------- committing ---------- */

  lemma CommittedPeer(g: Group, p: C.Peer, x: Node, index: nat)
    requires PeerRel(g, p, x) && index <= |x.log| && CommitTo(p.store, index).Some?
    ensures var s := CommitTo(p.store, index).value;
            PeerRel(g, C.Peer(s, s, p.role, p.won), x.(commit := Max(x.commit, index)))
  {
    hide ApplyAll, ValidEntry;
    var s := p.store;
    if index > s.commitIndex {
      DropSlice(x.log, s.snapshotIndex, s.commitIndex - s.snapshotIndex, index - s.snapshotIndex);
      assert x.log[..index] == x.log[..s.commitIndex] + x.log[s.commitIndex..index];
      ApplyAllConcat(Boot(g), x.log[..s.commitIndex], x.log[s.commitIndex..index]);
      GoodTake(x.log, index);
      GoodKeepsVoters(Boot(g), x.log[..index]);
    }
  }

  lemma AckSource(g: Group, c: C.Cluster, a: State, v: NodeId, t: nat, i: nat)
    requires Rel(g, c, a) && exists j :: j >= i && C.AppendAck(v, t, j) in c.wire
    ensures exists j :: j >= i && Ack(v, t, j) in a.net
  {
    hide PeerRel, Good;
    var j :| j >= i && C.AppendAck(v, t, j) in c.wire;
    assert WireRel(g, C.AppendAck(v, t, j), a);
  }

  lemma SimCommit(g: Group, c: C.Cluster, c': C.Cluster, a: State, n: NodeId, index: nat, acks: set<NodeId>)
      returns (a': State)
    requires Rel(g, c, a) && Inv(a) && C.Move(g, c, c', C.CommitEntry(n, index, acks))
    ensures Rel(g, c', a') && Inv(a') && Ext(a, a')
  {
    hide Inv, Ext, Rel, ApplyAll, Good, Represents, WireRel, HasQuorum, CommitTo, C.ValidGroup;
    RelFacts(g, c, a, n);
    var x, p := a.nodes[n], c.peers[n];
    var o := CommitWithVoterAcks(p.store, index, p.store.currentTerm, acks);
    if o.reply.Ok? {
      TermAnswers(p.store, x.log, index);
      LastAnswers(p.store, x.log);
      var q := Elements(g.voters) * acks;
      VotesCount(g, p.store, acks);
      forall v | v in q && v != n
          ensures exists j :: j >= index && Ack(v, x.term, j) in a.net { AckSource(g, c, a, v, x.term, index); }
      CommittedPeer(g, p, x, index);
      a' := With(a, n, x.(commit := Max(x.commit, index)));
      Advance(a, a', CommitStep(n, index, q));
      Relate(g, c, c', a, a', n);
    } else {
      a' := a;
      SimNothing(g, c, c', a, n);
    }
  }
}
