/**
 The group never blocks an election: from every state of every run, any majority of nodes can make one of its members
 leader by steps of its own, whatever the others do or have done.
 */
module RaftElection {
  import opened Collections
  import opened RaftTypes
  import opened RaftSpec
  import opened RaftRefinement
  import opened RaftQuorum
  import opened RaftSimulation
  import opened RaftAnswers
  import FullLog
  import FullLogSafety
  import FullLogInduction
  import C = RaftCluster
  import RaftSafety

  lemma RunMore(g: C.Group, run: seq<C.Cluster>, acts: seq<C.Action>, a: C.Action, c: C.Cluster)
    requires C.IsRun(g, run, acts) && C.Move(g, run[|run| - 1], c, a)
    ensures C.IsRun(g, run + [c], acts + [a])
  {
    hide C.Move, C.Start;
  }

  /** What matters of a node in an election: its voters, and that a request is granted by it. */
  ghost predicate Stable(g: C.Group, s: Store)
  {
    s.voters == g.voters && s.jointOld == [] && s.jointNew == []
  }

  ghost predicate Willing(c: C.Cluster, r: VoteRequest, who: set<NodeId>)
  {
    forall v :: v in who ==> v in c.peers && RequestVote(c.peers[v].store, r).reply == Ok(VoteResponse(r.term, true))
  }

  /** The votes of `done` are in, the others of `who` are as they were in `c0`. */
  ghost predicate Gathered(g: C.Group, c0: C.Cluster, c: C.Cluster, r: VoteRequest, who: set<NodeId>, done: set<NodeId>)
  {
    && r.candidate in done && done <= who && r.candidate in c.peers && C.VoteCall(r) in c.wire
    && (forall v :: v in done ==> C.VoteGrant(v, r.term, r.candidate) in c.wire)
    && (forall v :: v in who - done ==> v in c.peers && v in c0.peers && c.peers[v] == c0.peers[v])
    && var p := c.peers[r.candidate];
       p.role == FullLog.Candidate && p.store.currentTerm == r.term && Stable(g, p.store)
  }

  lemma OneVote(g: C.Group, c0: C.Cluster, c: C.Cluster, r: VoteRequest, who: set<NodeId>, done: set<NodeId>, v: NodeId)
      returns (c': C.Cluster)
    requires Gathered(g, c0, c, r, who, done) && v in who - done && Willing(c0, r, who - {r.candidate})
    ensures C.Move(g, c, c', C.AnswerVote(v, C.VoteCall(r)))
    ensures Gathered(g, c0, c', r, who, done + {v})
  {
    hide RequestVote;
    var p := c.peers[v];
    var o := RequestVote(p.store, r);
    var role := if r.term > p.store.currentTerm then FullLog.Follower else p.role;
    c' := C.Cluster(c.peers[v := C.Settle(p, o, role)], c.wire + {C.VoteGrant(v, r.term, r.candidate)});
  }

  lemma {:induction false} Gather(g: C.Group, run: seq<C.Cluster>, acts: seq<C.Action>, c0: C.Cluster, r: VoteRequest,
      who: set<NodeId>, done: set<NodeId>) returns (more: seq<C.Cluster>, steps: seq<C.Action>)
    requires |run| > 0 && C.IsRun(g, run, acts) && Gathered(g, c0, run[|run| - 1], r, who, done)
    requires Willing(c0, r, who - {r.candidate})
    ensures |more| == |steps| && C.IsRun(g, run + more, acts + steps)
    ensures Gathered(g, c0, (run + more)[|run + more| - 1], r, who, who)
    ensures forall k :: 0 <= k < |steps| ==> steps[k].n in who
    decreases |who - done|
  {
    hide C.IsRun, C.Move, Gathered, Willing;
    if who - done == {} {
      assert done == who by { DoneWithin(g, c0, run[|run| - 1], r, who, done); }
      assert run + [] == run && acts + [] == acts;
      return [], [];
    }
    var v :| v in who - done;
    var c := OneVote(g, c0, run[|run| - 1], r, who, done, v);
    var a := C.AnswerVote(v, C.VoteCall(r));
    RunMore(g, run, acts, a, c);
    Fewer(who, done, v);
    var m, s := Gather(g, run + [c], acts + [a], c0, r, who, done + {v});
    more, steps := [c] + m, [a] + s;
    assert run + [c] + m == run + more && acts + [a] + s == acts + steps;
  }

  lemma DoneWithin(g: C.Group, c0: C.Cluster, c: C.Cluster, r: VoteRequest, who: set<NodeId>, done: set<NodeId>)
    requires Gathered(g, c0, c, r, who, done) && who - done == {}
    ensures done == who
  {
    forall v | v in who ensures v in done { assert v !in who - done; }
  }

  lemma Fewer(who: set<NodeId>, done: set<NodeId>, v: NodeId)
    requires v in who - done
    ensures |who - (done + {v})| < |who - done|
  {
    assert who - (done + {v}) == (who - done) - {v};
  }

  /** The nodes as an election sees them: stores with logs, all in the stable configuration. */
  ghost predicate Electorate(g: C.Group, c: C.Cluster, logs: map<NodeId, Log>)
  {
    && C.ValidGroup(g) && c.peers.Keys == logs.Keys == Elements(g.voters)
    && forall v :: v in logs ==> Represents(c.peers[v].store, logs[v]) && Stable(g, c.peers[v].store)
  }

  lemma ReachedElectorate(g: C.Group, c: C.Cluster, a: FullLog.State) returns (logs: map<NodeId, Log>)
    requires Rel(g, c, a)
    ensures Electorate(g, c, logs)
  {
    hide WireRel, Good, ApplyAll, Represents, C.ValidGroup;
    logs := map v | v in a.nodes :: a.nodes[v].log;
    forall v | v in logs ensures Represents(c.peers[v].store, logs[v]) && Stable(g, c.peers[v].store)
    {
      assert PeerRel(g, c.peers[v], a.nodes[v]);
    }
  }

  /** Every member would vote for the one with the foremost log, asked in a term above its own. */
  lemma MostAdvanced(g: C.Group, c: C.Cluster, logs: map<NodeId, Log>, who: set<NodeId>) returns (n: NodeId)
    requires Electorate(g, c, logs) && who != {} && who <= logs.Keys
    ensures n in who && n in c.peers
    ensures forall term :: (forall v :: v in who ==> c.peers[v].store.currentTerm < term) ==>
              Willing(c, VoteRequest(term, n, |logs[n]|, LastTerm(logs[n])), who)
  {
    hide RequestVote, Represents, LastTerm, FullLog.UpToDate, Canonical, ValidNodeId;
    var some := map v | v in who :: logs[v];
    var x :| x in who;
    assert x in some;
    n := Foremost(some);
    assert ValidNodeId(n) by { VoterValid(g, n); }
    forall term | forall v :: v in who ==> c.peers[v].store.currentTerm < term
      ensures Willing(c, VoteRequest(term, n, |logs[n]|, LastTerm(logs[n])), who)
    {
      var r := VoteRequest(term, n, |logs[n]|, LastTerm(logs[n]));
      forall v | v in who ensures RequestVote(c.peers[v].store, r).reply == Ok(VoteResponse(r.term, true))
      {
        assert v in some && FullLog.UpToDate(some[n], some[v]);
        assert Represents(c.peers[v].store, logs[v]);
        VoteAnswer(c.peers[v].store, logs[v], r, logs[n]);
      }
    }
  }

  lemma VoterValid(g: C.Group, n: NodeId)
    requires C.ValidGroup(g) && n in g.voters
    ensures ValidNodeId(n)
  {
    hide ValidNodeId;
  }

  /** The candidate raises its term above all and asks for votes. */
  lemma StartCampaign(g: C.Group, run: seq<C.Cluster>, acts: seq<C.Action>, logs: map<NodeId, Log>, n: NodeId, top: nat)
      returns (more: seq<C.Cluster>, r: VoteRequest)
    requires |run| > 0 && C.IsRun(g, run, acts) && Electorate(g, run[|run| - 1], logs)
    requires n in run[|run| - 1].peers && run[|run| - 1].peers[n].store.currentTerm <= top
    ensures |more| == 2 && C.IsRun(g, run + more, acts + [C.Observe(n, top), C.Campaign(n)])
    ensures n in logs && r == VoteRequest(top + 1, n, |logs[n]|, LastTerm(logs[n]))
    ensures var c, c' := run[|run| - 1], more[1];
            && c'.peers.Keys == c.peers.Keys && (forall v :: v in c.peers && v != n ==> c'.peers[v] == c.peers[v])
            && C.VoteCall(r) in c'.wire && C.VoteGrant(n, top + 1, n) in c'.wire
            && c'.peers[n].role == FullLog.Candidate && c'.peers[n].store.currentTerm == top + 1
            && Stable(g, c'.peers[n].store)
  {
    hide C.IsRun, Represents, LastTerm, Canonical;
    var c := run[|run| - 1];
    var p := c.peers[n];
    var o1 := ObserveTerm(p.store, top);
    var p1 := C.Settle(p, o1, FullLog.Follower);
    var c1 := c.(peers := c.peers[n := p1]);
    assert C.Move(g, c, c1, C.Observe(n, top));
    RunMore(g, run, acts, C.Observe(n, top), c1);
    assert Represents(p.store, logs[n]);
    SameRepresents(p.store, p1.store, logs[n]);
    ElectionAnswer(p1.store, logs[n], n);
    var o2 := BeginElection(p1.store, n);
    r := o2.reply.value;
    var c2 := C.Cluster(c1.peers[n := C.Settle(p1, o2, FullLog.Candidate)],
        c1.wire + {C.VoteCall(r), C.VoteGrant(n, r.term, n)});
    assert C.Move(g, c1, c2, C.Campaign(n));
    RunMore(g, run + [c1], acts + [C.Observe(n, top)], C.Campaign(n), c2);
    more := [c1, c2];
    assert run + [c1] + [c2] == run + more;
    assert acts + [C.Observe(n, top)] + [C.Campaign(n)] == acts + [C.Observe(n, top), C.Campaign(n)];
  }

  lemma SameRepresents(s: Store, t: Store, log: Log)
    requires Represents(s, log) && t == s.(currentTerm := t.currentTerm, votedFor := t.votedFor)
    ensures Represents(t, log)
  {
  }

  lemma {:induction false} Highest(c: C.Cluster, who: set<NodeId>) returns (top: nat)
    requires forall v :: v in who ==> v in c.peers
    ensures forall v :: v in who ==> c.peers[v].store.currentTerm <= top
    decreases |who|
  {
    if who == {} { return 0; }
    var x :| x in who;
    var rest := Highest(c, who - {x});
    top := FullLog.Max(rest, c.peers[x].store.currentTerm);
    forall v | v in who ensures c.peers[v].store.currentTerm <= top { assert v != x ==> v in who - {x}; }
  }

  lemma QuorumLeads(g: C.Group, c: C.Cluster, c0: C.Cluster, r: VoteRequest, who: set<NodeId>) returns (c': C.Cluster)
    requires C.ValidGroup(g) && IsQuorum(Elements(g.voters), who) && Gathered(g, c0, c, r, who, who) && r.term > 0
    ensures C.Move(g, c, c', C.BecomeLeader(r.candidate, who))
    ensures r.candidate in c'.peers && c'.peers[r.candidate].role == FullLog.Leader
            && C.InWonTerm(c'.peers[r.candidate])
  {
    hide Majority, Canonical;
    var p := c.peers[r.candidate];
    MajorityIsQuorum(g.voters, who);
    assert Elements(g.voters) * who == who;
    c' := c.(peers := c.peers[r.candidate := p.(role := FullLog.Leader, won := p.store.currentTerm)]);
  }

  /**
   * From the end of any run, any majority can elect one of its members: the run goes on by steps of the majority
   * alone to a state in which that member leads a term it has won.
   */
  lemma LeaderElectable(g: C.Group, run: seq<C.Cluster>, acts: seq<C.Action>, who: set<NodeId>)
      returns (more: seq<C.Cluster>, steps: seq<C.Action>, n: NodeId)
    requires |run| > 0 && C.IsRun(g, run, acts) && IsQuorum(Elements(g.voters), who)
    ensures 0 < |more| == |steps| && C.IsRun(g, run + more, acts + steps)
    ensures forall k :: 0 <= k < |steps| ==> steps[k].n in who
    ensures var c := more[|more| - 1];
            n in who && n in c.peers && c.peers[n].role == FullLog.Leader && C.InWonTerm(c.peers[n])
  {
    hide C.IsRun, C.Move, Rel, FullLogSafety.Inv, FullLogInduction.Ext, Represents, Electorate, Willing, Gathered,
        LastTerm,
        C.ValidGroup, Stable;
    var h := RaftSafety.Shadow(g, run, acts);
    var c := run[|run| - 1];
    var logs := ReachedElectorate(g, c, h[|run| - 1]);
    assert C.ValidGroup(g) && c.peers.Keys == logs.Keys == Elements(g.voters) by { ElectorateForm(g, c, logs); }
    assert who != {};
    n := MostAdvanced(g, c, logs, who);
    var top := Highest(c, who);
    var first, r := StartCampaign(g, run, acts, logs, n, top);
    var started := [C.Observe(n, top), C.Campaign(n)];
    assert Willing(c, r, who);
    StillWilling(c, r, who);
    Begun(g, c, first[1], r, who);
    var votes, asked := Gather(g, run + first, acts + started, c, r, who, {n});
    var all := run + first + votes;
    var end := QuorumLeads(g, all[|all| - 1], c, r, who);
    RunMore(g, all, acts + started + asked, C.BecomeLeader(n, who), end);
    more, steps := first + votes + [end], started + asked + [C.BecomeLeader(n, who)];
    assert all + [end] == run + more && acts + started + asked + [C.BecomeLeader(n, who)] == acts + steps;
  }

  lemma ElectorateForm(g: C.Group, c: C.Cluster, logs: map<NodeId, Log>)
    requires Electorate(g, c, logs)
    ensures C.ValidGroup(g) && c.peers.Keys == logs.Keys == Elements(g.voters)
  {
    hide Represents, C.ValidGroup;
  }

  lemma StillWilling(c: C.Cluster, r: VoteRequest, who: set<NodeId>)
    requires Willing(c, r, who)
    ensures Willing(c, r, who - {r.candidate})
  {
    hide RequestVote;
  }

  lemma Begun(g: C.Group, c: C.Cluster, c': C.Cluster, r: VoteRequest, who: set<NodeId>)
    requires who <= c.peers.Keys && r.candidate in who && c'.peers.Keys == c.peers.Keys
    requires forall v :: v in c.peers && v != r.candidate ==> c'.peers[v] == c.peers[v]
    requires C.VoteCall(r) in c'.wire && C.VoteGrant(r.candidate, r.term, r.candidate) in c'.wire
    requires c'.peers[r.candidate].role == FullLog.Candidate && c'.peers[r.candidate].store.currentTerm == r.term
             && Stable(g, c'.peers[r.candidate].store)
    ensures Gathered(g, c, c', r, who, {r.candidate})
  {
    hide Stable;
  }
}
