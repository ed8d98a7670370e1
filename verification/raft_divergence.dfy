/**
 Why requests have to be covered. In a group of three, a leader that sends a batch
 ending before the commit index it announces makes a follower commit an entry of
 an older term: two nodes then hold different committed entries at one index, and
 serve different views under one epoch.
 */
module RaftDivergence {
  import opened Collections
  import opened RaftTypes
  import opened RaftSpec
  import RaftRefinement
  import opened RaftQuorum
  import opened RaftCluster
  import opened FullLog

  /** A store that never compacted, in the fixed configuration of the group. */
  function Plain(g: Group, term: nat, voted: NodeId, commit: nat, epoch: nat, view: Option<View>, log: Log): Store
  {
    Store(term, voted, commit, epoch, 0, 0, g.boot, None, g.voters, [], [], view, log)
  }

  function Advance(epoch: nat, view: View): Command
  {
    Command(AdvanceEpoch, epoch, view, [], [])
  }

  /** The peer holds `s` in memory and in its file. */
  function Synced(s: Store, role: Role, won: nat): Peer
  {
    Peer(s, s, role, won)
  }

  /** Every request of the run is read with batch limit `k`. */
  predicate Limited(acts: seq<Action>, k: nat)
  {
    forall i :: 0 <= i < |acts| && acts[i].SendAppend? ==> acts[i].limit == k
  }

  /** A run of covered requests, each read with batch limit `k`, that ends in `c`. */
  ghost predicate Ends(g: Group, k: nat, run: seq<Cluster>, acts: seq<Action>, c: Cluster)
  {
    IsRun(g, run, acts) && run[|run| - 1] == c && Limited(acts, k)
  }

  lemma Extend(g: Group, k: nat, run: seq<Cluster>, acts: seq<Action>, c: Cluster, c': Cluster, a: Action)
    returns (run': seq<Cluster>, acts': seq<Action>)
    requires Ends(g, k, run, acts, c) && Move(g, c, c', a) && (a.SendAppend? ==> a.limit == k)
    ensures Ends(g, k, run', acts', c')
  {
    hide Move, Start;
    run', acts' := run + [c'], acts + [a];
  }

  /** One step later node `n` is `p`, and `sent` is on the wire with everything before. */
  ghost predicate After(c: Cluster, c': Cluster, n: NodeId, p: Peer, sent: set<Wire>)
  {
    c'.peers == c.peers[n := p] && c'.wire == c.wire + sent
  }

  /* ---------- single steps ---------- */

  lemma Elect(g: Group, c: Cluster, n: NodeId, s: Store, won: nat) returns (c': Cluster)
    requires n in c.peers && n in g.voters && c.peers[n] == Synced(s, Follower, won) && s.voters == g.voters
             && s.jointOld == []
    ensures Move(g, c, c', Campaign(n))
    ensures var t := s.currentTerm + 1;
            After(c, c', n, Synced(s.(currentTerm := t, votedFor := n), Candidate, won),
                  {VoteCall(VoteRequest(t, n, LastIndex(s), LastLogTerm(s))), VoteGrant(n, t, n)})
  {
    var o := BeginElection(s, n);
    c' := Cluster(c.peers[n := Settle(c.peers[n], o, Candidate)],
        c.wire + {VoteCall(o.reply.value), VoteGrant(n, o.reply.value.term, n)});
  }

  lemma GrantVote(g: Group, c: Cluster, n: NodeId, s: Store, r: VoteRequest) returns (c': Cluster)
    requires ValidGroup(g) && n in c.peers && c.peers[n] == Synced(s, Follower, 0) && s.voters == g.voters
             && s.jointOld == []
    requires VoteCall(r) in c.wire && r.candidate in g.voters && r.term > s.currentTerm
    requires r.lastTerm == LastLogTerm(s) && r.lastIndex >= LastIndex(s)
    ensures Move(g, c, c', AnswerVote(n, VoteCall(r)))
    ensures After(c, c', n, Synced(s.(currentTerm := r.term, votedFor := r.candidate), Follower, 0),
            {VoteGrant(n, r.term, r.candidate)})
  {
    hide ValidNodeId;
    var o := RequestVote(s, r);
    c' := Cluster(c.peers[n := Settle(c.peers[n], o, Follower)], c.wire + {VoteGrant(n, r.term, r.candidate)});
  }

  /** Two of three voters are a majority. */
  lemma TwoOfThree(s: Store, a: NodeId, b: NodeId)
    requires Canonical(s.voters) && |s.voters| == 3 && s.jointOld == [] && a in s.voters && b in s.voters && a != b
    ensures HasQuorum(s, {a, b})
  {
    MajorityIsQuorum(s.voters, {a, b});
    CanonicalDistinct(s.voters);
    CountIsSize(s.voters, {a, b});
    assert Elements(s.voters) * {a, b} == {a, b};
  }

  lemma Lead(g: Group, c: Cluster, n: NodeId, m: NodeId, s: Store, won: nat) returns (c': Cluster)
    requires ValidGroup(g) && |g.voters| == 3 && n in g.voters && m in g.voters && n != m
    requires n in c.peers && c.peers[n] == Synced(s, Candidate, won) && s.voters == g.voters && s.jointOld == []
    requires VoteGrant(n, s.currentTerm, n) in c.wire && VoteGrant(m, s.currentTerm, n) in c.wire
    ensures Move(g, c, c', BecomeLeader(n, {n, m}))
    ensures After(c, c', n, Synced(s, Leader, s.currentTerm), {})
  {
    hide Canonical, HasQuorum;
    TwoOfThree(s, n, m);
    c' := c.(peers := c.peers[n := Synced(s, Leader, s.currentTerm)]);
  }

  /** A leader with nothing uncommitted appends the next epoch. */
  lemma Push(g: Group, c: Cluster, n: NodeId, s: Store, view: View) returns (c': Cluster)
    requires n in c.peers && c.peers[n] == Synced(s, Leader, s.currentTerm) && s.currentTerm > 0 && s.votedFor == n
    requires s.commitIndex == LastIndex(s) && s.appliedEpoch >= 1 && ValidView(view)
    ensures Move(g, c, c', Propose(n, view))
    ensures After(c, c', n,
                  Synced(s.(entries := s.entries + [Entry(s.currentTerm, Advance(s.appliedEpoch + 1, view))]), Leader,
                      s.currentTerm), {})
  {
    hide ValidView;
    var o := AppendCommand(s, n, s.currentTerm, Advance(s.appliedEpoch + 1, view));
    c' := c.(peers := c.peers[n := Settle(c.peers[n], o, Leader)]);
  }

  /** What a leader reads from index `next` on, `k` entries at most. */
  function Call(n: NodeId, s: Store, next: nat, k: nat): AppendRequest
    requires s.snapshotIndex == 0 && 1 <= next <= |s.entries| + 1
  {
    AppendRequest(s.currentTerm, n, next - 1, TermAt(s.entries, next - 1),
                  s.entries[next - 1..Min(next - 1 + k, |s.entries|)], s.commitIndex)
  }

  lemma Send(g: Group, c: Cluster, n: NodeId, s: Store, next: nat, k: nat) returns (c': Cluster)
    requires n in c.peers && c.peers[n] == Synced(s, Leader, s.currentTerm) && s.currentTerm > 0 && 1 <= k <= 1024
    requires s.snapshotIndex == 0 && s.snapshotTerm == 0 && 1 <= next <= |s.entries| + 1
    ensures Effect(g, c, c', SendAppend(n, next, k)) && After(c, c', n, c.peers[n], {AppendCall(Call(n, s, next, k))})
    ensures Covered(c, SendAppend(n, next, k)) <==> s.commitIndex <= Min(next - 1 + k, |s.entries|)
    ensures s.commitIndex <= Min(next - 1 + k, |s.entries|) ==> Move(g, c, c', SendAppend(n, next, k))
  {
    c' := c.(wire := c.wire + {AppendCall(Call(n, s, next, k))});
  }

  lemma ApplyNext(m: Machine, e: Entry, epoch: nat, view: View)
    requires m.jointOld == [] && epoch == m.epoch + 1 && e.command == Advance(epoch, view)
    ensures ApplyAll(m, [e]) == Some(m.(epoch := epoch, view := Some(view)))
  {
    assert [e][1..] == [];
  }

  /** A follower whose log ends where the batch starts takes it and stays at its commit index. */
  lemma Take(g: Group, c: Cluster, n: NodeId, s: Store, r: AppendRequest) returns (c': Cluster)
    requires ValidGroup(g) && n in c.peers && c.peers[n] == Synced(s, Follower, 0) && s.voters == g.voters
             && s.jointOld == []
    requires s.snapshotIndex == 0 && s.snapshotTerm == 0
    requires AppendCall(r) in c.wire && r.leader in g.voters && r.term > 0 && r.term >= s.currentTerm
    requires r.prevIndex == |s.entries| && r.prevTerm == LastTerm(s.entries) && |r.entries| == 1
             && ValidEntry(r.entries[0])
    requires r.leaderCommit <= s.commitIndex
    ensures Move(g, c, c', AnswerAppend(n, AppendCall(r)))
    ensures After(c, c', n, Synced(Raise(s, r.term).(entries := s.entries + r.entries), Follower, 0),
            {AppendAck(n, r.term, r.prevIndex + 1)})
  {
    hide ValidNodeId, ValidEntry;
    var o := AppendEntries(s, r);
    assert s.entries[..|s.entries|] == s.entries && r.entries == [r.entries[0]] && r.entries[1..] == [];
    assert AppendLoop(s.entries, s.commitIndex, |s.entries|, r.entries) == (s.entries + r.entries, true);
    c' := Cluster(c.peers[n := Settle(c.peers[n], o, Follower)], c.wire + {AppendAck(n, r.term, r.prevIndex + 1)});
  }

  /** A request whose entries the follower already holds makes it commit one more entry of its own log. */
  lemma Follow1(g: Group, c: Cluster, n: NodeId, p: Peer, s: Store, r: AppendRequest, e: Entry, view: View)
      returns (c': Cluster)
    requires ValidGroup(g) && n in c.peers && c.peers[n] == p == Synced(s, p.role, p.won) && s.voters == g.voters
    requires s.jointOld == [] && s.jointNew == [] && s.snapshotIndex == 0 && s.snapshotTerm == 0
    requires AppendCall(r) in c.wire && r.leader in g.voters && r.term > 0 && r.term >= s.currentTerm
             && |r.entries| <= 1024
    requires r.prevIndex + |r.entries| <= |s.entries| && r.entries == s.entries[r.prevIndex..r.prevIndex + |r.entries|]
    requires r.prevTerm == TermAt(s.entries, r.prevIndex)
    requires r.leaderCommit == |s.entries| == s.commitIndex + 1 && s.entries[s.commitIndex] == e
             && e.command == Advance(s.appliedEpoch + 1, view)
    ensures Move(g, c, c', AnswerAppend(n, AppendCall(r)))
    ensures After(c, c', n,
                  Synced(Raise(s, r.term).(commitIndex := s.commitIndex + 1, appliedEpoch := s.appliedEpoch + 1,
                      committedView := Some(view)),
                         Follower, p.won),
                  {AppendAck(n, r.term, r.prevIndex + |r.entries|)})
  {
    hide ValidNodeId, ValidEntry, ApplyAll, AppendLoop;
    RaftRefinement.LoopIdle(s.entries, s.commitIndex, r.prevIndex, r.entries);
    ApplyNext(MachineOf(s), e, s.appliedEpoch + 1, view);
    assert s.entries[s.commitIndex..s.commitIndex + 1] == [e];
    var o := AppendEntries(s, r);
    c' := Cluster(c.peers[n := Settle(p, o, Follower)], c.wire + {AppendAck(n, r.term, r.prevIndex + |r.entries|)});
  }

  /** The leader commits its last entry once one other voter holds it. */
  lemma Decide(g: Group, c: Cluster, n: NodeId, m: NodeId, s: Store, view: View) returns (c': Cluster)
    requires ValidGroup(g) && |g.voters| == 3 && n in g.voters && m in g.voters && n != m
    requires n in c.peers && c.peers[n] == Synced(s, Leader, s.currentTerm) && s.currentTerm > 0 && s.voters == g.voters
    requires s.jointOld == [] && s.jointNew == [] && s.snapshotIndex == 0 && |s.entries| == s.commitIndex + 1
    requires s.entries[s.commitIndex] == Entry(s.currentTerm, Advance(s.appliedEpoch + 1, view))
    requires AppendAck(m, s.currentTerm, |s.entries|) in c.wire
    ensures Move(g, c, c', CommitEntry(n, |s.entries|, {n, m}))
    ensures After(c, c', n,
                  Synced(s.(commitIndex := s.commitIndex + 1, appliedEpoch := s.appliedEpoch + 1, committedView :=
                      Some(view)), Leader, s.currentTerm), {})
  {
    hide Canonical, HasQuorum, ApplyAll;
    TwoOfThree(s, n, m);
    ApplyNext(MachineOf(s), s.entries[s.commitIndex], s.appliedEpoch + 1, view);
    assert s.entries[s.commitIndex..s.commitIndex + 1] == [s.entries[s.commitIndex]];
    var o := CommitWithVoterAcks(s, |s.entries|, s.currentTerm, {n, m});
    c' := c.(peers := c.peers[n := Settle(c.peers[n], o, Leader)]);
  }

  /* ---------- the run ---------- */

  /** The first `j` entries, all of term 1. */
  function Shared(g: Group, v: View, j: nat): (log: Log)
    ensures |log| == j && forall i :: 0 <= i < j ==> log[i].term == 1
  {
    if j == 0 then [] else Shared(g, v, j - 1) + [Entry(1, Advance(g.boot + j, v))]
  }

  function Stale(g: Group, v: View, k: nat): Entry { Entry(1, Advance(g.boot + k + 1, v)) }
  function Newer(g: Group, v: View, k: nat): Entry { Entry(2, Advance(g.boot + k + 1, v)) }

  /** A store of term `term` that holds the shared entries and has committed `c` of them. */
  function Sharing(g: Group, term: nat, voted: NodeId, v: View, c: nat, log: Log): Store
  {
    Plain(g, term, voted, c, g.boot + c, if c == 0 then None else Some(v), log)
  }

  predicate Trio(g: Group, c: Cluster, a: Peer, b: Peer, d: Peer)
    requires |g.voters| == 3
  {
    var v := g.voters;
    v[0] in c.peers && v[1] in c.peers && v[2] in c.peers && c.peers[v[0]] == a && c.peers[v[1]] == b
        && c.peers[v[2]] == d
  }

  predicate Three(g: Group)
  {
    ValidGroup(g) && |g.voters| == 3 && g.voters[0] != g.voters[1] && g.voters[1] != g.voters[2]
        && g.voters[0] != g.voters[2]
  }

  lemma ThreeVoters(g: Group)
    requires ValidGroup(g) && |g.voters| == 3
    ensures Three(g)
  {
    CanonicalDistinct(g.voters);
  }

  lemma Begin(g: Group, k: nat) returns (c: Cluster)
    requires Three(g)
    ensures Ends(g, k, [c], [], c)
    ensures var p := Synced(Plain(g, 0, "", 0, g.boot, None, []), Follower, 0); Trio(g, c, p, p, p)
  {
    hide Canonical;
    c := Cluster(map n | n in Elements(g.voters) :: Synced(Plain(g, 0, "", 0, g.boot, None, []), Follower, 0), {});
  }

  /** The first voter wins term 1. */
  lemma FirstTerm(g: Group, k: nat) returns (run: seq<Cluster>, acts: seq<Action>, c: Cluster)
    requires Three(g)
    ensures Ends(g, k, run, acts, c)
    ensures var a := g.voters[0]; var s := Plain(g, 1, a, 0, g.boot, None, []);
            Trio(g, c, Synced(s, Leader, 1), Synced(s, Follower, 0),
                Synced(Plain(g, 0, "", 0, g.boot, None, []), Follower, 0))
  {
    hide Move, Ends, Canonical;
    var a, b := g.voters[0], g.voters[1];
    var s0 := Plain(g, 0, "", 0, g.boot, None, []);
    c := Begin(g, k);
    run, acts := [c], [];
    var d := Elect(g, c, a, s0, 0);
    run, acts := Extend(g, k, run, acts, c, d, Campaign(a));
    var r := VoteRequest(1, a, 0, 0);
    var e := GrantVote(g, d, b, s0, r);
    run, acts := Extend(g, k, run, acts, d, e, AnswerVote(b, VoteCall(r)));
    c := Lead(g, e, a, b, Plain(g, 1, a, 0, g.boot, None, []), 0);
    run, acts := Extend(g, k, run, acts, e, c, BecomeLeader(a, {a, b}));
  }

  /** The leader of term 1 and its followers hold and have committed `j` entries. */
  predicate InStep(g: Group, v: View, j: nat, c: Cluster)
    requires |g.voters| == 3
  {
    var a, log := g.voters[0], Shared(g, v, j);
    Trio(g, c, Synced(Sharing(g, 1, a, v, j, log), Leader, 1), Synced(Sharing(g, 1, a, v, j, log), Follower, 0),
         Synced(Sharing(g, Min(1, j), "", v, j, log), Follower, 0))
  }

  lemma {:induction false} SharedRun(g: Group, v: View, j: nat, k: nat)
      returns (run: seq<Cluster>, acts: seq<Action>, c: Cluster)
    requires Three(g) && ValidView(v) && 1 <= k <= 1024
    ensures Ends(g, k, run, acts, c) && InStep(g, v, j, c)
    decreases j
  {
    hide Move, Ends, Canonical, ValidView;
    if j == 0 {
      run, acts, c := FirstTerm(g, k);
    } else {
      var run0, acts0, c0 := SharedRun(g, v, j - 1, k);
      var run1, acts1, c1 := Replicated(g, v, j - 1, k, run0, acts0, c0);
      run, acts, c := Announced(g, v, j, k, run1, acts1, c1);
    }
  }

  /** One more entry is appended and sent. */
  lemma Offered(g: Group, v: View, j: nat, k: nat, run0: seq<Cluster>, acts0: seq<Action>, c0: Cluster)
    returns (run: seq<Cluster>, acts: seq<Action>, c: Cluster)
    requires Three(g) && ValidView(v) && 1 <= k <= 1024 && Ends(g, k, run0, acts0, c0) && InStep(g, v, j, c0)
    ensures Ends(g, k, run, acts, c)
    ensures var a, log := g.voters[0], Shared(g, v, j); var s' := Sharing(g, 1, a, v, j, Shared(g, v, j + 1));
            && Trio(g, c, Synced(s', Leader, 1), Synced(Sharing(g, 1, a, v, j, log), Follower, 0),
                    Synced(Sharing(g, Min(1, j), "", v, j, log), Follower, 0))
            && AppendCall(Call(a, s', j + 1, k)) in c.wire
  {
    hide Move, Ends, Canonical, ValidView;
    var a, log := g.voters[0], Shared(g, v, j);
    assert Shared(g, v, j + 1) == log + [Entry(1, Advance(g.boot + j + 1, v))];
    var c1 := Push(g, c0, a, Sharing(g, 1, a, v, j, log), v);
    run, acts := Extend(g, k, run0, acts0, c0, c1, Propose(a, v));
    c := Send(g, c1, a, Sharing(g, 1, a, v, j, Shared(g, v, j + 1)), j + 1, k);
    run, acts := Extend(g, k, run, acts, c1, c, SendAppend(a, j + 1, k));
  }

  /** Both followers take it and the leader commits it. */
  lemma Replicated(g: Group, v: View, j: nat, k: nat, run0: seq<Cluster>, acts0: seq<Action>, c0: Cluster)
    returns (run: seq<Cluster>, acts: seq<Action>, c: Cluster)
    requires Three(g) && ValidView(v) && 1 <= k <= 1024 && Ends(g, k, run0, acts0, c0) && InStep(g, v, j, c0)
    ensures Ends(g, k, run, acts, c)
    ensures var a, log := g.voters[0], Shared(g, v, j + 1);
            Trio(g, c, Synced(Sharing(g, 1, a, v, j + 1, log), Leader, 1),
                 Synced(Sharing(g, 1, a, v, j, log), Follower, 0), Synced(Sharing(g, 1, "", v, j, log), Follower, 0))
  {
    hide Move, Ends, Canonical, ValidView, InStep;
    var a, b, d, log, e := g.voters[0], g.voters[1], g.voters[2], Shared(g, v, j), Entry(1, Advance(g.boot + j + 1, v));
    var s' := Sharing(g, 1, a, v, j, log + [e]);
    var r := Call(a, s', j + 1, k);
    assert r.entries == [e] && Shared(g, v, j + 1) == log + [e];
    var c2;
    run, acts, c2 := Offered(g, v, j, k, run0, acts0, c0);
    NextValid(g, v, j);
    var c3 := Take(g, c2, b, Sharing(g, 1, a, v, j, log), r);
    run, acts := Extend(g, k, run, acts, c2, c3, AnswerAppend(b, AppendCall(r)));
    var c4 := Take(g, c3, d, Sharing(g, Min(1, j), "", v, j, log), r);
    run, acts := Extend(g, k, run, acts, c3, c4, AnswerAppend(d, AppendCall(r)));
    c := Decide(g, c4, a, b, s', v);
    run, acts := Extend(g, k, run, acts, c4, c, CommitEntry(a, j + 1, {a, b}));
  }

  lemma NextValid(g: Group, v: View, j: nat)
    requires ValidGroup(g) && ValidView(v)
    ensures ValidEntry(Entry(1, Advance(g.boot + j + 1, v))) && ValidEntry(Entry(2, Advance(g.boot + j + 1, v)))
  {
    hide ValidView, Canonical;
  }

  /** An empty request tells both followers to commit it. */
  lemma Announced(g: Group, v: View, j: nat, k: nat, run0: seq<Cluster>, acts0: seq<Action>, c0: Cluster)
    returns (run: seq<Cluster>, acts: seq<Action>, c: Cluster)
    requires Three(g) && ValidView(v) && j > 0 && 1 <= k <= 1024 && Ends(g, k, run0, acts0, c0)
    requires var a, log := g.voters[0], Shared(g, v, j);
             Trio(g, c0, Synced(Sharing(g, 1, a, v, j, log), Leader, 1),
                  Synced(Sharing(g, 1, a, v, j - 1, log), Follower, 0),
                  Synced(Sharing(g, 1, "", v, j - 1, log), Follower, 0))
    ensures Ends(g, k, run, acts, c) && InStep(g, v, j, c)
  {
    hide Move, Ends, Canonical, ValidView;
    var a, b, d, log := g.voters[0], g.voters[1], g.voters[2], Shared(g, v, j);
    var s, e := Sharing(g, 1, a, v, j, log), log[j - 1];
    var r := Call(a, s, j + 1, k);
    assert r.entries == [];
    var c1 := Send(g, c0, a, s, j + 1, k);
    run, acts := Extend(g, k, run0, acts0, c0, c1, SendAppend(a, j + 1, k));
    var c2 := Follow1(g, c1, b, c1.peers[b], Sharing(g, 1, a, v, j - 1, log), r, e, v);
    run, acts := Extend(g, k, run, acts, c1, c2, AnswerAppend(b, AppendCall(r)));
    c := Follow1(g, c2, d, c2.peers[d], Sharing(g, 1, "", v, j - 1, log), r, e, v);
    run, acts := Extend(g, k, run, acts, c2, c, AnswerAppend(d, AppendCall(r)));
  }

  /** The leader of term 1 appends an entry nobody else receives, and the second voter wins term 2. */
  lemma SecondLeader(g: Group, v1: View, v2: View, k: nat) returns (run: seq<Cluster>, acts: seq<Action>, c: Cluster)
    requires Three(g) && ValidView(v1) && ValidView(v2) && 1 <= k <= 1024
    ensures Ends(g, k, run, acts, c)
    ensures var a, b, log := g.voters[0], g.voters[1], Shared(g, v1, k);
            var s := Sharing(g, 2, b, v1, k, log);
            Trio(g, c, Synced(Sharing(g, 1, a, v1, k, log + [Stale(g, v2, k)]), Leader, 1), Synced(s, Leader, 2),
                 Synced(s, Follower, 0))
  {
    hide Move, Ends, Canonical, ValidView;
    var a, b, d, log := g.voters[0], g.voters[1], g.voters[2], Shared(g, v1, k);
    run, acts, c := SharedRun(g, v1, k, k);
    var c0 := Push(g, c, a, Sharing(g, 1, a, v1, k, log), v2);
    run, acts := Extend(g, k, run, acts, c, c0, Propose(a, v2));
    var c1 := Elect(g, c0, b, Sharing(g, 1, a, v1, k, log), 0);
    run, acts := Extend(g, k, run, acts, c0, c1, Campaign(b));
    var r := VoteRequest(2, b, k, 1);
    var c2 := GrantVote(g, c1, d, Sharing(g, 1, "", v1, k, log), r);
    run, acts := Extend(g, k, run, acts, c1, c2, AnswerVote(d, VoteCall(r)));
    c := Lead(g, c2, b, d, Sharing(g, 2, b, v1, k, log), 0);
    run, acts := Extend(g, k, run, acts, c2, c, BecomeLeader(b, {b, d}));
  }

  /** The new leader commits its own entry with the third voter. */
  lemma SecondTerm(g: Group, v1: View, v2: View, v3: View, k: nat)
      returns (run: seq<Cluster>, acts: seq<Action>, c: Cluster)
    requires Three(g) && ValidView(v1) && ValidView(v2) && ValidView(v3) && 1 <= k <= 1024
    ensures Ends(g, k, run, acts, c)
    ensures var v, log := g.voters, Shared(g, v1, k);
            && v[0] in c.peers && v[1] in c.peers
            && c.peers[v[0]] == Synced(Sharing(g, 1, v[0], v1, k, log + [Stale(g, v2, k)]), Leader, 1)
            && c.peers[v[1]] == Synced(Sharing(g, 2, v[1], v3, k + 1, log + [Newer(g, v3, k)]), Leader, 2)
  {
    hide Move, Ends, Canonical, ValidView;
    var a, b, d, log, e := g.voters[0], g.voters[1], g.voters[2], Shared(g, v1, k), Newer(g, v3, k);
    var t, u := Sharing(g, 2, b, v1, k, log), Sharing(g, 2, b, v1, k, log + [e]);
    run, acts, c := SecondLeader(g, v1, v2, k);
    var c1 := Push(g, c, b, t, v3);
    run, acts := Extend(g, k, run, acts, c, c1, Propose(b, v3));
    var c2 := Send(g, c1, b, u, k + 1, k);
    run, acts := Extend(g, k, run, acts, c1, c2, SendAppend(b, k + 1, k));
    var r := Call(b, u, k + 1, k);
    assert r.entries == [e];
    NextValid(g, v3, k);
    var c3 := Take(g, c2, d, t, r);
    run, acts := Extend(g, k, run, acts, c2, c3, AnswerAppend(d, AppendCall(r)));
    c := Decide(g, c3, b, d, u, v3);
    run, acts := Extend(g, k, run, acts, c3, c, CommitEntry(b, k + 1, {b, d}));
  }

  /** In the last state the first two voters have committed index `k + 1` and disagree there. */
  ghost predicate Disagree(g: Group, c: Cluster, k: nat)
    requires |g.voters| == 3
  {
    && g.voters[0] in c.peers && g.voters[1] in c.peers
    && var s, t := c.peers[g.voters[0]].store, c.peers[g.voters[1]].store;
    && s.snapshotIndex == t.snapshotIndex == 0 && s.commitIndex == t.commitIndex == k + 1
    && |s.entries| == |t.entries| == k + 1 && s.entries[k] != t.entries[k]
    && s.appliedEpoch == t.appliedEpoch && s.committedView != t.committedView
  }

  /**
   For every batch limit `k`, a run in which every request but one is covered, and
   that one, a full batch of `k` entries from the first index on, splits the group:
   the first and the second voter have both committed index `k + 1`, hold different
   entries there, and serve different views under the same epoch.
   */
  lemma UncoveredRequestDiverges(g: Group, k: nat, v1: View, v2: View, v3: View)
      returns (run: seq<Cluster>, acts: seq<Action>, sent: nat)
    requires ValidGroup(g) && |g.voters| == 3 && 1 <= k <= 1024
    requires ValidView(v1) && ValidView(v2) && ValidView(v3) && v2 != v3
    ensures IsCodeRun(g, run, acts) && Limited(acts, k)
    ensures sent < |acts| && acts[sent] == SendAppend(g.voters[1], 1, k)
    ensures forall i :: 0 <= i < |acts| ==> (Covered(run[i], acts[i]) <==> i != sent)
    ensures Disagree(g, run[|run| - 1], k)
  {
    hide Move, Canonical, ValidView, Effect, Start, Covered;
    ThreeVoters(g);
    var a, b, log := g.voters[0], g.voters[1], Shared(g, v1, k);
    var c;
    run, acts, c := SecondTerm(g, v1, v2, v3, k);
    sent := |acts|;
    var s, t := Sharing(g, 1, a, v1, k, log + [Stale(g, v2, k)]), Sharing(g, 2, b, v3, k + 1, log + [Newer(g, v3, k)]);
    var c1 := Send(g, c, b, t, 1, k);
    var r := Call(b, t, 1, k);
    assert r.entries == log && s.entries[0..k] == log;
    var c2 := Follow1(g, c1, a, c1.peers[a], s, r, Stale(g, v2, k), v2);
    MovesApart(g, run, acts);
    MovesApart(g, [c1, c2], [AnswerAppend(a, AppendCall(r))]);
    run, acts := run + [c1, c2], acts + [SendAppend(b, 1, k), AnswerAppend(a, AppendCall(r))];
  }

  /** How many entries the replication loop reads at once. */
  const BATCH: nat := 128

  /** With the batches the replication loop reads, 129 entries are enough. */
  lemma FullBatchDiverges(g: Group, v1: View, v2: View, v3: View) returns (run: seq<Cluster>, acts: seq<Action>)
    requires ValidGroup(g) && |g.voters| == 3 && ValidView(v1) && ValidView(v2) && ValidView(v3) && v2 != v3
    ensures IsCodeRun(g, run, acts) && Limited(acts, BATCH) && Disagree(g, run[|run| - 1], BATCH)
  {
    hide IsCodeRun, Limited, Disagree, ValidView, Covered;
    var sent;
    run, acts, sent := UncoveredRequestDiverges(g, BATCH, v1, v2, v3);
  }

  lemma MovesApart(g: Group, run: seq<Cluster>, acts: seq<Action>)
    requires |run| == |acts| + 1 && forall i :: 0 <= i < |acts| ==> Move(g, run[i], run[i + 1], acts[i])
    ensures forall i :: 0 <= i < |acts| ==> Effect(g, run[i], run[i + 1], acts[i]) && Covered(run[i], acts[i])
  {
    hide Effect, Covered;
    forall i | 0 <= i < |acts| ensures Effect(g, run[i], run[i + 1], acts[i]) && Covered(run[i], acts[i])
    {
      assert Move(g, run[i], run[i + 1], acts[i]);
    }
  }
}
