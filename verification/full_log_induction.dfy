/** The invariant of the reference protocol holds initially and is kept by every step. */
module FullLogInduction {
  import opened RaftTypes
  import opened FullLog
  import opened FullLogSafety

  /* ---------- what every step has in common ---------- */

  /** Histories only grow: messages stay, elections stay, leader logs are only extended. */
  ghost predicate Ext(s: State, s': State)
  {
    && s.nodes.Keys == s'.nodes.Keys
    && s.net <= s'.net
    && (forall t :: t in s.elect ==> t in s'.elect && s'.elect[t] == s.elect[t])
    && (forall t :: t in s.logs ==> t in s'.logs && s.logs[t] <= s'.logs[t])
  }

  /** Only `n` acknowledges anything new, and only in the term it is in afterwards. */
  ghost predicate NewAcksBy(s: State, s': State, n: NodeId, t0: nat)
  {
    forall v: NodeId, t: nat, i: nat :: Acked(s', v, t, i) ==> Acked(s, v, t, i) || (v == n && t == t0)
  }

  ghost predicate OneNode(s: State, s': State, n: NodeId)
  {
    && Ext(s, s') && n in s.nodes
    && (forall v :: v in s.nodes && v != n ==> s'.nodes[v] == s.nodes[v])
    && var x, x' := s.nodes[n], s'.nodes[n];
    && x.term <= x'.term
    && (x'.role == Candidate ==> (x.role == Candidate && x'.term == x.term && x'.log == x.log) || x'.term > x.term)
    && (x'.term == x.term ==> x'.voted == x.voted || x.voted == "")
    && NewAcksBy(s, s', n, x'.term)
    && (x.term in s.elect && x.term in s.logs && s.elect[x.term].leader == n && x'.term == x.term ==>
          x'.log == s'.logs[x.term] && x'.role != Candidate)
    && (forall t :: t in s.logs && (t != x.term || t !in s.elect || s.elect[t].leader != n || x'.term != x.term) ==>
       s'.logs[t] == s.logs[t])
  }

  lemma LogOKExt(s: State, s': State, log: Log)
    requires Ext(s, s') && LogOK(s, log)
    ensures LogOK(s', log)
  {
    forall k | 0 <= k < |log|
      ensures log[k].term in s'.logs && k < |s'.logs[log[k].term]| && log[..k + 1] == s'.logs[log[k].term][..k + 1]
    {
      var t := log[k].term;
      TakePrefix(s.logs[t], s'.logs[t], k + 1);
    }
  }

  lemma AckedExt(s: State, s': State, v: NodeId, t: nat, i: nat)
    requires Ext(s, s') && Acked(s, v, t, i)
    ensures Acked(s', v, t, i) && s'.logs[t][..i] == s.logs[t][..i]
  {
    TakePrefix(s.logs[t], s'.logs[t], i);
    if s.elect[t].leader != v {
      var j :| j >= i && Ack(v, t, j) in s.net;
      assert Ack(v, t, j) in s'.net;
    }
  }

  lemma CommittedExt(s: State, s': State, t: nat, i: nat)
    requires Ext(s, s') && Committed(s, t, i)
    ensures Committed(s', t, i) && s'.logs[t][..i] == s.logs[t][..i]
  {
    TakePrefix(s.logs[t], s'.logs[t], i);
    assert s'.logs[t][..i][i - 1] == s.logs[t][..i][i - 1];
    var q :| IsQuorum(s.nodes.Keys, q) && AllAcked(s, q, t, i);
    forall v | v in q ensures Acked(s', v, t, i) { AckedExt(s, s', v, t, i); }
    assert AllAcked(s', q, t, i) && IsQuorum(s'.nodes.Keys, q);
  }

  /** A committed prefix stays committed, also in any log that agrees with it up to there. */
  lemma CommittedUpToExt(s: State, s': State, log: Log, log': Log, c: nat, hi: nat, hi': nat)
    requires Ext(s, s') && CommittedUpTo(s, log, c, hi) && hi <= hi'
    requires c <= |log'| && log'[..c] == log[..c]
    ensures CommittedUpTo(s', log', c, hi')
  {
    if c > 0 {
      var t: nat, i: nat :| t <= hi && Covers(s, log, c, t, i);
      CommittedExt(s, s', t, i);
      TakePrefix(s.logs[t], s'.logs[t], c);
      assert Covers(s', log', c, t, i);
    }
  }

  lemma VoteTimeExt(s: State, s': State, n: NodeId, t0: nat, v: NodeId, t': nat, vlog: Log)
    requires Ext(s, s') && NewAcksBy(s, s', n, t0) && VoteTime(s, v, t', vlog)
    requires v == n ==> t' <= t0
    ensures VoteTime(s', v, t', vlog)
  {
    forall t: nat, i: nat | t < t' && Acked(s', v, t, i) && Kept(s', s'.logs[t][..i], t, t' - 1)
      ensures s'.logs[t][..i] <= vlog
    {
      assert Acked(s, v, t, i);
      AckedExt(s, s', v, t, i);
      KeptBack(s, s', s.logs[t][..i], t, t' - 1);
    }
  }

  lemma KeptBack(s: State, s': State, p: Log, lo: nat, hi: nat)
    requires Ext(s, s') && Kept(s', p, lo, hi)
    ensures Kept(s, p, lo, hi)
  {
    forall u | lo < u <= hi && u in s.elect ensures p <= s.elect[u].init { assert u in s'.elect; }
  }

  lemma MsgFrame(s: State, s': State, n: NodeId, m: Msg)
    requires OneNode(s, s', n) && "" !in s.nodes && MsgInv(s, m)
    ensures MsgInv(s', m)
  {
    match m
    case VoteReq(t, c, log) =>
    case Grant(v, t, c, vlog, clog) =>
      LogOKExt(s, s', vlog);
      if t !in s'.elect { VoteTimeExt(s, s', n, s'.nodes[n].term, v, t, vlog); }
    case App(t, prev, prevTerm, entries, commit) =>
      TakePrefix(s.logs[t], s'.logs[t], prev);
      SliceExt(s.logs[t], s'.logs[t], prev, prev + |entries|);
      TakePrefix(s.logs[t], s'.logs[t], commit);
      CommittedUpToExt(s, s', s.logs[t], s'.logs[t], commit, t, t);
    case Snap(t, log) =>
      TakePrefix(s.logs[t], s'.logs[t], |log|);
      CommittedUpToExt(s, s', s.logs[t], s'.logs[t], |log|, t, t);
    case Ack(v, t, i) =>
  }

  lemma SliceExt(a: Log, b: Log, i: nat, j: nat)
    requires a <= b && i <= j <= |a|
    ensures a[i..j] == b[i..j] && TermAt(a, i) == TermAt(b, i)
  {
    assert forall k :: 0 <= k < |a| ==> a[k] == b[k];
  }

  lemma OtherNode(s: State, s': State, n: NodeId, v: NodeId)
    requires OneNode(s, s', n) && v in s.nodes && v != n && NodeInv(s, v) && AckInv(s, v)
    ensures NodeInv(s', v) && AckInv(s', v)
  {
    var x := s.nodes[v];
    LogOKExt(s, s', x.log);
    CommittedUpToExt(s, s', x.log, x.log, x.commit, x.term, x.term);
    forall t: nat, i: nat | Acked(s', v, t, i) ensures AckAt(s', v, t, i)
    {
      OldAck(s, s', v, t, i);
    }
  }

  /** An acknowledgement given earlier is still honoured if the log kept what it held. */
  lemma OldAck(s: State, s': State, v: NodeId, t: nat, i: nat)
    requires Ext(s, s') && v in s.nodes && s.nodes[v].term <= s'.nodes[v].term
    requires Acked(s, v, t, i) && AckAt(s, v, t, i)
    requires s.nodes[v].log <= s'.nodes[v].log
    ensures AckAt(s', v, t, i)
  {
    AckedExt(s, s', v, t, i);
    var p := s.logs[t][..i];
    if Kept(s', p, t, s'.nodes[v].term) {
      KeptBack(s, s', p, t, s'.nodes[v].term);
      assert Kept(s, p, t, s.nodes[v].term);
    }
  }

  lemma VotersFrame(s: State, s': State, n: NodeId, t: nat)
    requires OneNode(s, s', n) && t in s.elect && VotersInv(s, t)
    requires forall m :: m in s.net ==> MsgInv(s, m)
    ensures VotersInv(s', t)
  {
    var e := s.elect[t];
    forall v | v in e.voters ensures VoterInv(s', t, v)
    {
      assert VoterInv(s, t, v);
      assert MsgInv(s, Grant(v, t, e.leader, e.voters[v], e.init));
      LogOKExt(s, s', e.voters[v]);
      VoteTimeExt(s, s', n, s'.nodes[n].term, v, t, e.voters[v]);
    }
  }

  lemma LeaderLogFrame(s: State, s': State, n: NodeId, t: nat)
    requires OneNode(s, s', n) && t in s.elect && LeaderLog(s, t) && s'.logs[t] == s.logs[t]
    ensures LeaderLog(s', t)
  {
    LogOKExt(s, s', s.logs[t]);
  }

  lemma LeaderFrame(s: State, s': State, n: NodeId, t: nat)
    requires OneNode(s, s', n) && t in s.elect && t in s.logs && LeaderInv(s, t)
    ensures LeaderInv(s', t)
  {
  }

  /** What remains to be shown about a step that changes one node. */
  ghost predicate Fresh(s: State, s': State, n: NodeId)
    requires OneNode(s, s', n)
  {
    && NodeInv(s', n) && AckInv(s', n)
    && (forall m :: m in s'.net && m !in s.net ==> MsgInv(s', m))
    && OneVote(s')
    && s'.logs.Keys == s'.elect.Keys
    && (forall t :: t in s'.elect && t in s'.logs && t !in s.elect ==>
       LeaderLog(s', t) && VotersInv(s', t) && LeaderInv(s', t))
    && (forall t :: t in s.elect && t in s.logs && s'.logs[t] != s.logs[t] ==> LeaderLog(s', t))
  }

  lemma HistoryFrame(s: State, s': State, n: NodeId)
    requires OneNode(s, s', n) && Elections(s) && Fresh(s, s', n)
    requires forall m :: m in s.net ==> MsgInv(s, m)
    ensures Elections(s')
  {
    forall t | t in s'.elect ensures LeaderLog(s', t) && VotersInv(s', t)
    {
      if t in s.elect {
        if s'.logs[t] == s.logs[t] { LeaderLogFrame(s, s', n, t); }
        VotersFrame(s, s', n, t);
      }
    }
  }

  lemma Assemble(s: State, s': State, n: NodeId)
    requires OneNode(s, s', n) && Inv(s) && Fresh(s, s', n)
    ensures Inv(s')
  {
    hide IsQuorum, NodeInv, AckInv, LeaderInv, MsgInv;
    HistoryFrame(s, s', n);
    forall v | v in s'.nodes ensures NodeInv(s', v) && AckInv(s', v)
    {
      if v != n { OtherNode(s, s', n, v); }
    }
    forall t | t in s'.elect ensures LeaderInv(s', t)
    {
      if t in s.elect { LeaderFrame(s, s', n, t); }
    }
    forall m | m in s'.net ensures MsgInv(s', m)
    {
      if m in s.net { MsgFrame(s, s', n, m); }
    }
  }

  /* ---------- the steps ---------- */

  lemma SameAcks(s: State, s': State, n: NodeId, t0: nat)
    requires s'.elect == s.elect && s'.logs == s.logs
    requires forall m :: m in s'.net && m.Ack? ==> m in s.net || (m.node == n && m.term == t0)
    ensures NewAcksBy(s, s', n, t0)
  {
    forall v: NodeId, t: nat, i: nat | Acked(s', v, t, i)
      ensures Acked(s, v, t, i) || (v == n && t == t0)
    {
      if s.elect[t].leader != v {
        var j :| j >= i && Ack(v, t, j) in s'.net;
      }
    }
  }

  lemma NoNewAcks(s: State, s': State, n: NodeId)
    requires s'.elect == s.elect && s'.logs == s.logs
    requires forall m :: m in s'.net && m.Ack? ==> m in s.net
    ensures forall v: NodeId, t: nat, i: nat :: Acked(s', v, t, i) ==> Acked(s, v, t, i)
  {
    forall v: NodeId, t: nat, i: nat | Acked(s', v, t, i)
      ensures Acked(s, v, t, i)
    {
      if s.elect[t].leader != v {
        var j :| j >= i && Ack(v, t, j) in s'.net;
      }
    }
  }

  lemma KeepAcks(s: State, s': State, n: NodeId)
    requires Ext(s, s') && n in s.nodes && s.nodes[n].term <= s'.nodes[n].term && AckInv(s, n)
             && s.nodes[n].log <= s'.nodes[n].log
    requires forall v: NodeId, t: nat, i: nat :: Acked(s', v, t, i) ==> Acked(s, v, t, i)
    ensures AckInv(s', n)
  {
    forall t: nat, i: nat | Acked(s', n, t, i) ensures AckAt(s', n, t, i)
    {
      OldAck(s, s', n, t, i);
    }
  }

  /** A node whose log and commit index did not change, in a step that adds no acknowledgement. */
  lemma StillNode(s: State, s': State, n: NodeId)
    requires Ext(s, s') && n in s.nodes && s.nodes[n].term <= s'.nodes[n].term && NodeInv(s, n) && AckInv(s, n)
    requires forall v: NodeId, t: nat, i: nat :: Acked(s', v, t, i) ==> Acked(s, v, t, i)
    requires s'.nodes[n].log == s.nodes[n].log && s'.nodes[n].commit == s.nodes[n].commit
    requires s'.nodes[n].role == Follower
          || (s'.nodes[n].role == s.nodes[n].role && s'.nodes[n].term == s.nodes[n].term)
          || (s'.nodes[n].role == Candidate && s'.nodes[n].term > s.nodes[n].term)
    requires s'.nodes[n].role == Candidate ==> s'.nodes[n].voted == n
    ensures NodeInv(s', n) && AckInv(s', n)
  {
    var x, x' := s.nodes[n], s'.nodes[n];
    LogOKExt(s, s', x.log);
    CommittedUpToExt(s, s', x.log, x'.log, x.commit, x.term, x'.term);
    KeepAcks(s, s', n);
  }

  /** A leader in its own term holds exactly the leader log of that term. */
  ghost predicate Own(s: State, n: NodeId)
    requires n in s.nodes
  {
    var x := s.nodes[n];
    && (x.term in s.elect && x.term in s.logs && s.elect[x.term].leader == n ==>
       x.log == s.logs[x.term] && x.role != Candidate)
    && (x.role == Leader ==> x.term in s.elect && x.term in s.logs && s.elect[x.term].leader == n)
  }

  /** Everything the invariant says about one node. */
  ghost predicate Local(s: State, n: NodeId)
  {
    && "" !in s.nodes && s.logs.Keys == s.elect.Keys
    && n in s.nodes && NodeInv(s, n) && AckInv(s, n) && Own(s, n)
  }

  lemma LocalFacts(s: State, n: NodeId)
    requires Inv(s) && n in s.nodes
    ensures Local(s, n)
  {
    assert NodeInv(s, n);
    if s.nodes[n].term in s.elect { assert LeaderInv(s, s.nodes[n].term); }
  }

  lemma QuietFresh(s: State, s': State, n: NodeId, term: nat, role: Role)
    requires Local(s, n) && OneVote(s) && Quiet(s, s', n, term, role)
    ensures OneNode(s, s', n) && Fresh(s, s', n)
  {
    SameAcks(s, s', n, term);
    NoNewAcks(s, s', n);
    StillNode(s, s', n);
  }

  lemma QuietKeeps(s: State, s': State, n: NodeId, term: nat, role: Role)
    requires Inv(s) && Quiet(s, s', n, term, role)
    ensures Inv(s')
  {
    LocalFacts(s, n);
    QuietFresh(s, s', n, term, role);
    Assemble(s, s', n);
  }

  lemma CampaignFresh(s: State, s': State, n: NodeId)
    requires Local(s, n) && OneVote(s') && Campaign(s, s', n)
    ensures OneNode(s, s', n) && Fresh(s, s', n)
  {
    var x := s.nodes[n];
    SameAcks(s, s', n, x.term + 1);
    NoNewAcks(s, s', n);
    StillNode(s, s', n);
    VotesNow(s, s', n, x.term + 1);
    LogOKExt(s, s', x.log);
  }

  lemma CampaignKeeps(s: State, s': State, n: NodeId)
    requires Inv(s) && Campaign(s, s', n)
    ensures Inv(s')
  {
    var x := s.nodes[n];
    LocalFacts(s, n);
    OneVoteAfter(s, s', Grant(n, x.term + 1, n, x.log, x.log));
    CampaignFresh(s, s', n);
    Assemble(s, s', n);
  }

  /** A vote cast in a term nobody has won yet records everything acknowledged so far. */
  lemma VotesNow(s: State, s': State, n: NodeId, t': nat)
    requires Ext(s, s') && n in s.nodes && AckInv(s, n) && s.nodes[n].term <= t'
    requires s'.elect == s.elect
    requires forall v: NodeId, t: nat, i: nat :: Acked(s', v, t, i) ==> Acked(s, v, t, i)
    ensures t' !in s.elect ==> VoteTime(s', n, t', s.nodes[n].log)
  {
    if t' !in s.elect {
      forall t: nat, i: nat | t < t' && Acked(s', n, t, i) && Kept(s', s'.logs[t][..i], t, t' - 1)
        ensures s'.logs[t][..i] <= s.nodes[n].log
      {
        AckedExt(s, s', n, t, i);
        var p := s.logs[t][..i];
        assert AckAt(s, n, t, i);
        assert Kept(s, p, t, s.nodes[n].term);
      }
    }
  }

  lemma OneVoteAfter(s: State, s': State, g: Msg)
    requires Inv(s) && g.Grant? && g.voter in s.nodes && g.term >= s.nodes[g.voter].term
    requires g.term == s.nodes[g.voter].term ==> s.nodes[g.voter].voted in {"", g.cand}
    requires forall m :: m in s'.net && m.Grant? ==> m in s.net || m == g
    ensures OneVote(s')
  {
    forall a, b | a in s'.net && b in s'.net && a.Grant? && b.Grant? && a.voter == b.voter && a.term == b.term
      ensures a.cand == b.cand
    {
      if a in s.net { assert MsgInv(s, a); }
      if b in s.net { assert MsgInv(s, b); }
    }
  }

  lemma VoteFresh(s: State, s': State, n: NodeId, m: Msg)
    requires Local(s, n) && OneVote(s') && MsgInv(s, m) && Vote(s, s', n, m)
    ensures OneNode(s, s', n) && Fresh(s, s', n)
  {
    var x := s.nodes[n];
    SameAcks(s, s', n, m.term);
    NoNewAcks(s, s', n);
    StillNode(s, s', n);
    VotesNow(s, s', n, m.term);
    LogOKExt(s, s', x.log);
  }

  lemma VoteKeeps(s: State, s': State, n: NodeId, m: Msg)
    requires Inv(s) && Vote(s, s', n, m)
    ensures Inv(s')
  {
    LocalFacts(s, n);
    assert MsgInv(s, m);
    OneVoteAfter(s, s', Grant(n, m.term, m.cand, s.nodes[n].log, m.log));
    VoteFresh(s, s', n, m);
    Assemble(s, s', n);
  }

  /** Election safety: whoever gathers a majority of votes in a decided term is its leader. */
  lemma OneWinner(s: State, n: NodeId, t: nat, voters: map<NodeId, Log>, clog: Log)
    requires Elections(s) && OneVote(s) && t in s.elect
    requires IsQuorum(s.nodes.Keys, voters.Keys)
    requires forall v :: v in voters ==> Grant(v, t, n, voters[v], clog) in s.net
    ensures s.elect[t].leader == n
  {
    assert VotersInv(s, t);
    var e := s.elect[t];
    var v := QuorumsMeet(s.nodes.Keys, voters.Keys, e.voters.Keys);
    assert VoterInv(s, t, v);
    assert Grant(v, t, n, voters[v], clog).cand == Grant(v, t, e.leader, e.voters[v], e.init).cand;
  }

  lemma FirstWinner(s: State, n: NodeId, voters: map<NodeId, Log>)
    requires Inv(s) && n in s.nodes && s.nodes[n].role == Candidate
    requires IsQuorum(s.nodes.Keys, voters.Keys)
    requires forall v :: v in voters ==> Grant(v, s.nodes[n].term, n, voters[v], s.nodes[n].log) in s.net
    ensures s.nodes[n].term !in s.elect
  {
    LocalFacts(s, n);
    if s.nodes[n].term in s.elect { OneWinner(s, n, s.nodes[n].term, voters, s.nodes[n].log); }
  }

  lemma WinAcks(s: State, s': State, n: NodeId, voters: map<NodeId, Log>)
    requires Win(s, s', n, voters) && s.nodes[n].term !in s.elect && s.logs.Keys == s.elect.Keys
    requires forall m :: m in s.net && m.Ack? ==> m.term in s.elect
    ensures Ext(s, s') && NewAcksBy(s, s', n, s.nodes[n].term)
  {
    forall v: NodeId, t: nat, i: nat | Acked(s', v, t, i)
      ensures Acked(s, v, t, i) || (v == n && t == s.nodes[n].term)
    {
      if s'.elect[t].leader != v {
        var j :| j >= i && Ack(v, t, j) in s'.net;
      }
    }
  }

  lemma WinNode(s: State, s': State, n: NodeId, voters: map<NodeId, Log>)
    requires Local(s, n) && Win(s, s', n, voters) && s.nodes[n].term !in s.elect
    requires Ext(s, s') && NewAcksBy(s, s', n, s.nodes[n].term)
    ensures NodeInv(s', n) && AckInv(s', n) && LeaderLog(s', s.nodes[n].term)
  {
    var x := s.nodes[n];
    LogOKExt(s, s', x.log);
    CommittedUpToExt(s, s', x.log, x.log, x.commit, x.term, x.term);
    forall t: nat, i: nat | Acked(s', n, t, i) ensures AckAt(s', n, t, i)
    {
      if t != x.term { OldAck(s, s', n, t, i); }
    }
  }

  lemma WinVoters(s: State, s': State, n: NodeId, voters: map<NodeId, Log>)
    requires Win(s, s', n, voters) && s.nodes[n].term !in s.elect
    requires Ext(s, s') && NewAcksBy(s, s', n, s.nodes[n].term)
    requires forall v :: v in voters ==> MsgInv(s, Grant(v, s.nodes[n].term, n, voters[v], s.nodes[n].log))
    ensures VotersInv(s', s.nodes[n].term)
  {
    var x := s.nodes[n];
    forall v | v in voters ensures VoterInv(s', x.term, v)
    {
      assert MsgInv(s, Grant(v, x.term, n, voters[v], x.log));
      LogOKExt(s, s', voters[v]);
      VoteTimeExt(s, s', n, x.term, v, x.term, voters[v]);
    }
  }

  lemma WinFresh(s: State, s': State, n: NodeId, voters: map<NodeId, Log>)
    requires Local(s, n) && OneVote(s) && Win(s, s', n, voters) && s.nodes[n].term !in s.elect
    requires Ext(s, s') && NewAcksBy(s, s', n, s.nodes[n].term)
    requires forall v :: v in voters ==> MsgInv(s, Grant(v, s.nodes[n].term, n, voters[v], s.nodes[n].log))
    ensures OneNode(s, s', n) && Fresh(s, s', n)
  {
    hide LogOK, UpToDate, IsQuorum;
    WinNode(s, s', n, voters);
    WinVoters(s, s', n, voters);
    assert LeaderInv(s', s.nodes[n].term);
  }

  lemma WinKeeps(s: State, s': State, n: NodeId, voters: map<NodeId, Log>)
    requires Inv(s) && Win(s, s', n, voters)
    ensures Inv(s')
  {
    LocalFacts(s, n);
    FirstWinner(s, n, voters);
    forall m | m in s.net && m.Ack? ensures m.term in s.elect { assert MsgInv(s, m); }
    WinAcks(s, s', n, voters);
    WinFresh(s, s', n, voters);
    Assemble(s, s', n);
  }

  lemma ProposeAcks(s: State, s': State, n: NodeId, c: Command)
    requires Local(s, n) && Propose(s, s', n, c)
    requires forall m :: m in s.net && m.Ack? ==> m.term in s.logs && m.index <= |s.logs[m.term]|
    ensures Ext(s, s') && NewAcksBy(s, s', n, s.nodes[n].term)
  {
    forall v: NodeId, t: nat, i: nat | Acked(s', v, t, i)
      ensures Acked(s, v, t, i) || (v == n && t == s.nodes[n].term)
    {
      if s'.elect[t].leader != v {
        var j :| j >= i && Ack(v, t, j) in s'.net;
      }
    }
  }

  lemma ProposeNode(s: State, s': State, n: NodeId, c: Command)
    requires Local(s, n) && Propose(s, s', n, c)
    requires Ext(s, s') && NewAcksBy(s, s', n, s.nodes[n].term)
    ensures NodeInv(s', n) && AckInv(s', n)
  {
    var x, x' := s.nodes[n], s'.nodes[n];
    LogOKExt(s, s', x.log);
    forall k | 0 <= k < |x'.log|
      ensures x'.log[k].term in s'.logs && k < |s'.logs[x'.log[k].term]|
              && x'.log[..k + 1] == s'.logs[x'.log[k].term][..k + 1]
    {
      if k < |x.log| { assert x'.log[..k + 1] == x.log[..k + 1]; }
    }
    CommittedUpToExt(s, s', x.log, x'.log, x.commit, x.term, x.term);
    forall t: nat, i: nat | Acked(s', n, t, i) ensures AckAt(s', n, t, i)
    {
      if t != x.term { OldAck(s, s', n, t, i); }
    }
  }

  lemma ProposeFresh(s: State, s': State, n: NodeId, c: Command)
    requires Local(s, n) && OneVote(s) && Propose(s, s', n, c)
    requires Ext(s, s') && NewAcksBy(s, s', n, s.nodes[n].term)
    requires LeaderLog(s, s.nodes[n].term)
    ensures OneNode(s, s', n) && Fresh(s, s', n)
  {
    ProposeNode(s, s', n, c);
  }

  lemma ProposeKeeps(s: State, s': State, n: NodeId, c: Command)
    requires Inv(s) && Propose(s, s', n, c)
    ensures Inv(s')
  {
    hide NodeInv, VotersInv, LogOK;
    LocalFacts(s, n);
    forall m | m in s.net && m.Ack? ensures m.term in s.logs && m.index <= |s.logs[m.term]| { assert MsgInv(s, m); }
    assert LeaderLog(s, s.nodes[n].term);
    ProposeAcks(s, s', n, c);
    ProposeFresh(s, s', n, c);
    Assemble(s, s', n);
  }

  lemma CommittedShorter(s: State, log: Log, c: nat, d: nat, hi: nat)
    requires CommittedUpTo(s, log, d, hi) && c <= d
    ensures CommittedUpTo(s, log, c, hi)
  {
    if c > 0 {
      var t: nat, i: nat :| t <= hi && Covers(s, log, d, t, i);
      TakePrefix(log[..d], log, c);
      TakePrefix(log[..d], s.logs[t], c);
      assert Covers(s, log, c, t, i);
    }
  }

  /** `m` carries a committed prefix of the log its sender leads with. */
  ghost predicate Carries(x: Node, m: Msg)
  {
    || (m.App? && m.term == x.term && m.prev + |m.entries| <= |x.log|
       && m.entries == x.log[m.prev..m.prev + |m.entries|]
        && m.prevTerm == TermAt(x.log, m.prev) && m.commit <= x.commit && m.commit <= m.prev + |m.entries|)
    || (m.Snap? && m.term == x.term && m.log <= x.log && |m.log| <= x.commit)
  }

  lemma SendKeeps(s: State, s': State, n: NodeId, m: Msg)
    requires Inv(s) && n in s.nodes && Leads(s, n) && Carries(s.nodes[n], m)
    requires s' == s.(net := s.net + {m})
    ensures Inv(s')
  {
    LocalFacts(s, n);
    SendFresh(s, s', n, m);
    Assemble(s, s', n);
  }

  lemma SendFresh(s: State, s': State, n: NodeId, m: Msg)
    requires Local(s, n) && OneVote(s) && Leads(s, n) && Carries(s.nodes[n], m)
    requires s' == s.(net := s.net + {m})
    ensures OneNode(s, s', n) && Fresh(s, s', n)
  {
    hide CommittedUpTo, AckInv;
    var x := s.nodes[n];
    SameAcks(s, s', n, x.term);
    NoNewAcks(s, s', n);
    StillNode(s, s', n);
    var c := if m.App? then m.commit else |m.log|;
    CommittedShorter(s, x.log, c, x.commit, x.term);
    CommittedUpToExt(s, s', x.log, x.log, c, x.term, x.term);
  }

  lemma CommitKeeps(s: State, s': State, n: NodeId, index: nat, acks: set<NodeId>)
    requires Inv(s) && Commit(s, s', n, index, acks)
    ensures Inv(s')
  {
    LocalFacts(s, n);
    CommitFresh(s, s', n, index, acks);
    Assemble(s, s', n);
  }

  lemma CommitFresh(s: State, s': State, n: NodeId, index: nat, acks: set<NodeId>)
    requires Local(s, n) && OneVote(s) && Commit(s, s', n, index, acks)
    ensures OneNode(s, s', n) && Fresh(s, s', n)
  {
    var x, x' := s.nodes[n], s'.nodes[n];
    SameAcks(s, s', n, x.term);
    NoNewAcks(s, s', n);
    LogOKExt(s, s', x.log);
    KeepAcks(s, s', n);
    if index > x.commit {
      forall v | v in acks ensures Acked(s', v, x.term, index)
      {
        if v != n { var j :| j >= index && Ack(v, x.term, j) in s.net; assert Ack(v, x.term, j) in s'.net; }
      }
      assert AllAcked(s', acks, x.term, index) && IsQuorum(s'.nodes.Keys, acks);
      assert Covers(s', x.log, index, x.term, index);
    } else {
      CommittedUpToExt(s, s', x.log, x.log, x.commit, x.term, x.term);
    }
  }

  /* ---------- receiving entries and snapshots ---------- */

  lemma OKMatch(s: State, a: Log, b: Log)
    requires LogOK(s, a) && LogOK(s, b)
    ensures LogsMatch(a, b)
  {
    forall i | 0 <= i <= |a| && i <= |b| && TermAt(a, i) == TermAt(b, i)
        ensures a[..i] == b[..i] { LogMatching(s, a, b, i); }
  }

  lemma InstallAdopts(s: State, log: Log, leader: Log, snap: Log)
    requires LogOK(s, log) && LogOK(s, leader) && snap <= leader && 0 < |snap|
    ensures Installed(log, snap) == Adopt(log, leader, |snap|)
  {
    if |snap| <= |log| && TermAt(log, |snap|) == LastTerm(snap) {
      LogMatching(s, log, leader, |snap|);
    } else {
      assert |snap| <= |log| ==> log[|snap| - 1] != snap[|snap| - 1];
    }
  }

  /** Adopting from a leader that holds `p` loses nothing of `p`. */
  lemma AdoptKeeps(log: Log, leader: Log, k: nat, p: Log)
    requires k <= |leader| && p <= log && p <= leader
    ensures p <= Adopt(log, leader, k)
  {
    if |p| <= k { Prefixes(p, leader[..k], leader); } else { Prefixes(leader[..k], p, leader); }
  }

  lemma AdoptTake(log: Log, leader: Log, k: nat, c: nat)
    requires k <= |leader| && c <= |log| && c <= |leader| && log[..c] == leader[..c]
    ensures c <= |Adopt(log, leader, k)| && Adopt(log, leader, k)[..c] == log[..c]
  {
    AdoptKeeps(log, leader, k, log[..c]);
  }

  /** Any receipt in term `t`: the log adopts `k` leader entries, the commit index rises to `c`, `a` is acknowledged. */
  ghost predicate Adopts(s: State, s': State, n: NodeId, t: nat, k: nat, c: nat, a: nat)
  {
    && n in s.nodes && t in s.logs && t in s.elect && k <= |s.logs[t]| && c <= |s.logs[t]| && a <= |s.logs[t]|
    && var x := s.nodes[n];
    && t >= x.term
    && s' == s.(nodes := s.nodes[n := Node(t, if t > x.term then ""
       else x.voted, Adopt(x.log, s.logs[t], k), Max(x.commit, c), Follower)],
                net := s.net + {Ack(n, t, a)})
  }

  lemma AdoptLog(s: State, s': State, log: Log, t: nat, k: nat, term: nat)
    requires History(s) && Ext(s, s') && LogOK(s, log) && TermsUpTo(log, term) && term <= t
    requires t in s.elect && k <= |s.logs[t]|
    ensures LogOK(s', Adopt(log, s.logs[t], k)) && TermsUpTo(Adopt(log, s.logs[t], k), t)
  {
    assert LeaderLog(s, t);
    PrefixOK(s, s.logs[t], s.logs[t][..k]);
    LogOKExt(s, s', Adopt(log, s.logs[t], k));
    LeaderTerms(s, t);
  }

  lemma AdoptCommit(s: State, s': State, log: Log, commit: nat, term: nat, t: nat, k: nat, c: nat)
    requires Elections(s) && Ext(s, s') && term <= t && CommittedUpTo(s, log, commit, term)
    requires t in s.elect && k <= |s.logs[t]| && CommittedUpTo(s, s.logs[t], c, t)
    requires var log' := Adopt(log, s.logs[t], k); c <= |log'| && log'[..c] == s.logs[t][..c]
    ensures CommittedUpTo(s', Adopt(log, s.logs[t], k), Max(commit, c), t)
  {
    var leader, log' := s.logs[t], Adopt(log, s.logs[t], k);
    if c <= commit {
      CommittedInLeader(s, log, commit, term, t);
      AdoptTake(log, leader, k, commit);
      CommittedUpToExt(s, s', log, log', commit, term, t);
    } else {
      CommittedUpToExt(s, s', leader, log', c, t, t);
    }
  }

  lemma AdoptNode(s: State, s': State, n: NodeId, t: nat, k: nat, c: nat, a: nat)
    requires Local(s, n) && Elections(s) && Ext(s, s') && Adopts(s, s', n, t, k, c, a)
    requires c <= |s'.nodes[n].log| && s'.nodes[n].log[..c] == s.logs[t][..c] && CommittedUpTo(s, s.logs[t], c, t)
    ensures NodeInv(s', n)
  {
    var x := s.nodes[n];
    AdoptLog(s, s', x.log, t, k, x.term);
    AdoptCommit(s, s', x.log, x.commit, x.term, t, k, c);
  }

  lemma AdoptAcks(s: State, s': State, n: NodeId, t: nat, k: nat, c: nat, a: nat)
    requires Local(s, n) && History(s) && Ext(s, s') && Adopts(s, s', n, t, k, c, a)
    requires s.logs[t][..a] <= s'.nodes[n].log
    ensures AckInv(s', n)
  {
    var x, x', leader := s.nodes[n], s'.nodes[n], s.logs[t];
    forall u: nat, i: nat | Acked(s', n, u, i) ensures AckAt(s', n, u, i)
    {
      var p := s.logs[u][..i];
      if !Acked(s, n, u, i) {
        NewAckHeld(s, s', n, t, a, u, i);
        Prefixes(p, leader[..a], leader);
      } else {
        assert AckAt(s, n, u, i);
        if Kept(s', p, u, t) {
          assert Kept(s, p, u, x.term);
          assert LeaderLog(s, t);
          assert u < t ==> p <= s.elect[t].init;
          AdoptKeeps(x.log, leader, k, p);
        }
      }
    }
  }

  lemma NewAckHeld(s: State, s': State, n: NodeId, t: nat, a: nat, u: nat, i: nat)
    requires s'.elect == s.elect && s'.logs == s.logs && s'.net == s.net + {Ack(n, t, a)}
    requires Acked(s', n, u, i) && !Acked(s, n, u, i)
    ensures u == t && i <= a
  {
    var j :| j >= i && Ack(n, u, j) in s'.net;
  }

  lemma AdoptOne(s: State, s': State, n: NodeId, t: nat, k: nat, c: nat, a: nat)
    requires Local(s, n) && Adopts(s, s', n, t, k, c, a)
    ensures OneNode(s, s', n)
  {
    SameAcks(s, s', n, t);
  }

  lemma AdoptFresh(s: State, s': State, n: NodeId, t: nat, k: nat, c: nat, a: nat)
    requires OneNode(s, s', n) && OneVote(s) && s.logs.Keys == s.elect.Keys && Adopts(s, s', n, t, k, c, a)
    requires NodeInv(s', n) && AckInv(s', n)
    ensures Fresh(s, s', n)
  {
  }

  ghost predicate AdoptsOK(s: State, s': State, n: NodeId, t: nat, k: nat, c: nat, a: nat)
  {
    && Adopts(s, s', n, t, k, c, a)
    && c <= |s'.nodes[n].log| && s'.nodes[n].log[..c] == s.logs[t][..c] && CommittedUpTo(s, s.logs[t], c, t)
    && s.logs[t][..a] <= s'.nodes[n].log
  }

  lemma AdoptsKeeps(s: State, s': State, n: NodeId, t: nat, k: nat, c: nat, a: nat)
    requires Inv(s) && AdoptsOK(s, s', n, t, k, c, a)
    ensures Inv(s')
  {
    LocalFacts(s, n);
    AdoptOne(s, s', n, t, k, c, a);
    AdoptNode(s, s', n, t, k, c, a);
    AdoptAcks(s, s', n, t, k, c, a);
    AdoptFresh(s, s', n, t, k, c, a);
    Assemble(s, s', n);
  }

  lemma MergedLog(s: State, log: Log, leader: Log, prev: nat, entries: Log, c: nat)
    requires LogOK(s, log) && LogOK(s, leader)
    requires prev + |entries| <= |leader| && entries == leader[prev..prev + |entries|]
    requires prev <= |log| && TermAt(log, prev) == TermAt(leader, prev) && c <= prev + |entries|
    ensures var log', k := Merge(log, prev, entries), prev + |entries|;
            && log' == Adopt(log, leader, k) && leader[..k] <= log'
            && c <= |log'| && log'[..c] == leader[..c]
  {
    var k := prev + |entries|;
    OKMatch(s, log, leader);
    MergeAdopts(log, leader, prev, entries);
    TakePrefix(leader[..k], leader, c);
    TakePrefix(leader[..k], Adopt(log, leader, k), c);
  }

  /** What a follower can rely on when an append request reaches it. */
  ghost predicate AppOK(s: State, n: NodeId, m: Msg)
  {
    && n in s.nodes && m.App? && m.term in s.logs && m.term in s.elect
    && LogOK(s, s.nodes[n].log) && LogOK(s, s.logs[m.term])
    && m.prev + |m.entries| <= |s.logs[m.term]| && m.entries == s.logs[m.term][m.prev..m.prev + |m.entries|]
    && m.prevTerm == TermAt(s.logs[m.term], m.prev) && m.commit <= m.prev + |m.entries|
    && CommittedUpTo(s, s.logs[m.term], m.commit, m.term)
  }

  lemma AppFacts(s: State, n: NodeId, m: Msg)
    requires Inv(s) && n in s.nodes && m in s.net && m.App?
    ensures AppOK(s, n, m)
  {
    assert NodeInv(s, n) && MsgInv(s, m) && LeaderLog(s, m.term);
  }

  lemma RecvAppAdopts(s: State, s': State, n: NodeId, m: Msg)
    requires RecvApp(s, s', n, m) && AppOK(s, n, m)
    ensures AdoptsOK(s, s', n, m.term, m.prev + |m.entries|, m.commit, m.prev + |m.entries|)
  {
    MergedLog(s, s.nodes[n].log, s.logs[m.term], m.prev, m.entries, m.commit);
  }

  lemma RecvAppKeeps(s: State, s': State, n: NodeId, m: Msg)
    requires Inv(s) && RecvApp(s, s', n, m)
    ensures Inv(s')
  {
    hide Inv;
    var k := m.prev + |m.entries|;
    assert AdoptsOK(s, s', n, m.term, k, m.commit, k) by {
      AppFacts(s, n, m);
      RecvAppAdopts(s, s', n, m);
    }
    AdoptsKeeps(s, s', n, m.term, k, m.commit, k);
  }

  lemma InstalledLog(s: State, log: Log, leader: Log, snap: Log)
    requires LogOK(s, log) && LogOK(s, leader) && snap <= leader && 0 < |snap|
    ensures var log', k := Installed(log, snap), |snap|;
            && log' == Adopt(log, leader, k) && leader[..k] <= log'
            && k <= |log'| && log'[..k] == leader[..k]
  {
    InstallAdopts(s, log, leader, snap);
    TakePrefix(leader[..|snap|], Adopt(log, leader, |snap|), |snap|);
  }

  lemma RecvSnapAdopts(s: State, s': State, n: NodeId, m: Msg)
    requires RecvSnap(s, s', n, m) && m.term in s.logs && m.term in s.elect && m.log <= s.logs[m.term]
    requires LogOK(s, s.nodes[n].log) && LogOK(s, s.logs[m.term])
    ensures var k := |m.log|; k > s.nodes[n].commit ==>
              && Adopts(s, s', n, m.term, k, k, k) && s.logs[m.term][..k] <= s'.nodes[n].log
              && k <= |s'.nodes[n].log| && s'.nodes[n].log[..k] == s.logs[m.term][..k]
    ensures var c := s.nodes[n].commit;
            |m.log| <= c <= |s.nodes[n].log| && c <= |s.logs[m.term]| && s.nodes[n].log[..c] == s.logs[m.term][..c] ==>
              Adopts(s, s', n, m.term, 0, 0, c) && s.logs[m.term][..c] <= s'.nodes[n].log
  {
    if |m.log| > s.nodes[n].commit {
      InstalledLog(s, s.nodes[n].log, s.logs[m.term], m.log);
    }
  }

  lemma RecvSnapKeeps(s: State, s': State, n: NodeId, m: Msg)
    requires Inv(s) && RecvSnap(s, s', n, m)
    ensures Inv(s')
  {
    hide VotersInv;
    assert NodeInv(s, n) && MsgInv(s, m) && LeaderLog(s, m.term);
    var x := s.nodes[n];
    RecvSnapAdopts(s, s', n, m);
    if |m.log| <= x.commit {
      CommittedInLeader(s, x.log, x.commit, x.term, m.term);
      AdoptsKeeps(s, s', n, m.term, 0, 0, x.commit);
    } else {
      AdoptsKeeps(s, s', n, m.term, |m.log|, |m.log|, |m.log|);
    }
  }

  lemma SendAppKeeps(s: State, s': State, n: NodeId, prev: nat, k: nat, commit: nat)
    requires Inv(s) && SendApp(s, s', n, prev, k, commit)
    ensures Inv(s')
  {
    SendKeeps(s, s', n, AppOf(s.nodes[n], prev, k, commit));
  }

  function AppOf(x: Node, prev: nat, k: nat, commit: nat): (m: Msg)
    requires prev + k <= |x.log| && commit <= x.commit && commit <= prev + k
    ensures Carries(x, m)
  {
    App(x.term, prev, TermAt(x.log, prev), x.log[prev..prev + k], commit)
  }

  lemma SendSnapKeeps(s: State, s': State, n: NodeId, index: nat)
    requires Inv(s) && SendSnap(s, s', n, index)
    ensures Inv(s')
  {
    SendKeeps(s, s', n, Snap(s.nodes[n].term, s.nodes[n].log[..index]));
  }

  /* ---------- every run ---------- */

  lemma InitHolds(s: State)
    requires Init(s)
    ensures Inv(s)
  {
    forall n | n in s.nodes ensures NodeInv(s, n) && AckInv(s, n) {}
  }

  lemma NextKeeps(s: State, s': State, step: Step)
    requires Inv(s) && Next(s, s', step)
    ensures Inv(s')
  {
    hide Inv, Quiet, Campaign, Vote, Win, Propose, SendApp, RecvApp, SendSnap, RecvSnap, Commit;
    match step
    case QuietStep(n, term, role) => QuietKeeps(s, s', n, term, role);
    case CampaignStep(n) => CampaignKeeps(s, s', n);
    case VoteStep(n, m) => VoteKeeps(s, s', n, m);
    case WinStep(n, voters) => WinKeeps(s, s', n, voters);
    case ProposeStep(n, c) => ProposeKeeps(s, s', n, c);
    case SendAppStep(n, prev, k, commit) => SendAppKeeps(s, s', n, prev, k, commit);
    case RecvAppStep(n, m) => RecvAppKeeps(s, s', n, m);
    case SendSnapStep(n, index) => SendSnapKeeps(s, s', n, index);
    case RecvSnapStep(n, m) => RecvSnapKeeps(s, s', n, m);
    case CommitStep(n, index, acks) => CommitKeeps(s, s', n, index, acks);
  }

  /** Messages, elections and leader logs are never taken back. */
  lemma NextExt(s: State, s': State, step: Step)
    requires Inv(s) && Next(s, s', step)
    ensures Ext(s, s')
  {
    hide Inv, Local, Ext, Merge, Installed, IsQuorum, UpToDate;
    match step
    case WinStep(n, voters) =>
      FirstWinner(s, n, voters);
      HistoryKeys(s);
      WinExt(s, s', n, voters);
    case ProposeStep(n, c) =>
      LocalFacts(s, n);
      ProposeExt(s, s', n, c);
    case _ => PlainExt(s, s');
  }

  lemma HistoryKeys(s: State)
    requires Inv(s)
    ensures s.logs.Keys == s.elect.Keys
  {
  }

  lemma PlainExt(s: State, s': State)
    requires s'.nodes.Keys == s.nodes.Keys && s.net <= s'.net && s'.elect == s.elect && s'.logs == s.logs
    ensures Ext(s, s')
  {
  }

  lemma WinExt(s: State, s': State, n: NodeId, voters: map<NodeId, Log>)
    requires Win(s, s', n, voters) && s.nodes[n].term !in s.elect && s.logs.Keys == s.elect.Keys
    ensures Ext(s, s')
  {
  }

  lemma ProposeExt(s: State, s': State, n: NodeId, c: Command)
    requires Local(s, n) && Propose(s, s', n, c)
    ensures Ext(s, s')
  {
  }
}
