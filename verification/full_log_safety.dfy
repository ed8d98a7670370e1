/**
 Safety of the reference protocol over every run: at most one leader per term,
 every later leader holds every committed entry, and no two nodes commit
 different entries at one index.
 */
module FullLogSafety {
  import opened RaftTypes
  import opened FullLog

  /* ---------- the inductive invariant ---------- */

  /** Every entry of `log` was put there by the leader of its term, below the same prefix. */
  ghost predicate LogOK(s: State, log: Log)
  {
    forall k :: 0 <= k < |log| ==>
      && log[k].term in s.logs
      && k < |s.logs[log[k].term]|
      && log[..k + 1] == s.logs[log[k].term][..k + 1]
  }

  ghost predicate TermsUpTo(log: Log, t: nat)
  {
    forall k :: 0 <= k < |log| ==> log[k].term <= t
  }

  /** `v` has told the leader of `t` that it holds the first `i` entries of that leader's log. */
  ghost predicate Acked(s: State, v: NodeId, t: nat, i: nat)
  {
    && t in s.elect && t in s.logs && 0 < i <= |s.logs[t]|
    && (s.elect[t].leader == v || exists j :: j >= i && Ack(v, t, j) in s.net)
  }

  /** Every leader elected in a term of (lo, hi] started with `p`. */
  ghost predicate Kept(s: State, p: Log, lo: nat, hi: nat)
  {
    forall u :: lo < u <= hi && u in s.elect ==> p <= s.elect[u].init
  }

  ghost predicate Committed(s: State, t: nat, i: nat)
  {
    && t in s.elect && t in s.logs && 0 < i <= |s.logs[t]| && s.logs[t][i - 1].term == t
    && exists q :: IsQuorum(s.nodes.Keys, q) && AllAcked(s, q, t, i)
  }

  ghost predicate AllAcked(s: State, q: set<NodeId>, t: nat, i: nat)
  {
    forall v :: v in q ==> Acked(s, v, t, i)
  }

  /** The first `c` entries of `log` were committed by a leader of a term up to `hi`. */
  ghost predicate CommittedUpTo(s: State, log: Log, c: nat, hi: nat)
  {
    && c <= |log|
    && (c > 0 ==> exists t: nat, i: nat :: t <= hi && Covers(s, log, c, t, i))
  }

  ghost predicate Covers(s: State, log: Log, c: nat, t: nat, i: nat)
  {
    Committed(s, t, i) && c <= i && c <= |log| && log[..c] == s.logs[t][..c]
  }

  ghost predicate AckAt(s: State, n: NodeId, t: nat, i: nat)
    requires n in s.nodes && t in s.logs && i <= |s.logs[t]|
  {
    && t <= s.nodes[n].term
    && (Kept(s, s.logs[t][..i], t, s.nodes[n].term) ==> s.logs[t][..i] <= s.nodes[n].log)
  }

  ghost predicate AckInv(s: State, n: NodeId)
    requires n in s.nodes
  {
    forall t: nat, i: nat :: Acked(s, n, t, i) ==> AckAt(s, n, t, i)
  }

  /** What `v` had acknowledged before voting in `t'` was in its log when it voted. */
  ghost predicate VoteTime(s: State, v: NodeId, t': nat, vlog: Log)
  {
    forall t: nat, i: nat :: t < t' && Acked(s, v, t, i) && Kept(s, s.logs[t][..i], t, t' - 1) ==>
        s.logs[t][..i] <= vlog
  }

  ghost predicate NodeInv(s: State, n: NodeId)
    requires n in s.nodes
  {
    var x := s.nodes[n];
    && LogOK(s, x.log)
    && TermsUpTo(x.log, x.term)
    && CommittedUpTo(s, x.log, x.commit, x.term)
    && (x.role == Candidate ==> x.term > 0 && TermsUpTo(x.log, x.term - 1) && x.voted == n)
    && (x.role == Leader ==> x.term in s.elect && s.elect[x.term].leader == n)
  }

  /** The log of the leader of `t`: what it won with, then entries of its own term. */
  ghost predicate LeaderLog(s: State, t: nat)
    requires t in s.elect
  {
    var init := s.elect[t].init;
    && t > 0
    && t in s.logs
    && init <= s.logs[t]
    && TermsUpTo(init, t - 1)
    && (forall k :: |init| <= k < |s.logs[t]| ==> s.logs[t][k].term == t)
    && LogOK(s, s.logs[t])
  }

  ghost predicate History(s: State)
  {
    && s.logs.Keys == s.elect.Keys
    && forall t :: t in s.elect ==> LeaderLog(s, t)
  }

  ghost predicate LeaderInv(s: State, t: nat)
    requires t in s.elect && t in s.logs
  {
    var n := s.elect[t].leader;
    && n in s.nodes && t <= s.nodes[n].term
    && (s.nodes[n].term == t ==> s.nodes[n].log == s.logs[t] && s.nodes[n].role != Candidate)
  }

  ghost predicate VoterInv(s: State, t: nat, v: NodeId)
    requires t in s.elect && v in s.elect[t].voters
  {
    var e := s.elect[t];
    && Grant(v, t, e.leader, e.voters[v], e.init) in s.net
    && LogOK(s, e.voters[v]) && UpToDate(e.init, e.voters[v])
    && VoteTime(s, v, t, e.voters[v])
  }

  ghost predicate VotersInv(s: State, t: nat)
    requires t in s.elect
  {
    && IsQuorum(s.nodes.Keys, s.elect[t].voters.Keys)
    && forall v :: v in s.elect[t].voters ==> VoterInv(s, t, v)
  }

  ghost predicate Elections(s: State)
  {
    && History(s)
    && forall t :: t in s.elect ==> VotersInv(s, t)
  }

  ghost predicate MsgInv(s: State, m: Msg)
  {
    match m
    case VoteReq(t, c, log) =>
      && c in s.nodes && 0 < t <= s.nodes[c].term
      && (s.nodes[c].role == Candidate && s.nodes[c].term == t ==> log == s.nodes[c].log)
    case Grant(v, t, c, vlog, clog) =>
      && v in s.nodes && c in s.nodes && 0 < t <= s.nodes[v].term && t <= s.nodes[c].term
      && LogOK(s, vlog) && UpToDate(clog, vlog)
      && (s.nodes[c].role == Candidate && s.nodes[c].term == t ==> clog == s.nodes[c].log)
      && (s.nodes[v].term == t ==> s.nodes[v].voted == c)
      && (t !in s.elect ==> VoteTime(s, v, t, vlog))
    case App(t, prev, prevTerm, entries, commit) =>
      && t in s.logs && t in s.elect && prev + |entries| <= |s.logs[t]|
      && entries == s.logs[t][prev..prev + |entries|]
      && prevTerm == TermAt(s.logs[t], prev)
      && commit <= prev + |entries|
      && CommittedUpTo(s, s.logs[t], commit, t)
    case Snap(t, log) =>
      && t in s.logs && t in s.elect && log <= s.logs[t]
      && CommittedUpTo(s, s.logs[t], |log|, t)
    case Ack(v, t, i) =>
      && v in s.nodes && t in s.logs && t in s.elect && i <= |s.logs[t]| && t <= s.nodes[v].term
  }

  /** One vote per node and term. */
  ghost predicate OneVote(s: State)
  {
    forall a, b :: a in s.net && b in s.net && a.Grant? && b.Grant? && a.voter == b.voter && a.term == b.term ==>
        a.cand == b.cand
  }

  ghost predicate Inv(s: State)
  {
    && "" !in s.nodes
    && Elections(s)
    && OneVote(s)
    && (forall n :: n in s.nodes ==> NodeInv(s, n))
    && (forall n :: n in s.nodes ==> AckInv(s, n))
    && (forall t :: t in s.elect ==> LeaderInv(s, t))
    && (forall m :: m in s.net ==> MsgInv(s, m))
  }

  /* ---------- consequences of the invariant ---------- */

  /**
   * Entries of one leader log never exceed its term, and a log that ends in term u is a prefix of that leader's log.
   */
  lemma LeaderTerms(s: State, t: nat)
    requires History(s) && t in s.elect
    ensures TermsUpTo(s.logs[t], t)
  {
    assert LeaderLog(s, t);
  }

  lemma EndsIn(s: State, log: Log)
    requires History(s) && LogOK(s, log) && |log| > 0
    ensures LastTerm(log) in s.logs && log <= s.logs[LastTerm(log)] && TermsUpTo(log, LastTerm(log))
  {
    var k := |log| - 1;
    assert log[..k + 1] == log;
    LeaderTerms(s, log[k].term);
  }

  /** Log matching: equal terms at one index mean equal logs up to it. */
  lemma LogMatching(s: State, a: Log, b: Log, i: nat)
    requires LogOK(s, a) && LogOK(s, b)
    requires i <= |a| && i <= |b| && TermAt(a, i) == TermAt(b, i)
    ensures a[..i] == b[..i]
  {
    if i > 0 {
      assert a[..i - 1 + 1] == a[..i] && b[..i - 1 + 1] == b[..i];
      assert a[i - 1].term == b[i - 1].term;
    }
  }

  lemma PrefixOK(s: State, log: Log, p: Log)
    requires LogOK(s, log) && p <= log
    ensures LogOK(s, p)
  {
    forall k | 0 <= k < |p|
      ensures p[k].term in s.logs && k < |s.logs[p[k].term]| && p[..k + 1] == s.logs[p[k].term][..k + 1]
    {
      assert p[k] == log[k] && p[..k + 1] == log[..k + 1];
    }
  }

  /** Leader completeness: whatever is committed in `t` starts the log of every later leader. */
  lemma {:induction false} LeaderCompleteness(s: State, t: nat, i: nat, u: nat)
    requires Elections(s) && Committed(s, t, i) && u in s.elect && t < u
    ensures s.logs[t][..i] <= s.elect[u].init
    decreases u
  {
    var p := s.logs[t][..i];
    forall w | t < w <= u - 1 && w in s.elect
      ensures p <= s.elect[w].init
    {
      LeaderCompleteness(s, t, i, w);
    }
    CompletenessStep(s, t, i, u);
  }

  lemma CompletenessStep(s: State, t: nat, i: nat, u: nat)
    requires Elections(s) && Committed(s, t, i) && u in s.elect && t < u
    requires Kept(s, s.logs[t][..i], t, u - 1)
    ensures s.logs[t][..i] <= s.elect[u].init
  {
    var p := s.logs[t][..i];
    var q :| IsQuorum(s.nodes.Keys, q) && AllAcked(s, q, t, i);
    assert VotersInv(s, u);
    var v := QuorumsMeet(s.nodes.Keys, q, s.elect[u].voters.Keys);
    assert VoterInv(s, u, v) && Acked(s, v, t, i);
    var vlog := s.elect[u].voters[v];
    assert p <= vlog;
    VoterPrefix(s, t, i, u, vlog);
  }

  /** The up-to-date check passes a voter's committed prefix on to the candidate it voted for. */
  lemma VoterPrefix(s: State, t: nat, i: nat, u: nat, vlog: Log)
    requires History(s) && u in s.elect && t in s.elect && t < u
    requires 0 < i <= |s.logs[t]| && s.logs[t][i - 1].term == t
    requires s.logs[t][..i] <= vlog && LogOK(s, vlog) && UpToDate(s.elect[u].init, vlog)
    requires Kept(s, s.logs[t][..i], t, u - 1)
    ensures s.logs[t][..i] <= s.elect[u].init
  {
    var p, init := s.logs[t][..i], s.elect[u].init;
    assert LeaderLog(s, u) && LeaderLog(s, t);
    LeaderTerms(s, t);
    assert TermsUpTo(p, t);
    EndsIn(s, vlog);
    PrefixOK(s, s.logs[u], init);
    assert vlog[i - 1].term == t;
    assert |init| > 0;
    EndsIn(s, init);
    var lc := LastTerm(init);
    if lc > LastTerm(vlog) {
      assert p <= s.elect[lc].init && LeaderLog(s, lc);
    }
    UpToDatePrefix(p, t, init, vlog, s.logs[lc]);
  }

  lemma UpToDatePrefix(p: Log, t: nat, init: Log, vlog: Log, leader: Log)
    requires 0 < |p| && LastTerm(p) == t && TermsUpTo(p, t)
    requires p <= vlog && TermsUpTo(vlog, LastTerm(vlog)) && UpToDate(init, vlog)
    requires 0 < |init| && init <= leader
    requires LastTerm(init) == LastTerm(vlog) ==> vlog <= leader
    requires LastTerm(init) > LastTerm(vlog) ==> p <= leader
    ensures p <= init
  {
    assert vlog[|p| - 1] == p[|p| - 1];
    if LastTerm(init) == LastTerm(vlog) {
      Prefixes(vlog, init, leader);
    } else {
      if |init| <= |p| {
        Prefixes(init, p, leader);
        assert false;
      }
      Prefixes(p, init, leader);
    }
  }

  /** Of two prefixes of one log the shorter is a prefix of the longer. */
  lemma Prefixes(a: Log, b: Log, log: Log)
    requires a <= log && b <= log && |a| <= |b|
    ensures a <= b
  {
  }

  lemma TakePrefix(a: Log, b: Log, c: nat)
    requires c <= |a| && a <= b
    ensures a[..c] == b[..c]
  {
    assert b[..|a|][..c] == b[..c];
  }

  /** A committed prefix lies in the log of every leader of the same or a later term. */
  lemma CommittedInLeader(s: State, log: Log, c: nat, hi: nat, u: nat)
    requires Elections(s) && CommittedUpTo(s, log, c, hi) && u in s.elect && hi <= u
    ensures c <= |s.logs[u]| && log[..c] == s.logs[u][..c]
  {
    if c > 0 {
      var t: nat, i: nat :| t <= hi && Covers(s, log, c, t, i);
      CoveredByLeader(s, log, c, t, i, u);
    }
  }

  lemma CoveredByLeader(s: State, log: Log, c: nat, t: nat, i: nat, u: nat)
    requires Elections(s) && Covers(s, log, c, t, i) && u in s.elect && t <= u
    ensures c <= |s.logs[u]| && log[..c] == s.logs[u][..c]
  {
    if t < u {
      LeaderCompleteness(s, t, i, u);
      assert LeaderLog(s, u);
      var p := s.logs[t][..i];
      TakePrefix(p, s.logs[t], c);
      TakePrefix(p, s.elect[u].init, c);
      TakePrefix(s.elect[u].init, s.logs[u], c);
    }
  }

  /** State machine safety: what two nodes have both committed, they agree on. */
  lemma CommittedAgree(s: State, a: NodeId, b: NodeId)
    requires Inv(s) && a in s.nodes && b in s.nodes
    requires s.nodes[a].commit <= s.nodes[b].commit
    ensures s.nodes[a].commit <= |s.nodes[a].log| && s.nodes[b].commit <= |s.nodes[b].log|
    ensures s.nodes[a].log[..s.nodes[a].commit] == s.nodes[b].log[..s.nodes[a].commit]
  {
    var x, y := s.nodes[a], s.nodes[b];
    assert NodeInv(s, a) && NodeInv(s, b);
    if x.commit > 0 {
      PrefixesAgree(s, x.log, x.commit, x.term, y.log, y.commit, y.term);
    }
  }

  lemma PrefixesAgree(s: State, a: Log, c: nat, ta: nat, b: Log, d: nat, tb: nat)
    requires Elections(s) && 0 < c <= d && CommittedUpTo(s, a, c, ta) && CommittedUpTo(s, b, d, tb)
    ensures a[..c] == b[..c]
  {
    var t: nat, i: nat :| t <= ta && Covers(s, a, c, t, i);
    var u: nat, j: nat :| u <= tb && Covers(s, b, d, u, j);
    var w := if t <= u then u else t;
    CoveredByLeader(s, a, c, t, i, w);
    CoveredByLeader(s, b, d, u, j, w);
    TakePrefix(b[..d], b, c);
    TakePrefix(b[..d], s.logs[w], c);
  }
}
