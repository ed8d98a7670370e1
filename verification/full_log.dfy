/**
 The reference protocol: Raft over logs that are never compacted. Its state also
 keeps the history the safety proof speaks about: the log of the leader of every
 term, and for every election the winner's log and the logs of its voters at the
 moment they voted.
 */
module FullLog {
  import opened RaftTypes

  datatype Role = Follower | Candidate | Leader

  datatype Node = Node(term: nat, voted: NodeId, log: Log, commit: nat, role: Role)

  datatype Msg =
    | VoteReq(term: nat, cand: NodeId, log: Log)
    | Grant(voter: NodeId, term: nat, cand: NodeId, vlog: Log, clog: Log)
    | App(term: nat, prev: nat, prevTerm: nat, entries: Log, commit: nat)
    | Snap(term: nat, log: Log)
    | Ack(node: NodeId, term: nat, index: nat)

  datatype Election = Election(leader: NodeId, init: Log, voters: map<NodeId, Log>)

  datatype State = State(nodes: map<NodeId, Node>, net: set<Msg>,
                         logs: map<nat, Log>, elect: map<nat, Election>)

  predicate UpToDate(clog: Log, vlog: Log)
  {
    LastTerm(clog) > LastTerm(vlog) || (LastTerm(clog) == LastTerm(vlog) && |clog| >= |vlog|)
  }

  /** A log holds the leader's batch: the first disagreement truncates, agreement keeps the tail. */
  function Merge(log: Log, prev: nat, entries: Log): Log
    requires prev <= |log|
    decreases |entries|
  {
    if entries == [] then log
    else if prev < |log| && log[prev].term == entries[0].term then Merge(log, prev + 1, entries[1..])
    else log[..prev] + entries
  }

  /** Equal terms at one index mean equal logs up to it. */
  ghost predicate LogsMatch(a: Log, b: Log)
  {
    forall i :: 0 <= i <= |a| && i <= |b| && TermAt(a, i) == TermAt(b, i) ==> a[..i] == b[..i]
  }

  lemma MatchAt(a: Log, b: Log, i: nat)
    requires LogsMatch(a, b) && i <= |a| && i <= |b| && TermAt(a, i) == TermAt(b, i)
    ensures a[..i] == b[..i]
  {
  }

  /** What a follower holds after taking the first `k` entries of a leader log. */
  function Adopt(log: Log, leader: Log, k: nat): Log
    requires k <= |leader|
  {
    if leader[..k] <= log then log else leader[..k]
  }

  /** Term comparison alone makes the merged log the leader's prefix or leaves the log as it was. */
  lemma {:induction false} MergeAdopts(log: Log, leader: Log, prev: nat, entries: Log)
    requires LogsMatch(log, leader)
    requires prev + |entries| <= |leader| && entries == leader[prev..prev + |entries|]
    requires prev <= |log| && log[..prev] == leader[..prev]
    ensures Merge(log, prev, entries) == Adopt(log, leader, prev + |entries|)
    decreases |entries|
  {
    hide LogsMatch;
    var k := prev + |entries|;
    if entries == [] {
      assert leader[..k] <= log;
    } else if prev < |log| && log[prev].term == entries[0].term {
      MatchAt(log, leader, prev + 1);
      MergeAdopts(log, leader, prev + 1, entries[1..]);
    } else {
      assert log[..prev] + entries == leader[..k];
      assert prev < |log| ==> log[prev] != leader[..k][prev];
    }
  }

  function Max(a: nat, b: nat): nat { if a < b then b else a }
  function Min(a: nat, b: nat): nat { if a < b then a else b }

  /* ---------- steps ---------- */

  predicate Init(s: State)
  {
    && "" !in s.nodes
    && (forall n :: n in s.nodes ==> s.nodes[n] == Node(0, "", [], 0, Follower))
    && s.net == {} && s.logs == map[] && s.elect == map[]
  }

  /** A term is observed, leadership is dropped, or the process restarts. */
  predicate Quiet(s: State, s': State, n: NodeId, term: nat, role: Role)
  {
    && n in s.nodes
    && var x := s.nodes[n];
    && term >= x.term
    && (role == Follower || (role == x.role && term == x.term))
    && s' == s.(nodes := s.nodes[n := x.(term := term, role := role, voted := if term > x.term then "" else x.voted)])
  }

  predicate Campaign(s: State, s': State, n: NodeId)
  {
    && n in s.nodes
    && var x := s.nodes[n];
    && s' == s.(nodes := s.nodes[n := x.(term := x.term + 1, voted := n, role := Candidate)],
                net := s.net + {VoteReq(x.term + 1, n, x.log), Grant(n, x.term + 1, n, x.log, x.log)})
  }

  predicate Vote(s: State, s': State, n: NodeId, m: Msg)
  {
    && n in s.nodes && m in s.net && m.VoteReq?
    && var x := s.nodes[n];
    && m.term >= x.term
    && (m.term > x.term || x.voted == "" || x.voted == m.cand)
    && UpToDate(m.log, x.log)
    && s' == s.(nodes := s.nodes[n := x.(term := m.term, voted := m.cand, role := if m.term > x.term then Follower
       else x.role)],
                net := s.net + {Grant(n, m.term, m.cand, x.log, m.log)})
  }

  predicate Win(s: State, s': State, n: NodeId, voters: map<NodeId, Log>)
  {
    && n in s.nodes
    && var x := s.nodes[n];
    && x.role == Candidate
    && IsQuorum(s.nodes.Keys, voters.Keys)
    && (forall v :: v in voters ==> Grant(v, x.term, n, voters[v], x.log) in s.net)
    && s' == s.(nodes := s.nodes[n := x.(role := Leader)],
                logs := s.logs[x.term := x.log],
                elect := s.elect[x.term := Election(n, x.log, voters)])
  }

  /** `n` is in a term it won, whether or not it still calls itself leader. */
  predicate Leads(s: State, n: NodeId)
    requires n in s.nodes
  {
    s.nodes[n].term in s.elect && s.elect[s.nodes[n].term].leader == n
  }

  predicate Propose(s: State, s': State, n: NodeId, c: Command)
  {
    && n in s.nodes
    && var x := s.nodes[n];
    && Leads(s, n)
    && var log := x.log + [Entry(x.term, c)];
    && s' == s.(nodes := s.nodes[n := x.(log := log)], logs := s.logs[x.term := log])
  }

  predicate SendApp(s: State, s': State, n: NodeId, prev: nat, k: nat, commit: nat)
  {
    && n in s.nodes
    && var x := s.nodes[n];
    && Leads(s, n)
    && prev + k <= |x.log|
    && commit <= x.commit && commit <= prev + k
    && s' == s.(net := s.net + {App(x.term, prev, TermAt(x.log, prev), x.log[prev..prev + k], commit)})
  }

  predicate RecvApp(s: State, s': State, n: NodeId, m: Msg)
  {
    && n in s.nodes && m in s.net && m.App?
    && var x := s.nodes[n];
    && m.term >= x.term
    && m.prev <= |x.log| && TermAt(x.log, m.prev) == m.prevTerm
    && var log := Merge(x.log, m.prev, m.entries);
    && s' == s.(nodes := s.nodes[n := Node(m.term, if m.term > x.term then "" else x.voted, log,
                                           Max(x.commit, Min(m.commit, |log|)), Follower)],
                net := s.net + {Ack(n, m.term, m.prev + |m.entries|)})
  }

  predicate SendSnap(s: State, s': State, n: NodeId, index: nat)
  {
    && n in s.nodes
    && var x := s.nodes[n];
    && Leads(s, n)
    && index <= x.commit && index <= |x.log|
    && s' == s.(net := s.net + {Snap(x.term, x.log[..index])})
  }

  function Installed(log: Log, snap: Log): Log
  {
    if |snap| <= |log| && TermAt(log, |snap|) == LastTerm(snap) then log else snap
  }

  predicate RecvSnap(s: State, s': State, n: NodeId, m: Msg)
  {
    && n in s.nodes && m in s.net && m.Snap?
    && var x := s.nodes[n];
    && m.term >= x.term
    && var voted := if m.term > x.term then "" else x.voted;
    && if |m.log| <= x.commit then
         s' == s.(nodes := s.nodes[n := x.(term := m.term, voted := voted, role := Follower)],
                  net := s.net + {Ack(n, m.term, x.commit)})
       else
         s' == s.(nodes := s.nodes[n := Node(m.term, voted, Installed(x.log, m.log), |m.log|, Follower)],
                  net := s.net + {Ack(n, m.term, |m.log|)})
  }

  ghost predicate Commit(s: State, s': State, n: NodeId, index: nat, acks: set<NodeId>)
  {
    && n in s.nodes
    && var x := s.nodes[n];
    && Leads(s, n)
    && 0 < index <= |x.log| && x.log[index - 1].term == x.term
    && IsQuorum(s.nodes.Keys, acks)
    && (forall v :: v in acks && v != n ==> exists j :: j >= index && Ack(v, x.term, j) in s.net)
    && s' == s.(nodes := s.nodes[n := x.(commit := Max(x.commit, index))])
  }

  datatype Step =
    | QuietStep(n: NodeId, term: nat, role: Role)
    | CampaignStep(n: NodeId)
    | VoteStep(n: NodeId, m: Msg)
    | WinStep(n: NodeId, voters: map<NodeId, Log>)
    | ProposeStep(n: NodeId, c: Command)
    | SendAppStep(n: NodeId, prev: nat, k: nat, commit: nat)
    | RecvAppStep(n: NodeId, m: Msg)
    | SendSnapStep(n: NodeId, index: nat)
    | RecvSnapStep(n: NodeId, m: Msg)
    | CommitStep(n: NodeId, index: nat, acks: set<NodeId>)

  ghost predicate Next(s: State, s': State, step: Step)
  {
    match step
    case QuietStep(n, term, role) => Quiet(s, s', n, term, role)
    case CampaignStep(n) => Campaign(s, s', n)
    case VoteStep(n, m) => Vote(s, s', n, m)
    case WinStep(n, voters) => Win(s, s', n, voters)
    case ProposeStep(n, c) => Propose(s, s', n, c)
    case SendAppStep(n, prev, k, commit) => SendApp(s, s', n, prev, k, commit)
    case RecvAppStep(n, m) => RecvApp(s, s', n, m)
    case SendSnapStep(n, index) => SendSnap(s, s', n, index)
    case RecvSnapStep(n, m) => RecvSnap(s, s', n, m)
    case CommitStep(n, index, acks) => Commit(s, s', n, index, acks)
  }
}
