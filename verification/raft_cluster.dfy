/**
 The metadata group as a state machine: one store and one role per voter, a
 network that may lose, repeat and reorder, and restarts that reload the file.
 Each step runs one store operation together with the role change the runtime
 ties to it.
 */
module RaftCluster {
  import opened Collections
  import opened RaftTypes
  import opened RaftSpec
  import opened FullLog
  import RaftReopen

  datatype Group = Group(voters: seq<NodeId>, boot: nat)

  /**
   * `won` is the last term this process won an election in, 0 for none; requests it started then may still be running.
   */
  datatype Peer = Peer(store: Store, disk: Store, role: Role, won: nat)

  datatype Wire =
    | VoteCall(request: VoteRequest)
    | VoteGrant(voter: NodeId, term: nat, candidate: NodeId)
    | AppendCall(append: AppendRequest)
    | AppendAck(node: NodeId, term: nat, matchIndex: nat)
    | SnapshotCall(install: SnapshotRequest)

  datatype Cluster = Cluster(peers: map<NodeId, Peer>, wire: set<Wire>)

  predicate ValidGroup(g: Group)
  {
    Canonical(g.voters) && g.boot >= 1
  }

  predicate Start(g: Group, c: Cluster)
  {
    && ValidGroup(g)
    && c.peers.Keys == Elements(g.voters)
    && (forall n :: n in c.peers ==> var s := RaftSpec.Fresh(g.boot).(voters := g.voters);
       c.peers[n] == Peer(s, s, Follower, 0))
    && c.wire == {}
  }

  /** An operation's result takes effect in memory, and on disk if the operation wrote the file. */
  function Settle<T>(p: Peer, o: Outcome<T>, role: Role): Peer
  {
    Peer(o.store, if o.durable then o.store else p.disk, role, p.won)
  }

  /** The process still acts for the term it won, even if it has dropped the leader role since. */
  predicate InWonTerm(p: Peer)
  {
    p.won > 0 && p.won == p.store.currentTerm
  }

  datatype Action =
    | Restart(n: NodeId)
    | StepDown(n: NodeId)
    | Observe(n: NodeId, term: nat)
    | Campaign(n: NodeId)
    | AnswerVote(n: NodeId, m: Wire)
    | BecomeLeader(n: NodeId, votes: set<NodeId>)
    | Propose(n: NodeId, view: View)
    | SendAppend(n: NodeId, next: nat, limit: int)
    | AnswerAppend(n: NodeId, m: Wire)
    | SendSnapshot(n: NodeId)
    | AnswerSnapshot(n: NodeId, m: Wire)
    | CommitEntry(n: NodeId, index: nat, acks: set<NodeId>)
    | Compact(n: NodeId)

  /** What the code does. A restart goes through the check on open, which can refuse the file. */
  ghost predicate Effect(g: Group, c: Cluster, c': Cluster, a: Action)
  {
    && a.n in c.peers
    && var n, p := a.n, c.peers[a.n];
    match a
    case Restart(_) =>
      && var s := RaftReopen.Reopen(p.disk, g.boot);
      && s.Some?
      && c' == c.(peers := c.peers[n := Peer(s.value, p.disk, Follower, 0)])
    case StepDown(_) => c' == c.(peers := c.peers[n := p.(role := Follower)])
    case Observe(_, term) => c' == c.(peers := c.peers[n := Settle(p, ObserveTerm(p.store, term), Follower)])
    case Campaign(_) =>
      && p.role != Leader
      && var o := BeginElection(p.store, n);
      && if o.reply.Ok? then
           c' == Cluster(c.peers[n := Settle(p, o, Candidate)],
                         c.wire + {VoteCall(o.reply.value), VoteGrant(n, o.reply.value.term, n)})
         else c' == c.(peers := c.peers[n := Settle(p, o, Follower)])
    case AnswerVote(_, m) =>
      && m in c.wire && m.VoteCall?
      && var o := RequestVote(p.store, m.request);
      && var role := if o.reply.Ok? && m.request.term > p.store.currentTerm then Follower else p.role;
      && c' == Cluster(c.peers[n := Settle(p, o, role)],
                       c.wire + if o.reply.Ok? && o.reply.value.granted
                           then {VoteGrant(n, m.request.term, m.request.candidate)} else {})
    case BecomeLeader(_, votes) =>
      && p.role == Candidate
      && HasQuorum(p.store, votes)
      && (forall v :: v in votes ==> VoteGrant(v, p.store.currentTerm, n) in c.wire)
      && c' == c.(peers := c.peers[n := p.(role := Leader, won := p.store.currentTerm)])
    case Propose(_, view) =>
      && InWonTerm(p)
      && var o := AppendCommand(p.store, n, p.store.currentTerm,
         Command(AdvanceEpoch, p.store.appliedEpoch + 1, view, [], []));
      && c' == c.(peers := c.peers[n := Settle(p, o, p.role)])
    case SendAppend(_, next, limit) =>
      && InWonTerm(p)
      && var b := LogBatch(p.store, next, limit);
      && b.Some?
      && c' == c.(wire := c.wire + {AppendCall(AppendRequest(b.value.term, n, b.value.prevIndex, b.value.prevTerm,
         b.value.entries, b.value.commitIndex))})
    case AnswerAppend(_, m) =>
      && m in c.wire && m.AppendCall?
      && var o := AppendEntries(p.store, m.append);
      && var role := if o.reply.Ok? && m.append.term == o.reply.value.term then Follower else p.role;
      && c' == Cluster(c.peers[n := Settle(p, o, role)],
                       c.wire + if o.reply.Ok? && o.reply.value.success
                           then {AppendAck(n, m.append.term, o.reply.value.matchIndex)} else {})
    case SendSnapshot(_) =>
      && InWonTerm(p) && p.store.snapshotIndex != 0
      && c' == c.(wire := c.wire + {SnapshotCall(SnapshotRequest(p.store.currentTerm, n, SnapshotOf(p.store)))})
    case AnswerSnapshot(_, m) =>
      && m in c.wire && m.SnapshotCall?
      && var o := InstallSnapshot(p.store, n, m.install);
      && var role := if o.reply.Ok? && m.install.term == o.reply.value.term then Follower else p.role;
      && c' == Cluster(c.peers[n := Settle(p, o, role)],
                       c.wire + if o.reply.Ok? && o.reply.value.success
                           then {AppendAck(n, m.install.term, o.reply.value.matchIndex)} else {})
    case CommitEntry(_, index, acks) =>
      && InWonTerm(p)
      && (forall v :: v in acks && v != n ==> exists j :: j >= index && AppendAck(v, p.store.currentTerm, j) in c.wire)
      && c' == c.(peers := c.peers[n := Settle(p, CommitWithVoterAcks(p.store, index, p.store.currentTerm, acks),
         p.role)])
    case Compact(_) => c' == c.(peers := c.peers[n := Settle(p, CompactCommitted(p.store), p.role)])
  }

  /** An append request that is sent carries the log up to the commit index it announces. */
  predicate Covered(c: Cluster, a: Action)
  {
    a.SendAppend? && a.n in c.peers ==>
      var b := LogBatch(c.peers[a.n].store, a.next, a.limit);
      b.Some? ==> b.value.commitIndex <= b.value.prevIndex + |b.value.entries|
  }

  ghost predicate Move(g: Group, c: Cluster, c': Cluster, a: Action)
  {
    Effect(g, c, c', a) && Covered(c, a)
  }

  /** A start state followed by any number of steps. */
  ghost predicate IsCodeRun(g: Group, run: seq<Cluster>, acts: seq<Action>)
  {
    && |run| == |acts| + 1
    && Start(g, run[0])
    && forall i :: 0 <= i < |acts| ==> Effect(g, run[i], run[i + 1], acts[i])
  }

  /** A run in which every append request is covered. */
  ghost predicate IsRun(g: Group, run: seq<Cluster>, acts: seq<Action>)
  {
    && |run| == |acts| + 1
    && Start(g, run[0])
    && forall i :: 0 <= i < |acts| ==> Move(g, run[i], run[i + 1], acts[i])
  }
}
