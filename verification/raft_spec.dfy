/**
 The durable store of one metadata Raft node as pure step functions: what each
 operation answers, what it leaves in memory, and whether it wrote the file.
 */
module RaftSpec {
  import opened Strings
  import opened Collections
  import opened RaftTypes

  /* ---------- validation ---------- */

  predicate LowerHex(c: char)
  {
    '0' <= c <= '9' || 'a' <= c <= 'f'
  }

  predicate ValidNodeId(id: NodeId)
  {
    |id| == 32 && (forall i :: 0 <= i < |id| ==> LowerHex(id[i])) && (exists i :: 0 <= i < |id| && id[i] != '0')
  }

  predicate ValidDigest(digest: string)
  {
    |digest| == 64 && forall i :: 0 <= i < |digest| ==> LowerHex(digest[i])
  }

  predicate ValidManifest(m: Manifest)
  {
    match m
    case NoManifest => true
    case Malformed => false
    case Capacities(items) =>
      && (forall i :: 0 <= i < |items| ==> ValidNodeId(items[i].node) && 1 <= items[i].capacity <= 256)
      && forall i :: 0 < i < |items| ==> Less(items[i - 1].node, items[i].node)
  }

  predicate ValidView(v: View)
  {
    ValidDigest(v.membership) && ValidDigest(v.catalog) && ValidDigest(v.placement) && ValidManifest(v.capacity)
  }

  /** Non-empty, valid, strictly ascending: what sorting and duplicate checking leaves unchanged. */
  predicate Canonical(voters: seq<NodeId>)
  {
    && voters != []
    && (forall i :: 0 <= i < |voters| ==> ValidNodeId(voters[i]))
    && forall i :: 0 < i < |voters| ==> Less(voters[i - 1], voters[i])
  }

  /** How many nodes joined or left. */
  function Difference(before: seq<NodeId>, after: seq<NodeId>): nat
  {
    |Elements(before) - Elements(after)| + |Elements(after) - Elements(before)|
  }

  predicate ValidEntry(e: Entry)
  {
    var c := e.command;
    && e.term != 0
    && match c.kind
       case AdvanceEpoch => c.epoch >= 2 && c.oldVoters == [] && c.newVoters == [] && ValidView(c.view)
       case BeginJoint => c.epoch != 0 && Canonical(c.oldVoters) && Canonical(c.newVoters)
           && Difference(c.oldVoters, c.newVoters) == 1
       case FinalizeJoint => c.epoch >= 2 && Canonical(c.oldVoters) && Canonical(c.newVoters)
           && Difference(c.oldVoters, c.newVoters) == 1 && ValidView(c.view)
       case UnknownKind => false
  }

  /* ---------- the replicated metadata ---------- */

  datatype Machine = Machine(epoch: nat, view: Option<View>, voters: seq<NodeId>, jointOld: seq<NodeId>,
      jointNew: seq<NodeId>)

  /** One committed command; None is the error that stops the commit. */
  function Apply(m: Machine, c: Command): Option<Machine>
  {
    match c.kind
    case AdvanceEpoch =>
      if m.jointOld != [] || c.epoch > m.epoch + 1 || c.epoch < m.epoch then None
      else if c.epoch == m.epoch + 1 then Some(m.(epoch := c.epoch, view := Some(c.view)))
      else if m.view != Some(c.view) then None
      else Some(m)
    case BeginJoint =>
      var voters := if m.voters == [] then c.oldVoters else m.voters;
      if c.epoch != m.epoch || m.jointOld != [] || c.oldVoters != voters then None
      else Some(m.(voters := voters, jointOld := c.oldVoters, jointNew := c.newVoters))
    case FinalizeJoint =>
      if c.epoch != m.epoch + 1 || c.oldVoters != m.jointOld || c.newVoters != m.jointNew then None
      else Some(Machine(c.epoch, Some(c.view), c.newVoters, [], []))
    case UnknownKind => None
  }

  function ApplyAll(m: Machine, log: Log): Option<Machine>
    decreases |log|
  {
    if log == [] then Some(m)
    else match Apply(m, log[0].command)
      case None => None
      case Some(next) => ApplyAll(next, log[1..])
  }

  /* ---------- the store ---------- */

  datatype Store = Store(
    currentTerm: nat, votedFor: NodeId, commitIndex: nat, appliedEpoch: nat,
    snapshotIndex: nat, snapshotTerm: nat, snapshotEpoch: nat, snapshotView: Option<View>,
    voters: seq<NodeId>, jointOld: seq<NodeId>, jointNew: seq<NodeId>,
    committedView: Option<View>, entries: Log)

  datatype Reply<+T> = Ok(value: T) | Err

  /** `durable` tells whether the operation wrote the state file before returning. */
  datatype Outcome<+T> = Outcome(store: Store, durable: bool, reply: Reply<T>)

  datatype VoteRequest = VoteRequest(term: nat, candidate: NodeId, lastIndex: nat, lastTerm: nat)
  datatype VoteResponse = VoteResponse(term: nat, granted: bool)
  datatype AppendRequest = AppendRequest(term: nat, leader: NodeId, prevIndex: nat, prevTerm: nat, entries: Log,
      leaderCommit: nat)
  datatype AppendResponse = AppendResponse(term: nat, success: bool, matchIndex: nat)
  datatype Snapshot = Snapshot(index: nat, term: nat, epoch: nat, voters: seq<NodeId>, view: Option<View>)
  datatype SnapshotRequest = SnapshotRequest(term: nat, leader: NodeId, snapshot: Snapshot)
  datatype SnapshotResponse = SnapshotResponse(term: nat, success: bool, matchIndex: nat)
  datatype Batch = Batch(term: nat, commitIndex: nat, prevIndex: nat, prevTerm: nat, entries: Log)

  function Fresh(boot: nat): Store
  {
    Store(0, "", 0, boot, 0, 0, boot, None, [], [], [], None, [])
  }

  function MachineOf(s: Store): Machine
  {
    Machine(s.appliedEpoch, s.committedView, s.voters, s.jointOld, s.jointNew)
  }

  function WithMachine(s: Store, m: Machine, commit: nat): Store
  {
    s.(commitIndex := commit, appliedEpoch := m.epoch, committedView := m.view,
       voters := m.voters, jointOld := m.jointOld, jointNew := m.jointNew)
  }

  function LastIndex(s: Store): nat { s.snapshotIndex + |s.entries| }

  function LastLogTerm(s: Store): nat
  {
    if s.entries == [] then s.snapshotTerm else s.entries[|s.entries| - 1].term
  }

  /** None below the snapshot and beyond the log. */
  function TermOf(s: Store, index: nat): Option<nat>
  {
    if index == s.snapshotIndex then Some(s.snapshotTerm)
    else if index < s.snapshotIndex || index > LastIndex(s) then None
    else Some(s.entries[index - s.snapshotIndex - 1].term)
  }

  predicate Active(s: Store, id: NodeId)
  {
    if s.jointOld == [] then id in s.voters else id in s.jointOld || id in s.jointNew
  }

  function CountIn(voters: seq<NodeId>, acks: set<NodeId>): nat
  {
    if voters == [] then 0 else (if voters[0] in acks then 1 else 0) + CountIn(voters[1..], acks)
  }

  predicate Majority(voters: seq<NodeId>, acks: set<NodeId>)
  {
    |voters| > 0 && CountIn(voters, acks) >= |voters| / 2 + 1
  }

  predicate HasQuorum(s: Store, acks: set<NodeId>)
  {
    if s.jointOld != [] then Majority(s.jointOld, acks) && Majority(s.jointNew, acks) else Majority(s.voters, acks)
  }

  function ObserveTerm(s: Store, term: nat): Outcome<()>
  {
    if term <= s.currentTerm then Outcome(s, false, Ok(()))
    else Outcome(s.(currentTerm := term, votedFor := ""), true, Ok(()))
  }

  function BeginElection(s: Store, self: NodeId): Outcome<VoteRequest>
  {
    if s.voters != [] && !Active(s, self) then Outcome(s, false, Err)
    else
      var s' := s.(currentTerm := s.currentTerm + 1, votedFor := self);
      Outcome(s', true, Ok(VoteRequest(s'.currentTerm, self, LastIndex(s'), LastLogTerm(s'))))
  }

  /** The term a request carries is adopted, and the vote of the old term forgotten. */
  function Raise(s: Store, term: nat): Store
  {
    if term > s.currentTerm then s.(currentTerm := term, votedFor := "") else s
  }

  function RequestVote(s: Store, r: VoteRequest): Outcome<VoteResponse>
  {
    if !ValidNodeId(r.candidate) || r.term == 0 then Outcome(s, false, Err)
    else if (s.voters != [] && !Active(s, r.candidate)) || r.term < s.currentTerm then
      Outcome(s, false, Ok(VoteResponse(s.currentTerm, false)))
    else
      var s1 := Raise(s, r.term);
      var upToDate := r.lastTerm > LastLogTerm(s1) || (r.lastTerm == LastLogTerm(s1) && r.lastIndex >= LastIndex(s1));
      var granted := upToDate && (s1.votedFor == "" || s1.votedFor == r.candidate);
      var s2 := if granted then s1.(votedFor := r.candidate) else s1;
      Outcome(s2, s2 != s, Ok(VoteResponse(s2.currentTerm, granted)))
  }

  /** The append loop on the retained entries: the log it leaves and whether it ran to the end. */
  function AppendLoop(entries: Log, committed: int, at: nat, batch: Log): (Log, bool)
    requires at <= |entries|
    decreases |batch|
  {
    if batch == [] then (entries, true)
    else if at < |entries| && entries[at].term == batch[0].term then AppendLoop(entries, committed, at + 1, batch[1..])
    else if at < |entries| && at < committed then (entries, false)
    else if !ValidEntry(batch[0]) then (entries[..at], false)
    else AppendLoop(entries[..at] + [batch[0]], committed, at + 1, batch[1..])
  }

  /** Commit through `target`: all of it or, on the first bad command, nothing. */
  function ApplyThrough(s: Store, target: nat): Option<Store>
    requires s.snapshotIndex <= s.commitIndex && target <= LastIndex(s)
  {
    if target <= s.commitIndex then Some(s)
    else match ApplyAll(MachineOf(s), s.entries[s.commitIndex - s.snapshotIndex..target - s.snapshotIndex])
      case None => None
      case Some(m) => Some(WithMachine(s, m, target))
  }

  /** ApplyThrough on a log known to hold the committed prefix; a target past it cannot occur. */
  function CommitTo(s: Store, target: nat): Option<Store>
  {
    if s.snapshotIndex <= s.commitIndex && target <= LastIndex(s) then ApplyThrough(s, target) else None
  }

  /** After the loop: follow the leader's commit index as far as the own log reaches. */
  function Follow(s: Store, r: AppendRequest): Outcome<AppendResponse>
  {
    var target := if r.leaderCommit < LastIndex(s) then r.leaderCommit else LastIndex(s);
    var applied := if r.leaderCommit > s.commitIndex then CommitTo(s, target) else Some(s);
    match applied
    case None => Outcome(s, false, Err)
    case Some(s') => Outcome(s', true, Ok(AppendResponse(s'.currentTerm, true, r.prevIndex + |r.entries|)))
  }

  /** The request matches the log at its previous index. */
  function AppendAt(s: Store, r: AppendRequest): Outcome<AppendResponse>
    requires s.snapshotIndex <= r.prevIndex <= LastIndex(s)
  {
    var (log, done) := AppendLoop(s.entries, s.commitIndex - s.snapshotIndex, r.prevIndex - s.snapshotIndex, r.entries);
    var s' := s.(entries := log);
    if done then Follow(s', r) else Outcome(s', false, Err)
  }

  function AppendEntries(s: Store, r: AppendRequest): Outcome<AppendResponse>
  {
    if !ValidNodeId(r.leader) || r.term == 0 then Outcome(s, false, Err)
    else if s.voters != [] && !Active(s, r.leader) then Outcome(s, false, Ok(AppendResponse(s.currentTerm, false, 0)))
    else if |r.entries| > 1024 then Outcome(s, false, Err)
    else if r.term < s.currentTerm then Outcome(s, false, Ok(AppendResponse(s.currentTerm, false, 0)))
    else
      var s1 := Raise(s, r.term);
      if TermOf(s1, r.prevIndex) != Some(r.prevTerm) then
        Outcome(s1, true, Ok(AppendResponse(s1.currentTerm, false, 0)))
      else
        AppendAt(s1, r)
  }

  function AppendCommand(s: Store, self: NodeId, term: nat, c: Command): Outcome<nat>
  {
    if term == 0 || term != s.currentTerm || s.votedFor != self
        || !ValidEntry(Entry(term, c)) then Outcome(s, false, Err)
    else if s.entries != [] && LastIndex(s) > s.commitIndex && s.entries[|s.entries| - 1] == Entry(term, c) then
      Outcome(s, false, Ok(LastIndex(s)))
    else
      var s' := s.(entries := s.entries + [Entry(term, c)]);
      Outcome(s', true, Ok(LastIndex(s')))
  }

  function CommitWithVoterAcks(s: Store, index: nat, term: nat, acks: set<NodeId>): Outcome<()>
  {
    if !HasQuorum(s, acks) || term != s.currentTerm || index <= s.snapshotIndex || TermOf(s, index) != Some(term) then
      Outcome(s, false, Err)
    else match CommitTo(s, index)
      case None => Outcome(s, false, Err)
      case Some(s') => Outcome(s', true, Ok(()))
  }

  function CompactCommitted(s: Store): Outcome<()>
  {
    if s.jointOld != [] then Outcome(s, false, Err)
    else if s.commitIndex == s.snapshotIndex then Outcome(s, false, Ok(()))
    else match TermOf(s, s.commitIndex)
      case None => Outcome(s, false, Err)
      case Some(term) =>
        Outcome(s.(entries := s.entries[s.commitIndex - s.snapshotIndex..], snapshotIndex := s.commitIndex,
            snapshotTerm := term,
                   snapshotEpoch := s.appliedEpoch, snapshotView := s.committedView), true, Ok(()))
  }

  function SnapshotOf(s: Store): Snapshot
  {
    Snapshot(s.snapshotIndex, s.snapshotTerm, s.snapshotEpoch, s.voters, s.snapshotView)
  }

  predicate ValidSnapshot(p: Snapshot, self: NodeId)
  {
    Canonical(p.voters) && self in p.voters && p.index != 0 && p.term != 0 && p.epoch >= 2 && p.view.Some?
        && ValidView(p.view.value)
  }

  function InstallSnapshot(s: Store, self: NodeId, r: SnapshotRequest): Outcome<SnapshotResponse>
  {
    var p := r.snapshot;
    if !ValidNodeId(r.leader) || r.term == 0 then Outcome(s, false, Err)
    else if s.voters != [] && r.leader !in s.voters then Outcome(s, false,
        Ok(SnapshotResponse(s.currentTerm, false, 0)))
    else if !ValidSnapshot(p, self) || (s.voters != [] && s.voters != p.voters) then Outcome(s, false, Err)
    else if r.term < s.currentTerm then Outcome(s, false, Ok(SnapshotResponse(s.currentTerm, false, 0)))
    else
      var s1 := Raise(s, r.term);
      if p.index <= s1.commitIndex then Outcome(s1, true, Ok(SnapshotResponse(s1.currentTerm, true, s1.commitIndex)))
      else
        var retained := if TermOf(s1, p.index) == Some(p.term) then s1.entries[p.index - s1.snapshotIndex..] else [];
        Outcome(s1.(snapshotIndex := p.index, snapshotTerm := p.term, snapshotEpoch := p.epoch, snapshotView := p.view,
                    commitIndex := p.index, appliedEpoch := p.epoch, committedView := p.view, voters := p.voters,
                    entries := retained),
                true, Ok(SnapshotResponse(s1.currentTerm, true, p.index)))
  }

  function LogBatch(s: Store, next: nat, limit: int): Option<Batch>
  {
    if next <= s.snapshotIndex || next > LastIndex(s) + 1 || limit < 1 || limit > 1024 then None
    else match TermOf(s, next - 1)
      case None => None
      case Some(prevTerm) =>
        var start := next - s.snapshotIndex - 1;
        var end := if start + limit < |s.entries| then start + limit else |s.entries|;
        Some(Batch(s.currentTerm, s.commitIndex, next - 1, prevTerm, s.entries[start..end]))
  }
}
