/**
 Opening the state file. The check that runs on open replays the retained
 committed entries from the snapshot and compares; it accepts every state that
 store operations can have written, membership changes included.
 */
module RaftReopen {
  import opened Strings
  import opened Collections
  import opened RaftTypes
  import opened RaftSpec
  import opened RaftRefinement
  import opened RaftQuorum

  /* ---------- normalizing a voter list ---------- */

  function Insert(id: NodeId, sorted: seq<NodeId>): seq<NodeId>
  {
    if sorted == [] || !Less(sorted[0], id) then [id] + sorted else [sorted[0]] + Insert(id, sorted[1..])
  }

  function Sort(ids: seq<NodeId>): seq<NodeId>
  {
    if ids == [] then [] else Insert(ids[0], Sort(ids[1..]))
  }

  /** Sorted, and refused if empty, invalid or with a duplicate. */
  function Normalize(ids: seq<NodeId>): Option<seq<NodeId>>
  {
    if Canonical(Sort(ids)) then Some(Sort(ids)) else None
  }

  predicate Ascending(ids: seq<NodeId>)
  {
    forall i :: 0 < i < |ids| ==> !Less(ids[i], ids[i - 1])
  }

  lemma {:induction false} InsertSorts(id: NodeId, s: seq<NodeId>)
    requires Ascending(s)
    ensures Ascending(Insert(id, s)) && multiset(Insert(id, s)) == multiset(s) + multiset{id}
    ensures Insert(id, s)[0] == id || (s != [] && Insert(id, s)[0] == s[0])
    decreases |s|
  {
    if s != [] && Less(s[0], id) {
      var rest := Insert(id, s[1..]);
      InsertSorts(id, s[1..]);
      assert s == [s[0]] + s[1..];
      LessAsymmetric(s[0], id);
      var r := [s[0]] + rest;
      forall i | 0 < i < |r|
          ensures !Less(r[i], r[i - 1]) { if i > 1 { assert r[i] == rest[i - 1] && r[i - 1] == rest[i - 2]; } }
    }
  }

  lemma {:induction false} SortSorts(ids: seq<NodeId>)
    ensures Ascending(Sort(ids)) && multiset(Sort(ids)) == multiset(ids)
    decreases |ids|
  {
    if ids != [] {
      SortSorts(ids[1..]);
      InsertSorts(ids[0], Sort(ids[1..]));
      assert ids == [ids[0]] + ids[1..];
    }
  }

  /** Normalizing succeeds exactly on non-empty lists of valid, distinct identities, and keeps them all. */
  lemma NormalizeExact(ids: seq<NodeId>)
    ensures Normalize(ids).Some? <==> ids != [] && Distinct(ids) && (forall id :: id in ids ==> ValidNodeId(id))
    ensures Normalize(ids).Some? ==> multiset(Normalize(ids).value) == multiset(ids) && Canonical(Normalize(ids).value)
  {
    hide ValidNodeId;
    var t := Sort(ids);
    SortSorts(ids);
    SameElements(ids, t);
    if Canonical(t) {
      CanonicalDistinct(t);
      DistinctCounts(t);
      DistinctFromCounts(ids);
      forall id | id in ids ensures ValidNodeId(id) { assert id in t; }
    } else if ids != [] && Distinct(ids) && (forall id :: id in ids ==> ValidNodeId(id)) {
      DistinctCounts(ids);
      DistinctFromCounts(t);
      forall i | 0 < i < |t| ensures Less(t[i - 1], t[i]) { LessTotal(t[i - 1], t[i]); }
      forall i | 0 <= i < |t| ensures ValidNodeId(t[i]) { assert t[i] in ids; }
    }
  }

  lemma SameElements(a: seq<NodeId>, b: seq<NodeId>)
    requires multiset(a) == multiset(b)
    ensures |a| == |b| && forall id :: id in a <==> id in b
  {
    assert |multiset(a)| == |multiset(b)|;
    forall id
        ensures id in a <==> id in b { assert id in a <==> id in multiset(a); assert id in b <==> id in multiset(b); }
  }

  lemma {:induction false} DistinctCounts(a: seq<NodeId>)
    requires Distinct(a)
    ensures forall id :: multiset(a)[id] <= 1
    decreases |a|
  {
    if a != [] {
      DistinctCounts(a[1..]);
      assert a == [a[0]] + a[1..];
      assert a[0] !in a[1..];
    }
  }

  lemma DistinctFromCounts(a: seq<NodeId>)
    requires forall id :: multiset(a)[id] <= 1
    ensures Distinct(a)
  {
    forall i, j | 0 <= i < j < |a| ensures a[i] != a[j]
    {
      assert a == a[..j] + a[j..];
      assert a[i] in a[..j] && a[j] in a[j..];
      assert multiset(a)[a[j]] == multiset(a[..j])[a[j]] + multiset(a[j..])[a[j]];
    }
  }

  /* ---------- the check on open ---------- */

  /** One committed command as the check on open replays it, which does not know the voters before the first change. */
  function Replay(m: Machine, c: Command): Option<Machine>
  {
    match c.kind
    case AdvanceEpoch =>
      if m.jointOld != [] || c.epoch > m.epoch + 1 || c.epoch < m.epoch then None
      else if c.epoch == m.epoch + 1 then Some(m.(epoch := c.epoch, view := Some(c.view)))
      else if m.view != Some(c.view) then None
      else Some(m)
    case BeginJoint =>
      if c.epoch != m.epoch || m.jointOld != [] then None
      else Some(m.(voters := c.oldVoters, jointOld := c.oldVoters, jointNew := c.newVoters))
    case FinalizeJoint =>
      if c.epoch != m.epoch + 1 || c.oldVoters != m.jointOld || c.newVoters != m.jointNew then None
      else Some(Machine(c.epoch, Some(c.view), c.newVoters, [], []))
    case UnknownKind => Some(m)
  }

  function ReplayAll(m: Machine, log: Log): Option<Machine>
    decreases |log|
  {
    if log == [] then Some(m)
    else match Replay(m, log[0].command)
      case None => None
      case Some(x) => ReplayAll(x, log[1..])
  }

  predicate ViewFits(epoch: nat, boot: nat, view: Option<View>)
  {
    (epoch == boot ==> view == None) && (epoch > boot ==> view.Some?) && (view.Some? ==> ValidView(view.value))
  }

  predicate ConfigFits(voters: seq<NodeId>, jointOld: seq<NodeId>, jointNew: seq<NodeId>)
  {
    && (voters == [] || Canonical(voters))
    && (jointOld != [] || jointNew != [] ==> Canonical(jointOld) && Canonical(jointNew) && voters == jointOld)
  }

  /** None is the refusal; Some is the state the node continues with. */
  function Reopen(file: Store, boot: nat): Option<Store>
  {
    var s := if file.snapshotEpoch == 0 && file.snapshotIndex == 0 then file.(snapshotEpoch := boot) else file;
    if s.appliedEpoch < boot || s.commitIndex < s.snapshotIndex || s.commitIndex > LastIndex(s)
        || s.snapshotEpoch < boot then None
    else if (s.snapshotIndex == 0) != (s.snapshotTerm == 0) then None
    else if !ViewFits(s.snapshotEpoch, boot, s.snapshotView) || !ConfigFits(s.voters, s.jointOld, s.jointNew) then None
    else if exists e :: e in s.entries && !ValidEntry(e) then None
    else match ReplayAll(Machine(s.snapshotEpoch, s.snapshotView, [], [], []),
        s.entries[..s.commitIndex - s.snapshotIndex])
      case None => None
      case Some(m) =>
        if m.epoch != s.appliedEpoch || (m.voters != [] && m.voters != s.voters) || m.jointOld != s.jointOld
            || m.jointNew != s.jointNew then None
        else if m.view == None then (if s.committedView.Some? then None else Some(s))
        else if s.committedView == None then Some(s.(committedView := m.view))
        else if m.view != s.committedView then None
        else Some(s)
  }

  /** How many bytes of a state file are read. */
  const FILE_LIMIT: nat := 0x80_0000

  /** Opening a state file, `length` being the bytes a state takes: one that is longer than what is read is refused. */
  function OpenFile(length: Store -> nat, file: Store, boot: nat): Option<Store>
  {
    if length(file) > FILE_LIMIT then None else Reopen(file, boot)
  }

  /* ---------- store operations, in any order and with any arguments ---------- */

  datatype Op =
    | OpObserve(term: nat)
    | OpConfigure(ids: seq<NodeId>)
    | OpElect
    | OpVote(vote: VoteRequest)
    | OpAppend(append: AppendRequest)
    | OpCommand(term: nat, command: Command)
    | OpCommit(index: nat, term: nat, acks: set<NodeId>)
    | OpCommitCount(index: nat, term: nat, acknowledged: nat, voters: nat)
    | OpCompact
    | OpInstall(install: SnapshotRequest)

  function ConfigureVoters(s: Store, self: NodeId, ids: seq<NodeId>): Outcome<()>
  {
    match Normalize(ids)
    case None => Outcome(s, false, Err)
    case Some(v) =>
      if self !in v then Outcome(s, false, Err)
      else if s.voters != [] then Outcome(s, false, if s.voters == v then Ok(()) else Err)
      else Outcome(s.(voters := v), true, Ok(()))
  }

  /** Commit by counts; refused while a membership change is under way. */
  function CommitWithQuorum(s: Store, index: nat, term: nat, acknowledged: nat, voters: nat): Outcome<()>
  {
    if s.jointOld != [] || voters < 1 || acknowledged < voters / 2 + 1 then Outcome(s, false, Err)
    else if term != s.currentTerm || index <= s.snapshotIndex
        || TermOf(s, index) != Some(term) then Outcome(s, false, Err)
    else match CommitTo(s, index)
      case None => Outcome(s, false, Err)
      case Some(s') => Outcome(s', true, Ok(()))
  }

  function Perform(s: Store, self: NodeId, op: Op): Store
  {
    match op
    case OpObserve(term) => ObserveTerm(s, term).store
    case OpConfigure(ids) => ConfigureVoters(s, self, ids).store
    case OpElect => BeginElection(s, self).store
    case OpVote(r) => RequestVote(s, r).store
    case OpAppend(r) => AppendEntries(s, r).store
    case OpCommand(term, c) => AppendCommand(s, self, term, c).store
    case OpCommit(index, term, acks) => CommitWithVoterAcks(s, index, term, acks).store
    case OpCommitCount(index, term, k, n) => CommitWithQuorum(s, index, term, k, n).store
    case OpCompact => CompactCommitted(s).store
    case OpInstall(r) => InstallSnapshot(s, self, r).store
  }

  function PerformAll(s: Store, self: NodeId, ops: seq<Op>): Store
    decreases |ops|
  {
    if ops == [] then s else Perform(PerformAll(s, self, ops[..|ops| - 1]), self, ops[|ops| - 1])
  }

  /** The request replaces the snapshot, not only the term. */
  predicate Installs(s: Store, self: NodeId, r: SnapshotRequest)
  {
    var o := InstallSnapshot(s, self, r);
    o.reply.Ok? && o.reply.value.success && r.snapshot.index > s.commitIndex
  }

  /** A snapshot that is installed is newer than the bootstrap epoch and does not meet a membership change half way. */
  predicate Fits(s: Store, self: NodeId, op: Op, boot: nat)
  {
    op.OpInstall? && Installs(s, self, op.install) ==> op.install.snapshot.epoch > boot && s.jointOld == []
  }

  predicate AllFit(self: NodeId, ops: seq<Op>, boot: nat)
    decreases |ops|
  {
    ops != [] ==>
      && AllFit(self, ops[..|ops| - 1], boot)
      && Fits(PerformAll(Fresh(boot), self, ops[..|ops| - 1]), self, ops[|ops| - 1], boot)
  }

  /* ---------- what every operation keeps ---------- */

  ghost predicate MachineFits(m: Machine, boot: nat)
  {
    m.epoch >= boot && ViewFits(m.epoch, boot, m.view) && ConfigFits(m.voters, m.jointOld, m.jointNew)
  }

  /** The replayed metadata says the same, except that it may not know the voters yet. */
  ghost predicate Agrees(m: Machine, replayed: Machine)
  {
    && replayed.epoch == m.epoch && replayed.view == m.view && replayed.jointOld == m.jointOld
       && replayed.jointNew == m.jointNew
    && (replayed.voters == [] || replayed.voters == m.voters)
  }

  ghost predicate Committable(s: Store)
  {
    && s.snapshotIndex <= s.commitIndex <= LastIndex(s)
    && var r := ReplayAll(Machine(s.snapshotEpoch, s.snapshotView, [], [], []),
       s.entries[..s.commitIndex - s.snapshotIndex]);
       r.Some? && Agrees(MachineOf(s), r.value)
  }

  ghost predicate Keeps(s: Store, boot: nat)
  {
    && boot >= 1
    && (s.snapshotIndex == 0 <==> s.snapshotTerm == 0)
    && s.snapshotEpoch >= boot && ViewFits(s.snapshotEpoch, boot, s.snapshotView)
    && MachineFits(MachineOf(s), boot)
    && (forall e :: e in s.entries ==> ValidEntry(e))
    && Committable(s)
  }

  lemma ReplayFollows(m: Machine, r: Machine, c: Command)
    requires Agrees(m, r) && Apply(m, c).Some?
    ensures Replay(r, c).Some? && Agrees(Apply(m, c).value, Replay(r, c).value)
  {
  }

  lemma {:induction false} ReplayAllFollows(m: Machine, r: Machine, log: Log)
    requires Agrees(m, r) && ApplyAll(m, log).Some?
    ensures ReplayAll(r, log).Some? && Agrees(ApplyAll(m, log).value, ReplayAll(r, log).value)
    decreases |log|
  {
    if log != [] {
      ReplayFollows(m, r, log[0].command);
      ReplayAllFollows(Apply(m, log[0].command).value, Replay(r, log[0].command).value, log[1..]);
    }
  }

  lemma {:induction false} ReplayAllConcat(m: Machine, a: Log, b: Log)
    ensures ReplayAll(m, a + b) == match ReplayAll(m, a) case None => None case Some(x) => ReplayAll(x, b)
    decreases |a|
  {
    if a == [] {
      assert a + b == b;
    } else {
      assert (a + b)[1..] == a[1..] + b;
      match Replay(m, a[0].command)
      case None =>
      case Some(x) => ReplayAllConcat(x, a[1..], b);
    }
  }

  lemma ApplyFits(m: Machine, e: Entry, boot: nat)
    requires boot >= 1 && MachineFits(m, boot) && ValidEntry(e) && Apply(m, e.command).Some?
    ensures MachineFits(Apply(m, e.command).value, boot)
  {
    hide ValidView, Canonical, Difference;
  }

  lemma {:induction false} ApplyAllFits(m: Machine, log: Log, boot: nat)
    requires boot >= 1 && MachineFits(m, boot) && (forall e :: e in log ==> ValidEntry(e)) && ApplyAll(m, log).Some?
    ensures MachineFits(ApplyAll(m, log).value, boot)
    decreases |log|
  {
    hide ValidEntry, MachineFits;
    if log != [] {
      assert log[0] in log;
      ApplyFits(m, log[0], boot);
      ApplyAllFits(Apply(m, log[0].command).value, log[1..], boot);
    }
  }

  /** Committing more of a kept log is kept: the replay recomputes what was built step by step. */
  lemma CommitKept(s: Store, target: nat, boot: nat)
    requires Keeps(s, boot) && CommitTo(s, target).Some?
    ensures Keeps(CommitTo(s, target).value, boot)
  {
    hide ValidEntry, MachineFits, ApplyAll, ReplayAll, ViewFits, Agrees;
    var n, c := s.snapshotIndex, s.commitIndex;
    if target > c {
      var part := s.entries[c - n..target - n];
      var s' := CommitTo(s, target).value;
      ApplyAllFits(MachineOf(s), part, boot);
      assert s.entries[..target - n] == s.entries[..c - n] + part;
      var m := Machine(s.snapshotEpoch, s.snapshotView, [], [], []);
      ReplayAllConcat(m, s.entries[..c - n], part);
      ReplayAllFollows(MachineOf(s), ReplayAll(m, s.entries[..c - n]).value, part);
      assert MachineOf(s') == ApplyAll(MachineOf(s), part).value;
    }
  }

  lemma {:induction false} LoopValid(entries: Log, committed: int, at: nat, batch: Log)
    requires at <= |entries| && forall e :: e in entries ==> ValidEntry(e)
    ensures forall e :: e in AppendLoop(entries, committed, at, batch).0 ==> ValidEntry(e)
    decreases |batch|
  {
    hide ValidEntry;
    if batch != [] {
      if at < |entries| && entries[at].term == batch[0].term {
        LoopValid(entries, committed, at + 1, batch[1..]);
      } else if !(at < |entries| && at < committed) && ValidEntry(batch[0]) {
        LoopValid(entries[..at] + [batch[0]], committed, at + 1, batch[1..]);
      }
    }
  }

  /** The loop may rewrite the uncommitted tail, also when it stops half way. */
  lemma LoopKept(s: Store, at: nat, batch: Log, boot: nat)
    requires Keeps(s, boot) && at <= |s.entries|
    ensures Keeps(s.(entries := AppendLoop(s.entries, s.commitIndex - s.snapshotIndex, at, batch).0), boot)
  {
    hide ValidEntry, MachineFits, ReplayAll, ViewFits, Agrees, AppendLoop;
    var c := s.commitIndex - s.snapshotIndex;
    var log := AppendLoop(s.entries, c, at, batch).0;
    LoopValid(s.entries, c, at, batch);
    LoopKeeps(s.entries, c, at, batch);
    assert log[..c] == s.entries[..c];
  }

  lemma AppendKept(s: Store, r: AppendRequest, boot: nat)
    requires Keeps(s, boot)
    ensures Keeps(AppendEntries(s, r).store, boot)
  {
    hide ValidEntry, MachineFits, ReplayAll, ViewFits, Agrees, AppendLoop, CommitTo, ValidNodeId;
    var s1 := Raise(s, r.term);
    assert Keeps(s1, boot) by { assert MachineOf(s1) == MachineOf(s); }
    if TermOf(s1, r.prevIndex) == Some(r.prevTerm) {
      var at := r.prevIndex - s1.snapshotIndex;
      LoopKept(s1, at, r.entries, boot);
      var s2 := s1.(entries := AppendLoop(s1.entries, s1.commitIndex - s1.snapshotIndex, at, r.entries).0);
      var target := if r.leaderCommit < LastIndex(s2) then r.leaderCommit else LastIndex(s2);
      if CommitTo(s2, target).Some? { CommitKept(s2, target, boot); }
    }
  }

  lemma CompactKept(s: Store, boot: nat)
    requires Keeps(s, boot)
    ensures Keeps(CompactCommitted(s).store, boot)
  {
    hide ValidView;
    var s' := CompactCommitted(s).store;
    if s' != s {
      var n := s.commitIndex - s.snapshotIndex;
      assert s.entries[n - 1] in s.entries;
      assert s'.entries[..0] == [];
      forall e | e in s'.entries ensures ValidEntry(e) { assert e in s.entries; }
    }
  }

  lemma PlainKept(s: Store, s': Store, boot: nat)
    requires Keeps(s, boot) && s' == s.(currentTerm := s'.currentTerm, votedFor := s'.votedFor)
    ensures Keeps(s', boot)
  {
    assert MachineOf(s') == MachineOf(s);
  }

  lemma PushKept(s: Store, e: Entry, boot: nat)
    requires Keeps(s, boot) && ValidEntry(e)
    ensures Keeps(s.(entries := s.entries + [e]), boot)
  {
    hide ValidEntry, MachineFits, ReplayAll, ViewFits, Agrees;
    var c := s.commitIndex - s.snapshotIndex;
    assert (s.entries + [e])[..c] == s.entries[..c];
  }

  lemma ConfigureKept(s: Store, self: NodeId, ids: seq<NodeId>, boot: nat)
    requires Keeps(s, boot)
    ensures Keeps(ConfigureVoters(s, self, ids).store, boot)
  {
    hide ValidEntry, ValidView, ReplayAll;
    NormalizeExact(ids);
  }

  lemma InstallPlain(s: Store, self: NodeId, r: SnapshotRequest)
    requires !Installs(s, self, r)
    ensures var s' := InstallSnapshot(s, self, r).store;
            s' == s.(currentTerm := s'.currentTerm, votedFor := s'.votedFor)
  {
    hide ValidNodeId, ValidSnapshot, TermOf;
  }

  /** What an installed snapshot leaves: nothing of it is left to replay. */
  lemma Installed(s: Store, self: NodeId, r: SnapshotRequest, boot: nat)
    requires Keeps(s, boot) && Installs(s, self, r)
    ensures var s', p := InstallSnapshot(s, self, r).store, r.snapshot;
            && s'.snapshotIndex == s'.commitIndex == p.index > 0 && s'.snapshotTerm == p.term > 0
            && s'.snapshotEpoch == s'.appliedEpoch == p.epoch && s'.snapshotView == s'.committedView == p.view
            && p.view.Some? && ValidView(p.view.value)
            && s'.voters == p.voters && Canonical(p.voters) && s'.jointOld == s.jointOld && s'.jointNew == s.jointNew
            && (s.voters == [] || s.voters == p.voters)
            && forall e :: e in s'.entries ==> ValidEntry(e)
  {
    hide ValidNodeId, ValidView, Canonical, ValidEntry, ReplayAll, MachineFits;
    var s' := InstallSnapshot(s, self, r).store;
    forall e | e in s'.entries ensures ValidEntry(e) { assert e in s.entries; }
  }

  /** An installed snapshot can be reopened exactly if it fits. */
  lemma InstallReopensIff(s: Store, self: NodeId, r: SnapshotRequest, boot: nat)
    requires Keeps(s, boot)
    ensures var s' := InstallSnapshot(s, self, r).store;
            && (Keeps(s', boot) <==> Fits(s, self, OpInstall(r), boot))
            && (Reopen(s', boot) == Some(s') <==> Fits(s, self, OpInstall(r), boot))
  {
    hide ValidView, ValidNodeId, Less, ValidEntry, InstallSnapshot, Installs;
    var s' := InstallSnapshot(s, self, r).store;
    if Installs(s, self, r) {
      Installed(s, self, r, boot);
      assert s'.entries[..0] == [];
    } else {
      InstallPlain(s, self, r);
      PlainKept(s, s', boot);
      KeptReopens(s', boot);
    }
  }

  /** Every operation, on any argument, leaves a state the check accepts, except for a snapshot that does not fit. */
  lemma PerformKeeps(s: Store, self: NodeId, op: Op, boot: nat)
    requires Keeps(s, boot)
    ensures Keeps(Perform(s, self, op), boot) <==> Fits(s, self, op, boot)
  {
    hide Keeps, AppendEntries, ConfigureVoters, CompactCommitted, CommitTo, ValidEntry, ValidNodeId, InstallSnapshot,
        Installs;
    match op
    case OpObserve(term) => PlainKept(s, Perform(s, self, op), boot);
    case OpConfigure(ids) => ConfigureKept(s, self, ids, boot);
    case OpElect => PlainKept(s, Perform(s, self, op), boot);
    case OpVote(r) => PlainKept(s, Perform(s, self, op), boot);
    case OpAppend(r) => AppendKept(s, r, boot);
    case OpCommand(term, c) => if ValidEntry(Entry(term, c)) { PushKept(s, Entry(term, c), boot); }
    case OpCommit(index, term, acks) => if CommitTo(s, index).Some? { CommitKept(s, index, boot); }
    case OpCommitCount(index, term, k, n) => if CommitTo(s, index).Some? { CommitKept(s, index, boot); }
    case OpCompact => CompactKept(s, boot);
    case OpInstall(r) => InstallReopensIff(s, self, r, boot);
  }

  /** A kept state reopens unchanged. */
  lemma KeptReopens(s: Store, boot: nat)
    requires Keeps(s, boot)
    ensures Reopen(s, boot) == Some(s)
  {
    hide ValidEntry, ReplayAll, ValidView, Canonical;
  }

  lemma {:induction false} RunKeeps(self: NodeId, ops: seq<Op>, boot: nat)
    requires boot >= 1 && AllFit(self, ops, boot)
    ensures Keeps(PerformAll(Fresh(boot), self, ops), boot)
    decreases |ops|
  {
    if ops != [] {
      hide Keeps, Perform, Fits;
      RunKeeps(self, ops[..|ops| - 1], boot);
      PerformKeeps(PerformAll(Fresh(boot), self, ops[..|ops| - 1]), self, ops[|ops| - 1], boot);
    } else {
      assert Fresh(boot).entries[..0] == [];
    }
  }

  /** Reopening never rejects its own state: after any operations the file is accepted and gives back the same state. */
  lemma ReopensOwnState(self: NodeId, ops: seq<Op>, boot: nat)
    requires boot >= 1 && AllFit(self, ops, boot)
    ensures Reopen(PerformAll(Fresh(boot), self, ops), boot) == Some(PerformAll(Fresh(boot), self, ops))
  {
    hide Keeps, Reopen;
    RunKeeps(self, ops, boot);
    KeptReopens(PerformAll(Fresh(boot), self, ops), boot);
  }

  function BeginJoin(self: NodeId, joining: NodeId): Op
  {
    OpAppend(AppendRequest(1, self, 0, 0,
        [Entry(1, Command(BeginJoint, 1, View("", "", "", NoManifest), [self], [self, joining]))], 1))
  }

  function NewerSnapshot(self: NodeId, view: View): Op
  {
    OpInstall(SnapshotRequest(1, self, Snapshot(2, 1, 2, [self], Some(view))))
  }

  function HalfJoined(self: NodeId, joining: NodeId): Store
  {
    Fresh(1).(currentTerm := 1, commitIndex := 1, voters := [self], jointOld := [self], jointNew := [self, joining],
              entries := BeginJoin(self, joining).append.entries)
  }

  /**
   * A snapshot installed between the two entries of a membership change is written, and the next open refuses the file.
   */
  lemma HalfChangeRefused(self: NodeId, joining: NodeId, view: View)
    requires ValidNodeId(self) && ValidNodeId(joining) && Less(self, joining) && ValidView(view)
    ensures var s := PerformAll(Fresh(1), self, [BeginJoin(self, joining)]);
            var o := InstallSnapshot(s, self, NewerSnapshot(self, view).install);
            Reopen(s, 1) == Some(s) && o.durable && Reopen(o.store, 1) == None
  {
    hide ValidView, ValidNodeId, Reopen, PerformAll, HalfJoined, InstallSnapshot, Less, Fits;
    JoinBegun(self, joining);
    OneOp(self, BeginJoin(self, joining));
    assert AllFit(self, [BeginJoin(self, joining)], 1);
    ReopensOwnState(self, [BeginJoin(self, joining)], 1);
    InstalledHalfWay(self, joining, view);
    JointRefused(InstallSnapshot(HalfJoined(self, joining), self, NewerSnapshot(self, view).install).store);
  }

  lemma OneOp(self: NodeId, op: Op)
    requires !op.OpInstall?
    ensures PerformAll(Fresh(1), self, [op]) == Perform(Fresh(1), self, op) && AllFit(self, [op], 1)
  {
    hide Perform;
    assert [op][..0] == [];
  }

  lemma InstalledHalfWay(self: NodeId, joining: NodeId, view: View)
    requires ValidNodeId(self) && ValidView(view)
    ensures var o := InstallSnapshot(HalfJoined(self, joining), self, NewerSnapshot(self, view).install);
            o.durable && o.store.jointOld == [self] && o.store.snapshotIndex == o.store.commitIndex
  {
    hide ValidView, ValidNodeId;
  }

  lemma JointRefused(s: Store)
    requires s.jointOld != [] && s.snapshotIndex == s.commitIndex
    ensures Reopen(s, 1) == None
  {
    hide ValidEntry, ViewFits, ConfigFits;
    assert s.entries[..0] == [];
  }

  lemma JoinValid(self: NodeId, joining: NodeId)
    requires ValidNodeId(self) && ValidNodeId(joining) && Less(self, joining)
    ensures ValidEntry(BeginJoin(self, joining).append.entries[0])
  {
    hide ValidNodeId;
    LessIrreflexive(self);
    assert Elements([self]) - Elements([self, joining]) == {}
        && Elements([self, joining]) - Elements([self]) == {joining};
  }

  lemma JoinCommits(s: Store, e: Entry, self: NodeId, joining: NodeId)
    requires s == Fresh(1).(currentTerm := 1, entries := [e]) && e == BeginJoin(self, joining).append.entries[0]
    ensures CommitTo(s, 1) == Some(HalfJoined(self, joining))
  {
    assert s.entries[0..1] == [e] && [e][1..] == [] && BeginJoin(self, joining).append.entries == [e];
    assert Apply(MachineOf(s), e.command) == Some(Machine(1, None, [self], [self], [self, joining]));
    assert ApplyAll(MachineOf(s), [e]) == Apply(MachineOf(s), e.command);
  }

  lemma JoinBegun(self: NodeId, joining: NodeId)
    requires ValidNodeId(self) && ValidNodeId(joining) && Less(self, joining)
    ensures Perform(Fresh(1), self, BeginJoin(self, joining)) == HalfJoined(self, joining)
  {
    hide ValidNodeId, ValidEntry, Less;
    var r := BeginJoin(self, joining).append;
    var e, s := r.entries[0], Raise(Fresh(1), 1);
    JoinValid(self, joining);
    assert r.entries == [e] && [e][1..] == [];
    assert AppendLoop(s.entries, 0, 0, [e]) == ([e], true) by { assert s.entries[..0] + [e] == [e]; }
    assert AppendEntries(Fresh(1), r) == Follow(s.(entries := [e]), r);
    JoinCommits(s.(entries := [e]), e, self, joining);
  }

  /* ---------- runs, cut and extended ---------- */

  lemma OneMoreOp(self: NodeId, ops: seq<Op>, op: Op, boot: nat)
    ensures PerformAll(Fresh(boot), self, ops + [op]) == Perform(PerformAll(Fresh(boot), self, ops), self, op)
  {
    hide Perform;
    assert (ops + [op])[..|ops|] == ops;
  }

  lemma {:induction false} FitsBefore(self: NodeId, ops: seq<Op>, n: nat, boot: nat)
    requires AllFit(self, ops, boot) && n <= |ops|
    ensures AllFit(self, ops[..n], boot)
    decreases |ops|
  {
    hide Fits;
    if n < |ops| {
      FitsBefore(self, ops[..|ops| - 1], n, boot);
      assert ops[..|ops| - 1][..n] == ops[..n];
    } else {
      assert ops[..n] == ops;
    }
  }
}
