/**
 What the check on open accepts, told command by command: no replay, only how each committed command follows the one
 before it and how the last one fits the rest of the file.
 */
module RaftCheck {
  import opened Collections
  import opened RaftTypes
  import opened RaftSpec
  import opened RaftReopen

  /** The epoch and the view before the command at `i`. */
  function EpochBefore(log: Log, i: nat, epoch: nat): nat
    requires i <= |log|
  {
    if i == 0 then epoch else log[i - 1].command.epoch
  }

  /** A membership change is under way before the command at `i`. */
  predicate Changing(log: Log, i: nat)
    requires i <= |log|
  {
    i > 0 && log[i - 1].command.kind == BeginJoint
  }

  /** The command at `i` may follow the one before it, or a snapshot of this epoch and view. */
  predicate Legal(log: Log, i: nat, epoch: nat, view: Option<View>)
    requires i < |log|
  {
    var c, before := log[i].command, EpochBefore(log, i, epoch);
    match c.kind
    case AdvanceEpoch =>
      && !Changing(log, i) && (c.epoch == before + 1 || c.epoch == before)
      && (c.epoch == before ==> if i == 0 then view == Some(c.view) else log[i - 1].command.view == c.view)
    case BeginJoint => !Changing(log, i) && c.epoch == before
    case FinalizeJoint =>
      && Changing(log, i) && c.epoch == before + 1
      && c.oldVoters == log[i - 1].command.oldVoters && c.newVoters == log[i - 1].command.newVoters
    case UnknownKind => true
  }

  ghost predicate AllLegal(log: Log, epoch: nat, view: Option<View>)
  {
    forall i :: 0 <= i < |log| ==> Legal(log, i, epoch, view)
  }

  /** The view after the log: that of its last command, or of the one before a begun change. */
  function ViewAfter(log: Log, view: Option<View>): Option<View>
  {
    var n := |log|;
    if n == 0 then view
    else if log[n - 1].command.kind != BeginJoint then Some(log[n - 1].command.view)
    else if n == 1 then view
    else Some(log[n - 2].command.view)
  }

  /** The voters the last command about membership says are in force; none if there is no such command. */
  function VotersAfter(log: Log): seq<NodeId>
  {
    if log == [] then []
    else
      var c := log[|log| - 1].command;
      match c.kind
      case BeginJoint => c.oldVoters
      case FinalizeJoint => c.newVoters
      case _ => VotersAfter(log[..|log| - 1])
  }

  /** The metadata a legal log ends with. */
  function Final(log: Log, epoch: nat, view: Option<View>): Machine
  {
    var n := |log|;
    Machine(EpochBefore(log, n, epoch), ViewAfter(log, view), VotersAfter(log),
        if Changing(log, n) then log[n - 1].command.oldVoters else [],
        if Changing(log, n) then log[n - 1].command.newVoters else [])
  }

  ghost predicate AllValid(log: Log)
  {
    forall e :: e in log ==> ValidEntry(e)
  }

  lemma LegalPrefix(log: Log, epoch: nat, view: Option<View>, n: nat)
    requires n < |log|
    ensures AllLegal(log[..n + 1], epoch, view) <==>
            AllLegal(log[..n], epoch, view) && Legal(log[..n + 1], n, epoch, view)
  {
    var a, b := log[..n], log[..n + 1];
    forall i | 0 <= i < n
        ensures Legal(a, i, epoch, view) <==> Legal(b, i, epoch, view) { LegalSame(a, b, i, epoch, view); }
    if AllLegal(b, epoch, view) {
      forall i | 0 <= i < n ensures Legal(a, i, epoch, view) { assert Legal(b, i, epoch, view); }
    }
    if AllLegal(a, epoch, view) && Legal(b, n, epoch, view) {
      forall i | 0 <= i < |b| ensures Legal(b, i, epoch, view) { assert i < n ==> Legal(a, i, epoch, view); }
    }
  }

  lemma LegalSame(a: Log, b: Log, i: nat, epoch: nat, view: Option<View>)
    requires i < |a| && i < |b| && a[i] == b[i] && (i > 0 ==> a[i - 1] == b[i - 1])
    ensures Legal(a, i, epoch, view) <==> Legal(b, i, epoch, view)
  {
  }

  /** One more command: it replays exactly if it is legal, and to what the longer log says. */
  lemma ReplayOne(log: Log, epoch: nat, view: Option<View>)
    requires log != [] && AllValid(log) && AllLegal(log[..|log| - 1], epoch, view)
    ensures var n := |log| - 1; var r := Replay(Final(log[..n], epoch, view), log[n].command);
            && (r.Some? <==> Legal(log, n, epoch, view))
            && (r.Some? ==> r.value == Final(log, epoch, view))
  {
    hide Canonical, ValidView, Difference;
    var n := |log| - 1;
    assert log[n] in log && ValidEntry(log[n]) && Nonempty(log[n]);
    if n > 0 {
      assert log[n - 1] in log && ValidEntry(log[n - 1]);
      assert log[..n][n - 1] == log[n - 1];
      assert Legal(log[..n], n - 1, epoch, view);
      assert Nonempty(log[n - 1]);
      if n > 1 { assert log[..n][n - 2] == log[n - 2] && log[n - 2] in log && ValidEntry(log[n - 2]); }
    }
  }

  /** A membership command names voters. */
  predicate Nonempty(e: Entry)
    ensures ValidEntry(e) ==> Nonempty(e)
  {
    e.command.kind == BeginJoint || e.command.kind == FinalizeJoint ==>
      e.command.oldVoters != [] && e.command.newVoters != []
  }

  /** Replaying from a snapshot succeeds exactly if every command is legal, and ends with what the last ones say. */
  lemma {:induction false} ReplayExact(log: Log, epoch: nat, view: Option<View>)
    requires AllValid(log)
    ensures var r := ReplayAll(Machine(epoch, view, [], [], []), log);
            && (r.Some? <==> AllLegal(log, epoch, view))
            && (r.Some? ==> r.value == Final(log, epoch, view))
    decreases |log|
  {
    hide ValidEntry, Legal, Replay, Final;
    if log == [] {
      NothingReplayed(epoch, view);
    } else {
      var n := |log| - 1;
      var m := Machine(epoch, view, [], [], []);
      ReplayExact(log[..n], epoch, view);
      LegalPrefix(log, epoch, view, n);
      assert log[..n + 1] == log && log == log[..n] + [log[n]];
      ReplayAllConcat(m, log[..n], [log[n]]);
      if AllLegal(log[..n], epoch, view) {
        ReplayOne(log, epoch, view);
        OneReplayed(Final(log[..n], epoch, view), log[n]);
      }
    }
  }

  lemma NothingReplayed(epoch: nat, view: Option<View>)
    ensures ReplayAll(Machine(epoch, view, [], [], []), []) == Some(Final([], epoch, view))
  {
  }

  lemma OneReplayed(m: Machine, e: Entry)
    ensures ReplayAll(m, [e]) == Replay(m, e.command)
  {
    assert [e][1..] == [];
  }

  /** What the file itself must satisfy, whatever its log says. */
  ghost predicate WellFormed(s: Store, boot: nat)
  {
    && boot <= s.snapshotEpoch && boot <= s.appliedEpoch && s.snapshotIndex <= s.commitIndex <= LastIndex(s)
    && (s.snapshotIndex == 0 <==> s.snapshotTerm == 0)
    && (s.snapshotView.None? <==> s.snapshotEpoch == boot) && (s.snapshotView.Some? ==> ValidView(s.snapshotView.value))
    && (s.voters != [] ==> Canonical(s.voters))
    && (s.jointOld == [] <==> s.jointNew == [])
    && (s.jointOld != [] ==> s.voters == s.jointOld && Canonical(s.jointNew))
    && AllValid(s.entries)
  }

  /** The state as it is taken up: a file from before there were snapshots gets the bootstrap epoch. */
  function TakenUp(file: Store, boot: nat): Store
  {
    if file.snapshotEpoch == 0 && file.snapshotIndex == 0 then file.(snapshotEpoch := boot) else file
  }

  /**
   * A file is accepted if and only if it is well formed, every committed command is legal, and epoch, view, voters and
   * membership change are what the last commands say; a missing view is filled in.
   */
  lemma ReopenIff(file: Store, boot: nat)
    ensures var s := TakenUp(file, boot); var log := Committed(s);
            && (Reopen(file, boot).Some? <==>
                  && WellFormed(s, boot) && AllLegal(log, s.snapshotEpoch, s.snapshotView)
                  && var m := Final(log, s.snapshotEpoch, s.snapshotView);
                  && s.appliedEpoch == m.epoch && s.jointOld == m.jointOld && s.jointNew == m.jointNew
                  && (m.voters != [] ==> s.voters == m.voters)
                  && (s.committedView.Some? ==> s.committedView == m.view))
            && (Reopen(file, boot).Some? ==>
                  Reopen(file, boot).value == s.(committedView := ViewAfter(log, s.snapshotView)))
  {
    hide ValidEntry, Legal, ReplayAll, ValidView, Canonical;
    var s := TakenUp(file, boot);
    CanonicalNonempty();
    if s.snapshotIndex <= s.commitIndex <= LastIndex(s) && AllValid(s.entries) {
      ValidTake(s.entries, s.commitIndex - s.snapshotIndex);
      ReplayExact(Committed(s), s.snapshotEpoch, s.snapshotView);
    }
  }

  function Committed(s: Store): Log
  {
    if s.snapshotIndex <= s.commitIndex <= LastIndex(s) then s.entries[..s.commitIndex - s.snapshotIndex] else []
  }

  lemma ValidTake(log: Log, n: nat)
    requires AllValid(log) && n <= |log|
    ensures AllValid(log[..n])
  {
    hide ValidEntry;
  }

  lemma CanonicalNonempty()
    ensures !Canonical([])
  {
  }
}
