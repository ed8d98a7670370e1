/**
 What a store answers, told from its whole log: when each operation is granted, when it is refused, and what it leaves
 behind in either case.
 */
module RaftAnswers {
  import opened Collections
  import opened RaftTypes
  import opened RaftSpec
  import opened RaftRefinement
  import opened FullLog
  import RaftReopen
  import RaftSimulation

  /* ---------- votes ---------- */

  /** Of two logs one is always up to date for the other, and both are only if they end alike. */
  lemma UpToDateTotal(a: Log, b: Log)
    ensures UpToDate(a, b) || UpToDate(b, a)
    ensures UpToDate(a, b) && UpToDate(b, a) <==> LastTerm(a) == LastTerm(b) && |a| == |b|
    ensures LastTerm(a) > LastTerm(b) ==> UpToDate(a, b)
  {
  }

  lemma UpToDateTransitive(a: Log, b: Log, c: Log)
    requires UpToDate(a, b) && UpToDate(b, c)
    ensures UpToDate(a, c)
  {
  }

  /**
   * A vote is granted if and only if the request is current and from a voter, the log it stands for is up to date for
   * the own one, and the vote of its term is free or already the candidate's. The term is adopted either way.
   */
  lemma VoteAnswer(s: Store, log: Log, r: VoteRequest, clog: Log)
    requires Represents(s, log) && |clog| == r.lastIndex && LastTerm(clog) == r.lastTerm
    ensures var o := RequestVote(s, r);
            && (o.reply.Err? <==> !ValidNodeId(r.candidate) || r.term == 0)
            && (o.reply.Err? ==> o == Outcome(s, false, Err))
            && (o.reply.Ok? ==>
                  var current := (s.voters == [] || Active(s, r.candidate)) && r.term >= s.currentTerm;
                  var free := r.term > s.currentTerm || s.votedFor == "" || s.votedFor == r.candidate;
                  && (o.reply.value.granted <==> current && UpToDate(clog, log) && free)
                  && o.reply.value.term == o.store.currentTerm && (o.durable <==> o.store != s)
                  && (!current ==> o.store == s)
                  && (current ==>
                        o.store == s.(currentTerm := r.term,
                                      votedFor := if o.reply.value.granted then r.candidate
                                                  else if r.term > s.currentTerm then "" else s.votedFor)))
  {
    hide ValidNodeId, LastTerm;
    LastAnswers(s, log);
  }

  /** The candidate's own request stands for its whole log. */
  lemma ElectionAnswer(s: Store, log: Log, self: NodeId)
    requires Represents(s, log)
    ensures var o := BeginElection(s, self);
            && (o.reply.Ok? <==> s.voters == [] || Active(s, self))
            && (o.reply.Err? ==> o == Outcome(s, false, Err))
            && (o.reply.Ok? ==>
                  && o.durable && o.store == s.(currentTerm := s.currentTerm + 1, votedFor := self)
                  && o.reply.value == VoteRequest(s.currentTerm + 1, self, |log|, LastTerm(log)))
  {
    hide LastTerm;
    LastAnswers(s, log);
  }

  /** Among any nodes there is one whose log is up to date for all of them. */
  lemma {:induction false} Foremost(logs: map<NodeId, Log>) returns (n: NodeId)
    requires logs != map[]
    ensures n in logs && forall v :: v in logs ==> UpToDate(logs[n], logs[v])
    decreases |logs|
  {
    hide UpToDate;
    var x :| x in logs;
    var rest := logs - {x};
    UpToDateTotal(logs[x], logs[x]);
    if rest == map[] {
      assert forall v :: v in logs ==> v == x by { OnlyOne(logs, x); }
      return x;
    }
    Smaller(logs, x);
    n := Foremost(rest);
    UpToDateTotal(logs[x], logs[n]);
    if !UpToDate(logs[n], logs[x]) {
      forall v | v in logs ensures UpToDate(logs[x], logs[v])
      {
        if v != x {
          assert v in rest;
          UpToDateTransitive(logs[x], logs[n], logs[v]);
        }
      }
      n := x;
    } else {
      forall v | v in logs ensures UpToDate(logs[n], logs[v]) { assert v != x ==> v in rest; }
    }
  }

  lemma OnlyOne(logs: map<NodeId, Log>, x: NodeId)
    requires logs - {x} == map[]
    ensures forall v :: v in logs ==> v == x
  {
    forall v | v in logs ensures v == x { assert v != x ==> v in logs - {x}; }
  }

  lemma Smaller(logs: map<NodeId, Log>, x: NodeId)
    requires x in logs
    ensures |logs - {x}| < |logs|
  {
    assert (logs - {x}).Keys == logs.Keys - {x};
    assert |(logs - {x}).Keys| == |logs - {x}| && |logs.Keys| == |logs|;
  }

  /* ---------- appending ---------- */

  /** The request matches the retained log at its previous index. */
  ghost predicate Known(s: Store, log: Log, r: AppendRequest)
  {
    s.snapshotIndex <= r.prevIndex <= |log| && TermAt(log, r.prevIndex) == r.prevTerm
  }

  /** Taking the batch keeps what is committed, and everything the leader says is committed replays. */
  ghost predicate Harmless(boot: Machine, commit: nat, log: Log, r: AppendRequest)
  {
    && ValidNodeId(r.leader) && r.term > 0 && |r.entries| <= 1024 && (forall e :: e in r.entries ==> ValidEntry(e))
    && (r.prevIndex <= |log| ==>
          var m := Merge(log, r.prevIndex, r.entries);
          && commit <= |log| && commit <= |m| && m[..commit] == log[..commit]
          && ApplyAll(boot, m[..Min(r.leaderCommit, |m|)]).Some?)
  }

  /**
   * A request that does no harm is accepted if and only if it is current, from a voter, and matches the log at its
   * previous index. The log is then the merge, and committed as far as the leader says and the log reaches.
   */
  lemma AppendAnswer(boot: Machine, s: Store, log: Log, r: AppendRequest)
    requires Represents(s, log) && Harmless(boot, s.commitIndex, log, r)
    requires s.commitIndex <= |log| && ApplyAll(boot, log[..s.commitIndex]) == Some(MachineOf(s))
    ensures var o, current := AppendEntries(s, r), (s.voters == [] || Active(s, r.leader)) && r.term >= s.currentTerm;
            && o.reply.Ok? && (o.reply.value.success <==> current && Known(s, log, r))
            && (!current ==> o == Outcome(s, false, Ok(AppendResponse(s.currentTerm, false, 0))))
            && (current && !Known(s, log, r) ==>
                  o == Outcome(Raise(s, r.term), true, Ok(AppendResponse(r.term, false, 0))))
            && (current && Known(s, log, r) ==>
                  && o.durable && o.reply.value == AppendResponse(r.term, true, r.prevIndex + |r.entries|)
                  && Took(boot, Raise(s, r.term), Merge(log, r.prevIndex, r.entries), r, o.store))
  {
    hide ApplyAll, AppendAt, Merge, Harmless, Took, ValidNodeId;
    assert ValidNodeId(r.leader) && r.term > 0 && |r.entries| <= 1024 by { HarmlessForm(boot, s, log, r); }
    TermAnswers(s, log, r.prevIndex);
    LastAnswers(s, log);
    if Known(s, log, r) { TakesBatch(boot, Raise(s, r.term), log, r); }
  }

  lemma HarmlessForm(boot: Machine, s: Store, log: Log, r: AppendRequest)
    requires Harmless(boot, s.commitIndex, log, r)
    ensures ValidNodeId(r.leader) && r.term > 0 && |r.entries| <= 1024
  {
    hide ApplyAll, Merge;
  }

  /** `t` is `s` with the whole log `m`, committed as far as the leader says and the log reaches. */
  ghost predicate Took(boot: Machine, s: Store, m: Log, r: AppendRequest, t: Store)
  {
    && Represents(t, m) && t.currentTerm == s.currentTerm && t.votedFor == s.votedFor
    && t.snapshotIndex == s.snapshotIndex && t.snapshotEpoch == s.snapshotEpoch && t.snapshotView == s.snapshotView
    && t.commitIndex == Max(s.commitIndex, Min(r.leaderCommit, |m|))
    && ApplyAll(boot, m[..t.commitIndex]) == Some(MachineOf(t))
  }

  function Clamped(r: AppendRequest, n: nat): AppendRequest
  {
    r.(leaderCommit := Min(r.leaderCommit, n))
  }

  /** A commit index beyond the log counts as the end of the log. */
  lemma ClampSame(s: Store, log: Log, r: AppendRequest)
    requires s.snapshotIndex == 0 && s.commitIndex <= |log| && r.prevIndex <= |log|
             && s.entries == log
    requires var (m, done) := AppendLoop(log, s.commitIndex, r.prevIndex, r.entries); done && s.commitIndex <= |m|
    ensures var m := AppendLoop(log, s.commitIndex, r.prevIndex, r.entries).0;
            AppendAt(s, r) == AppendAt(s, Clamped(r, |m|))
  {
    hide AppendLoop, ApplyAll;
  }

  lemma TakesBatch(boot: Machine, s: Store, log: Log, r: AppendRequest)
    requires Represents(s, log) && Harmless(boot, s.commitIndex, log, r) && Known(s, log, r)
    requires s.commitIndex <= |log| && ApplyAll(boot, log[..s.commitIndex]) == Some(MachineOf(s))
    ensures s.snapshotIndex <= r.prevIndex <= LastIndex(s)
    ensures var o := AppendAt(s, r);
            && o.durable && o.reply == Ok(AppendResponse(s.currentTerm, true, r.prevIndex + |r.entries|))
            && Took(boot, s, Merge(log, r.prevIndex, r.entries), r, o.store)
  {
    hide ApplyAll, AppendAt, Merge, AppendLoop, ValidEntry, ValidNodeId;
    LastAnswers(s, log);
    AppendAtSame(s, log, r);
    var full, m := Expand(s, log), Merge(log, r.prevIndex, r.entries);
    LoopMerges(log, s.commitIndex, r.prevIndex, r.entries);
    ClampSame(full, log, r);
    RaftSimulation.AppendFull(boot, full, log, Clamped(r, |m|));
  }

  /**
   * A command is appended exactly by who voted for itself in the current term, once while it is the uncommitted end.
   */
  lemma CommandAnswer(s: Store, log: Log, self: NodeId, term: nat, c: Command)
    requires Represents(s, log)
    ensures var o, e := AppendCommand(s, self, term, c), Entry(term, c);
            && (o.reply.Ok? <==> 0 < term == s.currentTerm && s.votedFor == self && ValidEntry(e))
            && (o.reply.Err? ==> o == Outcome(s, false, Err))
            && (o.reply.Ok? ==>
                  var again := s.commitIndex < |log| && log[|log| - 1] == e;
                  var l := if again then log else log + [e];
                  && Represents(o.store, l) && o.store == s.(entries := o.store.entries) && (o.durable <==> !again)
                  && o.reply.value == |l| && l[|l| - 1] == e)
  {
    hide ValidEntry;
    var e := Entry(term, c);
    assert (log + [e])[s.snapshotIndex..] == log[s.snapshotIndex..] + [e];
    RaftRefinement.TermSplit(log, log + [e], s.snapshotIndex);
  }

  /* ---------- committing and compacting ---------- */

  /**
   * An index is committed if and only if a quorum holds it, it is of the current term, and the log up to it replays.
   */
  lemma CommitAnswer(s: Store, log: Log, index: nat, term: nat, acks: set<NodeId>)
    requires Represents(s, log)
    ensures var o, to := CommitWithVoterAcks(s, index, term, acks), Max(s.commitIndex, index);
            && (o.reply.Ok? <==>
                  && HasQuorum(s, acks) && term == s.currentTerm && s.snapshotIndex < index <= |log|
                  && log[index - 1].term == term && ApplyAll(MachineOf(s), log[s.commitIndex..to]).Some?)
            && (o.reply.Err? ==> o == Outcome(s, false, Err))
            && (o.reply.Ok? ==>
                  && o.durable && Represents(o.store, log) && to <= |log|
                  && o.store == WithMachine(s, ApplyAll(MachineOf(s), log[s.commitIndex..to]).value, to))
  {
    hide ApplyAll, HasQuorum;
    TermAnswers(s, log, index);
    LastAnswers(s, log);
    if s.snapshotIndex < index <= |log| {
      if index > s.commitIndex {
        DropSlice(log, s.snapshotIndex, s.commitIndex - s.snapshotIndex, index - s.snapshotIndex);
      } else {
        assert log[s.commitIndex..s.commitIndex] == [];
        NothingApplies(MachineOf(s), log[s.commitIndex..s.commitIndex]);
      }
    }
  }

  lemma NothingApplies(m: Machine, log: Log)
    requires log == []
    ensures ApplyAll(m, log) == Some(m)
  {
  }

  /** Commit by counts asks the same of the log, outside a membership change, with a strict majority of the count. */
  lemma CountAnswer(s: Store, log: Log, index: nat, term: nat, acknowledged: nat, voters: nat)
    requires Represents(s, log)
    ensures var o, to := RaftReopen.CommitWithQuorum(s, index, term, acknowledged, voters), Max(s.commitIndex, index);
            && (o.reply.Ok? <==>
                  && s.jointOld == [] && 0 < voters < 2 * acknowledged && term == s.currentTerm
                  && s.snapshotIndex < index <= |log| && log[index - 1].term == term
                  && ApplyAll(MachineOf(s), log[s.commitIndex..to]).Some?)
            && (o.reply.Err? ==> o == Outcome(s, false, Err))
            && (o.reply.Ok? ==>
                  && o.durable && Represents(o.store, log) && to <= |log|
                  && o.store == WithMachine(s, ApplyAll(MachineOf(s), log[s.commitIndex..to]).value, to))
  {
    hide ApplyAll;
    TermAnswers(s, log, index);
    LastAnswers(s, log);
    if s.snapshotIndex < index <= |log| {
      if index > s.commitIndex {
        DropSlice(log, s.snapshotIndex, s.commitIndex - s.snapshotIndex, index - s.snapshotIndex);
      } else {
        assert log[s.commitIndex..s.commitIndex] == [];
        NothingApplies(MachineOf(s), log[s.commitIndex..s.commitIndex]);
      }
    }
  }

  /** Voters are configured once, as a list of valid distinct nodes that names the own one, and confirmed afterwards. */
  lemma ConfigureAnswer(s: Store, self: NodeId, ids: seq<NodeId>)
    ensures var o := RaftReopen.ConfigureVoters(s, self, ids);
            && (o.reply.Ok? <==>
                  && ids != [] && Distinct(ids) && (forall id :: id in ids ==> ValidNodeId(id)) && self in ids
                  && (s.voters != [] ==> s.voters == RaftReopen.Sort(ids)))
            && (o.durable <==> o.reply.Ok? && s.voters == [])
            && o.store == (if o.durable then s.(voters := RaftReopen.Sort(ids)) else s)
            && (o.reply.Ok? ==> Canonical(o.store.voters) && multiset(o.store.voters) == multiset(ids))
  {
    hide ValidNodeId, Canonical, RaftReopen.Sort, Distinct;
    RaftReopen.NormalizeExact(ids);
    if RaftReopen.Normalize(ids).Some? { RaftReopen.SameElements(ids, RaftReopen.Sort(ids)); }
  }

  /** Outside a membership change, compaction leaves exactly the entries above the commit index. */
  lemma CompactAnswer(s: Store, log: Log)
    requires Represents(s, log)
    ensures var o := CompactCommitted(s);
            && (o.reply.Ok? <==> s.jointOld == []) && (o.reply.Err? ==> o == Outcome(s, false, Err))
            && (o.reply.Ok? ==>
                  && o.store.snapshotIndex == o.store.commitIndex == s.commitIndex
                  && o.store.entries == log[s.commitIndex..] && o.store.snapshotTerm == TermAt(log, s.commitIndex)
                  && MachineOf(o.store) == MachineOf(s) && (o.durable <==> s.snapshotIndex < s.commitIndex)
                  && (o.durable ==> o.store.snapshotEpoch == s.appliedEpoch && o.store.snapshotView == s.committedView))
  {
    TermAnswers(s, log, s.commitIndex);
    DropAgain(log, s.snapshotIndex, s.commitIndex);
  }

  lemma DropAgain(log: Log, i: nat, j: nat)
    requires i <= j <= |log|
    ensures log[i..][j - i..] == log[j..]
  {
  }

  /* ---------- installing ---------- */

  /**
   * A snapshot is taken if and only if it is well formed, of the own voters, and its request current and from one of
   * them; what it covers is committed, and the log goes on above it if it holds the snapshot's last entry.
   */
  lemma InstallAnswer(s: Store, log: Log, self: NodeId, r: SnapshotRequest, snap: Log)
    requires Represents(s, log) && |snap| == r.snapshot.index && LastTerm(snap) == r.snapshot.term
    ensures var o, p := InstallSnapshot(s, self, r), r.snapshot;
            var stranger := s.voters != [] && r.leader !in s.voters;
            && (o.reply.Err? <==>
                  || !ValidNodeId(r.leader) || r.term == 0
                  || (!stranger && (!ValidSnapshot(p, self) || (s.voters != [] && s.voters != p.voters))))
            && (o.reply.Err? ==> o == Outcome(s, false, Err))
            && (o.reply.Ok? ==>
                  && (o.reply.value.success <==> !stranger && r.term >= s.currentTerm)
                  && (!o.reply.value.success ==> o == Outcome(s, false, Ok(SnapshotResponse(s.currentTerm, false, 0)))))
            && (o.reply.Ok? && o.reply.value.success ==>
                  && o.durable && o.reply.value == SnapshotResponse(r.term, true, Max(s.commitIndex, p.index))
                  && (p.index <= s.commitIndex ==> o.store == Raise(s, r.term))
                  && (p.index > s.commitIndex ==> Replaced(Raise(s, r.term), p, Installed(log, snap), o.store)))
  {
    hide ValidNodeId, ValidSnapshot, Replaced, Represents, Installed, LastTerm;
    if r.snapshot.index > s.commitIndex { InstallReplaces(s, log, self, r, snap); }
  }

  /** `t` is `s` with the snapshot in place of everything up to its index, of the whole log `l`. */
  ghost predicate Replaced(s: Store, p: Snapshot, l: Log, t: Store)
  {
    && Represents(t, l) && t.snapshotIndex == t.commitIndex == p.index
    && t.snapshotEpoch == p.epoch && t.snapshotView == p.view
    && MachineOf(t) == Machine(p.epoch, p.view, p.voters, s.jointOld, s.jointNew)
    && t.currentTerm == s.currentTerm && t.votedFor == s.votedFor
  }

  lemma InstallReplaces(s: Store, log: Log, self: NodeId, r: SnapshotRequest, snap: Log)
    requires Represents(s, log) && |snap| == r.snapshot.index && LastTerm(snap) == r.snapshot.term
    requires r.snapshot.index > s.commitIndex
    ensures var o := InstallSnapshot(s, self, r);
            o.reply.Ok? && o.reply.value.success ==>
              Replaced(Raise(s, r.term), r.snapshot, Installed(log, snap), o.store)
  {
    hide ValidNodeId, ValidSnapshot;
    var p := r.snapshot;
    TermAnswers(s, log, p.index);
    LastAnswers(s, log);
    if p.index <= |log| { DropAgain(log, s.snapshotIndex, p.index); }
    assert snap[|snap|..] == [];
  }

  /* ---------- the replicated metadata ---------- */

  /** The next epoch applies outside a membership change; once more it changes nothing, another view is refused. */
  lemma AdvanceApplies(m: Machine, view: View, other: View)
    requires m.jointOld == []
    ensures var c := Command(AdvanceEpoch, m.epoch + 1, view, [], []);
            && Apply(m, c) == Some(m.(epoch := m.epoch + 1, view := Some(view)))
            && Apply(Apply(m, c).value, c) == Apply(m, c)
            && (other != view ==> Apply(Apply(m, c).value, c.(view := other)) == None)
  {
  }

  /** A membership change that begins from the voters in force and ends with the same lists always applies. */
  lemma JointApplies(m: Machine, before: seq<NodeId>, after: seq<NodeId>, view: View)
    requires m.jointOld == [] && (m.voters == [] || m.voters == before)
    ensures var begin := Command(BeginJoint, m.epoch, view, before, after);
            var end := Command(FinalizeJoint, m.epoch + 1, view, before, after);
            && Apply(m, begin) == Some(m.(voters := before, jointOld := before, jointNew := after))
            && Apply(Apply(m, begin).value, end) == Some(Machine(m.epoch + 1, Some(view), after, [], []))
  {
  }

  /** A command in the middle of a change that belongs to another one is refused. */
  lemma JointExcludes(m: Machine, c: Command)
    requires m.jointOld != []
    ensures Apply(m, c).Some? <==>
            c.kind == FinalizeJoint && c.epoch == m.epoch + 1 && c.oldVoters == m.jointOld && c.newVoters == m.jointNew
  {
  }

  lemma {:induction false} NeverApplies(m: Machine, a: Log, b: Log)
    requires a <= b && ApplyAll(m, a) == None
    ensures ApplyAll(m, b) == None
  {
    assert b == a + b[|a|..];
    ApplyAllConcat(m, a, b[|a|..]);
  }

  /**
   * Two different views proposed for one epoch, with no commit in between: from then on no index past the second one
   * can be committed on that log, whatever is appended and whoever acknowledges.
   */
  lemma SecondViewBlocks(s: Store, log: Log, e1: Entry, e2: Entry, rest: Log, index: nat, term: nat, acks: set<NodeId>)
    requires Represents(s, log + [e1, e2] + rest) && s.commitIndex == |log| && s.jointOld == []
    requires e1.command.kind == e2.command.kind == AdvanceEpoch && e1.command.view != e2.command.view
    requires e1.command.epoch == e2.command.epoch == s.appliedEpoch + 1
    ensures index >= |log| + 2 ==> CommitWithVoterAcks(s, index, term, acks).reply.Err?
  {
    hide ApplyAll, HasQuorum;
    var whole := log + [e1, e2] + rest;
    CommitAnswer(s, whole, index, term, acks);
    if |log| + 2 <= index <= |whole| {
      assert [e1, e2] <= whole[s.commitIndex..index];
      TwoViews(MachineOf(s), e1, e2);
      NeverApplies(MachineOf(s), [e1, e2], whole[s.commitIndex..index]);
    }
  }

  lemma TwoViews(m: Machine, e1: Entry, e2: Entry)
    requires e1.command.kind == e2.command.kind == AdvanceEpoch && e1.command.view != e2.command.view
    requires m.jointOld == [] && e1.command.epoch == e2.command.epoch == m.epoch + 1
    ensures ApplyAll(m, [e1, e2]) == None
  {
    assert [e1, e2][1..] == [e2];
    assert ApplyAll(Apply(m, e1.command).value, [e2]) == None;
  }

  /** A leader that proposes two views for the next epoch without a commit in between is left with such a log. */
  lemma ProposedTwice(s: Store, log: Log, self: NodeId, v1: View, v2: View)
    requires Represents(s, log) && s.commitIndex == |log| && s.currentTerm > 0 && s.votedFor == self
    requires ValidView(v1) && ValidView(v2) && v1 != v2 && s.appliedEpoch > 0
    ensures var c1 := Command(AdvanceEpoch, s.appliedEpoch + 1, v1, [], []);
            var o1 := AppendCommand(s, self, s.currentTerm, c1);
            var o2 := AppendCommand(o1.store, self, s.currentTerm, c1.(view := v2));
            && o1.reply.Ok? && o2.reply.Ok? && o2.store.commitIndex == |log| && MachineOf(o2.store) == MachineOf(s)
            && Represents(o2.store, log + [Entry(s.currentTerm, c1), Entry(s.currentTerm, c1.(view := v2))])
  {
    hide ValidView;
    var c1 := Command(AdvanceEpoch, s.appliedEpoch + 1, v1, [], []);
    var e1, e2 := Entry(s.currentTerm, c1), Entry(s.currentTerm, c1.(view := v2));
    assert ValidEntry(e1) && ValidEntry(e2);
    CommandAnswer(s, log, self, s.currentTerm, c1);
    CommandAnswer(AppendCommand(s, self, s.currentTerm, c1).store, log + [e1], self, s.currentTerm, c1.(view := v2));
    assert log + [e1] + [e2] == log + [e1, e2];
  }
}
