/**
 The commit clamp of an append request. A follower commits up to the smaller of
 the leader's commit index and its own last index. That is safe if the commit
 index does not pass the entries the request carries, and otherwise exactly if no
 older leader could have left another entry between the two: the clamp would land
 on the stale entry the batch did not reach.
 */
module RaftClamp {
  import opened Collections
  import opened RaftTypes
  import opened RaftSpec
  import opened RaftRefinement
  import opened FullLogInduction
  import opened RaftSimulation
  import FullLog
  import opened FullLogSafety

  /** Terms never fall along a log and stay up to `hi`. */
  ghost predicate Ordered(log: Log, hi: nat)
  {
    forall k :: 0 <= k < |log| ==> TermAt(log, k) <= log[k].term <= hi
  }

  /** A request cut out of the log `log` of the leader of its term. */
  ghost predicate CutFrom(r: AppendRequest, log: Log)
  {
    && ValidNodeId(r.leader) && r.term > 0 && |r.entries| <= 1024
    && r.prevIndex + |r.entries| <= |log| && r.entries == log[r.prevIndex..r.prevIndex + |r.entries|]
    && r.prevTerm == TermAt(log, r.prevIndex) && r.leaderCommit <= |log|
    && Good(log) && Ordered(log, r.term)
  }

  /** Entries of the leader's term come from the leader. */
  ghost predicate OnlyFrom(own: Log, term: nat, log: Log)
  {
    forall k :: 0 <= k < |own| && own[k].term == term ==> k < |log| && own[k].term == log[k].term
  }

  /** Each term has one writer: entries of one term in the two logs come with the same entries below them. */
  ghost predicate OneWriter(own: Log, log: Log)
  {
    forall i, j :: 0 <= i < |own| && 0 <= j < |log| && own[i].term == log[j].term ==>
      own[..FullLog.Min(i, j) + 1] == log[..FullLog.Min(i, j) + 1]
  }

  /** Whoever wrote an entry of a term above that of index `i` held the first `i` entries of `log`. */
  ghost predicate HeldAbove(own: Log, log: Log, i: nat)
    requires 0 < i <= |log|
  {
    forall k :: 0 <= k < |own| && own[k].term > log[i - 1].term ==> i <= k && own[..i] == log[..i]
  }

  /** The first `c` entries of the leader's log were committed by the leader that wrote some entry at or above them. */
  ghost predicate Complete(own: Log, log: Log, c: nat)
  {
    c == 0 || exists i :: c <= i <= |log| && HeldAbove(own, log, i)
  }

  /**
   A store with whole log `own` that has committed only leader entries: its terms
   are in order and up to its current term, each term has one writer, later writers
   held what was committed, and nothing of the request's term is from anyone but
   that leader.
   */
  ghost predicate Follows(s: Store, own: Log, boot: Machine, r: AppendRequest, log: Log)
  {
    && Represents(s, own) && Good(own) && Ordered(own, s.currentTerm) && s.currentTerm <= r.term
    && (s.voters == [] || Active(s, r.leader))
    && OneWriter(own, log) && Complete(own, log, r.leaderCommit) && OnlyFrom(own, r.term, log)
    && s.commitIndex <= |log| && own[..s.commitIndex] == log[..s.commitIndex]
    && ApplyAll(boot, own[..s.commitIndex]) == Some(MachineOf(s))
  }

  /** If the request succeeds, everything committed afterwards is the leader's. */
  ghost predicate CommitsLeaderOnly(s: Store, own: Log, r: AppendRequest, log: Log)
  {
    var o := AppendEntries(s, r);
    o.reply.Ok? && o.reply.value.success ==>
      && o.store.commitIndex <= |log|
      && exists whole :: Represents(o.store, whole) && whole[..o.store.commitIndex] == log[..o.store.commitIndex]
  }

  ghost predicate Safe(boot: Machine, r: AppendRequest, log: Log)
  {
    forall s, own :: Follows(s, own, boot, r, log) ==> CommitsLeaderOnly(s, own, r, log)
  }

  /** A group in a stable configuration whose metadata replays up to the leader's commit index. */
  ghost predicate Replays(boot: Machine, r: AppendRequest, log: Log)
  {
    && boot.epoch >= 1 && boot.jointOld == [] && boot.jointNew == [] && (boot.voters == [] || r.leader in boot.voters)
    && r.leaderCommit <= |log| && ApplyAll(boot, log[..r.leaderCommit]).Some?
  }

  /** A leader of term `u` could have left its own entry after the first `m` ones: the log goes on without its term. */
  ghost predicate Fits(log: Log, m: nat, u: nat)
    requires m < |log|
  {
    FullLog.Max(1, TermAt(log, m)) <= u < LastTerm(log) && forall j :: m <= j < |log| ==> log[j].term != u
  }

  ghost predicate Room(log: Log, m: nat)
    requires m < |log|
  {
    exists u :: Fits(log, m, u)
  }

  /** Between the end of the batch and the commit index there is no room for a stale entry. */
  ghost predicate NoRoom(r: AppendRequest, log: Log)
  {
    forall m :: r.prevIndex + |r.entries| <= m < r.leaderCommit && m < |log| ==> !Room(log, m)
  }

  /**
   Safe for every follower if and only if nowhere between the end of the batch
   and the commit index an older leader could have left another entry, which takes
   a term that the leader's log skips from there on; in particular safe if the batch
   reaches the commit index.
   */
  lemma ClampSafeIff(boot: Machine, r: AppendRequest, log: Log)
    requires CutFrom(r, log) && Replays(boot, r, log)
    ensures Safe(boot, r, log) <==> NoRoom(r, log)
    ensures r.leaderCommit <= r.prevIndex + |r.entries| ==> Safe(boot, r, log)
  {
    hide CutFrom, Replays, Follows, CommitsLeaderOnly, Room;
    if NoRoom(r, log) {
      forall s, own | Follows(s, own, boot, r, log)
          ensures CommitsLeaderOnly(s, own, r, log) { NothingStale(boot, r, log, s, own); }
    } else {
      var m :| r.prevIndex + |r.entries| <= m < r.leaderCommit && m < |log| && Room(log, m);
      var s := StaleFollower(boot, r, log, m);
      assert !(Follows(s, s.entries, boot, r, log) ==> CommitsLeaderOnly(s, s.entries, r, log));
    }
  }

  lemma NothingStale(boot: Machine, r: AppendRequest, log: Log, s: Store, own: Log)
    requires CutFrom(r, log) && Follows(s, own, boot, r, log) && NoRoom(r, log)
    ensures CommitsLeaderOnly(s, own, r, log)
  {
    hide AppendEntries, AppendAt, Good, ApplyAll, FullLog.LogsMatch, NoRoom, Ordered, OneWriter, Complete;
    var o := AppendEntries(s, r);
    if o.reply.Ok? && o.reply.value.success {
      SuccessReaches(s, r);
      var whole := FullLog.Merge(own, r.prevIndex, r.entries);
      OrderedRaise(own, s.currentTerm, r.term);
      WriterMatches(own, log);
      MergedStore(s, own, r, log);
      var c := o.store.commitIndex;
      assert Represents(o.store, whole) && c <= |log| && whole[..c] == log[..c];
    }
  }

  lemma SuccessReaches(s: Store, r: AppendRequest)
    requires AppendEntries(s, r).reply.Ok? && AppendEntries(s, r).reply.value.success
    ensures AppendReaches(s, r) && s.snapshotIndex <= r.prevIndex <= LastIndex(s)
    ensures AppendEntries(s, r) == AppendAt(Raise(s, r.term), r)
  {
    hide AppendAt;
  }

  lemma MergedStore(s: Store, own: Log, r: AppendRequest, log: Log)
    requires CutFrom(r, log) && NoRoom(r, log) && Represents(s, own) && Good(own) && AppendReaches(s, r)
    requires Ordered(own, r.term) && OneWriter(own, log) && Complete(own, log, r.leaderCommit)
    requires FullLog.LogsMatch(own, log) && s.commitIndex <= |log| && own[..s.commitIndex] == log[..s.commitIndex]
    requires var o := AppendEntries(s, r); o.reply.Ok? && o.reply.value.success && o == AppendAt(Raise(s, r.term), r)
    ensures r.prevIndex <= |own|
    ensures var whole, o := FullLog.Merge(own, r.prevIndex, r.entries), AppendEntries(s, r);
            && Represents(o.store, whole) && o.store.commitIndex <= |log|
            && whole[..o.store.commitIndex] == log[..o.store.commitIndex]
  {
    hide AppendEntries, AppendAt, FullLog.Merge, FullLog.LogsMatch, Represents, CutFrom, Expand, Raise, NoRoom,
        Ordered, OneWriter, Complete, Good;
    MergedFacts(s, own, r, log);
    MergedCommit(s, own, r, log);
  }

  /** The merged log keeps what was committed and agrees with the leader as far as the clamp can go. */
  lemma MergedFacts(s: Store, own: Log, r: AppendRequest, log: Log)
    requires CutFrom(r, log) && NoRoom(r, log) && Represents(s, own) && Good(own) && AppendReaches(s, r)
    requires Ordered(own, r.term) && OneWriter(own, log) && Complete(own, log, r.leaderCommit)
    requires FullLog.LogsMatch(own, log) && s.commitIndex <= |log| && own[..s.commitIndex] == log[..s.commitIndex]
    ensures r.prevIndex <= |own| && s.snapshotIndex <= r.prevIndex <= LastIndex(s)
    ensures var whole := FullLog.Merge(own, r.prevIndex, r.entries); var c := FullLog.Min(r.leaderCommit, |whole|);
            && s.commitIndex <= |whole| && whole[..s.commitIndex] == own[..s.commitIndex] == log[..s.commitIndex]
            && c <= |log| && whole[..c] == log[..c]
  {
    hide FullLog.Merge, ValidEntry, FullLog.LogsMatch, NoRoom, Ordered, OneWriter, Complete, Good;
    var n := r.prevIndex + |r.entries|;
    TermAnswers(s, own, r.prevIndex);
    LastAnswers(s, own);
    SameAtPrev(own, log, r.prevIndex);
    FullLog.MergeAdopts(own, log, r.prevIndex, r.entries);
    AdoptTake(own, log, n, s.commitIndex);
    AdoptClamp(own, log, r, n);
  }

  lemma AdoptClamp(own: Log, log: Log, r: AppendRequest, n: nat)
    requires n == r.prevIndex + |r.entries| <= |log| && r.leaderCommit <= |log|
    requires Ordered(own, r.term) && OneWriter(own, log) && Complete(own, log, r.leaderCommit) && Good(own)
    requires FullLog.LogsMatch(own, log) && NoRoom(r, log) && Ordered(log, r.term)
    ensures var whole := FullLog.Adopt(own, log, n); var c := FullLog.Min(r.leaderCommit, |whole|);
            c <= |log| && whole[..c] == log[..c]
  {
    hide NoRoom, Ordered, OneWriter, Complete, FullLog.LogsMatch, Good;
    if log[..n] <= own {
      StaleFree(own, log, r, FullLog.Min(r.leaderCommit, |own|));
    } else {
      var c := FullLog.Min(r.leaderCommit, n);
      assert log[..n][..c] == log[..c];
    }
  }

  /** With no room for a stale entry, a follower that holds the batch agrees with the leader up to its commit index. */
  lemma {:induction false} StaleFree(own: Log, log: Log, r: AppendRequest, c: nat)
    requires r.prevIndex + |r.entries| <= |log| && log[..r.prevIndex + |r.entries|] <= own
    requires c <= |own| && c <= r.leaderCommit <= |log|
    requires Ordered(own, r.term) && OneWriter(own, log) && Complete(own, log, r.leaderCommit) && Good(own)
    requires FullLog.LogsMatch(own, log) && NoRoom(r, log) && Ordered(log, r.term)
    ensures own[..c] == log[..c]
    decreases c
  {
    hide Good, ValidEntry, Room, Ordered, OneWriter, Complete;
    var n := r.prevIndex + |r.entries|;
    if c <= n {
      assert log[..n][..c] == log[..c] && own[..n][..c] == own[..c];
    } else {
      StaleFree(own, log, r, c - 1);
      StaleNeedsRoom(own, log, r, c - 1);
      assert TermAt(own, c) == TermAt(log, c);
    }
  }

  lemma StaleNeedsRoom(own: Log, log: Log, r: AppendRequest, m: nat)
    requires m < |own| && m < |log| && own[..m] == log[..m] && m < r.leaderCommit
    requires Ordered(own, r.term) && Ordered(log, r.term) && Good(own)
    requires OneWriter(own, log) && Complete(own, log, r.leaderCommit)
    ensures own[m].term == log[m].term || Room(log, m)
  {
    hide ValidEntry, OneWriter, HeldAbove, Ordered, Good, Fits;
    if own[m].term != log[m].term {
      var i :| r.leaderCommit <= i <= |log| && HeldAbove(own, log, i);
      OrderedUpTo(log, i, |log|, r.term);
      AgreeAt(own, log, i, m);
      forall j | m <= j < |log| ensures log[j].term != own[m].term
      {
        if log[j].term == own[m].term { WriterAt(own, log, m, j); }
      }
      assert log[i - 1].term != own[m].term;
      LowBound(own, log, m, r.term);
      FitsHere(log, m, own[m].term);
    }
  }

  lemma LowBound(own: Log, log: Log, m: nat, hi: nat)
    requires m < |own| && m < |log| && own[..m] == log[..m] && Ordered(own, hi) && Good(own)
    ensures FullLog.Max(1, TermAt(log, m)) <= own[m].term
  {
    assert own[m] in own;
    TermSplit(own, log, m);
  }

  lemma FitsHere(log: Log, m: nat, u: nat)
    requires m < |log| && FullLog.Max(1, TermAt(log, m)) <= u < LastTerm(log)
    requires forall j :: m <= j < |log| ==> log[j].term != u
    ensures Fits(log, m, u)
  {
  }

  lemma WriterAt(own: Log, log: Log, m: nat, j: nat)
    requires OneWriter(own, log) && m < |own| && m <= j < |log| && own[m].term == log[j].term
    ensures own[m] == log[m]
  {
    assert own[..m + 1][m] == log[..m + 1][m];
  }

  lemma AgreeAt(own: Log, log: Log, i: nat, m: nat)
    requires m < i <= |log| && m < |own| && HeldAbove(own, log, i)
    ensures own[m].term > log[i - 1].term ==> own[m] == log[m]
  {
  }

  lemma WriterMatches(own: Log, log: Log)
    requires OneWriter(own, log)
    ensures FullLog.LogsMatch(own, log)
  {
    forall i | 0 <= i <= |own| && i <= |log| && TermAt(own, i) == TermAt(log, i) ensures own[..i] == log[..i]
    {
      if i > 0 { assert own[i - 1].term == log[i - 1].term; }
    }
  }

  lemma OrderedRaise(log: Log, low: nat, high: nat)
    requires Ordered(log, low) && low <= high
    ensures Ordered(log, high)
  {
  }

  lemma MergedCommit(s: Store, own: Log, r: AppendRequest, log: Log)
    requires CutFrom(r, log) && Represents(s, own) && AppendReaches(s, r)
    requires r.prevIndex <= |own| && s.snapshotIndex <= r.prevIndex <= LastIndex(s)
    requires var whole := FullLog.Merge(own, r.prevIndex, r.entries);
             s.commitIndex <= |whole| && whole[..s.commitIndex] == own[..s.commitIndex]
    requires AppendAt(Raise(s, r.term), r).reply.Ok? && AppendAt(Raise(s, r.term), r).reply.value.success
    ensures var whole, o := FullLog.Merge(own, r.prevIndex, r.entries), AppendAt(Raise(s, r.term), r);
            Represents(o.store, whole) && o.store.commitIndex in {s.commitIndex, FullLog.Min(r.leaderCommit, |whole|)}
  {
    hide AppendAt, AppendLoop, FullLog.Merge, ValidEntry, Ordered;
    var s1 := Raise(s, r.term);
    EntriesValid(r, log);
    LoopMerges(own, s.commitIndex, r.prevIndex, r.entries);
    AppendAtSame(s1, own, r);
    CommitBound(Expand(s1, own), r);
  }

  lemma SameAtPrev(own: Log, log: Log, i: nat)
    requires FullLog.LogsMatch(own, log) && i <= |own| && i <= |log| && TermAt(own, i) == TermAt(log, i)
    ensures own[..i] == log[..i]
  {
  }

  lemma EntriesValid(r: AppendRequest, log: Log)
    requires CutFrom(r, log)
    ensures forall e :: e in r.entries ==> ValidEntry(e)
  {
    hide ValidEntry;
    forall e | e in r.entries ensures e in log {}
  }

  lemma CommitBound(s: Store, r: AppendRequest)
    requires s.snapshotIndex == 0 && r.prevIndex <= |s.entries| && AppendAt(s, r).reply.Ok?
    ensures var o, (log, _) := AppendAt(s, r), AppendLoop(s.entries, s.commitIndex, r.prevIndex, r.entries);
            o.store.entries == log && o.store.commitIndex in {s.commitIndex, FullLog.Min(r.leaderCommit, |log|)}
  {
    hide AppendLoop, ApplyAll;
  }

  /* ---------- the other direction: a follower that goes wrong ---------- */

  function Digest(c: char): (d: string)
    requires LowerHex(c)
    ensures ValidDigest(d) && d[0] == c
  {
    seq(64, i => c)
  }

  /** Some valid view other than `v`. */
  function OtherView(v: View): (w: View)
    ensures w != v && ValidView(w)
  {
    var d := if v.membership == Digest('a') then Digest('b') else Digest('a');
    View(d, d, d, NoManifest)
  }

  /** The entry an older leader, of term `u`, left behind at a place where the leader's log has `e`. */
  function StaleEntry(e: Entry, epoch: nat, u: nat): (s: Entry)
    requires epoch >= 1 && u > 0
    ensures s.term == u && s.command != e.command && ValidEntry(s) && s.command.kind == AdvanceEpoch
            && s.command.epoch == epoch + 1
  {
    Entry(u, Command(AdvanceEpoch, epoch + 1, OtherView(e.command.view), [], []))
  }

  /** A follower that holds the leader's log up to `m` and then one stale entry commits that entry. */
  lemma StaleFollower(boot: Machine, r: AppendRequest, log: Log, m: nat) returns (s: Store)
    requires CutFrom(r, log) && Replays(boot, r, log) && r.prevIndex + |r.entries| <= m < r.leaderCommit && m < |log|
             && Room(log, m)
    ensures Follows(s, s.entries, boot, r, log) && !CommitsLeaderOnly(s, s.entries, r, log)
  {
    hide ApplyAll, ValidEntry, AppendEntries, AppendAt, Good, ValidView, StaleEntry, Fits, OneWriter, Complete,
        OnlyFrom;
    PrefixReplays(boot, log, r.leaderCommit, m);
    var before := ApplyAll(boot, log[..m]).value;
    var u :| Fits(log, m, u);
    FitsBounds(r, log, m, u);
    var stale := StaleEntry(log[m], before.epoch, u);
    var own := log[..m] + [stale];
    s := Store(u, "", 0, boot.epoch, 0, 0, 0, None, boot.voters, [], [], boot.view, own);
    assert own[..0] == log[..0] == [];
    StaleWriter(log, m, stale);
    StaleComplete(log, m, stale, r.leaderCommit, r.term);
    StaleGood(log, m, stale);
    StaleOrdered(log, m, stale, r.term);
    assert MachineOf(s) == boot;
    NothingApplied(boot);
    assert Follows(s, own, boot, r, log);
    StaleCommits(boot, s, r, log, before, m, stale);
  }

  lemma FitsBounds(r: AppendRequest, log: Log, m: nat, u: nat)
    requires CutFrom(r, log) && m < |log| && Fits(log, m, u)
    ensures 1 <= u < r.term && TermAt(log, m) <= u < LastTerm(log) && u != log[m].term
    ensures forall j :: m <= j < |log| ==> log[j].term != u
  {
    hide ValidNodeId, Good;
    assert TermAt(log, |log| - 1) <= log[|log| - 1].term <= r.term;
  }

  lemma StaleWriter(log: Log, m: nat, stale: Entry)
    requires m < |log| && forall j :: m <= j < |log| ==> log[j].term != stale.term
    ensures OneWriter(log[..m] + [stale], log)
  {
    var own := log[..m] + [stale];
    forall i, j | 0 <= i < |own| && 0 <= j < |log| && own[i].term == log[j].term
        ensures own[..FullLog.Min(i, j) + 1] == log[..FullLog.Min(i, j) + 1]
    {
      var x := FullLog.Min(i, j) + 1;
      assert x <= m;
      assert own[..x] == log[..x];
    }
  }

  lemma StaleComplete(log: Log, m: nat, stale: Entry, c: nat, term: nat)
    requires m < |log| && c <= |log| && Ordered(log, term) && TermAt(log, m) <= stale.term < LastTerm(log)
    ensures Complete(log[..m] + [stale], log, c)
  {
    var own := log[..m] + [stale];
    forall k | 0 <= k < |own| ensures own[k].term <= LastTerm(log)
    {
      if k < m { OrderedUpTo(log, k + 1, m, term); }
    }
    assert HeldAbove(own, log, |log|);
  }

  lemma StaleOrdered(log: Log, m: nat, stale: Entry, term: nat)
    requires m < |log| && Ordered(log, term) && TermAt(log, m) <= stale.term < term
    ensures Ordered(log[..m] + [stale], stale.term) && OnlyFrom(log[..m] + [stale], term, log)
  {
    var own := log[..m] + [stale];
    forall k | 0 <= k < |own| ensures TermAt(own, k) <= own[k].term <= stale.term
    {
      if k < m { OrderedUpTo(log, k + 1, m, term); }
    }
  }

  lemma {:induction false} OrderedUpTo(log: Log, i: nat, j: nat, hi: nat)
    requires Ordered(log, hi) && i <= j <= |log|
    ensures TermAt(log, i) <= TermAt(log, j)
    decreases j
  {
    if i < j {
      OrderedUpTo(log, i, j - 1, hi);
      assert TermAt(log, j - 1) <= log[j - 1].term;
    }
  }

  lemma NothingApplied(boot: Machine)
    ensures ApplyAll(boot, []) == Some(boot)
  {
  }

  lemma PrefixReplays(boot: Machine, log: Log, c: nat, n: nat)
    requires n <= c <= |log| && ApplyAll(boot, log[..c]).Some? && boot.epoch >= 1 && boot.jointOld == [] && Good(log)
    ensures ApplyAll(boot, log[..n]).Some?
    ensures var m := ApplyAll(boot, log[..n]).value; m.epoch >= 1 && m.jointOld == []
  {
    hide ApplyAll, ValidEntry;
    assert log[..c][..n] == log[..n];
    ApplyPrefix(boot, log[..c], n);
    EpochFixesView(boot, log[..n]);
    GoodTake(log, n);
    GoodKeepsVoters(boot, log[..n]);
  }

  lemma StaleGood(log: Log, n: nat, stale: Entry)
    requires n <= |log| && Good(log) && ValidEntry(stale) && stale.command.kind == AdvanceEpoch
    ensures Good(log[..n] + [stale])
  {
    hide ValidEntry;
  }

  lemma StaleCommits(boot: Machine, s: Store, r: AppendRequest, log: Log, before: Machine, m: nat, stale: Entry)
    requires CutFrom(r, log) && r.prevIndex + |r.entries| <= m < r.leaderCommit && stale.term <= r.term
    requires s == Store(stale.term, "", 0, boot.epoch, 0, 0, 0, None, boot.voters, [], [], boot.view,
             log[..m] + [stale])
    requires stale.term != log[m].term && stale.command.kind == AdvanceEpoch && stale.command.epoch == before.epoch + 1
    requires ApplyAll(boot, log[..m]) == Some(before)
    requires boot.jointOld == [] && boot.jointNew == [] && before.jointOld == []
             && (boot.voters == [] || r.leader in boot.voters)
    ensures !CommitsLeaderOnly(s, s.entries, r, log)
  {
    hide AppendLoop, ApplyAll, ValidEntry, ValidNodeId, Ordered;
    var n, own := r.prevIndex + |r.entries|, s.entries;
    assert own[r.prevIndex..n] == r.entries;
    LoopIdle(own, 0, r.prevIndex, r.entries);
    StaleApplies(boot, log[..m], before, stale);
    TermSplit(own, log, r.prevIndex) by { assert own[..r.prevIndex] == log[..r.prevIndex]; }
    var o := AppendEntries(s, r);
    StaleOutcome(boot, s, r, own);
    forall whole | Represents(o.store, whole) ensures whole[..m + 1] != log[..m + 1]
    {
      assert whole[0..] == whole;
      assert whole[..m + 1][m] == stale && log[..m + 1][m] == log[m];
    }
  }

  lemma StaleApplies(boot: Machine, before: Log, m: Machine, stale: Entry)
    requires ApplyAll(boot, before) == Some(m) && m.jointOld == []
    requires stale.command.kind == AdvanceEpoch && stale.command.epoch == m.epoch + 1
    ensures ApplyAll(boot, before + [stale]).Some?
  {
    ApplyAllConcat(boot, before, [stale]);
    assert [stale][1..] == [];
  }

  lemma StaleOutcome(boot: Machine, s: Store, r: AppendRequest, own: Log)
    requires s == Store(s.currentTerm, "", 0, boot.epoch, 0, 0, 0, None, boot.voters, [], [], boot.view, own)
             && s.currentTerm <= r.term
    requires boot.jointOld == [] && boot.jointNew == [] && (boot.voters == [] || r.leader in boot.voters)
    requires ValidNodeId(r.leader) && r.term > 0 && |r.entries| <= 1024 && r.leaderCommit >= |own| > 0
             && r.prevIndex <= |own|
    requires TermAt(own, r.prevIndex) == r.prevTerm && AppendLoop(own, 0, r.prevIndex, r.entries) == (own, true)
    requires ApplyAll(boot, own).Some?
    ensures var o := AppendEntries(s, r);
            o.reply.Ok? && o.reply.value.success && o.store.entries == own && o.store.snapshotIndex == 0
                && o.store.commitIndex == |own|
  {
    hide ValidNodeId, AppendLoop, ApplyAll;
    assert own[0..|own|] == own;
    assert MachineOf(Raise(s, r.term)) == boot;
  }

  /* ---------- followers of the reference protocol ---------- */

  /** In every state of the reference protocol a node of an earlier or equal term stands to a leader's log like this. */
  lemma ReachableFollows(a: FullLog.State, n: NodeId, t: nat, c: nat)
    requires Inv(a) && n in a.nodes && t in a.elect && CommittedUpTo(a, a.logs[t], c, t)
    ensures OneWriter(a.nodes[n].log, a.logs[t]) && Complete(a.nodes[n].log, a.logs[t], c)
    ensures a.nodes[n].term <= t ==> OnlyFrom(a.nodes[n].log, t, a.logs[t])
  {
    hide VotersInv, AckInv, MsgInv, CommittedUpTo, LogOK, OneWriter, Complete, OnlyFrom;
    assert NodeInv(a, n) && LeaderLog(a, t);
    hide Inv;
    WritersOK(a, a.nodes[n].log, a.logs[t]);
    HeldByAll(a, a.nodes[n].log, t, c);
    LeaderOnly(a, a.nodes[n].log, t);
  }

  lemma WritersOK(a: FullLog.State, own: Log, log: Log)
    requires LogOK(a, own) && LogOK(a, log)
    ensures OneWriter(own, log)
  {
    forall i, j | 0 <= i < |own| && 0 <= j < |log| && own[i].term == log[j].term
        ensures own[..FullLog.Min(i, j) + 1] == log[..FullLog.Min(i, j) + 1]
    {
      var x, lead := FullLog.Min(i, j) + 1, a.logs[own[i].term];
      assert own[..i + 1] == lead[..i + 1] && log[..j + 1] == lead[..j + 1];
      assert own[..x] == own[..i + 1][..x] == lead[..x] && log[..x] == log[..j + 1][..x] == lead[..x];
    }
  }

  lemma LeaderOnly(a: FullLog.State, own: Log, t: nat)
    requires LogOK(a, own) && t in a.elect && t in a.logs
    ensures OnlyFrom(own, t, a.logs[t])
  {
    forall k | 0 <= k < |own| && own[k].term == t ensures k < |a.logs[t]| && own[k].term == a.logs[t][k].term
    {
      assert own[..k + 1][k] == a.logs[t][..k + 1][k];
    }
  }

  lemma HeldByAll(a: FullLog.State, own: Log, t: nat, c: nat)
    requires Elections(a) && LogOK(a, own) && t in a.elect && CommittedUpTo(a, a.logs[t], c, t)
    ensures Complete(own, a.logs[t], c)
  {
    hide VotersInv, LogOK;
    if c > 0 {
      var u: nat, i: nat :| u <= t && Covers(a, a.logs[t], c, u, i);
      assert Covers(a, a.logs[u], i, u, i);
      CoveredByLeader(a, a.logs[u], i, u, i, t);
      var log := a.logs[t];
      assert log[..i][i - 1] == a.logs[u][..i][i - 1];
      forall k | 0 <= k < |own| && own[k].term > log[i - 1].term ensures i <= k && own[..i] == log[..i]
      {
        LaterWriter(a, own, k, u, i);
      }
      assert HeldAbove(own, log, i);
    }
  }

  /** An entry of a later term lies above everything committed before. */
  lemma LaterWriter(a: FullLog.State, own: Log, k: nat, u: nat, i: nat)
    requires Elections(a) && LogOK(a, own) && k < |own| && Committed(a, u, i) && own[k].term > u
    ensures i <= k && i <= |a.logs[u]| && own[..i] == a.logs[u][..i]
  {
    hide VotersInv;
    var w := own[k].term;
    assert w in a.elect && LeaderLog(a, w);
    LeaderCompleteness(a, u, i, w);
    var init, lead, p := a.elect[w].init, a.logs[w], a.logs[u][..i];
    assert own[..k + 1] == lead[..k + 1] && own[..k + 1][k] == lead[..k + 1][k];
    TakePrefix(p, init, i);
    TakePrefix(init, lead, i);
    assert own[..i] == own[..k + 1][..i] && lead[..i] == lead[..k + 1][..i];
  }
}
