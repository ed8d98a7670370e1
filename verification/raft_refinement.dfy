/**
 The compacted store refines an uncompacted one: with the dropped prefix put
 back, every operation the compacted log accepts gives the same answer and the
 same log.
 */
module RaftRefinement {
  import opened Collections
  import opened RaftTypes
  import opened RaftSpec
  import FullLog

  /** `log` is the whole log of which `s` retains the part above its snapshot. */
  ghost predicate Represents(s: Store, log: Log)
  {
    && s.snapshotIndex <= s.commitIndex <= |log|
    && |log| == LastIndex(s)
    && s.entries == log[s.snapshotIndex..]
    && s.snapshotTerm == TermAt(log, s.snapshotIndex)
  }

  /** The store as it would be had it never compacted. */
  function Expand(s: Store, log: Log): Store
  {
    s.(snapshotIndex := 0, snapshotTerm := 0, snapshotEpoch := 0, snapshotView := None, entries := log)
  }

  lemma TermAnswers(s: Store, log: Log, index: nat)
    requires Represents(s, log)
    ensures index >= s.snapshotIndex ==> TermOf(s, index) == TermOf(Expand(s, log), index)
    ensures index < s.snapshotIndex ==> TermOf(s, index) == None
    ensures s.snapshotIndex <= index <= |log| ==> TermOf(s, index) == Some(TermAt(log, index))
  {
  }

  lemma LastAnswers(s: Store, log: Log)
    requires Represents(s, log)
    ensures LastIndex(s) == |log| && LastLogTerm(s) == LastTerm(log)
  {
  }

  /**
   * Compaction is invisible: the same whole log, and no last-log or term answer at or above the new snapshot changes.
   */
  lemma CompactionInvisible(s: Store, log: Log, index: nat)
    requires Represents(s, log)
    ensures var s' := CompactCommitted(s).store;
            && Represents(s', log)
            && Expand(s', log) == Expand(s, log)
            && LastIndex(s') == LastIndex(s) && LastLogTerm(s') == LastLogTerm(s)
            && s'.snapshotIndex >= s.snapshotIndex
            && (index >= s'.snapshotIndex ==> TermOf(s', index) == TermOf(s, index))
  {
    var s' := CompactCommitted(s).store;
    if s' != s {
      assert s'.entries == log[s.snapshotIndex..][s.commitIndex - s.snapshotIndex..] == log[s.commitIndex..];
    }
    TermAnswers(s, log, index);
    TermAnswers(s', log, index);
    LastAnswers(s, log);
    LastAnswers(s', log);
  }

  /** Votes do not depend on compaction. */
  lemma VoteRefines(s: Store, log: Log, r: VoteRequest)
    requires Represents(s, log)
    ensures var o, full := RequestVote(s, r), RequestVote(Expand(s, log), r);
            o.reply == full.reply && full.store == Expand(o.store, log) && Represents(o.store, log)
  {
    hide ValidNodeId, LastTerm;
    LastAnswers(s, log);
  }

  /** A batch read from the compacted log is the batch the whole log would give. */
  lemma BatchRefines(s: Store, log: Log, next: nat, limit: int)
    requires Represents(s, log)
    ensures next > s.snapshotIndex ==> LogBatch(s, next, limit) == LogBatch(Expand(s, log), next, limit)
    ensures next <= s.snapshotIndex ==> LogBatch(s, next, limit) == None
  {
    if s.snapshotIndex < next <= |log| + 1 && 1 <= limit <= 1024 {
      BatchForm(s, log, next, limit);
      BatchForm(Expand(s, log), log, next, limit);
    }
  }

  lemma BatchForm(s: Store, log: Log, next: nat, limit: int)
    requires Represents(s, log) && s.snapshotIndex < next <= |log| + 1 && 1 <= limit <= 1024
    ensures LogBatch(s, next, limit)
         == Some(Batch(s.currentTerm, s.commitIndex, next - 1, TermAt(log, next - 1),
                       log[next - 1..FullLog.Min(next - 1 + limit, |log|)]))
  {
    TermAnswers(s, log, next - 1);
    var n, start := s.snapshotIndex, next - s.snapshotIndex - 1;
    DropSlice(log, n, start, if start + limit < |s.entries| then start + limit else |s.entries|);
  }

  lemma DropSlice(log: Log, n: nat, i: nat, j: nat)
    requires n <= |log| && i <= j <= |log| - n
    ensures log[n..][i..j] == log[n + i..n + j]
  {
  }

  /** The append loop commutes with putting the dropped prefix back. */
  lemma {:induction false} LoopShift(prefix: Log, entries: Log, committed: int, at: nat, batch: Log)
    requires at <= |entries|
    ensures var (a, ok) := AppendLoop(entries, committed, at, batch);
            AppendLoop(prefix + entries, committed + |prefix|, at + |prefix|, batch) == (prefix + a, ok)
    decreases |batch|
  {
    var n := |prefix|;
    if batch == [] {
    } else if at < |entries| && entries[at].term == batch[0].term {
      LoopShift(prefix, entries, committed, at + 1, batch[1..]);
    } else if at < |entries| && at < committed {
    } else {
      assert (prefix + entries)[..at + n] == prefix + entries[..at];
      if ValidEntry(batch[0]) {
        LoopShift(prefix, entries[..at] + [batch[0]], committed, at + 1, batch[1..]);
        assert prefix + (entries[..at] + [batch[0]]) == (prefix + entries[..at]) + [batch[0]];
      }
    }
  }

  /** A batch the log already holds leaves it as it is. */
  lemma {:induction false} LoopIdle(own: Log, committed: int, at: nat, batch: Log)
    requires at + |batch| <= |own| && own[at..at + |batch|] == batch
    ensures AppendLoop(own, committed, at, batch) == (own, true)
    decreases |batch|
  {
    if batch != [] {
      assert own[at] == own[at..at + |batch|][0] == batch[0];
      assert own[at + 1..at + |batch|] == own[at..at + |batch|][1..];
      LoopIdle(own, committed, at + 1, batch[1..]);
    }
  }

  /** The loop neither touches what is below its start nor shortens the committed part. */
  lemma {:induction false} LoopKeeps(entries: Log, committed: int, at: nat, batch: Log)
    requires at <= |entries| && committed <= |entries|
    ensures var (a, ok) := AppendLoop(entries, committed, at, batch);
            committed <= |a| && at <= |a| && (forall k :: 0 <= k < at || 0 <= k < committed ==> a[k] == entries[k])
    decreases |batch|
  {
    hide ValidEntry;
    if batch != [] {
      if at < |entries| && entries[at].term == batch[0].term {
        LoopKeeps(entries, committed, at + 1, batch[1..]);
      } else if !(at < |entries| && at < committed) && ValidEntry(batch[0]) {
        var cut, a := entries[..at] + [batch[0]], AppendLoop(entries, committed, at, batch).0;
        LoopKeeps(cut, committed, at + 1, batch[1..]);
        assert a == AppendLoop(cut, committed, at + 1, batch[1..]).0 && committed <= at;
        forall k | 0 <= k < at ensures a[k] == entries[k] { assert a[k] == cut[k]; }
      }
    }
  }

  /** Appending: refused below the snapshot, and otherwise exactly what the whole log would do. */
  lemma AppendRefines(s: Store, log: Log, r: AppendRequest)
    requires Represents(s, log)
    ensures var o, full := AppendEntries(s, r), AppendEntries(Expand(s, log), r);
            && (o.reply.Ok? && o.reply.value.success ==> full.reply == o.reply)
            && (r.prevIndex >= s.snapshotIndex ==>
                  && full.reply == o.reply && full.durable == o.durable
                  && full.store == Expand(o.store, full.store.entries)
                  && Represents(o.store, full.store.entries))
  {
    if r.prevIndex >= s.snapshotIndex { AppendSame(s, log, r); }
  }

  lemma AppendSame(s: Store, log: Log, r: AppendRequest)
    requires Represents(s, log) && r.prevIndex >= s.snapshotIndex
    ensures var o, full := AppendEntries(s, r), AppendEntries(Expand(s, log), r);
            && full.reply == o.reply && full.durable == o.durable
            && full.store == Expand(o.store, full.store.entries)
            && Represents(o.store, full.store.entries)
  {
    hide AppendAt;
    TermAnswers(s, log, r.prevIndex);
    if r.prevIndex <= |log| { AppendAtSame(Raise(s, r.term), log, r); }
  }

  lemma AppendAtSame(s: Store, log: Log, r: AppendRequest)
    requires Represents(s, log) && s.snapshotIndex <= r.prevIndex <= |log|
    ensures var o, full := AppendAt(s, r), AppendAt(Expand(s, log), r);
            && full.reply == o.reply && full.durable == o.durable
            && full.store == Expand(o.store, full.store.entries)
            && Represents(o.store, full.store.entries)
            && o.store.snapshotIndex == s.snapshotIndex && o.store.snapshotEpoch == s.snapshotEpoch
               && o.store.snapshotView == s.snapshotView
  {
    hide Follow, AppendLoop;
    var n := s.snapshotIndex;
    var prefix, at, committed := log[..n], r.prevIndex - n, s.commitIndex - n;
    assert log == prefix + s.entries;
    LoopShift(prefix, s.entries, committed, at, r.entries);
    LoopKeeps(s.entries, committed, at, r.entries);
    var a := AppendLoop(s.entries, committed, at, r.entries).0;
    var s2 := s.(entries := a);
    assert Represents(s2, prefix + a) by { assert (prefix + a)[n..] == a; TermSplit(log, prefix + a, n); }
    FollowSame(s2, prefix + a, r);
  }

  lemma FollowSame(s: Store, log: Log, r: AppendRequest)
    requires Represents(s, log)
    ensures var o, full := Follow(s, r), Follow(Expand(s, log), r);
            && full.reply == o.reply && full.durable == o.durable && full.store == Expand(o.store, log)
               && Represents(o.store, log)
            && o.store.snapshotIndex == s.snapshotIndex && o.store.snapshotEpoch == s.snapshotEpoch
               && o.store.snapshotView == s.snapshotView
  {
    hide ApplyThrough;
    ApplySame(s, log, if r.leaderCommit < LastIndex(s) then r.leaderCommit else LastIndex(s));
  }

  lemma ApplySame(s: Store, log: Log, target: nat)
    requires Represents(s, log) && target <= |log|
    ensures match (ApplyThrough(s, target), ApplyThrough(Expand(s, log), target))
            case (Some(a), Some(b)) =>
              && b == Expand(a, log) && Represents(a, log)
              && a.snapshotIndex == s.snapshotIndex && a.snapshotEpoch == s.snapshotEpoch
                 && a.snapshotView == s.snapshotView
            case (None, None) => true
            case _ => false
  {
    if s.commitIndex < target {
      DropSlice(log, s.snapshotIndex, s.commitIndex - s.snapshotIndex, target - s.snapshotIndex);
    }
  }

  lemma TermSplit(a: Log, b: Log, n: nat)
    requires n <= |a| && n <= |b| && a[..n] == b[..n]
    ensures TermAt(a, n) == TermAt(b, n)
  {
    if n > 0 { assert a[..n][n - 1] == b[..n][n - 1]; }
  }

  /** With valid entries that contradict nothing committed, the loop is the reference merge. */
  lemma {:induction false} LoopMerges(log: Log, committed: nat, at: nat, batch: Log)
    requires at <= |log| && committed <= |log|
    requires forall e :: e in batch ==> ValidEntry(e)
    requires var m := FullLog.Merge(log, at, batch); committed <= |m| && m[..committed] == log[..committed]
    ensures AppendLoop(log, committed, at, batch) == (FullLog.Merge(log, at, batch), true)
    decreases |batch|
  {
    if batch != [] {
      if at < |log| && log[at].term == batch[0].term {
        LoopMerges(log, committed, at + 1, batch[1..]);
      } else {
        var m := FullLog.Merge(log, at, batch);
        assert m == log[..at] + batch && m[at] == batch[0];
        forall k | 0 <= k < committed ensures m[k] == log[k] { assert m[..committed][k] == log[..committed][k]; }
        var log' := log[..at] + [batch[0]];
        assert log'[..at + 1] + batch[1..] == m;
        assert FullLog.Merge(log', at + 1, batch[1..]) == m by { if batch[1..] == [] { assert log' == m; } }
        assert committed <= at;
        LoopMerges(log', committed, at + 1, batch[1..]);
      }
    }
  }

  /* ---------- replaying the log ---------- */

  lemma {:induction false} ApplyAllConcat(m: Machine, a: Log, b: Log)
    ensures ApplyAll(m, a + b) == match ApplyAll(m, a) case None => None case Some(x) => ApplyAll(x, b)
    decreases |a|
  {
    if a == [] {
      assert a + b == b;
    } else {
      assert (a + b)[1..] == a[1..] + b;
      match Apply(m, a[0].command)
      case None =>
      case Some(x) => ApplyAllConcat(x, a[1..], b);
    }
  }

  /** Every prefix of a log that applies applies. */
  lemma ApplyPrefix(m: Machine, log: Log, i: nat)
    requires i <= |log| && ApplyAll(m, log).Some?
    ensures ApplyAll(m, log[..i]).Some?
    ensures ApplyAll(ApplyAll(m, log[..i]).value, log[i..]) == ApplyAll(m, log)
  {
    assert log == log[..i] + log[i..];
    ApplyAllConcat(m, log[..i], log[i..]);
  }

  /** The epoch never falls, and while it stays the view stays. */
  lemma {:induction false} EpochFixesView(m: Machine, log: Log)
    requires ApplyAll(m, log).Some?
    ensures var x := ApplyAll(m, log).value; m.epoch <= x.epoch && (x.epoch == m.epoch ==> x.view == m.view)
    decreases |log|
  {
    if log != [] {
      EpochFixesView(Apply(m, log[0].command).value, log[1..]);
    }
  }

  /** Two prefixes of one log that reach the same epoch show the same view. */
  lemma SameEpochSameView(m: Machine, log: Log, i: nat, j: nat)
    requires i <= |log| && j <= |log| && ApplyAll(m, log[..i]).Some? && ApplyAll(m, log[..j]).Some?
    requires ApplyAll(m, log[..i]).value.epoch == ApplyAll(m, log[..j]).value.epoch
    ensures ApplyAll(m, log[..i]).value.view == ApplyAll(m, log[..j]).value.view
  {
    var a, b := if i <= j then i else j, if i <= j then j else i;
    assert log[..b][..a] == log[..a];
    ApplyPrefix(m, log[..b], a);
    EpochFixesView(ApplyAll(m, log[..a]).value, log[..b][a..]);
  }
}
