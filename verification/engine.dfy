/**
 * The engine's operations on one shard, step by step; every durable action is recorded as a step of the recovery model.
 */
module Engine {
  import opened Collections
  import opened Records
  import opened Segments
  import opened ShardLayers
  import opened Recovery
  import Replica
  import F = Filters
  import FilterIndex
  import FilterFile

  /** Applies one log record to the shard; a delete of a missing key is ignored. */
  method ApplyMutation(shard: Shard, mu: Mutation)
    requires shard.Valid()
    modifies shard
    ensures shard.Valid() && shard.View() == Apply(old(shard.View()), mu) && shard.immutable == old(shard.immutable)
    ensures Seen(shard.View()) == Act(old(Seen(shard.View())), mu)
  {
    hide Sound, Seen;
    ApplySeen(shard.View(), mu);
    ghost var l := shard.View();
    match mu
    case Put(records) =>
      for i := 0 to |records|
        invariant shard.Valid() && shard.View() == PutLayers(l, records[..i]) && shard.immutable == old(shard.immutable)
      {
        assert records[..i + 1][..i] == records[..i];
        shard.Put(records[i]);
      }
      assert records[..|records|] == records;
    case Remove(key) =>
      HasSeen(shard.View(), key);
      var found := shard.Remove(key);
  }

  /** Reads the filter file the manifest names; null is the refusal to load it. */
  method LoadFilter(split: F.Splitter, m: ShardManifest) returns (index: FilterIndex.Index?)
    ensures index != null <==> FilterLoads(m)
    ensures index != null ==> fresh(index) && index.Valid() && index.docs == FilterFile.Numbered(m.filter)
  {
    hide FilterIndex.Indexed, FilterFile.WellFormed, FilterFile.Describes, FilterFile.Numbered, F.AllStorable,
        FilterFile.SnapshotValid;
    var stored := FilterFile.MarshalRecords(split, m.filter);
    FilterFile.CountMatters(stored.value, |m.filter|, m.count);
    index := FilterFile.LoadBinary(split, stored.value, m.count, FilterFile.Numbered(m.filter));
  }

  /** Checks a manifest as it is read back: the segments in turn, then the last one's position. */
  method CheckManifest(m: ShardManifest) returns (ok: bool)
    ensures ok <==> ManifestLoads(m)
  {
    if m.format == 2 { return true; }
    var n := |m.segments|;
    if m.format != 3 || n == 0 || n > MAX_LISTED { return false; }
    var previous := 0;
    for i := 0 to n
      invariant i > 0 ==> previous == m.segments[i - 1].maxLSN
      invariant forall k :: 0 < k < i ==> m.segments[k - 1].maxLSN < m.segments[k].maxLSN <= m.maxLSN
      invariant forall k :: 0 <= k < i ==> m.segments[k].maxLSN <= m.maxLSN
    {
      if (i > 0 && m.segments[i].maxLSN <= previous) || m.segments[i].maxLSN > m.maxLSN {
        RefusedAt(m, i);
        return false;
      }
      previous := m.segments[i].maxLSN;
    }
    ok := previous == m.maxLSN;
  }

  lemma RefusedAt(m: ShardManifest, i: nat)
    requires m.format == 3 && i < |m.segments|
    requires (i > 0 && m.segments[i].maxLSN <= m.segments[i - 1].maxLSN) || m.segments[i].maxLSN > m.maxLSN
    ensures !ManifestLoads(m)
  {
    if ManifestLoads(m) {
      RisesTo(m, i, |m.segments| - 1);
    }
  }

  lemma {:induction false} RisesTo(m: ShardManifest, i: nat, j: nat)
    requires m.format == 3 && ManifestLoads(m) && i <= j < |m.segments|
    ensures m.segments[i].maxLSN <= m.segments[j].maxLSN
    decreases j
  {
    if i < j {
      RisesTo(m, i, j - 1);
      assert m.segments[j - 1].maxLSN < m.segments[j].maxLSN;
    }
  }

  /**
   * Reads the manifest, the stack of segments and the filter file; a record count that differs from the manifest's is
   * refused.
   */
  method LoadStack(split: F.Splitter, d: Disk) returns (ok: bool, shard: Shard)
    ensures fresh(shard) && shard.Valid() && (shard.immutable != null ==> fresh(shard.immutable))
    ensures ok <==>
            d.manifest.None? || (ManifestLoads(d.manifest.value) && FilterLoads(d.manifest.value)
                && |Fold(map[], d.manifest.value.segments)| == d.manifest.value.count)
    ensures ok ==> shard.View() == Loaded(d)
  {
    hide Sound, Seen, IsListing, Fold, PutAll, FilterLoads, ManifestLoads;
    shard := new Shard();
    if d.manifest.Some? {
      var m := d.manifest.value;
      var accepted := CheckManifest(m);
      if !accepted { return false, shard; }
      var records, _ := Materialize(m.segments);
      ListingPut(Fold(map[], m.segments), records);
      FoldKeyed(m.segments);
      if |records| != m.count { return false, shard; }
      var filter := LoadFilter(split, m);
      if filter == null { return false, shard; }
      shard.InstallImmutable(PutAll(map[], records));
    }
    ok := true;
  }

  /** Reads the log front to back, applying what lies above the checkpoint. */
  method ReplayWal(shard: Shard, wal: seq<Logged>, checkpoint: nat)
      returns (ok: bool, last: nat, digests: map<nat, Mutation>)
    requires shard.Valid()
    modifies shard
    ensures shard.Valid() && shard.immutable == old(shard.immutable)
    ensures ok <==> Contiguous(wal)
    ensures ok ==> last == (if wal == [] then 0 else wal[|wal| - 1].lsn) && digests == Retained(wal, checkpoint)
    ensures ok ==> shard.View() == ReplayLog(old(shard.View()), wal, checkpoint)
  {
    hide Sound, Seen, Apply, Contiguous, ReplayLog, Retained;
    ghost var l := shard.View();
    last, digests := 0, map[];
    NothingRead(l, wal[..0], checkpoint);
    for i := 0 to |wal|
      invariant Contiguous(wal[..i]) && last == if i == 0 then 0 else wal[i - 1].lsn
      invariant shard.Valid() && shard.View() == ReplayLog(l, wal[..i], checkpoint)
                && shard.immutable == old(shard.immutable)
      invariant digests == Retained(wal[..i], checkpoint)
    {
      ReadOne(l, wal, i, checkpoint);
      if (last != 0 && wal[i].lsn != last + 1) || !Valid(wal[i].mutation) { return false, last, digests; }
      if wal[i].lsn > checkpoint {
        digests := digests[wal[i].lsn := wal[i].mutation];
        ApplyMutation(shard, wal[i].mutation);
      }
      last := wal[i].lsn;
    }
    assert wal[..|wal|] == wal;
    ok := true;
  }

  lemma NothingRead(l: Layers, wal: seq<Logged>, checkpoint: nat)
    requires wal == []
    ensures Contiguous(wal) && ReplayLog(l, wal, checkpoint) == l && Retained(wal, checkpoint) == map[]
  {
  }

  /** One log record more: when it may follow, and what reading it adds. */
  lemma ReadOne(l: Layers, wal: seq<Logged>, i: nat, checkpoint: nat)
    requires i < |wal| && Contiguous(wal[..i])
    ensures var fits := Valid(wal[i].mutation) && (i > 0 && wal[i - 1].lsn != 0 ==> wal[i].lsn == wal[i - 1].lsn + 1);
            (Contiguous(wal[..i + 1]) <==> fits) && (!fits ==> !Contiguous(wal))
    ensures var before := ReplayLog(l, wal[..i], checkpoint);
            ReplayLog(l, wal[..i + 1], checkpoint) == if wal[i].lsn > checkpoint then Apply(before, wal[i].mutation)
                else before
    ensures var before := Retained(wal[..i], checkpoint);
            Retained(wal[..i + 1], checkpoint) == if wal[i].lsn > checkpoint then before[wal[i].lsn := wal[i].mutation]
                else before
  {
    hide Apply, Valid;
    assert wal[..i + 1][..i] == wal[..i];
    forall k | 0 <= k < i ensures wal[..i][k] == wal[k] {}
  }

  /** Opens a shard from its disk: load the stack, then replay the log above the checkpoint. */
  method Open(split: F.Splitter, d: Disk)
      returns (ok: bool, shard: Shard, nextLSN: nat, checkpoint: nat, digests: map<nat, Mutation>)
    ensures fresh(shard) && shard.Valid()
    ensures ok <==> Reopen(d).Some?
    ensures ok ==> Reopen(d).value == Memory(shard.View(), nextLSN, checkpoint, digests)
  {
    hide Sound, Seen, Fold, Contiguous, ReplayLog, Retained, Loaded, FilterLoads, ManifestLoads;
    nextLSN, digests := 1, map[];
    checkpoint := if d.manifest.Some? then d.manifest.value.maxLSN else 0;
    ok, shard := LoadStack(split, d);
    if !ok { return; }
    var last;
    ok, last, digests := ReplayWal(shard, d.wal, checkpoint);
    nextLSN := if last == 0 then checkpoint + 1 else last + 1;
  }

  datatype Result = Done(sequence: nat) | InvalidBatch | Missing | CapReached | FilterRefused | ManifestRefused

  /** Some history of length `sequence` that leads to `records`: nothing, and at last all of them at once. */
  ghost function OneBatch(sequence: nat, records: seq<Record>): (h: seq<Mutation>)
    requires sequence > 0
    ensures |h| == sequence
  {
    seq(sequence - 1, i => Put([])) + [Put(records)]
  }

  lemma {:induction false} NothingReplays(n: nat)
    ensures Replay(seq(n, i => Put([]))) == map[]
    decreases n
  {
    if n > 0 {
      NothingReplays(n - 1);
      assert seq(n, i => Put([]))[..n - 1] == seq(n - 1, i => Put([]));
    }
  }

  lemma OneBatchReplays(sequence: nat, records: seq<Record>)
    requires sequence > 0
    ensures Replay(OneBatch(sequence, records)) == PutAll(map[], records)
  {
    hide PutAll;
    var h := OneBatch(sequence, records);
    NothingReplays(sequence - 1);
    assert h[..sequence - 1] == seq(sequence - 1, i => Put([]));
  }

  /** The stack with the delta of a checkpoint of this size is at the cap and no run of it can be merged. */
  ghost predicate AtCap(s: System, size: nat)
  {
    s.memory.nextLSN > 0 && Stuck(Extended(s, [], [], size))
  }

  /** The last checkpoint covers the whole history. */
  ghost predicate Covered(s: System)
  {
    s.disk.manifest.Some? && s.disk.manifest.value.format == 3 && s.disk.manifest.value.maxLSN == |s.history|
  }

  /** Every way a checkpoint can end, what decides between them, and what each leaves behind. */
  ghost predicate Ends(s: System, size: nat, r: Result, t: System)
  {
    var live, writes := Replay(s.history), Readable(s.disk) && !Covered(s) && !AtCap(s, size);
    && t.history == s.history && t.memory.nextLSN == s.memory.nextLSN && Seen(t.memory.layers) == live
    && (r.ManifestRefused? <==> !Readable(s.disk))
    && (r.CapReached? <==> Readable(s.disk) && !Covered(s) && AtCap(s, size))
    && (r.FilterRefused? <==> writes && !Clean(live))
    && (r.Done? <==> (Readable(s.disk) && Covered(s)) || (writes && Clean(live)))
    && (!writes ==> t == s)
    && (r.Done? ==> r.sequence == t.memory.checkpoint == |s.history|)
    && (r.Done? || r.FilterRefused? ==> Covered(t) && Fold(map[], Stack(t.disk)) == live)
    && (writes ==> t.disk.wal == [] && (Reopen(t.disk).Some? <==> r.Done? && Reaches(s)))
    && (r.FilterRefused? ==> t.memory.layers == s.memory.layers && t.memory.checkpoint == s.memory.checkpoint)
  }

  /** With nothing appended since, memory holds nothing above the base. */
  lemma CoveredIff(s: System)
    requires Inv(s) && s.phase == Idle
    ensures UpToDate(s) <==> Covered(s)
  {
    hide StackOk, LogMatches, Traces, Sound, Seen, Replay;
  }

  class ShardEngine {
    const shard: Shard
    var manifest: Option<ShardManifest>
    var wal: seq<Logged>
    var nextLSN: nat
    var checkpoint: nat
    var digests: map<nat, Mutation>
    ghost var phase: Phase
    ghost var history: seq<Mutation>
    ghost var run: seq<System>
    ghost var actions: seq<Action>

    ghost function State(): System
      reads this, shard
    {
      System(Disk(manifest, wal), Memory(shard.View(), nextLSN, checkpoint, digests), phase, history)
    }

    /** The engine stands at the end of a run of the recovery model. */
    ghost predicate Traced()
      reads this, shard
    {
      IsRun(run, actions) && |run| > 0 && run[|run| - 1] == State()
    }

    ghost predicate Valid()
      reads this, shard, if shard.immutable == null then {} else {shard.immutable}
    {
      shard.Valid() && Traced() && phase == Idle
    }

    /** No checkpoint has failed to load since the shard was empty or a snapshot was installed. */
    ghost predicate Healthy()
      reads this
    {
      Unbroken(actions)
    }

    constructor ()
      ensures Valid() && Healthy() && history == [] && fresh(shard) && shard.immutable == null
    {
      shard := new Shard();
      manifest, wal, nextLSN, checkpoint, digests := None, [], 1, 0, map[];
      phase, history, actions := Idle, [], [];
      run := [Fresh()];
    }

    /** Records the step just taken. */
    ghost method Step(a: Action)
      requires |run| > 0 && IsRun(run, actions) && Next(run[|run| - 1], a, State())
      modifies this`run, this`actions
      ensures Traced() && run == old(run) + [State()] && actions == old(actions) + [a]
      ensures Healthy() <==> a.AdoptSnapshot? || (a != LoadFails && old(Healthy()))
    {
      hide Next;
      assert (actions + [a])[..|actions|] == actions;
      run, actions := run + [State()], actions + [a];
    }

    /** Appends to the log; from here on the change is durable. */
    method AppendLog(mu: Mutation) returns (lsn: nat)
      requires Traced() && phase == Idle && Recovery.Valid(mu)
      modifies this
      ensures Traced() && phase == Appended && history == old(history) + [mu] && lsn == old(nextLSN)
      ensures wal == old(wal) + [Logged(lsn, mu)] && nextLSN == old(nextLSN) + 1
      ensures manifest == old(manifest) && checkpoint == old(checkpoint) && digests == old(digests) && old(run) <= run
      ensures Healthy() <==> old(Healthy())
    {
      lsn := nextLSN;
      wal := wal + [Logged(lsn, mu)];
      nextLSN := nextLSN + 1;
      phase, history := Appended, history + [mu];
      Step(Append(mu));
    }

    method ApplyLast(mu: Mutation, remember: bool)
      requires shard.Valid() && Traced() && phase == Appended && wal != [] && wal[|wal| - 1].mutation == mu
      modifies this, shard
      ensures Valid() && history == old(history) && nextLSN == old(nextLSN) && shard.immutable == old(shard.immutable)
      ensures Seen(shard.View()) == Act(old(Seen(shard.View())), mu)
      ensures manifest == old(manifest) && checkpoint == old(checkpoint) && wal == old(wal) && old(run) <= run
      ensures digests == if remember then old(digests)[wal[|wal| - 1].lsn := mu] else old(digests)
      ensures Healthy() <==> old(Healthy())
    {
      hide Sound, Seen, Apply;
      ApplyMutation(shard, mu);
      if remember { digests := digests[wal[|wal| - 1].lsn := mu]; }
      phase := Idle;
      Step(ApplyAppended(remember));
    }

    /** What a healthy engine shows: exactly the map its history gives. */
    lemma Shows()
      requires Valid() && Healthy()
      ensures Seen(shard.View()) == Replay(history) && shard.count == |Replay(history)| && nextLSN == |history| + 1
      ensures checkpoint < nextLSN && Inv(State())
    {
      hide Next, Seen, Replay, Reopen, Inv, Opens;
      assert actions[..|run| - 1] == actions;
      CrashRecovery(run, actions, |run| - 1);
      RunKeeps(run, actions, |run| - 1);
    }

    lemma ShowsIf()
      requires Valid()
      ensures Healthy() ==> Seen(shard.View()) == Replay(history)
    {
      if Healthy() { Shows(); }
    }

    method BatchUpsert(records: seq<Record>) returns (r: Result)
      requires Valid()
      modifies this, shard
      ensures Valid() && shard.immutable == old(shard.immutable) && old(run) <= run
      ensures r == if 0 < |records| <= MAX_BATCH then Done(old(nextLSN)) else InvalidBatch
      ensures history == old(history) + if r.Done? then [Put(records)] else []
      ensures Seen(shard.View()) == if r.Done? then Act(old(Seen(shard.View())), Put(records))
              else old(Seen(shard.View()))
      ensures Healthy() <==> old(Healthy())
      ensures Healthy() ==> Seen(shard.View()) == Replay(history)
    {
      hide Sound, Seen, Apply, Next, Inv, IsRun, Unbroken, Act, Replay;
      if |records| == 0 || |records| > MAX_BATCH {
        ShowsIf();
        return InvalidBatch;
      }
      var lsn := AppendLog(Put(records));
      ApplyLast(Put(records), false);
      ShowsIf();
      r := Done(lsn);
    }

    method Remove(key: Key) returns (r: Result)
      requires Valid()
      modifies this, shard
      ensures Valid() && shard.immutable == old(shard.immutable) && old(run) <= run
      ensures r == if key in old(Seen(shard.View())) then Done(old(nextLSN)) else Missing
      ensures history == old(history) + if r.Done? then [Recovery.Remove(key)] else []
      ensures Seen(shard.View()) == old(Seen(shard.View())) - {key}
      ensures Healthy() <==> old(Healthy())
      ensures Healthy() ==> Seen(shard.View()) == Replay(history) && (r.Done? <==> key in Replay(old(history)))
    {
      hide Sound, Seen, Apply, Next, Inv, IsRun, Unbroken, Replay;
      ShowsIf();
      var found := shard.Get(key);
      if found.NotFound? { return Missing; }
      var lsn := AppendLog(Recovery.Remove(key));
      ApplyLast(Recovery.Remove(key), false);
      ShowsIf();
      r := Done(lsn);
    }

    /** Nothing to write: the last checkpoint is current. */
    predicate Current()
      reads this, shard
    {
      manifest.Some? && manifest.value.format == 3 && nextLSN - 1 == manifest.value.maxLSN && shard.active == map[]
          && shard.tombstones == {}
    }

    /** Builds the manifest a checkpoint would publish; nothing durable changes. */
    method PlanManifest(size: nat, mergedSize: nat)
        returns (refused: bool, m: ShardManifest, ghost delta: seq<Record>, ghost dead: seq<Key>)
      requires Valid() && Healthy() && !Current() && Readable(State().disk)
      ensures refused <==> AtCap(State(), size)
      ensures !refused ==> Publishes(State(), delta, dead, size, m)
      ensures !refused ==> Fold(map[], m.segments) == Seen(shard.View())
    {
      hide Sound, Seen, Fold, IsListing, Compacted, InOrder, IsRun, Inv, PutAll, Unbroken, Readable,
          Stuck, AtCap;
      Shows();
      var changed, gone := shard.CheckpointDelta();
      var keys := KeyList(gone);
      delta, dead := changed, keys;
      var records := shard.RecordsNow();
      var refs := if manifest.Some? then manifest.value.segments else [];
      if manifest.None? || |changed| != 0 || |gone| != 0 {
        refs := refs + [Segment(Delta(nextLSN - 1), changed, keys, nextLSN - 1, size)];
      }
      ListingEmpty(shard.active, changed);
      assert refs == Extended(State(), delta, dead, size) by { assert Stack(State().disk) + [] == Stack(State().disk); }
      ExtendedFacts(State(), delta, dead, size);
      ListingPut(Seen(shard.View()), records);
      var result;
      result, refused := Compact(refs, nextLSN - 1, mergedSize);
      m := ShardManifest(3, result, nextLSN - 1, |records|, MetadataOf(records));
    }

    /**
     * Publishes a manifest, resets the log, then loads the filter file and installs the stack as the new base. A
     * filter file that does not load is noticed last: the shard goes on with what it has in memory and does not open
     * again. That the new manifest will not be accepted is not noticed at all, only by the next checkpoint, which
     * refuses.
     */
    method Checkpoint(split: F.Splitter, size: nat, mergedSize: nat) returns (r: Result)
      requires Valid() && Healthy()
      modifies this, shard, if shard.immutable == null then {} else {shard.immutable}
      ensures Valid() && old(run) <= run && (Healthy() <==> !r.FilterRefused?)
      ensures Ends(old(State()), size, r, State())
    {
      hide Sound, Seen, Fold, IsListing, Compacted, InOrder, Inv, Next, Publishes, Unbroken, FilterLoads, Clean, Reopen,
          IsRun, ManifestLoads, Reaches, Replay, AtCap;
      Shows();
      CoveredIff(State());
      if manifest.Some? {
        var accepted := CheckManifest(manifest.value);
        if !accepted { return ManifestRefused; }
      }
      if Current() {
        CurrentFold(State());
        return Done(nextLSN - 1);
      }
      r := WriteOut(split, size, mergedSize);
    }

    /** A checkpoint that has something to write. */
    method WriteOut(split: F.Splitter, size: nat, mergedSize: nat) returns (r: Result)
      requires Valid() && Healthy() && !Current() && Readable(State().disk)
      modifies this, shard, if shard.immutable == null then {} else {shard.immutable}
      ensures Valid() && old(run) <= run && (Healthy() <==> !r.FilterRefused?)
      ensures Ends(old(State()), size, r, State())
    {
      hide Sound, Seen, Fold, IsListing, Compacted, InOrder, Inv, Next, Publishes, Unbroken, FilterLoads, Clean, Reopen,
          IsRun, Readable, Reaches, Replay, AtCap;
      Shows();
      CoveredIff(State());
      var refused, m, delta, dead := PlanManifest(size, mergedSize);
      if refused { return CapReached; }
      r := Commit(split, m, size, delta, dead);
    }

    /** The durable half of a checkpoint. */
    method Commit(split: F.Splitter, m: ShardManifest, size: nat, ghost delta: seq<Record>, ghost dead: seq<Key>)
        returns (r: Result)
      requires Valid() && Healthy() && Publishes(State(), delta, dead, size, m)
      modifies this, shard, if shard.immutable == null then {} else {shard.immutable}
      ensures Valid() && history == old(history) && old(run) <= run && nextLSN == old(nextLSN)
      ensures Seen(shard.View()) == Replay(history) && wal == [] && manifest == Some(m) && m.maxLSN == nextLSN - 1
      ensures r == if Clean(Replay(history)) then Done(nextLSN - 1) else FilterRefused
      ensures Healthy() <==> r.Done?
      ensures Fold(map[], m.segments) == Replay(history)
      ensures Reopen(Disk(manifest, wal)).Some? <==> r.Done? && old(Reaches(State()))
      ensures r.Done? ==> checkpoint == nextLSN - 1
      ensures m.format == 3
      ensures !r.Done? ==> shard.View() == old(shard.View()) && checkpoint == old(checkpoint)
    {
      hide Sound, Seen, Fold, IsListing, Compacted, InOrder, Inv, Next, Publishes, Unbroken, FilterLoads, Clean, Reopen,
          IsRun, ManifestLoads, Reaches, Replay;
      Shows();
      PublishedLoads(State(), delta, dead, size, m);
      PublishManifest(m, size, delta, dead);
      ResetLog();
      var filter := LoadFilter(split, m);
      if filter == null {
        AbandonLoad();
        return FilterRefused;
      }
      InstallStack();
      Shows();
      r := Done(nextLSN - 1);
    }

    /** The load failed; the manifest stays published and memory stays as it was. */
    ghost method AbandonLoad()
      requires shard.Valid() && Traced() && phase == Cleared && manifest.Some? && !FilterLoads(manifest.value)
      modifies this`phase, this`run, this`actions
      ensures Valid() && old(run) <= run && !Healthy()
    {
      hide Publishes, Reopen, Adopts, IsRun, FilterLoads;
      phase := Idle;
      Step(LoadFails);
    }

    method PublishManifest(m: ShardManifest, size: nat, ghost delta: seq<Record>, ghost dead: seq<Key>)
      requires Valid() && Publishes(State(), delta, dead, size, m)
      modifies this
      ensures Traced() && phase == Published && manifest == Some(m)
      ensures history == old(history) && old(run) <= run && nextLSN == old(nextLSN) && m.maxLSN == nextLSN - 1
      ensures checkpoint == old(checkpoint) && (Healthy() <==> old(Healthy())) && m.format == 3
    {
      hide Sound, Seen, IsListing, Compacted, Extended, UpToDate, FilterOf, Unbroken;
      manifest, phase := Some(m), Published;
      Step(Publish(delta, dead, size, m));
    }

    method ResetLog()
      requires Traced() && phase == Published && manifest.Some?
      modifies this
      ensures Traced() && phase == Cleared && manifest == old(manifest)
      ensures history == old(history) && old(run) <= run && nextLSN == manifest.value.maxLSN + 1
      ensures wal == [] && checkpoint == old(checkpoint) && (Healthy() <==> old(Healthy()))
    {
      hide Publishes, Reopen, Adopts, IsRun, Unbroken;
      wal, nextLSN, digests, phase := [], manifest.value.maxLSN + 1, map[], Cleared;
      Step(Action.Reset);
    }

    method InstallStack()
      requires shard.Valid() && Traced() && phase == Cleared && manifest.Some? && FilterLoads(manifest.value)
      modifies this, shard, if shard.immutable == null then {} else {shard.immutable}
      ensures Valid() && history == old(history) && old(run) <= run && manifest == old(manifest)
      ensures nextLSN == old(nextLSN) && checkpoint == manifest.value.maxLSN && wal == old(wal)
      ensures Healthy() <==> old(Healthy())
    {
      hide Sound, Seen, Fold, IsListing, Publishes, Reopen, Adopts, IsRun, PutAll, Keyed, Unbroken, FilterLoads;
      var m := manifest.value;
      var records, _ := ResolveMapped(m.segments);
      ListingPut(Fold(map[], m.segments), records);
      FoldKeyed(m.segments);
      shard.InstallImmutable(PutAll(map[], records));
      checkpoint, phase := m.maxLSN, Idle;
      Step(InstallBase);
    }

    /** A sequenced change from the leader: appended only at the exact next position, otherwise nothing moves. */
    method ApplyReplicaChange(sequence: nat, mu: Mutation) returns (reply: Replica.Reply)
      requires Valid()
      modifies this, shard
      ensures Valid() && old(run) <= run && shard.immutable == old(shard.immutable)
      ensures reply == Replica.React(old(State().memory), sequence, mu)
      ensures reply.Accepted? ==>
              history == old(history) + [mu] && Seen(shard.View()) == Act(old(Seen(shard.View())), mu)
                  && sequence in digests && digests[sequence] == mu
      ensures Healthy() <==> old(Healthy())
      ensures Healthy() ==> Seen(shard.View()) == Replay(history)
      ensures !reply.Accepted? ==> State() == old(State())
    {
      hide Sound, Seen, Apply, Next, Inv, IsRun, Replay, Unbroken, Act;
      ShowsIf();
      if sequence == 0 || !Recovery.Valid(mu) { return Replica.Invalid; }
      var last := nextLSN - 1;
      if sequence <= last {
        if sequence !in digests { return Replica.Reply.Compacted; }
        if digests[sequence] != mu { return Replica.Conflict; }
        return Replica.Repeated;
      }
      if sequence != last + 1 { return Replica.Gap; }
      var lsn := AppendLog(mu);
      ApplyLast(mu, true);
      ShowsIf();
      reply := Replica.Accepted;
    }

    /**
     * Replaces the whole shard by a snapshot at `sequence`, whatever it holds. If it is the leader's state after
     * `prefix`, the shard's history is that prefix from now on.
     */
    method InstallReplicaSnapshot(sequence: nat, records: seq<Record>, size: nat, ghost prefix: seq<Mutation>)
        returns (installed: bool)
      requires Valid()
      modifies this, shard, if shard.immutable == null then {} else {shard.immutable}
      ensures Valid() && old(run) <= run
      ensures installed <==>
              0 < sequence && old(nextLSN) <= sequence + 1 && DistinctKeys(records) && old(Readable(State().disk))
      ensures installed ==>
                && Healthy() && nextLSN == sequence + 1 && checkpoint == sequence && |history| == sequence
                && Seen(shard.View()) == Replay(history) == PutAll(map[], records)
      ensures installed && |prefix| == sequence && Replay(prefix) == PutAll(map[], records) ==> history == prefix
      ensures !installed ==> State() == old(State())
    {
      hide Sound, Seen, PutAll, Replay, IsRun, DistinctKeys, Unbroken, ManifestLoads;
      if sequence == 0 || sequence + 1 < nextLSN { return false; }
      var distinct := AllDistinct(records);
      if !distinct { return false; }
      if manifest.Some? {
        var accepted := CheckManifest(manifest.value);
        if !accepted { return false; }
      }
      ghost var told := |prefix| == sequence && Replay(prefix) == PutAll(map[], records);
      OneBatchReplays(sequence, records);
      ReplaceAll(sequence, records, size, if told then prefix else OneBatch(sequence, records));
      installed := true;
    }

    /** Manifest publication and log reset count as one durable action here. */
    method ReplaceAll(sequence: nat, records: seq<Record>, size: nat, ghost prefix: seq<Mutation>)
      requires Valid() && |prefix| == sequence && Adopts(State(), prefix, records)
      modifies this, shard, if shard.immutable == null then {} else {shard.immutable}
      ensures Valid() && old(run) <= run && Healthy()
      ensures history == prefix && nextLSN == sequence + 1 && checkpoint == sequence
              && Seen(shard.View()) == Replay(prefix)
    {
      hide Sound, Seen, Publishes, Reopen, PutAll, Replay, Apply, IsRun, Keyed, Unbroken, MetadataOf, Fold,
          DistinctKeys, FilterLoads;
      EmptyKeyed();
      PutAllKeyed(map[], records);
      manifest, wal, nextLSN := Some(SnapshotManifest(sequence, records, size)), [], sequence + 1;
      shard.InstallImmutable(PutAll(map[], records));
      checkpoint, digests := sequence, map[];
      history := prefix;
      Step(AdoptSnapshot(prefix, records, size));
    }
  }

  method AllDistinct(records: seq<Record>) returns (ok: bool)
    ensures ok <==> DistinctKeys(records)
  {
    var seen: set<Key> := {};
    for i := 0 to |records|
      invariant DistinctKeys(records[..i]) && seen == KeysOf(records[..i])
    {
      assert records[..i + 1] == records[..i] + [records[i]];
      if records[i].key in seen {
        Collides(records, i);
        return false;
      }
      seen := seen + {records[i].key};
    }
    assert records[..|records|] == records;
    ok := true;
  }

  lemma Collides(records: seq<Record>, i: nat)
    requires i < |records| && records[i].key in KeysOf(records[..i])
    ensures !DistinctKeys(records)
  {
    var r :| r in records[..i] && r.key == records[i].key;
    var j :| 0 <= j < i && records[..i][j] == r;
    assert records[j].key == records[i].key;
  }

  lemma CurrentFold(s: System)
    requires Inv(s) && s.phase == Idle && UpToDate(s)
    ensures Fold(map[], Stack(s.disk)) == Replay(s.history) && s.memory.checkpoint == s.memory.nextLSN - 1
  {
    hide Seen, Sound, InOrder;
    assert s.history[..|s.history|] == s.history;
  }

  lemma ExtendedFacts(s: System, delta: seq<Record>, dead: seq<Key>, size: nat)
    requires Inv(s) && s.phase == Idle
    requires IsListing(s.memory.layers.active, delta) && Elements(dead) == s.memory.layers.tombstones
    ensures s.memory.nextLSN > 0 && InOrder(Extended(s, delta, dead, size))
    ensures Fold(map[], Extended(s, delta, dead, size)) == Seen(s.memory.layers)
    ensures Stuck(Extended(s, delta, dead, size)) <==> AtCap(s, size)
  {
    hide Inv, Extended, InOrder, Fold, Seen, IsListing, Stuck;
    Position(s);
    ExtendedShows(s, delta, dead, size);
    ExtendedInOrder(s, delta, dead, size);
    CapSizes(s, delta, dead, size);
  }

  lemma CapSizes(s: System, delta: seq<Record>, dead: seq<Key>, size: nat)
    requires s.memory.nextLSN > 0
    ensures Stuck(Extended(s, delta, dead, size)) <==> Stuck(Extended(s, [], [], size))
  {
    hide Stuck;
    StuckSizes(Extended(s, delta, dead, size), Extended(s, [], [], size));
  }

  /** Whether what a checkpoint publishes can be read back is settled before. */
  lemma PublishedLoads(s: System, delta: seq<Record>, dead: seq<Key>, size: nat, m: ShardManifest)
    requires Inv(s) && s.phase == Idle && Publishes(s, delta, dead, size, m)
    ensures FilterLoads(m) <==> Clean(Replay(s.history))
    ensures Fold(map[], m.segments) == Replay(s.history)
    ensures Reopen(Disk(Some(m), [])).Some? <==> FilterLoads(m) && Reaches(s)
  {
    hide Inv, Publishes, Fold, Replay, Clean, F.AllStorable, Seen, InOrder, BundleFirst, Reaches, ManifestLoads;
    PublishedStack(s, delta, dead, size, m);
    PublishedReadable(s, delta, dead, size, m);
    assert m.maxLSN == |s.history| && s.history[..m.maxLSN] == s.history by
        { PublishedPosition(s, delta, dead, size, m); }
  }

  lemma PublishedPosition(s: System, delta: seq<Record>, dead: seq<Key>, size: nat, m: ShardManifest)
    requires Inv(s) && Publishes(s, delta, dead, size, m)
    ensures m.maxLSN == |s.history| && s.history[..m.maxLSN] == s.history
  {
    hide DiskOk, LayersOk, Compacted, FilterOf, IsListing, Seen;
  }
}
