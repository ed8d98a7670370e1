/**
 * Crash recovery of one shard. The durable state is a manifest naming a stack of segments and a write-ahead log;
 * a process may stop between any two durable actions and is then reopened from the disk alone.
 */
module Recovery {
  import opened Strings
  import opened Collections
  import opened Records
  import opened Segments
  import opened ShardLayers
  import F = Filters

  datatype Mutation = Put(records: seq<Record>) | Remove(key: Key)

  const MAX_BATCH: nat := 10000

  predicate Valid(mu: Mutation)
  {
    mu.Put? ==> 0 < |mu.records| <= MAX_BATCH
  }

  function Act(m: Live, mu: Mutation): Live
  {
    match mu
    case Put(records) => PutAll(m, records)
    case Remove(key) => m - {key}
  }

  /** The reference: a plain map to which every appended mutation is applied in order. */
  function Replay(history: seq<Mutation>): Live
  {
    if history == [] then map[] else Act(Replay(history[..|history| - 1]), history[|history| - 1])
  }

  /* ---------- the layered shard follows the map ---------- */

  function PutLayers(l: Layers, records: seq<Record>): Layers
  {
    if records == [] then l else Upsert(PutLayers(l, records[..|records| - 1]), records[|records| - 1])
  }

  function Apply(l: Layers, mu: Mutation): Layers
  {
    match mu
    case Put(records) => PutLayers(l, records)
    case Remove(key) => Delete(l, key)
  }

  lemma {:induction false} PutLayersSeen(l: Layers, records: seq<Record>)
    requires Sound(l)
    ensures Sound(PutLayers(l, records)) && Seen(PutLayers(l, records)) == PutAll(Seen(l), records)
    ensures PutLayers(l, records).base == l.base
    decreases |records|
  {
    hide Sound, Seen;
    if records != [] {
      PutLayersSeen(l, records[..|records| - 1]);
      UpsertSeen(PutLayers(l, records[..|records| - 1]), records[|records| - 1]);
    }
  }

  lemma ApplySeen(l: Layers, mu: Mutation)
    requires Sound(l)
    ensures Sound(Apply(l, mu)) && Seen(Apply(l, mu)) == Act(Seen(l), mu) && Apply(l, mu).base == l.base
  {
    hide Sound, Seen;
    match mu
    case Put(records) => PutLayersSeen(l, records);
    case Remove(key) => DeleteSeen(l, key);
  }

  function Touched(mu: Mutation): set<Key>
  {
    match mu
    case Put(records) => KeysOf(records)
    case Remove(key) => {key}
  }

  function AllTouched(changes: seq<Mutation>): set<Key>
  {
    if changes == [] then {} else AllTouched(changes[..|changes| - 1]) + Touched(changes[|changes| - 1])
  }

  /** Above the base a shard keeps something of a touched key exactly if the key is in the base or is seen. */
  ghost predicate Traces(l: Layers, touched: set<Key>)
  {
    forall k :: (k in l.active || k in l.tombstones) <==> k in touched && (k in BaseOf(l) || k in Seen(l))
  }

  lemma {:induction false} PutTraces(l: Layers, records: seq<Record>, touched: set<Key>)
    requires Traces(l, touched)
    ensures Traces(PutLayers(l, records), touched + KeysOf(records))
    decreases |records|
  {
    hide Traces;
    if records == [] {
      assert KeysOf(records) == {} && touched + {} == touched;
    } else {
      var n := |records| - 1;
      PutTraces(l, records[..n], touched);
      UpsertTraces(PutLayers(l, records[..n]), records[n], touched + KeysOf(records[..n]));
      assert records == records[..n] + [records[n]];
      assert touched + KeysOf(records) == touched + KeysOf(records[..n]) + {records[n].key};
    }
  }

  lemma UpsertTraces(l: Layers, r: Record, touched: set<Key>)
    requires Traces(l, touched)
    ensures Traces(Upsert(l, r), touched + {r.key})
  {
    var t := Upsert(l, r);
    forall k ensures (k in t.active || k in t.tombstones) <==>
        k in touched + {r.key} && (k in BaseOf(t) || k in Seen(t))
    {
      assert (k in l.active || k in l.tombstones) <==> k in touched && (k in BaseOf(l) || k in Seen(l));
    }
  }

  lemma DeleteTraces(l: Layers, key: Key, touched: set<Key>)
    requires Sound(l) && Traces(l, touched)
    ensures Traces(Delete(l, key), touched + {key})
  {
    var t := Delete(l, key);
    forall k ensures (k in t.active || k in t.tombstones) <==>
        k in touched + {key} && (k in BaseOf(t) || k in Seen(t))
    {
      assert (k in l.active || k in l.tombstones) <==> k in touched && (k in BaseOf(l) || k in Seen(l));
    }
  }

  lemma ApplyTraces(l: Layers, changes: seq<Mutation>, mu: Mutation)
    requires Sound(l) && Traces(l, AllTouched(changes))
    ensures Traces(Apply(l, mu), AllTouched(changes + [mu]))
  {
    hide Traces, Sound;
    assert (changes + [mu])[..|changes|] == changes;
    match mu
    case Put(records) => PutTraces(l, records, AllTouched(changes));
    case Remove(key) => DeleteTraces(l, key, AllTouched(changes));
  }

  lemma NoTraces(l: Layers, touched: set<Key>)
    requires l.active == map[] && l.tombstones == {} && touched == {}
    ensures Traces(l, touched)
  {
  }

  /* ---------- disk, memory, reopening ---------- */

  /** `filter` is the metadata the filter file was written from, in the order of its ordinals. */
  datatype ShardManifest = ShardManifest(format: nat, segments: seq<Segment>, maxLSN: nat, count: nat,
      filter: seq<F.Metadata>)

  /** The filter file loads for the manifest's record count. */
  predicate FilterLoads(m: ShardManifest)
  {
    |m.filter| == m.count && F.AllStorable(m.filter)
  }

  /**
   * The manifest file is accepted: a snapshot's always, a checkpoint's if its segments rise, not too many of them,
   * and the last one stands at the manifest's own position.
   */
  predicate ManifestLoads(m: ShardManifest)
  {
    var n := |m.segments|;
    m.format == 2 ||
    (&& m.format == 3 && 0 < n <= MAX_LISTED && m.segments[n - 1].maxLSN == m.maxLSN
     && forall i :: 0 < i < n ==> m.segments[i - 1].maxLSN < m.segments[i].maxLSN <= m.maxLSN)
  }

  const MAX_LISTED: nat := 16

  /** The manifest on disk, if there is one, is accepted. */
  predicate Readable(d: Disk)
  {
    d.manifest.Some? ==> ManifestLoads(d.manifest.value)
  }

  datatype Logged = Logged(lsn: nat, mutation: Mutation)

  datatype Disk = Disk(manifest: Option<ShardManifest>, wal: seq<Logged>)

  /** `digests` keeps the payload of every log record this process has seen since the last checkpoint. */
  datatype Memory = Memory(layers: Layers, nextLSN: nat, checkpoint: nat, digests: map<nat, Mutation>)

  function Checkpointed(d: Disk): nat
  {
    if d.manifest.Some? then d.manifest.value.maxLSN else 0
  }

  function Stack(d: Disk): seq<Segment>
  {
    if d.manifest.Some? then d.manifest.value.segments else []
  }

  predicate Contiguous(wal: seq<Logged>)
  {
    && (forall i :: 0 < i < |wal| && wal[i - 1].lsn != 0 ==> wal[i].lsn == wal[i - 1].lsn + 1)
    && (forall i :: 0 <= i < |wal| ==> Valid(wal[i].mutation))
  }

  /**
   * From a first position on, the log that is accepted has every position once and in order, and only valid batches.
   */
  lemma {:induction false} ContiguousExact(wal: seq<Logged>)
    requires wal != [] && wal[0].lsn > 0
    ensures Contiguous(wal) <==>
            forall i :: 0 <= i < |wal| ==> wal[i].lsn == wal[0].lsn + i && Valid(wal[i].mutation)
    decreases |wal|
  {
    hide Valid;
    var n := |wal| - 1;
    if n > 0 {
      ContiguousExact(wal[..n]);
      ContiguousInit(wal, n);
    }
  }

  lemma ContiguousInit(wal: seq<Logged>, n: nat)
    requires n < |wal| && n == |wal| - 1 > 0
    ensures Contiguous(wal) <==>
            && Contiguous(wal[..n]) && Valid(wal[n].mutation)
            && (wal[n - 1].lsn != 0 ==> wal[n].lsn == wal[n - 1].lsn + 1)
  {
    hide Valid;
    var rest := wal[..n];
    if Contiguous(rest) && Valid(wal[n].mutation) && (wal[n - 1].lsn != 0 ==> wal[n].lsn == wal[n - 1].lsn + 1) {
      forall i | 0 < i < |wal| && wal[i - 1].lsn != 0 ensures wal[i].lsn == wal[i - 1].lsn + 1
      {
        if i < n { assert rest[i].lsn == rest[i - 1].lsn + 1; }
      }
      forall i | 0 <= i < |wal| ensures Valid(wal[i].mutation) { assert i < n ==> rest[i] == wal[i]; }
    }
  }

  /** Log records at or below `after` are read but not applied. */
  function ReplayLog(l: Layers, wal: seq<Logged>, after: nat): Layers
  {
    if wal == [] then l
    else
      var n := |wal| - 1;
      var before := ReplayLog(l, wal[..n], after);
      if wal[n].lsn > after then Apply(before, wal[n].mutation) else before
  }

  function Retained(wal: seq<Logged>, after: nat): map<nat, Mutation>
  {
    if wal == [] then map[]
    else
      var n := |wal| - 1;
      var before := Retained(wal[..n], after);
      if wal[n].lsn > after then before[wal[n].lsn := wal[n].mutation] else before
  }

  function Loaded(d: Disk): Layers
  {
    if d.manifest.Some? then Install(Fold(map[], d.manifest.value.segments)) else EMPTY
  }

  function NextLSN(d: Disk): nat
  {
    if d.wal == [] || d.wal[|d.wal| - 1].lsn == 0 then Checkpointed(d) + 1 else d.wal[|d.wal| - 1].lsn + 1
  }

  /**
   * None is a refusal to open: a manifest that is not accepted, a wrong record count, a filter file that does not
   * load, or a log that is not contiguous or holds a malformed batch.
   */
  function Reopen(d: Disk): Option<Memory>
  {
    if !Readable(d) then None
    else if d.manifest.Some? && |Fold(map[], d.manifest.value.segments)| != d.manifest.value.count then None
    else if d.manifest.Some? && !FilterLoads(d.manifest.value) then None
    else if !Contiguous(d.wal) then None
    else Some(Memory(ReplayLog(Loaded(d), d.wal, Checkpointed(d)), NextLSN(d), Checkpointed(d),
        Retained(d.wal, Checkpointed(d))))
  }

  /* ---------- the steps between durable actions ---------- */

  /** Where the engine is inside an operation; nothing but memory is lost when it stops there. */
  datatype Phase = Idle | Appended | Published | Cleared

  datatype System = System(disk: Disk, memory: Memory, phase: Phase, history: seq<Mutation>)

  function Fresh(): System
  {
    System(Disk(None, []), Memory(EMPTY, 1, 0, map[]), Idle, [])
  }

  datatype Action =
    | Append(mutation: Mutation)
    | ApplyAppended(remember: bool)
    | Publish(delta: seq<Record>, dead: seq<Key>, size: nat, manifest: ShardManifest)
    | Reset
    | InstallBase
    | LoadFails
    | AdoptSnapshot(history: seq<Mutation>, records: seq<Record>, size: nat)
    | Crash

  /** A checkpoint has nothing to do. */
  predicate UpToDate(s: System)
  {
    && s.disk.manifest.Some? && s.disk.manifest.value.format == 3
    && s.memory.nextLSN - 1 == s.disk.manifest.value.maxLSN
    && s.memory.layers.active == map[] && s.memory.layers.tombstones == {}
  }

  predicate WritesDelta(s: System)
  {
    s.disk.manifest.None? || s.memory.layers.active != map[] || s.memory.layers.tombstones != {}
  }

  /** The stack before compaction: the old segments and, when there is one, the new delta. */
  function Extended(s: System, delta: seq<Record>, dead: seq<Key>, size: nat): seq<Segment>
    requires s.memory.nextLSN > 0
  {
    var n := s.memory.nextLSN - 1;
    Stack(s.disk) + if WritesDelta(s) then [Segment(Delta(n), delta, dead, n, size)] else []
  }

  /** The metadata of the records of `live`, in key order. */
  ghost predicate FilterOf(live: Live, filter: seq<F.Metadata>)
  {
    exists records :: IsListing(live, records) && filter == MetadataOf(records)
  }

  ghost predicate Publishes(s: System, delta: seq<Record>, dead: seq<Key>, size: nat, m: ShardManifest)
  {
    && s.memory.nextLSN > 0
    && Readable(s.disk) && !UpToDate(s)
    && IsListing(s.memory.layers.active, delta) && Elements(dead) == s.memory.layers.tombstones
    && Compacted(Extended(s, delta, dead, size), s.memory.nextLSN - 1, m.segments)
    && (|Extended(s, delta, dead, size)| >= MAX_SEGMENTS ==> |m.segments| < |Extended(s, delta, dead, size)|)
    && m.format == 3 && m.maxLSN == s.memory.nextLSN - 1 && m.count == |Seen(s.memory.layers)|
    && FilterOf(Seen(s.memory.layers), m.filter)
  }

  ghost predicate DistinctKeys(records: seq<Record>)
  {
    forall i, j :: 0 <= i < j < |records| ==> records[i].key != records[j].key
  }

  function SnapshotManifest(sequence: nat, records: seq<Record>, size: nat): ShardManifest
  {
    ShardManifest(2, [Segment(Bundle(sequence), records, [], sequence, size)], sequence, |records|,
        MetadataOf(records))
  }

  ghost predicate Adopts(s: System, history: seq<Mutation>, records: seq<Record>)
  {
    && |history| > 0 && |history| + 1 >= s.memory.nextLSN && Readable(s.disk)
    && DistinctKeys(records) && PutAll(map[], records) == Replay(history)
  }

  ghost predicate Next(s: System, a: Action, t: System)
  {
    match a
    case Append(mu) =>
      && s.phase == Idle && Valid(mu)
      && t == s.(disk := s.disk.(wal := s.disk.wal + [Logged(s.memory.nextLSN, mu)]),
                 memory := s.memory.(nextLSN := s.memory.nextLSN + 1), phase := Appended, history := s.history + [mu])
    case ApplyAppended(remember) =>
      && s.phase == Appended && s.disk.wal != []
      && var last := s.disk.wal[|s.disk.wal| - 1];
         t == s.(memory := s.memory.(layers := Apply(s.memory.layers, last.mutation),
                                     digests := if remember then s.memory.digests[last.lsn := last.mutation]
                                         else s.memory.digests),
                 phase := Idle)
    case Publish(delta, dead, size, m) =>
      && s.phase == Idle && Publishes(s, delta, dead, size, m)
      && t == s.(disk := s.disk.(manifest := Some(m)), phase := Published)
    case Reset =>
      && s.phase == Published
      && t == s.(disk := s.disk.(wal := []), memory := s.memory.(nextLSN := Checkpointed(s.disk) + 1, digests :=
         map[]), phase := Cleared)
    case InstallBase =>
      && s.phase == Cleared && s.disk.manifest.Some? && FilterLoads(s.disk.manifest.value)
      && t == s.(memory := s.memory.(layers := Install(Fold(map[], Stack(s.disk))), checkpoint :=
         Checkpointed(s.disk)), phase := Idle)
    case LoadFails =>
      // The checkpoint returns an error; the manifest is published, the log is empty, memory is as it was.
      && s.phase == Cleared && s.disk.manifest.Some? && !FilterLoads(s.disk.manifest.value)
      && t == s.(phase := Idle)
    case AdoptSnapshot(history, records, size) =>
      && s.phase == Idle && Adopts(s, history, records)
      && t == System(Disk(Some(SnapshotManifest(|history|, records, size)), []),
                     Memory(Install(PutAll(map[], records)), |history| + 1, |history|, map[]), Idle, history)
    case Crash =>
      && Reopen(s.disk).Some?
      && t == s.(memory := Reopen(s.disk).value, phase := Idle)
  }

  ghost predicate IsRun(run: seq<System>, actions: seq<Action>)
  {
    && |run| == |actions| + 1 && run[0] == Fresh()
    && forall i :: 0 <= i < |actions| ==> Next(run[i], actions[i], run[i + 1])
  }

  /* ---------- the invariant ---------- */

  ghost predicate LogMatches(wal: seq<Logged>, history: seq<Mutation>)
  {
    && |wal| <= |history|
    && forall i :: 0 <= i < |wal| ==> wal[i] == Logged(|history| - |wal| + i + 1, history[|history| - |wal| + i])
  }

  ghost predicate StackOk(m: ShardManifest, history: seq<Mutation>)
  {
    && m.maxLSN <= |history|
    && Fold(map[], m.segments) == Replay(history[..m.maxLSN])
    && m.count == |Fold(map[], m.segments)|
    && InOrder(m.segments)
    && (forall x :: x in m.segments ==> Within(x, m.maxLSN))
    && 0 < |m.segments| < MAX_SEGMENTS
    && (m.format == 3 || (m.format == 2 && |m.segments| == 1 && m.segments[0].maxLSN == m.maxLSN))
    && BundleFirst(m.segments)
    && |m.filter| == m.count && (F.AllStorable(m.filter) <==> Clean(Fold(map[], m.segments)))
  }

  /** Only the oldest segment can be a snapshot's bundle. */
  ghost predicate BundleFirst(segments: seq<Segment>)
  {
    forall i :: 0 <= i < |segments| && segments[i].file.Bundle? ==> i == 0 && segments[i].tombstones == []
  }

  /** Written while the log was at `n` or before. */
  predicate Within(x: Segment, n: nat)
  {
    x.maxLSN <= n && (x.file.Merged? ==> x.file.sequence <= n)
  }

  ghost predicate DiskOk(d: Disk, history: seq<Mutation>)
  {
    && LogMatches(d.wal, history)
    && (forall i :: 0 <= i < |d.wal| ==> Valid(d.wal[i].mutation))
    && (d.manifest.Some? ==> StackOk(d.manifest.value, history))
    && |history| - |d.wal| <= Checkpointed(d) <= |history|
  }

  /** What memory holds between operations, `done` being the mutations applied to it. */
  ghost predicate LayersOk(l: Layers, d: Disk, history: seq<Mutation>, done: nat)
    requires Checkpointed(d) <= done <= |history|
  {
    && Sound(l) && Seen(l) == Replay(history[..done])
    && (d.manifest.None? ==> l.base == None)
    && (d.manifest.Some? ==> l.base == Some(Replay(history[..Checkpointed(d)])))
    && (Checkpointed(d) == done ==> l.active == map[] && l.tombstones == {})
    && Traces(l, AllTouched(history[Checkpointed(d)..done]))
  }

  ghost predicate DigestsOk(digests: map<nat, Mutation>, history: seq<Mutation>)
  {
    forall i :: i in digests ==> 0 < i <= |history| && digests[i] == history[i - 1]
  }

  ghost predicate Inv(s: System)
  {
    && DiskOk(s.disk, s.history)
    && s.memory.nextLSN == |s.history| + 1
    && DigestsOk(s.memory.digests, s.history)
    && (s.phase == Idle ==>
       LayersOk(s.memory.layers, s.disk, s.history, |s.history|) && s.memory.checkpoint == Checkpointed(s.disk))
    && (s.phase == Appended ==>
          && s.disk.wal != [] && Checkpointed(s.disk) < |s.history| && s.memory.checkpoint == Checkpointed(s.disk)
          && LayersOk(s.memory.layers, s.disk, s.history, |s.history| - 1))
    && (s.phase == Published || s.phase == Cleared ==>
          s.disk.manifest.Some? && Checkpointed(s.disk) == |s.history| && s.memory.checkpoint <= |s.history|
              && Seen(s.memory.layers) == Replay(s.history))
    && (s.phase == Cleared ==> s.disk.wal == [])
  }

  /* ---------- reopening ---------- */

  lemma {:induction false} ReplayLogSeen(l: Layers, wal: seq<Logged>, history: seq<Mutation>, ck: nat)
    requires LogMatches(wal, history) && |history| - |wal| <= ck <= |history|
    requires Sound(l) && Seen(l) == Replay(history[..ck]) && l.active == map[] && l.tombstones == {}
    ensures var r := ReplayLog(l, wal, ck);
            && Sound(r) && Seen(r) == Replay(history) && r.base == l.base
            && (ck == |history| ==> r == l) && Traces(r, AllTouched(history[ck..]))
    decreases |wal|
  {
    hide Sound, Seen, Traces, Apply;
    if |history| == ck {
      ReplayNothing(l, wal, ck);
      assert history[..ck] == history && history[ck..] == [];
      NoTraces(l, AllTouched(history[ck..]));
    } else {
      var n, h := |wal| - 1, |history| - 1;
      assert wal[n] == Logged(h + 1, history[h]);
      LogInit(wal, history);
      assert history[..h][..ck] == history[..ck];
      ReplayLogSeen(l, wal[..n], history[..h], ck);
      ApplySeen(ReplayLog(l, wal[..n], ck), wal[n].mutation);
      assert history[ck..] == history[..h][ck..] + [history[h]];
      ApplyTraces(ReplayLog(l, wal[..n], ck), history[..h][ck..], history[h]);
    }
  }

  lemma LogInit(wal: seq<Logged>, history: seq<Mutation>)
    requires LogMatches(wal, history) && wal != []
    ensures LogMatches(wal[..|wal| - 1], history[..|history| - 1])
  {
  }

  lemma {:induction false} ReplayNothing(l: Layers, wal: seq<Logged>, ck: nat)
    requires forall i :: 0 <= i < |wal| ==> wal[i].lsn <= ck
    ensures ReplayLog(l, wal, ck) == l
    decreases |wal|
  {
    if wal != [] { ReplayNothing(l, wal[..|wal| - 1], ck); }
  }

  lemma {:induction false} RetainedOk(wal: seq<Logged>, history: seq<Mutation>, ck: nat)
    requires LogMatches(wal, history)
    ensures DigestsOk(Retained(wal, ck), history)
    decreases |wal|
  {
    if wal != [] {
      LogInit(wal, history);
      RetainedOk(wal[..|wal| - 1], history[..|history| - 1], ck);
    }
  }

  lemma EmptySound()
    ensures Sound(EMPTY) && Seen(EMPTY) == map[]
  {
  }

  lemma LoadedOk(d: Disk, history: seq<Mutation>)
    requires DiskOk(d, history)
    ensures LayersOk(Loaded(d), d, history, Checkpointed(d))
  {
    hide Fold, Sound, Seen, Traces, InOrder, BundleFirst, Clean, F.AllStorable, LogMatches;
    if d.manifest.Some? {
      FoldKeyed(Stack(d));
      InstallSound(Fold(map[], Stack(d)));
    } else {
      assert history[..0] == [];
      EmptySound();
    }
    assert history[Checkpointed(d)..Checkpointed(d)] == [];
    NoTraces(Loaded(d), AllTouched(history[Checkpointed(d)..Checkpointed(d)]));
  }

  lemma {:induction false} FoldKeyed(segments: seq<Segment>)
    ensures Keyed(Fold(map[], segments))
    decreases |segments|
  {
    if segments != [] {
      var n := |segments| - 1;
      FoldKeyed(segments[..n]);
      PutAllKeyed(Fold(map[], segments[..n]), segments[n].records);
    }
  }

  /** The manifest is accepted, and what is checkpointed has a filter file that loads. */
  ghost predicate Opens(d: Disk, history: seq<Mutation>)
  {
    Readable(d) && (d.manifest.Some? ==> Checkpointed(d) <= |history| && Clean(Replay(history[..Checkpointed(d)])))
  }

  lemma ReopenOk(d: Disk, history: seq<Mutation>)
    requires DiskOk(d, history)
    ensures Reopen(d).Some? <==> Opens(d, history)
    ensures Reopen(d).Some? ==>
              var m := Reopen(d).value;
              && LayersOk(m.layers, d, history, |history|) && m.nextLSN == |history| + 1
              && m.checkpoint == Checkpointed(d) && DigestsOk(m.digests, history)
  {
    hide Sound, Seen, Install, Fold, InOrder, Clean, F.AllStorable, BundleFirst, Readable, Traces;
    LoadedOk(d, history);
    RetainedOk(d.wal, history, Checkpointed(d));
    LoadedClean(d);
    ReplayLogSeen(Loaded(d), d.wal, history, Checkpointed(d));
    assert history[..|history|] == history && history[Checkpointed(d)..|history|] == history[Checkpointed(d)..];
  }

  lemma LoadedClean(d: Disk)
    ensures Loaded(d).active == map[] && Loaded(d).tombstones == {}
  {
  }

  /* ---------- every step keeps the invariant ---------- */

  lemma LogPush(wal: seq<Logged>, history: seq<Mutation>, mu: Mutation)
    requires LogMatches(wal, history)
    ensures LogMatches(wal + [Logged(|history| + 1, mu)], history + [mu])
  {
  }

  lemma StackLater(m: ShardManifest, history: seq<Mutation>, mu: Mutation)
    requires StackOk(m, history)
    ensures StackOk(m, history + [mu])
  {
    assert (history + [mu])[..m.maxLSN] == history[..m.maxLSN];
  }

  lemma DiskPush(d: Disk, history: seq<Mutation>, mu: Mutation)
    requires DiskOk(d, history) && Valid(mu)
    ensures DiskOk(d.(wal := d.wal + [Logged(|history| + 1, mu)]), history + [mu])
  {
    hide StackOk, LogMatches;
    assert |d.wal| <= |history| by { AssertLog(d.wal, history); }
    LogPush(d.wal, history, mu);
    if d.manifest.Some? { StackLater(d.manifest.value, history, mu); }
  }

  lemma AssertLog(wal: seq<Logged>, history: seq<Mutation>)
    requires LogMatches(wal, history)
    ensures |wal| <= |history|
  {
  }

  lemma LayersLater(l: Layers, d: Disk, history: seq<Mutation>, mu: Mutation)
    requires Checkpointed(d) <= |history| && LayersOk(l, d, history, |history|)
    ensures LayersOk(l, d, history + [mu], |history|)
  {
    hide Sound, Seen, Traces, Replay, AllTouched;
    assert (history + [mu])[..|history|] == history[..|history|];
    assert (history + [mu])[..Checkpointed(d)] == history[..Checkpointed(d)];
    assert (history + [mu])[Checkpointed(d)..|history|] == history[Checkpointed(d)..|history|];
  }

  lemma SameManifestLayers(l: Layers, d: Disk, e: Disk, history: seq<Mutation>, done: nat)
    requires d.manifest == e.manifest && Checkpointed(d) <= done <= |history| && LayersOk(l, d, history, done)
    ensures LayersOk(l, e, history, done)
  {
  }

  lemma AppendKeeps(s: System, mu: Mutation, t: System)
    requires Inv(s) && Next(s, Append(mu), t)
    ensures Inv(t)
  {
    hide DiskOk, LayersOk;
    assert Checkpointed(s.disk) <= |s.history| by { CheckpointBound(s.disk, s.history); }
    DiskPush(s.disk, s.history, mu);
    LayersLater(s.memory.layers, s.disk, s.history, mu);
    SameManifestLayers(s.memory.layers, s.disk, t.disk, t.history, |s.history|);
  }

  lemma CheckpointBound(d: Disk, history: seq<Mutation>)
    requires DiskOk(d, history)
    ensures Checkpointed(d) <= |history|
  {
  }

  lemma ApplyLayers(l: Layers, d: Disk, history: seq<Mutation>)
    requires history != [] && Checkpointed(d) < |history| && LayersOk(l, d, history, |history| - 1)
    ensures LayersOk(Apply(l, history[|history| - 1]), d, history, |history|)
  {
    hide Sound, Seen, Traces, Apply;
    var n, ck := |history| - 1, Checkpointed(d);
    ApplySeen(l, history[n]);
    assert history[..|history|] == history && history[ck..|history|] == history[ck..n] + [history[n]];
    ApplyTraces(l, history[ck..n], history[n]);
  }

  lemma ApplyKeeps(s: System, remember: bool, t: System)
    requires Inv(s) && Next(s, ApplyAppended(remember), t)
    ensures Inv(t)
  {
    hide LayersOk, Apply;
    ApplyLayers(s.memory.layers, s.disk, s.history);
  }

  lemma DeltaShows(l: Layers, under: seq<Segment>, top: Segment)
    requires Sound(l) && BaseOf(l) == Fold(map[], under)
    requires IsListing(l.active, top.records) && Elements(top.tombstones) == l.tombstones
    ensures Fold(map[], under + [top]) == Seen(l)
  {
    DeltaOverBase(l, top.records, l.tombstones);
    hide Sound, Seen, IsListing, PutAll;
    assert (under + [top])[..|under|] == under;
  }

  lemma NoDelta(l: Layers)
    requires l.active == map[] && l.tombstones == {}
    ensures Seen(l) == BaseOf(l)
  {
  }

  lemma BaseIsStack(s: System)
    requires Inv(s) && s.phase == Idle
    ensures Sound(s.memory.layers) && BaseOf(s.memory.layers) == Fold(map[], Stack(s.disk))
  {
    hide Sound, Seen, InOrder;
  }

  /** The delta written on top of the old stack makes the stack show what memory shows. */
  lemma ExtendedShows(s: System, delta: seq<Record>, dead: seq<Key>, size: nat)
    requires Inv(s) && s.phase == Idle
    requires IsListing(s.memory.layers.active, delta) && Elements(dead) == s.memory.layers.tombstones
    ensures Fold(map[], Extended(s, delta, dead, size)) == Seen(s.memory.layers)
  {
    hide Sound, Seen, IsListing, Fold, DiskOk, LayersOk, BaseOf;
    BaseIsStack(s);
    var l, under := s.memory.layers, Stack(s.disk);
    if WritesDelta(s) {
      DeltaShows(l, under, Segment(Delta(s.memory.nextLSN - 1), delta, dead, s.memory.nextLSN - 1, size));
    } else {
      assert under + [] == under;
      NoDelta(l);
    }
  }

  lemma PushInOrder(under: seq<Segment>, top: Segment)
    requires InOrder(under) && top.file.lsn == top.maxLSN && forall x :: x in under ==> x.maxLSN < top.maxLSN
    ensures InOrder(under + [top])
  {
  }

  lemma StackBound(s: System)
    requires Inv(s) && s.phase == Idle
    ensures InOrder(Stack(s.disk)) && forall x :: x in Stack(s.disk) ==> Within(x, Checkpointed(s.disk))
    ensures s.disk.manifest.Some? && WritesDelta(s) ==> Checkpointed(s.disk) < |s.history|
    ensures Checkpointed(s.disk) <= |s.history|
  {
    hide Sound, Seen, Fold;
  }

  lemma ExtendedInOrder(s: System, delta: seq<Record>, dead: seq<Key>, size: nat)
    requires Inv(s) && s.phase == Idle
    ensures InOrder(Extended(s, delta, dead, size))
    ensures forall x :: x in Extended(s, delta, dead, size) ==> Within(x, |s.history|)
  {
    hide InOrder, DiskOk, LayersOk;
    StackBound(s);
    var under, n := Stack(s.disk), |s.history|;
    if WritesDelta(s) {
      PushInOrder(under, Segment(Delta(n), delta, dead, n, size));
    } else {
      assert under + [] == under;
    }
  }

  lemma CompactedBound(segments: seq<Segment>, sequence: nat, result: seq<Segment>, n: nat)
    requires Compacted(segments, sequence, result) && sequence <= n && forall x :: x in segments ==> Within(x, n)
    ensures forall x :: x in result ==> Within(x, n)
  {
    hide Merges;
    if result != segments {
      var from, to, merged :| Replaces(segments, from, to, merged, sequence, result);
      assert segments[to - 1] in segments;
    }
  }

  lemma ExtendedBundle(s: System, delta: seq<Record>, dead: seq<Key>, size: nat)
    requires Inv(s) && s.phase == Idle
    ensures BundleFirst(Extended(s, delta, dead, size))
  {
    hide LayersOk, InOrder, Fold, LogMatches;
  }

  lemma CompactedBundle(segments: seq<Segment>, sequence: nat, result: seq<Segment>)
    requires Compacted(segments, sequence, result) && BundleFirst(segments)
    ensures BundleFirst(result)
  {
    hide Merges;
    if result != segments {
      var from, to, merged :| Replaces(segments, from, to, merged, sequence, result);
      forall i | 0 <= i < |result| ensures result[i].file.Bundle? ==> i == 0 && result[i].tombstones == []
      {
        assert i > from ==> result[i] == segments[i - 1 - from + to];
      }
    }
  }

  /** Compaction leaves the last position of the stack, and too long a stack shorter. */
  lemma CompactedTop(segments: seq<Segment>, sequence: nat, result: seq<Segment>)
    requires Compacted(segments, sequence, result) && segments != []
    ensures result != [] && result[|result| - 1].maxLSN == segments[|segments| - 1].maxLSN && |result| <= |segments|
  {
    hide Merges;
  }

  lemma ExtendedLength(s: System, delta: seq<Record>, dead: seq<Key>, size: nat)
    requires Inv(s) && s.phase == Idle
    ensures 0 < |Extended(s, delta, dead, size)| <= MAX_SEGMENTS
  {
    hide LayersOk, InOrder, Fold, LogMatches, BundleFirst, Clean, F.AllStorable;
  }

  lemma ListingClean(m: Live, records: seq<Record>)
    requires IsListing(m, records)
    ensures F.AllStorable(MetadataOf(records)) <==> Clean(m)
  {
    hide Ascends;
    var filter := MetadataOf(records);
    if Clean(m) {
      forall i | 0 <= i < |filter| ensures F.Storable(filter[i]) { assert records[i].key in m; }
    } else {
      var k :| k in m && !F.Storable(m[k].metadata);
      var i :| 0 <= i < |records| && records[i].key == k;
      assert !F.Storable(filter[i]);
    }
  }

  lemma FilterOfClean(m: Live, filter: seq<F.Metadata>)
    requires FilterOf(m, filter)
    ensures |filter| == |m| && (F.AllStorable(filter) <==> Clean(m))
  {
    hide IsListing, Clean, F.AllStorable;
    var records :| IsListing(m, records) && filter == MetadataOf(records);
    ListingClean(m, records);
    ListingPut(m, records);
  }

  lemma PublishedStack(s: System, delta: seq<Record>, dead: seq<Key>, size: nat, m: ShardManifest)
    requires Inv(s) && s.phase == Idle && Publishes(s, delta, dead, size, m)
    ensures StackOk(m, s.history) && Seen(s.memory.layers) == Replay(s.history)
  {
    hide DiskOk, LayersOk, Fold, Seen, Extended, InOrder, IsListing, UpToDate, Compacted, FilterOf, Clean,
        F.AllStorable, BundleFirst, Readable;
    ExtendedLength(s, delta, dead, size);
    CompactedTop(Extended(s, delta, dead, size), s.memory.nextLSN - 1, m.segments);
    ExtendedBundle(s, delta, dead, size);
    CompactedBundle(Extended(s, delta, dead, size), s.memory.nextLSN - 1, m.segments);
    FilterOfClean(Seen(s.memory.layers), m.filter);
    ExtendedShows(s, delta, dead, size);
    ExtendedInOrder(s, delta, dead, size);
    ShownWhole(s);
    var refs := Extended(s, delta, dead, size);
    CompactedSame(map[], refs, s.memory.nextLSN - 1, m.segments);
    CompactedBound(refs, s.memory.nextLSN - 1, m.segments, |s.history|);
    assert s.history[..m.maxLSN] == s.history;
  }

  lemma PublishKeeps(s: System, delta: seq<Record>, dead: seq<Key>, size: nat, m: ShardManifest, t: System)
    requires Inv(s) && Next(s, Publish(delta, dead, size, m), t)
    ensures Inv(t)
  {
    hide LayersOk, StackOk, Seen, Extended, IsListing, UpToDate, Compacted;
    PublishedStack(s, delta, dead, size, m);
  }

  lemma ShownWhole(s: System)
    requires Inv(s) && s.phase == Idle
    ensures Seen(s.memory.layers) == Replay(s.history)
  {
    assert s.history[..|s.history|] == s.history;
  }

  lemma ResetKeeps(s: System, t: System)
    requires Inv(s) && Next(s, Reset, t)
    ensures Inv(t)
  {
    hide StackOk, Seen;
  }

  lemma InstallKeeps(s: System, t: System)
    requires Inv(s) && Next(s, InstallBase, t)
    ensures Inv(t)
  {
    hide InOrder, Seen, Fold;
    LoadedOk(s.disk, s.history);
    SameManifestLayers(t.memory.layers, s.disk, t.disk, t.history, |t.history|);
  }

  lemma {:induction false} DistinctCount(records: seq<Record>)
    requires DistinctKeys(records)
    ensures |PutAll(map[], records)| == |records|
    decreases |records|
  {
    if records != [] {
      var n := |records| - 1;
      DistinctCount(records[..n]);
      PutAllOver(map[], records[..n]);
      PutSize(PutAll(map[], records[..n]), records[n]);
    }
  }

  lemma {:induction false} DistinctClean(records: seq<Record>)
    requires DistinctKeys(records)
    ensures F.AllStorable(MetadataOf(records)) <==> Clean(PutAll(map[], records))
    decreases |records|
  {
    if records != [] {
      var n := |records| - 1;
      var rest, r := records[..n], records[n];
      DistinctClean(rest);
      PutAllOver(map[], rest);
      assert r.key !in PutAll(map[], rest);
      StorablePush(MetadataOf(rest), r.metadata);
      CleanPush(PutAll(map[], rest), r);
    }
  }

  lemma StorablePush(docs: seq<F.Metadata>, doc: F.Metadata)
    ensures F.AllStorable(docs + [doc]) <==> F.AllStorable(docs) && F.Storable(doc)
  {
    var more := docs + [doc];
    assert more[|docs|] == doc && forall i :: 0 <= i < |docs| ==> more[i] == docs[i];
  }

  lemma CleanPush(m: Live, r: Record)
    ensures Clean(m) && F.Storable(r.metadata) ==> Clean(m[r.key := r])
    ensures r.key !in m && Clean(m[r.key := r]) ==> Clean(m) && F.Storable(r.metadata)
  {
    var t := m[r.key := r];
    assert r.key in t && forall k :: k in m ==> k in t;
  }

  lemma SnapshotShows(sequence: nat, records: seq<Record>, size: nat)
    ensures Fold(map[], SnapshotManifest(sequence, records, size).segments) == PutAll(map[], records)
  {
    var seg := Segment(Bundle(sequence), records, [], sequence, size);
    assert [seg][..0] == [];
    assert PutAll(map[], records) - {} == PutAll(map[], records);
    assert Elements<Key>([]) == {};
  }

  lemma EmptyKeyed()
    ensures Keyed(map[])
  {
  }

  lemma SnapshotOk(history: seq<Mutation>, records: seq<Record>, size: nat)
    requires DistinctKeys(records) && PutAll(map[], records) == Replay(history)
    ensures StackOk(SnapshotManifest(|history|, records, size), history)
    ensures Sound(Install(PutAll(map[], records))) && Seen(Install(PutAll(map[], records))) == Replay(history)
  {
    hide Fold, Seen, Sound, PutAll, Replay, Keyed, Clean, F.AllStorable, MetadataOf, DistinctKeys;
    DistinctCount(records);
    DistinctClean(records);
    SnapshotShows(|history|, records, size);
    EmptyKeyed();
    PutAllKeyed(map[], records);
    InstallSound(PutAll(map[], records));
    assert history[..|history|] == history;
  }

  lemma AdoptKeeps(s: System, history: seq<Mutation>, records: seq<Record>, size: nat, t: System)
    requires Next(s, AdoptSnapshot(history, records, size), t)
    ensures Inv(t)
  {
    hide Fold, Seen, Sound, PutAll, Replay, StackOk;
    SnapshotOk(history, records, size);
    assert history[..|history|] == history;
  }

  lemma CrashKeeps(s: System, t: System)
    requires Inv(s) && Next(s, Crash, t)
    ensures Inv(t)
  {
    hide DiskOk, LayersOk, Reopen;
    ReopenOk(s.disk, s.history);
  }

  lemma NextKeeps(s: System, a: Action, t: System)
    requires Inv(s) && Next(s, a, t) && a != LoadFails
    ensures Inv(t)
  {
    hide Inv, Next;
    match a
    case Append(mu) => AppendKeeps(s, mu, t);
    case ApplyAppended(remember) => ApplyKeeps(s, remember, t);
    case Publish(delta, dead, size, m) => PublishKeeps(s, delta, dead, size, m, t);
    case Reset => ResetKeeps(s, t);
    case InstallBase => InstallKeeps(s, t);
    case AdoptSnapshot(history, records, size) => AdoptKeeps(s, history, records, size, t);
    case Crash => CrashKeeps(s, t);
  }

  /** Since the last snapshot install, no checkpoint failed to load what it had published. */
  ghost predicate Unbroken(actions: seq<Action>)
  {
    actions == [] ||
    var a := actions[|actions| - 1];
    a.AdoptSnapshot? || (a != LoadFails && Unbroken(actions[..|actions| - 1]))
  }

  lemma {:induction false} NeverFailed(actions: seq<Action>)
    requires LoadFails !in actions
    ensures Unbroken(actions)
    decreases |actions|
  {
    if actions != [] { NeverFailed(actions[..|actions| - 1]); }
  }

  lemma {:induction false} RunKeeps(run: seq<System>, actions: seq<Action>, i: nat)
    requires IsRun(run, actions) && i < |run| && Unbroken(actions[..i])
    ensures Inv(run[i])
    decreases i
  {
    hide Inv, Next;
    if i == 0 {
      FreshHolds();
    } else {
      var a := actions[i - 1];
      assert Next(run[i - 1], a, run[i - 1 + 1]);
      if a.AdoptSnapshot? {
        AdoptKeeps(run[i - 1], a.history, a.records, a.size, run[i]);
      } else {
        assert actions[..i][..i - 1] == actions[..i - 1];
        RunKeeps(run, actions, i - 1);
        NextKeeps(run[i - 1], a, run[i]);
      }
    }
  }

  lemma FreshHolds()
    ensures Inv(Fresh())
  {
  }

  /* ---------- theorems over every run ---------- */

  /**
   * Wherever a run stops: reopening succeeds exactly if the manifest is accepted and no record with an indexed value
   * under the empty name is checkpointed, and then shows the replay of every appended mutation and expects the
   * position after the last one. Between operations memory shows the same map and counts it. All of this holds until
   * a checkpoint publishes a filter file that it then fails to load, and again from the next snapshot install on.
   */
  lemma CrashRecovery(run: seq<System>, actions: seq<Action>, i: nat)
    requires IsRun(run, actions) && i < |run| && Unbroken(actions[..i])
    ensures var s := run[i];
            && (Reopen(s.disk).Some? <==> Opens(s.disk, s.history))
            && (Reopen(s.disk).Some? ==>
                  Seen(Reopen(s.disk).value.layers) == Replay(s.history)
                  && Reopen(s.disk).value.nextLSN == |s.history| + 1)
            && (s.phase == Idle ==>
               Seen(s.memory.layers) == Replay(s.history) && s.memory.layers.count == |Replay(s.history)|)
            && s.memory.nextLSN == |s.history| + 1
            && s.memory.checkpoint < s.memory.nextLSN
  {
    hide Next, Reopen, Seen, Replay, Opens;
    var s := run[i];
    RunKeeps(run, actions, i);
    ReopenOk(s.disk, s.history);
    assert s.history[..|s.history|] == s.history;
  }

  ghost predicate Recovers(s: System)
  {
    && Reopen(s.disk).Some? && Seen(Reopen(s.disk).value.layers) == Replay(s.history)
    && Reopen(s.disk).value.nextLSN == |s.history| + 1
  }

  /** What the step publishes holds no record with an indexed value under the empty name. */
  ghost predicate PublishesClean(s: System, a: Action)
  {
    && (a.Publish? ==> Clean(Seen(s.memory.layers)))
    && (a.AdoptSnapshot? ==> Clean(PutAll(map[], a.records)))
  }

  /** A checkpoint writes a delta, or the stack it leaves already ends at the log's last position. */
  ghost predicate Reaches(s: System)
  {
    WritesDelta(s)
    || (Stack(s.disk) != [] && Stack(s.disk)[|Stack(s.disk)| - 1].maxLSN == s.memory.nextLSN - 1)
  }

  ghost predicate PublishesWell(s: System, a: Action)
  {
    PublishesClean(s, a) && (a.Publish? ==> Reaches(s))
  }

  /**
   * Every state of a run recovers if and only if every checkpoint and every snapshot install publishes clean records,
   * and every checkpoint writes a delta unless the stack already ends at the log's last position.
   */
  lemma RecoveryIff(run: seq<System>, actions: seq<Action>)
    requires IsRun(run, actions)
    ensures (forall i :: 0 <= i < |run| ==> Recovers(run[i])) <==>
            (forall i :: 0 <= i < |actions| ==> PublishesWell(run[i], actions[i]))
  {
    hide Recovers, PublishesWell, Next;
    if forall i :: 0 <= i < |actions| ==> PublishesWell(run[i], actions[i]) {
      forall i | 0 <= i < |run| ensures Recovers(run[i])
      {
        WellRun(run, actions, i);
        SteadyRecovers(run[i]);
      }
    } else {
      var i :| 0 <= i < |actions| && !PublishesWell(run[i], actions[i]);
      assert Next(run[i], actions[i], run[i + 1]);
      BadlyPublished(run[i], actions[i], run[i + 1]);
    }
  }

  lemma BadlyPublished(s: System, a: Action, t: System)
    requires Next(s, a, t) && !PublishesWell(s, a)
    ensures Reopen(t.disk).None? && !Recovers(t)
  {
    hide Reopen, Recovers, Next, PublishesClean, Reaches;
    if !PublishesClean(s, a) { UncleanRefused(s, a, t); } else { ShortRefused(s, a, t); }
  }

  lemma UncleanRefused(s: System, a: Action, t: System)
    requires Next(s, a, t) && !PublishesClean(s, a)
    ensures Reopen(t.disk).None? && !Recovers(t)
  {
    hide Clean, F.AllStorable, Seen, PutAll, Replay, FilterOf, DistinctKeys, Fold, Compacted, IsListing, Install,
        ManifestLoads;
    if a.Publish? { FilterOfClean(Seen(s.memory.layers), a.manifest.filter); } else { DistinctClean(a.records); }
  }

  /** With nothing to write after the log has moved, the manifest names a position that no segment has. */
  lemma ShortRefused(s: System, a: Action, t: System)
    requires a.Publish? && Next(s, a, t) && !Reaches(s)
    ensures !Readable(t.disk) && Reopen(t.disk).None? && !Recovers(t)
  {
    hide Clean, Seen, PutAll, Replay, FilterOf, Fold, Compacted, IsListing, Recovers;
    var under := Stack(s.disk);
    assert under + [] == under;
    if under != [] {
      CompactedTop(under, s.memory.nextLSN - 1, a.manifest.segments);
    } else {
      CompactedNothing(s.memory.nextLSN - 1, a.manifest.segments);
    }
    UnreadableRefused(t);
  }

  lemma CompactedNothing(sequence: nat, result: seq<Segment>)
    requires Compacted([], sequence, result)
    ensures result == []
  {
    hide Merges;
  }

  lemma UnreadableRefused(s: System)
    requires !Readable(s.disk)
    ensures Reopen(s.disk).None? && !Recovers(s)
  {
    hide Readable;
  }

  ghost predicate Steady(s: System)
  {
    Inv(s) && Readable(s.disk) && (s.disk.manifest.Some? ==> FilterLoads(s.disk.manifest.value))
  }

  lemma SteadyRecovers(s: System)
    requires Steady(s)
    ensures Recovers(s)
  {
    hide Seen, Replay, Reopen, Clean, F.AllStorable, Readable, Traces;
    ReopenOk(s.disk, s.history);
    assert s.history[..|s.history|] == s.history;
  }

  lemma PublishedReadable(s: System, delta: seq<Record>, dead: seq<Key>, size: nat, m: ShardManifest)
    requires Inv(s) && s.phase == Idle && Publishes(s, delta, dead, size, m)
    ensures ManifestLoads(m) <==> Reaches(s)
  {
    hide Inv, LayersOk, Fold, Replay, Seen, IsListing, Compacted, FilterOf, Clean, F.AllStorable, BundleFirst, Readable;
    PublishedStack(s, delta, dead, size, m);
    ExtendedTop(s, delta, dead, size);
    CompactedTop(Extended(s, delta, dead, size), s.memory.nextLSN - 1, m.segments);
    RisingListed(m, s.history);
  }

  lemma ExtendedTop(s: System, delta: seq<Record>, dead: seq<Key>, size: nat)
    requires Inv(s) && s.phase == Idle
    ensures var e := Extended(s, delta, dead, size);
            e != [] && (e[|e| - 1].maxLSN == s.memory.nextLSN - 1 <==> Reaches(s))
  {
    hide LayersOk, InOrder, Fold, LogMatches, BundleFirst, Clean, F.AllStorable;
    if !WritesDelta(s) { assert Stack(s.disk) + [] == Stack(s.disk); }
  }

  /** A checkpoint's manifest is accepted exactly if its last segment is at its position. */
  lemma RisingListed(m: ShardManifest, history: seq<Mutation>)
    requires StackOk(m, history) && m.format == 3
    ensures ManifestLoads(m) <==> m.segments[|m.segments| - 1].maxLSN == m.maxLSN
  {
    hide Fold, Replay, Clean, F.AllStorable, BundleFirst;
    forall i | 0 < i < |m.segments| ensures m.segments[i - 1].maxLSN < m.segments[i].maxLSN <= m.maxLSN
    {
      assert Within(m.segments[i], m.maxLSN);
    }
  }

  lemma SteadyStep(s: System, a: Action, t: System)
    requires Steady(s) && Next(s, a, t) && PublishesWell(s, a)
    ensures Steady(t) && a != LoadFails
  {
    hide Inv, F.AllStorable, Clean, Seen, PutAll, Replay, FilterOf, DistinctKeys, Compacted, IsListing, Reopen, Fold,
        Apply, Install, ManifestLoads, Reaches;
    NextKeeps(s, a, t);
    if a.Publish? {
      FilterOfClean(Seen(s.memory.layers), a.manifest.filter);
      PublishedReadable(s, a.delta, a.dead, a.size, a.manifest);
    }
    if a.AdoptSnapshot? {
      DistinctClean(a.records);
      SnapshotLoads(|a.history|, a.records, a.size);
    }
  }

  lemma SnapshotLoads(sequence: nat, records: seq<Record>, size: nat)
    ensures ManifestLoads(SnapshotManifest(sequence, records, size))
  {
  }

  lemma {:induction false} WellRun(run: seq<System>, actions: seq<Action>, i: nat)
    requires IsRun(run, actions) && i < |run|
    requires forall j :: 0 <= j < |actions| ==> PublishesWell(run[j], actions[j])
    ensures Steady(run[i])
    decreases i
  {
    hide Inv, Next, PublishesWell, FilterLoads;
    if i == 0 {
      FreshHolds();
    } else {
      WellRun(run, actions, i - 1);
      assert Next(run[i - 1], actions[i - 1], run[i - 1 + 1]) && PublishesWell(run[i - 1], actions[i - 1]);
      SteadyStep(run[i - 1], actions[i - 1], run[i]);
    }
  }

  /** A shard whose manifest is not accepted stays as it is on disk, and refused, whatever is done with it. */
  lemma {:induction false} NeverAgain(run: seq<System>, actions: seq<Action>, i: nat, j: nat)
    requires IsRun(run, actions) && i <= j < |run| && !Readable(run[i].disk)
    ensures run[j].disk.manifest == run[i].disk.manifest && Reopen(run[j].disk).None?
    ensures j < |actions| ==> !actions[j].Publish? && !actions[j].AdoptSnapshot? && !actions[j].Crash?
    decreases j - i
  {
    hide Next, ManifestLoads, Reopen;
    if i < j {
      NeverAgain(run, actions, i, j - 1);
      assert Next(run[j - 1], actions[j - 1], run[j - 1 + 1]);
      SameManifest(run[j - 1], actions[j - 1], run[j]);
    }
    UnreadableRefused(run[j]);
    if j < |actions| {
      assert Next(run[j], actions[j], run[j + 1]);
      SameManifest(run[j], actions[j], run[j + 1]);
    }
  }

  lemma SameManifest(s: System, a: Action, t: System)
    requires Next(s, a, t) && !Readable(s.disk)
    ensures t.disk.manifest == s.disk.manifest && !a.Publish? && !a.AdoptSnapshot? && !a.Crash?
  {
    hide Fold, Seen, IsListing, Compacted, FilterOf, Replay, PutAll, DistinctKeys, Contiguous, ReplayLog;
  }

  /* ---------- when a checkpoint has nothing to write ---------- */

  /** Some key touched since the last checkpoint was there then or is there now. */
  ghost predicate LeavesTrace(history: seq<Mutation>, ck: nat)
    requires ck <= |history|
  {
    exists k :: k in AllTouched(history[ck..]) && (k in Replay(history[..ck]) || k in Replay(history))
  }

  /**
   * A later checkpoint leaves an acceptable manifest if and only if nothing was appended since the last one, or some
   * key touched since then was there at the last one or is there now. Otherwise all that happened is that records
   * came and went.
   */
  lemma ReachesIff(s: System)
    requires Inv(s) && s.phase == Idle && s.disk.manifest.Some? && Readable(s.disk)
    ensures Checkpointed(s.disk) <= |s.history|
    ensures Reaches(s) <==> Checkpointed(s.disk) == |s.history| || LeavesTrace(s.history, Checkpointed(s.disk))
  {
    hide Inv, LeavesTrace;
    StackEnds(s);
    WritesIff(s);
  }

  lemma StackEnds(s: System)
    requires Inv(s) && s.disk.manifest.Some? && Readable(s.disk)
    ensures var stack := Stack(s.disk);
            stack != [] && stack[|stack| - 1].maxLSN == Checkpointed(s.disk) <= |s.history|
    ensures s.memory.nextLSN == |s.history| + 1
  {
    hide LayersOk, InOrder, Fold, LogMatches, BundleFirst, Clean, F.AllStorable, Replay, Seen;
  }

  lemma WritesIff(s: System)
    requires Inv(s) && s.phase == Idle && s.disk.manifest.Some? && Checkpointed(s.disk) <= |s.history|
    ensures WritesDelta(s) <==> LeavesTrace(s.history, Checkpointed(s.disk))
  {
    hide StackOk, LogMatches, Sound, Replay, AllTouched;
    var l, h, ck := s.memory.layers, s.history, Checkpointed(s.disk);
    assert h[..|h|] == h && h[ck..|h|] == h[ck..];
    if WritesDelta(s) {
      var k :| k in l.active || k in l.tombstones;
      assert k in AllTouched(h[ck..]) && (k in BaseOf(l) || k in Seen(l));
    }
  }

  /* ---------- conditions on what a shard takes in ---------- */

  /** No record the step takes in has an indexed value under the empty name. */
  ghost predicate TakesClean(a: Action)
  {
    && (a.Append? && a.mutation.Put? ==> F.AllStorable(MetadataOf(a.mutation.records)))
    && (a.AdoptSnapshot? ==> F.AllStorable(MetadataOf(a.records)))
  }

  /**
   * A shard that never takes in such a record recovers wherever it stops if and only if its checkpoints write a delta
   * unless the stack already ends at the log's last position; in particular if it never deletes.
   */
  lemma CleanRecordsRecover(run: seq<System>, actions: seq<Action>)
    requires IsRun(run, actions) && forall j :: 0 <= j < |actions| ==> TakesClean(actions[j])
    ensures (forall i :: 0 <= i < |run| ==> Recovers(run[i])) <==>
            (forall j :: 0 <= j < |actions| && actions[j].Publish? ==> Reaches(run[j]))
    ensures (forall j :: 0 <= j < |actions| ==> !Deletes(actions[j])) ==>
              forall j :: 0 <= j < |actions| && actions[j].Publish? ==> Reaches(run[j])
  {
    hide Recovers, Next, TakesClean, Steady, Reaches, Deletes, PublishesClean;
    forall j | 0 <= j < |actions| ensures PublishesClean(run[j], actions[j])
    {
      TakenRun(run, actions, j);
      assert Next(run[j], actions[j], run[j + 1]) && TakesClean(actions[j]);
      CleanStep(run[j], actions[j], run[j + 1]);
    }
    RecoveryIff(run, actions);
    if forall j :: 0 <= j < |actions| ==> PublishesWell(run[j], actions[j]) {
      forall j | 0 <= j < |actions| && actions[j].Publish? ensures Reaches(run[j])
      {
        assert PublishesWell(run[j], actions[j]);
      }
    }
    if forall j :: 0 <= j < |actions| ==> !Deletes(actions[j]) {
      forall j | 0 <= j < |actions| && actions[j].Publish? ensures Reaches(run[j]) { OnlyPutsReach(run, actions, j); }
    }
  }

  ghost predicate Deletes(a: Action)
  {
    a.Append? && a.mutation.Remove?
  }

  /** The filter file of the manifest on disk loads, and would load for what is there now. */
  ghost predicate Filterable(s: System)
  {
    Inv(s) && Clean(Replay(s.history)) && (s.disk.manifest.Some? ==> FilterLoads(s.disk.manifest.value))
  }

  lemma {:induction false} TakenRun(run: seq<System>, actions: seq<Action>, i: nat)
    requires IsRun(run, actions) && i < |run| && forall j :: 0 <= j < |actions| ==> TakesClean(actions[j])
    ensures Filterable(run[i])
    decreases i
  {
    hide Inv, Next, TakesClean, FilterLoads, Clean;
    if i == 0 {
      FreshHolds();
      NothingClean();
    } else {
      TakenRun(run, actions, i - 1);
      assert Next(run[i - 1], actions[i - 1], run[i - 1 + 1]) && TakesClean(actions[i - 1]);
      CleanStep(run[i - 1], actions[i - 1], run[i]);
    }
  }

  lemma NothingClean()
    ensures Clean(Replay([]))
  {
  }

  lemma CleanStep(s: System, a: Action, t: System)
    requires Filterable(s) && Next(s, a, t) && TakesClean(a)
    ensures PublishesClean(s, a) && Filterable(t)
  {
    hide Inv, F.AllStorable, Clean, Seen, PutAll, Replay, FilterOf, Compacted, IsListing, DistinctKeys, Reopen, Fold,
        Apply, Install, Act;
    NextKeeps(s, a, t);
    match a
    case Append(mu) =>
      assert (s.history + [mu])[..|s.history|] == s.history;
      ReplayMore(s.history, mu);
      ActClean(Replay(s.history), mu);
    case Publish(_, _, _, m) =>
      ShownWhole(s);
      FilterOfClean(Seen(s.memory.layers), m.filter);
    case AdoptSnapshot(_, records, _) => DistinctClean(records);
    case _ =>
  }

  lemma ReplayMore(history: seq<Mutation>, mu: Mutation)
    ensures Replay(history + [mu]) == Act(Replay(history), mu)
  {
    assert (history + [mu])[..|history|] == history;
  }

  /** Everything appended above the checkpoint is a batch of records. */
  ghost predicate OnlyPuts(s: System)
  {
    && (forall i :: 0 <= i < |s.history| ==> i < Checkpointed(s.disk) || (s.history[i].Put? && Valid(s.history[i])))
    && Readable(s.disk)
  }

  lemma {:induction false} PutsRun(run: seq<System>, actions: seq<Action>, i: nat)
    requires IsRun(run, actions) && i < |run|
    requires forall j :: 0 <= j < |actions| ==> TakesClean(actions[j]) && !Deletes(actions[j])
    ensures OnlyPuts(run[i])
    decreases i
  {
    hide Inv, Next, TakesClean, Deletes, FilterLoads, Clean, OnlyPuts;
    if i == 0 {
      NothingPut();
    } else {
      PutsRun(run, actions, i - 1);
      TakenRun(run, actions, i - 1);
      assert Next(run[i - 1], actions[i - 1], run[i - 1 + 1]) && !Deletes(actions[i - 1]);
      PutsStep(run[i - 1], actions[i - 1], run[i]);
    }
  }

  lemma NothingPut()
    ensures OnlyPuts(Fresh())
  {
  }

  lemma PutsStep(s: System, a: Action, t: System)
    requires Inv(s) && OnlyPuts(s) && Next(s, a, t) && !Deletes(a)
    ensures OnlyPuts(t)
  {
    hide Inv, F.AllStorable, Clean, Seen, PutAll, Replay, FilterOf, Compacted, IsListing, DistinctKeys, Reopen, Fold,
        Apply, Install, Act, Valid, ManifestLoads, Reaches;
    if a.Publish? {
      PutsReach(s);
      PublishedReadable(s, a.delta, a.dead, a.size, a.manifest);
      Position(s);
    }
    if a.AdoptSnapshot? { SnapshotLoads(|a.history|, a.records, a.size); }
  }

  lemma Position(s: System)
    requires Inv(s)
    ensures s.memory.nextLSN == |s.history| + 1
  {
  }

  lemma OnlyPutsReach(run: seq<System>, actions: seq<Action>, i: nat)
    requires IsRun(run, actions) && i < |actions| && actions[i].Publish?
    requires forall j :: 0 <= j < |actions| ==> TakesClean(actions[j]) && !Deletes(actions[j])
    ensures Reaches(run[i])
  {
    hide Inv, Next, TakesClean, Deletes, OnlyPuts, Reaches, FilterLoads, Clean;
    PutsRun(run, actions, i);
    TakenRun(run, actions, i);
    assert Next(run[i], actions[i], run[i + 1]);
    PublishIdle(run[i], actions[i], run[i + 1]);
    PutsReach(run[i]);
  }

  lemma PublishIdle(s: System, a: Action, t: System)
    requires Next(s, a, t) && a.Publish?
    ensures s.phase == Idle
  {
  }

  /** The last batch left its last record behind. */
  lemma PutsReach(s: System)
    requires Inv(s) && s.phase == Idle && OnlyPuts(s)
    ensures Reaches(s)
  {
    hide Inv, Reaches, ManifestLoads;
    if s.disk.manifest.None? {
      FirstReaches(s);
    } else {
      ReachesIff(s);
      var h, ck := s.history, Checkpointed(s.disk);
      if ck < |h| {
        var n := |h| - 1;
        var k := PutStays(Replay(h[..n]), h[n].records);
        assert h[ck..][..|h| - ck - 1] == h[ck..n];
        assert k in AllTouched(h[ck..]) && k in Replay(h);
      }
    }
  }

  lemma FirstReaches(s: System)
    requires s.disk.manifest.None?
    ensures Reaches(s)
  {
  }

  lemma PutStays(m: Live, records: seq<Record>) returns (k: Key)
    requires records != []
    ensures k in KeysOf(records) && k in PutAll(m, records)
  {
    k := records[|records| - 1].key;
    assert records[|records| - 1] in records;
  }

  lemma ActClean(m: Live, mu: Mutation)
    requires Clean(m) && (mu.Put? ==> F.AllStorable(MetadataOf(mu.records)))
    ensures Clean(Act(m, mu))
  {
    if mu.Put? { PutAllClean(m, mu.records); }
  }

  lemma {:induction false} PutAllClean(m: Live, records: seq<Record>)
    requires Clean(m) && F.AllStorable(MetadataOf(records))
    ensures Clean(PutAll(m, records))
    decreases |records|
  {
    hide Clean, F.AllStorable;
    if records != [] {
      var n := |records| - 1;
      StorablePush(MetadataOf(records[..n]), records[n].metadata);
      PutAllClean(m, records[..n]);
      CleanPush(PutAll(m, records[..n]), records[n]);
    }
  }

  /**
   * A file the checkpoint leaves or writes: one of the new manifest, or the delta, even if it is merged away at once.
   */
  ghost predicate Touches(s: System, a: Action, x: Segment)
    requires a.Publish?
  {
    x in a.manifest.segments || (s.memory.nextLSN > 0 && x in Extended(s, a.delta, a.dead, a.size))
  }

  /** A checkpoint writes under no file name that the manifest on disk refers to. */
  lemma FilesNeverOverwritten(run: seq<System>, actions: seq<Action>, i: nat, x: Segment, y: Segment)
    requires IsRun(run, actions) && i < |actions| && actions[i].Publish? && Unbroken(actions[..i])
    requires Touches(run[i], actions[i], x) && y in Stack(run[i].disk) && x.file == y.file
    ensures x == y
  {
    hide Inv;
    RunKeeps(run, actions, i);
    var a := actions[i];
    assert Next(run[i], a, run[i + 1]);
    NewFiles(run[i], a.delta, a.dead, a.size, a.manifest, x, y);
  }

  lemma NewFiles(s: System, delta: seq<Record>, dead: seq<Key>, size: nat, m: ShardManifest, x: Segment, y: Segment)
    requires Inv(s) && s.phase == Idle && Publishes(s, delta, dead, size, m)
    requires x in m.segments || x in Extended(s, delta, dead, size)
    requires y in Stack(s.disk) && x.file == y.file
    ensures x == y
  {
    hide Fold, Seen, Sound, IsListing, Merges, LogMatches, LayersOk;
    StackBound(s);
    assert y.file.lsn == y.maxLSN <= Checkpointed(s.disk);
    if x in m.segments { MergedName(Extended(s, delta, dead, size), s.memory.nextLSN - 1, m.segments, x); }
    if x in Stack(s.disk) { SameFile(Stack(s.disk), x, y); }
  }

  lemma MergedName(segments: seq<Segment>, sequence: nat, result: seq<Segment>, x: Segment)
    requires Compacted(segments, sequence, result) && x in result
    ensures x in segments || (x.file.Merged? && x.file.sequence == sequence && |segments| >= 2)
  {
    hide Merges;
  }

  lemma SameFile(segments: seq<Segment>, x: Segment, y: Segment)
    requires InOrder(segments) && x in segments && y in segments && x.file == y.file
    ensures x == y
  {
    var i :| 0 <= i < |segments| && segments[i] == x;
    var j :| 0 <= j < |segments| && segments[j] == y;
    assert segments[i].maxLSN == segments[j].maxLSN;
    if i < j || j < i { assert false; }
  }

  /* ---------- a snapshot delivered twice ---------- */

  lemma {:induction false} AscendingListing(records: seq<Record>)
    requires Ascends(records)
    ensures IsListing(PutAll(map[], records), records)
    decreases |records|
  {
    if records != [] {
      var n := |records| - 1;
      AscendingListing(records[..n]);
      ListingPush(PutAll(map[], records[..n]), records, n);
    }
  }

  lemma ListingPush(m: Live, records: seq<Record>, n: nat)
    requires Ascends(records) && |records| == n + 1 && IsListing(m, records[..n])
    ensures IsListing(m[records[n].key := records[n]], records)
  {
    hide Less;
    var r := records[n];
    var t := m[r.key := r];
    forall i | 0 <= i < |records| ensures records[i].key in t && t[records[i].key] == records[i]
    {
      if i < n {
        assert records[..n][i] == records[i];
        LessIrreflexive(r.key);
      }
    }
    forall k | k in t ensures exists i :: 0 <= i < |records| && records[i].key == k
    {
      if k in m {
        var i :| 0 <= i < n && records[..n][i].key == k;
        assert records[i].key == k;
      } else {
        assert records[n].key == k;
      }
    }
  }

  lemma BundleShows(y: Segment)
    requires y.tombstones == []
    ensures Fold(map[], [y]) == PutAll(map[], y.records)
  {
    assert [y][..0] == [] && Elements<Key>([]) == {};
    assert PutAll(map[], y.records) - {} == PutAll(map[], y.records);
  }

  /** A bundle at the end of the log is the whole stack. */
  lemma BundleAlone(m: ShardManifest, history: seq<Mutation>, y: Segment)
    requires StackOk(m, history) && y in m.segments && y.file == Bundle(|history|)
    ensures m.segments == [y] && m.maxLSN == |history| && PutAll(map[], y.records) == Replay(history)
  {
    hide Fold, Replay, PutAll, Clean, F.AllStorable;
    var i :| 0 <= i < |m.segments| && m.segments[i] == y;
    var last := m.segments[|m.segments| - 1];
    assert last in m.segments && Within(last, m.maxLSN);
    assert m.segments == [y] && history[..m.maxLSN] == history;
    BundleShows(y);
  }

  /**
   * When a snapshot install writes under a file name of the manifest on disk, the snapshot is of the very position
   * the shard stands at and that file is its whole stack. The rewritten file holds the same map exactly if the
   * snapshot shows what the shard's own history gives, and the same records in the same order if both are in key
   * order.
   */
  lemma SnapshotRewrites(run: seq<System>, actions: seq<Action>, i: nat, y: Segment)
    requires IsRun(run, actions) && i < |actions| && actions[i].AdoptSnapshot? && Unbroken(actions[..i])
    requires y in Stack(run[i].disk) && y.file == Bundle(|actions[i].history|)
    ensures var s := run[i]; var a := actions[i];
            && |a.history| == |s.history| == Checkpointed(s.disk) && Stack(s.disk) == [y]
            && (PutAll(map[], y.records) == PutAll(map[], a.records) <==> Replay(s.history) == Replay(a.history))
            && (Replay(s.history) == Replay(a.history) && Ascends(y.records) && Ascends(a.records) ==>
                  y.records == a.records)
  {
    hide Inv, Next, Replay, PutAll, Ascends, IsListing;
    var s, a := run[i], actions[i];
    RunKeeps(run, actions, i);
    assert Next(s, a, run[i + 1]);
    InstallPosition(s, a, run[i + 1], y);
    BundleAlone(s.disk.manifest.value, s.history, y);
    if Replay(s.history) == Replay(a.history) && Ascends(y.records) && Ascends(a.records) {
      AscendingListing(y.records);
      AscendingListing(a.records);
      ListingUnique(PutAll(map[], y.records), y.records, a.records);
    }
  }

  lemma InstallPosition(s: System, a: Action, t: System, y: Segment)
    requires Inv(s) && a.AdoptSnapshot? && Next(s, a, t) && y in Stack(s.disk) && y.file == Bundle(|a.history|)
    ensures |a.history| == |s.history| && StackOk(s.disk.manifest.value, s.history)
    ensures PutAll(map[], a.records) == Replay(a.history)
  {
    hide Fold, Replay, PutAll, Clean, F.AllStorable, LayersOk, LogMatches, Seen, BundleFirst, DistinctKeys, Install;
    assert Within(y, Checkpointed(s.disk));
  }
}
