/** Records, the map they form, and ordered listings of it. */
module Records {
  import opened Strings
  import F = Filters

  /** Namespace and identifier joined; neither contains the joining byte. */
  type Key = string

  datatype Record = Record(key: Key, version: nat, body: string, metadata: F.Metadata)

  type Live = map<Key, Record>

  ghost predicate Keyed(m: Live)
  {
    forall k :: k in m ==> m[k].key == k
  }

  function PutAll(m: Live, records: seq<Record>): Live
  {
    if records == [] then m
    else var r := records[|records| - 1]; PutAll(m, records[..|records| - 1])[r.key := r]
  }

  function KeysOf(records: seq<Record>): set<Key>
  {
    set r | r in records :: r.key
  }

  /** What a filter file is written from. */
  function MetadataOf(records: seq<Record>): (r: seq<F.Metadata>)
    ensures |r| == |records| && forall i :: 0 <= i < |records| ==> r[i] == records[i].metadata
  {
    if records == [] then [] else MetadataOf(records[..|records| - 1]) + [records[|records| - 1].metadata]
  }

  /** A map whose records a filter file can hold. */
  ghost predicate Clean(m: Live)
  {
    forall k :: k in m ==> F.Storable(m[k].metadata)
  }

  lemma PutAllPush(m: Live, records: seq<Record>, r: Record)
    ensures PutAll(m, records + [r]) == PutAll(m, records)[r.key := r]
  {
    assert (records + [r])[..|records|] == records;
  }

  /** Putting records on top of a map only depends on the map outside their keys. */
  lemma {:induction false} PutAllOver(m: Live, records: seq<Record>)
    ensures PutAll(m, records) == m + PutAll(map[], records)
    ensures PutAll(map[], records).Keys == KeysOf(records)
    decreases |records|
  {
    if records == [] {
      assert m + map[] == m;
    } else {
      var r, rest := records[|records| - 1], records[..|records| - 1];
      PutAllOver(m, rest);
      Over(m, PutAll(map[], rest), r);
      assert records == rest + [r];
      assert KeysOf(records) == KeysOf(rest) + {r.key};
    }
  }

  lemma Over(m: Live, a: Live, r: Record)
    ensures (m + a)[r.key := r] == m + a[r.key := r]
  {
  }

  lemma {:induction false} PutAllKeyed(m: Live, records: seq<Record>)
    requires Keyed(m)
    ensures Keyed(PutAll(m, records))
    decreases |records|
  {
    if records != [] { PutAllKeyed(m, records[..|records| - 1]); }
  }

  /* ---------- listings ---------- */

  predicate Ascends(records: seq<Record>)
  {
    forall i, j :: 0 <= i < j < |records| ==> Less(records[i].key, records[j].key)
  }

  /** The records of `m`, each once, in key order. */
  ghost predicate IsListing(m: Live, records: seq<Record>)
  {
    && Ascends(records)
    && (forall i :: 0 <= i < |records| ==> records[i].key in m && m[records[i].key] == records[i])
    && (forall k :: k in m ==> exists i :: 0 <= i < |records| && records[i].key == k)
  }

  /** A map has only one listing. */
  lemma {:induction false} ListingUnique(m: Live, a: seq<Record>, b: seq<Record>)
    requires IsListing(m, a) && IsListing(m, b)
    ensures a == b
    decreases |a|
  {
    hide IsListing, Less;
    if a != [] && b != [] {
      var x, y := a[|a| - 1], b[|b| - 1];
      SameLasts(m, a, b);
      ListingInit(m, a);
      ListingInit(m, b);
      ListingUnique(m - {x.key}, a[..|a| - 1], b[..|b| - 1]);
      assert a == a[..|a| - 1] + [x] && b == b[..|b| - 1] + [y];
    } else {
      ListingEmpty(m, a);
      ListingEmpty(m, b);
    }
  }

  lemma ListingEmpty(m: Live, a: seq<Record>)
    requires IsListing(m, a)
    ensures a == [] <==> m == map[]
  {
    if a != [] { assert a[0].key in m; }
  }

  lemma SameLasts(m: Live, a: seq<Record>, b: seq<Record>)
    requires IsListing(m, a) && IsListing(m, b) && a != [] && b != []
    ensures a[|a| - 1] == b[|b| - 1]
  {
    hide Less;
    var x, y := a[|a| - 1], b[|b| - 1];
    assert x.key in m && y.key in m;
    var j :| 0 <= j < |b| && b[j].key == x.key;
    var i :| 0 <= i < |a| && a[i].key == y.key;
    SameLast(a, b, i, j);
  }

  lemma SameLast(a: seq<Record>, b: seq<Record>, i: nat, j: nat)
    requires Ascends(a) && Ascends(b) && i < |a| && j < |b| && b[j].key == a[|a| - 1].key && a[i].key == b[|b| - 1].key
    ensures b[|b| - 1].key == a[|a| - 1].key
  {
    if i < |a| - 1 && j < |b| - 1 {
      LessTransitive(a[i].key, a[|a| - 1].key, a[i].key);
      LessIrreflexive(a[i].key);
    }
  }

  lemma ListingInit(m: Live, a: seq<Record>)
    requires IsListing(m, a) && a != []
    ensures IsListing(m - {a[|a| - 1].key}, a[..|a| - 1])
  {
    hide Less;
    var n := |a| - 1;
    var k, rest := a[n].key, a[..n];
    forall i | 0 <= i < |rest| ensures rest[i].key in m - {k} && (m - {k})[rest[i].key] == rest[i]
    {
      assert rest[i] == a[i];
      LessIrreflexive(k);
    }
    forall x | x in m - {k} ensures exists i :: 0 <= i < |rest| && rest[i].key == x
    {
      var i :| 0 <= i < |a| && a[i].key == x;
      assert rest[i].key == x;
    }
  }

  /** Listing a map and putting the records back gives the map. */
  lemma {:induction false} ListingPut(m: Live, records: seq<Record>)
    requires IsListing(m, records)
    ensures PutAll(map[], records) == m && |records| == |m|
    decreases |records|
  {
    ListingEmpty(m, records);
    if records != [] {
      var r, rest := records[|records| - 1], records[..|records| - 1];
      ListingInit(m, records);
      ListingPut(m - {r.key}, rest);
      assert r.key in m && m[r.key] == r;
      TakeOut(m, r);
    }
  }

  lemma TakeOut(m: Live, r: Record)
    requires r.key in m && m[r.key] == r
    ensures (m - {r.key})[r.key := r] == m && |m| == |m - {r.key}| + 1
  {
    assert m.Keys == (m - {r.key}).Keys + {r.key};
  }

  /** Insertion of a record into an ascending list. */
  method Place(sorted: seq<Record>, r: Record) returns (result: seq<Record>)
    requires Ascends(sorted) && forall i :: 0 <= i < |sorted| ==> sorted[i].key != r.key
    ensures Ascends(result) && multiset(result) == multiset(sorted) + multiset{r}
  {
    hide Less;
    var i := |sorted|;
    while i > 0 && Less(r.key, sorted[i - 1].key)
      invariant 0 <= i <= |sorted|
      invariant forall k :: i <= k < |sorted| ==> Less(r.key, sorted[k].key)
    {
      i := i - 1;
    }
    result := sorted[..i] + [r] + sorted[i..];
    assert sorted == sorted[..i] + sorted[i..];
    PlacedAscends(sorted, r, i);
  }

  lemma PlacedAscends(sorted: seq<Record>, r: Record, i: nat)
    requires Ascends(sorted) && i <= |sorted| && forall k :: i <= k < |sorted| ==> Less(r.key, sorted[k].key)
    requires i > 0 ==> sorted[i - 1].key != r.key && !Less(r.key, sorted[i - 1].key)
    ensures Ascends(sorted[..i] + [r] + sorted[i..])
  {
    hide Less;
    var s := sorted[..i] + [r] + sorted[i..];
    forall a, b | 0 <= a < b < |s| ensures Less(s[a].key, s[b].key)
    {
      if a < i <= b { BelowAll(sorted, r, i, a); }
      assert a < i ==> s[a] == sorted[a];
      assert a > i ==> s[a] == sorted[a - 1];
      assert b < i ==> s[b] == sorted[b];
      assert b > i ==> s[b] == sorted[b - 1];
    }
  }

  lemma BelowAll(sorted: seq<Record>, r: Record, i: nat, k: nat)
    requires Ascends(sorted) && k < i <= |sorted| && sorted[i - 1].key != r.key && !Less(r.key, sorted[i - 1].key)
    ensures Less(sorted[k].key, r.key)
  {
    LessTotal(sorted[i - 1].key, r.key);
    if k < i - 1 { LessTransitive(sorted[k].key, sorted[i - 1].key, r.key); }
  }

  /** Collects the values of a map and sorts them. */
  method List(m: Live) returns (records: seq<Record>)
    requires Keyed(m)
    ensures IsListing(m, records)
  {
    records := [];
    var left := m.Keys;
    while left != {}
      invariant left <= m.Keys && Ascends(records)
      invariant forall r :: r in records <==> r.key in m && r.key !in left && m[r.key] == r
      decreases |left|
    {
      var k :| k in left;
      ghost var before := records;
      records := Place(records, m[k]);
      left := left - {k};
      SameMembers(before, records, m[k]);
    }
    forall k | k in m ensures exists i :: 0 <= i < |records| && records[i].key == k { assert m[k] in records; }
    forall i | 0 <= i < |records|
        ensures records[i].key in m && m[records[i].key] == records[i] { assert records[i] in records; }
  }

  lemma SameMembers(a: seq<Record>, b: seq<Record>, r: Record)
    requires multiset(b) == multiset(a) + multiset{r}
    ensures forall x :: x in b <==> x in a || x == r
  {
    forall x ensures x in b <==> x in a || x == r
    {
      assert x in b <==> x in multiset(b);
      assert x in a <==> x in multiset(a);
    }
  }
}

/** The stack of delta segments of one shard: what it means, how it is read and how it is compacted. */
module Segments {
  import opened Collections
  import opened Records

  /** The names segment files are given: a checkpoint delta, a merged run, a replica snapshot. */
  datatype File = Delta(lsn: nat) | Merged(lsn: nat, sequence: nat) | Bundle(lsn: nat)

  datatype Segment = Segment(file: File, records: seq<Record>, tombstones: seq<Key>, maxLSN: nat, size: nat)

  function Layer(m: Live, s: Segment): Live
  {
    PutAll(m, s.records) - Elements(s.tombstones)
  }

  /** What the stack shows over an older base. */
  function Fold(m: Live, segments: seq<Segment>): Live
  {
    if segments == [] then m else Layer(Fold(m, segments[..|segments| - 1]), segments[|segments| - 1])
  }

  function Bury(dead: set<Key>, s: Segment): set<Key>
  {
    dead - KeysOf(s.records) + Elements(s.tombstones)
  }

  /** Keys whose last mention in the stack is a tombstone. */
  function Dead(segments: seq<Segment>): set<Key>
  {
    if segments == [] then {} else Bury(Dead(segments[..|segments| - 1]), segments[|segments| - 1])
  }

  lemma {:induction false} FoldConcat(m: Live, a: seq<Segment>, b: seq<Segment>)
    ensures Fold(m, a + b) == Fold(Fold(m, a), b)
    decreases |b|
  {
    if b == [] {
      assert a + b == a;
    } else {
      assert (a + b)[..|a + b| - 1] == a + b[..|b| - 1];
      FoldConcat(m, a, b[..|b| - 1]);
    }
  }

  /** Over any base, a stack is its own records on top of the base without the dead keys. */
  lemma {:induction false} FoldSplits(base: Live, segments: seq<Segment>)
    ensures Fold(base, segments) == (base - Dead(segments)) + Fold(map[], segments)
    ensures Fold(map[], segments).Keys !! Dead(segments)
    decreases |segments|
  {
    if segments == [] {
      assert (base - {}) + map[] == base;
    } else {
      var n := |segments| - 1;
      FoldSplits(base, segments[..n]);
      LayerSplits(base, Fold(map[], segments[..n]), Dead(segments[..n]), segments[n]);
    }
  }

  lemma LayerSplits(base: Live, live: Live, dead: set<Key>, s: Segment)
    requires live.Keys !! dead
    ensures Layer((base - dead) + live, s) == (base - Bury(dead, s)) + Layer(live, s)
            && Layer(live, s).Keys !! Bury(dead, s)
  {
    var put := PutAll(map[], s.records);
    PutAllOver((base - dead) + live, s.records);
    PutAllOver(live, s.records);
    Split(base, live, dead, put, Elements(s.tombstones));
  }

  lemma Split(base: Live, live: Live, dead: set<Key>, put: Live, tombs: set<Key>)
    requires live.Keys !! dead
    ensures (((base - dead) + live) + put) - tombs == (base - (dead - put.Keys + tombs)) + ((live + put) - tombs)
  {
  }

  /** The single segment a run of segments is replaced by. */
  ghost predicate Merges(s: Segment, run: seq<Segment>)
  {
    IsListing(Fold(map[], run), s.records) && Elements(s.tombstones) == Dead(run)
  }

  /**
   * Compaction preserves meaning: over any older base and under any newer segments, the merged run shows what the run
   * showed.
   */
  lemma CompactionPreserves(base: Live, before: seq<Segment>, run: seq<Segment>, after: seq<Segment>, merged: Segment)
    requires Merges(merged, run)
    ensures Fold(base, before + [merged] + after) == Fold(base, before + run + after)
  {
    var b := Fold(base, before);
    MergedLayer(b, run, merged);
    FoldConcat(base, before + [merged], after);
    FoldConcat(base, before, [merged]);
    FoldConcat(base, before + run, after);
    FoldConcat(base, before, run);
    assert [merged][..0] == [];
  }

  lemma MergedLayer(b: Live, run: seq<Segment>, merged: Segment)
    requires Merges(merged, run)
    ensures Layer(b, merged) == Fold(b, run)
  {
    FoldSplits(b, run);
    ListingPut(Fold(map[], run), merged.records);
    PutAllOver(b, merged.records);
    Drop(b, Fold(map[], run), Dead(run));
  }

  lemma Drop(b: Live, live: Live, dead: set<Key>)
    requires live.Keys !! dead
    ensures (b + live) - dead == (b - dead) + live
  {
  }

  /* ---------- reading the stack ---------- */

  /** Newest mention wins: records overwrite and revive, tombstones delete. */
  method Materialize(segments: seq<Segment>) returns (records: seq<Record>, tombstones: seq<Key>)
    ensures IsListing(Fold(map[], segments), records)
    ensures Elements(tombstones) == Dead(segments)
  {
    hide IsListing, Fold, Dead;
    var live: Live, dead: set<Key> := map[], {};
    NothingYet();
    for i := 0 to |segments|
      invariant live == Fold(map[], segments[..i]) && dead == Dead(segments[..i]) && Keyed(live)
    {
      ghost var live0, dead0 := live, dead;
      var items := segments[i].records;
      for j := 0 to |items|
        invariant live == PutAll(live0, items[..j]) && Keyed(live) && dead == dead0 - KeysOf(items[..j])
      {
        assert items[..j + 1] == items[..j] + [items[j]];
        PutAllPush(live0, items[..j], items[j]);
        live := live[items[j].key := items[j]];
        dead := dead - {items[j].key};
      }
      assert items[..|items|] == items;
      var keys := segments[i].tombstones;
      ghost var live1, dead1 := live, dead;
      for j := 0 to |keys|
        invariant live == live1 - Elements(keys[..j]) && dead == dead1 + Elements(keys[..j])
      {
        assert keys[..j + 1] == keys[..j] + [keys[j]];
        live := live - {keys[j]};
        dead := dead + {keys[j]};
      }
      assert keys[..|keys|] == keys;
      PushStep(segments, i);
    }
    assert segments[..|segments|] == segments;
    records := List(live);
    tombstones := KeyList(dead);
  }

  lemma NothingYet()
    ensures Fold(map[], []) == map[] && Dead([]) == {}
  {
  }

  lemma PushStep(segments: seq<Segment>, i: nat)
    requires i < |segments|
    ensures Fold(map[], segments[..i + 1]) == Layer(Fold(map[], segments[..i]), segments[i])
    ensures Dead(segments[..i + 1]) == Bury(Dead(segments[..i]), segments[i])
  {
    assert segments[..i + 1][..i] == segments[..i];
  }

  lemma KeyPush(list: seq<Key>, k: Key)
    ensures Elements(list + [k]) == Elements(list) + {k}
  {
  }

  method KeyList(keys: set<Key>) returns (list: seq<Key>)
    ensures Elements(list) == keys
  {
    list := [];
    var left := keys;
    while left != {}
      invariant left <= keys && Elements(list) == keys - left
      decreases |left|
    {
      var k :| k in left;
      KeyPush(list, k);
      left := left - {k};
      list := list + [k];
    }
  }

  datatype Location = Location(segment: nat, ordinal: nat)

  ghost predicate Holds(segments: seq<Segment>, l: Location, r: Record)
  {
    l.segment < |segments| && l.ordinal < |segments[l.segment].records| && segments[l.segment].records[l.ordinal] == r
  }

  ghost predicate Located(segments: seq<Segment>, live: Live, at: map<Key, Location>)
  {
    at.Keys == live.Keys && forall k :: k in live ==> Holds(segments, at[k], live[k])
  }

  lemma LocatedPut(segments: seq<Segment>, live: Live, at: map<Key, Location>, r: Record, l: Location)
    requires Located(segments, live, at) && Holds(segments, l, r)
    ensures Located(segments, live[r.key := r], at[r.key := l])
  {
  }

  lemma LocatedDrop(segments: seq<Segment>, live: Live, at: map<Key, Location>, k: Key)
    requires Located(segments, live, at)
    ensures Located(segments, live - {k}, at - {k})
  {
  }

  /** The records of one segment are selected with their ordinals. */
  method SelectRecords(segments: seq<Segment>, i: nat, live0: Live, at0: map<Key, Location>)
      returns (live: Live, at: map<Key, Location>)
    requires i < |segments| && Keyed(live0) && Located(segments, live0, at0)
    ensures live == PutAll(live0, segments[i].records) && Keyed(live) && Located(segments, live, at)
  {
    hide Located;
    live, at := live0, at0;
    var items := segments[i].records;
    for j := 0 to |items|
      invariant live == PutAll(live0, items[..j]) && Keyed(live) && Located(segments, live, at)
    {
      assert items[..j + 1] == items[..j] + [items[j]];
      PutAllPush(live0, items[..j], items[j]);
      assert Holds(segments, Location(i, j), items[j]);
      LocatedPut(segments, live, at, items[j], Location(i, j));
      live := live[items[j].key := items[j]];
      at := at[items[j].key := Location(i, j)];
    }
    assert items[..|items|] == items;
  }

  /** One segment of the stack: its records are selected, then its tombstones deselected. */
  method Overlay(segments: seq<Segment>, i: nat, live0: Live, at0: map<Key, Location>)
      returns (live: Live, at: map<Key, Location>)
    requires i < |segments| && Keyed(live0) && Located(segments, live0, at0)
    ensures live == Layer(live0, segments[i]) && Keyed(live) && Located(segments, live, at)
  {
    hide Located, PutAll;
    live, at := SelectRecords(segments, i, live0, at0);
    var keys := segments[i].tombstones;
    ghost var live1 := live;
    for j := 0 to |keys|
      invariant live == live1 - Elements(keys[..j]) && Keyed(live) && Located(segments, live, at)
    {
      assert keys[..j + 1] == keys[..j] + [keys[j]];
      KeyPush(keys[..j], keys[j]);
      LocatedDrop(segments, live, at, keys[j]);
      live := live - {keys[j]};
      at := at - {keys[j]};
    }
    assert keys[..|keys|] == keys;
  }

  /** Selects the same records in the same order as materializing, and tells where each one is stored. */
  method ResolveMapped(segments: seq<Segment>) returns (records: seq<Record>, locations: seq<Location>)
    ensures IsListing(Fold(map[], segments), records)
    ensures |locations| == |records| && forall i :: 0 <= i < |records| ==> Holds(segments, locations[i], records[i])
  {
    var live: Live, at: map<Key, Location> := map[], map[];
    for i := 0 to |segments|
      invariant live == Fold(map[], segments[..i]) && Keyed(live) && Located(segments, live, at)
    {
      live, at := Overlay(segments, i, live, at);
      PushStep(segments, i);
    }
    assert segments[..|segments|] == segments;
    records := List(live);
    locations := [];
    for i := 0 to |records|
      invariant |locations| == i && forall k :: 0 <= k < i ==> Holds(segments, locations[k], records[k])
    {
      assert records[i].key in live && live[records[i].key] == records[i];
      locations := locations + [at[records[i].key]];
    }
  }

  /* ---------- choosing and replacing a run ---------- */

  const FAN_IN: nat := 4
  const SIZE_RATIO: nat := 4
  const MAX_INPUT_BYTES: nat := 67108864
  const MAX_SEGMENTS: nat := 8

  datatype Plan = NoRun | Run(from: nat, to: nat) | Refused

  function Bytes(segments: seq<Segment>): nat
  {
    if segments == [] then 0 else Bytes(segments[..|segments| - 1]) + segments[|segments| - 1].size
  }

  predicate ExceedsRatio(value: nat, minimum: nat, ratio: nat)
    requires minimum > 0
  {
    value / minimum > ratio || (value / minimum == ratio && value % minimum != 0)
  }

  /** Larger than so many times the minimum, decided without multiplying. */
  lemma ExceedsExact(value: nat, minimum: nat, ratio: nat)
    requires minimum > 0
    ensures ExceedsRatio(value, minimum, ratio) <==> value > ratio * minimum
  {
    var q, r := value / minimum, value % minimum;
    assert value == q * minimum + r;
    if q > ratio { MoreTimes(ratio + 1, q, minimum); }
    if q < ratio { MoreTimes(q + 1, ratio, minimum); }
  }

  lemma MoreTimes(a: nat, b: nat, m: nat)
    requires a <= b
    ensures a * m <= b * m
  {
  }

  /** A stack in log order, as checkpoints build it; a file name carries the log position, so no name repeats. */
  ghost predicate InOrder(segments: seq<Segment>)
  {
    && (forall i, j :: 0 <= i < j < |segments| ==> segments[i].maxLSN < segments[j].maxLSN)
    && (forall i :: 0 <= i < |segments| ==> segments[i].file.lsn == segments[i].maxLSN)
  }

  /** `result` is `segments` with the run `from..to` replaced by its merge, written while the log is at `sequence`. */
  ghost predicate Replaces(segments: seq<Segment>, from: nat, to: nat, merged: Segment, sequence: nat,
      result: seq<Segment>)
  {
    && from + 2 <= to <= |segments|
    && Merges(merged, segments[from..to])
    && merged.maxLSN == segments[to - 1].maxLSN
    && merged.file == Merged(merged.maxLSN, sequence)
    && result == segments[..from] + [merged] + segments[to..]
  }

  ghost predicate Compacted(segments: seq<Segment>, sequence: nat, result: seq<Segment>)
  {
    result == segments || exists from, to, merged :: Replaces(segments, from, to, merged, sequence, result)
  }

  lemma ReplacesFold(base: Live, segments: seq<Segment>, from: nat, to: nat, merged: Segment, sequence: nat,
      result: seq<Segment>)
    requires Replaces(segments, from, to, merged, sequence, result)
    ensures Fold(base, result) == Fold(base, segments)
  {
    assert segments == segments[..from] + segments[from..to] + segments[to..];
    CompactionPreserves(base, segments[..from], segments[from..to], segments[to..], merged);
  }

  lemma ReplacesInOrder(segments: seq<Segment>, from: nat, to: nat, merged: Segment, sequence: nat,
      result: seq<Segment>)
    requires Replaces(segments, from, to, merged, sequence, result) && InOrder(segments)
    ensures InOrder(result)
  {
    hide Merges;
    forall i, j | 0 <= i < j < |result| ensures result[i].maxLSN < result[j].maxLSN
    {
      assert i < from ==> result[i] == segments[i];
      assert j > from ==> result[j] == segments[j - 1 - from + to];
      assert i > from ==> result[i] == segments[i - 1 - from + to];
      assert j < from ==> result[j] == segments[j];
    }
  }

  /** A compacted stack shows the same records over every base, and is again in log order. */
  lemma CompactedSame(base: Live, segments: seq<Segment>, sequence: nat, result: seq<Segment>)
    requires Compacted(segments, sequence, result) && InOrder(segments)
    ensures Fold(base, result) == Fold(base, segments) && InOrder(result)
  {
    if result != segments {
      var from, to, merged :| Replaces(segments, from, to, merged, sequence, result);
      ReplacesFold(base, segments, from, to, merged, sequence, result);
      ReplacesInOrder(segments, from, to, merged, sequence, result);
    }
  }

  lemma {:induction false} BytesSplit(a: seq<Segment>, b: seq<Segment>)
    ensures Bytes(a + b) == Bytes(a) + Bytes(b)
    decreases |b|
  {
    if b == [] {
      assert a + b == a;
    } else {
      assert (a + b)[..|a + b| - 1] == a + b[..|b| - 1];
      BytesSplit(a, b[..|b| - 1]);
    }
  }

  lemma BytesGrow(segments: seq<Segment>, i: nat, j: nat, k: nat)
    requires i <= j <= k <= |segments|
    ensures Bytes(segments[i..j]) <= Bytes(segments[i..k])
  {
    assert segments[i..k] == segments[i..j] + segments[j..k];
    BytesSplit(segments[i..j], segments[j..k]);
  }

  lemma NoBytes(segments: seq<Segment>, i: nat)
    requires i <= |segments|
    ensures Bytes(segments[i..i]) == 0
  {
  }

  lemma BytesPush(segments: seq<Segment>, i: nat, j: nat)
    requires i <= j < |segments|
    ensures Bytes(segments[i..j + 1]) == Bytes(segments[i..j]) + segments[j].size
  {
    assert segments[i..j + 1][..j - i] == segments[i..j];
  }

  function Smallest(segments: seq<Segment>, start: nat): nat
    requires start < |segments|
  {
    if segments[start].size < 1 then 1 else segments[start].size
  }

  /** Four neighbours, none much larger than the first, that fit the byte budget. */
  ghost predicate Eligible(segments: seq<Segment>, start: nat)
  {
    && start + FAN_IN <= |segments|
    && (forall i :: start <= i < start + FAN_IN ==>
       !ExceedsRatio(segments[i].size, Smallest(segments, start), SIZE_RATIO))
    && Bytes(segments[start..start + FAN_IN]) <= MAX_INPUT_BYTES
  }

  method TryRun(segments: seq<Segment>, start: nat) returns (found: bool)
    requires start < |segments|
    ensures found <==> Eligible(segments, start)
  {
    hide ExceedsRatio, Bytes;
    var minimum := if segments[start].size < 1 then 1 else segments[start].size;
    var bytes, end := 0, start;
    NoBytes(segments, start);
    while end < |segments| && end - start < FAN_IN
      invariant start <= end <= |segments| && end - start < FAN_IN
      invariant bytes == Bytes(segments[start..end]) && bytes <= MAX_INPUT_BYTES
      invariant forall i :: start <= i < end ==> !ExceedsRatio(segments[i].size, minimum, SIZE_RATIO)
    {
      BytesPush(segments, start, end);
      if start + FAN_IN <= |segments| { BytesGrow(segments, start, end + 1, start + FAN_IN); }
      if ExceedsRatio(segments[end].size, minimum, SIZE_RATIO)
          || segments[end].size > MAX_INPUT_BYTES - bytes { return false; }
      bytes := bytes + segments[end].size;
      if end - start + 1 == FAN_IN { return true; }
      end := end + 1;
    }
    found := false;
  }

  /** In log order, though several segments may share a position. */
  ghost predicate Rises(segments: seq<Segment>)
  {
    forall i, j :: 0 <= i < j < |segments| ==> segments[i].maxLSN <= segments[j].maxLSN
  }

  lemma NothingRises()
    ensures Rises([])
  {
  }

  lemma RisesWith(ordered: seq<Segment>, x: Segment, at: nat)
    requires Rises(ordered) && at <= |ordered| && (at > 0 ==> ordered[at - 1].maxLSN <= x.maxLSN)
    requires forall k :: at <= k < |ordered| ==> x.maxLSN < ordered[k].maxLSN
    ensures Rises(ordered[..at] + [x] + ordered[at..])
  {
    var s := ordered[..at] + [x] + ordered[at..];
    forall i, j | 0 <= i < j < |s| ensures s[i].maxLSN <= s[j].maxLSN
    {
      assert i < at ==> s[i] == ordered[i] && ordered[i].maxLSN <= ordered[at - 1].maxLSN;
      assert i > at ==> s[i] == ordered[i - 1];
      assert j < at ==> s[j] == ordered[j];
      assert j > at ==> s[j] == ordered[j - 1];
    }
  }

  lemma InsertMultiset(ordered: seq<Segment>, x: Segment, at: nat)
    requires at <= |ordered|
    ensures multiset(ordered[..at] + [x] + ordered[at..]) == multiset(ordered) + multiset{x}
  {
    assert ordered == ordered[..at] + ordered[at..];
  }

  method SortByPosition(segments: seq<Segment>) returns (ordered: seq<Segment>)
    ensures Rises(ordered) && multiset(ordered) == multiset(segments)
  {
    hide Rises;
    ordered := [];
    NothingRises();
    for i := 0 to |segments|
      invariant Rises(ordered) && multiset(ordered) == multiset(segments[..i])
    {
      assert segments[..i + 1] == segments[..i] + [segments[i]];
      var at := |ordered|;
      while at > 0 && segments[i].maxLSN < ordered[at - 1].maxLSN
        invariant 0 <= at <= |ordered| && forall k :: at <= k < |ordered| ==> segments[i].maxLSN < ordered[k].maxLSN
      {
        at := at - 1;
      }
      RisesWith(ordered, segments[i], at);
      InsertMultiset(ordered, segments[i], at);
      ordered := ordered[..at] + [segments[i]] + ordered[at..];
    }
    assert segments[..|segments|] == segments;
  }

  /** A stack built by checkpoints is already sorted, and there is no other way to sort it. */
  lemma {:induction false} SortedAlready(segments: seq<Segment>, ordered: seq<Segment>)
    requires InOrder(segments) && Rises(ordered) && multiset(ordered) == multiset(segments)
    ensures ordered == segments
    decreases |segments|
  {
    if segments == [] || ordered == [] {
      assert |multiset(ordered)| == |multiset(segments)|;
    } else {
      SameTop(segments, ordered);
      var n, k := |segments| - 1, |ordered| - 1;
      InitMultiset(segments);
      InitMultiset(ordered);
      SortedAlready(segments[..n], ordered[..k]);
    }
  }

  lemma InitMultiset(s: seq<Segment>)
    requires s != []
    ensures multiset(s[..|s| - 1]) == multiset(s) - multiset{s[|s| - 1]} && s == s[..|s| - 1] + [s[|s| - 1]]
  {
    assert s == s[..|s| - 1] + [s[|s| - 1]];
  }

  lemma SameTop(segments: seq<Segment>, ordered: seq<Segment>)
    requires InOrder(segments) && Rises(ordered) && multiset(ordered) == multiset(segments)
    requires segments != [] && ordered != []
    ensures ordered[|ordered| - 1] == segments[|segments| - 1]
  {
    var top, last := segments[|segments| - 1], ordered[|ordered| - 1];
    assert last in multiset(segments) && top in multiset(ordered);
    var i :| 0 <= i < |segments| && segments[i] == last;
    var j :| 0 <= j < |ordered| && ordered[j] == top;
  }

  /** Sorts a copy of the segments and chooses a run of it. */
  method Select(segments: seq<Segment>) returns (plan: Plan, ordered: seq<Segment>)
    ensures Rises(ordered) && multiset(ordered) == multiset(segments)
    ensures Chosen(ordered, plan)
  {
    hide Eligible, Bytes;
    ordered := SortByPosition(segments);
    plan := Choose(ordered);
  }

  /**
   * The oldest run of four segments of similar size; at the cap, failing that, as many of the oldest as fit the budget.
   */
  ghost predicate Chosen(segments: seq<Segment>, plan: Plan)
  {
    && (plan.Run? ==>
          plan.from + 2 <= plan.to <= plan.from + FAN_IN && plan.to <= |segments|
              && Bytes(segments[plan.from..plan.to]) <= MAX_INPUT_BYTES)
    && ((exists i :: 0 <= i < |segments| && Eligible(segments, i)) ==>
          plan.Run? && plan.to == plan.from + FAN_IN && Eligible(segments, plan.from) && forall i ::
              0 <= i < plan.from ==> !Eligible(segments, i))
    && ((forall i :: 0 <= i < |segments| ==> !Eligible(segments, i)) ==>
          && (plan == NoRun <==> |segments| < MAX_SEGMENTS)
          && (plan == Refused <==> |segments| >= MAX_SEGMENTS && Bytes(segments[..2]) > MAX_INPUT_BYTES)
          && (plan.Run? ==>
             plan.from == 0 && (plan.to == FAN_IN || Bytes(segments[..plan.to + 1]) > MAX_INPUT_BYTES)))
  }

  /** Too many segments, no run of similar ones, and the two oldest already exceed the byte budget. */
  ghost predicate Stuck(segments: seq<Segment>)
  {
    && |segments| >= MAX_SEGMENTS && Bytes(segments[..2]) > MAX_INPUT_BYTES
    && forall i :: 0 <= i < |segments| ==> !Eligible(segments, i)
  }

  lemma RefusedIff(segments: seq<Segment>, plan: Plan)
    requires Chosen(segments, plan)
    ensures plan.Refused? <==> Stuck(segments)
  {
    hide Eligible, Bytes;
  }

  ghost predicate SameSizes(a: seq<Segment>, b: seq<Segment>)
  {
    |a| == |b| && forall i :: 0 <= i < |a| ==> a[i].size == b[i].size
  }

  lemma {:induction false} SameBytes(a: seq<Segment>, b: seq<Segment>)
    requires SameSizes(a, b)
    ensures Bytes(a) == Bytes(b)
    decreases |a|
  {
    if a != [] { SameBytes(a[..|a| - 1], b[..|b| - 1]); }
  }

  /** Only the sizes decide. */
  lemma StuckSizes(a: seq<Segment>, b: seq<Segment>)
    requires SameSizes(a, b)
    ensures Stuck(a) <==> Stuck(b)
  {
    hide Bytes, Eligible;
    if |a| >= MAX_SEGMENTS { SameBytes(a[..2], b[..2]); }
    forall i | 0 <= i < |a| ensures Eligible(a, i) <==> Eligible(b, i) { EligibleSizes(a, b, i); }
  }

  lemma EligibleSizes(a: seq<Segment>, b: seq<Segment>, i: nat)
    requires SameSizes(a, b) && i < |a|
    ensures Eligible(a, i) <==> Eligible(b, i)
  {
    hide Bytes, ExceedsRatio;
    if i + FAN_IN <= |a| { SameBytes(a[i..i + FAN_IN], b[i..i + FAN_IN]); }
  }

  method Choose(segments: seq<Segment>) returns (plan: Plan)
    ensures Chosen(segments, plan)
  {
    hide Eligible;
    var start := 0;
    while start < |segments|
      invariant 0 <= start <= |segments| && forall i :: 0 <= i < start ==> !Eligible(segments, i)
    {
      var found := TryRun(segments, start);
      if found {
        EligibleFits(segments, start);
        return Run(start, start + FAN_IN);
      }
      start := start + 1;
    }
    if |segments| < MAX_SEGMENTS { return NoRun; }
    plan := ForcedRun(segments);
  }

  lemma EligibleFits(segments: seq<Segment>, start: nat)
    requires Eligible(segments, start)
    ensures start + FAN_IN <= |segments| && Bytes(segments[start..start + FAN_IN]) <= MAX_INPUT_BYTES
  {
  }

  method ForcedRun(segments: seq<Segment>) returns (plan: Plan)
    requires |segments| >= MAX_SEGMENTS
    ensures plan == Refused <==> Bytes(segments[..2]) > MAX_INPUT_BYTES
    ensures plan != Refused ==>
              && plan.Run? && plan.from == 0 && 2 <= plan.to <= FAN_IN && Bytes(segments[0..plan.to]) <= MAX_INPUT_BYTES
              && (plan.to == FAN_IN || Bytes(segments[..plan.to + 1]) > MAX_INPUT_BYTES)
  {
    var bytes, count := 0, 0;
    while count < FAN_IN && segments[count].size <= MAX_INPUT_BYTES - bytes
      invariant 0 <= count <= FAN_IN && bytes == Bytes(segments[..count]) && bytes <= MAX_INPUT_BYTES
    {
      assert segments[..count + 1][..count] == segments[..count];
      bytes := bytes + segments[count].size;
      count := count + 1;
    }
    if count < FAN_IN { assert segments[..count + 1][..count] == segments[..count]; }
    if count < 2 {
      BytesGrow(segments, 0, count + 1, 2);
      return Refused;
    }
    BytesGrow(segments, 0, 2, count);
    plan := Run(0, count);
  }

  /** Separates the chosen files from the others and remembers where the first of them was. */
  method TakeRun(segments: seq<Segment>, chosen: set<File>, ghost from: nat, ghost to: nat)
    returns (inputs: seq<Segment>, remaining: seq<Segment>, insertAt: int)
    requires from < to <= |segments|
    requires forall k :: 0 <= k < |segments| ==> (segments[k].file in chosen <==> from <= k < to)
    ensures inputs == segments[from..to] && remaining == segments[..from] + segments[to..] && insertAt == from
  {
    inputs, remaining, insertAt := [], [], -1;
    for i := 0 to |segments|
      invariant i <= from ==> inputs == [] && remaining == segments[..i] && insertAt == -1
      invariant from < i <= to ==> inputs == segments[from..i] && remaining == segments[..from] && insertAt == from
      invariant to < i ==>
                inputs == segments[from..to] && remaining == segments[..from] + segments[to..i] && insertAt == from
    {
      if segments[i].file in chosen {
        if insertAt < 0 { insertAt := |remaining|; }
        inputs := inputs + [segments[i]];
      } else {
        remaining := remaining + [segments[i]];
      }
    }
  }

  /** Takes the files of the run out of the stack and puts their merge where the first of them was. */
  method ReplaceRun(segments: seq<Segment>, from: nat, to: nat, sequence: nat, mergedSize: nat)
      returns (result: seq<Segment>, merged: Segment)
    requires InOrder(segments) && from + 2 <= to <= |segments|
    ensures Replaces(segments, from, to, merged, sequence, result)
  {
    hide Fold, Dead, IsListing, Elements;
    var chosen: set<File> := {};
    for i := from to to
      invariant forall k :: 0 <= k < |segments| ==> (segments[k].file in chosen <==> from <= k < i)
    {
      chosen := chosen + {segments[i].file};
    }
    var inputs, remaining, insertAt := TakeRun(segments, chosen, from, to);
    var records, tombstones := Materialize(inputs);
    var maxLSN := inputs[|inputs| - 1].maxLSN;
    merged := Segment(Merged(maxLSN, sequence), records, tombstones, maxLSN, mergedSize);
    result := remaining[..insertAt] + [merged] + remaining[insertAt..];
    assert remaining[..insertAt] == segments[..from] && remaining[insertAt..] == segments[to..];
  }

  /** Replaces the planned run, if there is one; what the stack shows over any base stays the same. */
  method Compact(segments: seq<Segment>, sequence: nat, mergedSize: nat) returns (result: seq<Segment>, refused: bool)
    requires InOrder(segments)
    ensures Compacted(segments, sequence, result) && InOrder(result) && |result| <= |segments|
    ensures forall base :: Fold(base, result) == Fold(base, segments)
    ensures refused <==> Stuck(segments)
    ensures refused ==> result == segments
    ensures !refused && |segments| >= MAX_SEGMENTS ==> |result| < |segments|
  {
    hide Eligible, Bytes, Fold, InOrder, Replaces, Stuck;
    var plan, ordered := Select(segments);
    SortedAlready(segments, ordered);
    RefusedIff(segments, plan);
    if !plan.Run? { return segments, plan.Refused?; }
    refused := false;
    var merged;
    result, merged := ReplaceRun(segments, plan.from, plan.to, sequence, mergedSize);
    ReplacesShrinks(segments, plan.from, plan.to, merged, sequence, result);
    ReplacesInOrder(segments, plan.from, plan.to, merged, sequence, result);
    forall base ensures Fold(base, result) == Fold(base, segments)
    {
      ReplacesFold(base, segments, plan.from, plan.to, merged, sequence, result);
    }
  }

  lemma ReplacesShrinks(segments: seq<Segment>, from: nat, to: nat, merged: Segment, sequence: nat,
      result: seq<Segment>)
    requires Replaces(segments, from, to, merged, sequence, result)
    ensures |result| < |segments|
  {
    hide Merges;
  }
}
