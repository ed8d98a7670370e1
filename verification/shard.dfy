/** One shard's layers: an immutable base, tombstones over it, and a mutable segment on top. */
module ShardLayers {
  import opened Collections
  import opened Records

  datatype Layers = Layers(active: Live, base: Option<Live>, tombstones: set<Key>, count: int)

  const EMPTY: Layers := Layers(map[], None, {}, 0)

  function BaseOf(l: Layers): Live
  {
    if l.base.Some? then l.base.value else map[]
  }

  /** The map a reader sees. */
  function Seen(l: Layers): Live
  {
    (BaseOf(l) - l.tombstones) + l.active
  }

  ghost predicate Sound(l: Layers)
  {
    && l.active.Keys !! l.tombstones
    && l.tombstones <= BaseOf(l).Keys
    && l.count == |Seen(l)|
    && Keyed(l.active) && Keyed(BaseOf(l))
  }

  function Upsert(l: Layers, r: Record): Layers
  {
    var existed := r.key in l.active || (l.base.Some? && r.key !in l.tombstones && r.key in l.base.value);
    Layers(l.active[r.key := r], l.base, l.tombstones - {r.key}, if existed then l.count else l.count + 1)
  }

  predicate Has(l: Layers, k: Key)
  {
    k in l.active || (k in BaseOf(l) && k !in l.tombstones)
  }

  function Delete(l: Layers, k: Key): Layers
  {
    if !Has(l, k) then l
    else Layers(l.active - {k}, l.base, if k in BaseOf(l) then l.tombstones + {k} else l.tombstones, l.count - 1)
  }

  function Install(base: Live): Layers
  {
    Layers(map[], Some(base), {}, |base|)
  }

  lemma PutOver(b: Live, t: set<Key>, a: Live, r: Record)
    requires a.Keys !! t
    ensures (b - (t - {r.key})) + a[r.key := r] == ((b - t) + a)[r.key := r]
  {
    var x, y := (b - (t - {r.key})) + a[r.key := r], ((b - t) + a)[r.key := r];
    assert x.Keys == y.Keys;
    forall k | k in x.Keys ensures x[k] == y[k] {}
  }

  lemma DropOver(b: Live, t: set<Key>, a: Live, k: Key)
    ensures (b - (t + {k})) + (a - {k}) == ((b - t) + a) - {k}
  {
    var x, y := (b - (t + {k})) + (a - {k}), ((b - t) + a) - {k};
    assert x.Keys == y.Keys;
    forall i | i in x.Keys ensures x[i] == y[i] {}
  }

  lemma PutSize(m: Live, r: Record)
    ensures |m[r.key := r]| == |m| + if r.key in m then 0 else 1
  {
    assert m[r.key := r].Keys == m.Keys + {r.key};
    assert |m[r.key := r].Keys| == |m[r.key := r]| && |m.Keys| == |m|;
  }

  lemma DropSize(m: Live, k: Key)
    ensures |m - {k}| == |m| - if k in m then 1 else 0
  {
    assert (m - {k}).Keys == m.Keys - {k};
    assert |(m - {k}).Keys| == |m - {k}| && |m.Keys| == |m|;
  }

  lemma KeyedPut(m: Live, r: Record)
    requires Keyed(m)
    ensures Keyed(m[r.key := r])
  {
  }

  lemma KeyedDrop(m: Live, k: Key)
    requires Keyed(m)
    ensures Keyed(m - {k})
  {
  }

  lemma HasSeen(l: Layers, k: Key)
    ensures Has(l, k) <==> k in Seen(l)
  {
  }

  lemma UpsertSees(l: Layers, r: Record)
    requires l.active.Keys !! l.tombstones
    ensures Seen(Upsert(l, r)) == Seen(l)[r.key := r]
  {
    PutOver(BaseOf(l), l.tombstones, l.active, r);
  }

  /** Upserting is a map update. */
  lemma UpsertSeen(l: Layers, r: Record)
    requires Sound(l)
    ensures Sound(Upsert(l, r)) && Seen(Upsert(l, r)) == Seen(l)[r.key := r]
  {
    hide Seen, Keyed;
    UpsertSees(l, r);
    PutSize(Seen(l), r);
    HasSeen(l, r.key);
    KeyedPut(l.active, r);
  }

  lemma DeleteSees(l: Layers, k: Key)
    requires Has(l, k)
    ensures Seen(Delete(l, k)) == Seen(l) - {k}
  {
    DropOver(BaseOf(l), l.tombstones, l.active, k);
    DropAbsent(BaseOf(l), l.tombstones, k);
  }

  lemma DeleteMissing(l: Layers, k: Key)
    requires k !in Seen(l)
    ensures Seen(l) - {k} == Seen(l)
  {
  }

  /** Deleting removes the key and nothing else; a missing key changes nothing. */
  lemma DeleteSeen(l: Layers, k: Key)
    requires Sound(l)
    ensures Sound(Delete(l, k)) && Seen(Delete(l, k)) == Seen(l) - {k}
  {
    hide Seen, Keyed;
    HasSeen(l, k);
    if Has(l, k) {
      DeleteSees(l, k);
      DropSize(Seen(l), k);
      KeyedDrop(l.active, k);
    } else {
      DeleteMissing(l, k);
    }
  }

  lemma DropAbsent(b: Live, t: set<Key>, k: Key)
    ensures k !in b ==> b - (t + {k}) == b - t
  {
  }

  /** The delta of a checkpoint applied to the base is exactly what readers see. */
  lemma DeltaOverBase(l: Layers, delta: seq<Record>, dead: set<Key>)
    requires Sound(l) && IsListing(l.active, delta) && dead == l.tombstones
    ensures PutAll(BaseOf(l), delta) - dead == Seen(l)
  {
    ListingPut(l.active, delta);
    PutAllOver(BaseOf(l), delta);
    hide IsListing, Keyed, PutAll;
    DropLate(BaseOf(l), l.active, dead);
  }

  lemma DropLate(b: Live, a: Live, t: set<Key>)
    requires a.Keys !! t
    ensures (b + a) - t == (b - t) + a
  {
    var x, y := (b + a) - t, (b - t) + a;
    assert x.Keys == y.Keys;
    forall i | i in x.Keys ensures x[i] == y[i] {}
  }

  /** Installing what readers see as the new base changes nothing visible. */
  lemma InstallInvisible(l: Layers)
    requires Sound(l)
    ensures Sound(Install(Seen(l))) && Seen(Install(Seen(l))) == Seen(l)
  {
    SeenKeyed(l);
    InstallSound(Seen(l));
  }

  lemma SeenKeyed(l: Layers)
    requires Keyed(l.active) && Keyed(BaseOf(l))
    ensures Keyed(Seen(l))
  {
  }

  lemma InstallSound(base: Live)
    requires Keyed(base)
    ensures Sound(Install(base)) && Seen(Install(base)) == base
  {
    assert (base - {}) + map[] == base;
  }

  datatype Found = NotFound | FoundRecord(record: Record)

  class Generation {
    const id: nat
    const records: Live
    var readers: nat
    var retired: bool
    var closed: bool

    constructor (id: nat, records: Live)
      ensures this.id == id && this.records == records && readers == 0 && !retired && !closed
    {
      this.id, this.records, this.readers, this.retired, this.closed := id, records, 0, false, false;
    }
  }

  /** Generations are numbered up to `n`, and only they are pinned. */
  ghost predicate Numbered(gens: set<Generation>, pins: multiset<nat>, n: nat)
  {
    && (forall g :: g in gens ==> g.id <= n)
    && (forall g, h :: g in gens && h in gens && g.id == h.id ==> g == h)
    && forall id :: id in pins ==> id in set g | g in gens :: g.id
  }

  lemma NumberedPin(gens: set<Generation>, pins: multiset<nat>, n: nat, g: Generation)
    requires Numbered(gens, pins, n) && g in gens
    ensures Numbered(gens, pins + multiset{g.id}, n) && Numbered(gens, pins - multiset{g.id}, n)
  {
  }

  lemma NumberedNew(gens: set<Generation>, pins: multiset<nat>, n: nat, g: Generation)
    requires Numbered(gens, pins, n) && g.id == n + 1
    ensures Numbered(gens + {g}, pins, n + 1) && g.id !in pins
  {
    forall id | id in pins ensures id != g.id && id in set h | h in gens + {g} :: h.id
    {
      var h :| h in gens && h.id == id;
      assert h in gens + {g};
    }
  }

  lemma OtherNumber(gens: set<Generation>, pins: multiset<nat>, n: nat, g: Generation, h: Generation)
    requires Numbered(gens, pins, n) && g in gens && h in gens && g != h
    ensures g.id != h.id
  {
  }

  class Shard {
    var active: Live
    var immutable: Generation?
    var nextGen: nat
    var pinned: nat
    var tombstones: set<Key>
    var count: int
    /** Every generation there ever was, and the generation of every snapshot not yet closed. */
    ghost var gens: set<Generation>
    ghost var pins: multiset<nat>

    ghost function View(): Layers
      reads this
    {
      Layers(active, if immutable == null then None else Some(immutable.records), tombstones, count)
    }

    ghost predicate Valid()
      reads this, if immutable == null then {} else {immutable}
    {
      Sound(View()) && (immutable != null ==> !immutable.retired && !immutable.closed)
    }

    /**
     * The counters count the open snapshots, one by one and in all; a generation is closed exactly when it has been
     * replaced and no snapshot reads it any more.
     */
    ghost predicate Counted()
      reads `pinned, `pins, `gens, `immutable, `nextGen, gens
    {
      && pinned == |pins| && (immutable != null ==> immutable in gens)
      && Numbered(gens, pins, nextGen) && forall g :: g in gens ==> Counts(g)
    }

    ghost predicate Counts(g: Generation)
      reads `pins, `immutable, g
    {
      g.readers == pins[g.id] && (g.retired <==> g != immutable) && (g.closed <==> g.retired && g.readers == 0)
    }

    constructor ()
      ensures Valid() && Counted() && View() == EMPTY && Seen(View()) == map[] && pinned == 0
    {
      active, immutable, nextGen, pinned, tombstones, count := map[], null, 0, 0, {}, 0;
      gens, pins := {}, multiset{};
    }

    method Put(record: Record)
      requires Valid()
      modifies this`active, this`tombstones, this`count
      ensures Valid() && View() == Upsert(old(View()), record)
              && Seen(View()) == old(Seen(View()))[record.key := record]
      ensures immutable == old(immutable) && pinned == old(pinned) && nextGen == old(nextGen)
    {
      hide Sound, Seen;
      UpsertSeen(View(), record);
      var existed := record.key in active;
      if !existed && immutable != null && record.key !in tombstones {
        existed := record.key in immutable.records;
      }
      active := active[record.key := record];
      tombstones := tombstones - {record.key};
      if !existed { count := count + 1; }
    }

    method Get(key: Key) returns (r: Found)
      requires Valid()
      ensures r == if key in Seen(View()) then FoundRecord(Seen(View())[key]) else NotFound
    {
      if key in active { return FoundRecord(active[key]); }
      if key in tombstones || immutable == null { return NotFound; }
      if key in immutable.records { return FoundRecord(immutable.records[key]); }
      r := NotFound;
    }

    /** False is the not-found error. */
    method Remove(key: Key) returns (found: bool)
      requires Valid()
      modifies this`active, this`tombstones, this`count
      ensures Valid() && found == (key in old(Seen(View()))) && Seen(View()) == old(Seen(View())) - {key}
      ensures View() == if found then Delete(old(View()), key) else old(View())
      ensures immutable == old(immutable) && pinned == old(pinned) && nextGen == old(nextGen)
    {
      hide Sound, Seen;
      HasSeen(View(), key);
      DeleteSeen(View(), key);
      var inActive := key in active;
      var inBase := immutable != null && key in immutable.records;
      if !inActive && (!inBase || key in tombstones) { return false; }
      assert !inActive ==> active - {key} == active;
      if inActive { active := active - {key}; }
      if inBase { tombstones := tombstones + {key}; }
      count := count - 1;
      found := true;
    }

    /** Base without tombstones, overwritten by the active segment, in key order. */
    method RecordsNow() returns (records: seq<Record>)
      requires Valid()
      ensures IsListing(Seen(View()), records) && |records| == count
    {
      var merged: Live := if immutable == null then map[] else immutable.records;
      merged := merged - tombstones;
      merged := merged + active;
      records := List(merged);
      ListingPut(merged, records);
    }

    method CheckpointDelta() returns (delta: seq<Record>, dead: set<Key>)
      requires Valid()
      ensures IsListing(active, delta) && dead == tombstones
      ensures PutAll(BaseOf(View()), delta) - dead == Seen(View())
    {
      delta := List(active);
      dead := tombstones;
      DeltaOverBase(View(), delta, dead);
    }

    /** Replaces base and delta; the old generation is closed unless a snapshot still reads it. */
    method InstallImmutable(base: Live)
      requires Valid() && Keyed(base)
      modifies this, if immutable == null then {} else {immutable}
      ensures Valid() && fresh(immutable) && View() == Install(base) && Seen(View()) == base
      ensures nextGen == old(nextGen) + 1 && immutable.id == nextGen && immutable.readers == 0 && pinned == old(pinned)
      ensures old(Counted()) ==> Counted() && gens == old(gens) + {immutable} && pins == old(pins)
      ensures old(immutable) != null ==>
                old(immutable).retired && old(immutable).readers == old(immutable.readers)
                    && (old(immutable).closed <==> old(immutable.readers) == 0)
    {
      hide Sound, Seen, Keyed, Numbered;
      InstallSound(base);
      NextGeneration(base);
      active, tombstones := map[], {};
      count := |base|;
    }

    method NextGeneration(base: Live)
      requires immutable != null ==> !immutable.closed
      modifies this`nextGen, this`immutable, this`gens, if immutable == null then {} else {immutable}
      ensures immutable != null && fresh(immutable) && nextGen == old(nextGen) + 1
      ensures immutable.id == nextGen && immutable.records == base && immutable.readers == 0 && !immutable.retired
              && !immutable.closed
      ensures old(Counted()) ==> Counted() && gens == old(gens) + {immutable}
      ensures old(immutable) != null ==>
                old(immutable).retired && old(immutable).readers == old(immutable.readers)
                    && (old(immutable).closed <==> old(immutable.readers) == 0)
    {
      hide Numbered;
      var previous := immutable;
      nextGen := nextGen + 1;
      var next := new Generation(nextGen, base);
      immutable := next;
      gens := gens + {next};
      if previous != null { Retire(previous); }
      if old(Counted()) { Switched(next); }
    }

    /** Switching to a new generation keeps the counts. */
    twostate lemma Switched(new next: Generation)
      requires old(Counted()) && pinned == old(pinned) && pins == old(pins)
      requires immutable == next && gens == old(gens) + {next} && next.id == nextGen == old(nextGen) + 1
               && next !in old(gens)
      requires next.readers == 0 && !next.retired && !next.closed
      requires forall g :: g in old(gens) && g != old(immutable) ==> unchanged(g)
      requires old(immutable) != null ==>
                 old(immutable).retired && old(immutable).readers == old(immutable.readers)
                     && (old(immutable).closed <==> old(immutable.readers) == 0)
      ensures Counted()
    {
      hide Numbered;
      NumberedNew(old(gens), pins, old(nextGen), next);
      forall g | g in gens ensures Counts(g) { if g != next { assert old(Counts(g)); } }
    }

    /** A replaced generation is closed at once if nobody reads it. */
    static method Retire(g: Generation)
      modifies g
      ensures g.retired && g.readers == old(g.readers) && g.closed == (old(g.closed) || g.readers == 0)
    {
      g.retired := true;
      if g.readers == 0 { g.closed := true; }
    }

    /** Null is the error: there is no checkpointed generation yet. */
    method PinSnapshot() returns (g: Generation?)
      requires Valid() && Counted()
      modifies this`pinned, this`pins, immutable
      ensures Valid() && Counted() && View() == old(View()) && immutable == old(immutable) && gens == old(gens)
      ensures g == immutable
      ensures g != null ==> g in gens && !g.closed && pinned == old(pinned) + 1 && pins == old(pins) + multiset{g.id}
      ensures g == null ==> pinned == old(pinned) && pins == old(pins)
    {
      hide Sound, Seen, Numbered;
      if immutable == null { return null; }
      NumberedPin(gens, pins, nextGen, immutable);
      forall h | h in gens && h != immutable
          ensures h.id != immutable.id { OtherNumber(gens, pins, nextGen, immutable, h); }
      immutable.readers := immutable.readers + 1;
      pinned := pinned + 1;
      pins := pins + multiset{immutable.id};
      g := immutable;
    }

    /** Another reader is there exactly if some snapshot is still open. */
    method HasPinnedReaders() returns (any: bool)
      requires Counted()
      ensures any <==> exists g :: g in gens && g.readers > 0
    {
      any := pinned > 0;
      if any {
        assert pins != multiset{};
        ghost var id :| id in pins;
        assert id in set g | g in gens :: g.id;
      } else {
        assert pins == multiset{};
      }
    }

    /** A generation is closed by its last reader, and only once it is retired. */
    method Release(g: Generation)
      requires Valid() && Counted() && g in gens
      modifies this`pinned, this`pins, g
      ensures Valid() && Counted() && View() == old(View()) && immutable == old(immutable) && gens == old(gens)
      ensures g.retired == old(g.retired)
      ensures old(g.readers) > 0 ==>
              g.readers == old(g.readers) - 1 && pinned == old(pinned) - 1 && pins == old(pins) - multiset{g.id}
      ensures old(g.readers) == 0 ==> g.readers == 0 && pinned == old(pinned) && pins == old(pins)
      ensures g.closed <==> old(g.closed) || (old(g.readers) == 1 && g.retired)
    {
      hide Sound, Seen, Numbered;
      if g.readers == 0 { return; }
      assert Counts(g) && g.id in pins;
      g.readers := g.readers - 1;
      pinned := pinned - 1;
      pins := pins - multiset{g.id};
      if g.retired && g.readers == 0 { g.closed := true; }
      Released(g);
    }

    /** One snapshot less keeps the counts. */
    twostate lemma Released(g: Generation)
      requires old(Counted()) && g in gens && gens == old(gens) && immutable == old(immutable)
               && nextGen == old(nextGen)
      requires old(g.readers) > 0 && g.readers == old(g.readers) - 1 && g.retired == old(g.retired)
      requires pinned == old(pinned) - 1 && pins == old(pins) - multiset{g.id}
      requires g.closed <==> g.retired && g.readers == 0
      requires forall h :: h in gens && h != g ==> unchanged(h)
      ensures Counted()
    {
      hide Numbered;
      NumberedPin(gens, old(pins), nextGen, g);
      assert old(Counts(g)) && old(pins)[g.id] > 0;
      forall h | h in gens ensures Counts(h)
      {
        assert old(Counts(h));
        if h != g { OtherNumber(gens, old(pins), nextGen, g, h); }
      }
    }
  }
}
