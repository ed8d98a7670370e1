/** The ids that carry one value: one id, then a small set, then from 64 ids on a bitmap. */
module Postings {
  import opened Collections
  import opened Bitmaps

  const PROMOTE: nat := 64

  datatype Posting = Posting(singleton: nat, sparse: set<nat>, dense: Option<Bitmap>, count: nat)

  const NOBODY: Posting := Posting(0, {}, None, 0)

  ghost function Members(p: Posting): set<nat>
  {
    if p.dense.Some? then Ids(p.dense.value)
    else if p.count == 0 then {}
    else if p.count == 1 then {p.singleton}
    else p.sparse
  }

  ghost predicate Kept(p: Posting)
  {
    && p.count == |Members(p)|
    && (p.dense.Some? ==> Good(p.dense.value))
    && (p.dense.None? ==> p.count < PROMOTE)
  }

  method Spread(ids: set<nat>, maxId: nat) returns (s: Bitmap)
    ensures Good(s) && Ids(s) == ids
  {
    hide Good;
    s := Empty(maxId);
    var left := ids;
    while left != {}
      invariant left <= ids && Good(s) && Ids(s) == ids - left
      decreases |left|
    {
      var id :| id in left;
      s := Bitmaps.Add(s, id);
      left := left - {id};
    }
  }

  method Include(p: Posting, id: nat) returns (r: Posting)
    requires Kept(p)
    ensures Kept(r) && Members(r) == Members(p) + {id}
  {
    if p.dense.Some? {
      var dense := Bitmaps.Add(p.dense.value, id);
      return Posting(p.singleton, p.sparse, Some(dense), p.count + dense.count - p.dense.value.count);
    }
    if p.count == 0 { return p.(singleton := id, count := 1); }
    if p.count == 1 {
      if p.singleton == id { return p; }
      return p.(sparse := {p.singleton, id}, count := 2);
    }
    if id in p.sparse { return p; }
    r := p.(sparse := p.sparse + {id}, count := p.count + 1);
    if r.count >= PROMOTE {
      var dense := Spread(r.sparse, id);
      r := Posting(r.singleton, {}, Some(dense), r.count);
    }
  }

  method Exclude(p: Posting, id: nat) returns (r: Posting)
    requires Kept(p)
    ensures Kept(r) && Members(r) == Members(p) - {id}
  {
    if p.count == 0 { return p; }
    if p.dense.Some? {
      var dense := Bitmaps.Remove(p.dense.value, id);
      return Posting(p.singleton, p.sparse, Some(dense), p.count - (p.dense.value.count - dense.count));
    }
    if p.count == 1 {
      if p.singleton == id { return p.(count := 0); }
      return p;
    }
    r := p;
    if id in r.sparse { r := r.(sparse := r.sparse - {id}, count := r.count - 1); }
    if r.count == 1 {
      var value :| value in r.sparse;
      OnlyOne(r.sparse, value);
      r := r.(singleton := value, sparse := {});
    }
  }

  lemma OnlyOne(s: set<nat>, x: nat)
    requires |s| == 1 && x in s
    ensures s == {x}
  {
    assert |s - {x}| == 0;
  }

  method ToBitmap(p: Posting, maxId: nat) returns (s: Bitmap)
    requires Kept(p)
    ensures Good(s) && Ids(s) == Members(p)
  {
    if p.count == 0 { return Empty(0); }
    if p.dense.Some? { return p.dense.value; }
    if p.count == 1 {
      s := Bitmaps.Add(Empty(maxId), p.singleton);
      return;
    }
    s := Spread(p.sparse, maxId);
  }
}

/** A small log-structured index of one numeric field: a sorted base, an unsorted delta, and the current values. */
module Numerics {
  import opened Bitmaps

  datatype Reading = Reading(value: real, id: nat)

  datatype Numeric = Numeric(base: seq<Reading>, delta: seq<Reading>, current: map<nat, real>, invalid: Bitmap,
      stale: nat)

  const DELTA_LIMIT: nat := 4096

  datatype Order = Above | AtLeast | Below | AtMost

  predicate InRange(value: real, order: Order, target: real)
  {
    match order
    case Above => value > target
    case AtLeast => value >= target
    case Below => value < target
    case AtMost => value <= target
  }

  predicate Before(a: Reading, b: Reading)
  {
    a.value < b.value || (a.value == b.value && a.id < b.id)
  }

  ghost predicate Sorted(base: seq<Reading>)
  {
    forall i, j :: 0 <= i < j < |base| ==> base[i].value <= base[j].value
  }

  /**
   * A base reading counts unless its id was deleted since the merge; every current value is found exactly where it
   * counts. Everything held beyond the current values is counted as stale.
   */
  ghost predicate Found(n: Numeric)
  {
    && |n.base| + |n.delta| == |n.current| + n.stale
    && Good(n.invalid) && Sorted(n.base)
    && (forall r :: r in n.base && r.id !in Ids(n.invalid) ==> r.id in n.current && n.current[r.id] == r.value)
    && (forall id :: id in n.current ==>
          Reading(n.current[id], id) in n.delta || (Reading(n.current[id], id) in n.base && id !in Ids(n.invalid)))
  }

  /** As it is between operations: the part without order and the stale part are below the limit. */
  ghost predicate Sound(n: Numeric)
  {
    Found(n) && |n.delta| < DELTA_LIMIT && n.stale < DELTA_LIMIT
  }

  method NewNumeric() returns (n: Numeric)
    ensures Sound(n) && n.current == map[]
  {
    n := Numeric([], [], map[], Empty(0), 0);
  }

  /** Insertion into a list ordered by value and id. */
  method Place(sorted: seq<Reading>, r: Reading) returns (result: seq<Reading>)
    requires Sorted(sorted)
    ensures Sorted(result) && |result| == |sorted| + 1 && forall x :: x in result <==> x in sorted || x == r
  {
    var i := |sorted|;
    while i > 0 && Before(r, sorted[i - 1])
      invariant 0 <= i <= |sorted| && forall k :: i <= k < |sorted| ==> r.value <= sorted[k].value
    {
      i := i - 1;
    }
    result := sorted[..i] + [r] + sorted[i..];
    PlacedSorted(sorted, i, r);
    PlacedMembers(sorted, i, r);
  }

  lemma PlacedSorted(sorted: seq<Reading>, i: nat, r: Reading)
    requires Sorted(sorted) && i <= |sorted|
    requires forall k :: i <= k < |sorted| ==> r.value <= sorted[k].value
    requires i > 0 ==> sorted[i - 1].value <= r.value
    ensures Sorted(sorted[..i] + [r] + sorted[i..])
  {
    var result := sorted[..i] + [r] + sorted[i..];
    forall a, b | 0 <= a < b < |result| ensures result[a].value <= result[b].value
    {
      var x := if a < i then a else a - 1;
      var y := if b < i then b else b - 1;
      assert a != i ==> result[a] == sorted[x];
      assert b != i ==> result[b] == sorted[y];
    }
  }

  lemma PlacedMembers(sorted: seq<Reading>, i: nat, r: Reading)
    requires i <= |sorted|
    ensures forall x :: x in sorted[..i] + [r] + sorted[i..] <==> x in sorted || x == r
  {
    assert sorted == sorted[..i] + sorted[i..];
  }

  method Collect(current: map<nat, real>) returns (base: seq<Reading>)
    ensures Sorted(base) && |base| == |current| && forall r :: r in base <==>
            r.id in current && current[r.id] == r.value
  {
    base := [];
    var left := current.Keys;
    while left != {}
      invariant left <= current.Keys && Sorted(base) && |base| == |current.Keys - left|
      invariant forall r :: r in base <==> r.id in current && r.id !in left && current[r.id] == r.value
      decreases |left|
    {
      var id :| id in left;
      base := Place(base, Reading(current[id], id));
      assert current.Keys - (left - {id}) == current.Keys - left + {id};
      left := left - {id};
    }
    assert current.Keys - {} == current.Keys;
  }

  method MergeIfNeeded(n: Numeric) returns (m: Numeric)
    requires Found(n)
    ensures Sound(m) && m.current == n.current
    ensures if |n.delta| < DELTA_LIMIT && n.stale < DELTA_LIMIT then m == n else m.delta == [] && m.stale == 0
  {
    if |n.delta| < DELTA_LIMIT && n.stale < DELTA_LIMIT { return n; }
    var base := Collect(n.current);
    m := Numeric(base, [], n.current, Empty(0), 0);
  }

  method Insert(n: Numeric, id: nat, value: real) returns (m: Numeric)
    requires Sound(n) && id !in n.current
    ensures Sound(m) && m.current == n.current[id := value]
  {
    m := n.(current := n.current[id := value], delta := n.delta + [Reading(value, id)]);
    m := MergeIfNeeded(m);
  }

  method Delete(n: Numeric, id: nat, value: real) returns (m: Numeric)
    requires Sound(n)
    ensures Sound(m) && m.current == if id in n.current && n.current[id] == value then n.current - {id} else n.current
  {
    if id !in n.current || n.current[id] != value { return n; }
    var invalid := Add(n.invalid, id);
    m := n.(current := n.current - {id}, invalid := invalid, stale := n.stale + 1);
    m := MergeIfNeeded(m);
  }

  /** Binary search for the first reading above the target, or at least the target. */
  method Search(base: seq<Reading>, target: real, strict: bool) returns (first: nat)
    requires Sorted(base)
    ensures first <= |base|
    ensures forall k :: 0 <= k < |base| ==>
            (first <= k <==> if strict then base[k].value > target else base[k].value >= target)
  {
    var i, j := 0, |base|;
    while i < j
      invariant 0 <= i <= j <= |base|
      invariant forall k :: 0 <= k < i ==> !(if strict then base[k].value > target else base[k].value >= target)
      invariant forall k :: j <= k < |base| ==> if strict then base[k].value > target else base[k].value >= target
    {
      var h := i + (j - i) / 2;
      if (strict && base[h].value > target) || (!strict && base[h].value >= target) { j := h; } else { i := h + 1; }
    }
    first := i;
  }

  method Bounds(base: seq<Reading>, order: Order, target: real) returns (start: nat, end: nat)
    requires Sorted(base)
    ensures start <= end <= |base|
    ensures forall k :: 0 <= k < |base| ==> (start <= k < end <==> InRange(base[k].value, order, target))
  {
    start, end := 0, |base|;
    match order
    case Above => start := Search(base, target, true);
    case AtLeast => start := Search(base, target, false);
    case Below => end := Search(base, target, false);
    case AtMost => end := Search(base, target, true);
  }

  /** Exactly the ids whose current value lies in the range. */
  method Range(n: Numeric, order: Order, target: real, maxId: nat) returns (s: Bitmap)
    requires Sound(n)
    ensures Good(s) && Ids(s) == set id | id in n.current && InRange(n.current[id], order, target)
  {
    hide Good, Ids;
    var start, end := Bounds(n.base, order, target);
    s := Empty(maxId);
    for k := start to end
      invariant Good(s) && forall id :: id in Ids(s) <==>
                exists i :: start <= i < k && n.base[i].id == id && id !in Ids(n.invalid)
    {
      assert Contains(n.invalid, n.base[k].id) <==> n.base[k].id in Ids(n.invalid);
      if !Contains(n.invalid, n.base[k].id) { s := Add(s, n.base[k].id); }
    }
    ghost var fromBase := Ids(s);
    for k := 0 to |n.delta|
      invariant Good(s) && fromBase <= Ids(s)
      invariant forall id :: id in Ids(s) <==>
                id in fromBase || exists i :: 0 <= i < k && n.delta[i].id == id && Fresh(n, n.delta[i], order, target)
    {
      var r := n.delta[k];
      if r.id in n.current && n.current[r.id] == r.value && InRange(r.value, order, target) { s := Add(s, r.id); }
    }
    RangeExact(n, order, target, start, end, fromBase, Ids(s));
  }

  ghost predicate Fresh(n: Numeric, r: Reading, order: Order, target: real)
  {
    r.id in n.current && n.current[r.id] == r.value && InRange(r.value, order, target)
  }

  lemma RangeExact(n: Numeric, order: Order, target: real, start: nat, end: nat, fromBase: set<nat>, ids: set<nat>)
    requires Sound(n) && start <= end <= |n.base|
    requires forall k :: 0 <= k < |n.base| ==> (start <= k < end <==> InRange(n.base[k].value, order, target))
    requires forall id :: id in fromBase <==>
             exists i :: start <= i < end && n.base[i].id == id && id !in Ids(n.invalid)
    requires forall id :: id in ids <==>
             id in fromBase || exists i ::
                 0 <= i < |n.delta| && n.delta[i].id == id && Fresh(n, n.delta[i], order, target)
    ensures ids == set id | id in n.current && InRange(n.current[id], order, target)
  {
    hide Good, Ids;
    forall id | id in ids ensures id in n.current && InRange(n.current[id], order, target)
    {
      if id in fromBase {
        var i :| start <= i < end && n.base[i].id == id && id !in Ids(n.invalid);
        assert n.base[i] in n.base;
      }
    }
    forall id | id in n.current && InRange(n.current[id], order, target) ensures id in ids
    {
      var r := Reading(n.current[id], id);
      if r in n.delta {
        var i :| 0 <= i < |n.delta| && n.delta[i] == r;
        assert Fresh(n, n.delta[i], order, target);
      } else {
        var i :| 0 <= i < |n.base| && n.base[i] == r;
        assert start <= i < end;
      }
    }
  }
}
