/**
 * The filter file: per field, the values, the postings and the numbers, written in order and checked when read back.
 */
module FilterFile {
  import opened Strings
  import opened Collections
  import opened Bitmaps
  import opened Postings
  import N = Numerics
  import opened Filters
  import opened Columns
  import opened FilterIndex

  datatype StoredValue = StoredValue(id: nat, value: Value)
  datatype StoredPosting = StoredPosting(key: string, ids: seq<nat>)
  datatype StoredField = StoredField(name: string, values: seq<StoredValue>, postings: seq<StoredPosting>,
      numbers: seq<N.Reading>)
  datatype Snapshot = Snapshot(version: nat, recordCount: nat, fields: seq<StoredField>)

  /* ---------- what a readable file satisfies ---------- */

  lemma DistinctPush<T>(s: seq<T>, x: T)
    requires Distinct(s)
    ensures Distinct(s + [x]) <==> x !in s
    ensures Elements(s + [x]) == Elements(s) + {x}
  {
    if x in s {
      var i :| 0 <= i < |s| && s[i] == x;
      assert (s + [x])[i] == (s + [x])[|s|];
    }
  }

  lemma SameSize(a: set<nat>, b: set<nat>)
    requires a <= b && |a| == |b|
    ensures a == b
  {
    if !(b <= a) {
      var x :| x in b && x !in a;
      SubsetSize(a, b - {x});
    }
  }

  function IdsIn(items: seq<StoredValue>): seq<nat>
  {
    seq(|items|, i requires 0 <= i < |items| => items[i].id)
  }

  function ValueMap(items: seq<StoredValue>): map<nat, Value>
  {
    if items == [] then map[] else ValueMap(items[..|items| - 1])[items[|items| - 1].id := items[|items| - 1].value]
  }

  predicate GoodItem(item: StoredValue, recordCount: nat)
  {
    0 < item.id <= recordCount && !item.value.Composite?
  }

  ghost predicate ValuesValid(items: seq<StoredValue>, recordCount: nat)
  {
    (forall i :: 0 <= i < |items| ==> GoodItem(items[i], recordCount)) && Distinct(IdsIn(items))
  }

  function Flat(items: seq<StoredPosting>): seq<nat>
  {
    if items == [] then [] else Flat(items[..|items| - 1]) + items[|items| - 1].ids
  }

  function KeysIn(items: seq<StoredPosting>): seq<string>
  {
    seq(|items|, i requires 0 <= i < |items| => items[i].key)
  }

  predicate Carried(values: map<nat, Value>, id: nat, key: string)
  {
    id in values && Canonical(values[id]) == key
  }

  ghost predicate PostingValid(values: map<nat, Value>, p: StoredPosting)
  {
    p.key != "" && forall i :: 0 <= i < |p.ids| ==> Carried(values, p.ids[i], p.key)
  }

  ghost predicate PostingsValid(items: seq<StoredPosting>, values: map<nat, Value>)
  {
    && (forall i :: 0 <= i < |items| ==> PostingValid(values, items[i]))
    && Distinct(KeysIn(items)) && Distinct(Flat(items)) && |Flat(items)| == |values|
  }

  function NumberIds(items: seq<N.Reading>): seq<nat>
  {
    seq(|items|, i requires 0 <= i < |items| => items[i].id)
  }

  predicate GoodNumber(values: map<nat, Value>, r: N.Reading)
  {
    r.id in values && values[r.id].Number? && values[r.id].amount == r.value
  }

  ghost predicate NumbersValid(items: seq<N.Reading>, values: map<nat, Value>)
  {
    && (forall i :: 0 <= i < |items| ==> GoodNumber(values, items[i]))
    && Distinct(NumberIds(items)) && |items| == |Amounts(values)|
  }

  /** Everything the loader checks of a field but its name. */
  ghost predicate BodyValid(f: StoredField, recordCount: nat)
  {
    && ValuesValid(f.values, recordCount)
    && PostingsValid(f.postings, ValueMap(f.values)) && NumbersValid(f.numbers, ValueMap(f.values))
  }

  ghost predicate FieldValid(f: StoredField, recordCount: nat)
  {
    f.name != "" && BodyValid(f, recordCount)
  }

  /* ---------- reading ---------- */

  lemma {:induction false} ValueMapKeys(items: seq<StoredValue>)
    ensures ValueMap(items).Keys == Elements(IdsIn(items))
    decreases |items|
  {
    if items != [] {
      var n := |items| - 1;
      ValueMapKeys(items[..n]);
      assert IdsIn(items) == IdsIn(items[..n]) + [items[n].id];
    }
  }

  method LoadValues(items: seq<StoredValue>, recordCount: nat)
      returns (ok: bool, values: map<nat, Value>, present: Bitmap)
    ensures Good(present) && (ok <==> ValuesValid(items, recordCount))
    ensures ok ==> values == ValueMap(items) && Ids(present) == values.Keys
  {
    hide Good, Ids;
    values, present := map[], Empty(recordCount);
    for i := 0 to |items|
      invariant Good(present) && ValuesValid(items[..i], recordCount) && values == ValueMap(items[..i])
                && Ids(present) == values.Keys
    {
      var item := items[i];
      assert items[..i + 1] == items[..i] + [item] && items[..i + 1][..i] == items[..i];
      assert IdsIn(items[..i + 1]) == IdsIn(items[..i]) + [item.id];
      ValueMapKeys(items[..i]);
      DistinctPush(IdsIn(items[..i]), item.id);
      if !GoodItem(item, recordCount) { return false, values, present; }
      if item.id in values {
        Shorter(IdsIn(items), IdsIn(items[..i + 1]));
        return false, values, present;
      }
      values := values[item.id := item.value];
      present := Bitmaps.Add(present, item.id);
    }
    assert items[..|items|] == items;
    ok := true;
  }

  lemma Shorter<T>(s: seq<T>, t: seq<T>)
    requires t <= s && !Distinct(t)
    ensures !Distinct(s)
  {
    var i, j :| 0 <= i < j < |t| && t[i] == t[j];
    assert s[i] == s[j];
  }

  /** One stored posting, its ids checked against the values and against those already covered. */
  method LoadPosting(stored: StoredPosting, values: map<nat, Value>, covered0: set<nat>, ghost flat0: seq<nat>)
    returns (ok: bool, p: Posting, covered: set<nat>)
    requires Distinct(flat0) && covered0 == Elements(flat0)
    ensures ok <==>
            (forall i :: 0 <= i < |stored.ids| ==> Carried(values, stored.ids[i], stored.key))
                && Distinct(flat0 + stored.ids)
    ensures ok ==> covered == Elements(flat0 + stored.ids) && Kept(p) && Members(p) == Elements(stored.ids)
  {
    hide Kept, Members, Elements, Carried;
    p, covered := NOBODY, covered0;
    NobodyKept();
    assert flat0 + stored.ids[..0] == flat0;
    NoElements<nat>();
    for i := 0 to |stored.ids|
      invariant forall k :: 0 <= k < i ==> Carried(values, stored.ids[k], stored.key)
      invariant Distinct(flat0 + stored.ids[..i]) && covered == Elements(flat0 + stored.ids[..i])
      invariant Kept(p) && Members(p) == Elements(stored.ids[..i])
    {
      hide Distinct;
      var id := stored.ids[i];
      PushBoth(flat0, stored.ids, i);
      if !Carried(values, id, stored.key) { return false, p, covered; }
      if id in covered {
        Shorter(flat0 + stored.ids, flat0 + stored.ids[..i + 1]);
        return false, p, covered;
      }
      covered := covered + {id};
      p := Include(p, id);
    }
    assert stored.ids[..|stored.ids|] == stored.ids;
    ok := true;
  }

  lemma NoElements<T>()
    ensures Elements<T>([]) == {}
  {
  }

  lemma PushBoth(flat0: seq<nat>, ids: seq<nat>, i: nat)
    requires i < |ids| && Distinct(flat0 + ids[..i])
    ensures Distinct(flat0 + ids[..i + 1]) <==> ids[i] !in Elements(flat0 + ids[..i])
    ensures Elements(flat0 + ids[..i + 1]) == Elements(flat0 + ids[..i]) + {ids[i]}
    ensures Elements(ids[..i + 1]) == Elements(ids[..i]) + {ids[i]}
    ensures flat0 + ids[..i + 1] <= flat0 + ids
  {
    assert flat0 + ids[..i + 1] == flat0 + ids[..i] + [ids[i]];
    DistinctPush(flat0 + ids[..i], ids[i]);
    assert ids[..i + 1] == ids[..i] + [ids[i]];
  }

  /** The postings read so far are the stored ones, under their keys. */
  ghost predicate Gathered(postings: map<string, Posting>, items: seq<StoredPosting>)
  {
    && postings.Keys == Elements(KeysIn(items))
    && forall i :: 0 <= i < |items| ==>
       items[i].key in postings && Kept(postings[items[i].key])
           && Members(postings[items[i].key]) == Elements(items[i].ids)
  }

  lemma GatheredPush(postings: map<string, Posting>, items: seq<StoredPosting>, i: nat, p: Posting)
    requires i < |items| && Gathered(postings, items[..i]) && items[i].key !in postings && Kept(p)
             && Members(p) == Elements(items[i].ids)
    ensures Gathered(postings[items[i].key := p], items[..i + 1])
  {
    hide Kept, Members;
    assert items[..i + 1] == items[..i] + [items[i]];
    assert KeysIn(items[..i + 1]) == KeysIn(items[..i]) + [items[i].key];
    forall k | 0 <= k < i ensures items[k].key != items[i].key
    {
      assert KeysIn(items[..i])[k] == items[k].key;
    }
  }

  lemma KeysPush(items: seq<StoredPosting>, i: nat)
    requires i < |items|
    ensures KeysIn(items[..i + 1]) == KeysIn(items[..i]) + [items[i].key] && KeysIn(items[..i + 1]) <= KeysIn(items)
    ensures Flat(items[..i + 1]) == Flat(items[..i]) + items[i].ids
  {
    assert items[..i + 1][..i] == items[..i];
  }

  lemma {:induction false} FlatPrefix(items: seq<StoredPosting>, i: nat)
    requires i <= |items|
    ensures Flat(items[..i]) <= Flat(items)
    decreases |items|
  {
    if i == |items| {
      assert items[..i] == items;
    } else {
      var n := |items| - 1;
      FlatPrefix(items[..n], i);
      assert items[..n][..i] == items[..i];
    }
  }

  ghost predicate PrefixValid(items: seq<StoredPosting>, values: map<nat, Value>)
  {
    (forall i :: 0 <= i < |items| ==> PostingValid(values, items[i])) && Distinct(KeysIn(items))
        && Distinct(Flat(items))
  }

  lemma PrefixStep(items: seq<StoredPosting>, values: map<nat, Value>, i: nat)
    requires i < |items| && PrefixValid(items[..i], values)
    ensures PrefixValid(items[..i + 1], values) <==>
            PostingValid(values, items[i]) && items[i].key !in KeysIn(items[..i])
                && Distinct(Flat(items[..i]) + items[i].ids)
    ensures !PrefixValid(items[..i + 1], values) ==> !PrefixValid(items, values)
  {
    hide PostingValid, Flat;
    KeysPush(items, i);
    FlatPrefix(items, i + 1);
    DistinctPush(KeysIn(items[..i]), items[i].key);
    assert items[..i + 1] == items[..i] + [items[i]];
    if PrefixValid(items, values) {
      if !Distinct(KeysIn(items[..i + 1])) { Shorter(KeysIn(items), KeysIn(items[..i + 1])); }
      if !Distinct(Flat(items[..i + 1])) { Shorter(Flat(items), Flat(items[..i + 1])); }
    }
  }

  method LoadPostings(items: seq<StoredPosting>, values: map<nat, Value>)
      returns (ok: bool, postings: map<string, Posting>)
    ensures ok <==> PostingsValid(items, values)
    ensures ok ==> Gathered(postings, items)
  {
    hide Kept, Members, Elements, Carried, Distinct, Gathered, PrefixValid;
    postings := map[];
    var covered: set<nat> := {};
    GatheredNothing(items, values);
    for i := 0 to |items|
      invariant PrefixValid(items[..i], values) && Gathered(postings, items[..i])
                && covered == Elements(Flat(items[..i]))
    {
      var stored := items[i];
      PrefixStep(items, values, i);
      PrefixMeans(items, values);
      GatheredKeys(postings, items[..i]);
      if stored.key == "" || stored.key in postings { return false, postings; }
      PrefixFlat(items[..i], values);
      var fine, p;
      fine, p, covered := LoadPosting(stored, values, covered, Flat(items[..i]));
      if !fine { return false, postings; }
      GatheredPush(postings, items, i, p);
      KeysPush(items, i);
      postings := postings[stored.key := p];
    }
    assert items[..|items|] == items;
    PrefixMeans(items, values);
    PrefixFlat(items, values);
    DistinctSize(Flat(items));
    ok := |covered| == |values|;
  }

  lemma GatheredNothing(items: seq<StoredPosting>, values: map<nat, Value>)
    ensures Gathered(map[], items[..0]) && PrefixValid(items[..0], values) && Elements(Flat(items[..0])) == {}
  {
  }

  lemma GatheredKeys(postings: map<string, Posting>, items: seq<StoredPosting>)
    requires Gathered(postings, items)
    ensures forall key :: key in postings <==> key in KeysIn(items)
  {
    hide Kept, Members;
  }

  lemma PrefixMeans(items: seq<StoredPosting>, values: map<nat, Value>)
    ensures PostingsValid(items, values) <==> PrefixValid(items, values) && |Flat(items)| == |values|
  {
    hide Distinct, PostingValid;
  }

  lemma PrefixFlat(items: seq<StoredPosting>, values: map<nat, Value>)
    requires PrefixValid(items, values)
    ensures Distinct(Flat(items))
  {
    hide Distinct, PostingValid;
  }

  lemma {:induction false} FlatMembers(items: seq<StoredPosting>, id: nat)
    ensures id in Flat(items) <==> exists i :: 0 <= i < |items| && id in items[i].ids
    decreases |items|
  {
    if items != [] {
      FlatMembers(items[..|items| - 1], id);
    }
  }

  /** Checked postings are the postings of the values. */
  lemma GatheredOk(items: seq<StoredPosting>, values: map<nat, Value>, c: Column)
    requires PostingsValid(items, values) && Gathered(c.postings, items) && c.values == values
    ensures PostingsOk(c)
  {
    hide Kept, Members;
    DistinctSize(Flat(items));
    FlatCovers(items, values);
    forall key | key in c.postings
        ensures key != "" && Kept(c.postings[key]) && Members(c.postings[key]) == Carriers(values, key)
    {
      var i :| 0 <= i < |items| && items[i].key == key;
      assert PostingValid(values, items[i]);
      OnePosting(items, values, i);
    }
    forall id | id in values ensures Canonical(values[id]) in c.postings
    {
      FlatMembers(items, id);
      var i :| 0 <= i < |items| && id in items[i].ids;
      assert PostingValid(values, items[i]);
      assert items[i].key in c.postings;
    }
  }

  lemma FlatCovers(items: seq<StoredPosting>, values: map<nat, Value>)
    requires PostingsValid(items, values)
    ensures Elements(Flat(items)) == values.Keys
  {
    forall id | id in Flat(items) ensures id in values
    {
      FlatMembers(items, id);
      var i :| 0 <= i < |items| && id in items[i].ids;
      assert PostingValid(values, items[i]);
    }
    DistinctSize(Flat(items));
    SameSize(Elements(Flat(items)), values.Keys);
  }

  lemma OneKey(items: seq<StoredPosting>, i: nat, j: nat)
    requires Distinct(KeysIn(items)) && i < |items| && j < |items| && items[i].key == items[j].key
    ensures i == j
  {
    assert KeysIn(items)[i] == KeysIn(items)[j];
  }

  lemma OnePosting(items: seq<StoredPosting>, values: map<nat, Value>, i: nat)
    requires PostingsValid(items, values) && i < |items| && Elements(Flat(items)) == values.Keys
    ensures Elements(items[i].ids) == Carriers(values, items[i].key)
  {
    hide Distinct, Flat;
    assert PostingValid(values, items[i]);
    forall id | id in Carriers(values, items[i].key) ensures id in items[i].ids
    {
      assert id in Elements(Flat(items));
      FlatMembers(items, id);
      var j :| 0 <= j < |items| && id in items[j].ids;
      assert PostingValid(values, items[j]);
      OneKey(items, i, j);
    }
  }

  method LoadNumbers(items: seq<N.Reading>, values: map<nat, Value>) returns (ok: bool, current: map<nat, real>)
    ensures ok <==> NumbersValid(items, values)
    ensures ok ==> current == Amounts(values)
  {
    hide Amounts;
    current := map[];
    for i := 0 to |items|
      invariant forall k :: 0 <= k < i ==> GoodNumber(values, items[k])
      invariant Distinct(NumberIds(items[..i])) && current.Keys == Elements(NumberIds(items[..i]))
      invariant forall id :: id in current ==> id in values && values[id].Number? && current[id] == values[id].amount
    {
      assert NumberIds(items[..i + 1]) == NumberIds(items[..i]) + [items[i].id];
      DistinctPush(NumberIds(items[..i]), items[i].id);
      if !GoodNumber(values, items[i]) { return false, current; }
      if items[i].id in current {
        assert NumberIds(items[..i + 1]) <= NumberIds(items);
        Shorter(NumberIds(items), NumberIds(items[..i + 1]));
        return false, current;
      }
      current := current[items[i].id := items[i].value];
    }
    assert items[..|items|] == items;
    var numeric := CountNumbers(values);
    ok := numeric == |items|;
    DistinctSize(NumberIds(items));
    if ok { AmountsCovered(values, current); }
  }

  lemma AmountsCovered(values: map<nat, Value>, current: map<nat, real>)
    requires forall id :: id in current ==> id in values && values[id].Number? && current[id] == values[id].amount
    requires |current.Keys| == |Amounts(values)|
    ensures current == Amounts(values)
  {
    SameSize(current.Keys, Amounts(values).Keys);
  }

  method CountNumbers(values: map<nat, Value>) returns (count: nat)
    ensures count == |Amounts(values)|
  {
    count := 0;
    var left := values.Keys;
    ghost var seen: set<nat> := {};
    while left != {}
      invariant left <= values.Keys && count == |seen| && seen == set id | id in values && id !in left
                && values[id].Number?
      decreases |left|
    {
      var id :| id in left;
      if values[id].Number? {
        count := count + 1;
        seen := seen + {id};
      }
      left := left - {id};
    }
    assert seen == Amounts(values).Keys;
  }

  method LoadField(f: StoredField, recordCount: nat) returns (r: Option<Column>)
    ensures r.Some? <==> FieldValid(f, recordCount)
    ensures r.Some? ==> r.value.values == ValueMap(f.values) && (N.Sorted(f.numbers) ==> ColumnOk(r.value))
  {
    hide ValuesValid, PostingsValid, NumbersValid, Good, Ids, Amounts, ValueMap;
    if f.name == "" { return None; }
    var ok, values, present := LoadValues(f.values, recordCount);
    if !ok { return None; }
    var postings, current;
    ok, postings := LoadPostings(f.postings, values);
    if !ok { return None; }
    ok, current := LoadNumbers(f.numbers, values);
    if !ok { return None; }
    var numeric := if |f.numbers| > 0 then Some(N.Numeric(f.numbers, [], current, Empty(recordCount), 0)) else None;
    r := Some(Column(values, postings, present, numeric));
    GatheredOk(f.postings, values, r.value);
    if N.Sorted(f.numbers) { NumericsOk(f.numbers, values, current, recordCount, r.value); }
  }

  lemma NumericsOk(items: seq<N.Reading>, values: map<nat, Value>, current: map<nat, real>, recordCount: nat, c: Column)
    requires NumbersValid(items, values) && N.Sorted(items) && current == Amounts(values) && c.values == values
    requires c.numeric == if |items| > 0 then Some(N.Numeric(items, [], current, Empty(recordCount), 0)) else None
    ensures NumericOk(c)
  {
    DistinctSize(NumberIds(items));
    SameNumbers(items, values);
    if |items| > 0 {
      forall id | id in current ensures N.Reading(current[id], id) in items
      {
        assert id in Elements(NumberIds(items));
        var i :| 0 <= i < |items| && NumberIds(items)[i] == id;
        assert GoodNumber(values, items[i]);
        assert items[i] == N.Reading(current[id], id);
      }
      forall r | r in items ensures r.id in current && current[r.id] == r.value
      {
        var i :| 0 <= i < |items| && items[i] == r;
        assert GoodNumber(values, items[i]);
      }
    } else {
      assert |Amounts(values)| == 0;
    }
  }

  lemma SameNumbers(items: seq<N.Reading>, values: map<nat, Value>)
    requires NumbersValid(items, values)
    ensures Elements(NumberIds(items)) == Amounts(values).Keys
  {
    DistinctSize(NumberIds(items));
    forall id | id in NumberIds(items) ensures id in Amounts(values)
    {
      var i :| 0 <= i < |items| && NumberIds(items)[i] == id;
      assert GoodNumber(values, items[i]);
    }
    SameSize(Elements(NumberIds(items)), Amounts(values).Keys);
  }

  /* ---------- writing ---------- */

  lemma AscendingDistinct(ids: seq<nat>)
    requires Ascending(ids)
    ensures Distinct(ids)
  {
  }

  lemma ElementsPush<T>(s: seq<T>, x: T)
    ensures Elements(s + [x]) == Elements(s) + {x}
  {
  }

  lemma AscendingPush(ids: seq<nat>, x: nat)
    requires Ascending(ids) && forall y: nat :: y in Elements(ids) ==> y < x
    ensures Ascending(ids + [x])
  {
    forall i | 0 <= i < |ids| ensures ids[i] < x { assert ids[i] in Elements(ids); }
  }

  /** Smallest first. */
  method SortIds(ids: set<nat>) returns (list: seq<nat>)
    ensures Ascending(list) && Elements(list) == ids
  {
    hide Elements, Ascending;
    list := [];
    var left := ids;
    NothingSorted();
    while left != {}
      invariant left <= ids && Ascending(list) && Elements(list) == ids - left
      invariant forall x: nat, y: nat :: x in ids - left && y in left ==> x < y
      decreases |left|
    {
      var low := TrailingZeros(left);
      ElementsPush(list, low);
      AscendingPush(list, low);
      list := list + [low];
      left := left - {low};
    }
  }

  lemma NothingSorted()
    ensures Ascending([]) && Elements<nat>([]) == {}
  {
  }

  predicate NamesAscend(names: seq<string>)
  {
    forall i, j :: 0 <= i < j < |names| ==> Less(names[i], names[j])
  }

  method PlaceName(sorted: seq<string>, name: string) returns (result: seq<string>)
    requires NamesAscend(sorted) && name !in sorted
    ensures NamesAscend(result) && Elements(result) == Elements(sorted) + {name}
  {
    var i := |sorted|;
    while i > 0 && Less(name, sorted[i - 1])
      invariant 0 <= i <= |sorted| && forall k :: i <= k < |sorted| ==> Less(name, sorted[k])
    {
      i := i - 1;
    }
    result := sorted[..i] + [name] + sorted[i..];
    assert sorted == sorted[..i] + sorted[i..];
    forall k | 0 <= k < i ensures Less(sorted[k], name)
    {
      assert sorted[i - 1] in sorted;
      LessTotal(sorted[i - 1], name);
      if k < i - 1 { LessTransitive(sorted[k], sorted[i - 1], name); }
    }
  }

  method SortNames(names: set<string>) returns (list: seq<string>)
    ensures NamesAscend(list) && Distinct(list) && Elements(list) == names
  {
    list := [];
    var left := names;
    while left != {}
      invariant left <= names && NamesAscend(list) && Elements(list) == names - left
      decreases |left|
    {
      var name :| name in left;
      list := PlaceName(list, name);
      left := left - {name};
    }
    forall i, j | 0 <= i < j < |list| ensures list[i] != list[j]
    {
      if list[i] == list[j] { LessIrreflexive(list[i]); }
    }
  }

  method StoreValues(values: map<nat, Value>, recordCount: nat) returns (items: seq<StoredValue>)
    requires forall id :: id in values ==> 0 < id <= recordCount && !values[id].Composite?
    ensures ValuesValid(items, recordCount) && ValueMap(items) == values
  {
    hide Elements, Ascending, Distinct;
    var ids := SortIds(values.Keys);
    items := [];
    for i := 0 to |ids|
      invariant IdsIn(items) == ids[..i]
      invariant forall k :: 0 <= k < i ==> items[k].id in values && items[k].value == values[items[k].id]
    {
      ghost var before := items;
      ElementAt(ids, i);
      items := items + [StoredValue(ids[i], values[ids[i]])];
      assert ids[..i + 1] == ids[..i] + [ids[i]];
      assert IdsIn(items) == IdsIn(before) + [ids[i]];
    }
    assert ids[..|ids|] == ids;
    AscendingDistinct(ids);
    ValueMapOf(items, values);
  }

  lemma ElementAt<T>(s: seq<T>, i: nat)
    requires i < |s|
    ensures s[i] in Elements(s)
  {
  }

  lemma ValueMapOf(items: seq<StoredValue>, values: map<nat, Value>)
    requires Elements(IdsIn(items)) == values.Keys
    requires forall k :: 0 <= k < |items| ==> items[k].id in values && items[k].value == values[items[k].id]
    ensures ValueMap(items) == values
  {
    ValueMapKeys(items);
    ValueMapValues(items, values);
  }

  lemma {:induction false} ValueMapValues(items: seq<StoredValue>, values: map<nat, Value>)
    requires forall k :: 0 <= k < |items| ==> items[k].id in values && items[k].value == values[items[k].id]
    ensures forall id :: id in ValueMap(items) ==> id in values && ValueMap(items)[id] == values[id]
    decreases |items|
  {
    if items != [] { ValueMapValues(items[..|items| - 1], values); }
  }

  /** The stored postings so far: the ids of each key, in order. */
  ghost predicate Listed(items: seq<StoredPosting>, keys: seq<string>, values: map<nat, Value>)
  {
    && |items| == |keys|
    && forall i :: 0 <= i < |items| ==>
         items[i].key == keys[i] && keys[i] != "" && Ascending(items[i].ids)
             && Elements(items[i].ids) == Carriers(values, keys[i])
  }

  method StorePostings(c: Column, recordCount: nat) returns (items: seq<StoredPosting>)
    requires PostingsOk(c)
    ensures PostingsValid(items, c.values)
  {
    hide Good, Ids, Kept, Members, Elements, Carriers, PostingsValid;
    var keys := SortNames(c.postings.Keys);
    KeysHeld(keys, c);
    items := [];
    for i := 0 to |keys|
      invariant Listed(items, keys[..i], c.values)
    {
      var key := keys[i];
      var s := ToBitmap(c.postings[key], recordCount);
      var ids := ListIds(s);
      SameElements(ids, Ids(s));
      items := items + [StoredPosting(key, ids)];
    }
    assert keys[..|keys|] == keys;
    ListedValid(items, keys, c);
  }

  lemma SameElements(ids: seq<nat>, s: set<nat>)
    requires forall id: nat :: id in ids <==> id in s
    ensures Elements(ids) == s
  {
  }

  lemma KeysHeld(keys: seq<string>, c: Column)
    requires Elements(keys) == c.postings.Keys
    ensures forall i :: 0 <= i < |keys| ==> keys[i] in c.postings
  {
    forall i | 0 <= i < |keys| ensures keys[i] in c.postings { assert keys[i] in Elements(keys); }
  }

  lemma ListedValid(items: seq<StoredPosting>, keys: seq<string>, c: Column)
    requires Listed(items, keys, c.values) && Distinct(keys) && Elements(keys) == c.postings.Keys && PostingsOk(c)
    ensures PostingsValid(items, c.values)
  {
    hide Kept, Members, Flat;
    assert KeysIn(items) == keys;
    forall i | 0 <= i < |items| ensures PostingValid(c.values, items[i])
    {
      forall k | 0 <= k < |items[i].ids| ensures Carried(c.values, items[i].ids[k], items[i].key)
      {
        assert items[i].ids[k] in Elements(items[i].ids);
      }
    }
    FlatDistinct(items, keys, c.values);
    forall id | id in c.values ensures id in Elements(Flat(items))
    {
      assert Canonical(c.values[id]) in Elements(keys);
      var i :| 0 <= i < |keys| && keys[i] == Canonical(c.values[id]);
      assert id in Elements(items[i].ids);
      FlatMembers(items, id);
    }
    forall id | id in Elements(Flat(items)) ensures id in c.values
    {
      FlatMembers(items, id);
      var i :| 0 <= i < |items| && id in items[i].ids;
      assert id in Elements(items[i].ids);
    }
    assert Elements(Flat(items)) == c.values.Keys;
    DistinctSize(Flat(items));
  }

  lemma {:induction false} FlatDistinct(items: seq<StoredPosting>, keys: seq<string>, values: map<nat, Value>)
    requires Listed(items, keys, values) && Distinct(keys)
    ensures Distinct(Flat(items))
    decreases |items|
  {
    if items != [] {
      var n := |items| - 1;
      FlatDistinct(items[..n], keys[..n], values);
      AscendingDistinct(items[n].ids);
      forall x | x in Flat(items[..n]) ensures x !in items[n].ids
      {
        FlatMembers(items[..n], x);
        var i :| 0 <= i < n && x in items[..n][i].ids;
        Apart(items, keys, values, i, n, x);
      }
      ConcatDistinct(Flat(items[..n]), items[n].ids);
    }
  }

  lemma Apart(items: seq<StoredPosting>, keys: seq<string>, values: map<nat, Value>, i: nat, n: nat, x: nat)
    requires Listed(items, keys, values) && Distinct(keys) && i < n < |items| && x in items[i].ids
    ensures x !in items[n].ids
  {
    InElements(items[i].ids, x);
    InElements(items[n].ids, x);
  }

  lemma InElements(ids: seq<nat>, x: nat)
    ensures x in ids <==> x in Elements(ids)
  {
  }

  lemma ConcatDistinct(a: seq<nat>, b: seq<nat>)
    requires Distinct(a) && Distinct(b) && forall x :: x in a ==> x !in b
    ensures Distinct(a + b)
  {
    forall i, j | 0 <= i < j < |a + b| ensures (a + b)[i] != (a + b)[j]
    {
      if i < |a| <= j { assert a[i] in a && b[j - |a|] in b; }
    }
  }

  lemma {:induction false} SizeDistinct<T>(s: seq<T>)
    requires |Elements(s)| == |s|
    ensures Distinct(s)
    decreases |s|
  {
    if s != [] {
      var n := |s| - 1;
      assert s == s[..n] + [s[n]];
      assert Elements(s) == Elements(s[..n]) + {s[n]};
      ElementsBound(s[..n]);
      SizeDistinct(s[..n]);
      DistinctPush(s[..n], s[n]);
    }
  }

  lemma {:induction false} ElementsBound<T>(s: seq<T>)
    ensures |Elements(s)| <= |s|
    decreases |s|
  {
    if s != [] {
      var n := |s| - 1;
      ElementsBound(s[..n]);
      assert s == s[..n] + [s[n]];
      assert Elements(s) == Elements(s[..n]) + {s[n]};
    } else {
      assert Elements(s) == {};
    }
  }

  method StoreNumbers(c: Column) returns (items: seq<N.Reading>)
    requires NumericOk(c)
    ensures NumbersValid(items, c.values) && N.Sorted(items)
  {
    hide N.Sound;
    items := [];
    if c.numeric.Some? {
      items := N.Collect(c.numeric.value.current);
    } else {
      assert |Amounts(c.values)| == 0;
    }
    CollectedValid(items, c.values);
  }

  lemma CollectedValid(items: seq<N.Reading>, values: map<nat, Value>)
    requires |items| == |Amounts(values)| && forall r :: r in items <==>
             r.id in Amounts(values) && Amounts(values)[r.id] == r.value
    ensures NumbersValid(items, values)
  {
    forall i | 0 <= i < |items| ensures GoodNumber(values, items[i]) { assert items[i] in items; }
    forall id | id in Amounts(values) ensures id in NumberIds(items)
    {
      var r := N.Reading(Amounts(values)[id], id);
      assert r in items;
      var i :| 0 <= i < |items| && items[i] == r;
      assert NumberIds(items)[i] == id;
    }
    assert Elements(NumberIds(items)) == Amounts(values).Keys;
    SizeDistinct(NumberIds(items));
  }

  method StoreField(name: string, c: Column, recordCount: nat) returns (f: StoredField)
    requires ColumnOk(c) && forall id :: id in c.values ==> 0 < id <= recordCount && !c.values[id].Composite?
    ensures f.name == name && BodyValid(f, recordCount) && ValueMap(f.values) == c.values && N.Sorted(f.numbers)
  {
    hide PostingsOk, NumericOk, ValuesValid, PostingsValid, NumbersValid, ValueMap, Good, Ids, N.Sorted;
    var values := StoreValues(c.values, recordCount);
    var postings := StorePostings(c, recordCount);
    var numbers := StoreNumbers(c);
    f := StoredField(name, values, postings, numbers);
  }

  /* ---------- the whole file ---------- */

  /** Records are numbered from one, in the order of the segment. */
  ghost function Numbered(records: seq<Metadata>): Docs
  {
    map id: nat | id <= |records| && Ordinal(id, |records|) :: records[id - 1]
  }

  predicate Ordinal(id: nat, n: nat)
  {
    0 < id <= n
  }

  ghost function Ordinals(n: nat): set<nat>
  {
    set id: nat | id <= n && Ordinal(id, n)
  }

  function Names(fields: seq<StoredField>): seq<string>
  {
    seq(|fields|, i requires 0 <= i < |fields| => fields[i].name)
  }

  ghost predicate SnapshotValid(s: Snapshot, recordCount: nat)
  {
    && s.version == 1 && s.recordCount == recordCount && Distinct(Names(s.fields))
    && forall i :: 0 <= i < |s.fields| ==> FieldValid(s.fields[i], recordCount)
  }

  /** The file holds the indexed values of these records, field by field. */
  ghost predicate Tells(f: StoredField, docs: Docs)
  {
    ValueMap(f.values) == Shown(docs, f.name) && N.Sorted(f.numbers)
  }

  /** A file as the writer makes it: every field is well formed but for its name, which may be empty. */
  ghost predicate WellFormed(s: Snapshot, recordCount: nat)
  {
    && s.version == 1 && s.recordCount == recordCount && Distinct(Names(s.fields))
    && forall i :: 0 <= i < |s.fields| ==> BodyValid(s.fields[i], recordCount)
  }

  /** Such a file is refused exactly because of a field without a name. */
  lemma RefusedForName(s: Snapshot, recordCount: nat)
    requires WellFormed(s, recordCount)
    ensures SnapshotValid(s, recordCount) <==> "" !in Names(s.fields)
  {
    hide BodyValid, Distinct;
    if SnapshotValid(s, recordCount) {
      forall i | 0 <= i < |s.fields| ensures Names(s.fields)[i] != "" { assert FieldValid(s.fields[i], recordCount); }
    } else if "" !in Names(s.fields) {
      forall i | 0 <= i < |s.fields|
          ensures FieldValid(s.fields[i], recordCount) { assert Names(s.fields)[i] in Names(s.fields); }
    }
  }

  /** A file written for one record count is refused for any other. */
  lemma CountMatters(s: Snapshot, written: nat, wanted: nat)
    requires WellFormed(s, written)
    ensures SnapshotValid(s, wanted) ==> wanted == written
  {
    hide BodyValid, Distinct;
  }

  ghost predicate Describes(s: Snapshot, recordCount: nat, docs: Docs)
  {
    && docs.Keys == Ordinals(recordCount)
    && (forall i :: 0 <= i < |s.fields| ==> Tells(s.fields[i], docs))
    && (forall name :: name !in Names(s.fields) ==> Shown(docs, name) == map[])
  }

  method BuildIndex(split: Splitter, records: seq<Metadata>) returns (index: Index)
    ensures fresh(index) && index.Valid() && index.docs == Numbered(records) && index.split == split
    ensures forall f :: f in index.columns ==> Shown(index.docs, f) != map[]
  {
    hide Indexed, Good, Ids, Shown;
    index := new Index(split);
    for i := 0 to |records|
      invariant fresh(index) && index.Valid() && index.docs == Numbered(records[..i]) && index.split == split
      invariant forall f :: f in index.columns ==> Shown(index.docs, f) != map[]
    {
      ghost var before := index.docs;
      index.Upsert(i + 1, records[i]);
      assert Numbered(records[..i + 1]) == Numbered(records[..i])[i + 1 := records[i]];
      forall f | f in index.columns ensures Shown(index.docs, f) != map[] { ShownStays(before, i + 1, records[i], f); }
    }
    assert records[..|records|] == records;
  }

  /** Entering a new record keeps every value shown before, and shows its own. */
  lemma ShownStays(docs: Docs, id: nat, m: Metadata, f: string)
    requires id !in docs && (Shown(docs, f) != map[] || f in IndexedFields(m))
    ensures Shown(docs[id := m], f) != map[]
  {
    ShownPut(docs, id, m, f);
    if f in IndexedFields(m) { assert id in Shown(docs[id := m], f); }
  }

  lemma {:induction false} NumberedSize(records: seq<Metadata>)
    ensures |Numbered(records)| == |records|
    decreases |records|
  {
    if records != [] {
      var n := |records| - 1;
      NumberedSize(records[..n]);
      assert Numbered(records).Keys == Numbered(records[..n]).Keys + {n + 1};
    }
  }

  lemma ColumnReady(columns: map<string, Column>, docs: Docs, n: nat, name: string)
    requires Indexed(columns, docs) && docs.Keys == Ordinals(n) && name in columns
    ensures ColumnOk(columns[name]) && columns[name].values == Shown(docs, name)
    ensures forall id :: id in columns[name].values ==> 0 < id <= n && !columns[name].values[id].Composite?
  {
    hide ColumnOk;
  }

  method StoreFields(columns: map<string, Column>, n: nat, ghost docs: Docs) returns (fields: seq<StoredField>)
    requires Indexed(columns, docs) && docs.Keys == Ordinals(n)
    ensures WellFormed(Snapshot(1, n, fields), n) && Describes(Snapshot(1, n, fields), n, docs)
    ensures forall name :: name in Names(fields) <==> name in columns
  {
    hide Indexed, ColumnOk, Distinct, Elements, Shown, BodyValid, Ordinals, ValueMap, N.Sorted;
    var names := SortNames(columns.Keys);
    fields := [];
    for k := 0 to |names|
      invariant Names(fields) == names[..k]
      invariant forall i :: 0 <= i < k ==> BodyValid(fields[i], n) && Tells(fields[i], docs)
    {
      var name := names[k];
      ElementAt(names, k);
      ColumnReady(columns, docs, n, name);
      var f := StoreField(name, columns[name], n);
      assert Names(fields + [f]) == Names(fields) + [name];
      fields := fields + [f];
    }
    assert names[..|names|] == names;
    NamesCover(names, columns, docs);
  }

  /** None is the record count mismatch, which an index built from the records never has. */
  method MarshalRecords(split: Splitter, records: seq<Metadata>) returns (r: Option<Snapshot>)
    ensures r.Some? && WellFormed(r.value, |records|) && Describes(r.value, |records|, Numbered(records))
    ensures forall name :: name in Names(r.value.fields) <==> Shown(Numbered(records), name) != map[]
    ensures SnapshotValid(r.value, |records|) <==> AllStorable(records)
  {
    hide Good, Ids, SnapshotValid, WellFormed, Describes, Names, ColumnOk;
    var n := |records|;
    var index := BuildIndex(split, records);
    NumberedSize(records);
    CountIs(index);
    if index.universe.count != n { return None; }
    var fields := StoreFields(index.columns, n, index.docs);
    r := Some(Snapshot(1, n, fields));
    RefusedForName(r.value, n);
    EmptyNameShown(records);
  }

  lemma EmptyNameShown(records: seq<Metadata>)
    ensures Shown(Numbered(records), "") == map[] <==> AllStorable(records)
  {
    var docs := Numbered(records);
    if AllStorable(records) {
      forall id | id in docs ensures id !in Shown(docs, "") { assert Storable(records[id - 1]); }
      assert Shown(docs, "") == map[];
    } else {
      var i :| 0 <= i < |records| && !Storable(records[i]);
      assert i + 1 in Shown(docs, "");
    }
  }

  lemma CountIs(index: Index)
    requires index.Valid()
    ensures index.universe.count == |index.docs|
  {
    hide Indexed;
  }

  lemma NamesCover(names: seq<string>, columns: map<string, Column>, docs: Docs)
    requires Elements(names) == columns.Keys && Indexed(columns, docs)
    ensures forall name :: name !in names ==> Shown(docs, name) == map[]
    ensures forall name :: name in names <==> name in columns
  {
    forall name ensures name in names <==> name in columns { assert name in names <==> name in Elements(names); }
    hide ColumnOk, Shown;
    forall name | name !in names ensures Shown(docs, name) == map[] { assert name !in Elements(names); }
  }

  /** The records numbered one to `n`. */
  method FirstIds(n: nat) returns (s: Bitmap)
    ensures Good(s) && Ids(s) == Ordinals(n)
  {
    hide Good, Ids;
    s := Empty(0);
    for id := 0 to n
      invariant Good(s) && Ids(s) == Ordinals(id)
    {
      s := Bitmaps.Add(s, id + 1);
      assert Ordinals(id + 1) == Ordinals(id) + {id + 1};
    }
  }

  /** The columns read so far. */
  ghost predicate Reads(columns: map<string, Column>, fields: seq<StoredField>)
  {
    && columns.Keys == Elements(Names(fields))
    && forall i :: 0 <= i < |fields| ==>
         && fields[i].name in columns && columns[fields[i].name].values == ValueMap(fields[i].values)
         && (N.Sorted(fields[i].numbers) ==> ColumnOk(columns[fields[i].name]))
  }

  lemma ReadsPush(columns: map<string, Column>, fields: seq<StoredField>, i: nat, c: Column)
    requires i < |fields| && Reads(columns, fields[..i]) && fields[i].name !in columns
    requires c.values == ValueMap(fields[i].values) && (N.Sorted(fields[i].numbers) ==> ColumnOk(c))
    ensures Reads(columns[fields[i].name := c], fields[..i + 1])
  {
    hide ColumnOk, ValueMap, N.Sorted;
    assert fields[..i + 1] == fields[..i] + [fields[i]];
    assert Names(fields[..i + 1]) == Names(fields[..i]) + [fields[i].name];
    forall k | 0 <= k < i ensures fields[k].name != fields[i].name { assert Names(fields[..i])[k] == fields[k].name; }
  }

  lemma ReadsIndexed(columns: map<string, Column>, s: Snapshot, recordCount: nat, docs: Docs)
    requires Reads(columns, s.fields) && Describes(s, recordCount, docs)
    ensures Indexed(columns, docs)
  {
    hide ColumnOk, ValueMap, N.Sorted, Shown;
    forall f | f in columns ensures ColumnOk(columns[f]) && columns[f].values == Shown(docs, f)
    {
      assert f in Elements(Names(s.fields));
      var i :| 0 <= i < |s.fields| && Names(s.fields)[i] == f;
      assert Tells(s.fields[i], docs);
    }
    forall f | f !in columns ensures Shown(docs, f) == map[] { assert f !in Elements(Names(s.fields)); }
  }

  method LoadFields(fields: seq<StoredField>, recordCount: nat) returns (ok: bool, columns: map<string, Column>)
    ensures ok <==> Distinct(Names(fields)) && forall i :: 0 <= i < |fields| ==> FieldValid(fields[i], recordCount)
    ensures ok ==> Reads(columns, fields)
  {
    hide FieldValid, ColumnOk, ValueMap, Reads, N.Sorted;
    columns := map[];
    var seen: set<string> := {};
    ReadsNothing(fields[..0]);
    for i := 0 to |fields|
      invariant Distinct(Names(fields[..i])) && seen == Elements(Names(fields[..i])) == columns.Keys
                && Reads(columns, fields[..i])
      invariant forall k :: 0 <= k < i ==> FieldValid(fields[k], recordCount)
    {
      var f := fields[i];
      assert Names(fields[..i + 1]) == Names(fields[..i]) + [f.name];
      DistinctPush(Names(fields[..i]), f.name);
      if f.name in seen {
        assert Names(fields[..i + 1]) <= Names(fields);
        Shorter(Names(fields), Names(fields[..i + 1]));
        return false, columns;
      }
      seen := seen + {f.name};
      var c := LoadField(f, recordCount);
      if c.None? { return false, columns; }
      ReadsPush(columns, fields, i, c.value);
      columns := columns[f.name := c.value];
    }
    assert fields[..|fields|] == fields;
    ok := true;
  }

  lemma ReadsNothing(fields: seq<StoredField>)
    requires fields == []
    ensures Reads(map[], fields) && Elements(Names(fields)) == {}
  {
  }

  method LoadBinary(split: Splitter, s: Snapshot, recordCount: nat, ghost docs: Docs) returns (r: Index?)
    ensures r != null <==> SnapshotValid(s, recordCount)
    ensures r != null && Describes(s, recordCount, docs) ==> fresh(r) && r.Valid() && r.docs == docs && r.split == split
  {
    hide Indexed, Good, Ids, Reads, FieldValid, Distinct, Tells;
    if s.version != 1 || s.recordCount != recordCount { return null; }
    var universe := FirstIds(recordCount);
    var ok, columns := LoadFields(s.fields, recordCount);
    if !ok { return null; }
    r := new Index(split);
    r.universe, r.columns, r.docs := universe, columns, docs;
    if Describes(s, recordCount, docs) { ReadsIndexed(columns, s, recordCount, docs); }
  }

  /**
   * Writes the file of freshly indexed records and loads it again: that succeeds exactly if no record has an indexed
   * value under the empty name, and then the loaded index is the index of the records.
   */
  method Reload(split: Splitter, records: seq<Metadata>) returns (index: Index?)
    ensures index != null <==> AllStorable(records)
    ensures index != null ==> fresh(index) && index.Valid() && index.docs == Numbered(records) && index.split == split
  {
    hide Indexed, Good, Ids, SnapshotValid, WellFormed, Describes, Numbered, AllStorable, Shown, Names;
    var stored := MarshalRecords(split, records);
    index := LoadBinary(split, stored.value, |records|, Numbered(records));
  }

  /** The loaded index answers every filter as a scan of the records does; None is the refusal to load. */
  method RoundTrip(split: Splitter, records: seq<Metadata>, e: Expr) returns (r: Option<Bitmap>)
    ensures r.Some? <==> AllStorable(records)
    ensures r.Some? ==> Good(r.value) && Ids(r.value) == Selected(split, Numbered(records), e)
  {
    hide Indexed, Good, Ids, Selected, Numbered, AllStorable;
    var index := Reload(split, records);
    if index == null { return None; }
    var ids := index.Evaluate(e);
    r := Some(ids);
  }

  /** What a file says about one record. */
  function Told(fields: seq<StoredField>, id: nat): Metadata
  {
    if fields == [] then map[]
    else
      var f, rest := fields[|fields| - 1], Told(fields[..|fields| - 1], id);
      if id in ValueMap(f.values) then rest[f.name := ValueMap(f.values)[id]] else rest
  }

  ghost function Restored(s: Snapshot, recordCount: nat): Docs
  {
    map id | id in Ordinals(recordCount) :: Told(s.fields, id)
  }

  lemma {:induction false} ToldAt(fields: seq<StoredField>, id: nat)
    requires Distinct(Names(fields))
    ensures forall name :: name in Told(fields, id) ==> name in Names(fields)
    ensures forall i :: 0 <= i < |fields| ==>
              var held := ValueMap(fields[i].values);
              && (fields[i].name in Told(fields, id) <==> id in held)
              && (id in held ==> Told(fields, id)[fields[i].name] == held[id])
    decreases |fields|
  {
    hide ValueMap;
    if fields != [] {
      var n := |fields| - 1;
      assert Names(fields) == Names(fields[..n]) + [fields[n].name];
      Prefix(Names(fields), Names(fields[..n]));
      DistinctPush(Names(fields[..n]), fields[n].name);
      ToldAt(fields[..n], id);
      forall i | 0 <= i < n ensures fields[i].name != fields[n].name { assert Names(fields[..n])[i] == fields[i].name; }
      assert forall i :: 0 <= i < n ==> fields[..n][i] == fields[i];
    }
  }

  lemma Prefix<T>(s: seq<T>, t: seq<T>)
    requires t <= s && Distinct(s)
    ensures Distinct(t)
  {
  }

  lemma {:induction false} HeldGood(items: seq<StoredValue>, recordCount: nat)
    requires ValuesValid(items, recordCount)
    ensures forall id :: id in ValueMap(items) ==> id in Ordinals(recordCount) && !ValueMap(items)[id].Composite?
    decreases |items|
  {
    if items != [] {
      var n := |items| - 1;
      assert IdsIn(items) == IdsIn(items[..n]) + [items[n].id];
      Prefix(IdsIn(items), IdsIn(items[..n]));
      HeldGood(items[..n], recordCount);
      assert GoodItem(items[n], recordCount);
    }
  }

  /**
   * Nothing is accepted that is not the index of some records, save that the order of the numbers is not looked at:
   * an accepted file describes the records it tells of, if and only if its numbers are in order.
   */
  lemma AcceptedDescribes(s: Snapshot, recordCount: nat)
    requires SnapshotValid(s, recordCount)
    ensures Describes(s, recordCount, Restored(s, recordCount)) <==>
            forall i :: 0 <= i < |s.fields| ==> N.Sorted(s.fields[i].numbers)
  {
    hide ValueMap, Told, N.Sorted, Distinct, ValuesValid, PostingsValid, NumbersValid, Shown;
    var docs := Restored(s, recordCount);
    forall i | 0 <= i < |s.fields| ensures ValueMap(s.fields[i].values) == Shown(docs, s.fields[i].name)
    {
      assert FieldValid(s.fields[i], recordCount);
      HeldIsShown(s, recordCount, i);
    }
    forall name | name !in Names(s.fields) ensures Shown(docs, name) == map[] { NothingShown(s, recordCount, name); }
    forall i | 0 <= i < |s.fields|
        ensures Tells(s.fields[i], docs) <==> N.Sorted(s.fields[i].numbers) {}
  }

  lemma HeldIsShown(s: Snapshot, recordCount: nat, i: nat)
    requires Distinct(Names(s.fields)) && i < |s.fields| && ValuesValid(s.fields[i].values, recordCount)
    ensures ValueMap(s.fields[i].values) == Shown(Restored(s, recordCount), s.fields[i].name)
  {
    hide ValueMap, Told, Distinct, ValuesValid, Ordinals;
    HeldGood(s.fields[i].values, recordCount);
    var held, shown := ValueMap(s.fields[i].values), Shown(Restored(s, recordCount), s.fields[i].name);
    forall id ensures (id in held <==> id in shown) && (id in held ==> held[id] == shown[id]) { ToldAt(s.fields, id); }
  }

  lemma NothingShown(s: Snapshot, recordCount: nat, name: string)
    requires Distinct(Names(s.fields)) && name !in Names(s.fields)
    ensures Shown(Restored(s, recordCount), name) == map[]
  {
    hide Told, Distinct, Ordinals;
    forall id ensures name !in Told(s.fields, id) { ToldAt(s.fields, id); }
  }

  /** No file that describes records with an indexed value under the empty name can be loaded. */
  lemma EmptyNameRefused(records: seq<Metadata>, s: Snapshot)
    requires !AllStorable(records) && Describes(s, |records|, Numbered(records))
    ensures !SnapshotValid(s, |records|)
  {
    hide Distinct, BodyValid, Shown, Tells, Numbered, AllStorable;
    EmptyNameShown(records);
    assert "" in Names(s.fields);
    var i :| 0 <= i < |s.fields| && Names(s.fields)[i] == "";
    assert !FieldValid(s.fields[i], |records|);
  }

  /** One record with a text under the empty name is such a list; a list or an object there does no harm. */
  lemma EmptyNameExample()
    ensures !AllStorable([map["" := Text("x")]]) && AllStorable([map["" := Composite]])
  {
    assert !Storable([map["" := Text("x")]][0]);
  }
}
