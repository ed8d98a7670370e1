/** Metadata values, filter expressions and what it means for a record to satisfy one. */
module Filters {
  import opened Strings
  import opened Collections
  import opened Numerics

  /**
   * A number is kept with the decimal text it is printed as; composite values and numbers that are not finite are not
   * indexed.
   */
  datatype Value = Null | Text(text: string) | Flag(flag: bool) | Number(amount: real, digits: string) | Composite

  type Metadata = map<string, Value>

  function Canonical(v: Value): string
  {
    match v
    case Null => "n:"
    case Text(text) => "s:" + text
    case Flag(flag) => if flag then "b:true" else "b:false"
    case Number(_, digits) => "d:" + digits
    case Composite => "?:"
  }

  /** Two values share a posting exactly when they are of one kind and print alike. */
  lemma CanonicalSeparates(a: Value, b: Value)
    ensures Canonical(a) == Canonical(b) <==> a == b || (a.Number? && b.Number? && a.digits == b.digits)
  {
    assert Canonical(a) == Canonical(b) ==> Canonical(a)[0] == Canonical(b)[0];
    assert Canonical(a)[2..] == Canonical(b)[2..] || Canonical(a) != Canonical(b);
    if a.Text? && b.Text? { assert Canonical(a)[2..] == a.text && Canonical(b)[2..] == b.text; }
    if a.Number? && b.Number? { assert Canonical(a)[2..] == a.digits && Canonical(b)[2..] == b.digits; }
  }

  datatype Test =
    | Exists(wanted: bool)
    | Eq(value: Value)
    | Ne(value: Value)
    | In(values: seq<Value>)
    | NotIn(values: seq<Value>)
    | Words(words: seq<string>)
    | Compare(order: Order, value: Value)

  /** A missing expression selects everything. */
  datatype Expr = Everything | And(children: seq<Expr>) | Or(children: seq<Expr>) | Not(child: Expr)
      | Where(field: string, test: Test)

  predicate TextInRange(a: string, order: Order, b: string)
  {
    match order
    case Above => Less(b, a)
    case AtLeast => !Less(a, b)
    case Below => Less(a, b)
    case AtMost => !Less(b, a)
  }

  /** Numbers compare with numbers and strings with strings; nothing else compares. */
  predicate Compares(left: Value, order: Order, right: Value)
  {
    if left.Number? then right.Number? && InRange(left.amount, order, right.amount)
    else left.Text? && right.Text? && TextInRange(left.text, order, right.text)
  }

  /** Exactly two numbers or two texts compare: below and above exclude each other, and each has its complement. */
  lemma ComparesExact(left: Value, right: Value)
    ensures var alike := (left.Number? && right.Number?) || (left.Text? && right.Text?);
            if !alike then forall order: Order :: !Compares(left, order, right)
            else
              && (left.Number? ==> (Compares(left, Below, right) <==> left.amount < right.amount))
              && (left.Text? ==> (Compares(left, Below, right) <==> Less(left.text, right.text)))
              && (Compares(left, Above, right) <==> Compares(right, Below, left))
              && (Compares(left, AtLeast, right) <==> !Compares(left, Below, right))
              && (Compares(left, AtMost, right) <==> !Compares(left, Above, right))
              && !(Compares(left, Below, right) && Compares(left, Above, right))
  {
    if left.Text? && right.Text? && Less(left.text, right.text) { LessAsymmetric(left.text, right.text); }
  }

  type Splitter = string -> seq<string>

  predicate HasWords(split: Splitter, v: Value, words: seq<string>)
  {
    v.Text? && forall w :: w in words ==> w in split(v.text)
  }

  /** A text passes exactly if all the words are among its own. */
  lemma WordsExact(split: Splitter, v: Value, words: seq<string>)
    ensures HasWords(split, v, words) <==>
            v.Text? && Elements(words) <= Elements(split(v.text))
  {
    if v.Text? && Elements(words) <= Elements(split(v.text)) {
      forall w | w in words ensures w in split(v.text) { assert w in Elements(words); }
    }
  }

  predicate Passes(split: Splitter, v: Value, test: Test)
  {
    match test
    case Exists(wanted) => wanted
    case Eq(x) => Canonical(v) == Canonical(x)
    case Ne(x) => Canonical(v) != Canonical(x)
    case In(xs) => exists i :: 0 <= i < |xs| && Canonical(v) == Canonical(xs[i])
    case NotIn(xs) => forall i :: 0 <= i < |xs| ==> Canonical(v) != Canonical(xs[i])
    case Words(words) => HasWords(split, v, words)
    case Compare(order, x) => Compares(v, order, x)
  }

  /** The scan: what one record's metadata satisfies. */
  predicate Matches(split: Splitter, doc: Metadata, e: Expr)
  {
    match e
    case Everything => true
    case And(children) => forall c :: c in children ==> Matches(split, doc, c)
    case Or(children) => exists c :: c in children && Matches(split, doc, c)
    case Not(child) => !Matches(split, doc, child)
    case Where(field, test) =>
      if field in doc && !doc[field].Composite? then Passes(split, doc[field], test) else test == Exists(false)
  }

  type Docs = map<nat, Metadata>

  ghost function Selected(split: Splitter, docs: Docs, e: Expr): set<nat>
  {
    set id | id in docs && Matches(split, docs[id], e)
  }

  /** The fields of a record that are indexed. */
  function IndexedFields(doc: Metadata): set<string>
  {
    set f | f in doc && !doc[f].Composite?
  }

  /** A record without an indexed value under the empty name: what a filter file can hold. */
  predicate Storable(doc: Metadata)
  {
    "" !in doc || doc[""].Composite?
  }

  predicate AllStorable(docs: seq<Metadata>)
  {
    forall i :: 0 <= i < |docs| ==> Storable(docs[i])
  }

  /** The indexed values of one field. */
  ghost function Shown(docs: Docs, field: string): map<nat, Value>
  {
    map id | id in docs && field in docs[id] && !docs[id][field].Composite? :: docs[id][field]
  }
}

/** Everything kept about one field. */
module Columns {
  import opened Collections
  import opened Bitmaps
  import opened Postings
  import N = Numerics
  import opened Filters

  datatype Column = Column(values: map<nat, Value>, postings: map<string, Posting>, present: Bitmap,
      numeric: Option<N.Numeric>)

  ghost function Carriers(values: map<nat, Value>, key: string): set<nat>
  {
    set id | id in values && Canonical(values[id]) == key
  }

  ghost function Amounts(values: map<nat, Value>): map<nat, real>
  {
    map id | id in values && values[id].Number? :: values[id].amount
  }

  ghost predicate PostingsOk(c: Column)
  {
    && (forall key :: key in c.postings ==>
       key != "" && Kept(c.postings[key]) && Members(c.postings[key]) == Carriers(c.values, key))
    && (forall id :: id in c.values ==> Canonical(c.values[id]) in c.postings)
  }

  ghost predicate NumericOk(c: Column)
  {
    if c.numeric.Some? then N.Sound(c.numeric.value) && c.numeric.value.current == Amounts(c.values)
        else Amounts(c.values) == map[]
  }

  ghost predicate ColumnOk(c: Column)
  {
    PostingsOk(c) && Good(c.present) && Ids(c.present) == c.values.Keys && NumericOk(c)
  }

  function NewColumn(id: nat): (c: Column)
    ensures ColumnOk(c) && c.values == map[]
  {
    Column(map[], map[], Empty(id), None)
  }

  method PutPosting(c: Column, id: nat, v: Value) returns (postings: map<string, Posting>)
    requires PostingsOk(c) && id !in c.values
    ensures PostingsOk(c.(values := c.values[id := v], postings := postings))
  {
    hide Kept, Members;
    var key := Canonical(v);
    var p := if key in c.postings then c.postings[key] else NOBODY;
    NobodyKept();
    if key !in c.postings { assert Carriers(c.values, key) == {}; }
    p := Include(p, id);
    postings := c.postings[key := p];
    forall k | k in postings ensures Kept(postings[k]) && Members(postings[k]) == Carriers(c.values[id := v], k)
    {
      CarriersPut(c.values, id, v, k);
    }
  }

  lemma NobodyKept()
    ensures Kept(NOBODY) && Members(NOBODY) == {}
  {
  }

  lemma CarriersPut(values: map<nat, Value>, id: nat, v: Value, key: string)
    requires id !in values
    ensures Carriers(values[id := v], key) == if Canonical(v) == key then Carriers(values, key) + {id}
            else Carriers(values, key)
  {
  }

  lemma CarriersDrop(values: map<nat, Value>, id: nat, key: string)
    requires id in values
    ensures Carriers(values - {id}, key) == if Canonical(values[id]) == key then Carriers(values, key) - {id}
            else Carriers(values, key)
  {
  }

  method DropPosting(c: Column, id: nat) returns (postings: map<string, Posting>)
    requires PostingsOk(c) && id in c.values
    ensures PostingsOk(c.(values := c.values - {id}, postings := postings))
  {
    hide Kept, Members;
    var key := Canonical(c.values[id]);
    var p := Exclude(c.postings[key], id);
    postings := c.postings[key := p];
    forall k | k in postings ensures Kept(postings[k]) && Members(postings[k]) == Carriers(c.values - {id}, k)
    {
      CarriersDrop(c.values, id, k);
    }
  }

  lemma AmountsPut(values: map<nat, Value>, id: nat, v: Value)
    requires id !in values
    ensures Amounts(values[id := v]) == if v.Number? then Amounts(values)[id := v.amount] else Amounts(values)
  {
  }

  lemma AmountsDrop(values: map<nat, Value>, id: nat)
    requires id in values
    ensures Amounts(values - {id}) == Amounts(values) - {id}
    ensures id in Amounts(values) <==> values[id].Number?
    ensures id in Amounts(values) ==> Amounts(values)[id] == values[id].amount
    ensures id !in Amounts(values) ==> Amounts(values) - {id} == Amounts(values)
  {
  }

  method PutNumeric(c: Column, id: nat, v: Value) returns (numeric: Option<N.Numeric>)
    requires NumericOk(c) && id !in c.values
    ensures NumericOk(c.(values := c.values[id := v], numeric := numeric))
  {
    hide N.Sound, Amounts;
    AmountsPut(c.values, id, v);
    AmountsKeys(c.values, id);
    if !v.Number? { return c.numeric; }
    var n;
    if c.numeric.Some? { n := c.numeric.value; } else { n := N.NewNumeric(); }
    n := N.Insert(n, id, v.amount);
    numeric := Some(n);
  }

  lemma AmountsKeys(values: map<nat, Value>, id: nat)
    ensures id !in values ==> id !in Amounts(values)
  {
  }

  method DropNumeric(c: Column, id: nat) returns (numeric: Option<N.Numeric>)
    requires NumericOk(c) && id in c.values
    ensures NumericOk(c.(values := c.values - {id}, numeric := numeric))
  {
    hide N.Sound, Amounts;
    AmountsDrop(c.values, id);
    var v := c.values[id];
    if !v.Number? || c.numeric.None? { return c.numeric; }
    var n := N.Delete(c.numeric.value, id, v.amount);
    numeric := Some(n);
  }

  /** Enters a value under an id the column does not hold. */
  method Put(c: Column, id: nat, v: Value) returns (r: Column)
    requires ColumnOk(c) && id !in c.values
    ensures ColumnOk(r) && r.values == c.values[id := v]
  {
    hide PostingsOk, NumericOk, Good, Ids;
    var postings := PutPosting(c, id, v);
    var present := Bitmaps.Add(c.present, id);
    var numeric := PutNumeric(c, id, v);
    r := Column(c.values[id := v], postings, present, numeric);
    SamePostings(c.(values := c.values[id := v], postings := postings), r);
    SameNumeric(c.(values := c.values[id := v], numeric := numeric), r);
  }

  lemma SamePostings(a: Column, b: Column)
    requires PostingsOk(a) && a.values == b.values && a.postings == b.postings
    ensures PostingsOk(b)
  {
  }

  lemma SameNumeric(a: Column, b: Column)
    requires NumericOk(a) && a.values == b.values && a.numeric == b.numeric
    ensures NumericOk(b)
  {
  }

  method Drop(c: Column, id: nat) returns (r: Column)
    requires ColumnOk(c)
    ensures ColumnOk(r) && r.values == c.values - {id}
  {
    hide PostingsOk, NumericOk, Good, Ids;
    if id !in c.values {
      assert c.values - {id} == c.values;
      return c;
    }
    var postings := DropPosting(c, id);
    var present := Bitmaps.Remove(c.present, id);
    var numeric := DropNumeric(c, id);
    r := Column(c.values - {id}, postings, present, numeric);
    SamePostings(c.(values := c.values - {id}, postings := postings), r);
    SameNumeric(c.(values := c.values - {id}, numeric := numeric), r);
  }

  /* ---------- queries on one field ---------- */

  ghost function Having(split: Splitter, values: map<nat, Value>, test: Test): set<nat>
  {
    set id | id in values && Passes(split, values[id], test)
  }

  method Carrying(c: Column, v: Value, maxId: nat) returns (s: Bitmap)
    requires ColumnOk(c)
    ensures Good(s) && Ids(s) == Carriers(c.values, Canonical(v))
  {
    hide Kept, Members, Good, Ids, NumericOk;
    var key := Canonical(v);
    if key in c.postings {
      s := ToBitmap(c.postings[key], maxId);
    } else {
      s := Empty(0);
      assert Carriers(c.values, key) == {};
    }
  }

  ghost function CarryingAny(values: map<nat, Value>, xs: seq<Value>): set<nat>
  {
    set id | id in values && exists i :: 0 <= i < |xs| && Canonical(values[id]) == Canonical(xs[i])
  }

  lemma CarryingPush(values: map<nat, Value>, xs: seq<Value>, n: nat)
    requires n < |xs|
    ensures CarryingAny(values, xs[..n + 1]) == CarryingAny(values, xs[..n]) + Carriers(values, Canonical(xs[n]))
  {
    assert xs[..n + 1] == xs[..n] + [xs[n]];
    forall id | id in values
        ensures id in CarryingAny(values, xs[..n + 1]) <==>
                id in CarryingAny(values, xs[..n]) || Canonical(values[id]) == Canonical(xs[n])
    {
      assert xs[..n + 1][n] == xs[n];
      if id in CarryingAny(values, xs[..n]) {
        var i :| 0 <= i < n && Canonical(values[id]) == Canonical(xs[..n][i]);
        assert xs[..n + 1][i] == xs[..n][i];
      }
      if id in CarryingAny(values, xs[..n + 1]) {
        var i :| 0 <= i < n + 1 && Canonical(values[id]) == Canonical(xs[..n + 1][i]);
        if i < n { assert xs[..n][i] == xs[..n + 1][i]; }
      }
    }
  }

  method CarryingOneOf(c: Column, xs: seq<Value>, maxId: nat) returns (s: Bitmap)
    requires ColumnOk(c)
    ensures Good(s) && Ids(s) == CarryingAny(c.values, xs)
  {
    hide ColumnOk, Good, Ids, Carriers, CarryingAny;
    s := Empty(maxId);
    NoneCarried(c.values, xs[..0]);
    for i := 0 to |xs|
      invariant Good(s) && Ids(s) == CarryingAny(c.values, xs[..i])
    {
      var one := Carrying(c, xs[i], maxId);
      s := Union(s, one);
      CarryingPush(c.values, xs, i);
    }
    assert xs[..|xs|] == xs;
  }

  lemma NoneCarried(values: map<nat, Value>, xs: seq<Value>)
    requires xs == []
    ensures CarryingAny(values, xs) == {}
  {
  }

  /** Reads every value of the field. */
  method ScanColumn(split: Splitter, values: map<nat, Value>, test: Test, maxId: nat) returns (s: Bitmap)
    requires test.Words? || test.Compare?
    ensures Good(s) && Ids(s) == Having(split, values, test)
  {
    hide Good, Ids, Passes, Having;
    s := Empty(maxId);
    var left := values.Keys;
    NoneHaving(split, values - left, test);
    while left != {}
      invariant left <= values.Keys && Good(s) && Ids(s) == Having(split, values - left, test)
      decreases |left|
    {
      var id :| id in left;
      HavingPush(split, values, left, id, test);
      if Passes(split, values[id], test) { s := Bitmaps.Add(s, id); }
      left := left - {id};
    }
    assert values - {} == values;
  }

  lemma NoneHaving(split: Splitter, values: map<nat, Value>, test: Test)
    requires values == map[]
    ensures Having(split, values, test) == {}
  {
  }

  lemma HavingPush(split: Splitter, values: map<nat, Value>, left: set<nat>, id: nat, test: Test)
    requires id in left && id in values
    ensures Having(split, values - (left - {id}), test) ==
            Having(split, values - left, test) + if Passes(split, values[id], test) then {id} else {}
  {
    hide Passes;
  }

  /** The ids of one field whose value passes a test, found through the field's indexes. */
  method PassingIds(split: Splitter, c: Column, universe: Bitmap, test: Test, maxId: nat) returns (s: Bitmap)
    requires ColumnOk(c) && Good(universe)
    ensures Good(s) && Ids(s) == if test == Exists(false) then Ids(universe) - c.values.Keys
            else Having(split, c.values, test)
  {
    hide PostingsOk, Good, Ids, N.Sound;
    match test
    case Exists(wanted) =>
      if wanted { s := c.present; } else { s := Difference(universe, c.present); }
    case Eq(x) =>
      s := Carrying(c, x, maxId);
    case Ne(x) =>
      var same := Carrying(c, x, maxId);
      s := Difference(c.present, same);
    case In(xs) =>
      s := CarryingOneOf(c, xs, maxId);
    case NotIn(xs) =>
      var any := CarryingOneOf(c, xs, maxId);
      s := Difference(c.present, any);
    case Words(_) =>
      s := ScanColumn(split, c.values, test, maxId);
    case Compare(order, x) =>
      if x.Number? {
        if c.numeric.Some? { s := N.Range(c.numeric.value, order, x.amount, maxId); } else { s := Empty(maxId); }
        NumbersOnly(split, c.values, order, x);
      } else {
        s := ScanColumn(split, c.values, test, maxId);
      }
  }

  lemma NumbersOnly(split: Splitter, values: map<nat, Value>, order: N.Order, x: Value)
    requires x.Number?
    ensures Having(split, values, Compare(order, x)) == set id | id in Amounts(values)
            && N.InRange(Amounts(values)[id], order, x.amount)
  {
  }
}

/** The index of all fields. */
module FilterIndex {
  import opened Bitmaps
  import opened Filters
  import opened Columns

  ghost predicate Indexed(columns: map<string, Column>, docs: Docs)
  {
    && (forall f :: f in columns ==> ColumnOk(columns[f]) && columns[f].values == Shown(docs, f))
    && (forall f :: f !in columns ==> Shown(docs, f) == map[])
  }

  lemma ShownDrop(docs: Docs, id: nat, f: string)
    ensures Shown(docs - {id}, f) == Shown(docs, f) - {id}
  {
  }

  lemma ShownPut(docs: Docs, id: nat, m: Metadata, f: string)
    requires id !in docs
    ensures Shown(docs[id := m], f) == if f in m && !m[f].Composite? then Shown(docs, f)[id := m[f]] else Shown(docs, f)
    ensures id !in Shown(docs, f)
  {
  }

  ghost predicate Dropping(columns: map<string, Column>, left: set<string>, docs: Docs, id: nat)
  {
    && (forall f :: f in columns ==>
       ColumnOk(columns[f]) && columns[f].values == if f in left then Shown(docs, f) else Shown(docs, f) - {id})
    && (forall f :: f !in columns ==> Shown(docs, f) == map[])
  }

  method DropEverywhere(columns: map<string, Column>, id: nat, ghost docs: Docs) returns (r: map<string, Column>)
    requires Indexed(columns, docs)
    ensures Indexed(r, docs - {id}) && r.Keys == columns.Keys
  {
    hide ColumnOk, Shown, Dropping;
    r := columns;
    var left := columns.Keys;
    DropStart(columns, docs, id);
    while left != {}
      invariant left <= r.Keys == columns.Keys && Dropping(r, left, docs, id)
      decreases |left|
    {
      var f :| f in left;
      DropColumn(r, left, docs, id, f);
      var c := Columns.Drop(r[f], id);
      DropStep(r, left, docs, id, f, c);
      r := r[f := c];
      left := left - {f};
    }
    DropEnd(r, docs, id);
  }

  lemma DropStart(columns: map<string, Column>, docs: Docs, id: nat)
    requires Indexed(columns, docs)
    ensures Dropping(columns, columns.Keys, docs, id)
  {
    hide ColumnOk, Shown;
  }

  lemma DropColumn(columns: map<string, Column>, left: set<string>, docs: Docs, id: nat, f: string)
    requires Dropping(columns, left, docs, id) && f in left && f in columns
    ensures ColumnOk(columns[f])
  {
    hide ColumnOk, Shown;
  }

  lemma DropStep(columns: map<string, Column>, left: set<string>, docs: Docs, id: nat, f: string, c: Column)
    requires Dropping(columns, left, docs, id) && f in left && f in columns && ColumnOk(c)
             && c.values == columns[f].values - {id}
    ensures Dropping(columns[f := c], left - {f}, docs, id)
  {
    hide ColumnOk, Shown;
  }

  lemma DropEnd(columns: map<string, Column>, docs: Docs, id: nat)
    requires Dropping(columns, {}, docs, id)
    ensures Indexed(columns, docs - {id})
  {
    hide ColumnOk, Shown;
    forall f ensures Shown(docs - {id}, f) == Shown(docs, f) - {id} { ShownDrop(docs, id, f); }
    assert forall f :: f !in columns ==> Shown(docs, f) - {id} == map[];
  }

  /** Indexes one field of the record being entered. */
  method PutField(columns: map<string, Column>, id: nat, f: string, v: Value, ghost before: Docs, ghost after: Docs)
      returns (r: map<string, Column>)
    requires Indexed(columns, before) && id !in Shown(before, f)
    requires forall g :: g != f ==> Shown(after, g) == Shown(before, g)
    requires Shown(after, f) == if v.Composite? then Shown(before, f) else Shown(before, f)[id := v]
    ensures Indexed(r, after) && r.Keys <= columns.Keys + if v.Composite? then {} else {f}
  {
    hide ColumnOk, Shown;
    if v.Composite? { return columns; }
    var c := if f in columns then columns[f] else NewColumn(id);
    c := Columns.Put(c, id, v);
    r := columns[f := c];
  }

  /** Indexes the fields of a record one after the other. */
  method EnterAll(columns: map<string, Column>, id: nat, metadata: Metadata, ghost docs: Docs)
      returns (r: map<string, Column>)
    requires Indexed(columns, docs) && id !in docs
    ensures Indexed(r, docs[id := metadata]) && r.Keys <= columns.Keys + IndexedFields(metadata)
  {
    hide Indexed, Shown;
    r := columns;
    var left := metadata.Keys;
    IndexedNothing(columns, docs, id);
    assert metadata - left == map[];
    while left != {}
      invariant left <= metadata.Keys && Indexed(r, docs[id := metadata - left])
                && r.Keys <= columns.Keys + IndexedFields(metadata)
      decreases |left|
    {
      var f :| f in left;
      ShownEnter(docs, id, metadata, left, f);
      r := PutField(r, id, f, metadata[f], docs[id := metadata - left], docs[id := metadata - (left - {f})]);
      left := left - {f};
    }
    assert metadata - {} == metadata;
  }

  lemma ShownEnter(docs: Docs, id: nat, m: Metadata, left: set<string>, f: string)
    requires id !in docs && f in left && left <= m.Keys
    ensures var before, after := docs[id := m - left], docs[id := m - (left - {f})];
            && id !in Shown(before, f)
            && Shown(after, f) == (if m[f].Composite? then Shown(before, f) else Shown(before, f)[id := m[f]])
            && forall g :: g != f ==> Shown(after, g) == Shown(before, g)
  {
    hide Shown;
    var before, after := docs[id := m - left], docs[id := m - (left - {f})];
    ShownPut(docs, id, m - left, f);
    ShownPut(docs, id, m - (left - {f}), f);
    forall g | g != f ensures Shown(after, g) == Shown(before, g)
    {
      ShownPut(docs, id, m - left, g);
      ShownPut(docs, id, m - (left - {f}), g);
    }
  }

  class Index {
    const split: Splitter
    var universe: Bitmap
    var columns: map<string, Column>
    ghost var docs: Docs

    ghost predicate Valid()
      reads this
    {
      Good(universe) && Ids(universe) == docs.Keys && Indexed(columns, docs)
    }

    constructor (split: Splitter)
      ensures Valid() && docs == map[] && this.split == split && columns == map[]
    {
      this.split := split;
      universe, columns, docs := Empty(0), map[], map[];
    }

    method Delete(id: nat)
      requires Valid()
      modifies this
      ensures Valid() && docs == old(docs) - {id} && columns.Keys == old(columns).Keys
    {
      hide Indexed, Good, Ids;
      universe := Bitmaps.Remove(universe, id);
      columns := DropEverywhere(columns, id, docs);
      docs := docs - {id};
    }

    method Upsert(id: nat, metadata: Metadata)
      requires Valid()
      modifies this
      ensures Valid() && docs == old(docs)[id := metadata]
      ensures columns.Keys <= old(columns).Keys + IndexedFields(metadata)
    {
      hide Indexed, Good, Ids;
      Delete(id);
      universe := Bitmaps.Add(universe, id);
      columns := EnterAll(columns, id, metadata, docs);
      docs := docs[id := metadata];
    }

    method Evaluate(e: Expr) returns (r: Bitmap)
      requires Valid()
      ensures Good(r) && Ids(r) == Selected(split, docs, e)
      decreases e
    {
      hide Good, Ids, Indexed, Passes;
      match e
      case Everything =>
        r := universe;
      case And(children) =>
        r := universe;
        for i := 0 to |children|
          invariant Good(r) && Ids(r) == Selected(split, docs, And(children[..i]))
        {
          var one := Evaluate(children[i]);
          r := Intersect(r, one);
          AndPush(split, docs, children, i);
        }
        assert children[..|children|] == children;
      case Or(children) =>
        r := Empty(|universe.words| * WORD);
        for i := 0 to |children|
          invariant Good(r) && Ids(r) == Selected(split, docs, Or(children[..i]))
        {
          var one := Evaluate(children[i]);
          r := Union(r, one);
          OrPush(split, docs, children, i);
        }
        assert children[..|children|] == children;
      case Not(child) =>
        var inner := Evaluate(child);
        r := Difference(universe, inner);
      case Where(field, test) =>
        r := EvaluateTest(field, test);
    }

    method EvaluateTest(field: string, test: Test) returns (r: Bitmap)
      requires Valid()
      ensures Good(r) && Ids(r) == Selected(split, docs, Where(field, test))
    {
      hide Good, Ids, ColumnOk, Passes;
      var maxId := |universe.words| * WORD;
      var c := if field in columns then columns[field] else NewColumn(0);
      r := PassingIds(split, c, universe, test, maxId);
      WhereExact(split, docs, field, test);
    }
  }

  lemma IndexedNothing(columns: map<string, Column>, docs: Docs, id: nat)
    requires id !in docs && Indexed(columns, docs)
    ensures Indexed(columns, docs[id := map[]])
  {
    hide ColumnOk, Shown;
    forall f ensures Shown(docs[id := map[]], f) == Shown(docs, f) { ShownPut(docs, id, map[], f); }
  }

  lemma AndPush(split: Splitter, docs: Docs, children: seq<Expr>, n: nat)
    requires n < |children|
    ensures Selected(split, docs, And(children[..n + 1]))
            == Selected(split, docs, And(children[..n])) * Selected(split, docs, children[n])
  {
    assert children[..n + 1] == children[..n] + [children[n]];
  }

  lemma OrPush(split: Splitter, docs: Docs, children: seq<Expr>, n: nat)
    requires n < |children|
    ensures Selected(split, docs, Or(children[..n + 1])) == Selected(split, docs, Or(children[..n]))
            + Selected(split, docs, children[n])
  {
    assert children[..n + 1] == children[..n] + [children[n]];
  }

  lemma WhereExact(split: Splitter, docs: Docs, field: string, test: Test)
    ensures Selected(split, docs, Where(field, test)) ==
            if test == Exists(false) then docs.Keys - Shown(docs, field).Keys
                else Having(split, Shown(docs, field), test)
  {
    hide Passes;
    PassesExists(split, docs, field);
  }

  lemma PassesExists(split: Splitter, docs: Docs, field: string)
    ensures forall v :: !Passes(split, v, Exists(false))
  {
  }

  datatype Change = Enter(id: nat, metadata: Metadata) | Erase(id: nat)

  /** The records a history of changes leaves. */
  ghost function DocsAfter(history: seq<Change>): Docs
  {
    if history == [] then map[]
    else
      var before, last := DocsAfter(history[..|history| - 1]), history[|history| - 1];
      match last
      case Enter(id, metadata) => before[id := metadata]
      case Erase(id) => before - {id}
  }

  /** After any history whatever, a filter selects exactly the live records a scan would select. */
  method EvaluateAfter(split: Splitter, history: seq<Change>, e: Expr) returns (r: Bitmap)
    ensures Good(r) && Ids(r) == Selected(split, DocsAfter(history), e)
  {
    hide Good, Ids, Indexed, Selected;
    var index := new Index(split);
    for i := 0 to |history|
      invariant fresh(index) && index.Valid() && index.docs == DocsAfter(history[..i])
    {
      assert history[..i + 1][..i] == history[..i];
      match history[i]
      case Enter(id, metadata) => index.Upsert(id, metadata);
      case Erase(id) => index.Delete(id);
    }
    assert history[..|history|] == history;
    r := index.Evaluate(e);
  }
}
