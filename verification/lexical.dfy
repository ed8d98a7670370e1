/** Sums over finite maps, whatever the order of iteration. */
module Sums {
  ghost function SumReals(m: map<string, real>): real
  {
    if m == map[] then 0.0 else var k :| k in m; m[k] + SumReals(m - {k})
  }

  function Times(a: real, b: real): real
  {
    a * b
  }

  function Over(a: real, b: real): real
    requires b != 0.0
  {
    a / b
  }

  lemma TimesPositive(a: real, b: real)
    requires a > 0.0 && b > 0.0
    ensures Times(a, b) > 0.0
  {
  }

  lemma TimesNegated(a: real)
    ensures Times(a, a) == Times(-a, -a)
  {
  }

  lemma SquarePositive(a: real)
    ensures Times(a, a) >= 0.0 && (a != 0.0 ==> Times(a, a) > 0.0)
  {
    hide Times;
    if a > 0.0 {
      TimesPositive(a, a);
    } else if a < 0.0 {
      TimesPositive(-a, -a);
      TimesNegated(a);
    } else {
      TimesZero();
    }
  }

  lemma TimesZero()
    ensures Times(0.0, 0.0) == 0.0
  {
  }

  /** Any term may be taken out first. */
  lemma {:induction false} TakeReal(m: map<string, real>, k: string)
    requires k in m
    ensures SumReals(m) == m[k] + SumReals(m - {k})
    decreases |m|
  {
    var j :| j in m && SumReals(m) == m[j] + SumReals(m - {j});
    if j != k {
      TakeReal(m - {j}, k);
      TakeReal(m - {k}, j);
      assert m - {j} - {k} == m - {k} - {j};
    }
  }

  lemma PutReal(m: map<string, real>, k: string, v: real)
    requires k !in m
    ensures SumReals(m[k := v]) == SumReals(m) + v
  {
    TakeReal(m[k := v], k);
    assert m[k := v] - {k} == m;
  }

  ghost function SumNats(m: map<nat, nat>): nat
  {
    if m == map[] then 0 else var k :| k in m; m[k] + SumNats(m - {k})
  }

  lemma {:induction false} TakeNat(m: map<nat, nat>, k: nat)
    requires k in m
    ensures SumNats(m) == m[k] + SumNats(m - {k})
    decreases |m|
  {
    var j :| j in m && SumNats(m) == m[j] + SumNats(m - {j});
    if j != k {
      TakeNat(m - {j}, k);
      TakeNat(m - {k}, j);
      assert m - {j} - {k} == m - {k} - {j};
    }
  }

  lemma PutNat(m: map<nat, nat>, k: nat, v: nat)
    requires k !in m
    ensures SumNats(m[k := v]) == SumNats(m) + v
  {
    TakeNat(m[k := v], k);
    assert m[k := v] - {k} == m;
  }
}

/** Inverted indexes for sparse vectors and tokenized text. Weights are real numbers and norms are kept squared. */
module Lexical {
  import opened Collections
  import opened Sums

  /** The searchable part of a record: its sparse vector and the tokens of its text. */
  datatype Doc = Doc(sparse: map<string, real>, tokens: seq<string>)

  type Docs = map<nat, Doc>

  datatype Index = Index(sparse: map<string, map<nat, real>>, squares: map<nat, real>,
                         text: map<string, map<nat, nat>>, lengths: map<nat, nat>, totalTerms: nat)

  const EMPTY: Index := Index(map[], map[], map[], map[], 0)

  ghost function Squares(m: map<string, real>): map<string, real>
  {
    map t | t in m :: Times(m[t], m[t])
  }

  ghost function SquareSum(m: map<string, real>): real
  {
    SumReals(Squares(m))
  }

  function Count(tokens: seq<string>, t: string): nat
  {
    if tokens == [] then 0 else Count(tokens[..|tokens| - 1], t) + if tokens[|tokens| - 1] == t then 1 else 0
  }

  lemma {:induction false} CountPositive(tokens: seq<string>, t: string)
    ensures Count(tokens, t) > 0 <==> t in tokens
    decreases |tokens|
  {
    if tokens != [] { CountPositive(tokens[..|tokens| - 1], t); }
  }

  /* ---------- nested postings ---------- */

  predicate Listed<V>(m: map<string, map<nat, V>>, t: string, o: nat)
  {
    t in m && o in m[t]
  }

  ghost predicate NoneEmpty<V>(m: map<string, map<nat, V>>)
  {
    forall t :: t in m ==> m[t] != map[]
  }

  function Enter<V>(m: map<string, map<nat, V>>, t: string, o: nat, v: V): map<string, map<nat, V>>
  {
    m[t := (if t in m then m[t] else map[])[o := v]]
  }

  function Leave<V>(m: map<string, map<nat, V>>, t: string, o: nat): map<string, map<nat, V>>
  {
    if t !in m then m
    else
      var rest := m[t] - {o};
      if rest == map[] then m - {t} else m[t := rest]
  }

  lemma EnterKeeps<V>(m: map<string, map<nat, V>>, t: string, o: nat, v: V)
    requires NoneEmpty(m)
    ensures NoneEmpty(Enter(m, t, o, v))
    ensures Listed(Enter(m, t, o, v), t, o) && Enter(m, t, o, v)[t][o] == v
    ensures forall s, p :: (s, p) != (t, o) ==>
            (Listed(Enter(m, t, o, v), s, p) <==> Listed(m, s, p))
                && (Listed(m, s, p) ==> Enter(m, t, o, v)[s][p] == m[s][p])
  {
    assert o in Enter(m, t, o, v)[t];
  }

  lemma OnlyThis<V>(m: map<nat, V>, o: nat)
    requires m - {o} == map[]
    ensures forall p :: p in m ==> p == o
  {
    forall p | p in m ensures p == o { assert p in (m - {o}).Keys + {o}; }
  }

  lemma LeaveKeeps<V>(m: map<string, map<nat, V>>, t: string, o: nat)
    requires NoneEmpty(m)
    ensures NoneEmpty(Leave(m, t, o)) && !Listed(Leave(m, t, o), t, o)
    ensures forall s, p :: (s, p) != (t, o) ==>
            (Listed(Leave(m, t, o), s, p) <==> Listed(m, s, p)) && (Listed(m, s, p) ==> Leave(m, t, o)[s][p] == m[s][p])
  {
    if t in m && m[t] - {o} == map[] {
      OnlyThis(m[t], o);
    }
  }

  /* ---------- what the index of a set of records is ---------- */

  ghost predicate SparseOf(m: map<string, map<nat, real>>, docs: Docs)
  {
    && NoneEmpty(m)
    && forall t, o :: (Listed(m, t, o) <==> Weighs(docs, o, t)) && (Listed(m, t, o) ==> m[t][o] == docs[o].sparse[t])
  }

  predicate Weighs(docs: Docs, o: nat, t: string)
  {
    o in docs && t in docs[o].sparse && docs[o].sparse[t] != 0.0
  }

  ghost predicate TextOf(m: map<string, map<nat, nat>>, docs: Docs)
  {
    && NoneEmpty(m)
    && forall t, o ::
       (Listed(m, t, o) <==> Says(docs, o, t)) && (Listed(m, t, o) ==> m[t][o] == Count(docs[o].tokens, t))
  }

  predicate Says(docs: Docs, o: nat, t: string)
  {
    o in docs && t in docs[o].tokens
  }

  ghost function SquaresOf(docs: Docs): map<nat, real>
  {
    map o | o in docs && SquareSum(docs[o].sparse) > 0.0 :: SquareSum(docs[o].sparse)
  }

  ghost function LengthsOf(docs: Docs): map<nat, nat>
  {
    map o | o in docs && docs[o].tokens != [] :: |docs[o].tokens|
  }

  ghost predicate IndexOf(l: Index, docs: Docs)
  {
    && SparseOf(l.sparse, docs) && l.squares == SquaresOf(docs)
    && TextOf(l.text, docs) && l.lengths == LengthsOf(docs) && l.totalTerms == SumNats(l.lengths)
  }

  /** There is only one index of a set of records, so an index kept up to date equals one built from scratch. */
  lemma IndexUnique(a: Index, b: Index, docs: Docs)
    requires IndexOf(a, docs) && IndexOf(b, docs)
    ensures a == b
  {
    SameSparse(a.sparse, b.sparse, docs);
    SameText(a.text, b.text, docs);
  }

  lemma SameSparse(a: map<string, map<nat, real>>, b: map<string, map<nat, real>>, docs: Docs)
    requires SparseOf(a, docs) && SparseOf(b, docs)
    ensures a == b
  {
    forall t ensures t in a <==> t in b
    {
      if t in a { var o :| o in a[t]; assert Listed(a, t, o); }
      if t in b { var o :| o in b[t]; assert Listed(b, t, o); }
    }
    forall t | t in a ensures a[t] == b[t]
    {
      forall o ensures o in a[t] <==> o in b[t] { assert Listed(a, t, o) <==> Listed(b, t, o); }
      forall o | o in a[t] ensures a[t][o] == b[t][o] { assert Listed(a, t, o) && Listed(b, t, o); }
    }
  }

  lemma SameText(a: map<string, map<nat, nat>>, b: map<string, map<nat, nat>>, docs: Docs)
    requires TextOf(a, docs) && TextOf(b, docs)
    ensures a == b
  {
    forall t ensures t in a <==> t in b
    {
      if t in a { var o :| o in a[t]; assert Listed(a, t, o); }
      if t in b { var o :| o in b[t]; assert Listed(b, t, o); }
    }
    forall t | t in a ensures a[t] == b[t]
    {
      forall o ensures o in a[t] <==> o in b[t] { assert Listed(a, t, o) <==> Listed(b, t, o); }
      forall o | o in a[t] ensures a[t][o] == b[t][o] { assert Listed(a, t, o) && Listed(b, t, o); }
    }
  }

  /* ---------- adding a record ---------- */

  /** The sparse postings while a record is being entered: the terms in `left` are still to come. */
  ghost predicate SparseEntering(m: map<string, map<nat, real>>, docs: Docs, o: nat, d: Doc, left: set<string>)
  {
    && NoneEmpty(m)
    && forall t, p ::
       (Listed(m, t, p) <==> Weighs(docs, p, t) && (p != o || t !in left))
           && (Listed(m, t, p) ==> m[t][p] == docs[p].sparse[t])
  }

  method EnterTerms(m: map<string, map<nat, real>>, o: nat, d: Doc, ghost docs: Docs)
    returns (r: map<string, map<nat, real>>, squared: real)
    requires o in docs && docs[o] == d && SparseEntering(m, docs, o, d, d.sparse.Keys)
    ensures SparseEntering(r, docs, o, d, {}) && squared == SquareSum(d.sparse)
  {
    hide SparseEntering, SquareSum, Enter, Times;
    r := m;
    var left := d.sparse.Keys;
    squared := 0.0;
    NoSquares(d.sparse - left);
    while left != {}
      invariant left <= d.sparse.Keys && SparseEntering(r, docs, o, d, left) && squared == SquareSum(d.sparse - left)
      decreases |left|
    {
      var t :| t in left;
      EnterTerm(r, docs, o, d, left, t);
      SquarePush(d.sparse, left, t);
      if d.sparse[t] != 0.0 {
        r := Enter(r, t, o, d.sparse[t]);
        squared := squared + Times(d.sparse[t], d.sparse[t]);
      } else {
        TimesZero();
      }
      left := left - {t};
    }
    assert d.sparse - {} == d.sparse;
  }

  lemma EnteringStarts(m: map<string, map<nat, real>>, o: nat, d: Doc, docs: Docs)
    requires o !in docs && SparseOf(m, docs)
    ensures SparseEntering(m, docs[o := d], o, d, d.sparse.Keys)
  {
    hide NoneEmpty;
  }

  lemma EnteringEnds(m: map<string, map<nat, real>>, o: nat, d: Doc, docs: Docs)
    requires SparseEntering(m, docs, o, d, {})
    ensures SparseOf(m, docs)
  {
    hide NoneEmpty;
  }

  lemma SquaresPut(docs: Docs, o: nat, d: Doc)
    requires o !in docs
    ensures SquaresOf(docs[o := d]) == if SquareSum(d.sparse) > 0.0 then SquaresOf(docs)[o := SquareSum(d.sparse)]
            else SquaresOf(docs)
  {
    hide SquareSum;
  }

  method AddSparse(m: map<string, map<nat, real>>, squares: map<nat, real>, o: nat, d: Doc, ghost docs: Docs)
    returns (r: map<string, map<nat, real>>, norms: map<nat, real>)
    requires o !in docs && SparseOf(m, docs) && squares == SquaresOf(docs)
    ensures SparseOf(r, docs[o := d]) && norms == SquaresOf(docs[o := d])
  {
    hide SparseOf, SparseEntering, SquaresOf, SquareSum;
    ghost var after := docs[o := d];
    var squared;
    EnteringStarts(m, o, d, docs);
    r, squared := EnterTerms(m, o, d, after);
    EnteringEnds(r, o, d, after);
    SquaresPut(docs, o, d);
    norms := if squared > 0.0 then squares[o := squared] else squares;
  }

  lemma NoSquares(m: map<string, real>)
    requires m == map[]
    ensures SquareSum(m) == 0.0
  {
    assert Squares(m) == map[];
  }

  lemma SquarePush(m: map<string, real>, left: set<string>, t: string)
    requires t in left && t in m
    ensures SquareSum(m - (left - {t})) == SquareSum(m - left) + Times(m[t], m[t])
  {
    hide Times;
    assert Squares(m - (left - {t})) == Squares(m - left)[t := Times(m[t], m[t])];
    PutReal(Squares(m - left), t, Times(m[t], m[t]));
  }

  lemma EnterTerm(m: map<string, map<nat, real>>, docs: Docs, o: nat, d: Doc, left: set<string>, t: string)
    requires o in docs && docs[o] == d && t in left && t in d.sparse && SparseEntering(m, docs, o, d, left)
    ensures SparseEntering(if d.sparse[t] != 0.0 then Enter(m, t, o, d.sparse[t]) else m, docs, o, d, left - {t})
  {
    hide NoneEmpty, Enter;
    EnterKeeps(m, t, o, d.sparse[t]);
  }

  /** How often each token occurs in the first tokens of a text. */
  ghost predicate Frequencies(f: map<string, nat>, tokens: seq<string>)
  {
    forall t :: (t in f <==> t in tokens) && (t in f ==> f[t] == Count(tokens, t))
  }

  method CountTokens(tokens: seq<string>) returns (f: map<string, nat>)
    ensures Frequencies(f, tokens)
  {
    f := map[];
    for i := 0 to |tokens|
      invariant Frequencies(f, tokens[..i])
    {
      assert tokens[..i + 1][..i] == tokens[..i];
      CountPositive(tokens[..i], tokens[i]);
      f := f[tokens[i] := (if tokens[i] in f then f[tokens[i]] else 0) + 1];
    }
    assert tokens[..|tokens|] == tokens;
  }

  ghost predicate TextEntering(m: map<string, map<nat, nat>>, docs: Docs, o: nat, left: set<string>)
  {
    && NoneEmpty(m)
    && forall t, p ::
       (Listed(m, t, p) <==> Says(docs, p, t) && (p != o || t !in left))
           && (Listed(m, t, p) ==> m[t][p] == Count(docs[p].tokens, t))
  }

  lemma EnterToken(m: map<string, map<nat, nat>>, docs: Docs, o: nat, left: set<string>, t: string)
    requires o in docs && t in left && t in docs[o].tokens && TextEntering(m, docs, o, left)
    ensures TextEntering(Enter(m, t, o, Count(docs[o].tokens, t)), docs, o, left - {t})
  {
    hide NoneEmpty, Enter, Count;
    EnterKeeps(m, t, o, Count(docs[o].tokens, t));
  }

  method AddText(m: map<string, map<nat, nat>>, o: nat, d: Doc, ghost docs: Docs)
      returns (r: map<string, map<nat, nat>>)
    requires o !in docs && TextOf(m, docs)
    ensures TextOf(r, docs[o := d])
  {
    hide NoneEmpty, Enter, Count;
    ghost var after := docs[o := d];
    var f := CountTokens(d.tokens);
    r := m;
    var left := f.Keys;
    assert TextEntering(m, after, o, left);
    while left != {}
      invariant left <= f.Keys && TextEntering(r, after, o, left)
      decreases |left|
    {
      hide TextEntering;
      var t :| t in left;
      EnterToken(r, after, o, left, t);
      r := Enter(r, t, o, f[t]);
      left := left - {t};
    }
  }

  method Add(l: Index, o: nat, d: Doc, ghost docs: Docs) returns (r: Index)
    requires IndexOf(l, docs) && o !in docs
    ensures IndexOf(r, docs[o := d])
  {
    hide SparseOf, TextOf, SquaresOf, SumNats;
    var sparse, squares := AddSparse(l.sparse, l.squares, o, d, docs);
    var text := AddText(l.text, o, d, docs);
    LengthsPut(docs, o, d);
    if |d.tokens| == 0 {
      r := Index(sparse, squares, text, l.lengths, l.totalTerms);
    } else {
      PutNat(l.lengths, o, |d.tokens|);
      r := Index(sparse, squares, text, l.lengths[o := |d.tokens|], l.totalTerms + |d.tokens|);
    }
  }

  lemma LengthsPut(docs: Docs, o: nat, d: Doc)
    requires o !in docs
    ensures LengthsOf(docs[o := d]) == if d.tokens == [] then LengthsOf(docs) else LengthsOf(docs)[o := |d.tokens|]
    ensures o !in LengthsOf(docs)
  {
  }

  /* ---------- removing a record ---------- */

  ghost predicate SparseLeaving(m: map<string, map<nat, real>>, docs: Docs, o: nat, left: set<string>)
  {
    && NoneEmpty(m)
    && forall t, p ::
       (Listed(m, t, p) <==> Weighs(docs, p, t) && (p != o || t in left))
           && (Listed(m, t, p) ==> m[t][p] == docs[p].sparse[t])
  }

  lemma LeaveTerm(m: map<string, map<nat, real>>, docs: Docs, o: nat, left: set<string>, t: string)
    requires SparseLeaving(m, docs, o, left)
    ensures SparseLeaving(Leave(m, t, o), docs, o, left - {t})
  {
    hide NoneEmpty, Leave;
    LeaveKeeps(m, t, o);
  }

  method RemoveSparse(m: map<string, map<nat, real>>, o: nat, d: Doc, ghost docs: Docs)
      returns (r: map<string, map<nat, real>>)
    requires o in docs && docs[o] == d && SparseOf(m, docs)
    ensures SparseOf(r, docs - {o})
  {
    hide NoneEmpty, Leave;
    r := m;
    var left := d.sparse.Keys;
    assert SparseLeaving(m, docs, o, left);
    while left != {}
      invariant SparseLeaving(r, docs, o, left)
      decreases |left|
    {
      hide SparseLeaving;
      var t :| t in left;
      LeaveTerm(r, docs, o, left, t);
      r := Leave(r, t, o);
      left := left - {t};
    }
  }

  ghost predicate TextLeaving(m: map<string, map<nat, nat>>, docs: Docs, o: nat, gone: seq<string>)
  {
    && NoneEmpty(m)
    && forall t, p ::
       (Listed(m, t, p) <==> Says(docs, p, t) && (p != o || t !in gone))
           && (Listed(m, t, p) ==> m[t][p] == Count(docs[p].tokens, t))
  }

  lemma LeaveToken(m: map<string, map<nat, nat>>, docs: Docs, o: nat, gone: seq<string>, t: string)
    requires TextLeaving(m, docs, o, gone)
    ensures TextLeaving(Leave(m, t, o), docs, o, gone + [t])
  {
    hide NoneEmpty, Leave, Count;
    LeaveKeeps(m, t, o);
  }

  method RemoveText(m: map<string, map<nat, nat>>, o: nat, d: Doc, ghost docs: Docs)
      returns (r: map<string, map<nat, nat>>)
    requires o in docs && docs[o] == d && TextOf(m, docs)
    ensures TextOf(r, docs - {o})
  {
    hide NoneEmpty, Leave, Count;
    r := m;
    assert TextLeaving(m, docs, o, d.tokens[..0]);
    for i := 0 to |d.tokens|
      invariant TextLeaving(r, docs, o, d.tokens[..i])
    {
      hide TextLeaving;
      LeaveToken(r, docs, o, d.tokens[..i], d.tokens[i]);
      assert d.tokens[..i] + [d.tokens[i]] == d.tokens[..i + 1];
      r := Leave(r, d.tokens[i], o);
    }
    assert d.tokens[..|d.tokens|] == d.tokens;
  }

  lemma LengthsDrop(docs: Docs, o: nat)
    requires o in docs
    ensures LengthsOf(docs - {o}) == LengthsOf(docs) - {o} && SquaresOf(docs - {o}) == SquaresOf(docs) - {o}
    ensures o in LengthsOf(docs) <==> docs[o].tokens != []
    ensures o in LengthsOf(docs) ==> LengthsOf(docs)[o] == |docs[o].tokens|
  {
    hide SquareSum;
  }

  method Remove(l: Index, o: nat, d: Doc, ghost docs: Docs) returns (r: Index)
    requires IndexOf(l, docs) && o in docs && docs[o] == d
    ensures IndexOf(r, docs - {o})
  {
    hide SparseOf, TextOf, SquaresOf, LengthsOf, SumNats;
    LengthsDrop(docs, o);
    var sparse := RemoveSparse(l.sparse, o, d, docs);
    if o in l.lengths {
      TakeNat(l.lengths, o);
      var text := RemoveText(l.text, o, d, docs);
      r := Index(sparse, l.squares - {o}, text, l.lengths - {o}, l.totalTerms - l.lengths[o]);
    } else {
      SilentText(l.text, docs, o);
      assert l.lengths - {o} == l.lengths;
      r := Index(sparse, l.squares - {o}, l.text, l.lengths, l.totalTerms);
    }
  }

  lemma SilentText(m: map<string, map<nat, nat>>, docs: Docs, o: nat)
    requires TextOf(m, docs) && o in docs && docs[o].tokens == []
    ensures TextOf(m, docs - {o})
  {
    hide NoneEmpty, Count;
  }

  lemma EmptyIndex()
    ensures IndexOf(EMPTY, map[])
  {
  }

  /* ---------- sparse search ---------- */

  ghost function Products(q: map<string, real>, d: map<string, real>, terms: set<string>): map<string, real>
  {
    map t | t in q && t in d && t in terms :: Times(q[t], d[t])
  }

  /** The sparse dot product restricted to some terms. */
  ghost function Partial(q: map<string, real>, d: map<string, real>, terms: set<string>): real
  {
    SumReals(Products(q, d, terms))
  }

  ghost function Dot(q: map<string, real>, d: map<string, real>): real
  {
    Partial(q, d, q.Keys)
  }

  lemma PartialPush(q: map<string, real>, d: map<string, real>, terms: set<string>, t: string)
    requires t !in terms && t in q
    ensures Partial(q, d, terms + {t}) == Partial(q, d, terms) + if t in d then Times(q[t], d[t]) else 0.0
  {
    hide Times;
    if t in d {
      assert Products(q, d, terms + {t}) == Products(q, d, terms)[t := Times(q[t], d[t])];
      PutReal(Products(q, d, terms), t, Times(q[t], d[t]));
    } else {
      assert Products(q, d, terms + {t}) == Products(q, d, terms);
    }
  }

  function At(acc: map<nat, real>, o: nat): real
  {
    if o in acc then acc[o] else 0.0
  }

  /** After some terms of the query, every record's accumulator is its dot product over those terms. */
  ghost predicate Accumulated(acc: map<nat, real>, q: map<string, real>, docs: Docs, terms: set<string>)
  {
    && acc.Keys <= docs.Keys
    && (forall o :: o in docs ==> At(acc, o) == Partial(q, docs[o].sparse, terms))
    && (forall o :: o in acc ==> exists t :: t in docs[o].sparse && docs[o].sparse[t] != 0.0)
  }

  ghost function Gain(postings: map<nat, real>, weight: real, left: set<nat>, o: nat): real
  {
    if o in postings && o !in left then Times(weight, postings[o]) else 0.0
  }

  ghost predicate Gained(acc0: map<nat, real>, acc: map<nat, real>, postings: map<nat, real>, weight: real,
      left: set<nat>)
  {
    && acc.Keys == acc0.Keys + (postings.Keys - left)
    && forall o :: At(acc, o) == At(acc0, o) + Gain(postings, weight, left, o)
  }

  lemma GainPush(acc0: map<nat, real>, acc: map<nat, real>, postings: map<nat, real>, weight: real, left: set<nat>,
      o: nat)
    requires o in left && o in postings && Gained(acc0, acc, postings, weight, left)
    ensures Gained(acc0, acc[o := At(acc, o) + Times(weight, postings[o])], postings, weight, left - {o})
  {
    hide Times;
    var next := acc[o := At(acc, o) + Times(weight, postings[o])];
    forall p ensures At(next, p) == At(acc0, p) + Gain(postings, weight, left - {o}, p)
    {
      assert At(acc, p) == At(acc0, p) + Gain(postings, weight, left, p);
    }
  }

  /** Adds one query term to the accumulators of the records that carry it. */
  method AccumulateTerm(acc0: map<nat, real>, postings: map<nat, real>, weight: real) returns (acc: map<nat, real>)
    ensures Gained(acc0, acc, postings, weight, {})
  {
    hide Times, Gained;
    acc := acc0;
    var left := postings.Keys;
    NoGain(acc0, postings, weight);
    while left != {}
      invariant left <= postings.Keys && Gained(acc0, acc, postings, weight, left)
      decreases |left|
    {
      var o :| o in left;
      GainPush(acc0, acc, postings, weight, left, o);
      acc := acc[o := At(acc, o) + Times(weight, postings[o])];
      left := left - {o};
    }
  }

  lemma NoGain(acc: map<nat, real>, postings: map<nat, real>, weight: real)
    ensures Gained(acc, acc, postings, weight, postings.Keys)
  {
  }

  lemma AccumulatedPush(acc0: map<nat, real>, acc: map<nat, real>, q: map<string, real>, docs: Docs,
      terms: set<string>, t: string, postings: map<nat, real>)
    requires Accumulated(acc0, q, docs, terms) && t in q && t !in terms
    requires forall o :: (o in postings <==> Weighs(docs, o, t)) && (o in postings ==> postings[o] == docs[o].sparse[t])
    requires Gained(acc0, acc, postings, q[t], {})
    ensures Accumulated(acc, q, docs, terms + {t})
  {
    hide Partial;
    forall o | o in docs
        ensures At(acc, o) == Partial(q, docs[o].sparse, terms + {t}) { PartialPush(q, docs[o].sparse, terms, t); }
  }

  lemma AccumulatedZero(acc: map<nat, real>, q: map<string, real>, docs: Docs, terms: set<string>, t: string)
    requires Accumulated(acc, q, docs, terms) && t in q && t !in terms && q[t] == 0.0
    ensures Accumulated(acc, q, docs, terms + {t})
  {
    hide Partial;
    forall o | o in docs
        ensures At(acc, o) == Partial(q, docs[o].sparse, terms + {t}) { PartialPush(q, docs[o].sparse, terms, t); }
  }

  /** Term at a time: visits only records that share a query term, and leaves every accumulator at the dot product. */
  method Accumulate(l: Index, q: map<string, real>, ghost docs: Docs) returns (acc: map<nat, real>)
    requires IndexOf(l, docs)
    ensures Accumulated(acc, q, docs, q.Keys)
  {
    hide Accumulated, TextOf, SquaresOf, LengthsOf, SumNats, NoneEmpty;
    acc := map[];
    var left := q.Keys;
    NothingAccumulated(q, docs);
    while left != {}
      invariant left <= q.Keys && Accumulated(acc, q, docs, q.Keys - left)
      decreases |left|
    {
      var t :| t in left;
      assert q.Keys - (left - {t}) == q.Keys - left + {t};
      if q[t] == 0.0 {
        AccumulatedZero(acc, q, docs, q.Keys - left, t);
      } else {
        var postings := if t in l.sparse then l.sparse[t] else map[];
        assert forall o :: o in postings <==> Listed(l.sparse, t, o);
        var next := AccumulateTerm(acc, postings, q[t]);
        AccumulatedPush(acc, next, q, docs, q.Keys - left, t, postings);
        acc := next;
      }
      left := left - {t};
    }
    assert q.Keys - {} == q.Keys;
  }

  lemma NothingAccumulated(q: map<string, real>, docs: Docs)
    ensures Accumulated(map[], q, docs, q.Keys - q.Keys)
  {
    assert q.Keys - q.Keys == {};
    forall o | o in docs
        ensures Partial(q, docs[o].sparse, {}) == 0.0 { assert Products(q, docs[o].sparse, {}) == map[]; }
  }

  lemma {:induction false} SquareSumPositive(m: map<string, real>)
    ensures SquareSum(m) >= 0.0
    ensures (exists t :: t in m && m[t] != 0.0) ==> SquareSum(m) > 0.0
    decreases |m|
  {
    if m != map[] {
      hide Times;
      var t :| t in m;
      SquareSumPositive(m - {t});
      SquarePositive(m[t]);
      assert Squares(m) - {t} == Squares(m - {t});
      TakeReal(Squares(m), t);
      forall k | k in m && m[k] != 0.0 && k != t ensures k in m - {t} && (m - {t})[k] != 0.0 {}
    }
  }

  lemma {:induction false} SumZeros(m: map<string, real>)
    requires forall t :: t in m ==> m[t] == 0.0
    ensures SumReals(m) == 0.0
    decreases |m|
  {
    if m != map[] {
      var t :| t in m;
      TakeReal(m, t);
      SumZeros(m - {t});
    }
  }

  lemma ZeroQuery(q: map<string, real>, d: map<string, real>)
    requires SquareSum(q) == 0.0
    ensures Dot(q, d) == 0.0
  {
    SquareSumPositive(q);
    SumZeros(Products(q, d, q.Keys));
  }

  method SquaredNorm(q: map<string, real>) returns (squared: real)
    ensures squared == SquareSum(q)
  {
    hide SquareSum, Times;
    squared := 0.0;
    var left := q.Keys;
    NoSquares(q - left);
    while left != {}
      invariant left <= q.Keys && squared == SquareSum(q - left)
      decreases |left|
    {
      var t :| t in left;
      SquarePush(q, left, t);
      squared := squared + Times(q[t], q[t]);
      left := left - {t};
    }
    assert q - {} == q;
  }

  lemma WholeDot(q: map<string, real>, docs: Docs)
    ensures forall o :: o in docs ==> Dot(q, docs[o].sparse) == Partial(q, docs[o].sparse, q.Keys)
  {
    hide Partial;
  }

  /**
   * Sparse search before ranking: every allowed record with a nonzero dot product is reported with it, and nothing
   * else but records whose dot product is what is reported.
   */
  method SparseProducts(l: Index, q: map<string, real>, allow: nat -> bool, ghost docs: Docs)
      returns (found: map<nat, real>)
    requires IndexOf(l, docs)
    ensures forall o :: o in found ==> o in l.squares && o in docs && allow(o) && found[o] == Dot(q, docs[o].sparse)
    ensures found != map[] ==> SquareSum(q) > 0.0
    ensures forall o :: o in docs && allow(o) && Dot(q, docs[o].sparse) != 0.0 ==> o in found
  {
    hide SparseOf, TextOf, LengthsOf, SumNats, Partial, SquareSum, Dot;
    var norm := SquaredNorm(q);
    if norm == 0.0 {
      forall o | o in docs ensures Dot(q, docs[o].sparse) == 0.0 { ZeroQuery(q, docs[o].sparse); }
      return map[];
    }
    SquareSumPositive(q);
    WholeDot(q, docs);
    var acc := Accumulate(l, q, docs);
    found := map o | o in acc && o in l.squares && allow(o) :: acc[o];
    forall o | o in docs && allow(o) && Dot(q, docs[o].sparse) != 0.0 ensures o in found
    {
      assert At(acc, o) != 0.0;
      SquareSumPositive(docs[o].sparse);
    }
  }

  /* ---------- ranking ---------- */

  datatype Scored = Scored(ordinal: nat, score: real)

  /** Higher scores first, then lower ordinals. */
  predicate Ahead(a: Scored, b: Scored)
  {
    a.score > b.score || (a.score == b.score && a.ordinal < b.ordinal)
  }

  /** By falling score, and among equal scores by rising ordinal. */
  ghost predicate Ranked(s: seq<Scored>)
  {
    forall i, j :: 0 <= i < j < |s| ==>
      s[i].score > s[j].score || (s[i].score == s[j].score && s[i].ordinal < s[j].ordinal)
  }

  ghost function Ordinals(s: seq<Scored>): set<nat>
  {
    set i | 0 <= i < |s| :: s[i].ordinal
  }

  function Insert(s: seq<Scored>, x: Scored): (r: seq<Scored>)
    ensures |r| == |s| + 1
  {
    if s == [] || Ahead(s[|s| - 1], x) then s + [x] else Insert(s[..|s| - 1], x) + [s[|s| - 1]]
  }

  function Sort(s: seq<Scored>): (r: seq<Scored>)
    ensures |r| == |s|
  {
    if s == [] then [] else Insert(Sort(s[..|s| - 1]), s[|s| - 1])
  }

  lemma {:induction false} InsertHolds(s: seq<Scored>, x: Scored, y: Scored)
    ensures y in Insert(s, x) <==> y in s || y == x
    decreases |s|
  {
    if s != [] {
      var n := |s| - 1;
      InsertHolds(s[..n], x, y);
      assert s == s[..n] + [s[n]];
    }
  }

  lemma {:induction false} InsertRanks(s: seq<Scored>, x: Scored)
    requires Ranked(s) && forall y :: y in s ==> y.ordinal != x.ordinal
    ensures Ranked(Insert(s, x))
    decreases |s|
  {
    if s != [] {
      var n := |s| - 1;
      if Ahead(s[n], x) {
        forall i | 0 <= i < n ensures Ahead(s[i], x) { assert s[i].score >= s[n].score; }
      } else {
        InsertRanks(s[..n], x);
        var r := Insert(s[..n], x);
        forall i | 0 <= i < |r| ensures Ahead(r[i], s[n])
        {
          InsertHolds(s[..n], x, r[i]);
          if r[i] == x { assert s[n] in s; }
        }
      }
    }
  }

  /** Sorting results with distinct ordinals ranks exactly them. */
  lemma {:induction false} SortRanks(s: seq<Scored>)
    requires forall i, j :: 0 <= i < j < |s| ==> s[i].ordinal != s[j].ordinal
    ensures Ranked(Sort(s)) && forall y :: y in Sort(s) <==> y in s
    decreases |s|
  {
    hide Insert, Ranked;
    if s != [] {
      var n := |s| - 1;
      SortRanks(s[..n]);
      forall y | y in Sort(s[..n]) ensures y.ordinal != s[n].ordinal { var i :| 0 <= i < n && s[..n][i] == y; }
      InsertRanks(Sort(s[..n]), s[n]);
      forall y ensures y in Sort(s) <==> y in s
      {
        InsertHolds(Sort(s[..n]), s[n], y);
        assert s == s[..n] + [s[n]];
      }
    } else {
      NothingRanks();
    }
  }

  lemma NothingRanks()
    ensures Ranked([])
  {
  }

  /** Sorts and cuts; a limit of zero or less cuts nothing. */
  function TopScored(results: seq<Scored>, limit: int): seq<Scored>
  {
    var sorted := Sort(results);
    if limit > 0 && |sorted| > limit then sorted[..limit] else sorted
  }

  /**
   * `top` is ranked, taken from `all`, and above whatever it leaves out, by score or on equal scores by ordinal; it
   * leaves out nothing unless it is full.
   */
  ghost predicate Tops(top: seq<Scored>, all: set<Scored>, limit: int)
  {
    && Ranked(top) && (forall y :: y in top ==> y in all) && (limit > 0 ==> |top| <= limit)
    && forall x :: x in all && x !in top ==>
         && 0 < limit == |top|
         && forall y :: y in top ==> y.score > x.score || (y.score == x.score && y.ordinal < x.ordinal)
  }

  lemma Within(s: seq<Scored>, n: nat, j: nat)
    requires n <= |s| && j < |s|
    ensures j < n ==> s[j] in s[..n]
  {
    if j < n { assert s[..n][j] == s[j]; }
  }

  lemma TopScoredTops(results: seq<Scored>, limit: int)
    requires forall i, j :: 0 <= i < j < |results| ==> results[i].ordinal != results[j].ordinal
    ensures Tops(TopScored(results, limit), Elements(results), limit)
  {
    hide Sort;
    SortRanks(results);
    var sorted, top := Sort(results), TopScored(results, limit);
    forall x | x in results && x !in top
      ensures 0 < limit == |top|
      ensures forall y :: y in top ==> y.score > x.score || (y.score == x.score && y.ordinal < x.ordinal)
    {
      assert x in sorted;
      var j :| 0 <= j < |sorted| && sorted[j] == x;
      Within(sorted, |top|, j);
      forall y | y in top ensures y.score > x.score || (y.score == x.score && y.ordinal < x.ordinal)
      {
        var i :| 0 <= i < |top| && top[i] == y;
        assert sorted[i] == y && i < j;
      }
    }
  }

  /** Square roots of nonnegative numbers. */
  ghost predicate SquareRoot(root: real -> real)
  {
    forall x :: x >= 0.0 ==> root(x) >= 0.0 && Times(root(x), root(x)) == x
  }

  lemma RootPositive(root: real -> real, x: real)
    requires SquareRoot(root) && x > 0.0
    ensures root(x) > 0.0
  {
    hide Times;
    assert Times(root(x), root(x)) == x;
    TimesZero();
  }

  lemma NormsPositive(root: real -> real, x: real, y: real)
    requires SquareRoot(root) && x > 0.0 && y > 0.0
    ensures Times(root(x), root(y)) > 0.0
  {
    hide Times;
    RootPositive(root, x);
    RootPositive(root, y);
    TimesPositive(root(x), root(y));
  }

  /** The cosine of two sparse vectors, zero if one of them has no length. */
  ghost function Cosine(root: real -> real, q: map<string, real>, d: map<string, real>): real
  {
    var norms := Times(root(SquareSum(q)), root(SquareSum(d)));
    if norms == 0.0 then 0.0 else Over(Dot(q, d), norms)
  }

  /**
   * Score times both lengths is the dot product, the sum over the shared terms of the products of their weights; also
   * where a length is zero.
   */
  lemma CosineExact(root: real -> real, q: map<string, real>, d: map<string, real>)
    requires SquareRoot(root)
    ensures Cosine(root, q, d) * (root(SquareSum(q)) * root(SquareSum(d))) == Dot(q, d)
    ensures var terms := Products(q, d, q.Keys);
            && Dot(q, d) == SumReals(terms) && terms.Keys == q.Keys * d.Keys
            && forall t :: t in terms ==> terms[t] == q[t] * d[t]
  {
    DotTerms(q, d);
    hide SquareSum, Dot, Times, Over;
    SquareSumPositive(q);
    SquareSumPositive(d);
    var x, y := SquareSum(q), SquareSum(d);
    if x > 0.0 && y > 0.0 {
      CosineOf(root, q, d);
      OverExact(Dot(q, d), root(x), root(y));
    } else {
      if x == 0.0 { ZeroQuery(q, d); } else { ZeroRecord(q, d); }
      assert root(x) == 0.0 || root(y) == 0.0 by { RootZero(root); }
      ZeroProduct(Cosine(root, q, d), root(x), root(y));
    }
  }

  lemma DotTerms(q: map<string, real>, d: map<string, real>)
    ensures var terms := Products(q, d, q.Keys);
            && Dot(q, d) == SumReals(terms) && terms.Keys == q.Keys * d.Keys
            && forall t :: t in terms ==> terms[t] == q[t] * d[t]
  {
  }

  lemma OverExact(a: real, x: real, y: real)
    requires Times(x, y) > 0.0
    ensures Over(a, Times(x, y)) * (x * y) == a
  {
  }

  lemma RootZero(root: real -> real)
    requires SquareRoot(root)
    ensures root(0.0) == 0.0
  {
    hide Times;
    assert Times(root(0.0), root(0.0)) == 0.0;
    SquarePositive(root(0.0));
  }

  lemma ZeroProduct(a: real, x: real, y: real)
    requires x == 0.0 || y == 0.0
    ensures a * (x * y) == 0.0
  {
  }

  lemma ZeroRecord(q: map<string, real>, d: map<string, real>)
    requires SquareSum(d) == 0.0
    ensures Dot(q, d) == 0.0
  {
    SquareSumPositive(d);
    SumZeros(Products(q, d, q.Keys));
  }

  /** The allowed records that share something with the query, with their cosines. */
  ghost predicate Candidates(all: set<Scored>, root: real -> real, q: map<string, real>, allow: nat -> bool, docs: Docs)
  {
    && (forall x :: x in all ==>
       x.ordinal in docs && allow(x.ordinal) && x.score == Cosine(root, q, docs[x.ordinal].sparse))
    && forall o :: o in docs && allow(o) && Dot(q, docs[o].sparse) != 0.0 ==>
       Scored(o, Cosine(root, q, docs[o].sparse)) in all
  }

  /**
   * Sparse search: the best records by cosine, best first, at most `limit` of them if it is positive; every allowed
   * record with a nonzero product is among them or behind all of them.
   */
  method SearchSparse(l: Index, q: map<string, real>, root: real -> real, allow: nat -> bool, limit: int,
      ghost docs: Docs)
    returns (top: seq<Scored>, ghost all: set<Scored>)
    requires IndexOf(l, docs) && SquareRoot(root)
    ensures Candidates(all, root, q, allow, docs) && Tops(top, all, limit)
    ensures forall x :: x in top ==>
              && x.ordinal in docs && allow(x.ordinal)
              && x.score * (root(SquareSum(q)) * root(SquareSum(docs[x.ordinal].sparse)))
                 == Dot(q, docs[x.ordinal].sparse)
  {
    hide IndexOf, SquareSum, Dot, Tops, TopScored, SquareRoot, Cosine, Candidates, Scoring;
    var squared := SquaredNorm(q);
    var found := SparseProducts(l, q, allow, docs);
    SquaresKnown(l, docs);
    var results := ScoreAll(l, q, squared, found, root, docs);
    all := Elements(results);
    CandidatesFound(results, found, root, q, allow, docs);
    TopScoredTops(results, limit);
    top := TopScored(results, limit);
    TopCosines(top, all, limit, root, q, allow, docs);
  }

  lemma TopCosines(top: seq<Scored>, all: set<Scored>, limit: int, root: real -> real, q: map<string, real>,
      allow: nat -> bool, docs: Docs)
    requires Tops(top, all, limit) && Candidates(all, root, q, allow, docs) && SquareRoot(root)
    ensures forall x :: x in top ==>
              && x.ordinal in docs && allow(x.ordinal)
              && x.score * (root(SquareSum(q)) * root(SquareSum(docs[x.ordinal].sparse)))
                 == Dot(q, docs[x.ordinal].sparse)
  {
    hide Cosine, SquareSum, Dot, SquareRoot, Ranked;
    forall x | x in top
      ensures x.ordinal in docs && allow(x.ordinal)
              && x.score * (root(SquareSum(q)) * root(SquareSum(docs[x.ordinal].sparse)))
                 == Dot(q, docs[x.ordinal].sparse)
    {
      assert x in all;
      CosineExact(root, q, docs[x.ordinal].sparse);
    }
  }

  lemma SquaresKnown(l: Index, docs: Docs)
    requires IndexOf(l, docs)
    ensures forall o :: o in l.squares ==> o in docs && l.squares[o] == SquareSum(docs[o].sparse) > 0.0
  {
    hide SparseOf, TextOf, SquareSum;
  }

  /** Each record of `done` is scored once, with its cosine. */
  ghost predicate Scoring(results: seq<Scored>, done: set<nat>, root: real -> real, q: map<string, real>, docs: Docs)
  {
    && Ordinals(results) == done
    && (forall i, j :: 0 <= i < j < |results| ==> results[i].ordinal != results[j].ordinal)
    && forall x :: x in results ==> x.ordinal in docs && x.score == Cosine(root, q, docs[x.ordinal].sparse)
  }

  lemma ScoringStarts(root: real -> real, q: map<string, real>, docs: Docs)
    ensures Scoring([], {}, root, q, docs)
  {
    hide Cosine;
  }

  lemma ScoringPush(results: seq<Scored>, done: set<nat>, root: real -> real, q: map<string, real>, docs: Docs,
      x: Scored)
    requires Scoring(results, done, root, q, docs) && x.ordinal !in done
    requires x.ordinal in docs && x.score == Cosine(root, q, docs[x.ordinal].sparse)
    ensures Scoring(results + [x], done + {x.ordinal}, root, q, docs)
  {
    hide Cosine, Ordinals;
    OrdinalsPush(results, x);
  }

  method ScoreAll(l: Index, q: map<string, real>, squared: real, found: map<nat, real>, root: real -> real,
      ghost docs: Docs)
    returns (results: seq<Scored>)
    requires SquareRoot(root) && squared == SquareSum(q) && (found != map[] ==> squared > 0.0)
    requires forall o :: o in l.squares ==> o in docs && l.squares[o] == SquareSum(docs[o].sparse) > 0.0
    requires forall o :: o in found ==> o in l.squares && found[o] == Dot(q, docs[o].sparse)
    ensures Scoring(results, found.Keys, root, q, docs)
  {
    hide SquareSum, Dot, Times, Over, SquareRoot, Cosine, Scoring;
    results := [];
    var left := found.Keys;
    ScoringStarts(root, q, docs);
    assert found.Keys - left == {};
    while left != {}
      invariant left <= found.Keys && Scoring(results, found.Keys - left, root, q, docs)
      decreases |left|
    {
      var o :| o in left;
      CosineOf(root, q, docs[o].sparse);
      var x := Scored(o, Over(found[o], Times(root(squared), root(l.squares[o]))));
      ScoringPush(results, found.Keys - left, root, q, docs, x);
      assert found.Keys - left + {o} == found.Keys - (left - {o});
      results := results + [x];
      left := left - {o};
    }
    assert found.Keys - left == found.Keys;
  }

  lemma CosineOf(root: real -> real, q: map<string, real>, d: map<string, real>)
    requires SquareRoot(root) && SquareSum(q) > 0.0 && SquareSum(d) > 0.0
    ensures var norms := Times(root(SquareSum(q)), root(SquareSum(d)));
            norms > 0.0 && Cosine(root, q, d) == Over(Dot(q, d), norms)
  {
    hide SquareRoot, Dot, SquareSum, Times, Over;
    NormsPositive(root, SquareSum(q), SquareSum(d));
  }

  lemma OrdinalsPush(s: seq<Scored>, x: Scored)
    ensures Ordinals(s + [x]) == Ordinals(s) + {x.ordinal}
    ensures forall i :: 0 <= i < |s| ==> s[i].ordinal in Ordinals(s)
  {
    var r := s + [x];
    forall o ensures o in Ordinals(r) <==> o in Ordinals(s) || o == x.ordinal
    {
      assert r[|s|] == x;
      if o in Ordinals(s) { var i :| 0 <= i < |s| && s[i].ordinal == o; assert r[i] == s[i]; }
    }
  }

  lemma CandidatesFound(results: seq<Scored>, found: map<nat, real>, root: real -> real, q: map<string, real>,
      allow: nat -> bool, docs: Docs)
    requires Scoring(results, found.Keys, root, q, docs) && forall o :: o in found ==> o in docs && allow(o)
    requires forall o :: o in docs && allow(o) && Dot(q, docs[o].sparse) != 0.0 ==> o in found
    ensures Candidates(Elements(results), root, q, allow, docs)
    ensures forall i, j :: 0 <= i < j < |results| ==> results[i].ordinal != results[j].ordinal
  {
    hide Cosine, Dot;
    forall x | x in results ensures x.ordinal in found
    {
      var i :| 0 <= i < |results| && results[i] == x;
      assert results[i].ordinal in Ordinals(results);
    }
    forall o | o in docs && allow(o) && Dot(q, docs[o].sparse) != 0.0
        ensures Scored(o, Cosine(root, q, docs[o].sparse)) in results
    {
      assert o in Ordinals(results);
      var i :| 0 <= i < |results| && results[i].ordinal == o;
      assert results[i] in results;
    }
  }
}
