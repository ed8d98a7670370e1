/** Dense ordinal bitmaps: 64-bit words, each given by the positions of its one bits. */
module Bitmaps {
  const WORD: nat := 64

  type Word = set<nat>

  datatype Bitmap = Bitmap(words: seq<Word>, count: nat)

  ghost predicate Fits(words: seq<Word>)
  {
    forall i, b :: 0 <= i < |words| && b in words[i] ==> b < WORD
  }

  predicate Holds(words: seq<Word>, id: nat)
  {
    id / WORD < |words| && id % WORD in words[id / WORD]
  }

  /** The ordinals a list of words stands for. */
  ghost function IdsOf(words: seq<Word>): set<nat>
  {
    set id: nat | id < WORD * |words| && Holds(words, id)
  }

  ghost function Ids(s: Bitmap): set<nat>
  {
    IdsOf(s.words)
  }

  ghost predicate Good(s: Bitmap)
  {
    Fits(s.words) && s.count == |Ids(s)|
  }

  lemma IdsAre(words: seq<Word>, id: nat)
    ensures id in IdsOf(words) <==> Holds(words, id)
  {
  }

  /* ---------- counting ---------- */

  function OnesCount(words: seq<Word>): nat
  {
    if words == [] then 0 else OnesCount(words[..|words| - 1]) + |words[|words| - 1]|
  }

  ghost function Shifted(w: Word, base: nat): set<nat>
  {
    set b | b in w :: base + b
  }

  lemma {:induction false} ShiftedSize(w: Word, base: nat)
    ensures |Shifted(w, base)| == |w|
    decreases |w|
  {
    if w != {} {
      var b :| b in w;
      ShiftedSize(w - {b}, base);
      var rest := Shifted(w - {b}, base);
      forall x ensures x in Shifted(w, base) <==> x in rest + {base + b}
      {
        if x in Shifted(w, base) && x != base + b {
          var c :| c in w && x == base + c;
          assert c in w - {b};
        }
      }
      assert Shifted(w, base) == rest + {base + b};
      assert base + b !in rest;
    }
  }

  lemma HoldsInit(words: seq<Word>, id: nat)
    requires words != [] && Fits(words)
    ensures Holds(words, id) <==>
            Holds(words[..|words| - 1], id) || id in Shifted(words[|words| - 1], WORD * (|words| - 1))
  {
    var n := |words| - 1;
    if Holds(words, id) && id / WORD == n { assert id == WORD * n + id % WORD; }
    if id in Shifted(words[n], WORD * n) {
      var b :| b in words[n] && id == WORD * n + b;
      assert id / WORD == n && id % WORD == b;
    }
  }

  /** Adding up the one bits of the words counts the ordinals. */
  lemma {:induction false} CountOnes(words: seq<Word>)
    requires Fits(words)
    ensures OnesCount(words) == |IdsOf(words)|
    decreases |words|
  {
    if words == [] {
      assert IdsOf(words) == {};
    } else {
      var n := |words| - 1;
      CountOnes(words[..n]);
      ShiftedSize(words[n], WORD * n);
      var low, high := IdsOf(words[..n]), Shifted(words[n], WORD * n);
      forall id: nat ensures id in IdsOf(words) <==> id in low || id in high
      {
        HoldsInit(words, id);
        IdsAre(words, id);
        IdsAre(words[..n], id);
      }
      assert IdsOf(words) == low + high;
      assert low !! high;
    }
  }

  method Recount(words: seq<Word>) returns (count: nat)
    requires Fits(words)
    ensures count == |IdsOf(words)|
  {
    count := 0;
    for i := 0 to |words|
      invariant count == OnesCount(words[..i])
    {
      assert words[..i + 1][..i] == words[..i];
      count := count + |words[i]|;
    }
    assert words[..|words|] == words;
    CountOnes(words);
  }

  /* ---------- single ordinals ---------- */

  function Empty(maxId: nat): (s: Bitmap)
    ensures Good(s) && Ids(s) == {}
  {
    var s := Bitmap(seq(maxId / WORD + 1, _ => {}), 0);
    assert Ids(s) == {};
    s
  }

  function Padded(words: seq<Word>, n: nat): (r: seq<Word>)
    ensures Fits(words) ==> Fits(r)
    ensures |r| >= n && |r| >= |words| && IdsOf(r) == IdsOf(words)
  {
    var r := if |words| < n then words + seq(n - |words|, _ => {}) else words;
    assert forall id: nat :: Holds(r, id) <==> Holds(words, id);
    r
  }

  predicate Contains(s: Bitmap, id: nat)
    ensures Contains(s, id) <==> id in Ids(s)
  {
    IdsAre(s.words, id);
    Holds(s.words, id)
  }

  lemma SetBit(words: seq<Word>, id: nat, w: Word)
    requires Fits(words) && id / WORD < |words| && (w == words[id / WORD] + {id % WORD}
             || w == words[id / WORD] - {id % WORD})
    ensures Fits(words[id / WORD := w])
    ensures IdsOf(words[id / WORD := w]) == if id % WORD in w then IdsOf(words) + {id} else IdsOf(words) - {id}
  {
    var after := words[id / WORD := w];
    forall k: nat ensures Holds(after, k) <==> if k == id then id % WORD in w else Holds(words, k)
    {
      if k != id && k / WORD == id / WORD { assert k % WORD != id % WORD; }
    }
    IdsAre(words, id);
  }

  method Add(s: Bitmap, id: nat) returns (r: Bitmap)
    requires Good(s)
    ensures Good(r) && Ids(r) == Ids(s) + {id}
  {
    hide Fits, IdsOf;
    var word := id / WORD;
    var words := Padded(s.words, word + 1);
    IdsAre(words, id);
    SetBit(words, id, words[word] + {id % WORD});
    if id % WORD in words[word] { return Bitmap(words, s.count); }
    r := Bitmap(words[word := words[word] + {id % WORD}], s.count + 1);
  }

  method Remove(s: Bitmap, id: nat) returns (r: Bitmap)
    requires Good(s)
    ensures Good(r) && Ids(r) == Ids(s) - {id}
  {
    hide Fits, IdsOf;
    IdsAre(s.words, id);
    var word := id / WORD;
    if word >= |s.words| { return s; }
    SetBit(s.words, id, s.words[word] - {id % WORD});
    if id % WORD !in s.words[word] { return s; }
    r := Bitmap(s.words[word := s.words[word] - {id % WORD}], s.count - 1);
  }

  /* ---------- whole bitmaps ---------- */

  method Union(a: Bitmap, b: Bitmap) returns (r: Bitmap)
    requires Good(a) && Good(b)
    ensures Good(r) && Ids(r) == Ids(a) + Ids(b)
  {
    var words := Padded(a.words, |b.words|);
    ghost var start := words;
    for i := 0 to |b.words|
      invariant |words| == |start| && forall k :: 0 <= k < |words| ==>
                words[k] == if k < i then start[k] + b.words[k] else start[k]
    {
      words := words[i := words[i] + b.words[i]];
    }
    var count := Recount(words);
    r := Bitmap(words, count);
    UnionIds(start, b.words, words);
  }

  lemma UnionIds(a: seq<Word>, b: seq<Word>, r: seq<Word>)
    requires |b| <= |a| == |r| && forall k :: 0 <= k < |r| ==> r[k] == if k < |b| then a[k] + b[k] else a[k]
    ensures IdsOf(r) == IdsOf(a) + IdsOf(b)
  {
    forall id: nat ensures Holds(r, id) <==> Holds(a, id) || Holds(b, id) {}
  }

  method Intersect(a: Bitmap, b: Bitmap) returns (r: Bitmap)
    requires Good(a) && Good(b)
    ensures Good(r) && Ids(r) == Ids(a) * Ids(b)
  {
    var length := if |a.words| < |b.words| then |a.words| else |b.words|;
    var words: seq<Word> := [];
    for i := 0 to length
      invariant |words| == i && forall k :: 0 <= k < i ==> words[k] == a.words[k] * b.words[k]
    {
      words := words + [a.words[i] * b.words[i]];
    }
    var count := Recount(words);
    r := Bitmap(words, count);
    IntersectIds(a.words, b.words, words);
  }

  lemma IntersectIds(a: seq<Word>, b: seq<Word>, r: seq<Word>)
    requires |r| <= |a| && |r| <= |b| && (|r| == |a| || |r| == |b|) && forall k :: 0 <= k < |r| ==> r[k] == a[k] * b[k]
    ensures IdsOf(r) == IdsOf(a) * IdsOf(b)
  {
    forall id: nat ensures Holds(r, id) <==> Holds(a, id) && Holds(b, id) {}
  }

  method Difference(a: Bitmap, b: Bitmap) returns (r: Bitmap)
    requires Good(a) && Good(b)
    ensures Good(r) && Ids(r) == Ids(a) - Ids(b)
  {
    var words := a.words;
    var length := if |a.words| < |b.words| then |a.words| else |b.words|;
    for i := 0 to length
      invariant |words| == |a.words| && forall k :: 0 <= k < |words| ==>
                words[k] == if k < i then a.words[k] - b.words[k] else a.words[k]
    {
      words := words[i := words[i] - b.words[i]];
    }
    var count := Recount(words);
    r := Bitmap(words, count);
    DifferenceIds(a.words, b.words, words);
  }

  lemma DifferenceIds(a: seq<Word>, b: seq<Word>, r: seq<Word>)
    requires |r| == |a| && forall k :: 0 <= k < |r| ==> r[k] == if k < |b| then a[k] - b[k] else a[k]
    ensures IdsOf(r) == IdsOf(a) - IdsOf(b)
  {
    forall id: nat ensures Holds(r, id) <==> Holds(a, id) && !Holds(b, id) {}
  }

  /* ---------- listing ---------- */

  predicate Ascending(ids: seq<nat>)
  {
    forall i, j :: 0 <= i < j < |ids| ==> ids[i] < ids[j]
  }

  /** The position of the lowest one bit. */
  method TrailingZeros(w: Word) returns (low: nat)
    requires w != {}
    ensures low in w && forall b :: b in w ==> low <= b
  {
    low :| low in w;
    var left := w - {low};
    while left != {}
      invariant low in w && left <= w && forall b :: b in w ==> b in left || low <= b
      decreases |left|
    {
      var b :| b in left;
      if b < low { low := b; }
      left := left - {b};
    }
  }

  /** Word by word, lowest bit first: the ordinals in increasing order, each once. */
  method ListIds(s: Bitmap) returns (ids: seq<nat>)
    requires Good(s)
    ensures Ascending(ids) && forall id: nat :: id in ids <==> id in Ids(s)
  {
    ids := [];
    for word := 0 to |s.words|
      invariant Ascending(ids) && forall id: nat :: id in ids <==> Holds(s.words, id) && id / WORD < word
    {
      var value := s.words[word];
      while value != {}
        invariant Ascending(ids) && value <= s.words[word]
        invariant forall id: nat :: id in ids <==>
                  Holds(s.words, id) && (id / WORD < word || (id / WORD == word && id % WORD !in value))
        invariant forall id: nat, b: nat :: id in ids && id / WORD == word && b in value ==> id % WORD < b
        decreases |value|
      {
        var position := TrailingZeros(value);
        var id := WORD * word + position;
        assert position < WORD && id / WORD == word && id % WORD == position;
        forall i | 0 <= i < |ids| ensures ids[i] < id
        {
          assert ids[i] in ids;
          Below(ids[i], id);
        }
        ids := ids + [id];
        value := value - {position};
      }
    }
    forall id: nat ensures id in ids <==> id in Ids(s) { IdsAre(s.words, id); }
  }

  lemma Below(x: nat, y: nat)
    requires x / WORD < y / WORD || (x / WORD == y / WORD && x % WORD < y % WORD)
    ensures x < y
  {
  }
}
