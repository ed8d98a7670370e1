/** Merging the result lists of the shards into the k best: a bounded heap with the worst result at its root. */
module TopK {
  import opened Strings

  datatype Result = Result(score: real, id: string, body: string)

  /** A lower score is worse; among equal scores the later identifier is. */
  predicate Worse(a: Result, b: Result)
  {
    a.score < b.score || (a.score == b.score && Less(b.id, a.id))
  }

  lemma WorseAsymmetric(a: Result, b: Result)
    ensures Worse(a, b) ==> !Worse(b, a)
  {
    if Less(a.id, b.id) && Less(b.id, a.id) {
      LessTransitive(a.id, b.id, a.id);
      LessIrreflexive(a.id);
    }
  }

  lemma WorseTransitive(a: Result, b: Result, c: Result)
    requires Worse(a, b) && Worse(b, c)
    ensures Worse(a, c)
  {
    if a.score == b.score == c.score { LessTransitive(c.id, b.id, a.id); }
  }

  lemma NotWorseTransitive(a: Result, b: Result, c: Result)
    requires !Worse(a, b) && !Worse(b, c)
    ensures !Worse(a, c)
  {
    if Worse(a, c) {
      if Worse(b, a) {
        WorseTransitive(b, a, c);
      } else if Worse(c, b) {
        WorseTransitive(a, c, b);
      } else {
        Tied(a, b);
        Tied(b, c);
      }
    }
  }

  lemma Tied(a: Result, b: Result)
    requires !Worse(a, b) && !Worse(b, a)
    ensures a.score == b.score && a.id == b.id
  {
    if a.id != b.id && !Less(a.id, b.id) { LessTotal(b.id, a.id); }
  }

  /* ---------- the heap ---------- */

  predicate HeapAt(s: seq<Result>, i: nat)
    requires 0 < i < |s|
  {
    !Worse(s[i], s[(i - 1) / 2])
  }

  /** No result is worse than its parent. */
  predicate Heap(s: seq<Result>)
  {
    forall i :: 0 < i < |s| ==> HeapAt(s, i)
  }

  lemma {:induction false} RootWorst(s: seq<Result>, i: nat)
    requires Heap(s) && i < |s|
    ensures !Worse(s[i], s[0])
    decreases i
  {
    if i == 0 {
      WorseAsymmetric(s[0], s[0]);
    } else {
      RootWorst(s, (i - 1) / 2);
      assert HeapAt(s, i);
      NotWorseTransitive(s[i], s[(i - 1) / 2], s[0]);
    }
  }

  function Swapped(s: seq<Result>, i: nat, j: nat): (t: seq<Result>)
    requires i < |s| && j < |s|
    ensures |t| == |s|
  {
    s[i := s[j]][j := s[i]]
  }

  lemma SwappedSame(s: seq<Result>, i: nat, j: nat)
    requires i < |s| && j < |s|
    ensures multiset(Swapped(s, i, j)) == multiset(s)
  {
  }

  method SwapIn(a: array<Result>, n: nat, i: nat, j: nat)
    requires i < n <= a.Length && j < n
    modifies a
    ensures a[..n] == Swapped(old(a[..n]), i, j) && multiset(a[..n]) == multiset(old(a[..n]))
  {
    SwappedSame(a[..n], i, j);
    a[i], a[j] := a[j], a[i];
  }

  /** A heap but for the result at `p`, which may be worse than its parent. */
  predicate HeapAbove(s: seq<Result>, p: nat)
  {
    && p < |s|
    && (forall i :: 0 < i < |s| && i != p ==> HeapAt(s, i))
    && (forall i :: 0 < i < |s| && 0 < p == (i - 1) / 2 ==> !Worse(s[i], s[(p - 1) / 2]))
  }

  lemma SiftUpStep(s: seq<Result>, p: nat)
    requires HeapAbove(s, p) && 0 < p && Worse(s[p], s[(p - 1) / 2])
    ensures HeapAbove(Swapped(s, p, (p - 1) / 2), (p - 1) / 2)
  {
    var q := (p - 1) / 2;
    var t := Swapped(s, p, q);
    forall i | 0 < i < |t| && i != q ensures HeapAt(t, i)
    {
      assert i != p ==> HeapAt(s, i);
      WorseAsymmetric(s[p], s[q]);
      if i != p && (i - 1) / 2 == q { NotWorseTransitive(s[i], s[q], s[p]); }
    }
    forall i | 0 < i < |t| && 0 < q == (i - 1) / 2 ensures !Worse(t[i], t[(q - 1) / 2])
    {
      assert HeapAt(s, q);
      if i != p {
        assert HeapAt(s, i);
        NotWorseTransitive(s[i], s[q], s[(q - 1) / 2]);
      }
    }
  }

  lemma SiftUpDone(s: seq<Result>, p: nat)
    requires HeapAbove(s, p) && (p == 0 || !Worse(s[p], s[(p - 1) / 2]))
    ensures Heap(s)
  {
    forall i | 0 < i < |s| ensures HeapAt(s, i) {}
  }

  /** Puts a result behind the heap and lets it rise while it is worse than its parent. */
  method Push(a: array<Result>, n: nat, x: Result)
    requires n < a.Length && Heap(a[..n])
    modifies a
    ensures Heap(a[..n + 1]) && multiset(a[..n + 1]) == multiset(old(a[..n])) + multiset{x}
  {
    hide Heap, HeapAbove, Worse;
    PushedAbove(a[..n], x);
    a[n] := x;
    var position := n;
    assert a[..n + 1] == old(a[..n]) + [x];
    while position > 0
      invariant position <= n && HeapAbove(a[..n + 1], position)
      invariant multiset(a[..n + 1]) == multiset(old(a[..n])) + multiset{x}
    {
      var parent := (position - 1) / 2;
      ghost var s := a[..n + 1];
      if !Worse(a[position], a[parent]) { break; }
      SiftUpStep(s, position);
      SwapIn(a, n + 1, position, parent);
      position := parent;
    }
    SiftUpDone(a[..n + 1], position);
  }

  lemma PushedAbove(s: seq<Result>, x: Result)
    requires Heap(s)
    ensures HeapAbove(s + [x], |s|)
  {
    forall i | 0 < i < |s| ensures HeapAt(s + [x], i) { assert HeapAt(s, i); }
  }

  /** A heap but for the result at `p`, which may be better than its children. */
  predicate HeapBelow(s: seq<Result>, p: nat)
  {
    && (forall i :: 0 < i < |s| && (i - 1) / 2 != p ==> HeapAt(s, i))
    && (forall i :: 0 < i < |s| && 0 < p == (i - 1) / 2 ==> !Worse(s[i], s[(p - 1) / 2]))
  }

  lemma SiftDownStep(s: seq<Result>, p: nat, c: nat)
    requires HeapBelow(s, p) && p < c < |s| && (c - 1) / 2 == p && Worse(s[c], s[p])
    requires forall i :: 0 < i < |s| && (i - 1) / 2 == p ==> !Worse(s[i], s[c])
    ensures HeapBelow(Swapped(s, p, c), c)
  {
    var t := Swapped(s, p, c);
    forall i | 0 < i < |t| && (i - 1) / 2 != c ensures HeapAt(t, i)
    {
      if (i - 1) / 2 == p {
        WorseAsymmetric(s[c], s[p]);
      } else {
        assert HeapAt(s, i);
      }
    }
    forall i | 0 < i < |t| && 0 < c == (i - 1) / 2 ensures !Worse(t[i], t[(c - 1) / 2])
    {
      assert HeapAt(s, i);
    }
  }

  lemma SiftDownDone(s: seq<Result>, p: nat)
    requires HeapBelow(s, p) && forall i :: 0 < i < |s| && (i - 1) / 2 == p ==> !Worse(s[i], s[p])
    ensures Heap(s)
  {
    forall i | 0 < i < |s| ensures HeapAt(s, i) {}
  }

  /** Lets the root sink while one of its children is worse. */
  method FixRoot(a: array<Result>, n: nat)
    requires 0 < n <= a.Length && HeapBelow(a[..n], 0)
    modifies a
    ensures Heap(a[..n]) && multiset(a[..n]) == multiset(old(a[..n]))
  {
    hide Heap, HeapBelow, Worse;
    var position := 0;
    while true
      invariant position < n && HeapBelow(a[..n], position) && multiset(a[..n]) == multiset(old(a[..n]))
      decreases n - position
    {
      ghost var s := a[..n];
      var left := position * 2 + 1;
      if left >= n {
        SiftDownDone(s, position);
        return;
      }
      var worst := left;
      if left + 1 < n && Worse(a[left + 1], a[left]) { worst := left + 1; }
      WorstChild(s, position, left, worst);
      if !Worse(a[worst], a[position]) {
        ChildrenFine(s, position, worst);
        SiftDownDone(s, position);
        return;
      }
      SiftDownStep(s, position, worst);
      SwapIn(a, n, position, worst);
      position := worst;
    }
  }

  lemma WorstChild(s: seq<Result>, p: nat, left: nat, worst: nat)
    requires left == 2 * p + 1 < |s|
    requires worst == if left + 1 < |s| && Worse(s[left + 1], s[left]) then left + 1 else left
    ensures worst < |s| && (worst - 1) / 2 == p
    ensures forall i :: 0 < i < |s| && (i - 1) / 2 == p ==> !Worse(s[i], s[worst])
  {
    forall i | 0 < i < |s| && (i - 1) / 2 == p ensures !Worse(s[i], s[worst])
    {
      assert i == left || i == left + 1;
      WorseAsymmetric(s[i], s[worst]);
      WorseAsymmetric(s[i], s[i]);
    }
  }

  lemma ChildrenFine(s: seq<Result>, p: nat, worst: nat)
    requires p < |s| && worst < |s| && !Worse(s[worst], s[p])
    requires forall i :: 0 < i < |s| && (i - 1) / 2 == p ==> !Worse(s[i], s[worst])
    ensures forall i :: 0 < i < |s| && (i - 1) / 2 == p ==> !Worse(s[i], s[p])
  {
    forall i | 0 < i < |s| && (i - 1) / 2 == p ensures !Worse(s[i], s[p]) { NotWorseTransitive(s[i], s[worst], s[p]); }
  }

  /* ---------- insertion sort, best first ---------- */

  predicate BestFirst(s: seq<Result>)
  {
    forall i, j :: 0 <= i < j < |s| ==> !Worse(s[i], s[j])
  }

  /** By falling score, and among equal scores by rising identifier. */
  ghost predicate Ranked(s: seq<Result>)
  {
    forall i, j :: 0 <= i < j < |s| ==>
      s[i].score >= s[j].score && (s[i].score == s[j].score ==> !Less(s[j].id, s[i].id))
  }

  lemma BestFirstRanked(s: seq<Result>)
    ensures BestFirst(s) <==> Ranked(s)
  {
    if Ranked(s) {
      forall i, j | 0 <= i < j < |s| ensures !Worse(s[i], s[j]) { assert s[i].score >= s[j].score; }
    } else {
      var i, j :| 0 <= i < j < |s|
          && !(s[i].score >= s[j].score && (s[i].score == s[j].score ==> !Less(s[j].id, s[i].id)));
      assert Worse(s[i], s[j]);
    }
  }

  function Inserted(s: seq<Result>, i: nat, x: Result): (t: seq<Result>)
    requires i <= |s|
    ensures |t| == |s| + 1
  {
    s[..i] + [x] + s[i..]
  }

  lemma InsertedSame(s: seq<Result>, i: nat, x: Result)
    requires i <= |s|
    ensures multiset(Inserted(s, i, x)) == multiset(s) + multiset{x}
  {
    assert s == s[..i] + s[i..];
  }

  lemma InsertedSorted(s: seq<Result>, i: nat, x: Result)
    requires BestFirst(s) && i <= |s|
    requires forall k :: i <= k < |s| ==> Worse(s[k], x)
    requires i > 0 ==> !Worse(s[i - 1], x)
    ensures BestFirst(Inserted(s, i, x))
  {
    var t := Inserted(s, i, x);
    forall a, b | 0 <= a < b < |t| ensures !Worse(t[a], t[b])
    {
      if a == i {
        WorseAsymmetric(s[b - 1], x);
      } else if b == i && a < i - 1 {
        NotWorseTransitive(s[a], s[i - 1], x);
      }
    }
  }

  /** Sorts the first `n` results in place. */
  method SortResults(a: array<Result>, n: nat)
    requires n <= a.Length
    modifies a
    ensures BestFirst(a[..n]) && Ranked(a[..n]) && multiset(a[..n]) == multiset(old(a[..n]))
  {
    hide Worse, Ranked, BestFirst;
    OneRanked(a[..Min(n, 1)]);
    var position := 1;
    while position < n
      invariant 0 < position && (n > 0 ==> position <= n)
      invariant n > 0 ==> BestFirst(a[..position])
      invariant multiset(a[..n]) == multiset(old(a[..n]))
    {
      InsertAt(a, position, n);
      position := position + 1;
    }
    BestFirstRanked(a[..n]);
  }

  lemma OneRanked(s: seq<Result>)
    requires |s| <= 1
    ensures BestFirst(s)
  {
  }

  /** Everything worse than `x` in front of `position` has moved up by one, which leaves a gap at `insert`. */
  ghost predicate Opened(was: seq<Result>, now: seq<Result>, position: nat, insert: nat, x: Result)
  {
    && insert <= position < |was| == |now|
    && (forall k :: 0 <= k < insert ==> now[k] == was[k])
    && (forall k :: insert < k <= position ==> now[k] == was[k - 1])
    && (forall k :: insert <= k < position ==> Worse(was[k], x))
    && (forall k :: position < k < |was| ==> now[k] == was[k])
  }

  lemma OpenedMore(was: seq<Result>, now: seq<Result>, position: nat, insert: nat, x: Result)
    requires 0 < insert && Opened(was, now, position, insert, x) && Worse(now[insert - 1], x)
    ensures Opened(was, now[insert := now[insert - 1]], position, insert - 1, x)
  {
    hide Worse;
  }

  lemma Dropped(was: seq<Result>, now: seq<Result>, position: nat, insert: nat, x: Result)
    requires Opened(was, now, position, insert, x) && x == was[position] && BestFirst(was[..position])
    requires insert > 0 ==> !Worse(now[insert - 1], x)
    ensures BestFirst(now[insert := x][..position + 1]) && multiset(now[insert := x]) == multiset(was)
  {
    hide Worse, BestFirst;
    InsertedSorted(was[..position], insert, x);
    InsertedWithin(was, now[insert := x], position, insert, x);
  }

  method Write(a: array<Result>, n: nat, i: nat, x: Result)
    requires i < n <= a.Length
    modifies a
    ensures a[..n] == old(a[..n])[i := x]
  {
    a[i] := x;
  }

  /** Moves results worse than the one at `position` up by one. */
  method Shift(a: array<Result>, position: nat, n: nat, result: Result) returns (insert: nat)
    requires position < n <= a.Length && a[position] == result
    modifies a
    ensures Opened(old(a[..n]), a[..n], position, insert, result)
    ensures insert > 0 ==> !Worse(a[insert - 1], result)
  {
    hide Worse, Opened;
    insert := position;
    OpenedFirst(a[..n], position, result);
    OpenedBound(a[..n], a[..n], position, insert, result);
    while insert > 0 && Worse(a[insert - 1], result)
      invariant 0 <= insert <= position && Opened(old(a[..n]), a[..n], position, insert, result)
    {
      OpenedMore(old(a[..n]), a[..n], position, insert, result);
      Write(a, n, insert, a[insert - 1]);
      insert := insert - 1;
    }
  }

  lemma OpenedBound(was: seq<Result>, now: seq<Result>, position: nat, insert: nat, x: Result)
    requires Opened(was, now, position, insert, x)
    ensures insert <= position < |now| == |was|
  {
    hide Worse;
  }

  /** Inserts the result at `position` among the sorted ones in front of it. */
  method InsertAt(a: array<Result>, position: nat, n: nat)
    requires 0 < position < n <= a.Length && BestFirst(a[..position])
    modifies a
    ensures BestFirst(a[..position + 1]) && multiset(a[..n]) == multiset(old(a[..n]))
  {
    hide BestFirst, Worse, Opened;
    assert old(a[..n])[..position] == old(a[..position]);
    var result := a[position];
    var insert := Shift(a, position, n, result);
    OpenedBound(old(a[..n]), a[..n], position, insert, result);
    Dropped(old(a[..n]), a[..n], position, insert, result);
    Write(a, n, insert, result);
    assert a[..position + 1] == a[..n][..position + 1];
  }

  lemma OpenedFirst(was: seq<Result>, position: nat, x: Result)
    requires position < |was|
    ensures Opened(was, was, position, position, x)
  {
  }

  lemma InsertedWithin(was: seq<Result>, now: seq<Result>, position: nat, insert: nat, x: Result)
    requires insert <= position < |was| == |now| && x == was[position] == now[insert]
    requires forall k :: 0 <= k < insert ==> now[k] == was[k]
    requires forall k :: insert < k <= position ==> now[k] == was[k - 1]
    requires forall k :: position < k < |was| ==> now[k] == was[k]
    ensures now[..position + 1] == Inserted(was[..position], insert, x) && multiset(now) == multiset(was)
  {
    InsertedSame(was[..position], insert, x);
    assert was == was[..position] + [x] + was[position + 1..];
    assert now[..position + 1] == Inserted(was[..position], insert, x);
    assert now == now[..position + 1] + was[position + 1..];
  }

  /* ---------- the merge ---------- */

  function Min(a: nat, b: nat): nat
  {
    if a < b then a else b
  }

  /** The best `k` of `all`: nothing left out beats anything kept. */
  ghost predicate Best(top: multiset<Result>, all: multiset<Result>, k: nat)
  {
    && top <= all && |top| == Min(k, |all|)
    && forall x, d :: x in top && d in all - top ==> !Worse(x, d)
  }

  /** Whatever is left out has a lower score than everything kept, or the same score and no earlier identifier. */
  ghost predicate Outranks(top: multiset<Result>, all: multiset<Result>)
  {
    forall x, d :: x in top && d in all - top ==>
      x.score >= d.score && (x.score == d.score ==> !Less(d.id, x.id))
  }

  lemma BestOutranks(top: multiset<Result>, all: multiset<Result>, k: nat)
    ensures Best(top, all, k) <==> top <= all && |top| == Min(k, |all|) && Outranks(top, all)
  {
    if top <= all && |top| == Min(k, |all|) && Outranks(top, all) {
      forall x, d | x in top && d in all - top ensures !Worse(x, d) { assert x.score >= d.score; }
    }
    if Best(top, all, k) {
      forall x, d | x in top && d in all - top
        ensures x.score >= d.score && (x.score == d.score ==> !Less(d.id, x.id))
      {
        assert !Worse(x, d);
      }
    }
  }

  ghost function Total(lists: seq<seq<Result>>): multiset<Result>
  {
    if lists == [] then multiset{} else Total(lists[..|lists| - 1]) + multiset(lists[|lists| - 1])
  }

  lemma BestGrows(top: multiset<Result>, all: multiset<Result>, k: nat, x: Result)
    requires Best(top, all, k) && |top| < k
    ensures Best(top + multiset{x}, all + multiset{x}, k)
  {
    WholeKept(top, all);
  }

  lemma WholeKept(top: multiset<Result>, all: multiset<Result>)
    requires top <= all && |top| == |all|
    ensures top == all
  {
    assert all == top + (all - top);
    assert |all - top| == 0;
  }

  lemma BestDrops(top: multiset<Result>, all: multiset<Result>, k: nat, worst: Result, x: Result)
    requires Best(top, all, k) && |top| == k && worst in top && !Worse(worst, x)
    requires forall y :: y in top ==> !Worse(y, worst)
    ensures Best(top, all + multiset{x}, k)
  {
    forall y, d | y in top && d in all + multiset{x} - top ensures !Worse(y, d)
    {
      if d == x { NotWorseTransitive(y, worst, x); }
      assert d != x ==> d in all - top;
    }
  }

  lemma BestReplaces(top: multiset<Result>, all: multiset<Result>, k: nat, worst: Result, x: Result)
    requires Best(top, all, k) && |top| == k && worst in top && Worse(worst, x)
    requires forall y :: y in top ==> !Worse(y, worst)
    ensures Best(top - multiset{worst} + multiset{x}, all + multiset{x}, k)
  {
    var next := top - multiset{worst} + multiset{x};
    forall y, d | y in next && d in all + multiset{x} - next ensures !Worse(y, d)
    {
      assert d == worst || d in all - top;
      WorseAsymmetric(worst, x);
      if y == x && d != worst {
        if Worse(x, d) { WorseTransitive(worst, x, d); }
      }
    }
  }

  method MergeTopK(lists: seq<seq<Result>>, k: nat) returns (top: seq<Result>)
    requires k > 0
    ensures BestFirst(top) && Best(multiset(top), Total(lists), k)
    ensures Ranked(top) && Outranks(multiset(top), Total(lists))
  {
    hide Best, BestFirst, Ranked, Outranks;
    var a := new Result[k](_ => Result(0.0, "", ""));
    var n: nat := 0;
    NothingBest(k);
    assert a[..0] == [];
    for i := 0 to |lists|
      invariant n <= k && Heap(a[..n]) && Best(multiset(a[..n]), Total(lists[..i]), k) && fresh(a)
    {
      n := MergeList(a, n, k, lists[i], Total(lists[..i]));
      assert lists[..i + 1][..i] == lists[..i];
    }
    assert lists[..|lists|] == lists;
    SortResults(a, n);
    top := a[..n];
    BestOutranks(multiset(top), Total(lists), k);
  }

  lemma NothingBest(k: nat)
    ensures Best(multiset{}, multiset{}, k) && Heap([])
  {
  }

  method MergeList(a: array<Result>, n0: nat, k: nat, list: seq<Result>, ghost before: multiset<Result>)
      returns (n: nat)
    requires 0 < k == a.Length && n0 <= k && Heap(a[..n0]) && Best(multiset(a[..n0]), before, k)
    modifies a
    ensures n <= k && Heap(a[..n]) && Best(multiset(a[..n]), before + multiset(list), k)
  {
    hide Best, Heap;
    n := n0;
    assert before + multiset(list[..0]) == before;
    for j := 0 to |list|
      invariant n <= k && Heap(a[..n]) && Best(multiset(a[..n]), before + multiset(list[..j]), k)
    {
      assert list[..j + 1] == list[..j] + [list[j]];
      assert before + multiset(list[..j + 1]) == before + multiset(list[..j]) + multiset{list[j]};
      n := Offer(a, n, k, list[j], before + multiset(list[..j]));
    }
    assert list[..|list|] == list;
  }

  /** One result: pushed while there is room, otherwise exchanged for the root if it beats it. */
  method Offer(a: array<Result>, n0: nat, k: nat, x: Result, ghost all: multiset<Result>) returns (n: nat)
    requires 0 < k == a.Length && n0 <= k && Heap(a[..n0]) && Best(multiset(a[..n0]), all, k)
    modifies a
    ensures n <= k && Heap(a[..n]) && Best(multiset(a[..n]), all + multiset{x}, k)
  {
    hide Best, Heap, Worse;
    if n0 < k {
      BestGrows(multiset(a[..n0]), all, k, x);
      Push(a, n0, x);
      return n0 + 1;
    }
    n := k;
    ghost var s := a[..k];
    var worst := a[0];
    RootsWorst(s);
    if Worse(worst, x) {
      BestReplaces(multiset(s), all, k, worst, x);
      NewRoot(s, x);
      a[0] := x;
      assert a[..k] == s[0 := x];
      FixRoot(a, k);
    } else {
      BestDrops(multiset(s), all, k, worst, x);
    }
  }

  lemma RootsWorst(s: seq<Result>)
    requires Heap(s) && s != []
    ensures s[0] in multiset(s) && forall y :: y in multiset(s) ==> !Worse(y, s[0])
  {
    forall y | y in multiset(s) ensures !Worse(y, s[0])
    {
      var i :| 0 <= i < |s| && s[i] == y;
      RootWorst(s, i);
    }
  }

  lemma NewRoot(s: seq<Result>, x: Result)
    requires Heap(s) && s != []
    ensures HeapBelow(s[0 := x], 0) && multiset(s[0 := x]) == multiset(s) - multiset{s[0]} + multiset{x}
  {
    var t := s[0 := x];
    forall i | 0 < i < |t| && (i - 1) / 2 != 0 ensures HeapAt(t, i) { assert HeapAt(s, i); }
  }

  /* ---------- merging per-shard bests ---------- */

  ghost function Sum(sets: seq<multiset<Result>>): multiset<Result>
  {
    if sets == [] then multiset{} else Sum(sets[..|sets| - 1]) + sets[|sets| - 1]
  }

  /** Every shard hands in its own k best. */
  ghost predicate HandedIn(lists: seq<seq<Result>>, shards: seq<multiset<Result>>, k: nat)
  {
    |lists| == |shards| && forall i :: 0 <= i < |lists| ==> Best(multiset(lists[i]), shards[i], k)
  }

  /** Anything a shard kept back is beaten or tied by every result of a full list that was handed in. */
  ghost predicate Covered(d: Result, lists: seq<seq<Result>>, k: nat, i: nat)
  {
    i < |lists| && |lists[i]| == k && multiset(lists[i]) <= Total(lists) && forall y :: y in lists[i] ==> !Worse(y, d)
  }

  lemma {:induction false} PartInTotal(lists: seq<seq<Result>>, i: nat)
    requires i < |lists|
    ensures multiset(lists[i]) <= Total(lists)
    decreases |lists|
  {
    if i < |lists| - 1 {
      PartInTotal(lists[..|lists| - 1], i);
    }
  }

  lemma {:induction false} TotalWithin(lists: seq<seq<Result>>, shards: seq<multiset<Result>>, k: nat)
    requires HandedIn(lists, shards, k)
    ensures Total(lists) <= Sum(shards) && Min(k, |Total(lists)|) == Min(k, |Sum(shards)|)
    decreases |lists|
  {
    if lists != [] {
      var n := |lists| - 1;
      TotalWithin(lists[..n], shards[..n], k);
      assert Best(multiset(lists[n]), shards[n], k);
      assert |multiset(lists[n])| == |lists[n]|;
    }
  }

  lemma {:induction false} KeptBack(lists: seq<seq<Result>>, shards: seq<multiset<Result>>, k: nat, d: Result)
    requires HandedIn(lists, shards, k) && d in Sum(shards) - Total(lists)
    ensures exists i :: 0 <= i < |lists| && d in shards[i] - multiset(lists[i])
    decreases |lists|
  {
    var n := |lists| - 1;
    assert lists != [];
    TotalWithin(lists[..n], shards[..n], k);
    if d !in shards[n] - multiset(lists[n]) {
      assert Best(multiset(lists[n]), shards[n], k);
      assert d in Sum(shards[..n]) - Total(lists[..n]);
      KeptBack(lists[..n], shards[..n], k, d);
      var i :| 0 <= i < n && d in shards[..n][i] - multiset(lists[..n][i]);
      assert d in shards[i] - multiset(lists[i]);
    }
  }

  lemma BackCovered(lists: seq<seq<Result>>, shards: seq<multiset<Result>>, k: nat, i: nat, d: Result)
    requires HandedIn(lists, shards, k) && i < |lists| && d in shards[i] - multiset(lists[i])
    ensures Covered(d, lists, k, i)
  {
    PartInTotal(lists, i);
    var mine := multiset(lists[i]);
    assert Best(mine, shards[i], k);
    assert |shards[i]| == |mine| + |shards[i] - mine| && |shards[i] - mine| > 0;
    assert |mine| == |lists[i]|;
    forall y | y in lists[i] ensures !Worse(y, d) { assert y in mine; }
  }

  lemma CoveredBeaten(top: multiset<Result>, lists: seq<seq<Result>>, k: nat, i: nat, x: Result, d: Result)
    requires Best(top, Total(lists), k) && Covered(d, lists, k, i) && x in top
    ensures !Worse(x, d)
  {
    var mine := multiset(lists[i]);
    assert |mine| == k;
    if mine == top {
      assert x in lists[i];
    } else {
      assert |top| <= k;
      SomeoneLeft(mine, top);
      var y :| y in mine - top;
      assert y in Total(lists) - top && y in lists[i];
      NotWorseTransitive(x, y, d);
    }
  }

  lemma SomeoneLeft(mine: multiset<Result>, top: multiset<Result>)
    requires mine != top && |top| <= |mine|
    ensures exists y :: y in mine - top
  {
    if !(exists y :: y in mine - top) { AllInside(mine, top); }
  }

  lemma AllInside(mine: multiset<Result>, top: multiset<Result>)
    requires |top| <= |mine| && forall y :: y !in mine - top
    ensures mine == top
  {
    forall y ensures mine[y] <= top[y] { assert y !in mine - top; }
    assert top == mine + (top - mine);
    assert |top - mine| == 0;
  }

  /** The k best of the handed-in lists are the k best of everything the shards hold. */
  lemma ShardBestsSuffice(lists: seq<seq<Result>>, shards: seq<multiset<Result>>, k: nat, top: multiset<Result>)
    requires HandedIn(lists, shards, k) && Best(top, Total(lists), k)
    ensures Best(top, Sum(shards), k)
  {
    TotalWithin(lists, shards, k);
    forall x, d | x in top && d in Sum(shards) - top ensures !Worse(x, d)
    {
      if d !in Total(lists) - top {
        assert d in Sum(shards) - Total(lists);
        KeptBack(lists, shards, k, d);
        var i :| 0 <= i < |lists| && d in shards[i] - multiset(lists[i]);
        BackCovered(lists, shards, k, i, d);
        CoveredBeaten(top, lists, k, i, x, d);
      }
    }
  }
}
