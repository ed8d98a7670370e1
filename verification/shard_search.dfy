/**
 * Searching a shard: the active segment and the base are searched apart, the base without what the active segment or a
 * tombstone shadows, and the two lists are joined, sorted and cut.
 */
module ShardSearch {
  import opened Records
  import opened ShardLayers
  import opened TopK

  /** What a query makes of a record, and whether its namespace and filter let the record through. */
  datatype Query = Query(rank: Record -> Result, allow: Record -> bool)

  ghost function Hit(r: Record, q: Query): multiset<Result>
  {
    if q.allow(r) then multiset{q.rank(r)} else multiset{}
  }

  /** The results of scanning every record. */
  ghost function Hits(m: Live, q: Query): multiset<Result>
    decreases |m|
  {
    if m == map[] then multiset{} else var k :| k in m; Hits(m - {k}, q) + Hit(m[k], q)
  }

  lemma DropShrinks(m: Live, k: Key)
    requires k in m
    ensures |m - {k}| < |m|
  {
    DropSize(m, k);
  }

  /** The scan may start with any record. */
  lemma {:induction false} HitsDrop(m: Live, x: Key, q: Query)
    requires x in m
    ensures Hits(m, q) == Hits(m - {x}, q) + Hit(m[x], q)
    decreases |m|
  {
    hide Hit;
    var k :| k in m && Hits(m, q) == Hits(m - {k}, q) + Hit(m[k], q);
    if k != x {
      DropShrinks(m, k);
      DropShrinks(m, x);
      HitsDrop(m - {k}, x, q);
      HitsDrop(m - {x}, k, q);
      assert m - {k} - {x} == m - {x} - {k};
    }
  }

  lemma NoHits(q: Query)
    ensures Hits(map[], q) == multiset{}
  {
  }

  lemma JoinDrop(a: Live, b: Live, k: Key)
    requires a.Keys !! b.Keys && k in b
    ensures k in a + b && (a + b)[k] == b[k] && (a + b) - {k} == a + (b - {k})
  {
  }

  /** Two disjoint layers are scanned like one map. */
  lemma {:induction false} HitsJoin(a: Live, b: Live, q: Query)
    requires a.Keys !! b.Keys
    ensures Hits(a + b, q) == Hits(a, q) + Hits(b, q)
    decreases |b|
  {
    hide Hit, Hits;
    if b == map[] {
      assert a + b == a;
      NoHits(q);
    } else {
      var k :| k in b;
      DropShrinks(b, k);
      HitsJoin(a, b - {k}, q);
      HitsDrop(b, k, q);
      JoinDrop(a, b, k);
      HitsDrop(a + b, k, q);
    }
  }

  /** The base records that are searched. */
  function Unshadowed(l: Layers): Live
  {
    BaseOf(l) - (l.active.Keys + l.tombstones)
  }

  /** Active segment and unshadowed base together are what a reader sees, each record once. */
  lemma LayersSplit(l: Layers, q: Query)
    ensures Hits(Seen(l), q) == Hits(l.active, q) + Hits(Unshadowed(l), q)
  {
    assert Seen(l) == Unshadowed(l) + l.active;
    HitsJoin(Unshadowed(l), l.active, q);
  }

  lemma CutParts(s: seq<Result>, n: nat)
    requires n <= |s|
    ensures multiset(s[..n]) <= multiset(s) && multiset(s) - multiset(s[..n]) == multiset(s[n..])
    ensures |multiset(s[..n])| == n && |multiset(s)| == |s|
  {
    assert s == s[..n] + s[n..];
  }

  lemma CutBeats(s: seq<Result>, n: nat, x: Result, d: Result)
    requires BestFirst(s) && n <= |s| && x in s[..n] && d in s[n..]
    ensures !Worse(x, d)
  {
    hide Worse;
    var i :| 0 <= i < n && s[..n][i] == x;
    var j :| 0 <= j < |s| - n && s[n..][j] == d;
    assert s[i] == x && s[n + j] == d;
  }

  /** The first `k` of a sorted list are its best. */
  lemma CutBest(s: seq<Result>, k: nat)
    requires BestFirst(s)
    ensures Best(multiset(s[..Min(k, |s|)]), multiset(s), k)
  {
    hide Worse, BestFirst;
    var n := Min(k, |s|);
    CutParts(s, n);
    forall x, d | x in multiset(s[..n]) && d in multiset(s) - multiset(s[..n]) ensures !Worse(x, d)
    {
      CutBeats(s, n, x, d);
    }
  }

  /** `found` are the k best a segment has for the query, in any order. */
  ghost predicate Finds(found: seq<Result>, m: Live, q: Query, k: nat)
  {
    Best(multiset(found), Hits(m, q), k)
  }

  lemma TwoLists(a: seq<Result>, b: seq<Result>, x: multiset<Result>, y: multiset<Result>)
    ensures Total([a, b]) == multiset(a + b) && Sum([x, y]) == x + y
  {
    assert [a, b][..1] == [a] && [a][..0] == [] && [x, y][..1] == [x] && [x][..0] == [];
    assert Total([a]) == multiset(a) && Sum([x]) == x;
  }

  /** The k best of two lists, each the k best of its layer, are the k best of everything a reader sees. */
  lemma JoinedBest(l: Layers, q: Query, k: nat, active: seq<Result>, base: seq<Result>, sorted: seq<Result>)
    requires Finds(active, l.active, q, k) && Finds(base, Unshadowed(l), q, k)
    requires BestFirst(sorted) && multiset(sorted) == multiset(active + base)
    ensures Best(multiset(sorted[..Min(k, |sorted|)]), Hits(Seen(l), q), k)
  {
    hide Best, Hits, BestFirst;
    CutBest(sorted, k);
    LayersSplit(l, q);
    var lists, shards := [active, base], [Hits(l.active, q), Hits(Unshadowed(l), q)];
    TwoLists(active, base, shards[0], shards[1]);
    ShardBestsSuffice(lists, shards, k, multiset(sorted[..Min(k, |sorted|)]));
  }

  /**
   * Joins the results of the two segments, sorts them and cuts at `k`: the k best of the visible records, best first. A
   * shard without a base has nothing to join.
   */
  method SearchShard(ghost l: Layers, ghost q: Query, k: nat, active: seq<Result>, base: seq<Result>)
      returns (top: seq<Result>)
    requires Finds(active, l.active, q, k) && Finds(base, Unshadowed(l), q, k)
    ensures BestFirst(top) && Best(multiset(top), Hits(Seen(l), q), k)
    ensures Ranked(top) && Outranks(multiset(top), Hits(Seen(l), q))
  {
    hide Best, Hits, BestFirst, Finds, Ranked, Outranks;
    var results := active + base;
    var a := new Result[|results|](i requires 0 <= i < |results| => results[i]);
    assert a[..|results|] == results;
    SortResults(a, |results|);
    ghost var sorted := a[..|results|];
    JoinedBest(l, q, k, active, base, sorted);
    top := a[..Min(k, |results|)];
    assert top == sorted[..Min(k, |sorted|)];
    CutSorted(sorted, Min(k, |sorted|));
    BestFirstRanked(top);
    BestOutranks(multiset(top), Hits(Seen(l), q), k);
  }

  lemma CutSorted(s: seq<Result>, n: nat)
    requires BestFirst(s) && n <= |s|
    ensures BestFirst(s[..n])
  {
  }
}
