/** Rendezvous placement: every shard is owned by the members with the highest scores. */
module Placement {
  import opened Strings
  import opened Collections
  import opened RaftSpec

  const MAX_CAPACITY: nat := 256

  /** The hash of a collection, a shard, a node and one of the node's tickets, compared as a number. */
  type Hash = (string, nat, string, nat) -> nat

  datatype Slot = Slot(collection: string, shard: nat)

  /** Node identifiers and their capacities: all that placement may depend on. */
  type Members = map<string, nat>

  ghost predicate Capable(m: Members)
  {
    forall id :: id in m ==> 0 < m[id] <= MAX_CAPACITY
  }

  function Score(h: Hash, s: Slot, id: string, capacity: nat): nat
    requires capacity > 0
  {
    var ticket := h(s.collection, s.shard, id, capacity - 1);
    if capacity == 1 then ticket else var best := Score(h, s, id, capacity - 1); if ticket > best then ticket else best
  }

  lemma {:induction false} ScoreGrows(h: Hash, s: Slot, id: string, low: nat, high: nat)
    requires 0 < low <= high
    ensures Score(h, s, id, low) <= Score(h, s, id, high)
    decreases high
  {
    if low < high { ScoreGrows(h, s, id, low, high - 1); }
  }

  /** `best` is the highest of the first `capacity` tickets. */
  ghost predicate Highest(h: Hash, s: Slot, id: string, capacity: nat, best: nat)
  {
    && (exists t: nat :: t < capacity && best == h(s.collection, s.shard, id, t))
    && forall t: nat :: t < capacity ==> h(s.collection, s.shard, id, t) <= best
  }

  /** The best ticket of a node: one of its tickets, and none is higher. */
  method NodeScore(h: Hash, s: Slot, id: string, capacity: nat) returns (best: nat)
    requires capacity > 0
    ensures best == Score(h, s, id, capacity) && Highest(h, s, id, capacity, best)
  {
    best := h(s.collection, s.shard, id, 0);
    for ticket := 1 to capacity
      invariant best == Score(h, s, id, ticket) && Highest(h, s, id, ticket, best)
    {
      var score := h(s.collection, s.shard, id, ticket);
      if score > best { best := score; }
    }
  }

  /** Higher score first, then the smaller identifier. */
  ghost predicate Better(h: Hash, m: Members, s: Slot, a: string, b: string)
    requires a in m && b in m && Capable(m)
  {
    var x, y := Score(h, s, a, m[a]), Score(h, s, b, m[b]);
    x > y || (x == y && Less(a, b))
  }

  lemma BetterAsymmetric(h: Hash, m: Members, s: Slot, a: string, b: string)
    requires a in m && b in m && Capable(m) && Better(h, m, s, a, b)
    ensures !Better(h, m, s, b, a)
  {
    if Less(a, b) && Less(b, a) {
      LessTransitive(a, b, a);
      LessIrreflexive(a);
    }
  }

  /* ---------- the order of the members ---------- */

  /** All members, best first. */
  ghost predicate IsOrder(h: Hash, m: Members, s: Slot, order: seq<string>)
    requires Capable(m)
  {
    && (forall i :: 0 <= i < |order| ==> order[i] in m)
    && (forall id :: id in m ==> id in order)
    && (forall i, j :: 0 <= i < j < |order| ==> Better(h, m, s, order[i], order[j]))
  }

  lemma OrderDistinct(h: Hash, m: Members, s: Slot, order: seq<string>)
    requires Capable(m) && IsOrder(h, m, s, order)
    ensures Distinct(order)
  {
    forall i, j | 0 <= i < j < |order| ensures order[i] != order[j]
    {
      if order[i] == order[j] { BetterAsymmetric(h, m, s, order[i], order[j]); }
    }
  }

  lemma LaterThan(a: seq<string>, b: seq<string>, n: nat, j: nat)
    requires n < |a| && n <= |b| && a[..n] == b[..n] && j < |b| && b[j] == a[n]
    requires forall i, k :: 0 <= i < k < |a| ==> a[i] != a[k]
    ensures n <= j
  {
    forall i | 0 <= i < n ensures a[i] == b[i] { assert a[..n][i] == b[..n][i]; }
  }

  lemma NextSame(h: Hash, m: Members, s: Slot, a: seq<string>, b: seq<string>, n: nat)
    requires Capable(m) && IsOrder(h, m, s, a) && IsOrder(h, m, s, b) && n < |a| && n <= |b| && a[..n] == b[..n]
    ensures n < |b| && a[n] == b[n]
  {
    hide Better, Capable;
    OrderDistinct(h, m, s, a);
    OrderDistinct(h, m, s, b);
    assert a[n] in b;
    var j :| 0 <= j < |b| && b[j] == a[n];
    LaterThan(a, b, n, j);
    assert b[n] in a;
    var i :| 0 <= i < |a| && a[i] == b[n];
    LaterThan(b, a, n, i);
    if j > n && i > n { BetterAsymmetric(h, m, s, a[n], b[n]); }
  }

  /** There is only one order, so placement depends on the members alone. */
  lemma {:induction false} OrderUnique(h: Hash, m: Members, s: Slot, a: seq<string>, b: seq<string>, n: nat)
    requires Capable(m) && IsOrder(h, m, s, a) && IsOrder(h, m, s, b) && n <= |a|
    ensures n <= |b| && a[..n] == b[..n]
    decreases n
  {
    hide IsOrder, Capable;
    if n > 0 {
      OrderUnique(h, m, s, a, b, n - 1);
      NextSame(h, m, s, a, b, n - 1);
      assert a[..n] == a[..n - 1] + [a[n - 1]] && b[..n] == b[..n - 1] + [b[n - 1]];
    }
  }

  /** The first `k` of the order. */
  ghost predicate Places(h: Hash, m: Members, s: Slot, k: nat, replicas: seq<string>)
    requires Capable(m)
  {
    exists order :: IsOrder(h, m, s, order) && k <= |order| && replicas == order[..k]
  }

  lemma PlacesUnique(h: Hash, m: Members, s: Slot, k: nat, a: seq<string>, b: seq<string>)
    requires Capable(m) && Places(h, m, s, k, a) && Places(h, m, s, k, b)
    ensures a == b
  {
    var x :| IsOrder(h, m, s, x) && k <= |x| && a == x[..k];
    var y :| IsOrder(h, m, s, y) && k <= |y| && b == y[..k];
    OrderUnique(h, m, s, x, y, k);
  }

  /* ---------- capacity changes ---------- */

  lemma RaisedStaysBetter(h: Hash, m: Members, s: Slot, x: string, capacity: nat, a: string, b: string)
    requires Capable(m) && x in m && m[x] <= capacity <= MAX_CAPACITY && a in m && b in m && b != x
    requires Better(h, m, s, a, b)
    ensures Better(h, m[x := capacity], s, a, b)
  {
    if a == x { ScoreGrows(h, s, x, m[x], capacity); }
  }

  lemma InTake(order: seq<string>, k: nat, j: nat)
    requires k <= |order| && j < |order|
    ensures j < k ==> order[j] in order[..k]
  {
    if j < k { assert order[..k][j] == order[j]; }
  }

  lemma BetterComesFirst(h: Hash, m: Members, s: Slot, order: seq<string>, a: string, j: nat)
    requires Capable(m) && IsOrder(h, m, s, order) && j < |order| && a in m && Better(h, m, s, a, order[j])
    ensures a in order[..j]
  {
    var i :| 0 <= i < |order| && order[i] == a;
    BetterAsymmetric(h, m, s, a, order[j]);
    InTake(order, j, i);
  }

  lemma ChosenBeats(h: Hash, m: Members, s: Slot, order: seq<string>, k: nat, a: string, b: string)
    requires Capable(m) && IsOrder(h, m, s, order) && k <= |order| && a in order[..k] && b in m && b !in order[..k]
    ensures a in m && Better(h, m, s, a, b)
  {
    var i :| 0 <= i < k && order[i] == a;
    var j :| 0 <= j < |order| && order[j] == b;
    InTake(order, k, j);
  }

  /**
   * Minimal movement: raising a node's capacity brings in no node but that one; read backwards, lowering it drops no
   * other.
   */
  lemma RaiseAddsOnlyIt(h: Hash, m: Members, s: Slot, k: nat, x: string, capacity: nat, before: seq<string>,
      after: seq<string>)
    requires Capable(m) && x in m && m[x] <= capacity <= MAX_CAPACITY
    requires Places(h, m, s, k, before) && Places(h, m[x := capacity], s, k, after)
    ensures Elements(after) - Elements(before) <= {x}
  {
    var old1 :| IsOrder(h, m, s, old1) && k <= |old1| && before == old1[..k];
    var new1 :| IsOrder(h, m[x := capacity], s, new1) && k <= |new1| && after == new1[..k];
    forall y | y in after && y !in before && y != x ensures false
    {
      NoNewcomer(h, m, s, k, x, capacity, old1, new1, y);
    }
  }

  lemma NoNewcomer(h: Hash, m: Members, s: Slot, k: nat, x: string, capacity: nat, before: seq<string>,
      after: seq<string>, y: string)
    requires Capable(m) && x in m && m[x] <= capacity <= MAX_CAPACITY && y != x
    requires IsOrder(h, m, s, before) && IsOrder(h, m[x := capacity], s, after) && k <= |before| && k <= |after|
    requires y in m && y !in before[..k]
    ensures y !in after[..k]
  {
    if y in after[..k] {
      var j :| 0 <= j < k && after[j] == y;
      forall z | z in before[..k] ensures z in after[..j]
      {
        ChosenBeats(h, m, s, before, k, z, y);
        RaisedStaysBetter(h, m, s, x, capacity, z, y);
        BetterComesFirst(h, m[x := capacity], s, after, z, j);
      }
      OrderDistinct(h, m, s, before);
      OrderDistinct(h, m[x := capacity], s, after);
      DistinctSize(before[..k]);
      DistinctSize(after[..j]);
      SubsetSize(Elements(before[..k]), Elements(after[..j]));
    }
  }

  lemma LowerRemovesOnlyIt(h: Hash, m: Members, s: Slot, k: nat, x: string, capacity: nat, before: seq<string>,
      after: seq<string>)
    requires Capable(m) && x in m && 0 < capacity <= m[x]
    requires Places(h, m, s, k, before) && Places(h, m[x := capacity], s, k, after)
    ensures Elements(before) - Elements(after) <= {x}
  {
    assert m[x := capacity][x := m[x]] == m;
    RaiseAddsOnlyIt(h, m[x := capacity], s, k, x, m[x], after, before);
  }

  /* ---------- gathering the members ---------- */

  datatype Peer = Peer(id: string, address: string, capacity: nat, healthy: bool)

  datatype Node = Node(id: string, address: string, capacity: nat, healthy: bool, local: bool)

  datatype Config = Config(name: string, shardCount: nat, valid: bool)

  function CapacityOf(p: Peer): nat
  {
    if p.capacity == 0 then 1 else p.capacity
  }

  /** The members a node knows: itself and its discovered peers; a peer not yet identified is skipped. */
  function MembersOf(local: string, capacity: nat, peers: seq<Peer>): Members
  {
    if peers == [] then map[local := capacity]
    else
      var last := peers[|peers| - 1];
      var rest := MembersOf(local, capacity, peers[..|peers| - 1]);
      if last.id == "" then rest else rest[last.id := CapacityOf(last)]
  }

  predicate PeerFine(p: Peer)
  {
    ValidNodeId(p.id) && p.address != "" && CapacityOf(p) <= MAX_CAPACITY
  }

  predicate PeersFine(local: string, capacity: nat, peers: seq<Peer>)
  {
    peers == [] ||
    var last := peers[|peers| - 1];
    var init := peers[..|peers| - 1];
    PeersFine(local, capacity, init) && (last.id == "" || (PeerFine(last)
        && last.id !in MembersOf(local, capacity, init)))
  }

  /**
   * Neither the order of the peers nor their health matters: the members are the node itself and the identified peers.
   */
  lemma {:induction false} MembersExact(local: string, capacity: nat, peers: seq<Peer>, id: string)
    requires PeersFine(local, capacity, peers)
    ensures id in MembersOf(local, capacity, peers) <==>
            id == local || exists i :: 0 <= i < |peers| && peers[i].id == id && id != ""
    ensures local in MembersOf(local, capacity, peers) && MembersOf(local, capacity, peers)[local] == capacity
    ensures forall i :: 0 <= i < |peers| && peers[i].id != "" ==>
              peers[i].id in MembersOf(local, capacity, peers)
                  && MembersOf(local, capacity, peers)[peers[i].id] == CapacityOf(peers[i])
    decreases |peers|
  {
    if peers != [] {
      var n := |peers| - 1;
      MembersExact(local, capacity, peers[..n], id);
      if id != local && id in MembersOf(local, capacity, peers[..n]) {
        var i :| 0 <= i < n && peers[..n][i].id == id && id != "";
        assert peers[i].id == id;
      }
    }
  }

  lemma {:induction false} PeersFinePrefix(local: string, capacity: nat, peers: seq<Peer>, i: nat)
    requires i <= |peers| && PeersFine(local, capacity, peers)
    ensures PeersFine(local, capacity, peers[..i])
    decreases |peers|
  {
    if i < |peers| {
      PeersFinePrefix(local, capacity, peers[..|peers| - 1], i);
      assert peers[..|peers| - 1][..i] == peers[..i];
    } else {
      assert peers[..i] == peers;
    }
  }

  lemma {:induction false} MembersCapable(local: string, capacity: nat, peers: seq<Peer>)
    requires PeersFine(local, capacity, peers) && 0 < capacity <= MAX_CAPACITY
    ensures Capable(MembersOf(local, capacity, peers))
    decreases |peers|
  {
    if peers != [] { MembersCapable(local, capacity, peers[..|peers| - 1]); }
  }

  /** The node list of a table: the members in identifier order. */
  ghost predicate Lists(nodes: seq<Node>, m: Members)
  {
    && (forall i :: 0 <= i < |nodes| ==> nodes[i].id in m && m[nodes[i].id] == nodes[i].capacity)
    && (forall id :: id in m ==> exists i :: 0 <= i < |nodes| && nodes[i].id == id)
    && IdsAscend(nodes)
  }

  function Splice<T>(list: seq<T>, i: nat, x: T): (r: seq<T>)
    requires i <= |list|
    ensures |r| == |list| + 1 && r[i] == x
  {
    list[..i] + [x] + list[i..]
  }

  lemma SpliceAt<T>(list: seq<T>, i: nat, x: T, k: nat)
    requires i <= |list| && k <= |list|
    ensures k < i ==> Splice(list, i, x)[k] == list[k]
    ensures k > i ==> Splice(list, i, x)[k] == list[k - 1]
  {
  }

  lemma SpliceHolds<T>(list: seq<T>, i: nat, x: T, k: nat)
    requires i <= |list| && k < |list|
    ensures exists j :: 0 <= j < |Splice(list, i, x)| && Splice(list, i, x)[j] == list[k]
  {
    assert Splice(list, i, x)[if k < i then k else k + 1] == list[k];
  }

  ghost predicate IdsAscend(nodes: seq<Node>)
  {
    forall i, j :: 0 <= i < j < |nodes| ==> Less(nodes[i].id, nodes[j].id)
  }

  lemma SplicedAscends(nodes: seq<Node>, i: nat, x: Node)
    requires IdsAscend(nodes) && i <= |nodes|
    requires forall k :: i <= k < |nodes| ==> Less(x.id, nodes[k].id)
    requires i > 0 ==> Less(nodes[i - 1].id, x.id)
    ensures IdsAscend(Splice(nodes, i, x))
  {
    hide Less, Splice;
    var r := Splice(nodes, i, x);
    forall a, b | 0 <= a < b < |r| ensures Less(r[a].id, r[b].id)
    {
      SpliceAt(nodes, i, x, a);
      SpliceAt(nodes, i, x, b);
      if b == i && a < i - 1 { LessTransitive(nodes[a].id, nodes[i - 1].id, x.id); }
    }
  }

  lemma PlacedNode(nodes: seq<Node>, m: Members, i: nat, x: Node)
    requires Lists(nodes, m) && x.id !in m && i <= |nodes|
    requires forall k :: i <= k < |nodes| ==> Less(x.id, nodes[k].id)
    requires i > 0 ==> !Less(x.id, nodes[i - 1].id)
    ensures Lists(Splice(nodes, i, x), m[x.id := x.capacity])
  {
    hide Less, Splice;
    var r := Splice(nodes, i, x);
    if i > 0 { LessTotal(nodes[i - 1].id, x.id); }
    SplicedAscends(nodes, i, x);
    forall k | 0 <= k < |r| ensures r[k].id in m[x.id := x.capacity] && m[x.id := x.capacity][r[k].id] == r[k].capacity
    {
      SpliceAt(nodes, i, x, k);
    }
    forall id | id in m ensures exists k :: 0 <= k < |r| && r[k].id == id
    {
      var k :| 0 <= k < |nodes| && nodes[k].id == id;
      SpliceHolds(nodes, i, x, k);
    }
    assert r[i].id == x.id;
  }

  method PlaceNode(nodes: seq<Node>, x: Node, ghost m: Members) returns (r: seq<Node>)
    requires Lists(nodes, m) && x.id !in m
    ensures Lists(r, m[x.id := x.capacity])
  {
    hide Lists;
    var i := |nodes|;
    while i > 0 && Less(x.id, nodes[i - 1].id)
      invariant 0 <= i <= |nodes| && forall k :: i <= k < |nodes| ==> Less(x.id, nodes[k].id)
    {
      i := i - 1;
    }
    r := Splice(nodes, i, x);
    PlacedNode(nodes, m, i, x);
  }

  method GatherNodes(epoch: nat, local: string, address: string, capacity: nat, peers: seq<Peer>)
      returns (r: Option<seq<Node>>)
    ensures r.Some? <==>
            epoch > 0 && ValidNodeId(local) && address != "" && 0 < capacity <= MAX_CAPACITY
                && PeersFine(local, capacity, peers)
    ensures r.Some? ==> Lists(r.value, MembersOf(local, capacity, peers))
  {
    hide ValidNodeId, Lists;
    if epoch == 0 || !ValidNodeId(local) || address == "" || capacity < 1 || capacity > MAX_CAPACITY { return None; }
    var nodes := [Node(local, address, capacity, true, true)];
    var seen := {local};
    OneNode(nodes[0]);
    for i := 0 to |peers|
      invariant PeersFine(local, capacity, peers[..i]) && seen == MembersOf(local, capacity, peers[..i]).Keys
      invariant Lists(nodes, MembersOf(local, capacity, peers[..i]))
    {
      var p := peers[i];
      assert peers[..i + 1][..i] == peers[..i];
      if p.id != "" {
        if PeersFine(local, capacity, peers) { PeersFinePrefix(local, capacity, peers, i + 1); }
        if !ValidNodeId(p.id) || p.address == "" { return None; }
        if p.id in seen { return None; }
        if CapacityOf(p) > MAX_CAPACITY { return None; }
        seen := seen + {p.id};
        nodes := PlaceNode(nodes, Node(p.id, p.address, CapacityOf(p), p.healthy, false),
            MembersOf(local, capacity, peers[..i]));
      }
    }
    assert peers[..|peers|] == peers;
    r := Some(nodes);
  }

  lemma OneNode(x: Node)
    ensures Lists([x], map[x.id := x.capacity])
  {
    assert [x][0] == x;
  }

  /* ---------- the tables ---------- */

  function SlotsOf(c: Config): (r: seq<Slot>)
    ensures |r| == c.shardCount && forall i :: 0 <= i < c.shardCount ==> r[i] == Slot(c.name, i)
  {
    seq(c.shardCount, i requires 0 <= i < c.shardCount => Slot(c.name, i))
  }

  /** The rows of a table, in order. */
  function Slots(configs: seq<Config>): seq<Slot>
  {
    if configs == [] then [] else Slots(configs[..|configs| - 1]) + SlotsOf(configs[|configs| - 1])
  }

  predicate AllValid(configs: seq<Config>)
  {
    forall i :: 0 <= i < |configs| ==> configs[i].valid
  }

  function InsertConfig(sorted: seq<Config>, c: Config): (r: seq<Config>)
    ensures multiset(r) == multiset(sorted) + multiset{c}
  {
    if sorted == [] || !Less(c.name, sorted[|sorted| - 1].name) then sorted + [c]
    else
      assert sorted == sorted[..|sorted| - 1] + [sorted[|sorted| - 1]];
      InsertConfig(sorted[..|sorted| - 1], c) + [sorted[|sorted| - 1]]
  }

  /** Collections in name order. */
  function SortConfigs(configs: seq<Config>): (r: seq<Config>)
    ensures multiset(r) == multiset(configs)
  {
    if configs == [] then []
    else
      assert configs == configs[..|configs| - 1] + [configs[|configs| - 1]];
      InsertConfig(SortConfigs(configs[..|configs| - 1]), configs[|configs| - 1])
  }

  ghost predicate ByName(configs: seq<Config>)
  {
    forall i, j :: 0 <= i < j < |configs| ==> !Less(configs[j].name, configs[i].name)
  }

  lemma NotLessTransitive(a: string, b: string, c: string)
    requires !Less(b, a) && !Less(c, b)
    ensures !Less(c, a)
  {
    if Less(c, a) {
      if a != b { LessTotal(a, b); }
      if b != c { LessTotal(b, c); }
      if a != b && b != c { LessTransitive(a, b, c); }
      if a != c { LessTransitive(c, a, c); }
      LessIrreflexive(c);
    }
  }

  lemma {:induction false} InsertConfigOrdered(sorted: seq<Config>, c: Config)
    requires ByName(sorted)
    ensures ByName(InsertConfig(sorted, c))
    decreases |sorted|
  {
    hide Less;
    var r := InsertConfig(sorted, c);
    if sorted != [] {
      var n := |sorted| - 1;
      var last := sorted[n];
      if Less(c.name, last.name) {
        InsertConfigOrdered(sorted[..n], c);
        forall x | x in InsertConfig(sorted[..n], c) ensures !Less(last.name, x.name)
        {
          assert x in multiset(InsertConfig(sorted[..n], c));
          assert x in sorted[..n] || x == c;
          LessAsymmetric(c.name, last.name);
        }
        var front := InsertConfig(sorted[..n], c);
        forall i, j | 0 <= i < j < |r| ensures !Less(r[j].name, r[i].name)
        {
          if j == |front| { assert front[i] in front; }
        }
      } else {
        forall i | 0 <= i <= n ensures !Less(c.name, sorted[i].name)
        {
          if i < n { NotLessTransitive(sorted[i].name, last.name, c.name); }
        }
      }
    }
  }

  lemma {:induction false} SortConfigsOrdered(configs: seq<Config>)
    ensures ByName(SortConfigs(configs))
    decreases |configs|
  {
    if configs != [] {
      SortConfigsOrdered(configs[..|configs| - 1]);
      InsertConfigOrdered(SortConfigs(configs[..|configs| - 1]), configs[|configs| - 1]);
    }
  }

  datatype Owned = Owned(slot: Slot, node: string)

  datatype Placed = Placed(slot: Slot, leader: string, replicas: seq<string>)

  ghost predicate IsBest(h: Hash, m: Members, s: Slot, id: string)
    requires Capable(m)
  {
    id in m && forall x :: x in m && x != id ==> Better(h, m, s, id, x)
  }

  lemma BestLeads(h: Hash, m: Members, s: Slot, id: string, k: nat, replicas: seq<string>)
    requires Capable(m) && IsBest(h, m, s, id) && Places(h, m, s, k, replicas) && k > 0
    ensures replicas[0] == id
  {
    var order :| IsOrder(h, m, s, order) && k <= |order| && replicas == order[..k];
    assert id in order;
    var i :| 0 <= i < |order| && order[i] == id;
    if i > 0 {
      BetterAsymmetric(h, m, s, order[0], order[i]);
      OrderDistinct(h, m, s, order);
    }
  }

  /** Keeps a running best; only a strictly higher score takes over, so ties go to the smaller identifier. */
  method FindOwner(h: Hash, nodes: seq<Node>, s: Slot, ghost m: Members) returns (owner: string)
    requires Capable(m) && Lists(nodes, m) && nodes != []
    ensures IsBest(h, m, s, owner)
  {
    hide Score;
    owner := nodes[0].id;
    var best := NodeScore(h, s, nodes[0].id, nodes[0].capacity);
    for i := 1 to |nodes|
      invariant owner in m && best == Score(h, s, owner, m[owner])
      invariant exists k :: 0 <= k < i && nodes[k].id == owner
      invariant forall k :: 0 <= k < i && nodes[k].id != owner ==> Better(h, m, s, owner, nodes[k].id)
    {
      var score := NodeScore(h, s, nodes[i].id, nodes[i].capacity);
      if score > best {
        best, owner := score, nodes[i].id;
      }
    }
    forall x | x in m && x != owner ensures Better(h, m, s, owner, x)
    {
      var k :| 0 <= k < |nodes| && nodes[k].id == x;
    }
  }

  ghost predicate OwnersOf(h: Hash, m: Members, slots: seq<Slot>, table: seq<Owned>)
    requires Capable(m)
  {
    |table| == |slots| && forall i :: 0 <= i < |table| ==>
        table[i].slot == slots[i] && IsBest(h, m, slots[i], table[i].node)
  }

  ghost predicate ReplicasOf(h: Hash, m: Members, slots: seq<Slot>, k: nat, table: seq<Placed>)
    requires Capable(m)
  {
    && |table| == |slots|
    && forall i :: 0 <= i < |table| ==>
         && table[i].slot == slots[i] && Places(h, m, slots[i], k, table[i].replicas)
         && |table[i].replicas| == k && (k > 0 ==> table[i].leader == table[i].replicas[0])
  }

  /** The rows of one collection. */
  method OwnCollection(h: Hash, nodes: seq<Node>, c: Config, table0: seq<Owned>, ghost m: Members,
      ghost before: seq<Slot>)
    returns (table: seq<Owned>)
    requires Capable(m) && Lists(nodes, m) && nodes != [] && OwnersOf(h, m, before, table0)
    ensures OwnersOf(h, m, before + SlotsOf(c), table)
  {
    hide Lists, IsBest, Capable;
    table := table0;
    ghost var mine := SlotsOf(c);
    assert before + mine[..0] == before;
    for shard := 0 to c.shardCount
      invariant OwnersOf(h, m, before + mine[..shard], table)
    {
      var slot := Slot(c.name, shard);
      var owner := FindOwner(h, nodes, slot, m);
      assert before + mine[..shard + 1] == before + mine[..shard] + [slot];
      table := table + [Owned(slot, owner)];
    }
    assert mine[..c.shardCount] == mine;
  }

  /** What the table is computed from. */
  datatype Call = Call(epoch: nat, local: string, address: string, capacity: nat, peers: seq<Peer>,
      configs: seq<Config>)

  /** The arguments for which there is a table of owners. */
  ghost predicate Accepted(c: Call)
  {
    && c.epoch > 0 && ValidNodeId(c.local) && c.address != "" && 0 < c.capacity <= MAX_CAPACITY
    && PeersFine(c.local, c.capacity, c.peers) && AllValid(SortConfigs(c.configs))
  }

  ghost predicate PlansOwners(h: Hash, c: Call, r: Option<seq<Owned>>)
  {
    && (r.Some? <==> Accepted(c))
    && (r.Some? ==>
          var m := MembersOf(c.local, c.capacity, c.peers);
          Capable(m) && OwnersOf(h, m, Slots(SortConfigs(c.configs)), r.value))
  }

  ghost predicate PlansReplicas(h: Hash, c: Call, k: int, r: Option<seq<Placed>>)
  {
    && (r.Some? <==> Accepted(c) && 1 <= k <= |MembersOf(c.local, c.capacity, c.peers)|)
    && (r.Some? ==>
          var m := MembersOf(c.local, c.capacity, c.peers);
          Capable(m) && k > 0 && ReplicasOf(h, m, Slots(SortConfigs(c.configs)), k, r.value))
  }

  method PlanPlacement(h: Hash, epoch: nat, local: string, address: string, capacity: nat, peers: seq<Peer>,
      configs: seq<Config>)
    returns (r: Option<seq<Owned>>, nodes: seq<Node>)
    ensures PlansOwners(h, Call(epoch, local, address, capacity, peers, configs), r)
    ensures r.Some? ==> Lists(nodes, MembersOf(local, capacity, peers))
  {
    hide ValidNodeId, Lists, OwnersOf, PeersFine, Capable, AllValid;
    var gathered := GatherNodes(epoch, local, address, capacity, peers);
    if gathered.None? { return None, []; }
    nodes := gathered.value;
    ghost var m := MembersOf(local, capacity, peers);
    MembersCapable(local, capacity, peers);
    SomeNode(nodes, m, local, capacity, peers);
    r := OwnAll(h, nodes, SortConfigs(configs), m);
  }

  /** The rows of all collections; an invalid one is refused. */
  method OwnAll(h: Hash, nodes: seq<Node>, sorted: seq<Config>, ghost m: Members) returns (r: Option<seq<Owned>>)
    requires Capable(m) && Lists(nodes, m) && nodes != []
    ensures r.Some? <==> AllValid(sorted)
    ensures r.Some? ==> OwnersOf(h, m, Slots(sorted), r.value)
  {
    hide Lists, OwnersOf, Capable;
    var table: seq<Owned> := [];
    NoOwners(h, m);
    for c := 0 to |sorted|
      invariant OwnersOf(h, m, Slots(sorted[..c]), table) && forall i :: 0 <= i < c ==> sorted[i].valid
    {
      if !sorted[c].valid { return None; }
      assert sorted[..c + 1][..c] == sorted[..c];
      table := OwnCollection(h, nodes, sorted[c], table, m, Slots(sorted[..c]));
    }
    assert sorted[..|sorted|] == sorted;
    r := Some(table);
  }

  lemma NoOwners(h: Hash, m: Members)
    requires Capable(m)
    ensures OwnersOf(h, m, [], [])
  {
  }

  lemma SomeNode(nodes: seq<Node>, m: Members, local: string, capacity: nat, peers: seq<Peer>)
    requires Lists(nodes, m) && m == MembersOf(local, capacity, peers) && PeersFine(local, capacity, peers)
    ensures nodes != []
  {
    MembersExact(local, capacity, peers, local);
  }

  datatype Candidate = Candidate(id: string, score: nat)

  predicate Ahead(a: Candidate, b: Candidate)
  {
    a.score > b.score || (a.score == b.score && Less(a.id, b.id))
  }

  ghost predicate BestAhead(list: seq<Candidate>)
  {
    forall i, j :: 0 <= i < j < |list| ==> Ahead(list[i], list[j])
  }

  ghost predicate Scored(h: Hash, m: Members, s: Slot, c: Candidate)
    requires Capable(m)
  {
    c.id in m && c.score == Score(h, s, c.id, m[c.id])
  }

  ghost function NodeIds(nodes: seq<Node>): set<string>
  {
    set n | n in nodes :: n.id
  }

  ghost function CandidateIds(list: seq<Candidate>): set<string>
  {
    set c | c in list :: c.id
  }

  ghost predicate SameIds(nodes: seq<Node>, list: seq<Candidate>)
  {
    |list| == |nodes| && CandidateIds(list) == NodeIds(nodes)
  }

  /** The candidates for some nodes with their scores, best first. */
  ghost predicate Ranked(h: Hash, m: Members, s: Slot, nodes: seq<Node>, list: seq<Candidate>)
    requires Capable(m)
  {
    SameIds(nodes, list) && BestAhead(list) && forall i :: 0 <= i < |list| ==> Scored(h, m, s, list[i])
  }

  lemma AheadTransitive(a: Candidate, b: Candidate, c: Candidate)
    requires Ahead(a, b) && Ahead(b, c)
    ensures Ahead(a, c)
  {
    if a.score == b.score == c.score { LessTransitive(a.id, b.id, c.id); }
  }

  lemma AheadOther(a: Candidate, b: Candidate)
    requires a.id != b.id && !Ahead(b, a)
    ensures Ahead(a, b)
  {
    if !Less(a.id, b.id) { LessTotal(b.id, a.id); }
  }

  lemma RankedSorted(list: seq<Candidate>, i: nat, x: Candidate)
    requires i <= |list| && BestAhead(list)
    requires forall k :: 0 <= k < |list| ==> list[k].id != x.id
    requires forall k :: i <= k < |list| ==> Ahead(x, list[k])
    requires i > 0 ==> !Ahead(x, list[i - 1])
    ensures BestAhead(Splice(list, i, x))
  {
    hide Ahead, Splice;
    var r := Splice(list, i, x);
    if i > 0 { AheadOther(list[i - 1], x); }
    forall a, b | 0 <= a < b < |r| ensures Ahead(r[a], r[b])
    {
      SpliceAt(list, i, x, a);
      SpliceAt(list, i, x, b);
      if b == i && a < i - 1 { AheadTransitive(list[a], list[i - 1], x); }
    }
  }

  lemma SameIdsPush(nodes: seq<Node>, list: seq<Candidate>, y: Node, i: nat, x: Candidate)
    requires SameIds(nodes, list) && i <= |list| && x.id == y.id
    ensures SameIds(nodes + [y], Splice(list, i, x))
  {
    assert list == list[..i] + list[i..];
    assert CandidateIds(Splice(list, i, x)) == CandidateIds(list) + {x.id};
    assert NodeIds(nodes + [y]) == NodeIds(nodes) + {y.id};
  }

  lemma OtherName(nodes: seq<Node>, list: seq<Candidate>, id: string)
    requires SameIds(nodes, list) && forall k :: 0 <= k < |nodes| ==> nodes[k].id != id
    ensures forall k :: 0 <= k < |list| ==> list[k].id != id
  {
    forall k | 0 <= k < |list| ensures list[k].id != id
    {
      assert list[k].id in CandidateIds(list);
      var n :| n in nodes && n.id == list[k].id;
    }
  }

  lemma RankedPush(h: Hash, m: Members, s: Slot, nodes: seq<Node>, list: seq<Candidate>, y: Node, i: nat, x: Candidate)
    requires Capable(m) && Ranked(h, m, s, nodes, list) && i <= |list| && x.id == y.id && Scored(h, m, s, x)
    requires forall k :: 0 <= k < |nodes| ==> nodes[k].id != y.id
    requires forall k :: i <= k < |list| ==> Ahead(x, list[k])
    requires i > 0 ==> !Ahead(x, list[i - 1])
    ensures Ranked(h, m, s, nodes + [y], Splice(list, i, x))
  {
    hide Ahead, Scored, Capable, Splice, SameIds;
    var r := Splice(list, i, x);
    OtherName(nodes, list, y.id);
    RankedSorted(list, i, x);
    SameIdsPush(nodes, list, y, i, x);
    forall k | 0 <= k < |r| ensures Scored(h, m, s, r[k]) { SpliceAt(list, i, x, k); }
  }

  lemma NewName(nodes: seq<Node>, n: nat)
    requires IdsAscend(nodes) && n < |nodes|
    ensures forall k :: 0 <= k < n ==> nodes[..n][k].id != nodes[n].id
  {
    forall k | 0 <= k < n ensures nodes[..n][k].id != nodes[n].id { LessIrreflexive(nodes[n].id); }
  }

  method RankNodes(h: Hash, nodes: seq<Node>, s: Slot, ghost m: Members) returns (order: seq<string>)
    requires Capable(m) && Lists(nodes, m)
    ensures IsOrder(h, m, s, order) && |order| == |nodes|
  {
    hide Score, Ahead, Ranked, Capable, Splice, Lists, IsOrder, Less;
    var list: seq<Candidate> := [];
    RankedNothing(h, m, s);
    for n := 0 to |nodes|
      invariant |list| == n && Ranked(h, m, s, nodes[..n], list)
    {
      CapableAt(nodes, m, n);
      NewName(nodes, n);
      var score := NodeScore(h, s, nodes[n].id, nodes[n].capacity);
      var x := Candidate(nodes[n].id, score);
      var i := |list|;
      while i > 0 && Ahead(x, list[i - 1])
        invariant 0 <= i <= |list| && forall k :: i <= k < |list| ==> Ahead(x, list[k])
      {
        i := i - 1;
      }
      RankedPush(h, m, s, nodes[..n], list, nodes[n], i, x);
      assert nodes[..n] + [nodes[n]] == nodes[..n + 1];
      list := Splice(list, i, x);
    }
    assert nodes[..|nodes|] == nodes;
    order := seq(|list|, i requires 0 <= i < |list| => list[i].id);
    RankedOrder(h, m, s, nodes, list, order);
  }

  lemma CapableAt(nodes: seq<Node>, m: Members, n: nat)
    requires Capable(m) && Lists(nodes, m) && n < |nodes|
    ensures nodes[n].id in m && m[nodes[n].id] == nodes[n].capacity > 0 && IdsAscend(nodes)
  {
  }

  lemma RankedNothing(h: Hash, m: Members, s: Slot)
    requires Capable(m)
    ensures Ranked(h, m, s, [], [])
  {
  }

  lemma AheadBetter(h: Hash, m: Members, s: Slot, a: Candidate, b: Candidate)
    requires Capable(m) && Scored(h, m, s, a) && Scored(h, m, s, b) && Ahead(a, b)
    ensures Better(h, m, s, a.id, b.id)
  {
  }

  lemma ListedName(nodes: seq<Node>, m: Members, list: seq<Candidate>, id: string)
    requires Lists(nodes, m) && SameIds(nodes, list) && id in m
    ensures exists i :: 0 <= i < |list| && list[i].id == id
  {
    hide IdsAscend;
    var k :| 0 <= k < |nodes| && nodes[k].id == id;
    assert nodes[k].id in NodeIds(nodes);
    var c :| c in list && c.id == id;
  }

  lemma RankedOrder(h: Hash, m: Members, s: Slot, nodes: seq<Node>, list: seq<Candidate>, order: seq<string>)
    requires Capable(m) && Lists(nodes, m) && Ranked(h, m, s, nodes, list)
    requires |order| == |list| && forall i :: 0 <= i < |list| ==> order[i] == list[i].id
    ensures IsOrder(h, m, s, order)
  {
    hide Better, Ahead, Capable, Less, Lists, SameIds;
    forall i | 0 <= i < |order| ensures order[i] in m { assert Scored(h, m, s, list[i]); }
    forall id | id in m ensures id in order
    {
      ListedName(nodes, m, list, id);
      var i :| 0 <= i < |list| && list[i].id == id;
      assert order[i] == id;
    }
    forall i, j | 0 <= i < j < |order| ensures Better(h, m, s, order[i], order[j])
    {
      assert Scored(h, m, s, list[i]) && Scored(h, m, s, list[j]);
      AheadBetter(h, m, s, list[i], list[j]);
    }
  }

  /** The rows of one collection. */
  method PlaceCollection(h: Hash, nodes: seq<Node>, c: Config, k: nat, table0: seq<Placed>, ghost m: Members,
      ghost before: seq<Slot>)
    returns (table: seq<Placed>)
    requires Capable(m) && Lists(nodes, m) && 0 < k <= |nodes| && ReplicasOf(h, m, before, k, table0)
    ensures ReplicasOf(h, m, before + SlotsOf(c), k, table)
  {
    hide Lists, Places, Capable;
    table := table0;
    ghost var mine := SlotsOf(c);
    assert before + mine[..0] == before;
    for shard := 0 to c.shardCount
      invariant ReplicasOf(h, m, before + mine[..shard], k, table)
    {
      var slot := Slot(c.name, shard);
      var order := RankNodes(h, nodes, slot, m);
      var replicas := order[..k];
      TakesPlace(h, m, slot, k, order);
      assert before + mine[..shard + 1] == before + mine[..shard] + [slot];
      table := table + [Placed(slot, replicas[0], replicas)];
    }
    assert mine[..c.shardCount] == mine;
  }

  method PlanReplicas(h: Hash, epoch: nat, local: string, address: string, capacity: nat, peers: seq<Peer>,
      configs: seq<Config>, k: int)
    returns (r: Option<seq<Placed>>)
    ensures PlansReplicas(h, Call(epoch, local, address, capacity, peers, configs), k, r)
  {
    hide ValidNodeId, Lists, ReplicasOf, PeersFine, AllValid, OwnersOf, Capable;
    var base, nodes := PlanPlacement(h, epoch, local, address, capacity, peers, configs);
    if base.None? { return None; }
    ghost var m := MembersOf(local, capacity, peers);
    NodeCount(nodes, m);
    if k < 1 || k > |nodes| { return None; }
    var sorted := SortConfigs(configs);
    var table: seq<Placed> := [];
    NoReplicas(h, m, k);
    for c := 0 to |sorted|
      invariant ReplicasOf(h, m, Slots(sorted[..c]), k, table)
    {
      assert sorted[..c + 1][..c] == sorted[..c];
      table := PlaceCollection(h, nodes, sorted[c], k, table, m, Slots(sorted[..c]));
    }
    assert sorted[..|sorted|] == sorted;
    r := Some(table);
  }

  lemma NoReplicas(h: Hash, m: Members, k: nat)
    requires Capable(m)
    ensures ReplicasOf(h, m, [], k, [])
  {
  }

  lemma TakesPlace(h: Hash, m: Members, s: Slot, k: nat, order: seq<string>)
    requires Capable(m) && IsOrder(h, m, s, order) && k <= |order|
    ensures Places(h, m, s, k, order[..k])
  {
  }

  lemma NodeCount(nodes: seq<Node>, m: Members)
    requires Lists(nodes, m)
    ensures |nodes| == |m|
  {
    var ids := seq(|nodes|, i requires 0 <= i < |nodes| => nodes[i].id);
    forall i, j | 0 <= i < j < |ids| ensures ids[i] != ids[j]
    {
      if ids[i] == ids[j] { LessIrreflexive(ids[i]); }
    }
    DistinctSize(ids);
    forall id | id in m ensures id in ids
    {
      var i :| 0 <= i < |nodes| && nodes[i].id == id;
      assert ids[i] == id;
    }
    assert Elements(ids) == m.Keys;
  }

  /* ---------- agreement ---------- */

  /** A node as somebody knows it; of its address only whether it has one matters. */
  datatype Known = Known(id: string, reachable: bool, capacity: nat)

  /** Everybody a node knows, itself included, in no order. */
  ghost function KnownNodes(local: string, address: string, capacity: nat, peers: seq<Peer>): multiset<Known>
  {
    if peers == [] then multiset{Known(local, address != "", capacity)}
    else
      var last := peers[|peers| - 1];
      var rest := KnownNodes(local, address, capacity, peers[..|peers| - 1]);
      if last.id == "" then rest else rest + multiset{Known(last.id, last.address != "", CapacityOf(last))}
  }

  ghost predicate FineNode(x: Known)
  {
    ValidNodeId(x.id) && x.reachable && 0 < x.capacity <= MAX_CAPACITY
  }

  ghost function Ids(all: multiset<Known>): set<string>
  {
    set x | x in all :: x.id
  }

  /** All fine, and nobody twice. */
  ghost predicate Fine(all: multiset<Known>)
  {
    && (forall x :: x in all ==> FineNode(x) && all[x] == 1)
    && forall x, y :: x in all && y in all && x.id == y.id ==> x == y
  }

  ghost predicate Denotes(m: Members, all: multiset<Known>)
  {
    m.Keys == Ids(all) && forall x :: x in all ==> x.id in m && m[x.id] == x.capacity
  }

  lemma FinePush(all: multiset<Known>, k: Known)
    ensures Fine(all + multiset{k}) <==> Fine(all) && FineNode(k) && k.id !in Ids(all)
    ensures Ids(all + multiset{k}) == Ids(all) + {k.id}
  {
    hide FineNode;
    var more := all + multiset{k};
    assert k in more;
    assert forall x :: x in more <==> x in all || x == k;
    forall x | x in all ensures Fine(more) ==> x.id != k.id { OtherId(all, k, x); }
    if Fine(more) {
      forall x | x in all ensures FineNode(x) && all[x] == 1 { assert x in more && more[x] >= all[x]; }
    } else if Fine(all) && FineNode(k) && k.id !in Ids(all) {
      assert k !in all;
      assert forall x :: x in more ==> FineNode(x) && more[x] == 1;
    }
  }

  lemma OtherId(all: multiset<Known>, k: Known, x: Known)
    requires x in all
    ensures Fine(all + multiset{k}) ==> x.id != k.id
  {
    hide FineNode;
    var more := all + multiset{k};
    assert x in more && k in more && more[k] == all[k] + 1;
  }

  lemma DenotesPush(m: Members, all: multiset<Known>, k: Known)
    requires Denotes(m, all) && k.id !in Ids(all)
    ensures Denotes(m[k.id := k.capacity], all + multiset{k})
  {
    hide FineNode;
    FinePush(all, k);
    assert forall x :: x in all + multiset{k} <==> x in all || x == k;
    forall x | x in all ensures x.id != k.id { assert x.id in Ids(all); }
  }

  /** Whether the peers are accepted, and which members result, depends only on who is known. */
  lemma {:induction false} KnownDecides(local: string, address: string, capacity: nat, peers: seq<Peer>)
    ensures var all := KnownNodes(local, address, capacity, peers);
            && (FineNode(Known(local, address != "", capacity)) && PeersFine(local, capacity, peers) <==> Fine(all))
            && MembersOf(local, capacity, peers).Keys == Ids(all)
            && (Fine(all) ==> Denotes(MembersOf(local, capacity, peers), all))
    decreases |peers|
  {
    hide ValidNodeId, Fine, Denotes;
    if peers == [] {
      KnownSelf(Known(local, address != "", capacity));
    } else {
      var n := |peers| - 1;
      var last, rest := peers[n], KnownNodes(local, address, capacity, peers[..n]);
      KnownDecides(local, address, capacity, peers[..n]);
      if last.id != "" {
        var k := Known(last.id, last.address != "", CapacityOf(last));
        FinePush(rest, k);
        assert FineNode(k) == PeerFine(last);
        if Fine(rest + multiset{k}) { DenotesPush(MembersOf(local, capacity, peers[..n]), rest, k); }
      }
    }
  }

  lemma KnownSelf(k: Known)
    ensures Fine(multiset{k}) <==> FineNode(k)
    ensures Ids(multiset{k}) == {k.id} && Denotes(map[k.id := k.capacity], multiset{k})
  {
    assert k in multiset{k} && multiset{k}[k] == 1;
  }

  lemma DenotesUnique(a: Members, b: Members, all: multiset<Known>)
    requires Denotes(a, all) && Denotes(b, all)
    ensures a == b
  {
    forall id | id in a ensures id in b && a[id] == b[id]
    {
      assert id in Ids(all);
      var x :| x in all && x.id == id;
    }
    assert a.Keys == b.Keys;
  }

  ghost predicate DistinctNames(configs: seq<Config>)
  {
    forall x, y :: x in multiset(configs) && y in multiset(configs) && x.name == y.name ==>
        x == y && multiset(configs)[x] == 1
  }

  /** Sorting by distinct names has one result. */
  lemma {:induction false} ByNameUnique(a: seq<Config>, b: seq<Config>)
    requires ByName(a) && ByName(b) && multiset(a) == multiset(b) && DistinctNames(a)
    ensures a == b
    decreases |a|
  {
    hide Less, DistinctNames, ByName;
    SameLength(a, b);
    if a != [] {
      var n := |a| - 1;
      LastSame(a, b, n);
      FrontKeeps(a, n);
      FrontKeeps(b, n);
      SameFront(a, b, n);
      ByNameUnique(a[..n], b[..n]);
      assert a == a[..n] + [a[n]] && b == b[..n] + [b[n]];
    }
  }

  lemma SameLength(a: seq<Config>, b: seq<Config>)
    requires multiset(a) == multiset(b)
    ensures |a| == |b|
  {
    assert |a| == |multiset(a)| && |b| == |multiset(b)|;
  }

  lemma SameFront(a: seq<Config>, b: seq<Config>, n: nat)
    requires multiset(a) == multiset(b) && |a| == |b| == n + 1 && a[n] == b[n]
    ensures multiset(a[..n]) == multiset(b[..n])
  {
    assert a == a[..n] + [a[n]] && b == b[..n] + [b[n]];
    assert multiset(a[..n]) == multiset(a) - multiset{a[n]} && multiset(b[..n]) == multiset(b) - multiset{b[n]};
  }

  lemma FrontKeeps(a: seq<Config>, n: nat)
    requires ByName(a) && n < |a| && n == |a| - 1
    ensures ByName(a[..n]) && (DistinctNames(a) ==> DistinctNames(a[..n]))
  {
    hide Less;
    assert a == a[..n] + [a[n]];
    assert forall x :: multiset(a[..n])[x] <= multiset(a)[x];
  }

  lemma LastSame(a: seq<Config>, b: seq<Config>, n: nat)
    requires ByName(a) && ByName(b) && multiset(a) == multiset(b) && DistinctNames(a) && |a| == |b| == n + 1
    ensures a[n] == b[n]
  {
    hide Less;
    assert a[n] in multiset(a) && b[n] in multiset(b);
    assert a[n] in b && b[n] in a;
    var j :| 0 <= j < |b| && b[j] == a[n];
    var i :| 0 <= i < |a| && a[i] == b[n];
    if a[n].name != b[n].name {
      LessTotal(a[n].name, b[n].name);
    }
  }

  lemma SortConfigsAgree(a: seq<Config>, b: seq<Config>)
    requires multiset(a) == multiset(b) && DistinctNames(a)
    ensures SortConfigs(a) == SortConfigs(b)
  {
    SortConfigsOrdered(a);
    SortConfigsOrdered(b);
    ByNameUnique(SortConfigs(a), SortConfigs(b));
  }

  /**
   * The two calls see one cluster: the same nodes, however listed and however healthy, and the same collections in any
   * order.
   */
  ghost predicate SameCluster(x: Call, y: Call)
  {
    && x.epoch == y.epoch
    && KnownNodes(x.local, x.address, x.capacity, x.peers) == KnownNodes(y.local, y.address, y.capacity, y.peers)
    && multiset(x.configs) == multiset(y.configs) && DistinctNames(x.configs)
  }

  lemma SameClusterSame(x: Call, y: Call)
    requires SameCluster(x, y)
    ensures Accepted(x) <==> Accepted(y)
    ensures Accepted(x) ==> MembersOf(x.local, x.capacity, x.peers) == MembersOf(y.local, y.capacity, y.peers)
    ensures SortConfigs(x.configs) == SortConfigs(y.configs)
  {
    hide ValidNodeId, AllValid, Denotes, Fine, PeersFine, DistinctNames;
    KnownDecides(x.local, x.address, x.capacity, x.peers);
    KnownDecides(y.local, y.address, y.capacity, y.peers);
    SortConfigsAgree(x.configs, y.configs);
    if Accepted(x) {
      DenotesUnique(MembersOf(x.local, x.capacity, x.peers), MembersOf(y.local, y.capacity, y.peers),
                    KnownNodes(x.local, x.address, x.capacity, x.peers));
    }
  }

  /** Whichever member computes the replica table, all get the same one, or all are refused. */
  lemma ReplicaTablesAgree(h: Hash, x: Call, y: Call, k: int, a: Option<seq<Placed>>, b: Option<seq<Placed>>)
    requires SameCluster(x, y) && PlansReplicas(h, x, k, a) && PlansReplicas(h, y, k, b)
    ensures a == b
  {
    hide SameCluster, Accepted, ReplicasOf, Capable;
    SameClusterSame(x, y);
    if a.Some? {
      TablesAgree(h, MembersOf(x.local, x.capacity, x.peers), Slots(SortConfigs(x.configs)), k, a.value, b.value);
    }
  }

  /** So do the single owners. */
  lemma OwnerTablesAgree(h: Hash, x: Call, y: Call, a: Option<seq<Owned>>, b: Option<seq<Owned>>)
    requires SameCluster(x, y) && PlansOwners(h, x, a) && PlansOwners(h, y, b)
    ensures a == b
  {
    hide SameCluster, Accepted, Capable, Better;
    SameClusterSame(x, y);
    if a.Some? {
      var m, slots := MembersOf(x.local, x.capacity, x.peers), Slots(SortConfigs(x.configs));
      forall i | 0 <= i < |slots| ensures a.value[i] == b.value[i]
      {
        BestUnique(h, m, slots[i], a.value[i].node, b.value[i].node);
      }
      assert a.value == b.value;
    }
  }

  lemma BestUnique(h: Hash, m: Members, s: Slot, a: string, b: string)
    requires Capable(m) && IsBest(h, m, s, a) && IsBest(h, m, s, b)
    ensures a == b
  {
    if a != b { BetterAsymmetric(h, m, s, a, b); }
  }

  lemma TablesAgree(h: Hash, m: Members, slots: seq<Slot>, k: nat, a: seq<Placed>, b: seq<Placed>)
    requires Capable(m) && k > 0 && ReplicasOf(h, m, slots, k, a) && ReplicasOf(h, m, slots, k, b)
    ensures a == b
  {
    hide Places;
    forall i | 0 <= i < |a| ensures a[i] == b[i] { PlacesUnique(h, m, slots[i], k, a[i].replicas, b[i].replicas); }
  }

  /** The single-owner table is the leader column of the replica table. */
  lemma OwnersAreLeaders(h: Hash, m: Members, slots: seq<Slot>, k: nat, owners: seq<Owned>, placed: seq<Placed>)
    requires Capable(m) && k > 0 && OwnersOf(h, m, slots, owners) && ReplicasOf(h, m, slots, k, placed)
    ensures |owners| == |placed| && forall i :: 0 <= i < |owners| ==>
            owners[i].slot == placed[i].slot && owners[i].node == placed[i].leader
  {
    hide Places, IsBest;
    forall i | 0 <= i < |owners| ensures owners[i].node == placed[i].leader
    {
      BestLeads(h, m, slots[i], owners[i].node, k, placed[i].replicas);
    }
  }

  /** One capacity change moves at most the changed node, in every row. */
  lemma TableMovesOnlyIt(h: Hash, m: Members, slots: seq<Slot>, k: nat, x: string, capacity: nat, before: seq<Placed>,
      after: seq<Placed>, i: nat)
    requires Capable(m) && x in m && 0 < capacity <= MAX_CAPACITY && Capable(m[x := capacity])
    requires ReplicasOf(h, m, slots, k, before) && ReplicasOf(h, m[x := capacity], slots, k, after) && i < |slots|
    ensures m[x] <= capacity ==> Elements(after[i].replicas) - Elements(before[i].replicas) <= {x}
    ensures capacity <= m[x] ==> Elements(before[i].replicas) - Elements(after[i].replicas) <= {x}
  {
    hide Places;
    if m[x] <= capacity {
      RaiseAddsOnlyIt(h, m, slots[i], k, x, capacity, before[i].replicas, after[i].replicas);
    }
    if capacity <= m[x] {
      LowerRemovesOnlyIt(h, m, slots[i], k, x, capacity, before[i].replicas, after[i].replicas);
    }
  }
}
