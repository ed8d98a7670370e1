/** Voter lists, majorities and the overlap that membership changes rest on. */
module RaftQuorum {
  import opened Strings
  import opened Collections
  import opened RaftTypes
  import opened RaftSpec

  /** A canonical voter list names nobody twice. */
  lemma {:induction false} CanonicalAscends(voters: seq<NodeId>, i: nat, j: nat)
    requires Canonical(voters) && i < j < |voters|
    ensures Less(voters[i], voters[j]) && voters[i] != voters[j]
    decreases j
  {
    if i < j - 1 {
      CanonicalAscends(voters, i, j - 1);
      LessTransitive(voters[i], voters[j - 1], voters[j]);
    }
    LessIrreflexive(voters[i]);
  }

  lemma CanonicalDistinct(voters: seq<NodeId>)
    requires Canonical(voters)
    ensures Distinct(voters)
  {
    forall i, j | 0 <= i < j < |voters| ensures voters[i] != voters[j] { CanonicalAscends(voters, i, j); }
  }

  lemma {:induction false} CountIsSize(voters: seq<NodeId>, acks: set<NodeId>)
    requires Distinct(voters)
    ensures CountIn(voters, acks) == |Elements(voters) * acks| && |voters| == |Elements(voters)|
    decreases |voters|
  {
    if voters != [] {
      hide Elements, Distinct;
      var v, rest := voters[0], voters[1..];
      HeadSplits(voters);
      CountIsSize(rest, acks);
      OneMore(Elements(rest), v, acks);
    }
  }

  lemma HeadSplits(voters: seq<NodeId>)
    requires Distinct(voters) && voters != []
    ensures Distinct(voters[1..]) && Elements(voters) == Elements(voters[1..]) + {voters[0]}
            && voters[0] !in Elements(voters[1..])
  {
    var rest := voters[1..];
    forall id ensures id in voters <==> id in rest || id == voters[0] { assert voters == [voters[0]] + rest; }
  }

  lemma OneMore(s: set<NodeId>, v: NodeId, acks: set<NodeId>)
    requires v !in s
    ensures |s + {v}| == |s| + 1 && |(s + {v}) * acks| == |s * acks| + if v in acks then 1 else 0
  {
    assert (s + {v}) * acks == s * acks + if v in acks then {v} else {};
  }

  /** The counting loop decides exactly the strict majority of the voter set. */
  lemma MajorityIsQuorum(voters: seq<NodeId>, acks: set<NodeId>)
    requires Canonical(voters)
    ensures Majority(voters, acks) <==> IsQuorum(Elements(voters), Elements(voters) * acks)
  {
    CanonicalDistinct(voters);
    CountIsSize(voters, acks);
  }

  /* ---------- membership change ---------- */

  /** The configurations a one-node change passes through. */
  datatype Config = Stable(voters: seq<NodeId>) | Joint(before: seq<NodeId>, after: seq<NodeId>)

  predicate Accepts(c: Config, acks: set<NodeId>)
  {
    match c
    case Stable(v) => Majority(v, acks)
    case Joint(a, b) => Majority(a, acks) && Majority(b, acks)
  }

  predicate OfChange(c: Config, before: seq<NodeId>, after: seq<NodeId>)
  {
    c == Stable(before) || c == Joint(before, after) || c == Stable(after)
  }

  /** What the store accepts is what its configuration accepts. */
  function ConfigOf(s: Store): Config
  {
    if s.jointOld != [] then Joint(s.jointOld, s.jointNew) else Stable(s.voters)
  }

  lemma StoreConfig(s: Store, acks: set<NodeId>)
    ensures HasQuorum(s, acks) == Accepts(ConfigOf(s), acks)
  {
  }

  /** A bare majority of each set, taken together, is more than both sets hold. */
  predicate Tight(a: set<NodeId>, b: set<NodeId>)
  {
    |a| / 2 + |b| / 2 + 2 > |a + b|
  }

  ghost predicate MajoritiesMeet(a: set<NodeId>, b: set<NodeId>)
  {
    forall p, q :: IsQuorum(a, p) && IsQuorum(b, q) ==> p * q != {}
  }

  lemma {:induction false} Pick(s: set<NodeId>, k: nat) returns (p: set<NodeId>)
    requires k <= |s|
    ensures p <= s && |p| == k
    decreases k
  {
    p := {};
    if k > 0 {
      var x :| x in s;
      var rest := Pick(s - {x}, k - 1);
      p := rest + {x};
    }
  }

  /** If two bare majorities fit into the union, they can be chosen apart. */
  lemma MajoritiesApart(a: set<NodeId>, b: set<NodeId>) returns (p: set<NodeId>, q: set<NodeId>)
    requires a != {} && b != {} && !Tight(a, b)
    ensures IsQuorum(a, p) && IsQuorum(b, q) && p !! q
  {
    var k, only := |a| / 2 + 1, a - b;
    assert a == only + a * b && |a| == |only| + |a * b|;
    assert a + b == only + b && |a + b| == |only| + |b|;
    if k <= |only| {
      p := Pick(only, k);
      q := Pick(b, |b| / 2 + 1);
    } else {
      var shared := Pick(a * b, k - |only|);
      p := only + shared;
      assert b == (b - shared) + shared && |b| == |b - shared| + |shared|;
      q := Pick(b - shared, |b| / 2 + 1);
    }
  }

  /** All majorities of two sets meet exactly if two bare majorities do not fit into the union. */
  lemma MajoritiesMeetIff(a: set<NodeId>, b: set<NodeId>)
    requires a != {} && b != {}
    ensures MajoritiesMeet(a, b) <==> Tight(a, b)
  {
    if Tight(a, b) {
      forall p, q | IsQuorum(a, p) && IsQuorum(b, q) ensures p * q != {}
      {
        SubsetSize(p + q, a + b);
        assert |p + q| == |p| + |q| - |p * q|;
      }
    } else {
      var p, q := MajoritiesApart(a, b);
    }
  }

  /** Sets that differ by at most one node are tight. */
  lemma OneChangeTight(a: set<NodeId>, b: set<NodeId>)
    requires |a - b| + |b - a| <= 1
    ensures Tight(a, b)
  {
    assert a == (a * b) + (a - b) && b == (a * b) + (b - a) && a + b == (a * b) + (a - b) + (b - a);
    assert |a| == |a * b| + |a - b| && |b| == |a * b| + |b - a|;
    assert |a + b| == |a * b| + |a - b| + |b - a| by { assert (a * b + (a - b)) !! (b - a); }
  }

  function Voters(before: seq<NodeId>, after: seq<NodeId>): set<NodeId>
  {
    Elements(before) + Elements(after)
  }

  /** Every two acknowledgement sets accepted anywhere in the change, old, joint or new, share a voter. */
  ghost predicate ChangeSafe(before: seq<NodeId>, after: seq<NodeId>)
  {
    forall c, d, p, q :: OfChange(c, before, after) && OfChange(d, before, after) && Accepts(c, p) && Accepts(d, q) ==>
      Voters(before, after) * p * q != {}
  }

  /**
   * A change of configuration is safe exactly if the majorities of its two voter sets always meet; one node is always
   * safe.
   */
  lemma ChangeSafeIff(before: seq<NodeId>, after: seq<NodeId>)
    requires Canonical(before) && Canonical(after)
    ensures ChangeSafe(before, after) <==> Tight(Elements(before), Elements(after))
    ensures Difference(before, after) <= 1 ==> ChangeSafe(before, after)
  {
    hide Canonical, Majority, Tight;
    var a, b := Elements(before), Elements(after);
    CanonicalMember(before);
    CanonicalMember(after);
    if Difference(before, after) <= 1 { OneChangeTight(a, b); }
    if Tight(a, b) {
      forall c, d, p, q | OfChange(c, before, after) && OfChange(d, before, after) && Accepts(c, p) && Accepts(d, q)
        ensures Voters(before, after) * p * q != {}
      {
        AcceptedMeet(before, after, c, d, p, q);
      }
    } else {
      var p, q := MajoritiesApart(a, b);
      assert a * p == p && b * q == q;
      MajorityIsQuorum(before, p);
      MajorityIsQuorum(after, q);
      assert Accepts(Stable(before), p) && Accepts(Stable(after), q);
    }
  }

  lemma CanonicalMember(voters: seq<NodeId>)
    requires Canonical(voters)
    ensures Elements(voters) != {}
  {
    assert voters[0] in Elements(voters);
  }

  lemma AcceptedMeet(before: seq<NodeId>, after: seq<NodeId>, c: Config, d: Config, p: set<NodeId>, q: set<NodeId>)
    requires Canonical(before) && Canonical(after) && Tight(Elements(before), Elements(after))
    requires OfChange(c, before, after) && OfChange(d, before, after) && Accepts(c, p) && Accepts(d, q)
    ensures Voters(before, after) * p * q != {}
  {
    hide Canonical, Majority;
    var x := if c.Stable? then c.voters else if d.Stable? then d.voters else before;
    var y := if d.Stable? then d.voters else x;
    MajorityIsQuorum(x, p);
    MajorityIsQuorum(y, q);
    CanonicalMember(x);
    CanonicalMember(y);
    assert Elements(before) + Elements(after) == Elements(after) + Elements(before);
    if x == y { OneChangeTight(Elements(x), Elements(y)); }
    MajoritiesMeetIff(Elements(x), Elements(y));
    assert (Elements(x) * p) * (Elements(y) * q) <= Voters(before, after) * p * q;
  }

  /** Two stores anywhere in a one-node change never accept disjoint acknowledgements. */
  lemma ChangeQuorumsMeet(before: seq<NodeId>, after: seq<NodeId>, s: Store, t: Store, p: set<NodeId>, q: set<NodeId>)
      returns (v: NodeId)
    requires Canonical(before) && Canonical(after) && Difference(before, after) == 1
    requires OfChange(ConfigOf(s), before, after) && OfChange(ConfigOf(t), before, after)
    requires HasQuorum(s, p) && HasQuorum(t, q)
    ensures v in p && v in q && (v in before || v in after)
  {
    hide Canonical, HasQuorum, Accepts, OfChange;
    ChangeSafeIff(before, after);
    StoreConfig(s, p);
    StoreConfig(t, q);
    v :| v in Voters(before, after) * p * q;
  }

  /** Replacing a single voter changes two nodes and is not safe. */
  lemma TwoNodeChangeCanSplit(a: NodeId, b: NodeId)
    requires ValidNodeId(a) && ValidNodeId(b) && a != b
    ensures Canonical([a]) && Canonical([b]) && Difference([a], [b]) == 2 && !ChangeSafe([a], [b])
    ensures Accepts(Stable([a]), {a}) && Accepts(Stable([b]), {b}) && {a} !! {b}
  {
    assert Elements([a]) == {a} && Elements([b]) == {b};
    assert Elements([a]) - Elements([b]) == {a} && Elements([b]) - Elements([a]) == {b};
    assert {a} + {b} == {a, b} && |{a, b}| == 2;
    assert [a][1..] == [] && [b][1..] == [];
    ChangeSafeIff([a], [b]);
  }
}
