/** The names under which rebalance actions are printed, and that no two actions share one. */
module ActionNames {
  import opened RaftSpec
  import opened Placement
  import opened Rebalance

  function Digit(d: nat): (c: char)
    requires d < 10
    ensures c != '/'
  {
    (48 + d) as char
  }

  function Decimal(n: nat): (s: string)
    ensures s != "" && '/' !in s
  {
    if n < 10 then [Digit(n)] else Decimal(n / 10) + [Digit(n % 10)]
  }

  lemma DigitInjective(a: nat, b: nat)
    requires a < 10 && b < 10 && Digit(a) == Digit(b)
    ensures a == b
  {
  }

  lemma {:induction false} DecimalInjective(a: nat, b: nat)
    requires Decimal(a) == Decimal(b)
    ensures a == b
    decreases a
  {
    hide Digit;
    var s, t := Decimal(a), Decimal(b);
    assert s[|s| - 1] == Digit(a % 10) && t[|t| - 1] == Digit(b % 10);
    DigitInjective(a % 10, b % 10);
    if a >= 10 && b >= 10 {
      assert s[..|s| - 1] == Decimal(a / 10) && t[..|t| - 1] == Decimal(b / 10);
      DecimalInjective(a / 10, b / 10);
    }
  }

  /** The last slash separates: what follows it holds none. */
  lemma SplitLast(x: string, p: string, y: string, q: string)
    requires '/' !in p && '/' !in q && x + "/" + p == y + "/" + q
    ensures x == y && p == q
  {
    var s := x + "/" + p;
    assert s[|x|] == '/' && s[|y|] == '/';
    assert x == s[..|x|] && y == s[..|y|];
    assert p == s[|x| + 1..] && q == s[|y| + 1..];
  }

  function Base(slot: Slot): string
  {
    slot.collection + "/" + Decimal(slot.shard)
  }

  function Verb(id: Id): (s: string)
    ensures '/' !in s
  {
    match id
    case CopyId(_, _) => "copy"
    case CatchUpId(_, _) => "catch-up"
    case TransferId(_, _) => "transfer-leader"
    case CommitId(_) => "commit-placement"
    case RemoveId(_, _) => "remove"
    case NoId => ""
  }

  /** The printed name; an action without one prints as nothing. */
  function Print(id: Id): string
  {
    match id
    case NoId => ""
    case CommitId(slot) => Base(slot) + "/" + Verb(id)
    case _ => Base(id.slot) + "/" + Verb(id) + "/" + id.node
  }

  /** The nodes a name mentions are valid. */
  predicate WellNamed(id: Id)
  {
    !id.NoId? && (!id.CommitId? ==> ValidNodeId(id.node))
  }

  lemma NodeHasNoSlash(id: string)
    requires ValidNodeId(id)
    ensures '/' !in id && |id| == 32
  {
    forall i | 0 <= i < |id| ensures id[i] != '/' { assert LowerHex(id[i]); }
  }

  lemma BaseInjective(a: Slot, b: Slot)
    requires Base(a) == Base(b)
    ensures a == b
  {
    hide Decimal;
    SplitLast(a.collection, Decimal(a.shard), b.collection, Decimal(b.shard));
    DecimalInjective(a.shard, b.shard);
  }

  lemma NodeNameInjective(a: Id, b: Id)
    requires WellNamed(a) && WellNamed(b) && !a.CommitId? && !b.CommitId? && Print(a) == Print(b)
    ensures a == b
  {
    hide Base, ValidNodeId;
    NodeHasNoSlash(a.node);
    NodeHasNoSlash(b.node);
    SplitLast(Base(a.slot) + "/" + Verb(a), a.node, Base(b.slot) + "/" + Verb(b), b.node);
    SplitLast(Base(a.slot), Verb(a), Base(b.slot), Verb(b));
    BaseInjective(a.slot, b.slot);
  }

  lemma CommitApart(a: Id, b: Id)
    requires a.CommitId? && WellNamed(b) && !b.CommitId?
    ensures Print(a) != Print(b)
  {
    hide Base, ValidNodeId;
    NodeHasNoSlash(b.node);
    if Print(a) == Print(b) { SplitLast(Base(a.slot), Verb(a), Base(b.slot) + "/" + Verb(b), b.node); }
  }

  /** Names made of valid nodes, of whatever collections, print apart. */
  lemma PrintInjective(a: Id, b: Id)
    requires WellNamed(a) && WellNamed(b) && Print(a) == Print(b)
    ensures a == b
  {
    hide Print, Base, ValidNodeId;
    if a.CommitId? && b.CommitId? {
      CommitInjective(a, b);
    } else if a.CommitId? {
      CommitApart(a, b);
    } else if b.CommitId? {
      CommitApart(b, a);
    } else {
      NodeNameInjective(a, b);
    }
  }

  lemma CommitInjective(a: Id, b: Id)
    requires a.CommitId? && b.CommitId? && Print(a) == Print(b)
    ensures a == b
  {
    hide Base;
    SplitLast(Base(a.slot), Verb(a), Base(b.slot), Verb(b));
    BaseInjective(a.slot, b.slot);
  }
}
