/** SnapKit's attribute masks: an OptionSet over UInt, its abstraction to a set, and the list read off it. */
module ConstraintAttributes {
  import opened BitSets
  import opened AttributeLists

  /** Every mask the getters can build lies below this bound. */
  const MASK_LIMIT: Mask := 0x10_0000

  /** The single-bit mask of an attribute; notAnAttribute has none. */
  function Bit(a: LayoutAttribute): Mask {
    match a
    case NotAnAttribute => 0
    case Left => 1
    case Top => 2
    case Right => 4
    case Bottom => 8
    case Leading => 16
    case Trailing => 32
    case Width => 64
    case Height => 128
    case CenterX => 256
    case CenterY => 512
    case LastBaseline => 1024
    case FirstBaseline => 2048
    case LeftMargin => 4096
    case RightMargin => 8192
    case TopMargin => 16384
    case BottomMargin => 32768
    case LeadingMargin => 65536
    case TrailingMargin => 131072
    case CenterXWithinMargins => 262144
    case CenterYWithinMargins => 524288
  }

  // ---------- The attributes of a mask ----------

  /** The attributes whose bits a mask contains. */
  function Attributes(m: Mask): AttributeSet {
    AttributesAmongSpec(m, ALL, NotAnAttribute);
    AttributesAmong(m, ALL)
  }

  function AttributesAmong(m: Mask, candidates: seq<LayoutAttribute>): set<LayoutAttribute> {
    if candidates == [] then {}
    else
      var rest := AttributesAmong(m, candidates[1..]);
      if Contains(m, Bit(candidates[0])) then {candidates[0]} + rest else rest
  }

  lemma {:induction false} AttributesAmongSpec(m: Mask, candidates: seq<LayoutAttribute>, a: LayoutAttribute)
    ensures a in AttributesAmong(m, candidates) <==> a in candidates && Contains(m, Bit(a))
  {
    if candidates == [] {
    } else {
      AttributesAmongSpec(m, candidates[1..], a);
      assert candidates == [candidates[0]] + candidates[1..];
    }
  }

  lemma HasAttribute(m: Mask, a: LayoutAttribute)
    ensures a in Attributes(m) <==> a != NotAnAttribute && Contains(m, Bit(a))
  {
    AttributesAmongSpec(m, ALL, a);
    AllIsComplete();
  }

  lemma BitIsSingle(a: LayoutAttribute)
    ensures OneBit(Bit(a))
    ensures Bit(a) < MASK_LIMIT
  {
  }

  lemma BitsDiffer(a: LayoutAttribute, b: LayoutAttribute)
    requires a != NotAnAttribute && b != NotAnAttribute
    ensures Contains(Bit(a), Bit(b)) <==> a == b
  {
  }

  lemma AttributesOfBit(a: LayoutAttribute)
    requires a != NotAnAttribute
    ensures Attributes(Bit(a)) == {a}
  {
    forall b ensures b in Attributes(Bit(a)) <==> b == a {
      HasAttribute(Bit(a), b);
      if b != NotAnAttribute { BitsDiffer(a, b); }
    }
  }

  lemma SingleBit(bit: Mask, a: LayoutAttribute)
    requires a != NotAnAttribute && bit == Bit(a)
    ensures Listed(Attributes(bit)) == [a]
  {
    AttributesOfBit(a);
    SingletonList(a);
  }

  /** What the single bits stand for on every platform. */
  lemma CommonBits(m: Mask)
    ensures m == 1 ==> Listed(Attributes(m)) == [Left]
    ensures m == 2 ==> Listed(Attributes(m)) == [Top]
    ensures m == 4 ==> Listed(Attributes(m)) == [Right]
    ensures m == 8 ==> Listed(Attributes(m)) == [Bottom]
    ensures m == 16 ==> Listed(Attributes(m)) == [Leading]
    ensures m == 32 ==> Listed(Attributes(m)) == [Trailing]
    ensures m == 64 ==> Listed(Attributes(m)) == [Width]
    ensures m == 128 ==> Listed(Attributes(m)) == [Height]
    ensures m == 256 ==> Listed(Attributes(m)) == [CenterX]
    ensures m == 512 ==> Listed(Attributes(m)) == [CenterY]
    ensures m == 1024 ==> Listed(Attributes(m)) == [LastBaseline]
  {
    if m == 1 { SingleBit(m, Left); }
    else if m == 2 { SingleBit(m, Top); }
    else if m == 4 { SingleBit(m, Right); }
    else if m == 8 { SingleBit(m, Bottom); }
    else if m == 16 { SingleBit(m, Leading); }
    else if m == 32 { SingleBit(m, Trailing); }
    else if m == 64 { SingleBit(m, Width); }
    else if m == 128 { SingleBit(m, Height); }
    else if m == 256 { SingleBit(m, CenterX); }
    else if m == 512 { SingleBit(m, CenterY); }
    else if m == 1024 { SingleBit(m, LastBaseline); }
  }

  /** What the single bits stand for on iOS and tvOS only. */
  lemma MobileBits(m: Mask)
    ensures m == 2048 ==> Listed(Attributes(m)) == [FirstBaseline]
    ensures m == 4096 ==> Listed(Attributes(m)) == [LeftMargin]
    ensures m == 8192 ==> Listed(Attributes(m)) == [RightMargin]
    ensures m == 16384 ==> Listed(Attributes(m)) == [TopMargin]
    ensures m == 32768 ==> Listed(Attributes(m)) == [BottomMargin]
    ensures m == 65536 ==> Listed(Attributes(m)) == [LeadingMargin]
    ensures m == 131072 ==> Listed(Attributes(m)) == [TrailingMargin]
    ensures m == 262144 ==> Listed(Attributes(m)) == [CenterXWithinMargins]
    ensures m == 524288 ==> Listed(Attributes(m)) == [CenterYWithinMargins]
  {
    if m == 2048 { SingleBit(m, FirstBaseline); }
    else if m == 4096 { SingleBit(m, LeftMargin); }
    else if m == 8192 { SingleBit(m, RightMargin); }
    else if m == 16384 { SingleBit(m, TopMargin); }
    else if m == 32768 { SingleBit(m, BottomMargin); }
    else if m == 65536 { SingleBit(m, LeadingMargin); }
    else if m == 131072 { SingleBit(m, TrailingMargin); }
    else if m == 262144 { SingleBit(m, CenterXWithinMargins); }
    else if m == 524288 { SingleBit(m, CenterYWithinMargins); }
  }

  lemma UnionHasAttribute(m: Mask, n: Mask, a: LayoutAttribute)
    ensures a in Attributes(Union(m, n)) <==> a in Attributes(m) || a in Attributes(n)
  {
    HasAttribute(m, a);
    HasAttribute(n, a);
    HasAttribute(Union(m, n), a);
    BitIsSingle(a);
    UnionOnOneBit(m, n, Bit(a));
  }

  /** `+` and `+=` on masks are set union. */
  lemma AttributesOfUnion(m: Mask, n: Mask)
    ensures Attributes(Union(m, n)) == Attributes(m) + Attributes(n)
  {
    forall a ensures a in Attributes(Union(m, n)) <==> a in Attributes(m) + Attributes(n) {
      UnionHasAttribute(m, n, a);
    }
  }

  lemma SameBit(m: Mask, n: Mask, a: LayoutAttribute)
    requires Attributes(m) == Attributes(n) && a != NotAnAttribute
    ensures Contains(m, Bit(a)) == Contains(n, Bit(a))
  {
    HasAttribute(m, a);
    HasAttribute(n, a);
  }

  /** Below the limit a mask is determined by its attributes, so `==` on raw values is equality of sets. */
  lemma AttributesDetermineMask(m: Mask, n: Mask)
    requires m < MASK_LIMIT && n < MASK_LIMIT
    requires Attributes(m) == Attributes(n)
    ensures m == n
  {
    SameBit(m, n, Left);
    SameBit(m, n, Top);
    SameBit(m, n, Right);
    SameBit(m, n, Bottom);
    SameBit(m, n, Leading);
    SameBit(m, n, Trailing);
    SameBit(m, n, Width);
    SameBit(m, n, Height);
    SameBit(m, n, CenterX);
    SameBit(m, n, CenterY);
    SameBit(m, n, LastBaseline);
    SameBit(m, n, FirstBaseline);
    SameBit(m, n, LeftMargin);
    SameBit(m, n, RightMargin);
    SameBit(m, n, TopMargin);
    SameBit(m, n, BottomMargin);
    SameBit(m, n, LeadingMargin);
    SameBit(m, n, TrailingMargin);
    SameBit(m, n, CenterXWithinMargins);
    SameBit(m, n, CenterYWithinMargins);
    DeterminedByBits(m, n);
  }

  // ---------- The getter layoutAttributes ----------

  /** One test of the getter: append the attribute if the mask contains its bit. */
  method AppendIfContained(m: Mask, bit: Mask, a: LayoutAttribute, before: seq<LayoutAttribute>)
      returns (attrs: seq<LayoutAttribute>)
    requires 1 <= Rank(a) <= |ALL| && bit == Bit(a)
    requires before == Select(Attributes(m), ALL[..Rank(a) - 1])
    ensures attrs == Select(Attributes(m), ALL[..Rank(a)])
  {
    HasAttribute(m, a);
    AtItsRank(a);
    assert ALL[..Rank(a)][..Rank(a) - 1] == ALL[..Rank(a) - 1];
    attrs := before;
    if Contains(m, bit) {
      attrs := attrs + [a];
    }
  }

  /** The getter itself: twenty tests, one after the other. */
  method LayoutAttributes(m: Mask) returns (attrs: seq<LayoutAttribute>)
    ensures attrs == Listed(Attributes(m))
  {
    attrs := CommonTests(m);
    attrs := MobileTests(m, attrs);
    assert ALL[..|ALL|] == ALL;
    SelectIsListed(Attributes(m));
  }

  /** The tests made on every platform. */
  method CommonTests(m: Mask) returns (attrs: seq<LayoutAttribute>)
    ensures attrs == Select(Attributes(m), ALL[..11])
  {
    attrs := [];
    attrs := AppendIfContained(m, 1, Left, attrs);
    attrs := AppendIfContained(m, 2, Top, attrs);
    attrs := AppendIfContained(m, 4, Right, attrs);
    attrs := AppendIfContained(m, 8, Bottom, attrs);
    attrs := AppendIfContained(m, 16, Leading, attrs);
    attrs := AppendIfContained(m, 32, Trailing, attrs);
    attrs := AppendIfContained(m, 64, Width, attrs);
    attrs := AppendIfContained(m, 128, Height, attrs);
    attrs := AppendIfContained(m, 256, CenterX, attrs);
    attrs := AppendIfContained(m, 512, CenterY, attrs);
    attrs := AppendIfContained(m, 1024, LastBaseline, attrs);
  }

  /** The tests made on iOS and tvOS only. */
  method MobileTests(m: Mask, common: seq<LayoutAttribute>) returns (attrs: seq<LayoutAttribute>)
    requires common == Select(Attributes(m), ALL[..11])
    ensures attrs == Select(Attributes(m), ALL[..20])
  {
    attrs := common;
    attrs := AppendIfContained(m, 2048, FirstBaseline, attrs);
    attrs := AppendIfContained(m, 4096, LeftMargin, attrs);
    attrs := AppendIfContained(m, 8192, RightMargin, attrs);
    attrs := AppendIfContained(m, 16384, TopMargin, attrs);
    attrs := AppendIfContained(m, 32768, BottomMargin, attrs);
    attrs := AppendIfContained(m, 65536, LeadingMargin, attrs);
    attrs := AppendIfContained(m, 131072, TrailingMargin, attrs);
    attrs := AppendIfContained(m, 262144, CenterXWithinMargins, attrs);
    attrs := AppendIfContained(m, 524288, CenterYWithinMargins, attrs);
  }

  // ---------- Masks and lists determine each other ----------

  function MaskOf(s: seq<LayoutAttribute>): Mask {
    if s == [] then 0 else Union(Bit(s[0]), MaskOf(s[1..]))
  }

  lemma {:induction false} MaskOfHas(s: seq<LayoutAttribute>, a: LayoutAttribute)
    requires NotAnAttribute !in s
    ensures a in Attributes(MaskOf(s)) <==> a in s
  {
    if s == [] {
      HasAttribute(0, a);
    } else {
      var first, rest := s[0], s[1..];
      assert s == [first] + rest;
      MaskOfHas(rest, a);
      AttributesOfBit(first);
      UnionHasAttribute(Bit(first), MaskOf(rest), a);
    }
  }

  lemma {:induction false} MaskOfBelow(s: seq<LayoutAttribute>)
    ensures MaskOf(s) < MASK_LIMIT
  {
    if s == [] {
    } else {
      MaskOfBelow(s[1..]);
      BitIsSingle(s[0]);
      UnionBelow(Bit(s[0]), MaskOf(s[1..]), MASK_LIMIT);
    }
  }

  lemma AttributesOfMaskOf(s: seq<LayoutAttribute>)
    requires NotAnAttribute !in s
    ensures Attributes(MaskOf(s)) == Members(s)
  {
    forall a ensures a in Attributes(MaskOf(s)) <==> a in Members(s) { MaskOfHas(s, a); }
  }

  /**
   * layoutAttributes is a bijection between the masks below the limit and the ascending lists: mask to list to mask
   * and list to mask to list are both the identity.
   */
  lemma MasksAreAscendingLists(m: Mask, s: seq<LayoutAttribute>)
    ensures m < MASK_LIMIT ==> MaskOf(Listed(Attributes(m))) == m
    ensures Ascending(s) ==> MaskOf(s) < MASK_LIMIT && Listed(Attributes(MaskOf(s))) == s
  {
    var l := Listed(Attributes(m));
    AttributesOfMaskOf(l);
    MaskOfBelow(l);
    ListedBijective(Attributes(m), s);
    if m < MASK_LIMIT { AttributesDetermineMask(MaskOf(l), m); }
    if Ascending(s) {
      AttributesOfMaskOf(s);
      MaskOfBelow(s);
    }
  }

  /** The list equality in the guard of relatedTo is the mask equality in the compiler. */
  lemma ListEqualityIsMaskEquality(m: Mask, n: Mask)
    requires m < MASK_LIMIT && n < MASK_LIMIT
    ensures Listed(Attributes(m)) == Listed(Attributes(n)) <==> m == n
  {
    MasksAreAscendingLists(m, []);
    MasksAreAscendingLists(n, []);
  }

  lemma MaskOfFour(a: LayoutAttribute, b: LayoutAttribute, c: LayoutAttribute, d: LayoutAttribute)
    ensures MaskOf([a, b, c, d]) == Union(Bit(a), Union(Bit(b), Union(Bit(c), Bit(d))))
  {
    var s := [a, b, c, d];
    assert s[1..] == [b, c, d] && [b, c, d][1..] == [c, d];
    MaskOfTwo(c, d);
  }

  lemma MaskOfTwo(a: LayoutAttribute, b: LayoutAttribute)
    ensures MaskOf([a, b]) == Union(Bit(a), Bit(b))
  {
    assert [a, b][1..] == [b] && [b][1..] == [];
    assert MaskOf([b]) == Union(Bit(b), 0);
    UnionNone(Bit(b));
  }

  /** The raw values of the aggregates are the unions they are named for. */
  lemma AggregateMasks()
    ensures MaskOf([Left, Top, Right, Bottom]) == 15
    ensures MaskOf([Top, Bottom, Leading, Trailing]) == 58
    ensures MaskOf([LeftMargin, RightMargin, TopMargin, BottomMargin]) == 61440
    ensures MaskOf([TopMargin, BottomMargin, LeadingMargin, TrailingMargin]) == 245760
    ensures MaskOf([Width, Height]) == 192
    ensures MaskOf([CenterX, CenterY]) == 768
    ensures MaskOf([CenterXWithinMargins, CenterYWithinMargins]) == 786432
  {
    AggregateBits();
    MaskOfFour(Left, Top, Right, Bottom);
    MaskOfFour(Top, Bottom, Leading, Trailing);
    MaskOfFour(LeftMargin, RightMargin, TopMargin, BottomMargin);
    MaskOfFour(TopMargin, BottomMargin, LeadingMargin, TrailingMargin);
    MaskOfTwo(Width, Height);
    MaskOfTwo(CenterX, CenterY);
    MaskOfTwo(CenterXWithinMargins, CenterYWithinMargins);
  }

  lemma MembersOfFour(a: LayoutAttribute, b: LayoutAttribute, c: LayoutAttribute, d: LayoutAttribute)
    requires a != NotAnAttribute && b != NotAnAttribute && c != NotAnAttribute && d != NotAnAttribute
    ensures NotAnAttribute !in [a, b, c, d] && Members([a, b, c, d]) == {a, b, c, d}
  {
  }

  lemma MaskTest(m: Mask, a: LayoutAttribute, b: LayoutAttribute, c: LayoutAttribute, d: LayoutAttribute)
    requires m < MASK_LIMIT
    requires a != NotAnAttribute && b != NotAnAttribute && c != NotAnAttribute && d != NotAnAttribute
    ensures m == MaskOf([a, b, c, d]) <==> Attributes(m) == {a, b, c, d}
  {
    var s := [a, b, c, d];
    MembersOfFour(a, b, c, d);
    AttributesOfMaskOf(s);
    MaskOfBelow(s);
    if Attributes(m) == {a, b, c, d} { AttributesDetermineMask(m, MaskOf(s)); }
  }

  /** The mask comparisons of the compile loop and of the guard are the set comparisons of the model. */
  lemma AggregateTests(m: Mask)
    requires m < MASK_LIMIT
    ensures m == 15 <==> Attributes(m) == EDGES
    ensures m == 58 <==> Attributes(m) == DIRECTIONAL_EDGES
    ensures m == 61440 <==> Attributes(m) == MARGINS
    ensures m == 245760 <==> Attributes(m) == DIRECTIONAL_MARGINS
  {
    AggregateMasks();
    MaskTest(m, Left, Top, Right, Bottom);
    MaskTest(m, Top, Bottom, Leading, Trailing);
    MaskTest(m, LeftMargin, RightMargin, TopMargin, BottomMargin);
    MaskTest(m, TopMargin, BottomMargin, LeadingMargin, TrailingMargin);
  }

  // ---------- Chains of getters ----------

  /** The mask after `make.g0.g1. ... .gn`: each getter is a union into the same description. */
  function Chain(getters: seq<Mask>): Mask {
    if getters == [] then 0 else Union(Chain(getters[..|getters| - 1]), getters[|getters| - 1])
  }

  lemma {:induction false} ChainAbsorbs(getters: seq<Mask>, g: Mask)
    requires g in getters
    ensures Contains(Chain(getters), g)
  {
    var front, last := getters[..|getters| - 1], getters[|getters| - 1];
    assert getters == front + [last];
    if g in front {
      ChainAbsorbs(front, g);
    }
    UnionContains(Chain(front), last, g);
  }

  lemma {:induction false} ChainWithin(getters: seq<Mask>, m: Mask)
    requires forall g :: g in getters ==> Contains(m, g)
    ensures Contains(m, Chain(getters))
  {
    if getters == [] {
    } else {
      var front, last := getters[..|getters| - 1], getters[|getters| - 1];
      ChainWithin(front, m);
      UnionWithin(Chain(front), last, m);
    }
  }

  lemma {:induction false} ChainBelow(getters: seq<Mask>)
    requires forall i :: 0 <= i < |getters| ==> getters[i] < MASK_LIMIT
    ensures Chain(getters) < MASK_LIMIT
  {
    if getters == [] {
    } else {
      var front, last := getters[..|getters| - 1], getters[|getters| - 1];
      ChainBelow(front);
      UnionBelow(Chain(front), last, MASK_LIMIT);
    }
  }

  /** A chain of getters means the same in any order and with any repetition. */
  lemma ChainIgnoresOrderAndRepetition(gs: seq<Mask>, hs: seq<Mask>)
    requires forall g :: g in gs <==> g in hs
    ensures Chain(gs) == Chain(hs)
  {
    forall g | g in gs ensures Contains(Chain(hs), g) { ChainAbsorbs(hs, g); }
    forall g | g in hs ensures Contains(Chain(gs), g) { ChainAbsorbs(gs, g); }
    ChainWithin(gs, Chain(hs));
    ChainWithin(hs, Chain(gs));
    Antisymmetric(Chain(gs), Chain(hs));
  }

  /** The attributes the getters of a chain name, on their own or in an aggregate. */
  function Named(getters: seq<Mask>): AttributeSet {
    if getters == [] then NONE else Named(getters[..|getters| - 1]) + Attributes(getters[|getters| - 1])
  }

  /** A chain stands for exactly the attributes its getters name. */
  lemma {:induction false} ChainNames(getters: seq<Mask>)
    ensures Attributes(Chain(getters)) == Named(getters)
  {
    if getters == [] {
      NoAttributes();
    } else {
      var front, last := getters[..|getters| - 1], getters[|getters| - 1];
      ChainNames(front);
      AttributesOfUnion(Chain(front), last);
    }
  }

  lemma NoAttributes()
    ensures Attributes(0) == NONE
  {
    AttributesOfMaskOf([]);
    assert MaskOf([]) == 0;
  }

  /** Two chains build the same mask exactly when they name the same attributes, one by one or in aggregates. */
  lemma ChainsByName(gs: seq<Mask>, hs: seq<Mask>)
    requires forall i :: 0 <= i < |gs| ==> gs[i] < MASK_LIMIT
    requires forall i :: 0 <= i < |hs| ==> hs[i] < MASK_LIMIT
    ensures Chain(gs) == Chain(hs) <==> Named(gs) == Named(hs)
  {
    ChainNames(gs);
    ChainNames(hs);
    ChainBelow(gs);
    ChainBelow(hs);
    if Named(gs) == Named(hs) { AttributesDetermineMask(Chain(gs), Chain(hs)); }
  }
}
