/** Constraint.init read as a function: what one description compiles to. */
module Compiler {
  import opened AttributeLists
  import opened ConstantTargets
  import opened Options

  datatype Relation = Equal | LessThanOrEqual | GreaterThanOrEqual

  /** Everything Constraint.init looks at. The superview is the one of the from item at that moment. */
  datatype Request = Request(
    from: object,
    fromMask: AttributeSet,
    superview: object?,
    toTarget: object?,
    toMask: AttributeSet,
    relation: Relation,
    multiplier: real,
    constant: ConstantTarget,
    priority: real)

  /** The fields of one layout constraint, without its active flag. */
  datatype LayoutData = LayoutData(
    firstItem: object,
    firstAttribute: LayoutAttribute,
    relation: Relation,
    secondItem: object?,
    secondAttribute: LayoutAttribute,
    multiplier: real,
    constant: real,
    priority: real)

  // ---------- The attribute on the right-hand side ----------

  /** The four switches between edges and margins; None is their fatalError default. */
  function EdgeToMargin(a: LayoutAttribute): Option<LayoutAttribute> {
    match a
    case Left => Some(LeftMargin)
    case Right => Some(RightMargin)
    case Top => Some(TopMargin)
    case Bottom => Some(BottomMargin)
    case _ => None
  }

  function MarginToEdge(a: LayoutAttribute): Option<LayoutAttribute> {
    match a
    case LeftMargin => Some(Left)
    case RightMargin => Some(Right)
    case TopMargin => Some(Top)
    case BottomMargin => Some(Bottom)
    case _ => None
  }

  function DirectionalEdgeToMargin(a: LayoutAttribute): Option<LayoutAttribute> {
    match a
    case Leading => Some(LeadingMargin)
    case Trailing => Some(TrailingMargin)
    case Top => Some(TopMargin)
    case Bottom => Some(BottomMargin)
    case _ => None
  }

  function DirectionalMarginToEdge(a: LayoutAttribute): Option<LayoutAttribute> {
    match a
    case LeadingMargin => Some(Leading)
    case TrailingMargin => Some(Trailing)
    case TopMargin => Some(Top)
    case BottomMargin => Some(Bottom)
    case _ => None
  }

  /** Which branch of the compile loop a pair of masks takes, once the right-hand side names some attribute. */
  datatype Pairing = EdgesToMargins | MarginsToEdges | DirectionalEdgesToMargins | DirectionalMarginsToEdges
                   | SameMask | FirstOfTo

  predicate IsPair(s: AttributeSet, t: AttributeSet, s': AttributeSet, t': AttributeSet) {
    s == s' && t == t'
  }

  function PairingOf(fromMask: AttributeSet, toMask: AttributeSet): Pairing {
    if IsPair(fromMask, toMask, EDGES, MARGINS) then EdgesToMargins
    else if IsPair(fromMask, toMask, MARGINS, EDGES) then MarginsToEdges
    else if IsPair(fromMask, toMask, DIRECTIONAL_EDGES, DIRECTIONAL_MARGINS) then DirectionalEdgesToMargins
    else if IsPair(fromMask, toMask, DIRECTIONAL_MARGINS, DIRECTIONAL_EDGES) then DirectionalMarginsToEdges
    else if fromMask == toMask then SameMask
    else FirstOfTo
  }

  /** The attribute on the right-hand side; None where the program would stop with fatalError. */
  ghost function ToAttribute(p: Pairing, toMask: AttributeSet, noTarget: bool, a: LayoutAttribute)
      : Option<LayoutAttribute> {
    if |Listed(toMask)| > 0 then
      match p
      case EdgesToMargins => EdgeToMargin(a)
      case MarginsToEdges => MarginToEdge(a)
      case DirectionalEdgesToMargins => DirectionalEdgeToMargin(a)
      case DirectionalMarginsToEdges => DirectionalMarginToEdge(a)
      case SameMask => Some(a)
      case FirstOfTo => Some(Listed(toMask)[0])
    else if noTarget && (a == CenterX || a == CenterY) then
      Some(if a == CenterX then Left else Top)
    else
      Some(a)
  }

  /** The attributes a branch can meet. */
  predicate Meets(p: Pairing, a: LayoutAttribute) {
    match p
    case EdgesToMargins => a == Left || a == Top || a == Right || a == Bottom
    case MarginsToEdges => a == LeftMargin || a == TopMargin || a == RightMargin || a == BottomMargin
    case DirectionalEdgesToMargins => a == Leading || a == Top || a == Trailing || a == Bottom
    case DirectionalMarginsToEdges => a == LeadingMargin || a == TopMargin || a == TrailingMargin || a == BottomMargin
    case SameMask => a != NotAnAttribute
    case FirstOfTo => a != NotAnAttribute
  }

  lemma PairingMeets(fromMask: AttributeSet, toMask: AttributeSet, a: LayoutAttribute)
    requires a in fromMask
    ensures Meets(PairingOf(fromMask, toMask), a)
  {
  }

  lemma ToAttributeOfMet(p: Pairing, toMask: AttributeSet, noTarget: bool, a: LayoutAttribute)
    requires Meets(p, a)
    ensures ToAttribute(p, toMask, noTarget, a).Some?
    ensures ToAttribute(p, toMask, noTarget, a).value != NotAnAttribute
  {
  }

  /**
   * Compilation is total: whatever the two masks, no attribute of the first one reaches a fatalError default, and none
   * is related to notAnAttribute.
   */
  lemma CompilationTotal(fromMask: AttributeSet, toMask: AttributeSet, noTarget: bool, a: LayoutAttribute)
    requires a in fromMask
    ensures ToAttribute(PairingOf(fromMask, toMask), toMask, noTarget, a).Some?
    ensures ToAttribute(PairingOf(fromMask, toMask), toMask, noTarget, a).value != NotAnAttribute
  {
    PairingMeets(fromMask, toMask, a);
    ToAttributeOfMet(PairingOf(fromMask, toMask), toMask, noTarget, a);
  }

  ghost function SecondAttribute(r: Request, a: LayoutAttribute): LayoutAttribute
    requires a in r.fromMask
  {
    CompilationTotal(r.fromMask, r.toMask, r.toTarget == null, a);
    ToAttribute(PairingOf(r.fromMask, r.toMask), r.toMask, r.toTarget == null, a).value
  }

  // ---------- The compiled list ----------

  /** The superview stands in for a missing target unless the attribute is a dimension. */
  function SecondItem(r: Request, second: LayoutAttribute): object? {
    if r.toTarget == null && second != Width && second != Height then r.superview else r.toTarget
  }

  /** One round of the compile loop. UIKit stores notAnAttribute when there is no second item. */
  ghost function CompileOne(r: Request, dir: Direction, a: LayoutAttribute): LayoutData
    requires a in r.fromMask
  {
    var second := SecondAttribute(r, a);
    var item := SecondItem(r, second);
    LayoutData(r.from, a, r.relation, item, if item == null then NotAnAttribute else second,
               r.multiplier, ValueFor(r.constant, second, dir), r.priority)
  }

  ghost function CompileList(r: Request, dir: Direction, attrs: seq<LayoutAttribute>): (ds: seq<LayoutData>)
    requires forall i :: 0 <= i < |attrs| ==> attrs[i] in r.fromMask
    ensures |ds| == |attrs|
    ensures forall i :: 0 <= i < |attrs| ==> ds[i] == CompileOne(r, dir, attrs[i])
  {
    seq(|attrs|, i requires 0 <= i < |attrs| => CompileOne(r, dir, attrs[i]))
  }

  /** The layout constraints of a request, in the order the loop appends them. */
  ghost function Compile(r: Request, dir: Direction): seq<LayoutData> {
    CompileList(r, dir, Listed(r.fromMask))
  }

  // ---------- The guard of relatedTo, and what it buys ----------

  /** The pairs of masks the compile loop maps onto each other. */
  ghost predicate Opposite(s: AttributeSet, t: AttributeSet) {
    {s, t} == {EDGES, MARGINS} || {s, t} == {DIRECTIONAL_EDGES, DIRECTIONAL_MARGINS}
  }

  lemma OppositeCases(s: AttributeSet, t: AttributeSet)
    ensures Opposite(s, t)
        <==> || (s == EDGES && t == MARGINS)
             || (s == MARGINS && t == EDGES)
             || (s == DIRECTIONAL_EDGES && t == DIRECTIONAL_MARGINS)
             || (s == DIRECTIONAL_MARGINS && t == DIRECTIONAL_EDGES)
  {
    PairOfSets(s, t, EDGES, MARGINS);
    PairOfSets(s, t, DIRECTIONAL_EDGES, DIRECTIONAL_MARGINS);
  }

  lemma PairOfSets<T>(s: T, t: T, u: T, v: T)
    ensures {s, t} == {u, v} <==> (s == u && t == v) || (s == v && t == u)
  {
    if {s, t} == {u, v} {
      assert s in {u, v} && t in {u, v} && u in {s, t} && v in {s, t};
    }
  }

  /**
   * What relatedTo accepts for an item on the right-hand side: at most one attribute, the same ones or the opposite
   * ones.
   */
  ghost predicate GuardAccepts(fromMask: AttributeSet, toMask: AttributeSet) {
    |toMask| <= 1 || toMask == fromMask || Opposite(fromMask, toMask)
  }

  /** The edge or margin opposite an attribute. */
  function Counterpart(a: LayoutAttribute): LayoutAttribute {
    match a
    case Left => LeftMargin
    case Right => RightMargin
    case Top => TopMargin
    case Bottom => BottomMargin
    case Leading => LeadingMargin
    case Trailing => TrailingMargin
    case LeftMargin => Left
    case RightMargin => Right
    case TopMargin => Top
    case BottomMargin => Bottom
    case LeadingMargin => Leading
    case TrailingMargin => Trailing
    case _ => a
  }

  /** What a single attribute is related to when the whole mask is related to toMask. */
  ghost function PartnerMask(fromMask: AttributeSet, toMask: AttributeSet, a: LayoutAttribute): AttributeSet
    requires a != NotAnAttribute
  {
    if |Listed(toMask)| <= 1 then toMask
    else if toMask == fromMask then {a}
    else {Counterpart(a)}
  }

  /** The request for one attribute alone: `make.a.equalTo(partner)`. */
  ghost function Single(r: Request, a: LayoutAttribute): Request
    requires a != NotAnAttribute
  {
    r.(fromMask := {a}, toMask := PartnerMask(r.fromMask, r.toMask, a))
  }

  /** Compiling every attribute on its own, in ascending bit order, and concatenating. */
  ghost function CompileSeparately(r: Request, dir: Direction, attrs: seq<LayoutAttribute>): seq<LayoutData>
    requires NotAnAttribute !in attrs
  {
    if attrs == [] then []
    else Compile(Single(r, attrs[0]), dir) + CompileSeparately(r, dir, attrs[1..])
  }

  lemma SingleCompiles(r: Request, dir: Direction, a: LayoutAttribute)
    requires GuardAccepts(r.fromMask, r.toMask)
    requires a in r.fromMask
    ensures Compile(Single(r, a), dir) == [CompileOne(r, dir, a)]
  {
    var s := Single(r, a);
    SingletonList(a);
    SecondAttributeAlone(r, a);
    assert Compile(s, dir)[0] == CompileOne(s, dir, a);
  }

  lemma SecondAttributeAlone(r: Request, a: LayoutAttribute)
    requires GuardAccepts(r.fromMask, r.toMask)
    requires a in r.fromMask
    ensures SecondAttribute(Single(r, a), a) == SecondAttribute(r, a)
  {
    var noTarget := r.toTarget == null;
    if |Listed(r.toMask)| > 1 {
      AloneAgainstMany(r.fromMask, r.toMask, noTarget, a);
    } else if |Listed(r.toMask)| == 1 {
      AloneAgainstOne(r.fromMask, r.toMask, noTarget, a);
    }
  }

  lemma AloneAgainstMany(fromMask: AttributeSet, toMask: AttributeSet, noTarget: bool, a: LayoutAttribute)
    requires GuardAccepts(fromMask, toMask) && |Listed(toMask)| > 1 && a in fromMask
    ensures var partner := PartnerMask(fromMask, toMask, a);
            ToAttribute(PairingOf({a}, partner), partner, noTarget, a)
            == ToAttribute(PairingOf(fromMask, toMask), toMask, noTarget, a)
  {
    var b := if toMask == fromMask then a else Counterpart(a);
    SingletonList(b);
    PairingAlone(a, {b});
    assert {b} == {a} <==> a == b by { assert a in {a} && b in {b}; }
    ToSingleton(PairingOf({a}, {b}), noTarget, a, b);
    PairingAccepted(fromMask, toMask);
    PairingMeets(fromMask, toMask, a);
    MetCounterpart(PairingOf(fromMask, toMask), toMask, noTarget, a);
  }

  lemma ToSingleton(p: Pairing, noTarget: bool, a: LayoutAttribute, b: LayoutAttribute)
    requires b != NotAnAttribute && (p == FirstOfTo || (p == SameMask && a == b))
    ensures ToAttribute(p, {b}, noTarget, a) == Some(b)
  {
    SingletonList(b);
  }

  lemma AloneAgainstOne(fromMask: AttributeSet, toMask: AttributeSet, noTarget: bool, a: LayoutAttribute)
    requires |Listed(toMask)| == 1 && a in fromMask
    ensures ToAttribute(PairingOf({a}, toMask), toMask, noTarget, a)
            == ToAttribute(PairingOf(fromMask, toMask), toMask, noTarget, a)
  {
    var b := Listed(toMask)[0];
    OneElement(toMask);
    PairingAlone(a, toMask);
    PairingOfOne(fromMask, b);
    assert {b} == {a} <==> a == b by { assert a in {a} && b in {b}; }
    ToSingleton(PairingOf({a}, toMask), noTarget, a, b);
    ToSingleton(PairingOf(fromMask, toMask), noTarget, a, b);
  }

  /** A single attribute never takes one of the four edge/margin branches. */
  lemma PairingAlone(a: LayoutAttribute, partner: AttributeSet)
    requires a != NotAnAttribute
    ensures PairingOf({a}, partner) == if partner == {a} then SameMask else FirstOfTo
  {
    assert Left in EDGES && Top in EDGES && Leading in DIRECTIONAL_EDGES && Top in DIRECTIONAL_EDGES;
    assert LeftMargin in MARGINS && TopMargin in MARGINS;
    assert LeadingMargin in DIRECTIONAL_MARGINS && TopMargin in DIRECTIONAL_MARGINS;
  }

  /** Nor does a mask related to a single attribute. */
  lemma PairingOfOne(fromMask: AttributeSet, b: LayoutAttribute)
    requires b != NotAnAttribute
    ensures PairingOf(fromMask, {b}) == if fromMask == {b} then SameMask else FirstOfTo
  {
    assert Left in EDGES && Top in EDGES && Leading in DIRECTIONAL_EDGES && Top in DIRECTIONAL_EDGES;
    assert LeftMargin in MARGINS && TopMargin in MARGINS;
    assert LeadingMargin in DIRECTIONAL_MARGINS && TopMargin in DIRECTIONAL_MARGINS;
  }

  /** What the guard lets through with several attributes on the right-hand side. */
  lemma PairingAccepted(fromMask: AttributeSet, toMask: AttributeSet)
    requires GuardAccepts(fromMask, toMask) && |Listed(toMask)| > 1
    ensures PairingOf(fromMask, toMask) != FirstOfTo
    ensures PairingOf(fromMask, toMask) == SameMask <==> fromMask == toMask
  {
    ListHasSize(Listed(toMask), toMask);
    PairingOfSame(toMask);
    if fromMask != toMask { OppositeCases(fromMask, toMask); }
  }

  lemma MetCounterpart(p: Pairing, toMask: AttributeSet, noTarget: bool, a: LayoutAttribute)
    requires Meets(p, a) && p != FirstOfTo && |Listed(toMask)| > 0
    ensures ToAttribute(p, toMask, noTarget, a) == Some(if p == SameMask then a else Counterpart(a))
  {
  }

  lemma PairingOfSame(s: AttributeSet)
    ensures PairingOf(s, s) == SameMask
  {
    assert Left in EDGES && Left !in MARGINS && Leading in DIRECTIONAL_EDGES && Leading !in DIRECTIONAL_MARGINS;
  }

  lemma OneElement(s: AttributeSet)
    requires |Listed(s)| == 1
    ensures s == {Listed(s)[0]}
  {
    assert forall a :: a in Listed(s) <==> a in s;
  }

  lemma SameListSameSet(s: AttributeSet, t: AttributeSet)
    ensures Listed(s) == Listed(t) <==> s == t
  {
    ListedBijective(s, Listed(t));
    ListedBijective(t, Listed(s));
  }

  /**
   * Every pair of masks the guard accepts compiles attribute by attribute: a mask means the concatenation of what its
   * single attributes mean.
   */
  lemma {:induction false} GuardedCompilationDecomposes(r: Request, dir: Direction, attrs: seq<LayoutAttribute>)
    requires GuardAccepts(r.fromMask, r.toMask)
    requires forall i :: 0 <= i < |attrs| ==> attrs[i] in r.fromMask
    ensures CompileSeparately(r, dir, attrs) == CompileList(r, dir, attrs)
  {
    if attrs == [] {
    } else {
      GuardedCompilationDecomposes(r, dir, attrs[1..]);
      SingleCompiles(r, dir, attrs[0]);
    }
  }

  lemma CompilationDecomposes(r: Request, dir: Direction)
    requires GuardAccepts(r.fromMask, r.toMask)
    ensures Compile(r, dir) == CompileSeparately(r, dir, Listed(r.fromMask))
  {
    GuardedCompilationDecomposes(r, dir, Listed(r.fromMask));
  }

  // ---------- The attribute looked up later ----------

  /** The attribute that an update reads the constant for: the first when the second is notAnAttribute. */
  function LookupAttribute(d: LayoutData): LayoutAttribute {
    if d.secondAttribute == NotAnAttribute then d.firstAttribute else d.secondAttribute
  }

  /** A centre attribute related to nothing at all: no target, and no superview to stand in for it. */
  ghost predicate Unhosted(r: Request, a: LayoutAttribute) {
    r.toTarget == null && r.superview == null && (a == CenterX || a == CenterY)
  }

  /** A right-hand side that names an attribute must name an item too, as every ConstraintItem of the DSL does. */
  ghost predicate Rooted(r: Request) {
    r.toTarget == null ==> r.toMask == NONE
  }

  /**
   * The attribute an update looks up is the attribute the compiler used, and therefore the update recomputes exactly
   * the compiled constant, unless a centre attribute was compiled without any second item.
   */
  lemma LookupAgreesWithCompile(r: Request, dir: Direction, a: LayoutAttribute)
    requires a in r.fromMask && Rooted(r)
    ensures LookupAttribute(CompileOne(r, dir, a)) == SecondAttribute(r, a) <==> !Unhosted(r, a)
  {
    if r.toTarget == null {
      NoneList();
      assert SecondAttribute(r, a) == if a == CenterX then Left else if a == CenterY then Top else a;
    } else {
      CompilationTotal(r.fromMask, r.toMask, false, a);
      assert CompileOne(r, dir, a).secondItem == r.toTarget;
    }
  }

  /** The attribute a centre is compiled to when there is no target. */
  function CompiledAlone(a: LayoutAttribute): LayoutAttribute {
    if a == CenterX then Left else if a == CenterY then Top else a
  }

  /** Every centre that is related to nothing has a constant that reads the same for the centre and for its stand-in. */
  ghost predicate DriftFree(r: Request, dir: Direction) {
    forall a :: a in r.fromMask && Unhosted(r, a) ==>
      ValueFor(r.constant, a, dir) == ValueFor(r.constant, CompiledAlone(a), dir)
  }

  /** The constant an update would recompute for one compiled layout constraint. */
  ghost predicate Steady(r: Request, dir: Direction, a: LayoutAttribute)
    requires a in r.fromMask
  {
    ValueFor(r.constant, LookupAttribute(CompileOne(r, dir, a)), dir) == CompileOne(r, dir, a).constant
  }

  /** Exactly when the recomputed constant is the compiled one. */
  lemma SteadyUnlessUnhosted(r: Request, dir: Direction, a: LayoutAttribute)
    requires a in r.fromMask && Rooted(r)
    ensures Steady(r, dir, a)
        <==> (Unhosted(r, a) ==> ValueFor(r.constant, a, dir) == ValueFor(r.constant, CompiledAlone(a), dir))
  {
    LookupAgreesWithCompile(r, dir, a);
    if Unhosted(r, a) { NoneList(); }
  }

  /** Which constants read the same for a centre and for the edge that stands in for it. */
  ghost predicate Balanced(k: ConstantTarget, a: LayoutAttribute, dir: Direction)
    requires a == CenterX || a == CenterY
  {
    match k
    case Insets(top, left, bottom, right) => if a == CenterX then left + right == 0.0 else top + bottom == 0.0
    case DirectionalInsets(top, leading, bottom, trailing) =>
      if a == CenterY then top + bottom == 0.0
      else if dir == LeftToRight then leading + trailing == 0.0
      else leading == 3.0 * trailing
    case _ => true
  }

  /** Numbers, sizes and points never drift, and insets exactly when they do not balance out. */
  lemma DriftFreeIsBalanced(r: Request, dir: Direction)
    ensures DriftFree(r, dir) <==>
      forall a :: a in r.fromMask && (a == CenterX || a == CenterY) && r.toTarget == null && r.superview == null ==>
        Balanced(r.constant, a, dir)
  {
    forall a | a == CenterX || a == CenterY
      ensures ValueFor(r.constant, a, dir) == ValueFor(r.constant, CompiledAlone(a), dir)
        <==> Balanced(r.constant, a, dir)
    {
    }
  }

  /** Under a superview or with a target nothing drifts, whatever the constant. */
  lemma HostedIsDriftFree(r: Request, dir: Direction)
    requires r.superview != null || r.toTarget != null
    ensures DriftFree(r, dir)
  {
  }

  /** The exception is real: centred in nothing with asymmetric insets, the update changes the constant. */
  lemma UnhostedCentreDrifts(o: object, dir: Direction)
    ensures var r := Request(o, {CenterX}, null, null, NONE, Equal, 1.0, Insets(0.0, 8.0, 0.0, 0.0), 1000.0);
            CenterX in r.fromMask
            && CompileOne(r, dir, CenterX).constant == 8.0
            && ValueFor(r.constant, LookupAttribute(CompileOne(r, dir, CenterX)), dir) == 4.0
  {
    NoneList();
  }
}
