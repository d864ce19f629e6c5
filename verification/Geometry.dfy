/** The meaning of compiled layout constraints: which frames satisfy them. */
module Geometry {
  import opened AttributeLists
  import opened ConstantTargets
  import opened Compiler

  /** A rectangle in the common coordinate space. */
  datatype Rect = Rect(left: real, top: real, right: real, bottom: real)

  /** A laid out item: its frame, its layout margins frame and its baselines. */
  datatype Box = Box(frame: Rect, margins: Rect, firstBaseline: real, lastBaseline: real)

  /** Leading and trailing are read in mirrored coordinates when the layout runs right to left. */
  function LeadingOf(r: Rect, dir: Direction): real {
    if dir == LeftToRight then r.left else -r.right
  }

  function TrailingOf(r: Rect, dir: Direction): real {
    if dir == LeftToRight then r.right else -r.left
  }

  function AttributeValue(b: Box, a: LayoutAttribute, dir: Direction): real {
    match a
    case NotAnAttribute => 0.0
    case Left => b.frame.left
    case Top => b.frame.top
    case Right => b.frame.right
    case Bottom => b.frame.bottom
    case Leading => LeadingOf(b.frame, dir)
    case Trailing => TrailingOf(b.frame, dir)
    case Width => b.frame.right - b.frame.left
    case Height => b.frame.bottom - b.frame.top
    case CenterX => (b.frame.left + b.frame.right) / 2.0
    case CenterY => (b.frame.top + b.frame.bottom) / 2.0
    case LastBaseline => b.lastBaseline
    case FirstBaseline => b.firstBaseline
    case LeftMargin => b.margins.left
    case RightMargin => b.margins.right
    case TopMargin => b.margins.top
    case BottomMargin => b.margins.bottom
    case LeadingMargin => LeadingOf(b.margins, dir)
    case TrailingMargin => TrailingOf(b.margins, dir)
    case CenterXWithinMargins => (b.margins.left + b.margins.right) / 2.0
    case CenterYWithinMargins => (b.margins.top + b.margins.bottom) / 2.0
  }

  predicate Holds(rel: Relation, x: real, y: real) {
    match rel
    case Equal => x == y
    case LessThanOrEqual => x <= y
    case GreaterThanOrEqual => x >= y
  }

  function Flipped(rel: Relation): Relation {
    match rel
    case Equal => Equal
    case LessThanOrEqual => GreaterThanOrEqual
    case GreaterThanOrEqual => LessThanOrEqual
  }

  /** The right-hand side of an equation: multiplier times coordinate, plus constant. */
  function Placed(m: real, y: real, k: real): real {
    m * y + k
  }

  /** The equation a layout constraint stands for. */
  ghost predicate Satisfied(d: LayoutData, boxes: object -> Box, dir: Direction) {
    var second := if d.secondItem == null then 0.0 else AttributeValue(boxes(d.secondItem), d.secondAttribute, dir);
    Holds(d.relation, AttributeValue(boxes(d.firstItem), d.firstAttribute, dir),
          Placed(d.multiplier, second, d.constant))
  }

  /** An equation between mirrored coordinates is the flipped one between the plain coordinates. */
  lemma Mirrored(rel: Relation, x: real, m: real, y: real, k: real)
    ensures Holds(rel, -x, Placed(m, -y, k)) <==> Holds(Flipped(rel), x, Placed(m, y, -k))
  {
  }

  ghost predicate AllSatisfied(ds: seq<LayoutData>, boxes: object -> Box, dir: Direction) {
    forall i :: 0 <= i < |ds| ==> Satisfied(ds[i], boxes, dir)
  }

  /** The plain insets a constant stands for. */
  function PlainInsets(k: ConstantTarget, dir: Direction): ConstantTarget
    requires k.Insets? || k.DirectionalInsets?
  {
    if k.Insets? then k else Physical(k, dir)
  }

  function Shrunk(r: Rect, i: ConstantTarget): Rect
    requires i.Insets?
  {
    Rect(r.left + i.left, r.top + i.top, r.right - i.right, r.bottom - i.bottom)
  }

  /** The rectangle a request asks for: the target's, every coordinate times the multiplier, shrunk by the insets. */
  function Goal(k: ConstantTarget, m: real, target: Rect, dir: Direction): Rect
    requires k.Insets? || k.DirectionalInsets?
  {
    var i := PlainInsets(k, dir);
    Rect(Placed(m, target.left, i.left), Placed(m, target.top, i.top),
         Placed(m, target.right, -i.right), Placed(m, target.bottom, -i.bottom))
  }

  /** With the default multiplier the goal is the target's rectangle shrunk by the insets. */
  lemma UnscaledGoal(k: ConstantTarget, target: Rect, dir: Direction)
    requires k.Insets? || k.DirectionalInsets?
    ensures Goal(k, 1.0, target, dir) == Shrunk(target, PlainInsets(k, dir))
  {
  }

  /** Side by side comparison of two rectangles, horizontally and vertically. */
  predicate SidesHold(horizontal: Relation, vertical: Relation, r: Rect, s: Rect) {
    && Holds(horizontal, r.left, s.left)
    && Holds(horizontal, r.right, s.right)
    && Holds(vertical, r.top, s.top)
    && Holds(vertical, r.bottom, s.bottom)
  }

  // ---------- Rectangles ----------

  ghost predicate InsetRequest(r: Request) {
    && r.toTarget != null
    && (r.constant.Insets? || r.constant.DirectionalInsets?)
  }

  /** `make.a.relation(target's b).inset(k)` as an equation. */
  ghost predicate Side(r: Request, dir: Direction, boxes: object -> Box, a: LayoutAttribute, b: LayoutAttribute)
    requires r.toTarget != null
  {
    Satisfied(LayoutData(r.from, a, r.relation, r.toTarget, b, r.multiplier, ValueFor(r.constant, b, dir), r.priority),
              boxes, dir)
  }

  lemma OneSide(r: Request, dir: Direction, boxes: object -> Box, a: LayoutAttribute, b: LayoutAttribute)
    requires InsetRequest(r) && a in r.fromMask && SecondAttribute(r, a) == b
    ensures Satisfied(CompileOne(r, dir, a), boxes, dir) <==> Side(r, dir, boxes, a, b)
  {
    assert CompileOne(r, dir, a)
        == LayoutData(r.from, a, r.relation, r.toTarget, b, r.multiplier, ValueFor(r.constant, b, dir), r.priority);
  }

  lemma FourSides(r: Request, dir: Direction, boxes: object -> Box, from: seq<LayoutAttribute>,
                  to: seq<LayoutAttribute>)
    requires InsetRequest(r) && Paired(r, from, to)
    ensures AllSatisfied(Compile(r, dir), boxes, dir)
            <==> Side(r, dir, boxes, from[0], to[0]) && Side(r, dir, boxes, from[1], to[1])
                 && Side(r, dir, boxes, from[2], to[2]) && Side(r, dir, boxes, from[3], to[3])
  {
    var ds := Compile(r, dir);
    forall i | 0 <= i < 4 ensures Satisfied(ds[i], boxes, dir) <==> Side(r, dir, boxes, from[i], to[i]) {
      OneSide(r, dir, boxes, from[i], to[i]);
    }
  }

  /** The attribute each one of the list is related to. */
  ghost predicate Paired(r: Request, from: seq<LayoutAttribute>, to: seq<LayoutAttribute>) {
    && Listed(r.fromMask) == from && |from| == |to| == 4
    && forall i :: 0 <= i < 4 ==> from[i] in r.fromMask && SecondAttribute(r, from[i]) == to[i]
  }

  lemma SelfPairedList(r: Request, from: seq<LayoutAttribute>)
    requires Listed(r.fromMask) == from && |from| == 4
    requires r.toTarget != null && (r.toMask == NONE || r.toMask == r.fromMask)
    ensures Paired(r, from, from)
  {
    forall i | 0 <= i < 4 ensures from[i] in r.fromMask && SecondAttribute(r, from[i]) == from[i] {
      assert from[i] in from;
      SelfPaired(r, from[i]);
    }
  }

  lemma CrossPairedList(r: Request, from: seq<LayoutAttribute>, to: seq<LayoutAttribute>)
    requires Listed(r.fromMask) == from && |from| == |to| == 4
    requires Opposite(r.fromMask, r.toMask)
    requires forall i :: 0 <= i < 4 ==> to[i] == Counterpart(from[i])
    ensures Paired(r, from, to)
  {
    forall i | 0 <= i < 4 ensures from[i] in r.fromMask && SecondAttribute(r, from[i]) == to[i] {
      assert from[i] in from;
      CrossPaired(r, from[i]);
    }
  }

  lemma SelfPaired(r: Request, a: LayoutAttribute)
    requires a in r.fromMask && r.toTarget != null && (r.toMask == NONE || r.toMask == r.fromMask)
    ensures SecondAttribute(r, a) == a
  {
    NoneList();
    PairingOfSame(r.fromMask);
  }

  lemma VerticalSides(r: Request, dir: Direction, boxes: object -> Box)
    requires InsetRequest(r)
    ensures var f := boxes(r.from).frame; var goal := Goal(r.constant, r.multiplier, boxes(r.toTarget).frame, dir);
            && (Side(r, dir, boxes, Top, Top) <==> Holds(r.relation, f.top, goal.top))
            && (Side(r, dir, boxes, Bottom, Bottom) <==> Holds(r.relation, f.bottom, goal.bottom))
  {
  }

  lemma HorizontalSides(r: Request, dir: Direction, boxes: object -> Box)
    requires InsetRequest(r)
    ensures var f := boxes(r.from).frame; var goal := Goal(r.constant, r.multiplier, boxes(r.toTarget).frame, dir);
            && (Side(r, dir, boxes, Left, Left) <==> Holds(r.relation, f.left, goal.left))
            && (Side(r, dir, boxes, Right, Right) <==> Holds(r.relation, f.right, goal.right))
  {
  }

  /** Right to left, leading is the mirrored right side and trailing the mirrored left one. */
  lemma DirectionalSides(r: Request, dir: Direction, boxes: object -> Box)
    requires InsetRequest(r)
    ensures var f := boxes(r.from).frame; var goal := Goal(r.constant, r.multiplier, boxes(r.toTarget).frame, dir);
            var leading, trailing := Side(r, dir, boxes, Leading, Leading), Side(r, dir, boxes, Trailing, Trailing);
            && (dir == LeftToRight ==>
                  && (leading <==> Holds(r.relation, f.left, goal.left))
                  && (trailing <==> Holds(r.relation, f.right, goal.right)))
            && (dir == RightToLeft ==>
                  && (leading <==> Holds(Flipped(r.relation), f.right, goal.right))
                  && (trailing <==> Holds(Flipped(r.relation), f.left, goal.left)))
  {
    var f, t := boxes(r.from).frame, boxes(r.toTarget).frame;
    Mirrored(r.relation, f.right, r.multiplier, t.right, ValueFor(r.constant, Leading, dir));
    Mirrored(r.relation, f.left, r.multiplier, t.left, ValueFor(r.constant, Trailing, dir));
  }

  /**
   * `edges.relation(target).inset(k)`: the frame relates side by side to the target's frame, scaled by the
   * multiplier and shrunk by k, for every k, relation and layout direction; with equalTo, the frame is exactly that
   * rectangle.
   */
  lemma EdgesMeaning(r: Request, dir: Direction, boxes: object -> Box)
    requires InsetRequest(r) && r.fromMask == EDGES && (r.toMask == NONE || r.toMask == EDGES)
    ensures var goal := Goal(r.constant, r.multiplier, boxes(r.toTarget).frame, dir);
            && (AllSatisfied(Compile(r, dir), boxes, dir)
                <==> SidesHold(r.relation, r.relation, boxes(r.from).frame, goal))
            && (r.relation == Equal ==> (AllSatisfied(Compile(r, dir), boxes, dir) <==> boxes(r.from).frame == goal))
  {
    EdgeList();
    var from := [Left, Top, Right, Bottom];
    SelfPairedList(r, from);
    FourSides(r, dir, boxes, from, from);
    VerticalSides(r, dir, boxes);
    HorizontalSides(r, dir, boxes);
  }

  /**
   * `directionalEdges.relation(target).inset(k)` has the solutions of `edges.relation(target).inset(k)`, in both
   * layout directions, except that right-to-left turns a horizontal inequality round.
   */
  lemma DirectionalEdgesMeaning(r: Request, dir: Direction, boxes: object -> Box)
    requires InsetRequest(r) && r.fromMask == DIRECTIONAL_EDGES && (r.toMask == NONE || r.toMask == DIRECTIONAL_EDGES)
    ensures var goal := Goal(r.constant, r.multiplier, boxes(r.toTarget).frame, dir);
            var horizontal := if dir == LeftToRight then r.relation else Flipped(r.relation);
            && (AllSatisfied(Compile(r, dir), boxes, dir)
                <==> SidesHold(horizontal, r.relation, boxes(r.from).frame, goal))
            && (r.relation == Equal ==> (AllSatisfied(Compile(r, dir), boxes, dir) <==> boxes(r.from).frame == goal))
  {
    DirectionalEdgeList();
    var from := [Top, Bottom, Leading, Trailing];
    SelfPairedList(r, from);
    FourSides(r, dir, boxes, from, from);
    VerticalSides(r, dir, boxes);
    DirectionalSides(r, dir, boxes);
  }

  /** Two requests that differ in nothing but plain against directional edges. */
  ghost predicate EdgesInBothForms(r: Request, s: Request) {
    && InsetRequest(r)
    && r.fromMask == EDGES && (r.toMask == NONE || r.toMask == EDGES)
    && s.fromMask == DIRECTIONAL_EDGES && (s.toMask == NONE || s.toMask == DIRECTIONAL_EDGES)
    && s == r.(fromMask := s.fromMask, toMask := s.toMask)
  }

  /** Plain and directional edges with the same insets have the same solutions, but for right-to-left inequalities. */
  lemma EdgesEqualDirectionalEdges(r: Request, s: Request, dir: Direction, boxes: object -> Box)
    requires EdgesInBothForms(r, s) && (r.relation == Equal || dir == LeftToRight)
    ensures AllSatisfied(Compile(r, dir), boxes, dir) <==> AllSatisfied(Compile(s, dir), boxes, dir)
  {
    EdgesMeaning(r, dir, boxes);
    DirectionalEdgesMeaning(s, dir, boxes);
    assert s.from == r.from && s.toTarget == r.toTarget && s.constant == r.constant && s.multiplier == r.multiplier;
  }

  /** Right to left an inequality tells the two forms apart: the goal rectangle moved to one side satisfies one only. */
  lemma InequalitiesDifferRightToLeft(r: Request, s: Request) returns (boxes: object -> Box)
    requires EdgesInBothForms(r, s) && r.relation != Equal && r.from != r.toTarget
    ensures AllSatisfied(Compile(r, RightToLeft), boxes, RightToLeft)
    ensures !AllSatisfied(Compile(s, RightToLeft), boxes, RightToLeft)
  {
    var target := Box(Rect(0.0, 0.0, 0.0, 0.0), Rect(0.0, 0.0, 0.0, 0.0), 0.0, 0.0);
    var goal := Goal(r.constant, r.multiplier, target.frame, RightToLeft);
    var aside := if r.relation == LessThanOrEqual then -1.0 else 1.0;
    var own := target.(frame := goal.(left := goal.left + aside, right := goal.right + aside));
    var view: object := r.toTarget;
    boxes := o => if o == view then target else own;
    EdgesMeaning(r, RightToLeft, boxes);
    DirectionalEdgesMeaning(s, RightToLeft, boxes);
    assert s.from == r.from && s.toTarget == r.toTarget && s.constant == r.constant && s.multiplier == r.multiplier;
  }

  /** `equalTo(view).inset(k)` at the default multiplier: the frame is exactly the view's rectangle shrunk by k. */
  lemma InsetFrame(r: Request, dir: Direction, boxes: object -> Box)
    requires InsetRequest(r) && r.relation == Equal && r.multiplier == 1.0
    requires r.fromMask == EDGES || r.fromMask == DIRECTIONAL_EDGES
    requires r.toMask == NONE || r.toMask == r.fromMask
    ensures AllSatisfied(Compile(r, dir), boxes, dir)
            <==> boxes(r.from).frame == Shrunk(boxes(r.toTarget).frame, PlainInsets(r.constant, dir))
  {
    UnscaledGoal(r.constant, boxes(r.toTarget).frame, dir);
    if r.fromMask == EDGES {
      EdgesMeaning(r, dir, boxes);
    } else {
      DirectionalEdgesMeaning(r, dir, boxes);
    }
  }

  lemma CrossPaired(r: Request, a: LayoutAttribute)
    requires a in r.fromMask && Opposite(r.fromMask, r.toMask)
    ensures SecondAttribute(r, a) == Counterpart(a)
  {
    OppositesAreLong(r.fromMask, r.toMask);
    PairingAccepted(r.fromMask, r.toMask);
    PairingMeets(r.fromMask, r.toMask, a);
    MetCounterpart(PairingOf(r.fromMask, r.toMask), r.toMask, r.toTarget == null, a);
  }

  lemma OppositesAreLong(s: AttributeSet, t: AttributeSet)
    requires Opposite(s, t)
    ensures |Listed(t)| > 1 && s != t
  {
    OppositeCases(s, t);
    EdgeList();
    MarginList();
    DirectionalEdgeList();
    DirectionalMarginList();
  }

  lemma EdgeAgainstMarginAcross(r: Request, dir: Direction, boxes: object -> Box)
    requires InsetRequest(r)
    ensures var f := boxes(r.from).frame; var goal := Goal(r.constant, r.multiplier, boxes(r.toTarget).margins, dir);
            && (Side(r, dir, boxes, Left, LeftMargin) <==> Holds(r.relation, f.left, goal.left))
            && (Side(r, dir, boxes, Right, RightMargin) <==> Holds(r.relation, f.right, goal.right))
  {
  }

  lemma EdgeAgainstMarginDown(r: Request, dir: Direction, boxes: object -> Box)
    requires InsetRequest(r)
    ensures var f := boxes(r.from).frame; var goal := Goal(r.constant, r.multiplier, boxes(r.toTarget).margins, dir);
            && (Side(r, dir, boxes, Top, TopMargin) <==> Holds(r.relation, f.top, goal.top))
            && (Side(r, dir, boxes, Bottom, BottomMargin) <==> Holds(r.relation, f.bottom, goal.bottom))
  {
  }

  lemma MarginAgainstEdgeAcross(r: Request, dir: Direction, boxes: object -> Box)
    requires InsetRequest(r)
    ensures var f := boxes(r.from).margins; var goal := Goal(r.constant, r.multiplier, boxes(r.toTarget).frame, dir);
            && (Side(r, dir, boxes, LeftMargin, Left) <==> Holds(r.relation, f.left, goal.left))
            && (Side(r, dir, boxes, RightMargin, Right) <==> Holds(r.relation, f.right, goal.right))
  {
  }

  lemma MarginAgainstEdgeDown(r: Request, dir: Direction, boxes: object -> Box)
    requires InsetRequest(r)
    ensures var f := boxes(r.from).margins; var goal := Goal(r.constant, r.multiplier, boxes(r.toTarget).frame, dir);
            && (Side(r, dir, boxes, TopMargin, Top) <==> Holds(r.relation, f.top, goal.top))
            && (Side(r, dir, boxes, BottomMargin, Bottom) <==> Holds(r.relation, f.bottom, goal.bottom))
  {
  }

  /** `edges.relation(target.margins).inset(k)`: the frame against the target's margins frame, shrunk by k. */
  lemma EdgesToMarginsMeaning(r: Request, dir: Direction, boxes: object -> Box)
    requires InsetRequest(r) && r.fromMask == EDGES && r.toMask == MARGINS
    ensures AllSatisfied(Compile(r, dir), boxes, dir)
            <==> SidesHold(r.relation, r.relation, boxes(r.from).frame,
                           Goal(r.constant, r.multiplier, boxes(r.toTarget).margins, dir))
  {
    EdgeList();
    var from, to := [Left, Top, Right, Bottom], [LeftMargin, TopMargin, RightMargin, BottomMargin];
    OppositeCases(r.fromMask, r.toMask);
    CrossPairedList(r, from, to);
    FourSides(r, dir, boxes, from, to);
    EdgeAgainstMarginAcross(r, dir, boxes);
    EdgeAgainstMarginDown(r, dir, boxes);
  }

  /** `margins.relation(target.edges).inset(k)`: the margins frame against the target's frame, shrunk by k. */
  lemma MarginsToEdgesMeaning(r: Request, dir: Direction, boxes: object -> Box)
    requires InsetRequest(r) && r.fromMask == MARGINS && r.toMask == EDGES
    ensures AllSatisfied(Compile(r, dir), boxes, dir)
            <==> SidesHold(r.relation, r.relation, boxes(r.from).margins,
                           Goal(r.constant, r.multiplier, boxes(r.toTarget).frame, dir))
  {
    MarginList();
    var from, to := [LeftMargin, RightMargin, TopMargin, BottomMargin], [Left, Right, Top, Bottom];
    OppositeCases(r.fromMask, r.toMask);
    CrossPairedList(r, from, to);
    FourSides(r, dir, boxes, from, to);
    MarginAgainstEdgeAcross(r, dir, boxes);
    MarginAgainstEdgeDown(r, dir, boxes);
  }

  /** Leading and trailing against the margins, mirrored in right-to-left. */
  lemma DirectionalEdgeAgainstMargin(r: Request, dir: Direction, boxes: object -> Box)
    requires InsetRequest(r)
    ensures var f := boxes(r.from).frame; var goal := Goal(r.constant, r.multiplier, boxes(r.toTarget).margins, dir);
            var leading := Side(r, dir, boxes, Leading, LeadingMargin);
            var trailing := Side(r, dir, boxes, Trailing, TrailingMargin);
            && (dir == LeftToRight ==>
                  && (leading <==> Holds(r.relation, f.left, goal.left))
                  && (trailing <==> Holds(r.relation, f.right, goal.right)))
            && (dir == RightToLeft ==>
                  && (leading <==> Holds(Flipped(r.relation), f.right, goal.right))
                  && (trailing <==> Holds(Flipped(r.relation), f.left, goal.left)))
  {
    var f, t := boxes(r.from).frame, boxes(r.toTarget).margins;
    Mirrored(r.relation, f.right, r.multiplier, t.right, ValueFor(r.constant, LeadingMargin, dir));
    Mirrored(r.relation, f.left, r.multiplier, t.left, ValueFor(r.constant, TrailingMargin, dir));
  }

  lemma DirectionalMarginAgainstEdge(r: Request, dir: Direction, boxes: object -> Box)
    requires InsetRequest(r)
    ensures var f := boxes(r.from).margins; var goal := Goal(r.constant, r.multiplier, boxes(r.toTarget).frame, dir);
            var leading := Side(r, dir, boxes, LeadingMargin, Leading);
            var trailing := Side(r, dir, boxes, TrailingMargin, Trailing);
            && (dir == LeftToRight ==>
                  && (leading <==> Holds(r.relation, f.left, goal.left))
                  && (trailing <==> Holds(r.relation, f.right, goal.right)))
            && (dir == RightToLeft ==>
                  && (leading <==> Holds(Flipped(r.relation), f.right, goal.right))
                  && (trailing <==> Holds(Flipped(r.relation), f.left, goal.left)))
  {
    var f, t := boxes(r.from).margins, boxes(r.toTarget).frame;
    Mirrored(r.relation, f.right, r.multiplier, t.right, ValueFor(r.constant, Leading, dir));
    Mirrored(r.relation, f.left, r.multiplier, t.left, ValueFor(r.constant, Trailing, dir));
  }

  /** `directionalEdges.relation(target.directionalMargins).inset(k)`, with the right-to-left turn of inequalities. */
  lemma DirectionalEdgesToMarginsMeaning(r: Request, dir: Direction, boxes: object -> Box)
    requires InsetRequest(r) && r.fromMask == DIRECTIONAL_EDGES && r.toMask == DIRECTIONAL_MARGINS
    ensures AllSatisfied(Compile(r, dir), boxes, dir)
            <==> SidesHold(if dir == LeftToRight then r.relation else Flipped(r.relation), r.relation,
                           boxes(r.from).frame, Goal(r.constant, r.multiplier, boxes(r.toTarget).margins, dir))
  {
    DirectionalEdgeList();
    var from, to := [Top, Bottom, Leading, Trailing], [TopMargin, BottomMargin, LeadingMargin, TrailingMargin];
    OppositeCases(r.fromMask, r.toMask);
    CrossPairedList(r, from, to);
    FourSides(r, dir, boxes, from, to);
    EdgeAgainstMarginDown(r, dir, boxes);
    DirectionalEdgeAgainstMargin(r, dir, boxes);
  }

  /** `directionalMargins.relation(target.directionalEdges).inset(k)` */
  lemma DirectionalMarginsToEdgesMeaning(r: Request, dir: Direction, boxes: object -> Box)
    requires InsetRequest(r) && r.fromMask == DIRECTIONAL_MARGINS && r.toMask == DIRECTIONAL_EDGES
    ensures AllSatisfied(Compile(r, dir), boxes, dir)
            <==> SidesHold(if dir == LeftToRight then r.relation else Flipped(r.relation), r.relation,
                           boxes(r.from).margins, Goal(r.constant, r.multiplier, boxes(r.toTarget).frame, dir))
  {
    DirectionalMarginList();
    var from, to := [TopMargin, BottomMargin, LeadingMargin, TrailingMargin], [Top, Bottom, Leading, Trailing];
    OppositeCases(r.fromMask, r.toMask);
    CrossPairedList(r, from, to);
    FourSides(r, dir, boxes, from, to);
    MarginAgainstEdgeDown(r, dir, boxes);
    DirectionalMarginAgainstEdge(r, dir, boxes);
  }

  // ---------- The superview as target ----------

  /** A missing target is the superview, as long as no centre and no dimension is involved. */
  lemma SuperviewStandsIn(r: Request, dir: Direction)
    requires r.toTarget == null && r.superview != null && r.toMask == NONE
    requires r.fromMask !! {CenterX, CenterY, Width, Height}
    ensures Compile(r, dir) == Compile(r.(toTarget := r.superview), dir)
  {
    var s := r.(toTarget := r.superview);
    NoneList();
    forall i | 0 <= i < |Listed(r.fromMask)| ensures Compile(r, dir)[i] == Compile(s, dir)[i] {
      var a := Listed(r.fromMask)[i];
      assert a in Listed(r.fromMask);
      assert a in r.fromMask;
      assert SecondAttribute(r, a) == a && SecondAttribute(s, a) == a;
    }
  }

  /**
   * `edges.equalTo(insets)` and `directionalEdges.equalTo(insets)`: the frame is the superview's shrunk by the
   * insets.
   */
  lemma SuperviewInsets(r: Request, dir: Direction, boxes: object -> Box)
    requires r.toTarget == null && r.superview != null && r.toMask == NONE
    requires r.constant.Insets? || r.constant.DirectionalInsets?
    requires r.fromMask == EDGES || r.fromMask == DIRECTIONAL_EDGES
    ensures var goal := Goal(r.constant, r.multiplier, boxes(r.superview).frame, dir);
            var horizontal := if r.fromMask == EDGES || dir == LeftToRight then r.relation else Flipped(r.relation);
            AllSatisfied(Compile(r, dir), boxes, dir)
            <==> SidesHold(horizontal, r.relation, boxes(r.from).frame, goal)
  {
    SuperviewStandsIn(r, dir);
    var s := r.(toTarget := r.superview);
    if r.fromMask == EDGES {
      EdgesMeaning(s, dir, boxes);
    } else {
      DirectionalEdgesMeaning(s, dir, boxes);
    }
  }

  // ---------- Constants without a target ----------

  lemma AllOfTwo(r: Request, dir: Direction, boxes: object -> Box, a: LayoutAttribute, b: LayoutAttribute)
    requires Listed(r.fromMask) == [a, b] && a in r.fromMask && b in r.fromMask
    ensures AllSatisfied(Compile(r, dir), boxes, dir)
            <==> Satisfied(CompileOne(r, dir, a), boxes, dir) && Satisfied(CompileOne(r, dir, b), boxes, dir)
  {
    var ds := Compile(r, dir);
    assert ds[0] == CompileOne(r, dir, a) && ds[1] == CompileOne(r, dir, b);
  }

  /** `size.equalTo(CGSize)`: the two dimensions, whatever the multiplier and whether or not there is a superview. */
  lemma SizeMeaning(r: Request, dir: Direction, boxes: object -> Box)
    requires r.fromMask == SIZE && r.toTarget == null && r.toMask == NONE && r.constant.Size?
    ensures var f := boxes(r.from).frame;
            AllSatisfied(Compile(r, dir), boxes, dir)
            <==> && Holds(r.relation, f.right - f.left, r.constant.width)
                 && Holds(r.relation, f.bottom - f.top, r.constant.height)
  {
    SizeList();
    NoneList();
    AllOfTwo(r, dir, boxes, Width, Height);
  }

  lemma CenterCoordinate(r: Request, dir: Direction, boxes: object -> Box, a: LayoutAttribute)
    requires r.toTarget == null && r.toMask == NONE && r.constant.Point? && r.superview != null
    requires a in r.fromMask && (a == CenterX || a == CenterY)
    ensures var s := boxes(r.superview).frame;
            Satisfied(CompileOne(r, dir, a), boxes, dir)
            <==> Holds(r.relation, AttributeValue(boxes(r.from), a, dir),
                       if a == CenterX then r.multiplier * s.left + r.constant.x
                       else r.multiplier * s.top + r.constant.y)
  {
    NoneList();
    var d, b := CompileOne(r, dir, a), if a == CenterX then Left else Top;
    assert d.secondItem == r.superview && d.secondAttribute == b && d.firstItem == r.from && d.firstAttribute == a;
    assert d.multiplier == r.multiplier && d.constant == ValueFor(r.constant, b, dir) && d.relation == r.relation;
  }

  /**
   * `center.equalTo(CGPoint)`: the centre lies that far from the superview's top left corner, scaled by the
   * multiplier.
   */
  lemma CenterMeaning(r: Request, dir: Direction, boxes: object -> Box)
    requires r.fromMask == CENTER && r.toTarget == null && r.toMask == NONE && r.constant.Point?
    requires r.superview != null
    ensures var f := boxes(r.from).frame; var s := boxes(r.superview).frame;
            AllSatisfied(Compile(r, dir), boxes, dir)
            <==> && Holds(r.relation, (f.left + f.right) / 2.0, r.multiplier * s.left + r.constant.x)
                 && Holds(r.relation, (f.top + f.bottom) / 2.0, r.multiplier * s.top + r.constant.y)
  {
    CenterList();
    NoneList();
    AllOfTwo(r, dir, boxes, CenterX, CenterY);
    CenterCoordinate(r, dir, boxes, CenterX);
    CenterCoordinate(r, dir, boxes, CenterY);
  }
}
