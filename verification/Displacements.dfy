/** What the constant of a constraint means for every attribute: how far it moves the sides it is related to. */
module Displacements {
  import opened AttributeLists
  import opened Compiler
  import opened ConstantTargets
  import opened Geometry

  /** A box with all its sides moved inwards; the baselines go with the top and the bottom. */
  function Inward(b: Box, i: ConstantTarget): Box
    requires i.Insets?
  {
    Box(Shrunk(b.frame, i), Shrunk(b.margins, i), b.firstBaseline + i.top, b.lastBaseline - i.bottom)
  }

  function Along(r: Rect, x: real, y: real): Rect {
    Rect(r.left + x, r.top + y, r.right + x, r.bottom + y)
  }

  /** A box moved as a whole. */
  function Moved(b: Box, x: real, y: real): Box {
    Box(Along(b.frame, x, y), Along(b.margins, x, y), b.firstBaseline + y, b.lastBaseline + y)
  }

  /** Insets with left and right exchanged. */
  function Turned(i: ConstantTarget): ConstantTarget
    requires i.Insets?
  {
    Insets(i.top, i.right, i.bottom, i.left)
  }

  /** `make.a` related to the same attribute of a view. */
  ghost predicate SameAttributes(r: Request) {
    r.toTarget != null && (r.toMask == NONE || r.toMask == r.fromMask)
  }

  /** The horizontal centres, which directional insets move the other way in right-to-left. */
  predicate HorizontalCentre(a: LayoutAttribute) {
    a == CenterX || a == CenterXWithinMargins
  }

  /** The attributes that are read in mirrored coordinates in right-to-left. */
  predicate Directional(a: LayoutAttribute) {
    a == Leading || a == Trailing || a == LeadingMargin || a == TrailingMargin
  }

  predicate Dimension(a: LayoutAttribute) {
    a == Width || a == Height
  }

  lemma AttributeMeaning(r: Request, dir: Direction, boxes: object -> Box, a: LayoutAttribute)
    requires SameAttributes(r) && a in r.fromMask
    ensures Satisfied(CompileOne(r, dir, a), boxes, dir)
        <==> Holds(r.relation, AttributeValue(boxes(r.from), a, dir),
                   Placed(r.multiplier, AttributeValue(boxes(r.toTarget), a, dir), ValueFor(r.constant, a, dir)))
  {
    SelfPaired(r, a);
    assert CompileOne(r, dir, a)
        == LayoutData(r.from, a, r.relation, r.toTarget, a, r.multiplier, ValueFor(r.constant, a, dir), r.priority);
  }

  /** The insets that move an attribute's own box: exchanged for directional ones on a centre in right-to-left. */
  function InsetsFor(k: ConstantTarget, a: LayoutAttribute, dir: Direction): (i: ConstantTarget)
    requires k.Insets? || k.DirectionalInsets?
    ensures i.Insets?
  {
    var turned := k.DirectionalInsets? && dir == RightToLeft && HorizontalCentre(a);
    if turned then Turned(PlainInsets(k, dir)) else PlainInsets(k, dir)
  }

  lemma InwardValue(b: Box, k: ConstantTarget, a: LayoutAttribute, dir: Direction)
    requires (k.Insets? || k.DirectionalInsets?) && a != NotAnAttribute
    ensures AttributeValue(Inward(b, InsetsFor(k, a, dir)), a, dir) == AttributeValue(b, a, dir) + ValueFor(k, a, dir)
  {
  }

  /**
   * Insets mean, for every attribute there is, that it relates to the same attribute of the view's box with all sides
   * moved inwards by the insets: edges, margins, centres, baselines and dimensions alike. The one exception are
   * directional insets on a horizontal centre in right-to-left, for which left and right are exchanged.
   */
  lemma InsetMeaning(r: Request, dir: Direction, boxes: object -> Box, a: LayoutAttribute)
    requires InsetRequest(r) && SameAttributes(r) && r.multiplier == 1.0 && a in r.fromMask
    ensures Satisfied(CompileOne(r, dir, a), boxes, dir)
        <==> Holds(r.relation, AttributeValue(boxes(r.from), a, dir),
                   AttributeValue(Inward(boxes(r.toTarget), InsetsFor(r.constant, a, dir)), a, dir))
  {
    AttributeMeaning(r, dir, boxes, a);
    InwardValue(boxes(r.toTarget), r.constant, a, dir);
  }

  /**
   * Where the attributes named are those of the view's box moved inwards, an equality is satisfied exactly when the
   * exception does not arise.
   */
  lemma InwardBoxSatisfies(r: Request, dir: Direction, boxes: object -> Box)
    requires InsetRequest(r) && SameAttributes(r) && r.multiplier == 1.0 && r.relation == Equal
    requires var inward := Inward(boxes(r.toTarget), PlainInsets(r.constant, dir));
             forall a :: a in r.fromMask ==> AttributeValue(boxes(r.from), a, dir) == AttributeValue(inward, a, dir)
    ensures AllSatisfied(Compile(r, dir), boxes, dir)
        <==> (r.constant.DirectionalInsets? && dir == RightToLeft && r.constant.leading != r.constant.trailing ==>
                CenterX !in r.fromMask && CenterXWithinMargins !in r.fromMask)
  {
    var attrs := Listed(r.fromMask);
    forall i | 0 <= i < |attrs|
      ensures attrs[i] in r.fromMask
      ensures Satisfied(Compile(r, dir)[i], boxes, dir)
        <==> (r.constant.DirectionalInsets? && dir == RightToLeft && r.constant.leading != r.constant.trailing ==>
                !HorizontalCentre(attrs[i]))
    {
      assert attrs[i] in attrs;
      InsetMeaning(r, dir, boxes, attrs[i]);
    }
    forall a | a in r.fromMask ensures exists i :: 0 <= i < |attrs| && attrs[i] == a {
      assert a in attrs;
    }
  }

  /** `size.relation(view).inset(k)`: each dimension relates to the view's, scaled, less the two insets of its axis. */
  lemma SizeInsetMeaning(r: Request, dir: Direction, boxes: object -> Box)
    requires InsetRequest(r) && SameAttributes(r) && r.fromMask == SIZE
    ensures var f, t, i := boxes(r.from).frame, boxes(r.toTarget).frame, PlainInsets(r.constant, dir);
            AllSatisfied(Compile(r, dir), boxes, dir)
            <==> && Holds(r.relation, f.right - f.left, Placed(r.multiplier, t.right - t.left, -i.left - i.right))
                 && Holds(r.relation, f.bottom - f.top, Placed(r.multiplier, t.bottom - t.top, -i.top - i.bottom))
  {
    SizeList();
    AllOfTwo(r, dir, boxes, Width, Height);
    AttributeMeaning(r, dir, boxes, Width);
    AttributeMeaning(r, dir, boxes, Height);
  }

  /**
   * A point means that the attribute relates to that of the view's box moved x to the right and y down; leading and
   * trailing in right-to-left to that of the box moved x to the left. Dimensions take nothing from a point.
   */
  lemma PointMeaning(r: Request, dir: Direction, boxes: object -> Box, a: LayoutAttribute)
    requires r.constant.Point? && SameAttributes(r) && r.multiplier == 1.0 && a in r.fromMask
    ensures var x := if dir == RightToLeft && Directional(a) then -r.constant.x else r.constant.x;
            Satisfied(CompileOne(r, dir, a), boxes, dir)
            <==> Holds(r.relation, AttributeValue(boxes(r.from), a, dir),
                       AttributeValue(Moved(boxes(r.toTarget), x, r.constant.y), a, dir))
  {
    AttributeMeaning(r, dir, boxes, a);
  }

  /** A size adds to the dimensions and moves nothing; a number is added to whatever attribute it is given for. */
  lemma SizeAndNumberMeaning(r: Request, dir: Direction, boxes: object -> Box, a: LayoutAttribute)
    requires SameAttributes(r) && r.multiplier == 1.0 && a in r.fromMask
    ensures var ours, theirs := AttributeValue(boxes(r.from), a, dir), AttributeValue(boxes(r.toTarget), a, dir);
            var satisfied := Satisfied(CompileOne(r, dir, a), boxes, dir);
            && (r.constant.Scalar? ==> (satisfied <==> Holds(r.relation, ours, theirs + r.constant.value)))
            && (r.constant.Size? && a == Width ==> (satisfied <==> Holds(r.relation, ours, theirs + r.constant.width)))
            && (r.constant.Size? && a == Height ==>
                  (satisfied <==> Holds(r.relation, ours, theirs + r.constant.height)))
            && (r.constant.Size? && !Dimension(a) ==> (satisfied <==> Holds(r.relation, ours, theirs)))
            && (r.constant.Unknown? ==> (satisfied <==> Holds(r.relation, ours, theirs)))
  {
    AttributeMeaning(r, dir, boxes, a);
  }
}
