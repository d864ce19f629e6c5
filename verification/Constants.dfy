/** What a constraint's constant contributes to each attribute. CGFloat, Float and Double are read as real. */
module ConstantTargets {
  import opened AttributeLists

  /** ConstraintConfig.interfaceLayoutDirection. */
  datatype Direction = LeftToRight | RightToLeft

  /** The conforming types of ConstraintConstantTarget; Unknown stands for a client's own conformance. */
  datatype ConstantTarget =
    | Scalar(value: real)
    | Size(width: real, height: real)
    | Point(x: real, y: real)
    | Insets(top: real, left: real, bottom: real, right: real)
    | DirectionalInsets(top: real, leading: real, bottom: real, trailing: real)
    | Unknown

  function ValueFor(k: ConstantTarget, a: LayoutAttribute, dir: Direction): real {
    match k
    case Scalar(value) => value
    case Size(width, height) =>
      if a == Width then width else if a == Height then height else 0.0
    case Point(x, y) =>
      (match a
       case Left | Right | Leading | Trailing | CenterX | LeftMargin | RightMargin
          | LeadingMargin | TrailingMargin | CenterXWithinMargins => x
       case Top | Bottom | CenterY | TopMargin | BottomMargin | CenterYWithinMargins
          | LastBaseline | FirstBaseline => y
       case Width | Height | NotAnAttribute => 0.0)
    case Insets(top, left, bottom, right) =>
      (match a
       case Left | LeftMargin => left
       case Top | TopMargin | FirstBaseline => top
       case Right | RightMargin => -right
       case Bottom | BottomMargin | LastBaseline => -bottom
       case Leading | LeadingMargin => if dir == LeftToRight then left else right
       case Trailing | TrailingMargin => if dir == LeftToRight then -right else -left
       case CenterX | CenterXWithinMargins => (left - right) / 2.0
       case CenterY | CenterYWithinMargins => (top - bottom) / 2.0
       case Width => -(left + right)
       case Height => -(top + bottom)
       case NotAnAttribute => 0.0)
    case DirectionalInsets(top, leading, bottom, trailing) =>
      (match a
       case Left | LeftMargin => if dir == LeftToRight then leading else trailing
       case Top | TopMargin | FirstBaseline => top
       case Right | RightMargin => if dir == LeftToRight then -trailing else -leading
       case Bottom | BottomMargin | LastBaseline => -bottom
       case Leading | LeadingMargin => leading
       case Trailing | TrailingMargin => -trailing
       case CenterX | CenterXWithinMargins => (leading - trailing) / 2.0
       case CenterY | CenterYWithinMargins => (top - bottom) / 2.0
       case Width => -(leading + trailing)
       case Height => -(top + bottom)
       case NotAnAttribute => 0.0)
    case Unknown => 0.0
  }

  /** The plain insets that directional insets denote in a layout direction. */
  function Physical(d: ConstantTarget, dir: Direction): ConstantTarget
    requires d.DirectionalInsets?
  {
    if dir == LeftToRight then Insets(d.top, d.leading, d.bottom, d.trailing)
    else Insets(d.top, d.trailing, d.bottom, d.leading)
  }

  /**
   * Directional insets and the plain insets they denote give every attribute the same constant, except the two
   * horizontal centres in right-to-left, where the signs are opposite.
   */
  lemma DirectionalAgreesWithPhysical(d: ConstantTarget, a: LayoutAttribute, dir: Direction)
    requires d.DirectionalInsets?
    ensures ValueFor(d, a, dir) == ValueFor(Physical(d, dir), a, dir)
            <==> !(dir == RightToLeft && (a == CenterX || a == CenterXWithinMargins) && d.leading != d.trailing)
    ensures dir == RightToLeft && (a == CenterX || a == CenterXWithinMargins) ==>
      ValueFor(d, a, dir) == -ValueFor(Physical(d, dir), a, dir)
  {
  }

  /** Leading 8 and trailing 0, right to left: the directional insets move the centre by 4, the plain ones by -4. */
  lemma OppositeCentres()
    ensures var d := DirectionalInsets(0.0, 8.0, 0.0, 0.0);
            && ValueFor(d, CenterX, RightToLeft) == 4.0
            && ValueFor(Physical(d, RightToLeft), CenterX, RightToLeft) == -4.0
  {
  }
}
