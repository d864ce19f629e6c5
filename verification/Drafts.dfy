/** What the maker's fluent calls do to one description, and the requests a whole closure leaves behind. */
module Drafts {
  import opened AttributeLists
  import opened Compiler
  import opened ConstantTargets
  import opened Options

  type NonZero = r: real | r != 0.0 witness 1.0

  /** The arguments of equalTo and its siblings. A ConstraintItem's target is live. */
  datatype Relatable =
    | ItemTarget(target: object, attributes: AttributeSet)
    | ViewTarget(view: object)
    | GuideTarget(guide: object)
    | ConstantOperand(constant: ConstantTarget)
    | Unrelatable

  datatype Related = Related(relation: Relation, target: object?, attributes: AttributeSet)

  /** The fields of a ConstraintDescription that decide what it compiles to. */
  datatype Draft = Draft(
    attributes: AttributeSet,
    related: Option<Related>,
    multiplier: real,
    constant: ConstantTarget,
    priority: real)

  function Fresh(attributes: AttributeSet): Draft {
    Draft(attributes, None, 1.0, Scalar(0.0), 1000.0)
  }

  /** Numbers are read as the same inset on all four sides. */
  datatype InsetTarget =
    | Uniform(amount: real)
    | PlainInset(top: real, left: real, bottom: real, right: real)
    | DirectionalInset(top: real, leading: real, bottom: real, trailing: real)

  function InsetValue(t: InsetTarget): ConstantTarget {
    match t
    case Uniform(n) => Insets(n, n, n, n)
    case PlainInset(top, left, bottom, right) => Insets(top, left, bottom, right)
    case DirectionalInset(top, leading, bottom, trailing) => DirectionalInsets(top, leading, bottom, trailing)
  }

  /** A constant that has the sides of an inset target. */
  predicate HasSides(k: ConstantTarget, t: InsetTarget) {
    match t
    case Uniform(n) => k.Insets? && k.top == k.left == k.bottom == k.right == n
    case PlainInset(top, left, bottom, right) =>
      k.Insets? && k.top == top && k.left == left && k.bottom == bottom && k.right == right
    case DirectionalInset(top, leading, bottom, trailing) =>
      k.DirectionalInsets? && k.top == top && k.leading == leading && k.bottom == bottom && k.trailing == trailing
  }

  /** relatedTo, with None for its two fatalErrors. */
  ghost function RelatedTo(d: Draft, relation: Relation, other: Relatable): Option<Draft> {
    match other
    case ItemTarget(target, attributes) =>
      if GuardAccepts(d.attributes, attributes)
      then Some(d.(related := Some(Related(relation, target, attributes)), constant := Scalar(0.0)))
      else None
    case ViewTarget(view) => Some(d.(related := Some(Related(relation, view, NONE)), constant := Scalar(0.0)))
    case GuideTarget(guide) => Some(d.(related := Some(Related(relation, guide, NONE)), constant := Scalar(0.0)))
    case ConstantOperand(k) => Some(d.(related := Some(Related(relation, null, NONE)), constant := k))
    case Unrelatable => None
  }

  /** The request the lazy constraint property compiles; None while the description relates to nothing. */
  function RequestOf(from: object, superview: object?, d: Draft): Option<Request> {
    match d.related
    case None => None
    case Some(r) => Some(Request(from, d.attributes, superview, r.target, r.attributes, r.relation,
                                 d.multiplier, d.constant, d.priority))
  }

  /** The calls that may follow `make.attribute`. */
  datatype Edit =
    | And(attributes: AttributeSet)
    | RelateTo(relation: Relation, other: Relatable)
    | RelateToSuperview(relation: Relation)
    | MultiplyBy(factor: real)
    | DivideBy(divisor: NonZero)
    | Offset(amount: real)
    | Inset(inset: InsetTarget)
    | Priority(priority: real)
    | ReadConstraint

  /** A description: its fields, and what its lazy constraint was compiled from once it has been read. */
  datatype Progress = Progress(draft: Draft, memo: Option<Option<Request>>)

  function Read(from: object, superview: object?, p: Progress): Progress {
    if p.memo.Some? then p else p.(memo := Some(RequestOf(from, superview, p.draft)))
  }

  /**
   * One call. None where the program stops: relatedTo's fatalErrors, a missing superview, and `.constraint` of an
   * unrelated description.
   */
  ghost function Perform(from: object, superview: object?, p: Progress, e: Edit): Option<Progress> {
    match e
    case And(attributes) => Some(p.(draft := p.draft.(attributes := p.draft.attributes + attributes)))
    case RelateTo(relation, other) =>
      (match RelatedTo(p.draft, relation, other)
       case None => None
       case Some(d) => Some(p.(draft := d)))
    case RelateToSuperview(relation) =>
      if superview == null then None else Some(p.(draft := RelatedTo(p.draft, relation, ViewTarget(superview)).value))
    case MultiplyBy(factor) => Some(p.(draft := p.draft.(multiplier := factor)))
    case DivideBy(divisor) => Some(p.(draft := p.draft.(multiplier := 1.0 / divisor)))
    case Offset(amount) => Some(p.(draft := p.draft.(constant := Scalar(amount))))
    case Inset(inset) => Some(p.(draft := p.draft.(constant := InsetValue(inset))))
    case Priority(priority) => Some(p.(draft := p.draft.(priority := priority)))
    case ReadConstraint =>
      var q := Read(from, superview, p);
      if q.memo == Some(None) then None else Some(q)
  }

  ghost function PerformAll(from: object, superview: object?, p: Progress, es: seq<Edit>): Option<Progress> {
    if es == [] then Some(p)
    else
      match PerformAll(from, superview, p, es[..|es| - 1])
      case None => None
      case Some(q) => Perform(from, superview, q, es[|es| - 1])
  }

  /** One statement of a closure: the maker getter it starts with, and the calls made on the result. */
  datatype Clause = Clause(first: AttributeSet, edits: seq<Edit>)

  ghost function RunClause(from: object, superview: object?, c: Clause): Option<Progress> {
    PerformAll(from, superview, Progress(Fresh(c.first), None), c.edits)
  }

  ghost predicate Runs(from: object, superview: object?, closure: seq<Clause>) {
    forall i :: 0 <= i < |closure| ==> RunClause(from, superview, closure[i]).Some?
  }

  /** The requests of the descriptions that relate to something, in the order of their clauses. */
  ghost function Requests(from: object, superview: object?, closure: seq<Clause>): seq<Request>
    requires Runs(from, superview, closure)
  {
    if closure == [] then []
    else
      var front := Requests(from, superview, closure[..|closure| - 1]);
      var p := Read(from, superview, RunClause(from, superview, closure[|closure| - 1]).value);
      match p.memo.value
      case None => front
      case Some(r) => front + [r]
  }

  /** Every layout constraint a closure compiles to, in order. */
  ghost function CompileAll(rs: seq<Request>, dir: Direction): seq<LayoutData> {
    if rs == [] then [] else CompileAll(rs[..|rs| - 1], dir) + Compile(rs[|rs| - 1], dir)
  }

  /** Every getter of the maker names at least one attribute. */
  predicate Getters(closure: seq<Clause>) {
    forall i :: 0 <= i < |closure| ==> closure[i].first != NONE
  }

  // ---------- What every request of a closure is like ----------

  ghost predicate Sound(from: object, superview: object?, p: Progress) {
    && p.draft.attributes != NONE
    && (p.draft.related.Some? && p.draft.related.value.target == null ==> p.draft.related.value.attributes == NONE)
    && (p.memo.Some? && p.memo.value.Some? ==>
          var r := p.memo.value.value;
          r.fromMask != NONE && Rooted(r) && r.from == from && r.superview == superview)
  }

  lemma EditStaysSound(from: object, superview: object?, p: Progress, e: Edit)
    requires Sound(from, superview, p) && Perform(from, superview, p, e).Some?
    ensures Sound(from, superview, Perform(from, superview, p, e).value)
  {
    match e
    case And(more) => assert p.draft.attributes <= p.draft.attributes + more;
    case _ =>
  }

  lemma {:induction false} EditsStaySound(from: object, superview: object?, p: Progress, es: seq<Edit>)
    requires Sound(from, superview, p) && PerformAll(from, superview, p, es).Some?
    ensures Sound(from, superview, PerformAll(from, superview, p, es).value)
  {
    if es == [] {
    } else {
      var last := |es| - 1;
      EditsStaySound(from, superview, p, es[..last]);
      EditStaysSound(from, superview, PerformAll(from, superview, p, es[..last]).value, es[last]);
    }
  }

  /** Every request constrains at least one attribute, and names no attribute of a missing target. */
  lemma {:induction false} RequestsAreSound(from: object, superview: object?, closure: seq<Clause>, i: nat)
    requires Runs(from, superview, closure) && Getters(closure)
    requires i < |Requests(from, superview, closure)|
    ensures Requests(from, superview, closure)[i].fromMask != NONE
    ensures Rooted(Requests(from, superview, closure)[i])
    ensures Requests(from, superview, closure)[i].from == from
    ensures Requests(from, superview, closure)[i].superview == superview
  {
    if closure == [] {
    } else {
      var last := |closure| - 1;
      var front := Requests(from, superview, closure[..last]);
      EditsStaySound(from, superview, Progress(Fresh(closure[last].first), None), closure[last].edits);
      if i < |front| {
        RequestsAreSound(from, superview, closure[..last], i);
      }
    }
  }

  /** Once `.constraint` has been read, later calls on the description no longer change what gets installed. */
  lemma {:induction false} ReadFreezesTheRequest(from: object, superview: object?, p: Progress, es: seq<Edit>)
    requires p.memo.Some? && PerformAll(from, superview, p, es).Some?
    ensures PerformAll(from, superview, p, es).value.memo == p.memo
  {
    if es == [] {
    } else {
      ReadFreezesTheRequest(from, superview, p, es[..|es| - 1]);
    }
  }
}
