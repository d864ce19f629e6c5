/** ConstraintMaker: closures are prepared into constraints, and make, remake, update and remove act on an item. */
module Maker {
  import opened AttributeLists
  import opened Compiler
  import opened ConstantTargets
  import opened Drafts
  import opened Layout
  import opened Options

  // ---------- Descriptions ----------

  /** The guard of relatedTo. */
  method Accepts(ours: AttributeSet, theirs: AttributeSet) returns (b: bool)
    ensures b <==> GuardAccepts(ours, theirs)
  {
    var theirList := InOrder(theirs);
    var ourList := InOrder(ours);
    ListHasSize(theirList, theirs);
    if theirList == ourList { SameListSameSet(theirs, ours); }
    OppositeCases(ours, theirs);
    return theirs == NONE || |theirList| <= 1 || theirList == ourList
      || (theirs == EDGES && ours == MARGINS)
      || (theirs == MARGINS && ours == EDGES)
      || (theirs == DIRECTIONAL_EDGES && ours == DIRECTIONAL_MARGINS)
      || (theirs == DIRECTIONAL_MARGINS && ours == DIRECTIONAL_EDGES);
  }

  class ConstraintDescription {
    const item: Item
    var attributes: AttributeSet
    var related: Option<Related>
    var multiplier: real
    var constant: ConstantTarget
    var priority: real
    /** The lazy constraint property: None before the first read. */
    var memo: Option<Constraint?>

    constructor (item: Item, attributes: AttributeSet)
      ensures this.item == item && State() == Progress(Fresh(attributes), None)
    {
      this.item, this.attributes := item, attributes;
      related, multiplier, constant, priority, memo := None, 1.0, Scalar(0.0), 1000.0, None;
    }

    ghost function State(): Progress
      reads this
    {
      Progress(Draft(attributes, related, multiplier, constant, priority),
               match memo
               case None => None
               case Some(c) => Some(if c == null then None else Some(c.request)))
    }

    /** What the lazy property holds, if anything. */
    function Held(): Constraint?
      reads this
    {
      if memo.Some? then memo.value else null
    }

    ghost predicate HoldsPristine(dir: Direction)
      reads this, if Held() == null then {} else Held().Footprint()
    {
      Held() != null ==> Held().from == item && Held().Pristine(dir)
    }

    /** Reading `.constraint`: compiles on the first read, and returns the same constraint ever after. */
    method ReadConstraint(dir: Direction) returns (c: Constraint?)
      requires HoldsPristine(dir)
      modifies this`memo
      ensures State() == Read(item, item.superview, old(State()))
      ensures memo == Some(c) && HoldsPristine(dir)
      ensures old(memo).Some? ==> c == old(memo).value
      ensures old(memo).None? && c != null ==> fresh(c) && fresh(c.layoutConstraints)
    {
      if memo.None? {
        match related {
          case None => memo := Some(null);
          case Some(r) =>
            var made := new Constraint(item, attributes, r.target, r.attributes, r.relation, multiplier, constant,
                                       priority, dir);
            memo := Some(made);
        }
      }
      c := memo.value;
    }

    method RelateTo(relation: Relation, other: Relatable) returns (ok: bool)
      modifies this`related, this`constant
      ensures ok <==> RelatedTo(old(State()).draft, relation, other).Some?
      ensures ok ==> State() == old(State()).(draft := RelatedTo(old(State()).draft, relation, other).value)
    {
      match other {
        case ItemTarget(target, theirs) =>
          var accepted := Accepts(attributes, theirs);
          if !accepted { return false; }
          related, constant := Some(Related(relation, target, theirs)), Scalar(0.0);
        case ViewTarget(view) =>
          related, constant := Some(Related(relation, view, NONE)), Scalar(0.0);
        case ConstantOperand(k) =>
          related, constant := Some(Related(relation, null, NONE)), k;
        case GuideTarget(guide) =>
          related, constant := Some(Related(relation, guide, NONE)), Scalar(0.0);
        case Unrelatable =>
          return false;
      }
      return true;
    }

    method RelateToSuperview(relation: Relation) returns (ok: bool)
      modifies this`related, this`constant
      ensures ok <==> item.superview != null
      ensures ok ==> State() == old(State()).(
        draft := RelatedTo(old(State()).draft, relation, ViewTarget(item.superview)).value)
    {
      if item.superview == null { return false; }
      ok := RelateTo(relation, ViewTarget(item.superview));
    }

    /** The fluent calls that assign to the fields. */
    method Assign(e: Edit) returns (ok: bool)
      requires !e.ReadConstraint?
      modifies this`attributes, this`related, this`multiplier, this`constant, this`priority
      ensures ok <==> Drafts.Perform(item, item.superview, old(State()), e).Some?
      ensures ok ==> Some(State()) == Drafts.Perform(item, item.superview, old(State()), e)
    {
      ok := true;
      match e {
        case And(more) => attributes := attributes + more;
        case RelateTo(relation, other) => ok := RelateTo(relation, other);
        case RelateToSuperview(relation) => ok := RelateToSuperview(relation);
        case MultiplyBy(factor) => multiplier := factor;
        case DivideBy(divisor) => multiplier := 1.0 / divisor;
        case Offset(amount) => constant := Scalar(amount);
        case Inset(inset) => constant := InsetValue(inset);
        case Priority(p) => priority := p;
      }
    }

    /** One fluent call on the description; false where the program stops. */
    method Perform(e: Edit, dir: Direction) returns (ok: bool)
      requires HoldsPristine(dir)
      modifies this
      ensures ok <==> Drafts.Perform(item, item.superview, old(State()), e).Some?
      ensures ok ==> Some(State()) == Drafts.Perform(item, item.superview, old(State()), e)
      ensures HoldsPristine(dir)
      ensures Held() != null && Held() != old(Held()) ==> fresh(Held()) && fresh(Held().layoutConstraints)
    {
      if e.ReadConstraint? {
        var c := ReadConstraint(dir);
        ok := c != null;
      } else {
        ok := Assign(e);
      }
    }
  }

  /** One clause of the closure: a maker getter makes the description, and the calls follow. */
  method PerformClause(item: Item, clause: Clause, dir: Direction) returns (ok: bool, d: ConstraintDescription)
    ensures fresh(d) && d.item == item
    ensures ok <==> RunClause(item, item.superview, clause).Some?
    ensures ok ==> Some(d.State()) == RunClause(item, item.superview, clause)
    ensures d.HoldsPristine(dir)
    ensures d.Held() != null ==> fresh(d.Held()) && fresh(d.Held().layoutConstraints)
  {
    d := new ConstraintDescription(item, clause.first);
    ok := true;
    for i := 0 to |clause.edits|
      invariant d.HoldsPristine(dir)
      invariant d.Held() != null ==> fresh(d.Held()) && fresh(d.Held().layoutConstraints)
      invariant Some(d.State())
             == PerformAll(item, item.superview, Progress(Fresh(clause.first), None), clause.edits[..i])
    {
      assert clause.edits[..i + 1][..i] == clause.edits[..i];
      ok := d.Perform(clause.edits[i], dir);
      if !ok {
        StoppedRun(item, item.superview, Progress(Fresh(clause.first), None), clause.edits, i + 1);
        return;
      }
    }
    assert clause.edits[..|clause.edits|] == clause.edits;
  }

  lemma {:induction false} StoppedRun(from: object, superview: object?, p: Progress, es: seq<Edit>, n: nat)
    requires n <= |es| && PerformAll(from, superview, p, es[..n]).None?
    ensures PerformAll(from, superview, p, es).None?
  {
    if n == |es| {
      assert es[..n] == es;
    } else {
      assert es[..|es| - 1][..n] == es[..n];
      StoppedRun(from, superview, p, es[..|es| - 1], n);
    }
  }

  // ---------- Preparing a closure ----------

  /** The constraints a closure leaves behind: new, inactive, and compiled from its requests in order. */
  ghost predicate Prepared(made: seq<Constraint>, item: Item, requests: seq<Request>, dir: Direction)
    reads set c, o | c in made && o in c.Footprint() :: o
  {
    && |made| == |requests|
    && NoRepeats(made)
    && (forall c :: c in made ==> c.from == item && c.Pristine(dir))
    && forall i :: 0 <= i < |made| ==> made[i].request == requests[i]
  }

  /** A description as the closure leaves it: what its clause made of it, holding no constraint of another one. */
  ghost predicate LeftBy(d: ConstraintDescription, item: Item, superview: object?, clause: Clause, dir: Direction)
    reads d, if d.Held() == null then {} else d.Held().Footprint()
  {
    d.item == item && d.HoldsPristine(dir) && Some(d.State()) == RunClause(item, superview, clause)
  }

  function Joined(made: seq<Constraint>, c: Constraint?): seq<Constraint> {
    if c == null then made else made + [c]
  }

  /** One more constraint of a closure, or none for a description that relates to nothing. */
  lemma PreparedStep(made: seq<Constraint>, item: Item, superview: object?, closure: seq<Clause>, dir: Direction,
                     c: Constraint?)
    requires closure != [] && Runs(item, superview, closure)
    requires var last := |closure| - 1;
      && Prepared(made, item, Requests(item, superview, closure[..last]), dir)
      && Read(item, superview, RunClause(item, superview, closure[last]).value).memo
           == Some(if c == null then None else Some(c.request))
    requires c != null ==> c !in made && c.from == item && c.Pristine(dir)
    ensures Prepared(Joined(made, c), item, Requests(item, superview, closure), dir)
  {
  }

  /** The descriptions from the i-th one on are as the closure left them, and hold constraints of their own. */
  ghost predicate Unread(descriptions: seq<ConstraintDescription>, item: Item, superview: object?, closure: seq<Clause>,
                         dir: Direction, i: nat, made: seq<Constraint>)
    reads descriptions, set d, o | d in descriptions && d.Held() != null && o in d.Held().Footprint() :: o
  {
    && |descriptions| == |closure| && NoRepeats(descriptions)
    && (forall j :: i <= j < |descriptions| ==> LeftBy(descriptions[j], item, superview, closure[j], dir))
    && (forall j, k :: i <= j < k < |descriptions| && descriptions[k].Held() != null ==>
          descriptions[j].Held() != descriptions[k].Held())
    && (forall j :: i <= j < |descriptions| && descriptions[j].Held() != null ==> descriptions[j].Held() !in made)
  }

  /** The next clause of the closure runs, and makes a description of its own. */
  method RunNext(descriptions: seq<ConstraintDescription>, item: Item, before: seq<Clause>, clause: Clause,
                 dir: Direction)
      returns (ok: bool, d: ConstraintDescription)
    requires Unread(descriptions, item, item.superview, before, dir, 0, [])
    ensures ok <==> RunClause(item, item.superview, clause).Some?
    ensures ok ==> Unread(descriptions + [d], item, item.superview, before + [clause], dir, 0, [])
    ensures fresh(d) && (d.Held() != null ==> fresh(d.Held()) && fresh(d.Held().layoutConstraints))
  {
    ok, d := PerformClause(item, clause, dir);
    forall j | 0 <= j < |descriptions| ensures LeftBy(descriptions[j], item, item.superview, before[j], dir) {
      assert old(LeftBy(descriptions[j], item, item.superview, before[j], dir));
    }
  }

  /** The closure runs: a description per clause, in order. */
  method RunClosure(item: Item, closure: seq<Clause>, dir: Direction)
      returns (ok: bool, descriptions: seq<ConstraintDescription>)
    ensures ok <==> Runs(item, item.superview, closure)
    ensures ok ==> Unread(descriptions, item, item.superview, closure, dir, 0, []) && fresh(descriptions)
    ensures forall d :: d in descriptions && d.Held() != null ==> fresh(d.Held()) && fresh(d.Held().layoutConstraints)
  {
    descriptions := [];
    for i := 0 to |closure|
      invariant Runs(item, item.superview, closure[..i])
      invariant Unread(descriptions, item, item.superview, closure[..i], dir, 0, []) && fresh(descriptions)
      invariant forall d :: d in descriptions && d.Held() != null ==>
        fresh(d.Held()) && fresh(d.Held().layoutConstraints)
    {
      assert closure[..i + 1] == closure[..i] + [closure[i]];
      var d;
      ok, d := RunNext(descriptions, item, closure[..i], closure[i], dir);
      if !ok { return; }
      descriptions := descriptions + [d];
    }
    assert closure[..|closure|] == closure;
    ok := true;
  }

  /** One description is read; the ones behind it stay as they are. */
  method ReadOne(descriptions: seq<ConstraintDescription>, item: Item, closure: seq<Clause>, dir: Direction, i: nat,
                 d: ConstraintDescription, ghost made: seq<Constraint>)
      returns (c: Constraint?)
    requires i < |descriptions| && d == descriptions[i]
    requires Unread(descriptions, item, item.superview, closure, dir, i, made)
    modifies d`memo
    ensures Unread(descriptions, item, item.superview, closure, dir, i + 1, Joined(made, c))
    ensures Read(item, item.superview, RunClause(item, item.superview, closure[i]).value).memo
      == Some(if c == null then None else Some(c.request))
    ensures c != null ==> c.from == item && c.Pristine(dir)
    ensures c == old(d.Held()) || (fresh(c) && fresh(c.layoutConstraints))
  {
    assert LeftBy(d, item, item.superview, closure[i], dir);
    c := d.ReadConstraint(dir);
    forall j | i < j < |descriptions|
      ensures LeftBy(descriptions[j], item, item.superview, closure[j], dir)
      ensures descriptions[j].Held() == old(descriptions[j].Held())
    {
      assert descriptions[j] != d;
      assert old(LeftBy(descriptions[j], item, item.superview, closure[j], dir));
    }
  }

  /** The constraint of the next description joins the ones already collected. */
  method ReadNext(descriptions: seq<ConstraintDescription>, item: Item, closure: seq<Clause>, dir: Direction, i: nat,
                  d: ConstraintDescription, made: seq<Constraint>)
      returns (now: seq<Constraint>)
    requires i < |descriptions| && d == descriptions[i]
    requires Unread(descriptions, item, item.superview, closure, dir, i, made)
    requires Runs(item, item.superview, closure)
    requires Prepared(made, item, Requests(item, item.superview, closure[..i]), dir)
    modifies d`memo
    ensures Unread(descriptions, item, item.superview, closure, dir, i + 1, now)
    ensures Prepared(now, item, Requests(item, item.superview, closure[..i + 1]), dir)
    ensures forall c :: c in now ==>
      c in made || c == old(d.Held()) || (fresh(c) && fresh(c.layoutConstraints))
  {
    var c := ReadOne(descriptions, item, closure, dir, i, d, made);
    forall b | b in made ensures b.Pristine(dir) { assert old(b.Pristine(dir)); }
    assert closure[..i + 1][..i] == closure[..i];
    PreparedStep(made, item, item.superview, closure[..i + 1], dir, c);
    now := Joined(made, c);
  }

  /**
   * prepareConstraints: the closure runs, and then each description gives its constraint, if it relates to anything.
   */
  method PrepareConstraints(item: Item, closure: seq<Clause>, dir: Direction) returns (ok: bool, made: seq<Constraint>)
    ensures ok <==> Runs(item, item.superview, closure)
    ensures ok ==> Prepared(made, item, Requests(item, item.superview, closure), dir)
    ensures forall c :: c in made ==> fresh(c) && fresh(c.layoutConstraints) && c.Valid() && c.from == item
  {
    made := [];
    var descriptions;
    ok, descriptions := RunClosure(item, closure, dir);
    if !ok { return; }
    for i := 0 to |descriptions|
      invariant Unread(descriptions, item, item.superview, closure, dir, i, made)
      invariant Prepared(made, item, Requests(item, item.superview, closure[..i]), dir)
      invariant forall c :: c in made ==> fresh(c) && fresh(c.layoutConstraints)
      invariant forall j :: i <= j < |descriptions| && descriptions[j].Held() != null ==>
        fresh(descriptions[j].Held()) && fresh(descriptions[j].Held().layoutConstraints)
    {
      made := ReadNext(descriptions, item, closure, dir, i, descriptions[i], made);
    }
    assert closure[..|closure|] == closure;
  }
}
