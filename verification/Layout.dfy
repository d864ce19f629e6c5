/** The objects: layout items with their registries, layout constraints, and constraints. */
module Layout {
  import opened AttributeLists
  import opened Compiler
  import opened ConstantTargets
  import opened Drafts
  import opened Matching
  import opened Options
  import opened Updates

  /** A view or layout guide. The associated set is created empty on first access, so it is there from the start. */
  class Item {
    var superview: Item?
    var constraintsSet: set<Constraint>

    constructor ()
      ensures constraintsSet == {} && superview == null
    {
      superview := null;
      constraintsSet := {};
    }

    /** allObjects: the members, once each, in an order of the set's own choosing. */
    method Constraints() returns (r: seq<Constraint>)
      ensures Enumerates(r, constraintsSet)
    {
      r := [];
      var rest := constraintsSet;
      while rest != {}
        invariant rest <= constraintsSet
        invariant NoRepeats(r)
        invariant forall c :: c in r <==> c in constraintsSet - rest
      {
        var c :| c in rest;
        assert c !in r;
        r := r + [c];
        rest := rest - {c};
      }
    }

    method Add(constraints: seq<Constraint>)
      modifies this`constraintsSet
      ensures constraintsSet == old(constraintsSet) + set c | c in constraints
    {
      for i := 0 to |constraints|
        invariant constraintsSet == old(constraintsSet) + set c | c in constraints[..i]
      {
        assert constraints[..i + 1] == constraints[..i] + [constraints[i]];
        constraintsSet := constraintsSet + {constraints[i]};
      }
      assert constraints[..|constraints|] == constraints;
    }

    method Remove(constraints: seq<Constraint>)
      modifies this`constraintsSet
      ensures constraintsSet == old(constraintsSet) - set c | c in constraints
    {
      for i := 0 to |constraints|
        invariant constraintsSet == old(constraintsSet) - set c | c in constraints[..i]
      {
        assert constraints[..i + 1] == constraints[..i] + [constraints[i]];
        constraintsSet := constraintsSet - {constraints[i]};
      }
      assert constraints[..|constraints|] == constraints;
    }
  }

  ghost predicate NoRepeats<T>(s: seq<T>) {
    forall i, j :: 0 <= i < j < |s| ==> s[i] != s[j]
  }

  lemma NoRepeatsConcat<T>(s: seq<T>, t: seq<T>)
    requires NoRepeats(s) && NoRepeats(t) && forall x :: x in s ==> x !in t
    ensures NoRepeats(s + t)
  {
    forall i, j | 0 <= i < j < |s + t| ensures (s + t)[i] != (s + t)[j] {
      if i < |s| <= j { assert s[i] in s; }
    }
  }

  ghost predicate Enumerates<T>(r: seq<T>, s: set<T>) {
    NoRepeats(r) && (forall x :: x in r ==> x in s) && (forall x :: x in s ==> x in r)
  }

  /** NSLayoutConstraint as a plain object: constant, priority and the active flag can change, the rest cannot. */
  class LayoutConstraint {
    const firstItem: Item
    const firstAttribute: LayoutAttribute
    const relation: Relation
    const secondItem: object?
    const secondAttribute: LayoutAttribute
    const multiplier: real
    var constant: real
    var priority: real
    var isActive: bool
    /** The weak link to the constraint it was compiled for. */
    var constraint: Constraint?

    constructor (item: Item, attribute: LayoutAttribute, relatedBy: Relation, toItem: object?,
                 toAttribute: LayoutAttribute, multiplier: real, constant: real)
      ensures Data() == LayoutData(item, attribute, relatedBy, toItem,
                                   if toItem == null then NotAnAttribute else toAttribute,
                                   multiplier, constant, REQUIRED)
      ensures !isActive && this.constraint == null
    {
      firstItem, firstAttribute, relation, secondItem := item, attribute, relatedBy, toItem;
      secondAttribute := if toItem == null then NotAnAttribute else toAttribute;
      this.multiplier, this.constant, priority := multiplier, constant, REQUIRED;
      isActive, this.constraint := false, null;
    }

    function Data(): LayoutData
      reads this`constant, this`priority
    {
      LayoutData(firstItem, firstAttribute, relation, secondItem, secondAttribute, multiplier, constant, priority)
    }
  }

  function Datas(ls: seq<LayoutConstraint>): (r: seq<LayoutData>)
    reads ls
    ensures |r| == |ls|
    ensures forall i :: 0 <= i < |ls| ==> r[i] == ls[i].Data()
  {
    seq(|ls|, i requires 0 <= i < |ls| reads ls => ls[i].Data())
  }

  /** NSLayoutConstraint.activate and deactivate. */
  method SetActive(ls: seq<LayoutConstraint>, active: bool)
    modifies ls`isActive
    ensures forall l :: l in ls ==> l.isActive == active
  {
    for i := 0 to |ls|
      invariant forall k :: 0 <= k < i ==> ls[k].isActive == active
    {
      ls[i].isActive := active;
    }
  }

  // The four switches of the compile loop between edges and margins.

  method MarginOfEdge(a: LayoutAttribute) returns (b: LayoutAttribute)
    requires Meets(EdgesToMargins, a)
    ensures Some(b) == EdgeToMargin(a)
  {
    match a {
      case Left => b := LeftMargin;
      case Right => b := RightMargin;
      case Top => b := TopMargin;
      case Bottom => b := BottomMargin;
      case _ => assert false;
    }
  }

  method EdgeOfMargin(a: LayoutAttribute) returns (b: LayoutAttribute)
    requires Meets(MarginsToEdges, a)
    ensures Some(b) == MarginToEdge(a)
  {
    match a {
      case LeftMargin => b := Left;
      case RightMargin => b := Right;
      case TopMargin => b := Top;
      case BottomMargin => b := Bottom;
      case _ => assert false;
    }
  }

  method DirectionalMarginOfEdge(a: LayoutAttribute) returns (b: LayoutAttribute)
    requires Meets(DirectionalEdgesToMargins, a)
    ensures Some(b) == DirectionalEdgeToMargin(a)
  {
    match a {
      case Leading => b := LeadingMargin;
      case Trailing => b := TrailingMargin;
      case Top => b := TopMargin;
      case Bottom => b := BottomMargin;
      case _ => assert false;
    }
  }

  method DirectionalEdgeOfMargin(a: LayoutAttribute) returns (b: LayoutAttribute)
    requires Meets(DirectionalMarginsToEdges, a)
    ensures Some(b) == DirectionalMarginToEdge(a)
  {
    match a {
      case LeadingMargin => b := Leading;
      case TrailingMargin => b := Trailing;
      case TopMargin => b := Top;
      case BottomMargin => b := Bottom;
      case _ => assert false;
    }
  }

  /** The attribute on the right-hand side, chosen by the branches of the compile loop. */
  method ToLayoutAttribute(fromMask: AttributeSet, toMask: AttributeSet, toList: seq<LayoutAttribute>, noTarget: bool,
                           a: LayoutAttribute)
      returns (b: LayoutAttribute)
    requires a in fromMask && toList == Listed(toMask)
    ensures Some(b) == ToAttribute(PairingOf(fromMask, toMask), toMask, noTarget, a)
  {
    ghost var p := PairingOf(fromMask, toMask);
    PairingMeets(fromMask, toMask, a);
    b := a;
    if |toList| > 0 {
      if fromMask == EDGES && toMask == MARGINS {
        assert p == EdgesToMargins;
        b := MarginOfEdge(a);
      } else if fromMask == MARGINS && toMask == EDGES {
        assert p == MarginsToEdges;
        b := EdgeOfMargin(a);
      } else if fromMask == DIRECTIONAL_EDGES && toMask == DIRECTIONAL_MARGINS {
        assert p == DirectionalEdgesToMargins;
        b := DirectionalMarginOfEdge(a);
      } else if fromMask == DIRECTIONAL_MARGINS && toMask == DIRECTIONAL_EDGES {
        assert p == DirectionalMarginsToEdges;
        b := DirectionalEdgeOfMargin(a);
      } else if fromMask == toMask {
        assert p == SameMask;
        b := a;
      } else {
        assert p == FirstOfTo;
        b := toList[0];
      }
    } else if noTarget && (a == CenterX || a == CenterY) {
      b := if a == CenterX then Left else Top;
    }
  }

  /** A fresh list of the attributes of a set, in ascending bit order. */
  method InOrder(attributes: AttributeSet) returns (r: seq<LayoutAttribute>)
    ensures r == Listed(attributes)
  {
    SelectIsListed(attributes);
    r := Select(attributes, ALL);
  }

  /** The compile loop of Constraint.init. */
  method CompileLayouts(from: Item, fromMask: AttributeSet, toTarget: object?, toMask: AttributeSet, relation: Relation,
                        multiplier: real, constant: ConstantTarget, priority: real, dir: Direction, ghost r: Request)
      returns (ls: seq<LayoutConstraint>, ghost ds: seq<LayoutData>)
    requires r == Request(from, fromMask, from.superview, toTarget, toMask, relation, multiplier, constant, priority)
    ensures ds == Compile(r, dir) && |ls| == |ds|
    ensures forall i :: 0 <= i < |ds| ==> ls[i].Data() == ds[i]
    ensures NoRepeats(ls) && fresh(ls)
    ensures forall l :: l in ls ==> !l.isActive
  {
    var fromList := InOrder(fromMask);
    var toList := InOrder(toMask);
    ls, ds := [], Compile(r, dir);
    for i := 0 to |fromList|
      invariant |ls| == i && fresh(ls)
      invariant NoRepeats(ls)
      invariant forall l :: l in ls ==> !l.isActive
      invariant forall k :: 0 <= k < i ==> ls[k].Data() == ds[k]
    {
      var l := CompileLayout(from, fromMask, toTarget, toMask, toList, relation, multiplier, constant, priority, dir,
                             fromList[i]);
      assert l.Data() == ds[i];
      ls := ls + [l];
    }
  }

  /** One round of the loop. */
  method CompileLayout(from: Item, fromMask: AttributeSet, toTarget: object?, toMask: AttributeSet,
                       toList: seq<LayoutAttribute>, relation: Relation, multiplier: real, constant: ConstantTarget,
                       priority: real, dir: Direction, a: LayoutAttribute)
      returns (l: LayoutConstraint)
    requires a in fromMask && toList == Listed(toMask)
    ensures l.Data() == CompileOne(Request(from, fromMask, from.superview, toTarget, toMask, relation, multiplier,
                                           constant, priority), dir, a)
    ensures fresh(l) && !l.isActive
  {
    var b := ToLayoutAttribute(fromMask, toMask, toList, toTarget == null, a);
    var layoutConstant := ValueFor(constant, b, dir);
    var layoutTo: object? := toTarget;
    if layoutTo == null && b != Width && b != Height {
      layoutTo := from.superview;
    }
    l := new LayoutConstraint(from, a, relation, layoutTo, b, multiplier, layoutConstant);
    l.priority := priority;
  }

  class Constraint {
    const from: Item
    const fromMask: AttributeSet
    const toTarget: object?
    const toMask: AttributeSet
    const relation: Relation
    const multiplier: real
    var constant: ConstantTarget
    var priority: real
    /** Filled by the constructor and never assigned again. */
    const layoutConstraints: seq<LayoutConstraint>
    /** What the constraint was compiled from, and the outcome. */
    ghost const request: Request
    ghost const compiled: seq<LayoutData>

    /** The children are this constraint's own, distinct, and shaped as the request compiles. */
    ghost predicate Valid()
      reads Children()`constraint
    {
      && request.from == from
      && |layoutConstraints| == |compiled|
      && OwnsChildren()
      && forall i :: 0 <= i < |layoutConstraints| ==> Shaped(layoutConstraints[i], compiled[i])
    }

    /** The outcome has the shapes the request compiles to, in whatever direction. */
    ghost predicate Compiles() {
      && |compiled| == |Compile(request, LeftToRight)|
      && forall i :: 0 <= i < |compiled| ==> SameShape(compiled[i], Compile(request, LeftToRight)[i])
    }

    ghost function Children(): set<LayoutConstraint> {
      set l | l in layoutConstraints
    }

    /** The constraint and its children. */
    ghost function Footprint(): set<object> {
      {this as object} + Children()
    }

    /** As the constructor leaves it: every child exactly as compiled, none of them active. */
    ghost predicate Pristine(dir: Direction)
      reads Footprint()
    {
      && Valid()
      && compiled == Compile(request, dir)
      && (forall i :: 0 <= i < |compiled| ==> layoutConstraints[i].Data() == compiled[i])
      && (forall l :: l in layoutConstraints ==> !l.isActive)
      && constant == request.constant && priority == request.priority
    }

    constructor (from: Item, fromMask: AttributeSet, toTarget: object?, toMask: AttributeSet, relation: Relation,
                 multiplier: real, constant: ConstantTarget, priority: real, dir: Direction)
      ensures Pristine(dir) && fresh(layoutConstraints)
      ensures request == Request(from, fromMask, from.superview, toTarget, toMask, relation, multiplier, constant,
                                 priority)
      ensures this.from == from
    {
      ghost var r := Request(from, fromMask, from.superview, toTarget, toMask, relation, multiplier, constant,
                             priority);
      var ls, ds := CompileLayouts(from, fromMask, toTarget, toMask, relation, multiplier, constant, priority, dir, r);
      this.from, this.fromMask, this.toTarget, this.toMask := from, fromMask, toTarget, toMask;
      this.relation, this.multiplier, this.constant, this.priority := relation, multiplier, constant, priority;
      layoutConstraints, request, compiled := ls, r, ds;
      new;
      Adopt(layoutConstraints, this);
    }

    // ---------- Observers of constant and priority ----------

    /** Every child holds what the constructor would compute for the constraint's present constant. */
    ghost predicate InSync(dir: Direction)
      reads this`constant, layoutConstraints`constant
      requires |layoutConstraints| == |compiled|
    {
      forall i :: 0 <= i < |layoutConstraints| ==>
        layoutConstraints[i].constant == ValueFor(constant, LookupAttribute(compiled[i]), dir)
    }

    method UpdateConstantAndPriorityIfNeeded(dir: Direction)
      requires Valid()
      modifies layoutConstraints`constant, layoutConstraints`priority
      ensures Valid() && InSync(dir)
      ensures forall l :: l in layoutConstraints ==> l.priority == PriorityStep(old(l.priority), priority)
    {
      for i := 0 to |layoutConstraints|
        invariant Valid()
        invariant forall k :: 0 <= k < i ==>
          layoutConstraints[k].constant == ValueFor(constant, LookupAttribute(compiled[k]), dir)
        invariant forall k :: 0 <= k < i ==>
          layoutConstraints[k].priority == PriorityStep(old(layoutConstraints[k].priority), priority)
        invariant forall k :: i <= k < |layoutConstraints| ==>
          layoutConstraints[k].priority == old(layoutConstraints[k].priority)
      {
        assert Shaped(layoutConstraints[i], compiled[i]);
        UpdateChild(layoutConstraints[i], dir);
      }
    }

    /** One round of the loop. */
    method UpdateChild(l: LayoutConstraint, dir: Direction)
      modifies l`constant, l`priority
      ensures l.constant == ValueFor(constant, LookupAttribute(l.Data()), dir)
      ensures l.priority == PriorityStep(old(l.priority), priority)
    {
      var attribute := if l.secondAttribute == NotAnAttribute then l.firstAttribute else l.secondAttribute;
      l.constant := ValueFor(constant, attribute, dir);
      if l.priority < REQUIRED && priority != REQUIRED {
        l.priority := priority;
      }
    }

    method Perform(u: Update, dir: Direction)
      requires Valid()
      modifies this`constant, this`priority, layoutConstraints`constant, layoutConstraints`priority
      ensures Valid() && InSync(dir)
      ensures constant == OwnerConstant(old(constant), [u]) && priority == OwnerPriority(old(priority), [u])
      ensures forall l :: l in layoutConstraints ==> l.priority == PriorityStep(old(l.priority), priority)
    {
      match u {
        case ToOffset(amount) => constant := Scalar(amount);
        case ToInset(inset) => constant := InsetValue(inset);
        case ToPriority(p) => priority := p;
      }
      UpdateConstantAndPriorityIfNeeded(dir);
    }

    /** A run of update calls in one layout direction; from the first call on the children are in step. */
    method PerformAll(us: seq<Update>, dir: Direction)
      requires Valid()
      modifies this`constant, this`priority, layoutConstraints`constant, layoutConstraints`priority
      ensures Valid()
      ensures us != [] || old(InSync(dir)) ==> InSync(dir)
      ensures us == [] ==> forall l :: l in layoutConstraints ==> l.constant == old(l.constant)
      ensures constant == OwnerConstant(old(constant), us) && priority == OwnerPriority(old(priority), us)
      ensures forall l :: l in layoutConstraints ==> l.priority == ChildPriority(old(l.priority), old(priority), us)
      ensures forall j: nat :: LastChange(us, j) && us[j].ToOffset? ==>
        constant == Scalar(us[j].amount) && forall l :: l in layoutConstraints ==> l.constant == us[j].amount
      ensures forall j: nat :: LastChange(us, j) && us[j].ToInset? ==> HasSides(constant, us[j].inset)
      ensures (forall j :: 0 <= j < |us| ==> us[j].ToPriority?) ==> constant == old(constant)
    {
      for i := 0 to |us|
        invariant Valid()
        invariant i > 0 || old(InSync(dir)) ==> InSync(dir)
        invariant i == 0 ==> forall l :: l in layoutConstraints ==> l.constant == old(l.constant)
        invariant constant == OwnerConstant(old(constant), us[..i]) && priority == OwnerPriority(old(priority), us[..i])
        invariant forall l :: l in layoutConstraints ==>
          l.priority == ChildPriority(old(l.priority), old(priority), us[..i])
      {
        assert us[..i + 1][..i] == us[..i];
        Perform(us[i], dir);
      }
      assert us[..|us|] == us;
      ConstantFollowsLast(old(constant), us);
    }

    // ---------- Activation ----------

    method IsActive() returns (b: bool)
      ensures b <==> exists l :: l in layoutConstraints && l.isActive
    {
      for i := 0 to |layoutConstraints|
        invariant forall k :: 0 <= k < i ==> !layoutConstraints[k].isActive
      {
        if layoutConstraints[i].isActive { return true; }
      }
      return false;
    }

    method Activate()
      modifies from`constraintsSet, layoutConstraints`isActive
      ensures from.constraintsSet == old(from.constraintsSet) + {this}
      ensures forall l :: l in layoutConstraints ==> l.isActive
    {
      SetActive(layoutConstraints, true);
      from.Add([this]);
    }

    method Deactivate()
      modifies from`constraintsSet, layoutConstraints`isActive
      ensures from.constraintsSet == old(from.constraintsSet) - {this}
      ensures forall l :: l in layoutConstraints ==> !l.isActive
    {
      SetActive(layoutConstraints, false);
      from.Remove([this]);
    }

    /**
     * activateIfNeeded(updatingExisting: true): each child updates the first registered layout constraint it equals.
     * The result false stands for the fatalError of a child without a match.
     */
    method ActivateUpdatingExisting(dir: Direction) returns (ok: bool, ghost existing: seq<LayoutConstraint>)
      requires this !in from.constraintsSet && OwnsChildren()
      requires forall c :: c in from.constraintsSet ==> c.OwnsChildren()
      modifies Registered(from)`constant
      ensures old(allocated(existing)) && Enumerates(existing, old(Registered(from)))
      ensures ok ==>
        Some(Datas(existing)) == UpdateFirstAll(old(Datas(existing)), old(Written(layoutConstraints, constant, dir)))
      ensures UpdateOutcome(ok, old(Snapshot(Registered(from))), Snapshot(Registered(from)),
                            old(Written(layoutConstraints, constant, dir)))
    {
      var list := ExistingLayoutConstraints(from);
      existing := list;
      assert old(allocated(Registered(from)));
      forall i | 0 <= i < |list| ensures list[i] in old(Registered(from)) && old(allocated(list[i])) {
        assert list[i] in list;
      }
      assert old(allocated(list));
      assert forall l :: l in layoutConstraints ==> l !in list;
      ok := UpdateListed(list, layoutConstraints, constant, dir, Registered(from));
    }

    ghost predicate OwnsChildren()
      reads Children()`constraint
    {
      NoRepeats(layoutConstraints) && forall l :: l in layoutConstraints ==> l.constraint == this
    }
  }

  method Adopt(ls: seq<LayoutConstraint>, c: Constraint)
    modifies ls`constraint
    ensures forall l :: l in ls ==> l.constraint == c
  {
    for i := 0 to |ls|
      invariant forall k :: 0 <= k < i ==> ls[k].constraint == c
    {
      ls[i].constraint := c;
    }
  }

  // ---------- The layout constraints registered with an item ----------

  ghost function Registered(item: Item): set<LayoutConstraint>
    reads item`constraintsSet
  {
    set c, l | c in item.constraintsSet && l in c.layoutConstraints :: l
  }

  /** The present data of a set of layout constraints. */
  ghost function Snapshot(ls: set<LayoutConstraint>): map<LayoutConstraint, LayoutData>
    reads ls
  {
    map l | l in ls :: l.Data()
  }

  /** An enumeration of a set and its snapshot say the same about matches. */
  lemma EnumerationMatches(ns: seq<LayoutData>, ls: set<LayoutConstraint>, existing: seq<LayoutConstraint>)
    requires Enumerates(existing, ls)
    ensures CoveredIn(ns, Snapshot(ls)) <==> Covers(Datas(existing), ns)
  {
    var m, ds := Snapshot(ls), Datas(existing);
    forall j | 0 <= j < |ns| ensures MatchedIn(ns[j], m) <==> Matched(ns[j], ds) {
      if l :| l in m && SameShape(m[l], ns[j]) {
        assert l in existing;
        var i :| 0 <= i < |existing| && existing[i] == l;
        assert SameShape(ds[i], ns[j]);
      }
      if i :| 0 <= i < |ds| && SameShape(ds[i], ns[j]) {
        assert existing[i] in existing;
        assert SameShape(m[existing[i]], ns[j]);
      }
    }
  }

  lemma EnumerationNamesOnce(ls: set<LayoutConstraint>, existing: seq<LayoutConstraint>, ns: seq<LayoutData>)
    requires Enumerates(existing, ls) && NamedOnceIn(Snapshot(ls), ns)
    ensures NamedOnce(Datas(existing), ns)
  {
    var ds := Datas(existing);
    forall i, j | 0 <= i < j < |existing| && SameShape(ds[i], ds[j]) ensures !Named(ds[i], ns) {
      assert existing[i] in existing && existing[j] in existing && existing[i] != existing[j];
      assert Snapshot(ls)[existing[i]] == ds[i] && Snapshot(ls)[existing[j]] == ds[j];
    }
  }

  lemma EnumerationUpdated(ls: set<LayoutConstraint>, existing: seq<LayoutConstraint>, ds: seq<LayoutData>,
                           before: map<LayoutConstraint, LayoutData>, ns: seq<LayoutData>)
    requires Enumerates(existing, ls) && before.Keys == ls && |ds| == |existing|
    requires forall i :: 0 <= i < |existing| ==> existing[i] in ls && ds[i] == before[existing[i]]
    requires Datas(existing) == LatestOfAll(ds, ns)
    ensures Snapshot(ls) == Updated(before, ns)
  {
    forall l | l in ls ensures Snapshot(ls)[l] == Updated(before, ns)[l] {
      assert l in existing;
      var i :| 0 <= i < |existing| && existing[i] == l;
      assert Datas(existing)[i] == l.Data();
    }
  }

  lemma EnumerationUnnamed(ls: set<LayoutConstraint>, existing: seq<LayoutConstraint>, ds: seq<LayoutData>,
                           before: map<LayoutConstraint, LayoutData>, ns: seq<LayoutData>, n: nat)
    requires Enumerates(existing, ls) && before.Keys == ls && |ds| == |existing| && n <= |ns|
    requires forall i :: 0 <= i < |existing| ==> existing[i] in ls && ds[i] == before[existing[i]]
    requires Some(Datas(existing)) == UpdateFirstAll(ds, ns[..n])
    ensures forall l :: l in ls && !Named(before[l], ns) ==> Snapshot(ls)[l] == before[l]
  {
    forall l | l in ls && !Named(before[l], ns) ensures Snapshot(ls)[l] == before[l] {
      assert l in existing;
      var i :| 0 <= i < |existing| && existing[i] == l;
      UnnamedStay(ds, ns, n, i);
      assert Datas(existing)[i] == l.Data();
    }
  }

  /** The concatenation of the children of all registered constraints, in the set's enumeration order. */
  method ExistingLayoutConstraints(item: Item) returns (r: seq<LayoutConstraint>)
    requires forall c :: c in item.constraintsSet ==> c.OwnsChildren()
    ensures Enumerates(r, Registered(item))
  {
    var constraints := item.Constraints();
    forall k | 0 <= k < |constraints| ensures constraints[k].OwnsChildren() {
      assert constraints[k] in constraints;
    }
    r := [];
    for i := 0 to |constraints|
      invariant NoRepeats(r)
      invariant forall k :: 0 <= k < |constraints| ==> constraints[k].OwnsChildren()
      invariant forall l :: l in r <==> exists k :: 0 <= k < i && l in constraints[k].layoutConstraints
    {
      var more := constraints[i].layoutConstraints;
      forall l | l in r ensures l !in more {
        var k :| 0 <= k < i && l in constraints[k].layoutConstraints;
        assert constraints[k] != constraints[i];
      }
      NoRepeatsConcat(r, more);
      r := r + more;
    }
    forall l | l in Registered(item) ensures l in r {
      var c :| c in item.constraintsSet && l in c.layoutConstraints;
      assert c in constraints;
    }
  }

  /** The index of the first element that is `==` to l, or the length of the list. */
  method FirstEqual(list: seq<LayoutConstraint>, l: LayoutConstraint) returns (k: nat)
    ensures k <= |list|
    ensures k < |list| ==> SameShape(list[k].Data(), l.Data())
    ensures forall i :: 0 <= i < k ==> !SameShape(list[i].Data(), l.Data())
  {
    k := 0;
    while k < |list| && !SameShape(list[k].Data(), l.Data())
      invariant k <= |list|
      invariant forall i :: 0 <= i < k ==> !SameShape(list[i].Data(), l.Data())
    {
      k := k + 1;
    }
  }

  function Rewritten(d: LayoutData, k: ConstantTarget, dir: Direction): LayoutData {
    d.(constant := ValueFor(k, LookupAttribute(d), dir))
  }

  /** What a new layout constraint writes into the one it matches: its owner's constant for the attribute looked up. */
  ghost function WrittenData(l: LayoutConstraint, k: ConstantTarget, dir: Direction): LayoutData
    reads l
  {
    Rewritten(l.Data(), k, dir)
  }

  function RewrittenAll(ds: seq<LayoutData>, k: ConstantTarget, dir: Direction): (r: seq<LayoutData>)
    ensures |r| == |ds|
    ensures forall i :: 0 <= i < |ds| ==> r[i] == Rewritten(ds[i], k, dir)
  {
    seq(|ds|, i requires 0 <= i < |ds| => Rewritten(ds[i], k, dir))
  }

  ghost function Written(ls: seq<LayoutConstraint>, k: ConstantTarget, dir: Direction): seq<LayoutData>
    reads ls
  {
    RewrittenAll(Datas(ls), k, dir)
  }

  /** One round of the update loop. */
  method UpdateFirstEqual(list: seq<LayoutConstraint>, l: LayoutConstraint, k: ConstantTarget, dir: Direction)
      returns (ok: bool)
    requires NoRepeats(list) && l !in list
    modifies list`constant
    ensures ok <==> Matched(old(WrittenData(l, k, dir)), old(Datas(list)))
    ensures ok ==> Some(Datas(list)) == UpdateFirst(old(Datas(list)), old(WrittenData(l, k, dir)))
    ensures !ok ==> Datas(list) == old(Datas(list))
  {
    ghost var ds, n := Datas(list), WrittenData(l, k, dir);
    var i := FirstEqual(list, l);
    if i == |list| { return false; }
    var e := list[i];
    var attribute := if e.secondAttribute == NotAnAttribute then e.firstAttribute else e.secondAttribute;
    FirstMatchIs(ds, n, i);
    e.constant := ValueFor(k, attribute, dir);
    assert Datas(list) == ds[i := ds[i].(constant := n.constant)];
    return true;
  }

  lemma UpdateStep(before: seq<LayoutData>, news: seq<LayoutData>, i: nat, ds: seq<LayoutData>, ok: bool,
                   after: seq<LayoutData>)
    requires i < |news| && UpdateFirstAll(before, news[..i]) == Some(ds)
    requires ok <==> Matched(news[i], ds)
    requires ok ==> Some(after) == UpdateFirst(ds, news[i])
    ensures ok ==> UpdateFirstAll(before, news[..i + 1]) == Some(after)
    ensures !ok ==> !Matched(news[i], before) && !Covers(before, news)
  {
    UpdateSucceeds(before, news[..i]);
    assert news[..i + 1][..i] == news[..i];
    SameShapesSameMatches(before, ds, news[i]);
  }

  /** One round of the update loop, the i-th. */
  method UpdateIth(list: seq<LayoutConstraint>, l: LayoutConstraint, k: ConstantTarget, dir: Direction,
                   ghost before: seq<LayoutData>, ghost news: seq<LayoutData>, ghost i: nat)
      returns (ok: bool)
    requires NoRepeats(list) && l !in list && i < |news| && WrittenData(l, k, dir) == news[i]
    requires UpdateFirstAll(before, news[..i]) == Some(Datas(list))
    modifies list`constant
    ensures ok ==> UpdateFirstAll(before, news[..i + 1]) == Some(Datas(list))
    ensures !ok ==> Datas(list) == old(Datas(list)) && !Matched(news[i], before) && !Covers(before, news)
  {
    ghost var ds := Datas(list);
    ok := UpdateFirstEqual(list, l, k, dir);
    UpdateStep(before, news, i, ds, ok, Datas(list));
  }

  /** The update loop; it stops at the first new layout constraint without a match, the n-th. */
  method UpdateEach(list: seq<LayoutConstraint>, ls: seq<LayoutConstraint>, k: ConstantTarget, dir: Direction)
      returns (ok: bool, ghost n: nat)
    requires NoRepeats(list) && forall l :: l in ls ==> l !in list
    modifies list`constant
    ensures ok <==> Covers(old(Datas(list)), old(Written(ls, k, dir)))
    ensures n <= |ls| && Some(Datas(list)) == UpdateFirstAll(old(Datas(list)), old(Written(ls, k, dir))[..n])
    ensures if ok then n == |ls| else n < |ls| && !Matched(old(Written(ls, k, dir))[n], old(Datas(list)))
  {
    ghost var before, datas := Datas(list), Datas(ls);
    ghost var news := RewrittenAll(datas, k, dir);
    forall j | 0 <= j < |ls| ensures ls[j] !in list { assert ls[j] in ls; }
    n := 0;
    for i := 0 to |ls|
      invariant n == i
      invariant forall j :: 0 <= j < |ls| ==> ls[j].Data() == datas[j]
      invariant UpdateFirstAll(before, news[..i]) == Some(Datas(list))
    {
      ok := UpdateIth(list, ls[i], k, dir, before, news, i);
      if !ok { return; }
      n := n + 1;
    }
    assert news[..|ls|] == news;
    UpdateSucceeds(before, news);
    ok := true;
  }

  /** What the loop leaves in the list, seen from the set. */
  lemma EnumerationOutcome(ls: set<LayoutConstraint>, existing: seq<LayoutConstraint>, ds: seq<LayoutData>,
                           before: map<LayoutConstraint, LayoutData>, ns: seq<LayoutData>, n: nat, ok: bool)
    requires Enumerates(existing, ls) && SameShapes(before, Snapshot(ls)) && |ds| == |existing| && n <= |ns|
    requires forall i :: 0 <= i < |existing| ==> existing[i] in ls && ds[i] == before[existing[i]]
    requires Some(Datas(existing)) == UpdateFirstAll(ds, ns[..n])
    requires (ok <==> CoveredIn(ns, before)) && (ok ==> n == |ns|)
    requires NamedOnceIn(before, ns) ==> NamedOnce(ds, ns)
    ensures UpdateOutcome(ok, before, Snapshot(ls), ns)
  {
    EnumerationUnnamed(ls, existing, ds, before, ns, n);
    if ok && NamedOnceIn(before, ns) {
      assert ns[..n] == ns;
      OrderIsIrrelevant(ds, ns);
      EnumerationUpdated(ls, existing, ds, before, ns);
    }
  }

  /** The update loop seen from the set the list enumerates: without reference to the order. */
  method UpdateListed(list: seq<LayoutConstraint>, children: seq<LayoutConstraint>, k: ConstantTarget, dir: Direction,
                      ghost ls: set<LayoutConstraint>)
      returns (ok: bool)
    requires Enumerates(list, ls) && forall l :: l in children ==> l !in list
    modifies list`constant
    ensures ok ==> Some(Datas(list)) == UpdateFirstAll(old(Datas(list)), old(Written(children, k, dir)))
    ensures UpdateOutcome(ok, old(Snapshot(ls)), Snapshot(ls), old(Written(children, k, dir)))
  {
    ghost var before, ds, news := Snapshot(ls), Datas(list), Written(children, k, dir);
    EnumerationMatches(news, ls, list);
    if NamedOnceIn(before, news) { EnumerationNamesOnce(ls, list, news); }
    ghost var n;
    ok, n := UpdateEach(list, children, k, dir);
    if ok { assert news[..n] == news; }
    EnumerationOutcome(ls, list, ds, before, news, n, ok);
  }

  lemma FirstMatchIs(ds: seq<LayoutData>, n: LayoutData, k: nat)
    requires k < |ds| && SameShape(ds[k], n)
    requires forall i :: 0 <= i < k ==> !SameShape(ds[i], n)
    ensures Matched(n, ds) && FirstMatch(ds, n) == k
  {
  }

  /** The fields of a layout constraint that never change. */
  predicate Shaped(l: LayoutConstraint, d: LayoutData) {
    && l.firstItem == d.firstItem
    && l.firstAttribute == d.firstAttribute
    && l.relation == d.relation
    && l.secondItem == d.secondItem
    && l.secondAttribute == d.secondAttribute
    && l.multiplier == d.multiplier
  }
}
