/** The invariant of the registries: a constraint is registered with its own item exactly while it is active. */
module Registry {
  import opened AttributeLists
  import opened Compiler
  import opened ConstantTargets
  import opened Drafts
  import opened Layout
  import opened Maker
  import opened Matching

  ghost function Owned(cs: set<Constraint>): set<LayoutConstraint> {
    set c, l | c in cs && l in c.Children() :: l
  }

  /**
   * A constraint owns its children, has at least one, and all of them are active or none is: the former iff
   * registered.
   */
  ghost predicate InStep(c: Constraint)
    reads c.from`constraintsSet, c.Children()`constraint, c.Children()`isActive
  {
    && c.OwnsChildren()
    && c.layoutConstraints != []
    && forall l :: l in c.layoutConstraints ==> (l.isActive <==> c in c.from.constraintsSet)
  }

  /**
   * The state of a program that has created the given items and constraints: every registered constraint is registered
   * with its own `from` item, and every constraint is in step.
   */
  ghost predicate Consistent(items: set<Item>, cs: set<Constraint>)
    reads items`constraintsSet, Owned(cs)`constraint, Owned(cs)`isActive
  {
    && (forall c :: c in cs ==> c.from in items && InStep(c))
    && (forall item, c :: item in items && c in item.constraintsSet ==> c in cs && c.from == item)
  }

  /** isActive, registered, and "all children active" are the same thing in every consistent state. */
  lemma ActiveIffRegistered(items: set<Item>, cs: set<Constraint>, c: Constraint)
    requires Consistent(items, cs) && c in cs
    ensures c in c.from.constraintsSet <==> exists l :: l in c.layoutConstraints && l.isActive
    ensures c in c.from.constraintsSet <==> forall l :: l in c.layoutConstraints ==> l.isActive
    ensures forall item :: item in items && c in item.constraintsSet ==> item == c.from
  {
    assert c.layoutConstraints[0] in c.layoutConstraints;
  }

  method Activate(c: Constraint, ghost items: set<Item>, ghost cs: set<Constraint>)
    requires Consistent(items, cs) && c in cs
    modifies c.from`constraintsSet, c.layoutConstraints`isActive
    ensures Consistent(items, cs)
    ensures c.from.constraintsSet == old(c.from.constraintsSet) + {c}
  {
    c.Activate();
  }

  method Deactivate(c: Constraint, ghost items: set<Item>, ghost cs: set<Constraint>)
    requires Consistent(items, cs) && c in cs
    modifies c.from`constraintsSet, c.layoutConstraints`isActive
    ensures Consistent(items, cs)
    ensures c.from.constraintsSet == old(c.from.constraintsSet) - {c}
  {
    c.Deactivate();
  }

  /** The isActive setter. */
  method SetIsActive(c: Constraint, newValue: bool, ghost items: set<Item>, ghost cs: set<Constraint>)
    requires Consistent(items, cs) && c in cs
    modifies c.from`constraintsSet, c.layoutConstraints`isActive
    ensures Consistent(items, cs)
    ensures c.from.constraintsSet
         == if newValue then old(c.from.constraintsSet) + {c} else old(c.from.constraintsSet) - {c}
  {
    if newValue {
      Activate(c, items, cs);
    } else {
      Deactivate(c, items, cs);
    }
  }

  method RemoveConstraints(item: Item, ghost items: set<Item>, ghost cs: set<Constraint>)
    requires Consistent(items, cs) && item in items
    modifies item`constraintsSet, Registered(item)`isActive
    ensures Consistent(items, cs)
    ensures item.constraintsSet == {}
    ensures forall l :: l in old(Registered(item)) ==> !l.isActive
  {
    var constraints := item.Constraints();
    ghost var children := Registered(item);
    assert forall c :: c in constraints ==> c.from == item;
    for i := 0 to |constraints|
      modifies item`constraintsSet, children`isActive
      invariant Consistent(items, cs)
      invariant item.constraintsSet == old(item.constraintsSet) - set c | c in constraints[..i]
    {
      assert constraints[i] in constraints;
      assert forall l :: l in constraints[i].layoutConstraints ==> l in children;
      assert constraints[..i + 1] == constraints[..i] + [constraints[i]];
      Deactivate(constraints[i], items, cs);
    }
    assert constraints[..|constraints|] == constraints;
    forall l | l in old(Registered(item)) ensures !l.isActive {
      var c :| c in old(item.constraintsSet) && l in c.layoutConstraints;
      assert InStep(c);
    }
  }

  // ---------- Preparing and making ----------

  ghost function Elements(made: seq<Constraint>): set<Constraint> {
    set c | c in made
  }

  ghost function ChildrenOf(made: seq<Constraint>): set<LayoutConstraint> {
    set c, l | c in made && l in c.Children() :: l
  }

  /** Every constraint still holds its request's constant and priority, and every child is as the request compiles. */
  ghost predicate AsCompiled(made: seq<Constraint>, requests: seq<Request>, dir: Direction)
    reads made`constant, made`priority, ChildrenOf(made)`constant, ChildrenOf(made)`priority
  {
    && |made| == |requests|
    && (forall i :: 0 <= i < |made| ==> made[i].request == requests[i])
    && (forall c :: c in made ==>
          c.Compiles() && c.constant == c.request.constant && c.priority == c.request.priority)
    && forall c :: c in made ==> ChildrenMatch(c, Compile(c.request, dir))
  }

  ghost predicate ChildrenMatch(c: Constraint, ds: seq<LayoutData>)
    reads c.Children()`constant, c.Children()`priority
  {
    |c.layoutConstraints| == |ds| && forall i :: 0 <= i < |ds| ==> c.layoutConstraints[i].Data() == ds[i]
  }

  lemma PreparedAsCompiled(made: seq<Constraint>, item: Item, requests: seq<Request>, dir: Direction)
    requires Prepared(made, item, requests, dir)
    ensures AsCompiled(made, requests, dir)
  {
    forall c | c in made ensures c.Compiles() { DirectionKeepsShapes(c.request, dir, LeftToRight); }
  }

  lemma CompilesToSomething(r: Request, dir: Direction)
    requires r.fromMask != NONE
    ensures Compile(r, dir) != []
  {
    var a :| a in r.fromMask;
    assert a in Listed(r.fromMask);
  }

  /** prepareConstraints leaves its constraints out of every registry and inactive. */
  method PrepareConstraints(item: Item, closure: seq<Clause>, dir: Direction, ghost items: set<Item>,
                            ghost cs: set<Constraint>)
      returns (ok: bool, made: seq<Constraint>)
    requires Consistent(items, cs) && item in items && Getters(closure)
    ensures ok <==> Runs(item, item.superview, closure)
    ensures ok ==> Prepared(made, item, Requests(item, item.superview, closure), dir)
    ensures forall c :: c in made ==> fresh(c) && fresh(c.layoutConstraints) && c.Valid() && c.from == item
    ensures Consistent(items, cs + Elements(made)) && (!ok ==> made == [])
  {
    ok, made := Maker.PrepareConstraints(item, closure, dir);
    if !ok {
      made := [];
      assert cs + Elements(made) == cs;
    } else {
      forall c | c in made ensures InStep(c) && c.from in items {
        var i :| 0 <= i < |made| && made[i] == c;
        RequestsAreSound(item, item.superview, closure, i);
        CompilesToSomething(c.request, dir);
        assert c !in c.from.constraintsSet;
      }
    }
  }

  method MakeConstraints(item: Item, closure: seq<Clause>, dir: Direction, ghost items: set<Item>,
                         ghost cs: set<Constraint>)
      returns (ok: bool, made: seq<Constraint>)
    requires Consistent(items, cs) && item in items && Getters(closure)
    modifies item`constraintsSet
    ensures ok <==> Runs(item, item.superview, closure)
    ensures forall c :: c in made ==> fresh(c) && fresh(c.layoutConstraints) && c.Valid() && c.from == item
    ensures ok ==> Consistent(items, cs + Elements(made))
    ensures ok ==> item.constraintsSet == old(item.constraintsSet) + Elements(made)
    ensures ok ==> AsCompiled(made, Requests(item, item.superview, closure), dir) && NoRepeats(made)
    ensures !ok ==> made == [] && Consistent(items, cs) && item.constraintsSet == old(item.constraintsSet)
  {
    assert cs + Elements([]) == cs;
    ok, made := PrepareConstraints(item, closure, dir, items, cs);
    if ok {
      PreparedAsCompiled(made, item, Requests(item, item.superview, closure), dir);
      ActivateAll(made, item, items, cs + Elements(made));
    }
  }

  /** The activation loop of makeConstraints. */
  method ActivateAll(constraints: seq<Constraint>, item: Item, ghost items: set<Item>, ghost cs: set<Constraint>)
    requires Consistent(items, cs)
    requires forall c :: c in constraints ==> c in cs && c.from == item
    modifies item`constraintsSet, ChildrenOf(constraints)`isActive
    ensures Consistent(items, cs)
    ensures item.constraintsSet == old(item.constraintsSet) + Elements(constraints)
  {
    for i := 0 to |constraints|
      invariant Consistent(items, cs)
      invariant item.constraintsSet == old(item.constraintsSet) + Elements(constraints[..i])
    {
      assert constraints[i] in constraints;
      assert constraints[..i + 1] == constraints[..i] + [constraints[i]];
      forall l | l in constraints[i].layoutConstraints ensures l in ChildrenOf(constraints) {
        assert l in constraints[i].Children();
      }
      Activate(constraints[i], items, cs);
    }
    assert constraints[..|constraints|] == constraints;
  }

  /**
   * remakeConstraints: afterwards exactly the newly prepared constraints are registered, and everything old is
   * inactive.
   */
  method RemakeConstraints(item: Item, closure: seq<Clause>, dir: Direction, ghost items: set<Item>,
                           ghost cs: set<Constraint>)
      returns (ok: bool, made: seq<Constraint>)
    requires Consistent(items, cs) && item in items && Getters(closure)
    modifies item`constraintsSet, Registered(item)`isActive
    ensures ok <==> Runs(item, item.superview, closure)
    ensures forall c :: c in made ==> fresh(c) && fresh(c.layoutConstraints) && c.Valid() && c.from == item
    ensures ok ==> Consistent(items, cs + Elements(made))
    ensures ok ==> item.constraintsSet == Elements(made)
    ensures ok ==> AsCompiled(made, Requests(item, item.superview, closure), dir) && NoRepeats(made)
    ensures !ok ==> made == [] && Consistent(items, cs) && item.constraintsSet == {}
    ensures forall l :: l in old(Registered(item)) ==> !l.isActive
  {
    RemoveConstraints(item, items, cs);
    ok, made := MakeConstraints(item, closure, dir, items, cs);
  }

  // ---------- Updating ----------

  /** What a new constraint writes into the ones it matches: its constant, for the attributes looked up. */
  ghost function WrittenBy(r: Request, dir: Direction): (ds: seq<LayoutData>)
    ensures |ds| == |Compile(r, dir)|
    ensures forall i :: 0 <= i < |ds| ==> ds[i] == Rewritten(Compile(r, dir)[i], r.constant, dir)
  {
    var ds := Compile(r, dir);
    seq(|ds|, i requires 0 <= i < |ds| => Rewritten(ds[i], r.constant, dir))
  }

  lemma WritesForItsRequest(c: Constraint, r: Request, dir: Direction)
    requires c.constant == r.constant && ChildrenMatch(c, Compile(r, dir))
    ensures Written(c.layoutConstraints, c.constant, dir) == WrittenBy(r, dir)
  {
    forall i | 0 <= i < |c.layoutConstraints|
      ensures Written(c.layoutConstraints, c.constant, dir)[i] == WrittenBy(r, dir)[i]
    {
      assert c.layoutConstraints[i].Data() == Compile(r, dir)[i];
    }
  }

  /** What is written is what was compiled, exactly when no constant drifts. */
  lemma WritesWhatItCompiles(r: Request, dir: Direction)
    requires Rooted(r)
    ensures WrittenBy(r, dir) == Compile(r, dir) <==> DriftFree(r, dir)
  {
    var ds, ns, attrs := Compile(r, dir), WrittenBy(r, dir), Listed(r.fromMask);
    forall i | 0 <= i < |ds| ensures ns[i] == ds[i] <==> Steady(r, dir, attrs[i]) {
      assert attrs[i] in attrs;
    }
    if ns == ds {
      forall a | a in r.fromMask && Unhosted(r, a)
        ensures ValueFor(r.constant, a, dir) == ValueFor(r.constant, CompiledAlone(a), dir)
      {
        assert a in attrs;
        var i :| 0 <= i < |attrs| && attrs[i] == a;
        assert ns[i] == ds[i];
        SteadyUnlessUnhosted(r, dir, a);
      }
    } else if DriftFree(r, dir) {
      forall i | 0 <= i < |ds| ensures ns[i] == ds[i] {
        assert attrs[i] in attrs;
        SteadyUnlessUnhosted(r, dir, attrs[i]);
      }
    }
  }

  ghost function WrittenByAll(rs: seq<Request>, dir: Direction): seq<LayoutData> {
    if rs == [] then [] else WrittenByAll(rs[..|rs| - 1], dir) + WrittenBy(rs[|rs| - 1], dir)
  }

  ghost predicate AllRooted(rs: seq<Request>) {
    forall i :: 0 <= i < |rs| ==> Rooted(rs[i])
  }

  ghost predicate AllDriftFree(rs: seq<Request>, dir: Direction) {
    forall i :: 0 <= i < |rs| ==> DriftFree(rs[i], dir)
  }

  /** An update writes the shapes that were compiled. */
  lemma {:induction false} AllWriteTheirShapes(rs: seq<Request>, dir: Direction)
    ensures var ns, ds := WrittenByAll(rs, dir), CompileAll(rs, dir);
            |ns| == |ds| && forall i :: 0 <= i < |ns| ==> SameShape(ns[i], ds[i])
  {
    if rs == [] {
    } else {
      var front, last := rs[..|rs| - 1], rs[|rs| - 1];
      AllWriteTheirShapes(front, dir);
      ShapesOfConcat(WrittenByAll(front, dir), WrittenBy(last, dir), CompileAll(front, dir), Compile(last, dir));
    }
  }

  /** It writes the compiled constants too exactly when none drifts. */
  lemma {:induction false} AllWriteWhatTheyCompile(rs: seq<Request>, dir: Direction)
    requires AllRooted(rs)
    ensures WrittenByAll(rs, dir) == CompileAll(rs, dir) <==> AllDriftFree(rs, dir)
  {
    if rs == [] {
    } else {
      var front, last := rs[..|rs| - 1], rs[|rs| - 1];
      AllWriteWhatTheyCompile(front, dir);
      AllWriteTheirShapes(front, dir);
      WritesWhatItCompiles(last, dir);
      ConcatEqual(WrittenByAll(front, dir), WrittenBy(last, dir), CompileAll(front, dir), Compile(last, dir));
      assert AllDriftFree(rs, dir) <==> AllDriftFree(front, dir) && DriftFree(last, dir);
    }
  }

  lemma ShapesOfConcat(a: seq<LayoutData>, b: seq<LayoutData>, c: seq<LayoutData>, d: seq<LayoutData>)
    requires |a| == |c| && forall i :: 0 <= i < |a| ==> SameShape(a[i], c[i])
    requires |b| == |d| && forall i :: 0 <= i < |b| ==> SameShape(b[i], d[i])
    ensures |a + b| == |c + d| && forall i :: 0 <= i < |a + b| ==> SameShape((a + b)[i], (c + d)[i])
  {
    forall i | 0 <= i < |a + b| ensures SameShape((a + b)[i], (c + d)[i]) {
      if i >= |a| { assert SameShape(b[i - |a|], d[i - |a|]); }
    }
  }

  lemma ConcatEqual<T>(a: seq<T>, b: seq<T>, c: seq<T>, d: seq<T>)
    requires |a| == |c| && |b| == |d|
    ensures a + b == c + d <==> a == c && b == d
  {
    if a + b == c + d {
      assert a == (a + b)[..|a|] && b == (a + b)[|a|..];
    }
  }

  /** What the closure asks for is covered only if every part of it is. */
  lemma {:induction false} CoveredInPart(m: map<LayoutConstraint, LayoutData>, rs: seq<Request>, dir: Direction, n: nat)
    requires n <= |rs| && CoveredIn(WrittenByAll(rs, dir), m)
    ensures CoveredIn(WrittenByAll(rs[..n], dir), m)
  {
    if n == |rs| {
      assert rs[..n] == rs;
    } else {
      var last := |rs| - 1;
      CoveredByConcat(WrittenByAll(rs[..last], dir), WrittenBy(rs[last], dir), m);
      assert rs[..last][..n] == rs[..n];
      CoveredInPart(m, rs[..last], dir, n);
    }
  }

  /** One incremental update by a newly prepared constraint. */
  method UpdateOne(c: Constraint, dir: Direction) returns (ok: bool)
    requires c.Pristine(dir) && c !in c.from.constraintsSet
    requires forall d :: d in c.from.constraintsSet ==> d.OwnsChildren()
    modifies Registered(c.from)`constant
    ensures UpdateOutcome(ok, old(Snapshot(Registered(c.from))), Snapshot(Registered(c.from)),
                          WrittenBy(c.request, dir))
  {
    WritesForItsRequest(c, c.request, dir);
    ghost var existing;
    ok, existing := c.ActivateUpdatingExisting(dir);
  }

  /** What part of a closure's requests names, all of them name. */
  lemma {:induction false} NamedInPart(d: LayoutData, rs: seq<Request>, dir: Direction, n: nat)
    requires n <= |rs| && !Named(d, WrittenByAll(rs, dir))
    ensures !Named(d, WrittenByAll(rs[..n], dir))
  {
    if n == |rs| {
      assert rs[..n] == rs;
    } else {
      var last := |rs| - 1;
      NamedByConcat(d, WrittenByAll(rs[..last], dir), WrittenBy(rs[last], dir));
      assert rs[..last][..n] == rs[..n];
      NamedInPart(d, rs[..last], dir, n);
    }
  }

  lemma OutcomeStep(before: map<LayoutConstraint, LayoutData>, now: map<LayoutConstraint, LayoutData>,
                    after: map<LayoutConstraint, LayoutData>, rs: seq<Request>, dir: Direction, i: nat, ok: bool)
    requires i < |rs| && UpdateOutcome(true, before, now, WrittenByAll(rs[..i], dir))
    requires UpdateOutcome(ok, now, after, WrittenBy(rs[i], dir))
    ensures UpdateOutcome(ok, before, after, WrittenByAll(rs[..i + 1], dir))
    ensures !ok ==> UpdateOutcome(false, before, after, WrittenByAll(rs, dir))
  {
    assert rs[..i + 1][..i] == rs[..i];
    OutcomesCompose(before, now, after, WrittenByAll(rs[..i], dir), WrittenBy(rs[i], dir), ok);
    if !ok { OutcomeOfStop(before, after, rs, dir, i); }
  }

  /** A run that stops is one of the whole closure that stops. */
  lemma OutcomeOfStop(before: map<LayoutConstraint, LayoutData>, after: map<LayoutConstraint, LayoutData>,
                      rs: seq<Request>, dir: Direction, i: nat)
    requires i < |rs| && UpdateOutcome(false, before, after, WrittenByAll(rs[..i + 1], dir))
    ensures UpdateOutcome(false, before, after, WrittenByAll(rs, dir))
  {
    if CoveredIn(WrittenByAll(rs, dir), before) { CoveredInPart(before, rs, dir, i + 1); }
    forall k | k in before && !Named(before[k], WrittenByAll(rs, dir)) ensures after[k] == before[k] {
      NamedInPart(before[k], rs, dir, i + 1);
    }
  }

  /** New constraints that share nothing with the ones registered with the item. */
  ghost predicate ReadyToUpdate(constraints: seq<Constraint>, item: Item, rs: seq<Request>, dir: Direction)
    reads item`constraintsSet, set c, o | c in constraints && o in c.Footprint() :: o
    reads set c, l | c in item.constraintsSet && l in c.Children() :: l`constraint
  {
    && Prepared(constraints, item, rs, dir)
    && (forall c :: c in item.constraintsSet ==> c.OwnsChildren() && c !in constraints)
    && (forall c :: c in constraints ==> c.Children() !! Registered(item))
  }

  lemma ReadyAt(constraints: seq<Constraint>, item: Item, rs: seq<Request>, dir: Direction, i: nat)
    requires ReadyToUpdate(constraints, item, rs, dir) && i < |constraints|
    ensures i < |rs| && constraints[i].request == rs[i] && constraints[i].from == item
    ensures constraints[i].Pristine(dir) && constraints[i] !in item.constraintsSet
    ensures forall d :: d in item.constraintsSet ==> d.OwnsChildren()
  {
    assert constraints[i] in constraints;
  }

  /** One incremental update leaves the new constraints as they are. */
  method UpdateReady(constraints: seq<Constraint>, item: Item, ghost rs: seq<Request>, dir: Direction, i: nat)
      returns (ok: bool)
    requires ReadyToUpdate(constraints, item, rs, dir) && i < |constraints|
    modifies Registered(item)`constant
    ensures ReadyToUpdate(constraints, item, rs, dir)
    ensures UpdateOutcome(ok, old(Snapshot(Registered(item))), Snapshot(Registered(item)), WrittenBy(rs[i], dir))
  {
    ReadyAt(constraints, item, rs, dir, i);
    ok := UpdateOne(constraints[i], dir);
    forall c | c in constraints ensures c.from == item && c.Pristine(dir) {
      assert old(c.Pristine(dir)) && c.Children() !! Registered(item);
    }
  }

  /** One round of the update loop of updateConstraints. */
  method UpdateNext(constraints: seq<Constraint>, item: Item, ghost rs: seq<Request>, dir: Direction, i: nat,
                    ghost before: map<LayoutConstraint, LayoutData>)
      returns (ok: bool)
    requires ReadyToUpdate(constraints, item, rs, dir) && i < |constraints|
    requires UpdateOutcome(true, before, Snapshot(Registered(item)), WrittenByAll(rs[..i], dir))
    modifies Registered(item)`constant
    ensures ReadyToUpdate(constraints, item, rs, dir)
    ensures UpdateOutcome(ok, before, Snapshot(Registered(item)), WrittenByAll(rs[..i + 1], dir))
    ensures !ok ==> UpdateOutcome(false, before, Snapshot(Registered(item)), WrittenByAll(rs, dir))
  {
    ghost var now := Snapshot(Registered(item));
    ok := UpdateReady(constraints, item, rs, dir, i);
    OutcomeStep(before, now, Snapshot(Registered(item)), rs, dir, i, ok);
  }

  /** The update loop of updateConstraints. */
  method UpdateAll(constraints: seq<Constraint>, item: Item, ghost rs: seq<Request>, dir: Direction) returns (ok: bool)
    requires ReadyToUpdate(constraints, item, rs, dir)
    modifies Registered(item)`constant
    ensures UpdateOutcome(ok, old(Snapshot(Registered(item))), Snapshot(Registered(item)), WrittenByAll(rs, dir))
    ensures ReadyToUpdate(constraints, item, rs, dir)
  {
    ghost var before := Snapshot(Registered(item));
    NothingUpdated(before, rs, dir);
    for i := 0 to |constraints|
      invariant ReadyToUpdate(constraints, item, rs, dir)
      invariant UpdateOutcome(true, before, Snapshot(Registered(item)), WrittenByAll(rs[..i], dir))
    {
      ok := UpdateNext(constraints, item, rs, dir, i, before);
      if !ok { return; }
    }
    assert rs[..|constraints|] == rs;
    ok := true;
  }

  lemma NothingUpdated(before: map<LayoutConstraint, LayoutData>, rs: seq<Request>, dir: Direction)
    ensures UpdateOutcome(true, before, before, WrittenByAll(rs[..0], dir))
  {
  }

  /** Constraints that are not registered with an item share no layout constraint with it. */
  lemma Apart(items: set<Item>, cs: set<Constraint>, item: Item, made: seq<Constraint>)
    requires Consistent(items, cs) && item in items && Elements(made) <= cs
    requires forall c :: c in made ==> c !in item.constraintsSet
    ensures forall c :: c in item.constraintsSet ==> c.OwnsChildren() && c !in made
    ensures forall c :: c in made ==> c.Children() !! Registered(item)
  {
    forall c | c in item.constraintsSet ensures c.OwnsChildren() { assert InStep(c); }
    forall c, l | c in made && l in c.Children() ensures l !in Registered(item) {
      assert c in Elements(made) && InStep(c);
    }
  }

  /**
   * updateConstraints on an item with registered constraints: it registers nothing and deactivates nothing, it runs
   * to the end exactly when every layout constraint the closure asks for has a registered one of the same shape,
   * and, if none of the shapes asked for is registered twice, it leaves each of them with the constant the closure
   * last asks for.
   */
  method UpdateRegistered(item: Item, closure: seq<Clause>, dir: Direction, ghost items: set<Item>,
                          ghost cs: set<Constraint>)
      returns (ok: bool, made: seq<Constraint>)
    requires Consistent(items, cs) && item in items && Getters(closure)
    modifies Registered(item)`constant
    ensures forall c :: c in made ==> fresh(c) && fresh(c.layoutConstraints) && c.Valid() && c.from == item
    ensures Consistent(items, cs + Elements(made))
    ensures ok ==> Runs(item, item.superview, closure)
    ensures if Runs(item, item.superview, closure)
            then AsCompiled(made, Requests(item, item.superview, closure), dir) && NoRepeats(made)
            else made == []
    ensures Runs(item, item.superview, closure) ==>
      UpdateOutcome(ok, old(Snapshot(Registered(item))), Snapshot(Registered(item)),
                    WrittenByAll(Requests(item, item.superview, closure), dir))
    ensures !Runs(item, item.superview, closure) ==>
      !ok && Snapshot(Registered(item)) == old(Snapshot(Registered(item)))
  {
    ok, made := PrepareConstraints(item, closure, dir, items, cs);
    if !ok { return; }
    ghost var rs := Requests(item, item.superview, closure);
    Apart(items, cs + Elements(made), item, made);
    ok := UpdatePrepared(made, item, rs, dir, items, cs + Elements(made));
  }

  /** The update loop touches no registry and no active flag. */
  method UpdatePrepared(made: seq<Constraint>, item: Item, ghost rs: seq<Request>, dir: Direction,
                        ghost items: set<Item>, ghost cs: set<Constraint>)
      returns (ok: bool)
    requires Consistent(items, cs) && ReadyToUpdate(made, item, rs, dir)
    modifies Registered(item)`constant
    ensures Consistent(items, cs) && AsCompiled(made, rs, dir)
    ensures UpdateOutcome(ok, old(Snapshot(Registered(item))), Snapshot(Registered(item)), WrittenByAll(rs, dir))
  {
    ok := UpdateAll(made, item, rs, dir);
    PreparedAsCompiled(made, item, rs, dir);
  }

  /** updateConstraints: with nothing registered it is makeConstraints. */
  method UpdateConstraints(item: Item, closure: seq<Clause>, dir: Direction, ghost items: set<Item>,
                           ghost cs: set<Constraint>)
      returns (ok: bool, made: seq<Constraint>)
    requires Consistent(items, cs) && item in items && Getters(closure)
    modifies item`constraintsSet, Registered(item)`constant
    ensures forall c :: c in made ==> fresh(c) && fresh(c.layoutConstraints) && c.Valid() && c.from == item
    ensures Consistent(items, cs + Elements(made))
    ensures old(item.constraintsSet) == {} ==> (ok <==> Runs(item, item.superview, closure))
    ensures old(item.constraintsSet) == {} ==> item.constraintsSet == Elements(made)
    ensures if Runs(item, item.superview, closure)
            then AsCompiled(made, Requests(item, item.superview, closure), dir) && NoRepeats(made)
            else made == []
    ensures ok ==> Runs(item, item.superview, closure)
    ensures old(item.constraintsSet) != {} ==> item.constraintsSet == old(item.constraintsSet)
    ensures old(item.constraintsSet) != {} && Runs(item, item.superview, closure) ==>
      UpdateOutcome(ok, old(Snapshot(Registered(item))), Snapshot(Registered(item)),
                    WrittenByAll(Requests(item, item.superview, closure), dir))
    ensures !Runs(item, item.superview, closure) ==> Snapshot(Registered(item)) == old(Snapshot(Registered(item)))
  {
    var constraints := item.Constraints();
    assert |constraints| > 0 ==> constraints[0] in constraints;
    if |constraints| == 0 {
      assert forall c :: c in item.constraintsSet ==> c in constraints;
      ok, made := MakeConstraints(item, closure, dir, items, cs);
      if !ok {
        made := [];
        assert cs + Elements(made) == cs;
      }
    } else {
      ok, made := UpdateRegistered(item, closure, dir, items, cs);
    }
  }
}
