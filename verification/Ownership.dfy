/**
 * updateConstraints writes into registered layout constraints behind the back of the constraints that own them: when an
 * owner's constant still describes its children afterwards, and what its next own update does to them.
 */
module Ownership {
  import opened AttributeLists
  import opened Compiler
  import opened ConstantTargets
  import opened Drafts
  import opened Layout
  import opened Matching
  import opened Options
  import opened Registry
  import U = Updates

  /** The closure writes nothing new into the constraint's children. */
  ghost predicate WritesNothingNew(c: Constraint, ns: seq<LayoutData>)
    reads c.layoutConstraints
  {
    forall l :: l in c.layoutConstraints ==> Latest(l.Data(), ns).constant == l.constant
  }

  /**
   * An owner that was in step with its children is in step with them after a completed update exactly when the closure
   * writes nothing new into them, which can be told from the state before.
   */
  method UpdateAndOwner(item: Item, closure: seq<Clause>, dir: Direction, ghost items: set<Item>,
                        ghost cs: set<Constraint>, ghost c: Constraint)
      returns (ok: bool)
    requires Consistent(items, cs) && item in items && Getters(closure)
    requires c in item.constraintsSet && c.Valid() && c.InSync(dir)
    requires Runs(item, item.superview, closure) ==>
      NamedOnceIn(Snapshot(Registered(item)), WrittenByAll(Requests(item, item.superview, closure), dir))
    modifies item`constraintsSet, Registered(item)`constant
    ensures c.Valid() && c in item.constraintsSet
    ensures ok ==> Runs(item, item.superview, closure)
    ensures ok ==>
      var ns := WrittenByAll(Requests(item, item.superview, closure), dir);
      c.InSync(dir) <==> old(WritesNothingNew(c, ns))
  {
    ghost var before := Snapshot(Registered(item));
    ghost var made;
    ok, made := UpdateConstraints(item, closure, dir, items, cs);
    if ok {
      ghost var ns := WrittenByAll(Requests(item, item.superview, closure), dir);
      forall i | 0 <= i < |c.layoutConstraints|
        ensures c.layoutConstraints[i].constant == Latest(old(c.layoutConstraints[i].Data()), ns).constant
        ensures old(c.layoutConstraints[i].constant) == ValueFor(c.constant, LookupAttribute(c.compiled[i]), dir)
      {
        var l := c.layoutConstraints[i];
        assert l in c.layoutConstraints && l in Registered(item);
        assert Snapshot(Registered(item))[l] == Updated(before, ns)[l];
      }
    }
  }

  /**
   * The owner's next own update, of whatever kind, discards what updateConstraints wrote: after a change of priority
   * every child is back at the constant it had before updateConstraints, whatever the closure asked for.
   */
  method UpdateThenChangePriority(item: Item, closure: seq<Clause>, dir: Direction, ghost items: set<Item>,
                                  ghost cs: set<Constraint>, c: Constraint, priority: real)
      returns (ok: bool)
    requires Consistent(items, cs) && item in items && Getters(closure)
    requires c in item.constraintsSet && c.Valid() && c.InSync(dir)
    modifies item`constraintsSet, Registered(item)`constant
    modifies c`constant, c`priority, c.layoutConstraints`constant, c.layoutConstraints`priority
    ensures ok ==> Runs(item, item.superview, closure)
    ensures ok ==> forall l :: l in c.layoutConstraints ==> l.constant == old(l.constant)
    ensures ok ==> c.InSync(dir) && c.constant == old(c.constant)
  {
    ghost var made;
    ok, made := UpdateConstraints(item, closure, dir, items, cs);
    if ok {
      c.Perform(U.ToPriority(priority), dir);
      forall l | l in c.layoutConstraints ensures l.constant == old(l.constant) {
        var i :| 0 <= i < |c.layoutConstraints| && c.layoutConstraints[i] == l;
        assert old(c.layoutConstraints[i].constant) == ValueFor(old(c.constant), LookupAttribute(c.compiled[i]), dir);
      }
    }
  }

  // ---------- A stale owner ----------

  /** `make.left.equalTo(view).offset(amount)` */
  function LeftAt(view: object, amount: real): Clause {
    Clause({Left}, [RelateTo(Equal, ViewTarget(view)), Offset(amount)])
  }

  function LeftRequest(from: object, superview: object?, view: object, amount: real): Request {
    Request(from, {Left}, superview, view, NONE, Equal, 1.0, Scalar(amount), 1000.0)
  }

  lemma LeftRuns(from: object, superview: object?, view: object, amount: real)
    ensures Runs(from, superview, [LeftAt(view, amount)])
    ensures Requests(from, superview, [LeftAt(view, amount)]) == [LeftRequest(from, superview, view, amount)]
  {
    var c, p := LeftAt(view, amount), Progress(Fresh({Left}), None);
    assert c.edits[..1] == [c.edits[0]] && c.edits[..1][..0] == [];
    assert PerformAll(from, superview, p, []) == Some(p);
    assert PerformAll(from, superview, p, [c.edits[0]]) == Perform(from, superview, p, c.edits[0]);
    assert RunClause(from, superview, c)
        == Some(p.(draft := p.draft.(related := Some(Related(Equal, view, NONE)), constant := Scalar(amount))));
    assert [c][..0] == [];
    assert Requests(from, superview, []) == [];
  }

  lemma LeftCompiles(from: object, superview: object?, view: object, amount: real, dir: Direction)
    ensures Compile(LeftRequest(from, superview, view, amount), dir)
         == [LayoutData(from, Left, Equal, view, Left, 1.0, amount, 1000.0)]
    ensures WrittenByAll([LeftRequest(from, superview, view, amount)], dir)
         == [LayoutData(from, Left, Equal, view, Left, 1.0, amount, 1000.0)]
  {
    var r := LeftRequest(from, superview, view, amount);
    SingletonList(Left);
    NoneList();
    assert Compile(r, dir)[0] == CompileOne(r, dir, Left);
    assert [r][..0] == [] && WrittenByAll([], dir) == [];
    assert WrittenBy(r, dir) == Compile(r, dir);
  }

  /** What is registered when the only registered constraint has one child. */
  lemma OneRegistered(item: Item, c: Constraint)
    requires item.constraintsSet == {c} && |c.layoutConstraints| == 1
    ensures Registered(item) == {c.layoutConstraints[0]}
  {
    assert c.layoutConstraints[0] in c.layoutConstraints;
    forall l | l in Registered(item) ensures l == c.layoutConstraints[0] {
      var i :| 0 <= i < |c.layoutConstraints| && c.layoutConstraints[i] == l;
    }
  }

  lemma ElementsOfOne(c: Constraint)
    ensures Elements([c]) == {c} && {} + Elements([c]) == {c}
  {
  }

  /** An update of the only registered layout constraint by one of its shape. */
  lemma OnlyOneUpdated(l: LayoutConstraint, before: map<LayoutConstraint, LayoutData>,
                       after: map<LayoutConstraint, LayoutData>, n: LayoutData, ok: bool)
    requires before.Keys == {l} && SameShape(before[l], n) && UpdateOutcome(ok, before, after, [n])
    ensures ok && l in after && after[l].constant == n.constant
  {
    assert MatchedIn([n][0], before);
    assert NamedOnceIn(before, [n]);
    assert after[l] == Updated(before, [n])[l];
    assert [n][0] == n;
  }

  /** What is made of one request for a left edge. */
  lemma LeftMade(made: seq<Constraint>, from: object, view: object, amount: real, dir: Direction)
    requires AsCompiled(made, [LeftRequest(from, null, view, amount)], dir)
    ensures |made| == 1 && made[0].constant == Scalar(amount) && |made[0].layoutConstraints| == 1
    ensures made[0].layoutConstraints[0].Data() == LayoutData(from, Left, Equal, view, Left, 1.0, amount, 1000.0)
    ensures {} + Elements(made) == {made[0]}
  {
    LeftCompiles(from, null, view, amount, dir);
    var c := made[0];
    assert made == [c] && c in made;
    assert ChildrenMatch(c, [LayoutData(from, Left, Equal, view, Left, 1.0, amount, 1000.0)]);
    ElementsOfOne(c);
  }

  /** A constraint whose only child has another constant than its own. */
  lemma OutOfStep(c: Constraint, l: LayoutConstraint, dir: Direction)
    requires c.Valid() && c.layoutConstraints == [l]
    requires c.constant.Scalar? && l.constant != c.constant.value
    ensures !c.InSync(dir)
  {
    assert c.layoutConstraints[0] == l;
  }

  /** A new item with one left edge. */
  method MakeLeft(view: object, amount: real, dir: Direction) returns (item: Item, c: Constraint, l: LayoutConstraint)
    ensures fresh(item) && item.superview == null
    ensures item.constraintsSet == {c} && Consistent({item}, {c}) && c.Valid() && fresh(c) && fresh(l)
    ensures c.constant == Scalar(amount) && c.layoutConstraints == [l]
    ensures l.Data() == LayoutData(item, Left, Equal, view, Left, 1.0, amount, 1000.0)
  {
    item := new Item();
    LeftRuns(item, null, view, amount);
    var ok, made := MakeConstraints(item, [LeftAt(view, amount)], dir, {item}, {});
    LeftMade(made, item, view, amount, dir);
    assert made[0] in made;
    c := made[0];
    l := c.layoutConstraints[0];
    assert l in c.layoutConstraints;
  }

  /** The same left edge at another offset, by updateConstraints. */
  method UpdateLeft(item: Item, c: Constraint, l: LayoutConstraint, view: object, offset: real, amount: real,
                    dir: Direction)
    requires item.superview == null && item.constraintsSet == {c} && Consistent({item}, {c}) && c.Valid()
    requires c.layoutConstraints == [l] && l.Data() == LayoutData(item, Left, Equal, view, Left, 1.0, offset, 1000.0)
    modifies item`constraintsSet, Registered(item)`constant
    ensures item.constraintsSet == {c} && c.Valid() && l.constant == amount
  {
    OneRegistered(item, c);
    LeftRuns(item, null, view, amount);
    LeftCompiles(item, null, view, amount, dir);
    ghost var before, n := Snapshot(Registered(item)), LayoutData(item, Left, Equal, view, Left, 1.0, amount, 1000.0);
    var ok, more := UpdateConstraints(item, [LeftAt(view, amount)], dir, {item}, {c});
    OnlyOneUpdated(l, before, Snapshot(Registered(item)), n, ok);
  }

  /** A left edge made at offset 8 and updated to 16: the owner still holds 8 and is out of step with its child. */
  method StaleOwner(view: object, dir: Direction) returns (item: Item, c: Constraint, l: LayoutConstraint)
    ensures fresh(item) && c in item.constraintsSet && c.Valid()
    ensures c.constant == Scalar(8.0) && c.layoutConstraints == [l] && l.constant == 16.0
    ensures !c.InSync(dir)
  {
    item, c, l := MakeLeft(view, 8.0, dir);
    OneRegistered(item, c);
    UpdateLeft(item, c, l, view, 8.0, 16.0, dir);
    OutOfStep(c, l, dir);
  }
}
