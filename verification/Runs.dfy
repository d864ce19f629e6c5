/** Every run: whatever operations a program performs, its registries stay consistent. */
module Runs {
  import opened Compiler
  import opened ConstantTargets
  import opened Drafts
  import opened Layout
  import opened Matching
  import opened Registry
  import opened Scenes
  import opened UpdateRuns
  import U = Updates

  // ---------- Stories ----------

  /** An updateConstraints on the given item. */
  predicate Hits(op: Op, items: seq<Item>, from: Item) {
    op.OnItem? && op.itemOp.UpdateWith? && op.item < |items| && items[op.item] == from
  }

  /** What an operation adds to the story of the n-th constraint. */
  function Next(h: Story, op: Op, n: nat, hit: bool): Story {
    if op.OnConstraint? && op.constraint == n && op.constraintOp.Change?
    then Story(h.us + [op.constraintOp.update], op.dir, true)
    else if hit then h.(current := false)
    else h
  }

  /** The story of the n-th constraint, from the operations since it was made in the given direction. */
  function StoryOf(since: seq<Op>, n: nat, items: seq<Item>, from: Item, dir: Direction): Story {
    if since == [] then Story([], dir, true)
    else
      var last := since[|since| - 1];
      Next(StoryOf(since[..|since| - 1], n, items, from, dir), last, n, Hits(last, items, from))
  }

  /** The operation gives the n-th constraint a new constant. */
  predicate SetsConstant(op: Op, n: nat) {
    op.OnConstraint? && op.constraint == n && op.constraintOp.Change? && !op.constraintOp.update.ToPriority?
  }

  /** The operation gives the n-th constraint a new priority. */
  predicate SetsPriority(op: Op, n: nat) {
    op.OnConstraint? && op.constraint == n && op.constraintOp.Change? && op.constraintOp.update.ToPriority?
  }

  predicate LastConstant(since: seq<Op>, n: nat, k: nat) {
    k < |since| && SetsConstant(since[k], n) && forall m :: k < m < |since| ==> !SetsConstant(since[m], n)
  }

  predicate LastPriority(since: seq<Op>, n: nat, k: nat) {
    k < |since| && SetsPriority(since[k], n) && forall m :: k < m < |since| ==> !SetsPriority(since[m], n)
  }

  /** The story's last constant is the last one an operation has set. */
  lemma {:induction false} LastConstantTold(since: seq<Op>, n: nat, items: seq<Item>, from: Item, dir: Direction,
                                            k: nat)
      returns (j: nat)
    requires LastConstant(since, n, k)
    ensures var h := StoryOf(since, n, items, from, dir);
            && U.LastChange(h.us, j) && h.us[j] == since[k].constraintOp.update
            && ((forall m :: k < m < |since| ==> !Hits(since[m], items, from)) ==> h.current)
  {
    var last, front := |since| - 1, since[..|since| - 1];
    if k == last {
      j := |StoryOf(front, n, items, from, dir).us|;
    } else {
      forall m | 0 <= m < last ensures since[m] == front[m] {}
      j := LastConstantTold(front, n, items, from, dir, k);
    }
  }

  /** The story's last priority is the last one an operation has set. */
  lemma {:induction false} LastPriorityTold(since: seq<Op>, n: nat, items: seq<Item>, from: Item, dir: Direction,
                                            k: nat)
      returns (j: nat)
    requires LastPriority(since, n, k)
    ensures var h := StoryOf(since, n, items, from, dir);
            U.LastPriority(h.us, j) && h.us[j] == since[k].constraintOp.update
  {
    var last, front := |since| - 1, since[..|since| - 1];
    if k == last {
      j := |StoryOf(front, n, items, from, dir).us|;
    } else {
      forall m | 0 <= m < last ensures since[m] == front[m] {}
      j := LastPriorityTold(front, n, items, from, dir, k);
    }
  }

  /** A constraint was made of one of the closure's requests. */
  ghost predicate Born(c: Constraint, closure: seq<Clause>)
    reads c.from`superview
  {
    && Drafts.Runs(c.from, c.from.superview, closure)
    && c.request in Requests(c.from, c.from.superview, closure)
  }

  lemma CompiledAreNewborn(more: seq<Constraint>, item: Item, closure: seq<Clause>, dir: Direction)
    requires Getters(closure) && Drafts.Runs(item, item.superview, closure)
    requires AsCompiled(more, Requests(item, item.superview, closure), dir)
    requires forall c :: c in more ==> c.Valid() && c.from == item
    ensures forall c :: c in more ==> Born(c, closure) && Tracks(c, Story([], dir, true))
  {
    forall c | c in more ensures Born(c, closure) && Tracks(c, Story([], dir, true)) {
      var i :| 0 <= i < |more| && more[i] == c;
      RequestsAreSound(item, item.superview, closure, i);
      assert [c][0] == c;
      StoryBegins(c, dir);
    }
  }

  // ---------- Steps ----------

  /** What an item has registered after an operation that updates nothing. */
  ghost function Switched(op: ItemOp, was: set<Constraint>, more: seq<Constraint>): set<Constraint> {
    (if op.Remake? || op.Remove? then {} else was) + if op.Make? || op.Remake? then Elements(more) else {}
  }

  /** An operation on an item that changes no constant. The result false stands for a closure that stops the program. */
  method Operate(item: Item, op: ItemOp, closure: seq<Clause>, dir: Direction, ghost items: set<Item>,
                 ghost cs: set<Constraint>)
      returns (ok: bool, more: seq<Constraint>)
    requires Consistent(items, cs) && item in items && Getters(closure) && !op.UpdateWith?
    modifies item`constraintsSet, Registered(item)`isActive
    ensures forall c :: c in more ==> fresh(c) && fresh(c.layoutConstraints) && c.from == item
    ensures NoRepeats(more)
    ensures forall c :: c in more ==> Born(c, closure) && Tracks(c, Story([], dir, true))
    ensures Consistent(items, cs + Elements(more))
    ensures ok <==> op.Remove? || Drafts.Runs(item, item.superview, closure)
    ensures AsCompiled(more, if op.Remove? then [] else AskedOf(item, item.superview, closure), dir)
    ensures item.constraintsSet == Switched(op, old(item.constraintsSet), more)
  {
    ok, more := true, [];
    assert cs + Elements([]) == cs;
    match op {
      case Prepare =>
        ok, more := PrepareConstraints(item, closure, dir, items, cs);
        if ok { PreparedAsCompiled(more, item, Requests(item, item.superview, closure), dir); }
      case Make => ok, more := MakeConstraints(item, closure, dir, items, cs);
      case Remake => ok, more := RemakeConstraints(item, closure, dir, items, cs);
      case Remove => RemoveConstraints(item, items, cs);
    }
    if more != [] { CompiledAreNewborn(more, item, closure, dir); }
  }

  method OperateOn(items: seq<Item>, made: seq<Constraint>, i: nat, op: ItemOp, closure: seq<Clause>, dir: Direction)
      returns (ok: bool, more: seq<Constraint>)
    requires Reachable(items, made) && NoRepeats(made) && i < |items| && Getters(closure) && !op.UpdateWith?
    modifies items`constraintsSet, ChildrenOf(made)`isActive
    ensures forall c :: c in more ==> fresh(c) && fresh(c.layoutConstraints) && c.from == items[i]
    ensures NoRepeats(made + more)
    ensures forall c :: c in more ==> Born(c, closure) && Tracks(c, Story([], dir, true))
    ensures Reachable(items, made + more)
    ensures ok <==> op.Remove? || Drafts.Runs(items[i], items[i].superview, closure)
    ensures AsCompiled(more, if op.Remove? then [] else AskedOf(items[i], items[i].superview, closure), dir)
    ensures items[i].constraintsSet == Switched(op, old(items[i].constraintsSet), more)
    ensures forall j :: 0 <= j < |items| && items[j] != items[i] ==>
      items[j].constraintsSet == old(items[j].constraintsSet)
  {
    Reach(items, made);
    ok, more := Operate(items[i], op, closure, dir, ItemSet(items), Elements(made));
    NoRepeatsConcat(made, more);
    ElementsOfConcat(made, more);
  }

  ghost predicate Views(items: seq<Item>, views: seq<object?>)
    reads items`superview
  {
    |views| == |items| && forall i :: 0 <= i < |items| ==> items[i].superview == views[i]
  }

  /** The scene after an operation on an item that updates nothing. */
  lemma MovedItem(s: Scene, items: seq<Item>, views: seq<object?>, made: seq<Constraint>, more: seq<Constraint>, op: Op,
                  ok: bool)
    requires Views(items, views) && op.OnItem? && Legal(op, |items|, |made|) && !op.itemOp.UpdateWith?
    requires s.made == made && NoRepeats(made + more) && s.data.Keys == ChildrenOf(made)
    requires forall c :: c in s.on ==> c.from in items
    requires forall c :: c in more ==> c.from == items[op.item]
    requires ok <==> op.itemOp.Remove? || Drafts.Runs(items[op.item], views[op.item], op.closure)
    requires AsCompiled(more, AskedBy(op, items, views), op.dir)
    requires items[op.item].constraintsSet == Switched(op.itemOp, Of(s.on, items[op.item]), more)
    requires forall j :: 0 <= j < |items| && items[j] != items[op.item] ==>
      items[j].constraintsSet == Of(s.on, items[j])
    requires forall l :: l in s.data ==> l.Data() == s.data[l]
    ensures Moves(s, SceneOf(items, made + more), op, items, views, ok)
  {
    var s' := SceneOf(items, made + more);
    assert s'.made[..|made|] == made && s'.made[|made|..] == more;
    NewbornAmong(more, items[op.item], AskedBy(op, items, views), op.dir, made);
    DataOutside(s.data, made, more, {});
    assert Elements([]) == {};
    JoinedBy(items, s.on, items[op.item], more);
    WholeOf(items, OnAfter(s, op, items, more));
  }

  method MoveItem(items: seq<Item>, made: seq<Constraint>, op: Op, ghost views: seq<object?>)
      returns (ok: bool, more: seq<Constraint>)
    requires Reachable(items, made) && NoRepeats(made) && Views(items, views)
    requires op.OnItem? && Legal(op, |items|, |made|) && !op.itemOp.UpdateWith?
    modifies items`constraintsSet, ChildrenOf(made)`isActive
    ensures forall c :: c in more ==> fresh(c) && fresh(c.layoutConstraints)
    ensures NoRepeats(made + more) && Reachable(items, made + more)
    ensures forall c :: c in more ==> Born(c, op.closure) && Tracks(c, Story([], op.dir, true))
    ensures Moves(old(SceneOf(items, made)), SceneOf(items, made + more), op, items, views, ok)
  {
    ghost var s := SceneOf(items, made);
    PartsOf(items, made);
    ok, more := OperateOn(items, made, op.item, op.itemOp, op.closure, op.dir);
    MovedItem(s, items, views, made, more, op, ok);
  }

  method StepItem(items: seq<Item>, made: seq<Constraint>, op: Op, ghost hs: seq<Story>, ghost views: seq<object?>)
      returns (ok: bool, more: seq<Constraint>)
    requires Reachable(items, made) && NoRepeats(made) && Views(items, views)
    requires op.OnItem? && Legal(op, |items|, |made|) && !op.itemOp.UpdateWith?
    requires |hs| == |made| && forall n :: 0 <= n < |made| ==> Tracks(made[n], hs[n])
    modifies items`constraintsSet, ChildrenOf(made)`isActive
    ensures forall c :: c in more ==> fresh(c) && fresh(c.layoutConstraints)
    ensures NoRepeats(made + more) && Reachable(items, made + more)
    ensures forall c :: c in more ==> Born(c, op.closure) && Tracks(c, Story([], op.dir, true))
    ensures forall n :: 0 <= n < |made| ==> Tracks(made[n], hs[n])
    ensures Moves(old(SceneOf(items, made)), SceneOf(items, made + more), op, items, views, ok)
  {
    ok, more := MoveItem(items, made, op, views);
    forall n | 0 <= n < |made| ensures Tracks(made[n], hs[n]) { assert old(Tracks(made[n], hs[n])); }
  }

  /** What updateConstraints comes to, and what it leaves of the registered data. */
  ghost predicate Settles(item: Item, closure: seq<Clause>, dir: Direction, ok: bool, registered: bool,
                          before: map<LayoutConstraint, LayoutData>, after: map<LayoutConstraint, LayoutData>)
    reads item`superview
  {
    if !Drafts.Runs(item, item.superview, closure) then !ok && after == before
    else if registered
    then UpdateOutcome(ok, before, after, WrittenByAll(Requests(item, item.superview, closure), dir))
    else ok
  }

  /** updateConstraints on an item writes into what is registered with it, and nowhere else. */
  method UpdateItem(items: seq<Item>, made: seq<Constraint>, item: Item, closure: seq<Clause>, dir: Direction)
      returns (ok: bool, more: seq<Constraint>)
    requires Reachable(items, made) && NoRepeats(made) && item in items && Getters(closure)
    modifies item`constraintsSet, Registered(item)`constant
    ensures forall c :: c in more ==> fresh(c) && fresh(c.layoutConstraints) && c.from == item
    ensures NoRepeats(made + more)
    ensures forall c :: c in more ==> Born(c, closure) && Tracks(c, Story([], dir, true))
    ensures Reachable(items, made + more)
    ensures AsCompiled(more, AskedOf(item, item.superview, closure), dir)
    ensures item.constraintsSet
         == if old(item.constraintsSet) == {} then Elements(more) else old(item.constraintsSet)
    ensures Settles(item, closure, dir, ok, old(item.constraintsSet) != {},
                    old(Snapshot(Registered(item))), Snapshot(old(Registered(item))))
  {
    Reach(items, made);
    ok, more := UpdateConstraints(item, closure, dir, ItemSet(items), Elements(made));
    if more != [] { CompiledAreNewborn(more, item, closure, dir); }
    NoRepeatsConcat(made, more);
    ElementsOfConcat(made, more);
  }

  /** What is registered after an updateConstraints. */
  lemma OnUpdated(s: Scene, items: seq<Item>, op: Op, more: seq<Constraint>)
    requires op.OnItem? && Legal(op, |items|, |s.made|) && op.itemOp.UpdateWith?
    requires (forall c :: c in s.on ==> c.from in items) && forall c :: c in more ==> c.from == items[op.item]
    requires items[op.item].constraintsSet
          == if Of(s.on, items[op.item]) == {} then Elements(more) else Of(s.on, items[op.item])
    requires forall j :: 0 <= j < |items| && items[j] != items[op.item] ==>
      items[j].constraintsSet == Of(s.on, items[j])
    ensures AllRegistered(items) == OnAfter(s, op, items, more)
  {
    JoinedBy(items, s.on, items[op.item], more);
    WholeOf(items, OnAfter(s, op, items, more));
  }

  /** The scene after an updateConstraints that found some of the data registered. */
  lemma MovedUpdate(s: Scene, items: seq<Item>, views: seq<object?>, made: seq<Constraint>, more: seq<Constraint>,
                    op: Op, ok: bool, part: set<Constraint>, before: map<LayoutConstraint, LayoutData>)
    requires Views(items, views) && op.OnItem? && Legal(op, |items|, |made|) && op.itemOp.UpdateWith?
    requires s.made == made && NoRepeats(made + more) && s.data.Keys == ChildrenOf(made)
    requires AllRegistered(items) == OnAfter(s, op, items, more) && forall c :: c in more ==> c.from == items[op.item]
    requires AsCompiled(more, AskedBy(op, items, views), op.dir)
    requires part == Of(s.on, items[op.item]) && Owned(part) <= ChildrenOf(made)
    requires before == Restrict(s.data, Owned(part))
    requires Settles(items[op.item], op.closure, op.dir, ok, part != {}, before, Snapshot(Owned(part)))
    requires forall l :: l in s.data && l !in Owned(part) ==> l.Data() == s.data[l]
    ensures Moves(s, SceneOf(items, made + more), op, items, views, ok)
  {
    var s' := SceneOf(items, made + more);
    assert s'.made[..|made|] == made && s'.made[|made|..] == more;
    NewbornAmong(more, items[op.item], AskedBy(op, items, views), op.dir, made);
    RestrictedToSome(Owned(part), ChildrenOf(made), made, more);
    if !Updating(s, op, items, views) { Unwritten(s.data, made, more, Owned(part)); }
    DataOutside(s.data, made, more, Touched(s, op, items, views));
  }

  /** What did not change in part of the data is what it was. */
  lemma Unwritten(m: map<LayoutConstraint, LayoutData>, made: seq<Constraint>, more: seq<Constraint>,
                  ls: set<LayoutConstraint>)
    requires m.Keys == ChildrenOf(made)
    requires ls == {} || Restrict(Snapshot(ChildrenOf(made + more)), ls) == Restrict(m, ls)
    ensures forall l :: l in m && l in ls ==> l.Data() == m[l]
  {
    forall l | l in m && l in ls ensures l.Data() == m[l] {
      var c :| c in made && l in c.Children();
      assert c in made + more;
      assert Restrict(Snapshot(ChildrenOf(made + more)), ls)[l] == Restrict(m, ls)[l];
    }
  }

  /** New constraints of one item join its part and no other. */
  lemma JoinedBy(items: seq<Item>, on: set<Constraint>, item: Item, more: seq<Constraint>)
    requires forall c :: c in more ==> c.from == item
    ensures Of(on + Elements(more), item) == Of(on, item) + Elements(more)
    ensures forall j :: 0 <= j < |items| && items[j] != item ==> Of(on + Elements(more), items[j]) == Of(on, items[j])
  {
  }

  /** An updateConstraints, in terms of the scene before it. */
  method UpdateScene(items: seq<Item>, made: seq<Constraint>, op: Op, item: Item, ghost s: Scene)
      returns (ok: bool, more: seq<Constraint>)
    requires Reachable(items, made) && NoRepeats(made) && s == SceneOf(items, made)
    requires op.OnItem? && Legal(op, |items|, |made|) && op.itemOp.UpdateWith? && item == items[op.item]
    modifies item`constraintsSet, Registered(item)`constant
    ensures forall c :: c in more ==> fresh(c) && fresh(c.layoutConstraints) && c.from == item
    ensures NoRepeats(made + more) && Reachable(items, made + more)
    ensures forall c :: c in more ==> Born(c, op.closure) && Tracks(c, Story([], op.dir, true))
    ensures AllRegistered(items) == OnAfter(s, op, items, more)
    ensures AsCompiled(more, AskedOf(item, item.superview, op.closure), op.dir)
    ensures Settles(item, op.closure, op.dir, ok, old(item.constraintsSet) != {},
                    old(Snapshot(Registered(item))), Snapshot(old(Registered(item))))
    ensures forall l :: l in s.data && l !in old(Registered(item)) ==> l.Data() == s.data[l]
  {
    PartsOf(items, made);
    ok, more := UpdateItem(items, made, item, op.closure, op.dir);
    OnUpdated(s, items, op, more);
  }

  method MoveUpdate(items: seq<Item>, made: seq<Constraint>, op: Op, item: Item, ghost views: seq<object?>)
      returns (ok: bool, more: seq<Constraint>)
    requires Reachable(items, made) && NoRepeats(made) && Views(items, views)
    requires op.OnItem? && Legal(op, |items|, |made|) && op.itemOp.UpdateWith? && item == items[op.item]
    modifies item`constraintsSet, Registered(item)`constant
    ensures forall c :: c in more ==> fresh(c) && fresh(c.layoutConstraints)
    ensures NoRepeats(made + more) && Reachable(items, made + more)
    ensures forall c :: c in more ==> Born(c, op.closure) && Tracks(c, Story([], op.dir, true))
    ensures Moves(old(SceneOf(items, made)), SceneOf(items, made + more), op, items, views, ok)
  {
    ghost var s, part, before := SceneOf(items, made), item.constraintsSet, Snapshot(Registered(item));
    PartsOf(items, made);
    RestrictedToItem(items, made, op.item);
    ok, more := UpdateScene(items, made, op, item, s);
    MovedUpdate(s, items, views, made, more, op, ok, part, before);
  }

  /** The stories of its own constraints are no longer current, the others go on. */
  method StepUpdate(items: seq<Item>, made: seq<Constraint>, op: Op, item: Item, ghost hs: seq<Story>,
                    ghost views: seq<object?>)
      returns (ok: bool, more: seq<Constraint>)
    requires Reachable(items, made) && NoRepeats(made) && Views(items, views)
    requires op.OnItem? && Legal(op, |items|, |made|) && op.itemOp.UpdateWith? && item == items[op.item]
    requires |hs| == |made| && forall n :: 0 <= n < |made| ==> Tracks(made[n], hs[n])
    modifies item`constraintsSet, Registered(item)`constant
    ensures forall c :: c in more ==> fresh(c) && fresh(c.layoutConstraints)
    ensures NoRepeats(made + more) && Reachable(items, made + more)
    ensures forall c :: c in more ==> Born(c, op.closure) && Tracks(c, Story([], op.dir, true))
    ensures forall n :: 0 <= n < |made| ==>
      Tracks(made[n], if made[n].from == item then hs[n].(current := false) else hs[n])
    ensures Moves(old(SceneOf(items, made)), SceneOf(items, made + more), op, items, views, ok)
  {
    forall n | 0 <= n < |made| && made[n].from != item ensures made[n].Children() !! Registered(item) {
      ForeignChildren(items, made, made[n], item);
    }
    label Updating:
    ok, more := MoveUpdate(items, made, op, item, views);
    forall n | 0 <= n < |made|
      ensures Tracks(made[n], if made[n].from == item then hs[n].(current := false) else hs[n])
    {
      assert made[n] in made && old@Updating(Tracks(made[n], hs[n]));
      assert Follows(made[n], hs[n].us);
      if made[n].from != item && hs[n].current {
        assert old@Updating(UpToDate(made[n], hs[n].us, hs[n].dir));
        assert UpToDate(made[n], hs[n].us, hs[n].dir);
      }
    }
  }

  /** Some of the children, seen in the data of all, with new ones among them. */
  lemma RestrictedToSome(ls: set<LayoutConstraint>, all: set<LayoutConstraint>, made: seq<Constraint>,
                         more: seq<Constraint>)
    requires ls <= all == ChildrenOf(made)
    ensures Restrict(Snapshot(ChildrenOf(made + more)), ls) == Snapshot(ls)
  {
    forall l | l in ls ensures l in ChildrenOf(made + more) {
      var c :| c in made && l in c.Children();
      assert c in made + more;
    }
  }

  /** A constraint of another item has no child registered with this one. */
  lemma ForeignChildren(items: seq<Item>, made: seq<Constraint>, c: Constraint, item: Item)
    requires Reachable(items, made) && c in made && item in items && c.from != item
    ensures c.Children() !! Registered(item)
  {
    assert c in Elements(made) && item in ItemSet(items);
    assert InStep(c);
    forall d | d in item.constraintsSet ensures d.OwnsChildren() && d != c { assert InStep(d); }
  }

  /** Activation, in its three forms. */
  method Switch(items: seq<Item>, made: seq<Constraint>, c: Constraint, op: ConstraintOp)
    requires Reachable(items, made) && c in made && !op.Change?
    modifies items`constraintsSet, ChildrenOf(made)`isActive
    ensures Reachable(items, made)
    ensures c.from.constraintsSet == if op.Activate? || (op.SetIsActive? && op.newValue)
                                     then old(c.from.constraintsSet) + {c} else old(c.from.constraintsSet) - {c}
    ensures forall j :: 0 <= j < |items| && items[j] != c.from ==>
      items[j].constraintsSet == old(items[j].constraintsSet)
  {
    ghost var its, cs := ItemSet(items), Elements(made);
    Reach(items, made);
    match op {
      case Activate => Registry.Activate(c, its, cs);
      case Deactivate => Registry.Deactivate(c, its, cs);
      case SetIsActive(newValue) => Registry.SetIsActive(c, newValue, its, cs);
    }
  }

  /** The scene after an activation or deactivation. */
  lemma MovedActivation(s: Scene, items: seq<Item>, views: seq<object?>, made: seq<Constraint>, op: Op, c: Constraint)
    requires |views| == |items| && op.OnConstraint? && Legal(op, |items|, |made|) && !op.constraintOp.Change?
    requires s.made == made && NoRepeats(made) && s.data.Keys == ChildrenOf(made) && c == made[op.constraint]
    requires forall d :: d in s.on || d == c ==> d.from in items
    requires var on := op.constraintOp.Activate? || (op.constraintOp.SetIsActive? && op.constraintOp.newValue);
             c.from.constraintsSet == if on then Of(s.on, c.from) + {c} else Of(s.on, c.from) - {c}
    requires forall j :: 0 <= j < |items| && items[j] != c.from ==> items[j].constraintsSet == Of(s.on, items[j])
    requires forall l :: l in s.data ==> l.Data() == s.data[l]
    ensures Moves(s, SceneOf(items, made), op, items, views, true)
  {
    assert made[..|made|] == made && made[|made|..] == [] && made + [] == made;
    DataOutside(s.data, made, [], {});
    WholeOf(items, OnAfter(s, op, items, []));
  }

  method MoveActivation(items: seq<Item>, made: seq<Constraint>, op: Op, ghost views: seq<object?>)
    requires Reachable(items, made) && NoRepeats(made) && |views| == |items|
    requires op.OnConstraint? && Legal(op, |items|, |made|) && !op.constraintOp.Change?
    modifies items`constraintsSet, ChildrenOf(made)`isActive
    ensures Reachable(items, made)
    ensures Moves(old(SceneOf(items, made)), SceneOf(items, made), op, items, views, true)
  {
    ghost var s := SceneOf(items, made);
    PartsOf(items, made);
    Reach(items, made);
    Switch(items, made, made[op.constraint], op.constraintOp);
    MovedActivation(s, items, views, made, op, made[op.constraint]);
  }

  method StepActivation(items: seq<Item>, made: seq<Constraint>, op: Op, ghost hs: seq<Story>,
                        ghost views: seq<object?>)
    requires Reachable(items, made) && NoRepeats(made) && |views| == |items|
    requires op.OnConstraint? && Legal(op, |items|, |made|) && !op.constraintOp.Change?
    requires |hs| == |made| && forall n :: 0 <= n < |made| ==> Tracks(made[n], hs[n])
    modifies items`constraintsSet, ChildrenOf(made)`isActive
    ensures Reachable(items, made)
    ensures forall n :: 0 <= n < |made| ==> Tracks(made[n], hs[n])
    ensures Moves(old(SceneOf(items, made)), SceneOf(items, made), op, items, views, true)
  {
    MoveActivation(items, made, op, views);
    forall n | 0 <= n < |made| ensures Tracks(made[n], hs[n]) { assert old(Tracks(made[n], hs[n])); }
  }

  /** Other constraints have children of their own. */
  lemma ChildrenApart(c: Constraint, d: Constraint)
    requires c.OwnsChildren() && d.OwnsChildren() && c != d
    ensures forall i :: 0 <= i < |d.layoutConstraints| ==> d.layoutConstraints[i] !in c.layoutConstraints
  {
    forall i | 0 <= i < |d.layoutConstraints| ensures d.layoutConstraints[i] !in c.layoutConstraints {
      assert d.layoutConstraints[i] in d.layoutConstraints;
    }
  }

  /** An own update: no registry and no active flag changes. */
  method ChangeOne(items: seq<Item>, made: seq<Constraint>, c: Constraint, u: U.Update, dir: Direction, ghost h: Story)
    requires Reachable(items, made) && c in made && Tracks(c, h)
    modifies c`constant, c`priority, c.layoutConstraints`constant, c.layoutConstraints`priority
    ensures Reachable(items, made) && Tracks(c, Story(h.us + [u], dir, true))
  {
    Continue(c, u, dir, h);
    forall d | d in Elements(made) ensures InStep(d) { assert old(InStep(d)); }
    forall d | d in made ensures d.Valid() { assert old(d.Valid()); }
  }

  /** An own update continues this constraint's story and leaves the others as they are. */
  method ContinueAmong(items: seq<Item>, made: seq<Constraint>, c: Constraint, ghost k: nat, u: U.Update,
                       dir: Direction, ghost hs: seq<Story>)
    requires Reachable(items, made) && k < |made| && c == made[k] && NoRepeats(made)
    requires |hs| == |made| && forall n :: 0 <= n < |made| ==> Tracks(made[n], hs[n])
    modifies c`constant, c`priority, c.layoutConstraints`constant, c.layoutConstraints`priority
    ensures Reachable(items, made)
    ensures forall n :: 0 <= n < |made| ==>
      Tracks(made[n], if n == k then Story(hs[k].us + [u], dir, true) else hs[n])
  {
    forall n | 0 <= n < |made| && n != k
      ensures made[n] != c
      ensures forall i :: 0 <= i < |made[n].layoutConstraints| ==> made[n].layoutConstraints[i] !in c.layoutConstraints
    {
      ChildrenApart(c, made[n]);
    }
    ChangeOne(items, made, c, u, dir, hs[k]);
    forall n | 0 <= n < |made| && n != k ensures Tracks(made[n], hs[n]) {
      assert old(Tracks(made[n], hs[n]));
      assert Follows(made[n], hs[n].us);
      if hs[n].current {
        assert old(UpToDate(made[n], hs[n].us, hs[n].dir));
        assert UpToDate(made[n], hs[n].us, hs[n].dir);
      }
    }
  }

  /** The scene after an own update. */
  lemma MovedChange(s: Scene, items: seq<Item>, views: seq<object?>, made: seq<Constraint>, op: Op)
    requires |views| == |items| && op.OnConstraint? && Legal(op, |items|, |made|) && op.constraintOp.Change?
    requires s.made == made && NoRepeats(made) && s.data.Keys == ChildrenOf(made) && s.on == AllRegistered(items)
    requires forall l :: l in s.data && l !in made[op.constraint].Children() ==> l.Data() == s.data[l]
    ensures Moves(s, SceneOf(items, made), op, items, views, true)
  {
    assert made[..|made|] == made && made[|made|..] == [] && made + [] == made;
    DataOutside(s.data, made, [], made[op.constraint].Children());
  }

  method StepChange(items: seq<Item>, made: seq<Constraint>, op: Op, ghost hs: seq<Story>, ghost views: seq<object?>)
    requires Reachable(items, made) && NoRepeats(made) && |views| == |items|
    requires op.OnConstraint? && Legal(op, |items|, |made|) && op.constraintOp.Change?
    requires |hs| == |made| && forall n :: 0 <= n < |made| ==> Tracks(made[n], hs[n])
    modifies made`constant, made`priority, ChildrenOf(made)`constant, ChildrenOf(made)`priority
    ensures Reachable(items, made)
    ensures forall n :: 0 <= n < |made| ==>
      Tracks(made[n], if n == op.constraint then Story(hs[n].us + [op.constraintOp.update], op.dir, true) else hs[n])
    ensures Moves(old(SceneOf(items, made)), SceneOf(items, made), op, items, views, true)
  {
    ghost var s := SceneOf(items, made);
    Reach(items, made);
    ContinueAmong(items, made, made[op.constraint], op.constraint, op.constraintOp.update, op.dir, hs);
    MovedChange(s, items, views, made, op);
  }

  /** The stories after one more operation. */
  ghost function Continued(hs: seq<Story>, made: seq<Constraint>, op: Op, items: seq<Item>): (r: seq<Story>)
    requires |hs| == |made|
    ensures |r| == |hs|
    ensures forall n :: 0 <= n < |hs| ==> r[n] == Next(hs[n], op, n, Hits(op, items, made[n].from))
  {
    seq(|hs|, n requires 0 <= n < |hs| => Next(hs[n], op, n, Hits(op, items, made[n].from)))
  }

  /** The scene after an operation that is not legal. */
  lemma StaysPut(items: seq<Item>, views: seq<object?>, made: seq<Constraint>, op: Op)
    requires |views| == |items| && NoRepeats(made) && !Legal(op, |items|, |made|)
    ensures Moves(SceneOf(items, made), SceneOf(items, made), op, items, views, true)
  {
    assert made[..|made|] == made && made[|made|..] == [];
  }

  /** One operation; one that is not legal does nothing. */
  method Step(items: seq<Item>, made: seq<Constraint>, op: Op, ghost hs: seq<Story>, ghost views: seq<object?>)
      returns (ok: bool, more: seq<Constraint>)
    requires Reachable(items, made) && NoRepeats(made) && Views(items, views)
    requires |hs| == |made| && forall n :: 0 <= n < |made| ==> Tracks(made[n], hs[n])
    modifies items`constraintsSet, made`constant, made`priority
    modifies ChildrenOf(made)`isActive, ChildrenOf(made)`constant, ChildrenOf(made)`priority
    ensures Reachable(items, made + more) && NoRepeats(made + more)
    ensures forall c :: c in more ==> fresh(c) && fresh(c.layoutConstraints)
    ensures more != [] ==> op.OnItem?
    ensures forall c :: c in more ==> Born(c, op.closure) && Tracks(c, Story([], op.dir, true))
    ensures forall n :: 0 <= n < |made| ==> Tracks(made[n], Continued(hs, made, op, items)[n])
    ensures Moves(old(SceneOf(items, made)), SceneOf(items, made + more), op, items, views, ok)
  {
    ok, more := true, [];
    assert made + [] == made;
    if Legal(op, |items|, |made|) {
      match op {
        case OnItem(_, itemOp, _, _) =>
          if itemOp.UpdateWith? {
            Reach(items, made);
            ok, more := StepUpdate(items, made, op, items[op.item], hs, views);
          } else {
            ok, more := StepItem(items, made, op, hs, views);
          }
        case OnConstraint(_, constraintOp, _) =>
          if constraintOp.Change? {
            StepChange(items, made, op, hs, views);
          } else {
            StepActivation(items, made, op, hs, views);
          }
      }
    } else {
      StaysPut(items, views, made, op);
    }
  }

  /** Each constraint's birth, the operation that made it, and its story since. */
  ghost predicate Chronicle(made: seq<Constraint>, births: seq<nat>, hs: seq<Story>, ops: seq<Op>, done: nat,
                            items: seq<Item>)
  {
    && |made| == |births| == |hs| && done <= |ops|
    && forall n :: 0 <= n < |made| ==>
         && births[n] < done && ops[births[n]].OnItem?
         && hs[n] == StoryOf(ops[births[n] + 1..done], n, items, made[n].from, ops[births[n]].dir)
  }

  lemma ChronicleStep(made: seq<Constraint>, more: seq<Constraint>, births: seq<nat>, hs: seq<Story>, ops: seq<Op>,
                      done: nat, items: seq<Item>)
    requires Chronicle(made, births, hs, ops, done, items) && done < |ops|
    requires more != [] ==> ops[done].OnItem?
    ensures Chronicle(made + more, births + seq(|more|, _ => done),
                      Continued(hs, made, ops[done], items) + seq(|more|, _ => Story([], ops[done].dir, true)),
                      ops, done + 1, items)
  {
    forall n | 0 <= n < |made|
      ensures Continued(hs, made, ops[done], items)[n]
           == StoryOf(ops[births[n] + 1..done + 1], n, items, made[n].from, ops[births[n]].dir)
    {
      var since := ops[births[n] + 1..done + 1];
      assert since[..|since| - 1] == ops[births[n] + 1..done] && since[|since| - 1] == ops[done];
    }
    assert ops[done + 1..done + 1] == [];
  }

  /** Old and new constraints together, with the births and stories of both. */
  lemma TogetherTracked(made: seq<Constraint>, more: seq<Constraint>, births: seq<nat>, hs: seq<Story>, ops: seq<Op>,
                        done: nat, dir: Direction)
    requires |made| == |births| == |hs| && done < |ops| && (more != [] ==> ops[done].OnItem?)
    requires forall n :: 0 <= n < |made| ==> births[n] < |ops| && ops[births[n]].OnItem?
    requires forall n :: 0 <= n < |made| ==> Born(made[n], ops[births[n]].closure) && Tracks(made[n], hs[n])
    requires forall c :: c in more ==> Born(c, ops[done].closure) && Tracks(c, Story([], dir, true))
    ensures var made', births', hs' := made + more, births + seq(|more|, _ => done),
                                       hs + seq(|more|, _ => Story([], dir, true));
            forall n :: 0 <= n < |made'| ==>
              && births'[n] < |ops| && ops[births'[n]].OnItem?
              && Born(made'[n], ops[births'[n]].closure) && Tracks(made'[n], hs'[n])
  {
    forall n | |made| <= n < |made + more| ensures (made + more)[n] in more {
      assert (made + more)[n] == more[n - |made|];
    }
  }

  /** The state after some operations: consistent registries, and every constraint as its own history tells. */
  ghost predicate Recorded(items: seq<Item>, made: seq<Constraint>, births: seq<nat>, hs: seq<Story>, ops: seq<Op>,
                           done: nat)
    reads *
  {
    && Reachable(items, made) && NoRepeats(made) && Chronicle(made, births, hs, ops, done, items)
    && forall n :: 0 <= n < |made| ==> Born(made[n], ops[births[n]].closure) && Tracks(made[n], hs[n])
  }

  /** Every constraint is born where the trace first shows it. */
  ghost predicate Births(trace: seq<Scene>, births: seq<nat>) {
    forall n :: 0 <= n < |births| ==>
      births[n] < |trace| - 1 && |trace[births[n]].made| <= n < |trace[births[n] + 1].made|
  }

  /** The scenes so far, the last of them the present one. */
  ghost predicate Filmed(items: seq<Item>, made: seq<Constraint>, births: seq<nat>, ops: seq<Op>, trace: seq<Scene>,
                         views: seq<object?>, ok: bool)
    reads *
  {
    && Views(items, views) && Trace(trace, ops, items, views, ok) && Births(trace, births) && |births| == |made|
    && trace[|trace| - 1] == SceneOf(items, made)
  }

  lemma FilmMore(items: seq<Item>, made: seq<Constraint>, more: seq<Constraint>, births: seq<nat>, ops: seq<Op>,
                 trace: seq<Scene>, views: seq<object?>, ok: bool)
    requires Views(items, views) && Trace(trace, ops, items, views, true) && Births(trace, births)
    requires |trace| <= |ops| && |births| == |made| && trace[|trace| - 1].made == made
    requires Moves(trace[|trace| - 1], SceneOf(items, made + more), ops[|trace| - 1], items, views, ok)
    ensures Filmed(items, made + more, births + seq(|more|, _ => |trace| - 1), ops,
                   trace + [SceneOf(items, made + more)], views, ok)
  {
    TraceMore(trace, SceneOf(items, made + more), ops, items, views, ok);
  }

  /** One more operation of a run. */
  method Advance(items: seq<Item>, made: seq<Constraint>, ops: seq<Op>, next: nat, ghost births: seq<nat>,
                 ghost hs: seq<Story>, ghost trace: seq<Scene>, ghost views: seq<object?>)
      returns (ok: bool, more: seq<Constraint>, ghost births': seq<nat>, ghost hs': seq<Story>,
               ghost trace': seq<Scene>)
    requires next < |ops| && Recorded(items, made, births, hs, ops, next) && |trace| == next + 1
    requires Filmed(items, made, births, ops, trace, views, true)
    modifies items`constraintsSet, made`constant, made`priority
    modifies ChildrenOf(made)`isActive, ChildrenOf(made)`constant, ChildrenOf(made)`priority
    ensures forall c :: c in more ==> fresh(c) && fresh(c.layoutConstraints)
    ensures Recorded(items, made + more, births', hs', ops, next + 1) && |trace'| == next + 2
    ensures Filmed(items, made + more, births', ops, trace', views, ok)
  {
    var op := ops[next];
    ok, more := Step(items, made, op, hs, views);
    ChronicleStep(made, more, births, hs, ops, next, items);
    TogetherTracked(made, more, births, Continued(hs, made, op, items), ops, next, op.dir);
    FilmMore(items, made, more, births, ops, trace, views, ok);
    births' := births + seq(|more|, _ => next);
    hs' := Continued(hs, made, op, items) + seq(|more|, _ => Story([], op.dir, true));
    trace' := trace + [SceneOf(items, made + more)];
  }

  /** The n-th constraint is registered exactly if the last operation that switches it, or its birth, turned it on. */
  ghost predicate SwitchedOn(items: seq<Item>, made: seq<Constraint>, births: seq<nat>, ops: seq<Op>,
                             trace: seq<Scene>, n: nat)
    requires n < |births| == |made| && births[n] + 1 < |trace| <= |ops| + 1
    reads made[n].from`constraintsSet
  {
    made[n] in made[n].from.constraintsSet
    <==> On(ops[births[n] + 1..|trace| - 1], n, made[n].from, items, BornOn(ops[births[n]], trace[births[n]], items))
  }

  /** Registered, all children active and any child active are the same, and registries hold their own constraints. */
  ghost predicate RegistriesAgree(items: seq<Item>, made: seq<Constraint>)
    reads *
  {
    && Reachable(items, made)
    && (forall c :: c in made ==>
          && (c in c.from.constraintsSet <==> forall l :: l in c.layoutConstraints ==> l.isActive)
          && (c in c.from.constraintsSet <==> exists l :: l in c.layoutConstraints && l.isActive))
    && forall i, c :: 0 <= i < |items| && c in items[i].constraintsSet ==> c in made && c.from == items[i]
  }

  /** Every constraint is what the operations since its birth tell. */
  ghost predicate Histories(items: seq<Item>, made: seq<Constraint>, births: seq<nat>, hs: seq<Story>, ops: seq<Op>,
                            done: nat)
    reads *
  {
    && Chronicle(made, births, hs, ops, done, items)
    && forall n :: 0 <= n < |made| ==>
         && Born(made[n], ops[births[n]].closure)
         && Tracks(made[n], hs[n])
         && (Moderate(hs[n].us) ==> Tells(made[n], hs[n]))
         && (hs[n].current ==> Decided(made[n], hs[n].us, hs[n].dir))
         && Stands(made[n], ops[births[n] + 1..done], n, items)
  }

  /**
   * Any run from items without constraints, up to its end or to the operation that stops the program. The scenes go
   * from one to the next as the operations say. Every constraint ever made is registered exactly if the last operation
   * since its birth that switches it turned it on; it is then in its own item's set iff all of its layout constraints
   * are active iff any of them is, and no item's set holds a constraint of another item. Every constraint is what its
   * own history tells: made of one of the requests of the closure it was born from, its children follow its own
   * updates since, whatever else has happened, and their constants do too unless an updateConstraints on its item has
   * come after the last of them.
   */
  method Run(items: seq<Item>, ops: seq<Op>)
      returns (made: seq<Constraint>, ok: bool, ghost births: seq<nat>, ghost hs: seq<Story>, ghost trace: seq<Scene>,
               ghost views: seq<object?>)
    requires forall i :: 0 <= i < |items| ==> items[i].constraintsSet == {}
    modifies items`constraintsSet
    ensures Filmed(items, made, births, ops, trace, views, ok)
    ensures if ok then |trace| == |ops| + 1 else |trace| > 1
    ensures forall n :: 0 <= n < |made| ==> SwitchedOn(items, made, births, ops, trace, n)
    ensures RegistriesAgree(items, made)
    ensures Histories(items, made, births, hs, ops, |trace| - 1)
  {
    made, births, hs, ok := [], [], [], true;
    views := seq(|items|, i requires 0 <= i < |items| reads items => items[i].superview);
    trace := [SceneOf(items, made)];
    EmptyScene(items);
    var next := 0;
    while next < |ops| && ok
      invariant next <= |ops| && |trace| == next + 1 && (!ok ==> next > 0)
      invariant Recorded(items, made, births, hs, ops, next)
      invariant Filmed(items, made, births, ops, trace, views, ok)
      invariant forall c :: c in made ==> fresh(c) && fresh(c.layoutConstraints)
      decreases |ops| - next
    {
      forall l | l in ChildrenOf(made) ensures fresh(l) {
        var c :| c in made && l in c.Children();
        assert l in c.layoutConstraints;
      }
      var more;
      ok, more, births, hs, trace := Advance(items, made, ops, next, births, hs, trace, views);
      made, next := made + more, next + 1;
    }
    EndOfRun(items, made);
    StoriesEnd(items, made, births, hs, ops, |trace| - 1);
    SwitchesEnd(items, made, births, ops, trace, views, ok);
  }

  lemma EmptyScene(items: seq<Item>)
    requires forall i :: 0 <= i < |items| ==> items[i].constraintsSet == {}
    ensures SceneOf(items, []) == Scene([], {}, map[])
  {
  }

  lemma StoriesEnd(items: seq<Item>, made: seq<Constraint>, births: seq<nat>, hs: seq<Story>, ops: seq<Op>, done: nat)
    requires Recorded(items, made, births, hs, ops, done)
    ensures Histories(items, made, births, hs, ops, done)
  {
    forall n | 0 <= n < |made|
      ensures Moderate(hs[n].us) ==> Tells(made[n], hs[n])
      ensures hs[n].current ==> Decided(made[n], hs[n].us, hs[n].dir)
      ensures Stands(made[n], ops[births[n] + 1..done], n, items)
    {
      if Moderate(hs[n].us) { TracksTells(made[n], hs[n]); }
      if hs[n].current { TracksDecided(made[n], hs[n]); }
      StoryStands(made[n], ops[births[n] + 1..done], n, items, ops[births[n]].dir);
    }
  }

  lemma SwitchesEnd(items: seq<Item>, made: seq<Constraint>, births: seq<nat>, ops: seq<Op>, trace: seq<Scene>,
                    views: seq<object?>, ok: bool)
    requires Reachable(items, made) && Filmed(items, made, births, ops, trace, views, ok)
    ensures forall n :: 0 <= n < |made| ==> SwitchedOn(items, made, births, ops, trace, n)
  {
    var t := |trace| - 1;
    forall n | 0 <= n < |made| ensures SwitchedOn(items, made, births, ops, trace, n) {
      var b := births[n];
      LastSwitchDecides(trace, ops, items, views, ok, n, b, t);
      SwitchedNow(items, made, n, ops[b + 1..t], BornOn(ops[b], trace[b], items));
    }
  }

  lemma SwitchedNow(items: seq<Item>, made: seq<Constraint>, n: nat, since: seq<Op>, born: bool)
    requires Reachable(items, made) && n < |made| && SwitchTold(SceneOf(items, made), since, n, items, born)
    ensures made[n] in made[n].from.constraintsSet <==> On(since, n, made[n].from, items, born)
  {
    RegisteredWithItsOwn(items, made, made[n]);
  }

  /** The constant that the k-th operation, the last one to set it, has given to the constraint and its children. */
  ghost predicate ConstantStands(c: Constraint, since: seq<Op>, items: seq<Item>, k: nat)
    requires k < |since| && since[k].OnConstraint? && since[k].constraintOp.Change?
    reads c`constant, c.layoutConstraints`constant
  {
    match since[k].constraintOp.update
    case ToInset(inset) => HasSides(c.constant, inset)
    case ToOffset(amount) =>
      && c.constant == Scalar(amount)
      && ((forall m :: k < m < |since| ==> !Hits(since[m], items, c.from)) ==>
            forall l :: l in c.layoutConstraints ==> l.constant == amount)
    case ToPriority(_) => true
  }

  /** What an operation has set stands as long as no later one sets it again. */
  ghost predicate Stands(c: Constraint, since: seq<Op>, n: nat, items: seq<Item>)
    reads c`constant, c`priority, c.layoutConstraints`constant
  {
    && (forall k: nat :: LastConstant(since, n, k) ==> ConstantStands(c, since, items, k))
    && (forall k: nat :: LastPriority(since, n, k) ==> c.priority == since[k].constraintOp.update.priority)
  }

  lemma StoryStands(c: Constraint, since: seq<Op>, n: nat, items: seq<Item>, dir: Direction)
    requires Tracks(c, StoryOf(since, n, items, c.from, dir))
    ensures Stands(c, since, n, items)
  {
    var h := StoryOf(since, n, items, c.from, dir);
    U.ConstantFollowsLast(c.request.constant, h.us);
    U.PriorityFollowsLast(c.request.priority, h.us);
    if h.current { TracksDecided(c, h); }
    forall k: nat | LastConstant(since, n, k) ensures ConstantStands(c, since, items, k) {
      var j := LastConstantTold(since, n, items, c.from, dir, k);
    }
    forall k: nat | LastPriority(since, n, k) ensures c.priority == since[k].constraintOp.update.priority {
      var j := LastPriorityTold(since, n, items, c.from, dir, k);
    }
  }

  lemma RegisteredWithItsOwn(items: seq<Item>, made: seq<Constraint>, c: Constraint)
    requires Reachable(items, made) && c in made
    ensures c in AllRegistered(items) <==> c in c.from.constraintsSet
  {
    PartsOf(items, made);
    Reach(items, made);
    var i :| 0 <= i < |items| && items[i] == c.from;
    assert c in items[i].constraintsSet ==> c in AllRegistered(items);
  }

  /** What the consistent registries say about each constraint and each set. */
  lemma EndOfRun(items: seq<Item>, made: seq<Constraint>)
    requires Reachable(items, made)
    ensures RegistriesAgree(items, made)
  {
    forall c | c in made
      ensures (c in c.from.constraintsSet <==> forall l :: l in c.layoutConstraints ==> l.isActive)
      ensures (c in c.from.constraintsSet <==> exists l :: l in c.layoutConstraints && l.isActive)
    {
      ActiveIffRegistered(ItemSet(items), Elements(made), c);
    }
    forall i, c | 0 <= i < |items| && c in items[i].constraintsSet ensures c in made && c.from == items[i] {
      assert items[i] in ItemSet(items);
      assert c in Elements(made);
    }
  }
}
