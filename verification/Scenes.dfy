/** What a program sees of its constraints, and what each operation makes of that: a transition system over scenes. */
module Scenes {
  import opened Compiler
  import opened ConstantTargets
  import opened Drafts
  import opened Layout
  import opened Matching
  import opened Registry
  import U = Updates

  /** An operation on the i-th item. */
  datatype ItemOp = Prepare | Make | Remake | UpdateWith | Remove

  /** An operation on the n-th constraint made so far. */
  datatype ConstraintOp = Activate | Deactivate | SetIsActive(newValue: bool) | Change(update: U.Update)

  datatype Op =
    | OnItem(item: nat, itemOp: ItemOp, closure: seq<Clause>, dir: Direction)
    | OnConstraint(constraint: nat, constraintOp: ConstraintOp, dir: Direction)

  /** Operations name existing objects, and closures start their clauses with the maker's getters. */
  predicate Legal(op: Op, items: nat, made: nat) {
    match op
    case OnItem(i, _, closure, _) => i < items && Getters(closure)
    case OnConstraint(n, _, _) => n < made
  }

  ghost function ItemSet(items: seq<Item>): set<Item> {
    set i | i in items
  }

  /** The reachable states: the registries are consistent for the constraints made so far. */
  ghost predicate Reachable(items: seq<Item>, made: seq<Constraint>)
    reads items`constraintsSet, ChildrenOf(made)`constraint, ChildrenOf(made)`isActive
  {
    && Consistent(ItemSet(items), Elements(made))
    && forall c :: c in made ==> c.Valid()
  }

  lemma ElementsOfConcat(made: seq<Constraint>, more: seq<Constraint>)
    ensures Elements(made + more) == Elements(made) + Elements(more)
  {
  }

  /** All that an operation may touch lies in the items and the constraints made so far. */
  lemma Reach(items: seq<Item>, made: seq<Constraint>)
    requires Reachable(items, made)
    ensures forall i :: 0 <= i < |items| ==> Registered(items[i]) <= ChildrenOf(made)
    ensures forall c :: c in made ==> c.from in items && forall l :: l in c.layoutConstraints ==> l in ChildrenOf(made)
  {
    forall i, l | 0 <= i < |items| && l in Registered(items[i]) ensures l in ChildrenOf(made) {
      var c :| c in items[i].constraintsSet && l in c.layoutConstraints;
      assert items[i] in ItemSet(items) && c in Elements(made) && l in c.Children();
    }
    forall c, l | c in made && l in c.layoutConstraints ensures l in ChildrenOf(made) {
      assert l in c.Children();
    }
    forall c | c in made ensures c.from in items {
      assert c in Elements(made);
    }
  }

  // ---------- Scenes ----------

  /** The constraints made so far, the registered ones among them, and the present data of all their children. */
  datatype Scene = Scene(made: seq<Constraint>, on: set<Constraint>, data: map<LayoutConstraint, LayoutData>)

  /** The constraints of one item. */
  ghost function Of(cs: set<Constraint>, item: Item): set<Constraint> {
    set c | c in cs && c.from == item
  }

  ghost function AllRegistered(items: seq<Item>): set<Constraint>
    reads items`constraintsSet
  {
    set i, c | 0 <= i < |items| && c in items[i].constraintsSet :: c
  }

  ghost function SceneOf(items: seq<Item>, made: seq<Constraint>): Scene
    reads items`constraintsSet, ChildrenOf(made)
  {
    Scene(made, AllRegistered(items), Snapshot(ChildrenOf(made)))
  }

  // ---------- What one operation makes of a scene ----------

  /** The operation runs a closure on an item. */
  predicate RunsClosure(op: Op, items: seq<Item>) {
    op.OnItem? && op.item < |items| && Getters(op.closure) && !op.itemOp.Remove?
  }

  /** The requests of a closure on an item; none if it stops the program. */
  ghost function AskedOf(item: Item, view: object?, closure: seq<Clause>): seq<Request> {
    if Drafts.Runs(item, view, closure) then Requests(item, view, closure) else []
  }

  /** The requests an operation asks for. */
  ghost function AskedBy(op: Op, items: seq<Item>, views: seq<object?>): seq<Request>
    requires |views| == |items|
  {
    if RunsClosure(op, items) then AskedOf(items[op.item], views[op.item], op.closure) else []
  }

  /** It updates the registered constraints of an item instead of making new ones for use. */
  ghost predicate Updating(s: Scene, op: Op, items: seq<Item>, views: seq<object?>)
    requires |views| == |items|
  {
    && RunsClosure(op, items) && op.itemOp.UpdateWith? && Of(s.on, items[op.item]) != {}
    && Drafts.Runs(items[op.item], views[op.item], op.closure)
  }

  /** One new constraint for each request, in order, each as it compiles. */
  ghost predicate Newborn(c: Constraint, item: Item, r: Request, dir: Direction,
                          data: map<LayoutConstraint, LayoutData>) {
    && c.from == item && c.request == r
    && |c.layoutConstraints| == |Compile(r, dir)|
    && forall i :: 0 <= i < |c.layoutConstraints| ==>
         c.layoutConstraints[i] in data && data[c.layoutConstraints[i]] == Compile(r, dir)[i]
  }

  ghost predicate MakesAsAsked(s': Scene, more: seq<Constraint>, op: Op, items: seq<Item>, views: seq<object?>)
    requires |views| == |items|
  {
    && |more| == |AskedBy(op, items, views)|
    && forall n :: 0 <= n < |more| ==>
         RunsClosure(op, items) && Newborn(more[n], items[op.item], AskedBy(op, items, views)[n], op.dir, s'.data)
  }

  /** Which constraints are registered afterwards. */
  ghost function OnAfter(s: Scene, op: Op, items: seq<Item>, more: seq<Constraint>): set<Constraint> {
    if !Legal(op, |items|, |s.made|) then s.on
    else
      match op
      case OnItem(i, Prepare, _, _) => s.on
      case OnItem(i, Make, _, _) => s.on + Elements(more)
      case OnItem(i, Remake, _, _) => s.on - Of(s.on, items[i]) + Elements(more)
      case OnItem(i, UpdateWith, _, _) => if Of(s.on, items[i]) == {} then s.on + Elements(more) else s.on
      case OnItem(i, Remove, _, _) => s.on - Of(s.on, items[i])
      case OnConstraint(k, Activate, _) => s.on + {s.made[k]}
      case OnConstraint(k, Deactivate, _) => s.on - {s.made[k]}
      case OnConstraint(k, SetIsActive(newValue), _) => if newValue then s.on + {s.made[k]} else s.on - {s.made[k]}
      case OnConstraint(_, Change(_), _) => s.on
  }

  ghost function Restrict(m: map<LayoutConstraint, LayoutData>, ls: set<LayoutConstraint>):
    map<LayoutConstraint, LayoutData>
  {
    map l | l in m && l in ls :: m[l]
  }

  /** Nothing changes but the given ones, and nothing is lost. */
  ghost predicate SameOutside(m: map<LayoutConstraint, LayoutData>, m': map<LayoutConstraint, LayoutData>,
                              ls: set<LayoutConstraint>) {
    forall l :: l in m ==> l in m' && (l !in ls ==> m'[l] == m[l])
  }

  /** The children an operation may write to. */
  ghost function Touched(s: Scene, op: Op, items: seq<Item>, views: seq<object?>): set<LayoutConstraint>
    requires |views| == |items|
  {
    if Updating(s, op, items, views) then Owned(Of(s.on, items[op.item]))
    else if Legal(op, |items|, |s.made|) && op.OnConstraint? && op.constraintOp.Change?
    then s.made[op.constraint].Children()
    else {}
  }

  /** The program goes on: no closure stops it, and no update misses what it is to update. */
  ghost predicate Completes(s: Scene, op: Op, items: seq<Item>, views: seq<object?>)
    requires |views| == |items|
  {
    && (RunsClosure(op, items) ==> Drafts.Runs(items[op.item], views[op.item], op.closure))
    && (Updating(s, op, items, views) ==>
          CoveredIn(WrittenByAll(AskedBy(op, items, views), op.dir), Restrict(s.data, Touched(s, op, items, views))))
  }

  /** One operation takes the program from one scene to the next. */
  ghost predicate Moves(s: Scene, s': Scene, op: Op, items: seq<Item>, views: seq<object?>, ok: bool) {
    && |views| == |items| && |s.made| <= |s'.made| && s'.made[..|s.made|] == s.made && NoRepeats(s'.made)
    && MakesAsAsked(s', s'.made[|s.made|..], op, items, views)
    && s'.on == OnAfter(s, op, items, s'.made[|s.made|..])
    && SameOutside(s.data, s'.data, Touched(s, op, items, views))
    && (Updating(s, op, items, views) ==>
          UpdateOutcome(ok, Restrict(s.data, Touched(s, op, items, views)),
                        Restrict(s'.data, Touched(s, op, items, views)),
                        WrittenByAll(AskedBy(op, items, views), op.dir)))
    && (ok <==> Completes(s, op, items, views))
  }

  /** The k-th operation takes the k-th scene to the next; only the last one may stop the program. */
  ghost predicate MovesAt(trace: seq<Scene>, ops: seq<Op>, items: seq<Item>, views: seq<object?>, ok: bool, k: nat)
    requires k + 1 < |trace| <= |ops| + 1
  {
    Moves(trace[k], trace[k + 1], ops[k], items, views, ok || k + 2 < |trace|)
  }

  /** The scenes of a run, from the empty one up to its end or to the operation that stops the program. */
  ghost predicate Trace(trace: seq<Scene>, ops: seq<Op>, items: seq<Item>, views: seq<object?>, ok: bool) {
    && 0 < |trace| <= |ops| + 1
    && trace[0] == Scene([], {}, map[])
    && forall k :: 0 <= k < |trace| - 1 ==> MovesAt(trace, ops, items, views, ok, k)
  }

  lemma TraceMore(trace: seq<Scene>, s': Scene, ops: seq<Op>, items: seq<Item>, views: seq<object?>, ok: bool)
    requires Trace(trace, ops, items, views, true) && |trace| <= |ops|
    requires Moves(trace[|trace| - 1], s', ops[|trace| - 1], items, views, ok)
    ensures Trace(trace + [s'], ops, items, views, ok)
  {
    var longer := trace + [s'];
    forall k | 0 <= k < |longer| - 1 ensures MovesAt(longer, ops, items, views, ok, k) {
      assert k < |trace| - 1 ==> MovesAt(trace, ops, items, views, true, k);
    }
  }

  // ---------- Which constraints are registered ----------

  /** The operation switches the n-th constraint on: activation, in its two forms. */
  predicate TurnsOn(op: Op, n: nat) {
    && op.OnConstraint? && op.constraint == n
    && (op.constraintOp.Activate? || (op.constraintOp.SetIsActive? && op.constraintOp.newValue))
  }

  /** It switches it off: deactivation, in its two forms, or whatever empties its item's registry. */
  predicate TurnsOff(op: Op, n: nat, from: Item, items: seq<Item>) {
    || (op.OnConstraint? && op.constraint == n
        && (op.constraintOp.Deactivate? || (op.constraintOp.SetIsActive? && !op.constraintOp.newValue)))
    || (op.OnItem? && op.item < |items| && items[op.item] == from && Getters(op.closure)
        && (op.itemOp.Remake? || op.itemOp.Remove?))
  }

  /** It registers what it makes: making, remaking, and updating where nothing is registered. */
  ghost predicate BornOn(op: Op, s: Scene, items: seq<Item>) {
    && op.OnItem? && op.item < |items|
    && (op.itemOp.Make? || op.itemOp.Remake? || (op.itemOp.UpdateWith? && Of(s.on, items[op.item]) == {}))
  }

  /** The last operation since a constraint's birth that switches it decides, or else its birth. */
  predicate On(since: seq<Op>, n: nat, from: Item, items: seq<Item>, born: bool) {
    if since == [] then born
    else
      var last, front := since[|since| - 1], since[..|since| - 1];
      TurnsOn(last, n) || (!TurnsOff(last, n, from, items) && On(front, n, from, items, born))
  }

  /** A scene has the n-th constraint registered exactly if its history tells so. */
  ghost predicate SwitchTold(s: Scene, since: seq<Op>, n: nat, items: seq<Item>, born: bool) {
    n < |s.made| && (s.made[n] in s.on <==> On(since, n, s.made[n].from, items, born))
  }

  lemma {:induction false} OnlyMadeAreOn(trace: seq<Scene>, ops: seq<Op>, items: seq<Item>, views: seq<object?>,
                                         ok: bool, t: nat)
    requires Trace(trace, ops, items, views, ok) && t < |trace|
    ensures forall c :: c in trace[t].on ==> c in trace[t].made
  {
    if t == 0 {
    } else {
      OnlyMadeAreOn(trace, ops, items, views, ok, t - 1);
      var s, s' := trace[t - 1], trace[t];
      assert MovesAt(trace, ops, items, views, ok, t - 1);
      assert s'.made == s.made + s'.made[|s.made|..];
    }
  }

  /** The birth of a constraint: it is registered if it is born on. */
  lemma BornOnDecides(s: Scene, s': Scene, op: Op, items: seq<Item>, views: seq<object?>, ok: bool, n: nat)
    requires Moves(s, s', op, items, views, ok) && |s.made| <= n < |s'.made|
    requires forall c :: c in s.on ==> c in s.made
    ensures SwitchTold(s', [], n, items, BornOn(op, s, items))
  {
    var more := s'.made[|s.made|..];
    assert s'.made == s.made + more && s'.made[n] == more[n - |s.made|] && s'.made[n] in more;
    assert s'.made[n] !in s.made;
  }

  lemma OnAfterSwitch(s: Scene, op: Op, items: seq<Item>, more: seq<Constraint>, n: nat)
    requires NoRepeats(s.made) && n < |s.made| && s.made[n] !in more
    ensures s.made[n] in OnAfter(s, op, items, more)
        <==> TurnsOn(op, n) || (!TurnsOff(op, n, s.made[n].from, items) && s.made[n] in s.on)
  {
  }

  /** A later operation: whether it switches the constraint. */
  lemma LaterSwitch(s: Scene, s': Scene, op: Op, items: seq<Item>, views: seq<object?>, ok: bool, n: nat,
                    since: seq<Op>, born: bool)
    requires Moves(s, s', op, items, views, ok) && SwitchTold(s, since, n, items, born)
    ensures SwitchTold(s', since + [op], n, items, born)
  {
    var more := s'.made[|s.made|..];
    assert s'.made == s.made + more;
    assert s.made[n] !in more;
    OnAfterSwitch(s, op, items, more, n);
    assert (since + [op])[..|since|] == since;
  }

  lemma {:induction false} LastSwitchDecides(trace: seq<Scene>, ops: seq<Op>, items: seq<Item>, views: seq<object?>,
                                             ok: bool, n: nat, b: nat, t: nat)
    requires Trace(trace, ops, items, views, ok) && b < t < |trace|
    requires |trace[b].made| <= n < |trace[b + 1].made|
    ensures SwitchTold(trace[t], ops[b + 1..t], n, items, BornOn(ops[b], trace[b], items))
  {
    var going := ok || t + 1 < |trace|;
    assert MovesAt(trace, ops, items, views, ok, t - 1);
    if t == b + 1 {
      OnlyMadeAreOn(trace, ops, items, views, ok, b);
      BornOnDecides(trace[b], trace[t], ops[b], items, views, going, n);
      assert ops[b + 1..t] == [];
    } else {
      LastSwitchDecides(trace, ops, items, views, ok, n, b, t - 1);
      LaterSwitch(trace[t - 1], trace[t], ops[t - 1], items, views, going, n, ops[b + 1..t - 1],
                  BornOn(ops[b], trace[b], items));
      assert ops[b + 1..t - 1] + [ops[t - 1]] == ops[b + 1..t];
    }
  }

  // ---------- Reading a step off the objects ----------

  /** In a reachable state every registry holds its item's part of what is registered. */
  lemma PartsOf(items: seq<Item>, made: seq<Constraint>)
    requires Reachable(items, made)
    ensures forall j :: 0 <= j < |items| ==> items[j].constraintsSet == Of(AllRegistered(items), items[j])
    ensures forall c :: c in AllRegistered(items) ==> c.from in items && c in made
  {
    forall j, c | 0 <= j < |items| && c in items[j].constraintsSet ensures c.from == items[j] && c in made {
      assert items[j] in ItemSet(items);
      assert c in Elements(made);
    }
  }

  /** The registries taken together, from their parts. */
  lemma WholeOf(items: seq<Item>, on: set<Constraint>)
    requires forall j :: 0 <= j < |items| ==> items[j].constraintsSet == Of(on, items[j])
    requires forall c :: c in on ==> c.from in items
    ensures AllRegistered(items) == on
  {
    forall c | c in on ensures c in AllRegistered(items) {
      var j :| 0 <= j < |items| && items[j] == c.from;
      assert c in items[j].constraintsSet;
    }
  }

  lemma NewbornAmong(more: seq<Constraint>, item: Item, rs: seq<Request>, dir: Direction, made: seq<Constraint>)
    requires AsCompiled(more, rs, dir) && forall c :: c in more ==> c.from == item
    ensures forall n :: 0 <= n < |more| ==> Newborn(more[n], item, rs[n], dir, Snapshot(ChildrenOf(made + more)))
  {
    var data := Snapshot(ChildrenOf(made + more));
    forall n | 0 <= n < |more| ensures Newborn(more[n], item, rs[n], dir, data) {
      var c := more[n];
      assert c in more && c in made + more && ChildrenMatch(c, Compile(c.request, dir));
      forall i | 0 <= i < |c.layoutConstraints|
        ensures c.layoutConstraints[i] in data && data[c.layoutConstraints[i]] == Compile(rs[n], dir)[i]
      {
        assert c.layoutConstraints[i] in c.Children();
      }
    }
  }

  lemma DataOutside(m: map<LayoutConstraint, LayoutData>, made: seq<Constraint>, more: seq<Constraint>,
                    ls: set<LayoutConstraint>)
    requires m.Keys == ChildrenOf(made)
    requires forall l :: l in m && l !in ls ==> l.Data() == m[l]
    ensures SameOutside(m, Snapshot(ChildrenOf(made + more)), ls)
  {
    forall l | l in m ensures l in ChildrenOf(made + more) {
      var c :| c in made && l in c.Children();
      assert c in made + more;
    }
  }

  /** What is registered with an item, seen in the data of all children. */
  lemma RestrictedToItem(items: seq<Item>, made: seq<Constraint>, i: nat)
    requires Reachable(items, made) && i < |items|
    ensures Owned(Of(AllRegistered(items), items[i])) == Registered(items[i]) <= ChildrenOf(made)
    ensures Restrict(Snapshot(ChildrenOf(made)), Registered(items[i])) == Snapshot(Registered(items[i]))
  {
    PartsOf(items, made);
    Reach(items, made);
    forall l ensures l in Owned(items[i].constraintsSet) <==> l in Registered(items[i]) {
      if l in Registered(items[i]) {
        var c :| c in items[i].constraintsSet && l in c.layoutConstraints;
        assert l in c.Children();
      }
    }
  }
}
