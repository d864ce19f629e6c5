/** updateConstraints against remakeConstraints: when the incremental path ends where the rebuild ends. */
module Rebuild {
  import opened Compiler
  import opened ConstantTargets
  import opened Drafts
  import opened Layout
  import opened Matching
  import opened Registry

  /** The children of the constraints, in order. */
  ghost function ChildList(made: seq<Constraint>): seq<LayoutConstraint> {
    if made == [] then []
    else ChildList(made[..|made| - 1]) + made[|made| - 1].layoutConstraints
  }

  lemma {:induction false} ChildListMembers(made: seq<Constraint>, l: LayoutConstraint)
    ensures l in ChildList(made) <==> l in ChildrenOf(made)
  {
    if made == [] {
    } else {
      var front, last := made[..|made| - 1], made[|made| - 1];
      assert made == front + [last];
      ChildListMembers(front, l);
      if l in ChildrenOf(made) {
        var c :| c in made && l in c.Children();
        assert c in front || c == last;
      }
      if l in last.layoutConstraints { assert l in last.Children(); }
    }
  }

  lemma {:induction false} ChildListEnumerates(made: seq<Constraint>)
    requires NoRepeats(made) && forall c :: c in made ==> c.OwnsChildren()
    ensures NoRepeats(ChildList(made))
  {
    if made == [] {
    } else {
      var front, last := made[..|made| - 1], made[|made| - 1];
      ChildListEnumerates(front);
      forall l | l in ChildList(front) ensures l !in last.layoutConstraints {
        ChildListMembers(front, l);
        var c :| c in front && l in c.Children();
        assert c in made && last in made;
        assert c != last;
      }
      assert last.OwnsChildren();
      NoRepeatsConcat(ChildList(front), last.layoutConstraints);
    }
  }

  lemma DatasOfConcat(s: seq<LayoutConstraint>, t: seq<LayoutConstraint>)
    ensures Datas(s + t) == Datas(s) + Datas(t)
  {
  }

  lemma {:induction false} ChildListData(made: seq<Constraint>, rs: seq<Request>, dir: Direction)
    requires AsCompiled(made, rs, dir)
    ensures Datas(ChildList(made)) == CompileAll(rs, dir)
  {
    if made == [] {
    } else {
      var front, last := made[..|made| - 1], made[|made| - 1];
      ChildListData(front, rs[..|made| - 1], dir);
      assert last in made;
      assert Datas(last.layoutConstraints) == Compile(last.request, dir);
      DatasOfConcat(ChildList(front), last.layoutConstraints);
    }
  }

  lemma RegisteredChildren(item: Item, made: seq<Constraint>)
    requires item.constraintsSet == Elements(made)
    ensures Registered(item) == ChildrenOf(made)
  {
    forall l ensures l in Registered(item) <==> l in ChildrenOf(made) {
      if l in Registered(item) {
        var c :| c in item.constraintsSet && l in c.layoutConstraints;
        assert c in made && l in c.Children();
      }
    }
  }

  /**
   * The layout constraints that are registered with an item, which are the active ones, and their data in some
   * order.
   */
  ghost predicate Installed(item: Item, active: seq<LayoutConstraint>)
    reads item`constraintsSet, active
  {
    Enumerates(active, Registered(item)) && forall l :: l in active ==> l.isActive
  }

  /** In a consistent state what is registered is active. */
  lemma RegisteredIsInstalled(item: Item, active: seq<LayoutConstraint>, items: set<Item>, cs: set<Constraint>)
    requires Consistent(items, cs) && item in items && Enumerates(active, Registered(item))
    ensures Installed(item, active)
  {
    forall l | l in active ensures l.isActive {
      var c :| c in item.constraintsSet && l in c.layoutConstraints;
      assert InStep(c);
    }
  }

  /** A second update by the same new ones completes and changes nothing. */
  lemma OutcomeTwice<K>(before: map<K, LayoutData>, once: map<K, LayoutData>, twice: map<K, LayoutData>,
                        ns: seq<LayoutData>, again: bool)
    requires NamedOnceIn(before, ns) && UpdateOutcome(true, before, once, ns) && UpdateOutcome(again, once, twice, ns)
    ensures again && twice == once == Updated(before, ns)
  {
    ShapesDecide(before, once, ns);
    UpdateIsIdempotent(before, ns);
  }

  /**
   * The same update twice. Where no shape the closure writes is registered twice, the second run completes whenever the
   * first one does and changes nothing, in whatever orders the two enumerate the registered layout constraints.
   */
  method UpdateTwice(item: Item, closure: seq<Clause>, dir: Direction, ghost items: set<Item>,
                     ghost cs: set<Constraint>)
      returns (ok: bool, ghost once: map<LayoutConstraint, LayoutData>)
    requires Consistent(items, cs) && item in items && Getters(closure) && item.constraintsSet != {}
    requires Runs(item, item.superview, closure) ==>
      NamedOnceIn(Snapshot(Registered(item)), WrittenByAll(Requests(item, item.superview, closure), dir))
    modifies item`constraintsSet, Registered(item)`constant
    ensures ok <==>
      && Runs(item, item.superview, closure)
      && CoveredIn(WrittenByAll(Requests(item, item.superview, closure), dir), old(Snapshot(Registered(item))))
    ensures ok ==> Snapshot(Registered(item)) == once
    ensures ok ==>
      once == Updated(old(Snapshot(Registered(item))), WrittenByAll(Requests(item, item.superview, closure), dir))
  {
    ghost var before := Snapshot(Registered(item));
    var made;
    ok, made := UpdateConstraints(item, closure, dir, items, cs);
    once := Snapshot(Registered(item));
    if ok {
      var again, more := UpdateConstraints(item, closure, dir, items, cs + Elements(made));
      OutcomeTwice(before, once, Snapshot(Registered(item)), WrittenByAll(Requests(item, item.superview, closure), dir),
                   again);
      ok := again;
    }
  }

  /** After a rebuild the active layout constraints are exactly the compiled closure. */
  method Remake(item: Item, closure: seq<Clause>, dir: Direction, ghost items: set<Item>, ghost cs: set<Constraint>)
      returns (ok: bool, ghost active: seq<LayoutConstraint>)
    requires Consistent(items, cs) && item in items && Getters(closure)
    modifies item`constraintsSet, Registered(item)`isActive
    ensures ok <==> Runs(item, item.superview, closure)
    ensures ok ==> Installed(item, active)
    ensures ok ==> multiset(Datas(active)) == multiset(CompileAll(Requests(item, item.superview, closure), dir))
  {
    ghost var made;
    ok, made := RemakeConstraints(item, closure, dir, items, cs);
    active := [];
    if ok {
      active := ChildList(made);
      RemadeIsInstalled(item, made, items, cs + Elements(made));
      ChildListData(made, Requests(item, item.superview, closure), dir);
    }
  }

  lemma RemadeIsInstalled(item: Item, made: seq<Constraint>, items: set<Item>, cs: set<Constraint>)
    requires Consistent(items, cs) && item in items && NoRepeats(made)
    requires item.constraintsSet == Elements(made) <= cs
    ensures Installed(item, ChildList(made))
  {
    forall c | c in made ensures InStep(c) && c in item.constraintsSet && c.from == item {
      assert c in Elements(made);
    }
    ChildListEnumerates(made);
    RegisteredChildren(item, made);
    forall l | l in Registered(item) ensures l in ChildList(made) { ChildListMembers(made, l); }
    forall l | l in ChildList(made) ensures l in Registered(item) && l.isActive {
      ChildListMembers(made, l);
      var c :| c in made && l in c.Children();
      assert InStep(c);
    }
  }

  lemma {:induction false} EnumerationOf(ls: set<LayoutConstraint>) returns (e: seq<LayoutConstraint>)
    ensures Enumerates(e, ls)
    decreases |ls|
  {
    if ls == {} {
      e := [];
    } else {
      var l :| l in ls;
      e := EnumerationOf(ls - {l});
      NoRepeatsConcat(e, [l]);
      e := e + [l];
    }
  }

  /** The data of an enumeration, before and after an update. */
  lemma UpdatedEnumeration(ls: set<LayoutConstraint>, e: seq<LayoutConstraint>,
                           before: map<LayoutConstraint, LayoutData>, ns: seq<LayoutData>, ms: seq<LayoutData>)
    requires Enumerates(e, ls) && before.Keys == ls && DistinctIn(before) && CoveredIn(ns, before)
    requires Snapshot(ls) == Updated(before, ns)
    requires |ns| == |ms| && forall i :: 0 <= i < |ns| ==> SameShape(ns[i], ms[i])
    ensures multiset(Datas(e)) == multiset(ms) <==> Distinct(ms) && |e| == |ms| && ns == ms
  {
    assert forall i :: 0 <= i < |e| ==> e[i] in ls by {
      forall i | 0 <= i < |e| ensures e[i] in ls { assert e[i] in e; }
    }
    var ds := seq(|e|, i requires 0 <= i < |e| => before[e[i]]);
    forall j | 0 <= j < |ns| ensures Matched(ns[j], ds) {
      assert MatchedIn(ns[j], before);
      var l :| l in before && SameShape(before[l], ns[j]);
      assert l in e;
      var i :| 0 <= i < |e| && e[i] == l;
      assert ds[i] == before[l];
    }
    forall i | 0 <= i < |e| ensures Datas(e)[i] == Latest(ds[i], ns) {
      assert Snapshot(ls)[e[i]] == Updated(before, ns)[e[i]];
    }
    assert Datas(e) == LatestOfAll(ds, ns);
    UpdateReaches(ds, ns, ms);
  }

  /** A completed update against what its requests compile to. */
  lemma OutcomeInstalls(ls: set<LayoutConstraint>, active: seq<LayoutConstraint>,
                        before: map<LayoutConstraint, LayoutData>, rs: seq<Request>, dir: Direction)
    requires Enumerates(active, ls) && before.Keys == ls && DistinctIn(before) && AllRooted(rs)
    requires UpdateOutcome(true, before, Snapshot(ls), WrittenByAll(rs, dir))
    ensures var compiled := CompileAll(rs, dir);
            multiset(Datas(active)) == multiset(compiled)
              <==> Distinct(compiled) && |active| == |compiled| && AllDriftFree(rs, dir)
  {
    AllWriteTheirShapes(rs, dir);
    AllWriteWhatTheyCompile(rs, dir);
    UpdatedEnumeration(ls, active, before, WrittenByAll(rs, dir), CompileAll(rs, dir));
  }

  lemma RequestsAreRooted(item: Item, closure: seq<Clause>)
    requires Getters(closure) && Drafts.Runs(item, item.superview, closure)
    ensures AllRooted(Requests(item, item.superview, closure))
  {
    var rs := Requests(item, item.superview, closure);
    forall i | 0 <= i < |rs| ensures Rooted(rs[i]) { RequestsAreSound(item, item.superview, closure, i); }
  }

  /** In a view hierarchy no closure drifts. */
  lemma SuperviewHosts(item: Item, closure: seq<Clause>, dir: Direction)
    requires item.superview != null && Getters(closure) && Drafts.Runs(item, item.superview, closure)
    ensures AllDriftFree(Requests(item, item.superview, closure), dir)
  {
    var rs := Requests(item, item.superview, closure);
    forall i | 0 <= i < |rs| ensures DriftFree(rs[i], dir) {
      RequestsAreSound(item, item.superview, closure, i);
      HostedIsDriftFree(rs[i], dir);
    }
  }

  /**
   * The incremental path refines the rebuild. When the registered layout constraints are pairwise non-`==`, a completed
   * update leaves as active exactly what Remake installs for the same closure, if and only if the closure's layout
   * constraints are pairwise non-`==` too, there are as many of them, and none of its requests drifts.
   */
  method Update(item: Item, closure: seq<Clause>, dir: Direction, ghost items: set<Item>, ghost cs: set<Constraint>)
      returns (ok: bool, ghost active: seq<LayoutConstraint>)
    requires Consistent(items, cs) && item in items && Getters(closure)
    requires item.constraintsSet != {}
    modifies item`constraintsSet, Registered(item)`constant
    ensures ok ==> Runs(item, item.superview, closure) && Installed(item, active)
    ensures ok && DistinctIn(old(Snapshot(Registered(item)))) ==>
      var rs := Requests(item, item.superview, closure);
      var compiled := CompileAll(rs, dir);
      multiset(Datas(active)) == multiset(compiled)
        <==> Distinct(compiled) && |active| == |compiled| && AllDriftFree(rs, dir)
  {
    ghost var before := Snapshot(Registered(item));
    ghost var made;
    ok, made := UpdateConstraints(item, closure, dir, items, cs);
    active := EnumerationOf(Registered(item));
    if ok {
      RegisteredIsInstalled(item, active, items, cs + Elements(made));
      RequestsAreRooted(item, closure);
      if DistinctIn(before) {
        OutcomeInstalls(Registered(item), active, before, Requests(item, item.superview, closure), dir);
      }
    }
  }
}
