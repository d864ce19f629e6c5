/** Runs of `update(...)` on one constraint leave it as a fresh compilation with the latest constant would. */
module UpdateRuns {
  import opened AttributeLists
  import opened Compiler
  import opened ConstantTargets
  import opened Displacements
  import opened Drafts
  import opened Geometry
  import opened Layout
  import opened Matching
  import opened Registry
  import opened Updates

  /** Every child has the constant that compiling with the constraint's present constant would give. */
  ghost predicate Recompiled(c: Constraint, dir: Direction)
    reads c`constant, c.layoutConstraints`constant
    requires |c.layoutConstraints| == |Compile(c.request, dir)|
  {
    forall i :: 0 <= i < |c.layoutConstraints| ==>
      c.layoutConstraints[i].constant == Compile(c.request.(constant := c.constant), dir)[i].constant
  }

  /** In step is as recompiled, and the other way round, exactly when the present constant is drift-free. */
  lemma InStepIsRecompiled(c: Constraint, dir: Direction)
    requires c.Valid() && c.Compiles() && Rooted(c.request)
    ensures |c.layoutConstraints| == |Compile(c.request, dir)|
    ensures c.InSync(dir) ==> (Recompiled(c, dir) <==> DriftFree(c.request.(constant := c.constant), dir))
    ensures Recompiled(c, dir) ==> (c.InSync(dir) <==> DriftFree(c.request.(constant := c.constant), dir))
  {
    DirectionKeepsShapes(c.request, LeftToRight, dir);
    var r := c.request.(constant := c.constant);
    var attrs := Listed(r.fromMask);
    forall i | 0 <= i < |c.layoutConstraints|
      ensures ValueFor(c.constant, LookupAttribute(c.compiled[i]), dir) == Compile(r, dir)[i].constant
        <==> Steady(r, dir, attrs[i])
    {
      assert attrs[i] in attrs;
    }
    forall i | 0 <= i < |attrs|
      ensures Steady(r, dir, attrs[i]) <==> (Unhosted(r, attrs[i]) ==>
        ValueFor(r.constant, attrs[i], dir) == ValueFor(r.constant, CompiledAlone(attrs[i]), dir))
    {
      assert attrs[i] in attrs;
      SteadyUnlessUnhosted(r, dir, attrs[i]);
    }
    if c.InSync(dir) && Recompiled(c, dir) {
      forall a | a in r.fromMask && Unhosted(r, a)
        ensures ValueFor(r.constant, a, dir) == ValueFor(r.constant, CompiledAlone(a), dir)
      {
        assert a in attrs;
        var i :| 0 <= i < |attrs| && attrs[i] == a;
      }
    } else if DriftFree(r, dir) {
      forall i | 0 <= i < |attrs| ensures Steady(r, dir, attrs[i]) { assert attrs[i] in attrs; }
    }
  }

  /** The layout constraint that compilation would give now, at the priority its history leaves it with. */
  ghost function AfterRun(r: Request, us: seq<Update>, dir: Direction, i: nat): LayoutData
    requires i < |Compile(r, dir)|
  {
    Compile(r.(constant := OwnerConstant(r.constant, us)), dir)[i].(
      priority := if r.priority >= REQUIRED then r.priority else LatestNonRequired(r.priority, History(us)))
  }

  /** The priority a child created with the constraint ends at. */
  lemma PriorityAfterRun(p: real, us: seq<Update>)
    requires forall u :: u in us && u.ToPriority? ==> u.priority <= REQUIRED
    ensures ChildPriority(p, p, us) == if p >= REQUIRED then p else LatestNonRequired(p, History(us))
  {
    if p >= REQUIRED {
      RequiredStaysRequired(p, p, us);
    } else {
      OptionalFollowsHistory(p, us);
    }
  }

  /**
   * What has happened to a constraint since it was made: its own updates, the direction of the last one, or of the
   * making, and whether no updateConstraints on its item has come after that.
   */
  datatype Story = Story(us: seq<Update>, dir: Direction, current: bool)

  /** Constant and priority follow the constraint's own updates. */
  ghost predicate Follows(c: Constraint, us: seq<Update>)
    reads c`constant, c`priority
    reads c.Children()`constraint, c.layoutConstraints`priority
  {
    && c.Valid() && c.Compiles() && Rooted(c.request)
    && c.constant == OwnerConstant(c.request.constant, us)
    && c.priority == OwnerPriority(c.request.priority, us)
    && (forall l :: l in c.layoutConstraints ==>
          l.priority == ChildPriority(c.request.priority, c.request.priority, us))
  }

  /** The children's constants are from the last own update, or from the making. */
  ghost predicate UpToDate(c: Constraint, us: seq<Update>, dir: Direction)
    reads c`constant, c.layoutConstraints`constant
  {
    && |c.layoutConstraints| == |c.compiled| == |Compile(c.request, dir)|
    && if us == [] then Recompiled(c, dir) else c.InSync(dir)
  }

  /** The state a story leaves a constraint in, active or not. */
  ghost predicate Tracks(c: Constraint, h: Story)
    reads c`constant, c`priority
    reads c.Children()`constraint, c.layoutConstraints`constant, c.layoutConstraints`priority
  {
    Follows(c, h.us) && (h.current ==> UpToDate(c, h.us, h.dir))
  }

  /** What that state is in terms of compilation. */
  ghost predicate Tells(c: Constraint, h: Story)
    reads c.layoutConstraints`constant, c.layoutConstraints`priority
  {
    && |c.layoutConstraints| == |Compile(c.request, h.dir)|
    && (forall i :: 0 <= i < |c.layoutConstraints| ==>
          c.layoutConstraints[i].Data()
            == AfterRun(c.request, h.us, h.dir, i).(constant := c.layoutConstraints[i].constant))
    && (h.current ==>
          ((forall i :: 0 <= i < |c.layoutConstraints| ==>
              c.layoutConstraints[i].Data() == AfterRun(c.request, h.us, h.dir, i))
           <==> h.us == [] || DriftFree(c.request.(constant := OwnerConstant(c.request.constant, h.us)), h.dir)))
  }

  /** No priority above required is asked for. */
  ghost predicate Moderate(us: seq<Update>) {
    forall u :: u in us && u.ToPriority? ==> u.priority <= REQUIRED
  }

  /**
   * Each child is what compiling with the latest constant gives, required for ever if it was created required, and
   * else at the most recent non-required priority asked for. If the story is current this holds exactly when there
   * was no own update or the latest constant is drift-free; short of the constants it holds in any case.
   */
  lemma TracksTells(c: Constraint, h: Story)
    requires Tracks(c, h) && Moderate(h.us)
    ensures Tells(c, h)
  {
    PriorityAfterRun(c.request.priority, h.us);
    DirectionKeepsShapes(c.request, LeftToRight, h.dir);
    forall i | 0 <= i < |c.layoutConstraints|
      ensures c.layoutConstraints[i].Data()
        == AfterRun(c.request, h.us, h.dir, i).(constant := c.layoutConstraints[i].constant)
    {
      assert c.layoutConstraints[i] in c.layoutConstraints;
      assert Shaped(c.layoutConstraints[i], c.compiled[i]);
    }
    if h.current && h.us != [] { InStepIsRecompiled(c, h.dir); }
  }

  /** The last own update that is not a priority decides: an offset is every child's constant. */
  ghost predicate Decided(c: Constraint, us: seq<Update>, dir: Direction)
    reads c`constant, c.layoutConstraints`constant
  {
    && |c.layoutConstraints| == |c.compiled|
    && (forall j: nat :: LastChange(us, j) && us[j].ToOffset? ==>
          forall l :: l in c.layoutConstraints ==> l.constant == us[j].amount)
    && (forall j: nat :: LastChange(us, j) && us[j].ToInset? ==> HasSides(c.constant, us[j].inset) && c.InSync(dir))
    && ((forall j :: 0 <= j < |us| ==> us[j].ToPriority?) ==> c.constant == c.request.constant)
  }

  lemma TracksDecided(c: Constraint, h: Story)
    requires Tracks(c, h) && h.current
    ensures Decided(c, h.us, h.dir)
  {
    ConstantFollowsLast(c.request.constant, h.us);
  }

  /**
   * What updated insets mean for a child that relates an attribute of its item to the same attribute of a view: it
   * relates to the view's box with all sides moved inwards by the new insets.
   */
  lemma UpdatedInsetMeaning(c: Constraint, i: nat, dir: Direction, boxes: object -> Box)
    requires c.Valid() && c.InSync(dir) && (c.constant.Insets? || c.constant.DirectionalInsets?)
    requires i < |c.layoutConstraints|
    requires var l := c.layoutConstraints[i];
             l.secondItem != null && l.firstAttribute == l.secondAttribute != NotAnAttribute && l.multiplier == 1.0
    ensures var l := c.layoutConstraints[i]; var a := l.firstAttribute;
            Satisfied(l.Data(), boxes, dir)
            <==> Holds(l.relation, AttributeValue(boxes(l.firstItem), a, dir),
                       AttributeValue(Inward(boxes(l.secondItem), InsetsFor(c.constant, a, dir)), a, dir))
  {
    var l := c.layoutConstraints[i];
    assert Shaped(l, c.compiled[i]);
    InwardValue(boxes(l.secondItem), c.constant, l.firstAttribute, dir);
  }

  /** A constraint that is as compiled starts its story, whether it is active or not. */
  lemma StoryBegins(c: Constraint, dir: Direction)
    requires c.Valid() && Rooted(c.request) && AsCompiled([c], [c.request], dir)
    ensures Tracks(c, Story([], dir, true))
  {
    assert c in [c];
    forall l | l in c.layoutConstraints ensures l.priority == c.request.priority {
      var i :| 0 <= i < |c.layoutConstraints| && c.layoutConstraints[i] == l;
    }
  }

  /** An own update continues it, and makes it current again. */
  method Continue(c: Constraint, u: Update, dir: Direction, ghost h: Story)
    requires Tracks(c, h)
    modifies c`constant, c`priority, c.layoutConstraints`constant, c.layoutConstraints`priority
    ensures Tracks(c, Story(h.us + [u], dir, true))
  {
    c.Perform(u, dir);
    DirectionKeepsShapes(c.request, LeftToRight, dir);
    assert (h.us + [u])[..|h.us|] == h.us;
  }

  /** Any run of update calls on a constraint as makeConstraints, remakeConstraints or prepareConstraints leaves it. */
  method UpdateRun(c: Constraint, us: seq<Update>, dir: Direction)
    requires c.Valid() && Rooted(c.request) && AsCompiled([c], [c.request], dir) && Moderate(us)
    modifies c`constant, c`priority, c.layoutConstraints`constant, c.layoutConstraints`priority
    ensures Tells(c, Story(us, dir, true)) && Decided(c, us, dir)
  {
    StoryBegins(c, dir);
    for i := 0 to |us|
      invariant Tracks(c, Story(us[..i], dir, true))
    {
      assert us[..i + 1] == us[..i] + [us[i]];
      Continue(c, us[i], dir, Story(us[..i], dir, true));
    }
    assert us[..|us|] == us;
    TracksTells(c, Story(us, dir, true));
    TracksDecided(c, Story(us, dir, true));
  }

  /** Made, and so active, and then updated: the n-th constraint is what its request tells after the updates. */
  method MakeThenUpdate(item: Item, closure: seq<Clause>, n: nat, us: seq<Update>, dir: Direction,
                        ghost items: set<Item>, ghost cs: set<Constraint>)
      returns (ok: bool, made: seq<Constraint>)
    requires Consistent(items, cs) && item in items && Getters(closure) && Moderate(us)
    modifies item`constraintsSet
    ensures ok <==> Drafts.Runs(item, item.superview, closure)
    ensures ok && n < |made| ==>
      && |made| == |Requests(item, item.superview, closure)|
      && made[n].request == Requests(item, item.superview, closure)[n] && made[n] in item.constraintsSet
      && Tells(made[n], Story(us, dir, true)) && Decided(made[n], us, dir)
      && forall l :: l in made[n].layoutConstraints ==> l.isActive
  {
    ok, made := MakeConstraints(item, closure, dir, items, cs);
    if ok && n < |made| {
      var c := made[n];
      assert c in made && c in Elements(made) && InStep(c);
      RequestsAreSound(item, item.superview, closure, n);
      assert [c][0] == c;
      UpdateRun(c, us, dir);
    }
  }
}
