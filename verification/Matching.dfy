/** The incremental path on values: new layout constraints are matched to existing ones by shape. */
module Matching {
  import opened Compiler
  import opened ConstantTargets
  import opened Options

  /** LayoutConstraint's `==`: every field but the constant. */
  predicate SameShape(d: LayoutData, e: LayoutData) {
    && d.firstAttribute == e.firstAttribute
    && d.secondAttribute == e.secondAttribute
    && d.relation == e.relation
    && d.priority == e.priority
    && d.multiplier == e.multiplier
    && d.secondItem == e.secondItem
    && d.firstItem == e.firstItem
  }

  /** The layout direction decides constants only. */
  lemma DirectionKeepsShapes(r: Request, dir: Direction, dir': Direction)
    ensures |Compile(r, dir)| == |Compile(r, dir')|
    ensures forall i :: 0 <= i < |Compile(r, dir)| ==> SameShape(Compile(r, dir)[i], Compile(r, dir')[i])
  {
  }

  /** Pairwise non-`==`. */
  ghost predicate Distinct(ds: seq<LayoutData>) {
    forall i, j :: 0 <= i < j < |ds| ==> !SameShape(ds[i], ds[j])
  }

  ghost predicate Matched(n: LayoutData, ds: seq<LayoutData>) {
    exists i :: 0 <= i < |ds| && SameShape(ds[i], n)
  }

  /** Some new layout constraint has this shape. */
  ghost predicate Named(d: LayoutData, ns: seq<LayoutData>) {
    exists j :: 0 <= j < |ns| && SameShape(d, ns[j])
  }

  /** No shape that is named is there twice. */
  ghost predicate NamedOnce(ds: seq<LayoutData>, ns: seq<LayoutData>) {
    forall i, j :: 0 <= i < j < |ds| && SameShape(ds[i], ds[j]) ==> !Named(ds[i], ns)
  }

  /** Every new layout constraint has an existing one to update. */
  ghost predicate Covers(ds: seq<LayoutData>, ns: seq<LayoutData>) {
    forall j :: 0 <= j < |ns| ==> Matched(ns[j], ds)
  }

  /** An existing layout constraint after the update: the last match among the new ones sets its constant. */
  function Latest(d: LayoutData, ns: seq<LayoutData>): LayoutData {
    if ns == [] then d
    else if SameShape(d, ns[|ns| - 1]) then d.(constant := ns[|ns| - 1].constant)
    else Latest(d, ns[..|ns| - 1])
  }

  function LatestOfAll(ds: seq<LayoutData>, ns: seq<LayoutData>): (r: seq<LayoutData>)
    ensures |r| == |ds|
    ensures forall i :: 0 <= i < |ds| ==> r[i] == Latest(ds[i], ns)
  {
    seq(|ds|, i requires 0 <= i < |ds| => Latest(ds[i], ns))
  }

  /** An update never changes a shape, and changes a constant only where some new layout constraint matches. */
  lemma {:induction false} LatestKeepsShape(d: LayoutData, ns: seq<LayoutData>)
    ensures SameShape(Latest(d, ns), d)
    ensures Latest(d, ns) == d || exists j :: 0 <= j < |ns| && Latest(d, ns) == ns[j]
  {
    if ns == [] {
    } else {
      var last := |ns| - 1;
      if SameShape(d, ns[last]) {
        assert Latest(d, ns) == ns[last];
      } else {
        LatestKeepsShape(d, ns[..last]);
        if Latest(d, ns) != d {
          var j :| 0 <= j < last && Latest(d, ns) == ns[..last][j];
          assert Latest(d, ns) == ns[j];
        }
      }
    }
  }

  /** Updating twice with the same new constraints changes nothing the second time. */
  lemma {:induction false} LatestIdempotent(d: LayoutData, ns: seq<LayoutData>)
    ensures Latest(Latest(d, ns), ns) == Latest(d, ns)
  {
    LatestKeepsShape(d, ns);
    LatestOfSameShape(Latest(d, ns), d, ns);
    if !(exists j :: 0 <= j < |ns| && SameShape(d, ns[j])) {
      LatestUnmatched(d, ns);
    }
  }

  lemma {:induction false} LatestUnmatched(d: LayoutData, ns: seq<LayoutData>)
    requires forall j :: 0 <= j < |ns| ==> !SameShape(d, ns[j])
    ensures Latest(d, ns) == d
  {
    if ns == [] {
    } else {
      LatestUnmatched(d, ns[..|ns| - 1]);
    }
  }

  /** Where there is a match, the outcome does not depend on the old constant. */
  lemma {:induction false} LatestOfSameShape(d: LayoutData, e: LayoutData, ns: seq<LayoutData>)
    requires SameShape(d, e)
    ensures (exists j :: 0 <= j < |ns| && SameShape(e, ns[j])) ==> Latest(d, ns) == Latest(e, ns)
  {
    if ns == [] {
    } else if !SameShape(e, ns[|ns| - 1]) {
      LatestOfSameShape(d, e, ns[..|ns| - 1]);
      if j :| 0 <= j < |ns| && SameShape(e, ns[j]) {
        assert ns[..|ns| - 1][j] == ns[j];
      }
    }
  }

  lemma {:induction false} LatestOfConcat(d: LayoutData, ms: seq<LayoutData>, ns: seq<LayoutData>)
    ensures Latest(Latest(d, ms), ns) == Latest(d, ms + ns)
  {
    if ns == [] {
      assert ms + ns == ms;
    } else {
      var last := |ns| - 1;
      assert (ms + ns)[..|ms + ns| - 1] == ms + ns[..last];
      LatestKeepsShape(d, ms);
      LatestOfConcat(d, ms, ns[..last]);
    }
  }

  // ---------- Keyed layout constraints, in no order ----------

  ghost predicate DistinctIn<K>(m: map<K, LayoutData>) {
    forall k, l :: k in m && l in m && k != l ==> !SameShape(m[k], m[l])
  }

  /** No shape that is named is there twice. */
  ghost predicate NamedOnceIn<K>(m: map<K, LayoutData>, ns: seq<LayoutData>) {
    forall k, l :: k in m && l in m && k != l && SameShape(m[k], m[l]) ==> !Named(m[k], ns)
  }

  ghost predicate MatchedIn<K>(n: LayoutData, m: map<K, LayoutData>) {
    exists k :: k in m && SameShape(m[k], n)
  }

  /** Every new layout constraint has an existing one to update. */
  ghost predicate CoveredIn<K>(ns: seq<LayoutData>, m: map<K, LayoutData>) {
    forall i :: 0 <= i < |ns| ==> MatchedIn(ns[i], m)
  }

  ghost predicate SameShapes<K>(m: map<K, LayoutData>, m': map<K, LayoutData>) {
    m.Keys == m'.Keys && forall k :: k in m ==> SameShape(m[k], m'[k])
  }

  /** The order-free outcome of an update. */
  ghost function Updated<K>(m: map<K, LayoutData>, ns: seq<LayoutData>): map<K, LayoutData> {
    map k | k in m :: Latest(m[k], ns)
  }

  /**
   * What an update with ns does to keyed layout constraints: it keeps every shape, it runs to the end exactly when
   * every new one has a match, it leaves alone what no new one names, even if it stops early, and if no named shape is
   * there twice each ends with the last constant written to its shape.
   */
  ghost predicate UpdateOutcome<K>(ok: bool, m: map<K, LayoutData>, m': map<K, LayoutData>, ns: seq<LayoutData>) {
    && SameShapes(m, m')
    && (ok <==> CoveredIn(ns, m))
    && (forall k :: k in m && !Named(m[k], ns) ==> m'[k] == m[k])
    && (ok && NamedOnceIn(m, ns) ==> m' == Updated(m, ns))
  }

  lemma UpdatedTwice<K>(m: map<K, LayoutData>, ms: seq<LayoutData>, ns: seq<LayoutData>)
    ensures Updated(Updated(m, ms), ns) == Updated(m, ms + ns)
  {
    forall k | k in m ensures Updated(Updated(m, ms), ns)[k] == Updated(m, ms + ns)[k] {
      LatestOfConcat(m[k], ms, ns);
    }
  }

  /** Updating again with the same new layout constraints changes nothing. */
  lemma UpdateIsIdempotent<K>(m: map<K, LayoutData>, ns: seq<LayoutData>)
    ensures Updated(Updated(m, ns), ns) == Updated(m, ns)
  {
    forall k | k in m ensures Updated(Updated(m, ns), ns)[k] == Updated(m, ns)[k] {
      LatestIdempotent(m[k], ns);
    }
  }

  /** Only shapes decide what is covered and what is distinct. */
  lemma ShapesDecide<K>(m: map<K, LayoutData>, m': map<K, LayoutData>, ns: seq<LayoutData>)
    requires SameShapes(m, m')
    ensures CoveredIn(ns, m) <==> CoveredIn(ns, m')
    ensures NamedOnceIn(m, ns) <==> NamedOnceIn(m', ns)
  {
    forall i | 0 <= i < |ns| ensures MatchedIn(ns[i], m) <==> MatchedIn(ns[i], m') {
      if k :| k in m && SameShape(m[k], ns[i]) { assert SameShape(m'[k], ns[i]); }
      if k :| k in m' && SameShape(m'[k], ns[i]) { assert SameShape(m[k], ns[i]); }
    }
    forall k, l | k in m && l in m && k != l ensures SameShape(m[k], m[l]) <==> SameShape(m'[k], m'[l]) {
    }
    forall k | k in m ensures Named(m[k], ns) <==> Named(m'[k], ns) { NamedByShape(m[k], m'[k], ns); }
  }

  lemma NamedByShape(d: LayoutData, e: LayoutData, ns: seq<LayoutData>)
    requires SameShape(d, e)
    ensures Named(d, ns) <==> Named(e, ns)
  {
    if j :| 0 <= j < |ns| && SameShape(d, ns[j]) { assert SameShape(e, ns[j]); }
    if j :| 0 <= j < |ns| && SameShape(e, ns[j]) { assert SameShape(d, ns[j]); }
  }

  lemma NamedByConcat(d: LayoutData, ms: seq<LayoutData>, ns: seq<LayoutData>)
    ensures Named(d, ms + ns) <==> Named(d, ms) || Named(d, ns)
  {
    if j :| 0 <= j < |ms| && SameShape(d, ms[j]) { assert SameShape(d, (ms + ns)[j]); }
    if j :| 0 <= j < |ns| && SameShape(d, ns[j]) { assert SameShape(d, (ms + ns)[|ms| + j]); }
  }

  lemma NamedOnceByConcat<K>(m: map<K, LayoutData>, ms: seq<LayoutData>, ns: seq<LayoutData>)
    ensures NamedOnceIn(m, ms + ns) <==> NamedOnceIn(m, ms) && NamedOnceIn(m, ns)
  {
    forall k | k in m ensures Named(m[k], ms + ns) <==> Named(m[k], ms) || Named(m[k], ns) {
      NamedByConcat(m[k], ms, ns);
    }
  }

  lemma CoveredByConcat<K>(ms: seq<LayoutData>, ns: seq<LayoutData>, m: map<K, LayoutData>)
    ensures CoveredIn(ms + ns, m) <==> CoveredIn(ms, m) && CoveredIn(ns, m)
  {
    assert forall i :: 0 <= i < |ms| ==> ms[i] == (ms + ns)[i];
    assert forall i :: 0 <= i < |ns| ==> ns[i] == (ms + ns)[|ms| + i];
  }

  /** One update after another is one update with what both write. */
  lemma OutcomesCompose<K>(before: map<K, LayoutData>, now: map<K, LayoutData>, after: map<K, LayoutData>,
                           ms: seq<LayoutData>, ns: seq<LayoutData>, ok: bool)
    requires UpdateOutcome(true, before, now, ms) && UpdateOutcome(ok, now, after, ns)
    ensures UpdateOutcome(ok, before, after, ms + ns)
  {
    ShapesDecide(before, now, ns);
    CoveredByConcat(ms, ns, before);
    NamedOnceByConcat(before, ms, ns);
    UpdatedTwice(before, ms, ns);
    forall k | k in before && !Named(before[k], ms + ns) ensures after[k] == before[k] {
      NamedByConcat(before[k], ms, ns);
    }
  }

  // ---------- Matching by enumeration order ----------

  /** Updating the first match in enumeration order, as the program does; None where it stops with fatalError. */
  ghost function UpdateFirst(ds: seq<LayoutData>, n: LayoutData): Option<seq<LayoutData>> {
    if Matched(n, ds) then
      var i := FirstMatch(ds, n);
      Some(ds[i := ds[i].(constant := n.constant)])
    else None
  }

  ghost function FirstMatch(ds: seq<LayoutData>, n: LayoutData): (i: nat)
    requires Matched(n, ds)
    ensures i < |ds| && SameShape(ds[i], n)
    ensures forall k :: 0 <= k < i ==> !SameShape(ds[k], n)
  {
    if SameShape(ds[0], n) then 0
    else
      assert Matched(n, ds[1..]) by {
        var k :| 0 <= k < |ds| && SameShape(ds[k], n);
        assert ds[1..][k - 1] == ds[k];
      }
      1 + FirstMatch(ds[1..], n)
  }

  ghost function UpdateFirstAll(ds: seq<LayoutData>, ns: seq<LayoutData>): Option<seq<LayoutData>> {
    if ns == [] then Some(ds)
    else
      match UpdateFirstAll(ds, ns[..|ns| - 1])
      case None => None
      case Some(ds') => UpdateFirst(ds', ns[|ns| - 1])
  }

  /** The update runs to the end exactly when every new layout constraint has a match, and it keeps all shapes. */
  lemma {:induction false} UpdateSucceeds(ds: seq<LayoutData>, ns: seq<LayoutData>)
    ensures UpdateFirstAll(ds, ns).Some? <==> Covers(ds, ns)
    ensures UpdateFirstAll(ds, ns).Some? ==>
              var ds' := UpdateFirstAll(ds, ns).value;
              |ds'| == |ds| && forall i :: 0 <= i < |ds| ==> SameShape(ds'[i], ds[i])
  {
    if ns == [] {
    } else {
      var last := |ns| - 1;
      UpdateSucceeds(ds, ns[..last]);
      assert Covers(ds, ns) <==> Covers(ds, ns[..last]) && Matched(ns[last], ds) by {
        assert forall j :: 0 <= j < last ==> ns[..last][j] == ns[j];
      }
      if UpdateFirstAll(ds, ns[..last]).Some? {
        SameShapesSameMatches(ds, UpdateFirstAll(ds, ns[..last]).value, ns[last]);
      }
    }
  }

  lemma SameShapesSameMatches(ds: seq<LayoutData>, es: seq<LayoutData>, n: LayoutData)
    requires |ds| == |es| && forall i :: 0 <= i < |ds| ==> SameShape(es[i], ds[i])
    ensures Matched(n, ds) <==> Matched(n, es)
  {
    if i :| 0 <= i < |ds| && SameShape(ds[i], n) { assert SameShape(es[i], n); }
    if i :| 0 <= i < |es| && SameShape(es[i], n) { assert SameShape(ds[i], n); }
  }

  /** An earlier layout constraint of the same shape takes every update meant for this one. */
  ghost predicate Shadowed(ds: seq<LayoutData>, i: nat)
    requires i < |ds|
  {
    exists k :: 0 <= k < i && SameShape(ds[k], ds[i])
  }

  /** The outcome of an update position by position, whatever is there twice. */
  ghost function Settled(ds: seq<LayoutData>, ns: seq<LayoutData>): (r: seq<LayoutData>)
    ensures |r| == |ds|
    ensures forall i :: 0 <= i < |ds| ==> r[i] == if Shadowed(ds, i) then ds[i] else Latest(ds[i], ns)
  {
    seq(|ds|, i requires 0 <= i < |ds| => if Shadowed(ds, i) then ds[i] else Latest(ds[i], ns))
  }

  lemma SettledKeepsShapes(ds: seq<LayoutData>, ns: seq<LayoutData>)
    ensures forall i :: 0 <= i < |ds| ==> SameShape(Settled(ds, ns)[i], ds[i])
  {
    forall i | 0 <= i < |ds| ensures SameShape(Settled(ds, ns)[i], ds[i]) { LatestKeepsShape(ds[i], ns); }
  }

  /** The first-match updates in closed form: each layout constraint that is not shadowed ends as Latest says. */
  lemma {:induction false} UpdateSettles(ds: seq<LayoutData>, ns: seq<LayoutData>)
    requires Covers(ds, ns)
    ensures UpdateFirstAll(ds, ns) == Some(Settled(ds, ns))
  {
    if ns == [] {
      assert Settled(ds, ns) == ds;
    } else {
      var last := |ns| - 1;
      assert forall j :: 0 <= j < last ==> ns[..last][j] == ns[j];
      UpdateSettles(ds, ns[..last]);
      var mid := Settled(ds, ns[..last]);
      SettledKeepsShapes(ds, ns[..last]);
      SameShapesSameMatches(ds, mid, ns[last]);
      SettledStep(ds, ns, mid, FirstMatch(mid, ns[last]));
    }
  }

  lemma SettledStep(ds: seq<LayoutData>, ns: seq<LayoutData>, mid: seq<LayoutData>, k: nat)
    requires ns != [] && mid == Settled(ds, ns[..|ns| - 1]) && k < |ds|
    requires forall i :: 0 <= i < |ds| ==> SameShape(mid[i], ds[i])
    requires SameShape(mid[k], ns[|ns| - 1]) && forall i :: 0 <= i < k ==> !SameShape(mid[i], ns[|ns| - 1])
    ensures Settled(ds, ns) == mid[k := mid[k].(constant := ns[|ns| - 1].constant)]
  {
    var last := |ns| - 1;
    forall i | 0 <= i < |ds|
      ensures Settled(ds, ns)[i] == if i == k then mid[k].(constant := ns[last].constant) else mid[i]
    {
      if i > k && SameShape(ds[i], ns[last]) {
        assert SameShape(ds[k], ds[i]);
      }
    }
  }

  /** However far the update gets, it leaves alone what no new layout constraint names. */
  lemma UnnamedStay(ds: seq<LayoutData>, ns: seq<LayoutData>, n: nat, i: nat)
    requires n <= |ns| && i < |ds| && UpdateFirstAll(ds, ns[..n]).Some? && !Named(ds[i], ns)
    ensures |UpdateFirstAll(ds, ns[..n]).value| == |ds| && UpdateFirstAll(ds, ns[..n]).value[i] == ds[i]
  {
    UpdateSucceeds(ds, ns[..n]);
    UpdateSettles(ds, ns[..n]);
    forall j | 0 <= j < n ensures !SameShape(ds[i], ns[..n][j]) { assert ns[..n][j] == ns[j]; }
    LatestUnmatched(ds[i], ns[..n]);
  }

  /** Running the whole update a second time in the same order changes nothing, whatever is there twice. */
  lemma UpdateTwiceIsOnce(ds: seq<LayoutData>, ns: seq<LayoutData>)
    requires Covers(ds, ns)
    ensures UpdateFirstAll(ds, ns).Some?
    ensures UpdateFirstAll(UpdateFirstAll(ds, ns).value, ns) == UpdateFirstAll(ds, ns)
  {
    UpdateSettles(ds, ns);
    var es := Settled(ds, ns);
    SettledKeepsShapes(ds, ns);
    forall j | 0 <= j < |ns| ensures Matched(ns[j], es) { SameShapesSameMatches(ds, es, ns[j]); }
    UpdateSettles(es, ns);
    forall i | 0 <= i < |ds| ensures Settled(es, ns)[i] == es[i] {
      ShadowsStay(ds, es, i);
      LatestIdempotent(ds[i], ns);
    }
    assert Settled(es, ns) == es;
  }

  /** In another order it may: the twin that comes first now was the second one before. */
  lemma TwinsDependOnOrder(d: LayoutData)
    ensures var a, b, n := d.(constant := 1.0), d.(constant := 2.0), d.(constant := 3.0);
            && UpdateFirstAll([a, b], [n]) == Some([n, b])
            && UpdateFirstAll([b, n], [n]) == Some([n, n])
            && multiset([n, n]) != multiset([n, b])
  {
    var a, b, n := d.(constant := 1.0), d.(constant := 2.0), d.(constant := 3.0);
    TwinsUpdate(a, b, n);
    TwinsUpdate(b, n, n);
    assert b in multiset([n, b]) && b !in multiset([n, n]);
  }

  lemma TwinsUpdate(a: LayoutData, b: LayoutData, n: LayoutData)
    requires SameShape(a, b) && SameShape(a, n)
    ensures UpdateFirstAll([a, b], [n]) == Some([a.(constant := n.constant), b])
  {
    assert Matched(n, [a, b]) by { assert SameShape([a, b][0], n); }
    assert [n][..0] == [] && UpdateFirstAll([a, b], []) == Some([a, b]);
    assert FirstMatch([a, b], n) == 0;
    assert UpdateFirst([a, b], n) == Some([a, b][0 := a.(constant := n.constant)]);
    assert [a, b][0 := a.(constant := n.constant)] == [a.(constant := n.constant), b];
  }

  lemma ShadowsStay(ds: seq<LayoutData>, es: seq<LayoutData>, i: nat)
    requires |ds| == |es| && i < |ds| && forall k :: 0 <= k < |ds| ==> SameShape(es[k], ds[k])
    ensures Shadowed(ds, i) <==> Shadowed(es, i)
  {
    if k :| 0 <= k < i && SameShape(ds[k], ds[i]) { assert SameShape(es[k], es[i]); }
    if k :| 0 <= k < i && SameShape(es[k], es[i]) { assert SameShape(ds[k], ds[i]); }
  }

  /**
   * The enumeration order matters only for named shapes that are there twice: without one each layout constraint
   * ends as Latest says, which mentions neither the order nor the other layout constraints.
   */
  lemma OrderIsIrrelevant(ds: seq<LayoutData>, ns: seq<LayoutData>)
    requires NamedOnce(ds, ns) && Covers(ds, ns)
    ensures UpdateFirstAll(ds, ns) == Some(LatestOfAll(ds, ns))
  {
    UpdateSettles(ds, ns);
    forall i | 0 <= i < |ds| ensures Settled(ds, ns)[i] == Latest(ds[i], ns) {
      if Shadowed(ds, i) {
        var k :| 0 <= k < i && SameShape(ds[k], ds[i]);
        NamedByShape(ds[k], ds[i], ns);
        LatestUnmatched(ds[i], ns);
      }
    }
    assert Settled(ds, ns) == LatestOfAll(ds, ns);
  }

  // ---------- Incremental update against rebuild ----------

  function Without<T>(s: seq<T>, i: nat): seq<T>
    requires i < |s|
  {
    s[..i] + s[i + 1..]
  }

  lemma WithoutMultiset<T>(s: seq<T>, i: nat)
    requires i < |s|
    ensures multiset(s) == multiset(Without(s, i)) + multiset{s[i]}
  {
    assert s == s[..i] + [s[i]] + s[i + 1..];
  }

  lemma WithoutIndex<T>(s: seq<T>, i: nat, k: nat)
    requires i < |s| && k < |s| - 1
    ensures Without(s, i)[k] == s[if k < i then k else k + 1]
  {
  }

  /** Taking a matched pair out of both sides leaves a smaller instance of the same situation. */
  lemma PairRemoved(ds: seq<LayoutData>, ns: seq<LayoutData>, i: nat)
    requires Distinct(ds) && Distinct(ns) && Covers(ds, ns)
    requires ns != [] && i < |ds| && SameShape(ds[i], ns[|ns| - 1])
    ensures var ds', ns' := Without(ds, i), ns[..|ns| - 1];
            && Distinct(ds') && Distinct(ns') && Covers(ds', ns')
            && LatestOfAll(ds', ns') == Without(LatestOfAll(ds, ns), i)
  {
    var last := |ns| - 1;
    var ds', ns' := Without(ds, i), ns[..last];
    forall k | 0 <= k < |ds'| ensures ds'[k] == ds[if k < i then k else k + 1] {
      WithoutIndex(ds, i, k);
    }
    forall j | 0 <= j < |ns'| ensures Matched(ns'[j], ds') {
      assert Matched(ns[j], ds);
      var k :| 0 <= k < |ds| && SameShape(ds[k], ns[j]);
      assert !SameShape(ns[j], ns[last]);
      assert ds'[if k < i then k else k - 1] == ds[k];
    }
    forall k | 0 <= k < |ds'| ensures Latest(ds'[k], ns') == Latest(ds[if k < i then k else k + 1], ns) {
      assert !SameShape(ds'[k], ns[last]);
    }
  }

  lemma {:induction false} UpdateReachesRebuild(ds: seq<LayoutData>, ns: seq<LayoutData>)
    requires Distinct(ds) && Distinct(ns) && Covers(ds, ns) && |ds| == |ns|
    ensures multiset(LatestOfAll(ds, ns)) == multiset(ns)
  {
    if ns == [] {
    } else {
      var last := |ns| - 1;
      assert Matched(ns[last], ds);
      var i :| 0 <= i < |ds| && SameShape(ds[i], ns[last]);
      PairRemoved(ds, ns, i);
      UpdateReachesRebuild(Without(ds, i), ns[..last]);
      WithoutMultiset(LatestOfAll(ds, ns), i);
      assert ns == ns[..last] + [ns[last]];
    }
  }

  lemma WithoutEqual<T>(xs: seq<T>, ns: seq<T>, k: nat, i: nat)
    requires multiset(xs) == multiset(ns) && k < |xs| && i < |ns| && xs[k] == ns[i]
    ensures multiset(Without(xs, k)) == multiset(Without(ns, i))
  {
    WithoutMultiset(xs, k);
    WithoutMultiset(ns, i);
    assert multiset(Without(xs, k)) == multiset(xs) - multiset{xs[k]};
  }

  /** Two positions of a sequence have two different positions in any permutation of it. */
  lemma TwoInPermutation<T>(xs: seq<T>, ns: seq<T>, i: nat, j: nat) returns (k: nat, l: nat)
    requires multiset(xs) == multiset(ns) && i < j < |ns|
    ensures k < |xs| && l < |xs| && k != l && xs[k] == ns[i] && xs[l] == ns[j]
  {
    assert ns[i] in multiset(xs);
    k :| 0 <= k < |xs| && xs[k] == ns[i];
    WithoutEqual(xs, ns, k, i);
    assert Without(ns, i)[j - 1] == ns[j];
    assert ns[j] in multiset(Without(ns, i));
    var m :| 0 <= m < |xs| - 1 && Without(xs, k)[m] == ns[j];
    WithoutIndex(xs, k, m);
    l := if m < k then m else m + 1;
  }

  lemma DistinctIsPermutable(xs: seq<LayoutData>, ns: seq<LayoutData>)
    requires Distinct(xs) && multiset(xs) == multiset(ns)
    ensures Distinct(ns)
  {
    forall i, j | 0 <= i < j < |ns| ensures !SameShape(ns[i], ns[j]) {
      var k, l := TwoInPermutation(xs, ns, i, j);
    }
  }

  /**
   * When the existing layout constraints are pairwise non-`==` and every new one finds a match, the incremental update
   * ends with exactly the layout constraints a rebuild would install, if and only if the new ones are pairwise non-`==`
   * as well and there are as many of them as there are existing ones.
   */
  lemma UpdateRefinesRebuild(ds: seq<LayoutData>, ns: seq<LayoutData>)
    requires Distinct(ds) && Covers(ds, ns)
    ensures multiset(LatestOfAll(ds, ns)) == multiset(ns) <==> Distinct(ns) && |ds| == |ns|
  {
    var xs := LatestOfAll(ds, ns);
    if multiset(xs) == multiset(ns) {
      assert |multiset(xs)| == |xs| && |multiset(ns)| == |ns|;
      LatestIsDistinct(ds, ns);
      DistinctIsPermutable(xs, ns);
    } else if Distinct(ns) && |ds| == |ns| {
      UpdateReachesRebuild(ds, ns);
    }
  }

  /** A sequence without two entries of one shape is determined by its shapes and its entries. */
  lemma ShapesPlaceEntries(ns: seq<LayoutData>, ms: seq<LayoutData>)
    requires Distinct(ms) && |ns| == |ms| && forall i :: 0 <= i < |ns| ==> SameShape(ns[i], ms[i])
    requires multiset(ns) == multiset(ms)
    ensures ns == ms
  {
    forall i | 0 <= i < |ns| ensures ns[i] == ms[i] {
      assert ns[i] in multiset(ms);
      var j :| 0 <= j < |ms| && ms[j] == ns[i];
      assert i == j;
    }
  }

  /**
   * The update with ns reaches ms, which has the same shapes, if and only if ms is pairwise non-`==`, as long as the
   * existing layout constraints, and no constant of ns differs from its counterpart in ms.
   */
  lemma UpdateReaches(ds: seq<LayoutData>, ns: seq<LayoutData>, ms: seq<LayoutData>)
    requires Distinct(ds) && Covers(ds, ns)
    requires |ns| == |ms| && forall i :: 0 <= i < |ns| ==> SameShape(ns[i], ms[i])
    ensures multiset(LatestOfAll(ds, ns)) == multiset(ms) <==> Distinct(ms) && |ds| == |ms| && ns == ms
  {
    var xs := LatestOfAll(ds, ns);
    UpdateRefinesRebuild(ds, ns);
    if multiset(xs) == multiset(ms) {
      assert |multiset(xs)| == |xs| && |multiset(ms)| == |ms|;
      LatestIsDistinct(ds, ns);
      DistinctIsPermutable(xs, ms);
      assert Distinct(ns) by {
        forall i, j | 0 <= i < j < |ns| ensures !SameShape(ns[i], ns[j]) { assert !SameShape(ms[i], ms[j]); }
      }
      ShapesPlaceEntries(ns, ms);
    }
  }

  lemma LatestIsDistinct(ds: seq<LayoutData>, ns: seq<LayoutData>)
    requires Distinct(ds)
    ensures Distinct(LatestOfAll(ds, ns))
  {
    forall i, j | 0 <= i < j < |ds| ensures !SameShape(Latest(ds[i], ns), Latest(ds[j], ns)) {
      LatestKeepsShape(ds[i], ns);
      LatestKeepsShape(ds[j], ns);
      assert !SameShape(ds[i], ds[j]);
    }
  }
}
