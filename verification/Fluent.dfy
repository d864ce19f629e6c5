/** What a chain of fluent calls asks for, read off the calls: which ones count, and which ones stop the program. */
module Fluent {
  import opened AttributeLists
  import opened Compiler
  import opened ConstantTargets
  import opened Drafts
  import opened Options

  // ---------- The calls that set each field ----------

  datatype Kind = Joining | Relating | Scaling | Shifting | Ranking | Reading

  predicate Is(e: Edit, kind: Kind) {
    match kind
    case Joining => e.And?
    case Relating => e.RelateTo? || e.RelateToSuperview?
    case Scaling => e.MultiplyBy? || e.DivideBy?
    case Shifting => e.RelateTo? || e.RelateToSuperview? || e.Offset? || e.Inset?
    case Ranking => e.Priority?
    case Reading => e.ReadConstraint?
  }

  /** The j-th call is the last one of its kind. */
  ghost predicate LastAt(es: seq<Edit>, kind: Kind, j: nat) {
    j < |es| && Is(es[j], kind) && forall k :: j < k < |es| ==> !Is(es[k], kind)
  }

  ghost predicate Without(es: seq<Edit>, kind: Kind) {
    forall j :: 0 <= j < |es| ==> !Is(es[j], kind)
  }

  lemma {:induction false} LastExists(es: seq<Edit>, kind: Kind) returns (j: nat)
    ensures Without(es, kind) || LastAt(es, kind, j)
  {
    j := 0;
    if es != [] {
      var last := |es| - 1;
      if Is(es[last], kind) {
        j := last;
      } else {
        j := LastExists(es[..last], kind);
      }
    }
  }

  /** Adding a call makes it the last of its kind, and keeps the last ones of other kinds. */
  lemma LastOfMore(es: seq<Edit>, kind: Kind)
    requires es != []
    ensures var last, front := |es| - 1, es[..|es| - 1];
            && (Is(es[last], kind) ==> !Without(es, kind) && forall j: nat :: LastAt(es, kind, j) ==> j == last)
            && (!Is(es[last], kind) ==>
                  && (Without(es, kind) <==> Without(front, kind))
                  && forall j: nat :: LastAt(es, kind, j) ==> LastAt(front, kind, j) && es[j] == front[j])
  {
    var last, front := |es| - 1, es[..|es| - 1];
    if !Is(es[last], kind) {
      if Without(front, kind) {
        forall j | 0 <= j < |es| ensures !Is(es[j], kind) { assert j < last ==> es[j] == front[j]; }
      }
      forall j: nat | LastAt(es, kind, j) ensures LastAt(front, kind, j) {
        assert j != last;
      }
    }
  }

  /** The attributes a chain names: its getter's, and those of every getter called on it. */
  ghost function Mentioned(first: AttributeSet, es: seq<Edit>): AttributeSet {
    set a | a in ALL && a != NotAnAttribute && (a in first || Names(es, a))
  }

  ghost predicate Names(es: seq<Edit>, a: LayoutAttribute) {
    exists j :: 0 <= j < |es| && Is(es[j], Joining) && a in es[j].attributes
  }

  /** The target and the attributes on the right-hand side that a relating call asks for. */
  predicate TargetOf(e: Edit, superview: object?, target: object?, mask: AttributeSet)
    requires Is(e, Relating)
  {
    match e
    case RelateToSuperview(_) => target == superview && mask == NONE
    case RelateTo(_, ItemTarget(item, attributes)) => target == item && mask == attributes
    case RelateTo(_, ViewTarget(view)) => target == view && mask == NONE
    case RelateTo(_, GuideTarget(guide)) => target == guide && mask == NONE
    case RelateTo(_, ConstantOperand(_)) => target == null && mask == NONE
    case RelateTo(_, Unrelatable) => false
  }

  /** The constant a call leaves: that of a constant operand, else none for a new relation, the offset or the insets. */
  predicate ConstantOf(e: Edit, k: ConstantTarget)
    requires Is(e, Shifting)
  {
    match e
    case RelateTo(_, ConstantOperand(c)) => k == c
    case RelateTo(_, _) => k == Scalar(0.0)
    case RelateToSuperview(_) => k == Scalar(0.0)
    case Offset(amount) => k == Scalar(amount)
    case Inset(t) => HasSides(k, t)
  }

  ghost predicate ScaledBy(es: seq<Edit>, multiplier: real) {
    && (Without(es, Scaling) ==> multiplier == 1.0)
    && forall j: nat :: LastAt(es, Scaling, j) ==>
         multiplier == if es[j].MultiplyBy? then es[j].factor else 1.0 / es[j].divisor
  }

  ghost predicate ShiftedBy(es: seq<Edit>, constant: ConstantTarget) {
    && (Without(es, Shifting) ==> constant == Scalar(0.0))
    && forall j: nat :: LastAt(es, Shifting, j) ==> ConstantOf(es[j], constant)
  }

  ghost predicate RankedBy(es: seq<Edit>, priority: real) {
    && (Without(es, Ranking) ==> priority == 1000.0)
    && forall j: nat :: LastAt(es, Ranking, j) ==> priority == es[j].priority
  }

  /** The fields that every chain sets, related or not, each by the last call of its kind or else by default. */
  ghost predicate Fields(first: AttributeSet, es: seq<Edit>, mask: AttributeSet, multiplier: real,
                         constant: ConstantTarget, priority: real) {
    mask == Mentioned(first, es) && ScaledBy(es, multiplier) && ShiftedBy(es, constant) && RankedBy(es, priority)
  }

  /** The right-hand side is the last relating call's. */
  ghost predicate RelatedBy(es: seq<Edit>, superview: object?, relation: Relation, target: object?,
                            mask: AttributeSet) {
    forall j: nat :: LastAt(es, Relating, j) ==> relation == es[j].relation && TargetOf(es[j], superview, target, mask)
  }

  /** What calls that count ask for. */
  ghost predicate Asks(from: object, superview: object?, first: AttributeSet, es: seq<Edit>, r: Request) {
    && r.from == from && r.superview == superview
    && !Without(es, Relating)
    && RelatedBy(es, superview, r.relation, r.toTarget, r.toMask)
    && Fields(first, es, r.fromMask, r.multiplier, r.constant, r.priority)
  }

  /** That is one request and no other. */
  lemma AsksForOne(from: object, superview: object?, first: AttributeSet, es: seq<Edit>, r: Request, s: Request)
    requires Asks(from, superview, first, es, r) && Asks(from, superview, first, es, s)
    ensures r == s
  {
    var _ := LastExists(es, Relating);
    var _ := LastExists(es, Scaling);
    var _ := LastExists(es, Shifting);
    var _ := LastExists(es, Ranking);
  }

  // ---------- Which calls stop the program ----------

  /** What can stand on the right-hand side of a chain, by the ascending lists of the attributes of both. */
  predicate Comparable(ours: seq<LayoutAttribute>, theirs: seq<LayoutAttribute>) {
    || |theirs| <= 1
    || theirs == ours
    || (ours == [Left, Top, Right, Bottom] && theirs == [LeftMargin, RightMargin, TopMargin, BottomMargin])
    || (ours == [LeftMargin, RightMargin, TopMargin, BottomMargin] && theirs == [Left, Top, Right, Bottom])
    || (ours == [Top, Bottom, Leading, Trailing]
        && theirs == [TopMargin, BottomMargin, LeadingMargin, TrailingMargin])
    || (ours == [TopMargin, BottomMargin, LeadingMargin, TrailingMargin]
        && theirs == [Top, Bottom, Leading, Trailing])
  }

  lemma GuardInWords(ours: AttributeSet, theirs: AttributeSet)
    ensures GuardAccepts(ours, theirs) <==> Comparable(Listed(ours), Listed(theirs))
  {
    EdgeList();
    MarginList();
    DirectionalEdgeList();
    DirectionalMarginList();
    ListHasSize(Listed(theirs), theirs);
    OppositeCases(ours, theirs);
    SameListSameSet(ours, theirs);
    SameListSameSet(ours, EDGES);
    SameListSameSet(ours, MARGINS);
    SameListSameSet(ours, DIRECTIONAL_EDGES);
    SameListSameSet(ours, DIRECTIONAL_MARGINS);
    SameListSameSet(theirs, EDGES);
    SameListSameSet(theirs, MARGINS);
    SameListSameSet(theirs, DIRECTIONAL_EDGES);
    SameListSameSet(theirs, DIRECTIONAL_MARGINS);
  }

  /** A call goes through after the given ones. */
  ghost predicate Goes(superview: object?, first: AttributeSet, before: seq<Edit>, e: Edit) {
    match e
    case RelateTo(_, ItemTarget(_, theirs)) => Comparable(Listed(Mentioned(first, before)), Listed(theirs))
    case RelateTo(_, Unrelatable) => false
    case RelateToSuperview(_) => superview != null
    case ReadConstraint => !Without(before, Relating)
    case _ => true
  }

  ghost predicate AllGo(superview: object?, first: AttributeSet, es: seq<Edit>) {
    forall j :: 0 <= j < |es| ==> Goes(superview, first, es[..j], es[j])
  }

  // ---------- Chains ----------

  /** The state after a chain: its fields, and what it had asked for when it was first read. */
  ghost predicate Tells(from: object, superview: object?, first: AttributeSet, es: seq<Edit>, p: Progress) {
    && Fields(first, es, p.draft.attributes, p.draft.multiplier, p.draft.constant, p.draft.priority)
    && RelatedAs(es, superview, p.draft.related)
    && Remembers(from, superview, first, es, p.memo)
  }

  /** The memoised request is what the calls before the first read asked for. */
  ghost predicate Remembers(from: object, superview: object?, first: AttributeSet, es: seq<Edit>,
                            memo: Option<Option<Request>>) {
    if Before(es) == |es| then memo.None?
    else memo.Some? && memo.value.Some? && Asks(from, superview, first, es[..Before(es)], memo.value.value)
  }

  /** How many calls come before the first one that reads the constraint: all of them if none does. */
  ghost function Before(es: seq<Edit>): (n: nat)
    ensures n <= |es| && Without(es[..n], Reading)
    ensures n < |es| ==> Is(es[n], Reading)
  {
    if es == [] then 0
    else
      var last, front := |es| - 1, es[..|es| - 1];
      var n := Before(front);
      assert es[..n] == front[..n];
      if n < last || Is(es[last], Reading) then n else |es|
  }

  lemma FieldsBegin(first: AttributeSet)
    ensures Fields(first, [], first, 1.0, Scalar(0.0), 1000.0)
  {
    AllIsComplete();
  }

  lemma MentionedStep(first: AttributeSet, es: seq<Edit>)
    requires es != []
    ensures var e, front := es[|es| - 1], es[..|es| - 1];
            Mentioned(first, es) == Mentioned(first, front) + if Is(e, Joining) then e.attributes else NONE
  {
    var e, front := es[|es| - 1], es[..|es| - 1];
    AllIsComplete();
    forall a ensures Names(es, a) <==> Names(front, a) || (Is(e, Joining) && a in e.attributes) {
      if Names(front, a) {
        var j :| 0 <= j < |front| && Is(front[j], Joining) && a in front[j].attributes;
        assert es[j] == front[j];
      }
      if Names(es, a) {
        var j :| 0 <= j < |es| && Is(es[j], Joining) && a in es[j].attributes;
        assert j < |front| ==> es[j] == front[j];
      }
    }
  }

  lemma ScaledStep(es: seq<Edit>, m: real, n: real)
    requires es != [] && ScaledBy(es[..|es| - 1], m)
    requires match es[|es| - 1]
             case MultiplyBy(factor) => n == factor
             case DivideBy(divisor) => n == 1.0 / divisor
             case _ => n == m
    ensures ScaledBy(es, n)
  {
    LastOfMore(es, Scaling);
  }

  lemma ShiftedStep(es: seq<Edit>, k: ConstantTarget, l: ConstantTarget)
    requires es != [] && ShiftedBy(es[..|es| - 1], k)
    requires if Is(es[|es| - 1], Shifting) then ConstantOf(es[|es| - 1], l) else l == k
    ensures ShiftedBy(es, l)
  {
    LastOfMore(es, Shifting);
  }

  lemma RankedStep(es: seq<Edit>, p: real, q: real)
    requires es != [] && RankedBy(es[..|es| - 1], p)
    requires q == if es[|es| - 1].Priority? then es[|es| - 1].priority else p
    ensures RankedBy(es, q)
  {
    LastOfMore(es, Ranking);
  }

  /** One more call that goes through leaves the fields as the longer chain asks. */
  lemma FieldsStep(from: object, superview: object?, first: AttributeSet, es: seq<Edit>, p: Progress)
    requires es != [] && Perform(from, superview, p, es[|es| - 1]).Some?
    requires var d := p.draft; Fields(first, es[..|es| - 1], d.attributes, d.multiplier, d.constant, d.priority)
    ensures var d := Perform(from, superview, p, es[|es| - 1]).value.draft;
            Fields(first, es, d.attributes, d.multiplier, d.constant, d.priority)
  {
    var d := Perform(from, superview, p, es[|es| - 1]).value.draft;
    MentionedStep(first, es);
    ScaledStep(es, p.draft.multiplier, d.multiplier);
    ShiftedStep(es, p.draft.constant, d.constant);
    RankedStep(es, p.draft.priority, d.priority);
  }

  ghost predicate RelatedAs(es: seq<Edit>, superview: object?, related: Option<Related>) {
    match related
    case None => Without(es, Relating)
    case Some(r) => !Without(es, Relating) && RelatedBy(es, superview, r.relation, r.target, r.attributes)
  }

  lemma RelatedKept(superview: object?, es: seq<Edit>, related: Option<Related>)
    requires es != [] && !Is(es[|es| - 1], Relating) && RelatedAs(es[..|es| - 1], superview, related)
    ensures RelatedAs(es, superview, related)
  {
    LastOfMore(es, Relating);
  }

  lemma RelatedAnew(superview: object?, es: seq<Edit>, r: Related)
    requires es != [] && Is(es[|es| - 1], Relating) && r.relation == es[|es| - 1].relation
    requires TargetOf(es[|es| - 1], superview, r.target, r.attributes)
    ensures RelatedAs(es, superview, Some(r))
  {
    LastOfMore(es, Relating);
  }

  lemma RelatedStep(superview: object?, es: seq<Edit>, p: Progress, from: object)
    requires es != [] && RelatedAs(es[..|es| - 1], superview, p.draft.related)
    requires Perform(from, superview, p, es[|es| - 1]).Some?
    ensures RelatedAs(es, superview, Perform(from, superview, p, es[|es| - 1]).value.draft.related)
  {
    var related := Perform(from, superview, p, es[|es| - 1]).value.draft.related;
    if Is(es[|es| - 1], Relating) {
      RelatedAnew(superview, es, related.value);
    } else {
      RelatedKept(superview, es, related);
    }
  }

  /** What a related description asks for is what its calls ask for. */
  lemma TellsAsks(from: object, superview: object?, first: AttributeSet, es: seq<Edit>, p: Progress)
    requires Tells(from, superview, first, es, p) && p.draft.related.Some?
    ensures RequestOf(from, superview, p.draft).Some?
    ensures Asks(from, superview, first, es, RequestOf(from, superview, p.draft).value)
  {
  }

  lemma RemembersKept(from: object, superview: object?, first: AttributeSet, es: seq<Edit>, n: nat, r: Request)
    requires es != [] && n == Before(es[..|es| - 1]) < |es| - 1
    requires Remembers(from, superview, first, es[..|es| - 1], Some(Some(r)))
    ensures Remembers(from, superview, first, es, Some(Some(r)))
  {
    assert es[..n] == es[..|es| - 1][..n];
    assert Before(es) == n;
  }

  lemma RemembersFirst(from: object, superview: object?, first: AttributeSet, es: seq<Edit>, r: Request)
    requires es != [] && Before(es[..|es| - 1]) == |es| - 1 && Is(es[|es| - 1], Reading)
    requires Asks(from, superview, first, es[..|es| - 1], r)
    ensures Remembers(from, superview, first, es, Some(Some(r)))
  {
    assert Before(es) == |es| - 1;
  }

  lemma RemembersStep(from: object, superview: object?, first: AttributeSet, es: seq<Edit>, p: Progress)
    requires es != [] && Tells(from, superview, first, es[..|es| - 1], p)
    requires Perform(from, superview, p, es[|es| - 1]).Some?
    ensures Remembers(from, superview, first, es, Perform(from, superview, p, es[|es| - 1]).value.memo)
  {
    var last, front := |es| - 1, es[..|es| - 1];
    if Before(front) < last {
      RemembersKept(from, superview, first, es, Before(front), p.memo.value.value);
    } else if Is(es[last], Reading) {
      TellsAsks(from, superview, first, front, p);
      RemembersFirst(from, superview, first, es, RequestOf(from, superview, p.draft).value);
    }
  }

  /** One more call: it goes through exactly as foretold, and the state tells of it. */
  lemma TellsStep(from: object, superview: object?, first: AttributeSet, es: seq<Edit>, p: Progress)
    requires es != [] && Tells(from, superview, first, es[..|es| - 1], p)
    ensures var e, front := es[|es| - 1], es[..|es| - 1];
            && (Perform(from, superview, p, e).Some? <==> Goes(superview, first, front, e))
            && (Perform(from, superview, p, e).Some? ==>
                  Tells(from, superview, first, es, Perform(from, superview, p, e).value))
  {
    var e, front := es[|es| - 1], es[..|es| - 1];
    GoesExactly(from, superview, first, front, p, e);
    if Perform(from, superview, p, e).Some? {
      FieldsStep(from, superview, first, es, p);
      RelatedStep(superview, es, p, from);
      RemembersStep(from, superview, first, es, p);
    }
  }

  lemma GoesExactly(from: object, superview: object?, first: AttributeSet, before: seq<Edit>, p: Progress, e: Edit)
    requires Tells(from, superview, first, before, p)
    ensures Perform(from, superview, p, e).Some? <==> Goes(superview, first, before, e)
  {
    match e
    case RelateTo(_, ItemTarget(_, theirs)) => GuardInWords(p.draft.attributes, theirs);
    case ReadConstraint =>
      if p.memo.Some? {
        var k := LastExists(before[..Before(before)], Relating);
        assert Is(before[k], Relating);
      }
    case _ =>
  }

  lemma AllGoStep(superview: object?, first: AttributeSet, es: seq<Edit>)
    requires es != []
    ensures var last, front := |es| - 1, es[..|es| - 1];
            AllGo(superview, first, es) <==> AllGo(superview, first, front) && Goes(superview, first, front, es[last])
  {
    var last, front := |es| - 1, es[..|es| - 1];
    forall j | 0 <= j < last
      ensures Goes(superview, first, es[..j], es[j]) == Goes(superview, first, front[..j], front[j])
    {
      assert es[..j] == front[..j];
    }
  }

  /**
   * A chain of calls, read off the calls alone: it goes through exactly when each call goes after the ones before it,
   * and then every field is the last call's of its kind.
   */
  lemma {:induction false} ChainTells(from: object, superview: object?, first: AttributeSet, es: seq<Edit>)
    ensures var run := PerformAll(from, superview, Progress(Fresh(first), None), es);
            && (run.Some? <==> AllGo(superview, first, es))
            && (run.Some? ==> Tells(from, superview, first, es, run.value))
  {
    if es == [] {
      FieldsBegin(first);
    } else {
      var last, front := |es| - 1, es[..|es| - 1];
      ChainTells(from, superview, first, front);
      AllGoStep(superview, first, es);
      var before := PerformAll(from, superview, Progress(Fresh(first), None), front);
      if before.Some? { TellsStep(from, superview, first, es, before.value); }
    }
  }

  // ---------- Closures ----------

  /** What a clause that has run installs: what its calls before the first read ask for. */
  ghost predicate ClauseAsks(from: object, superview: object?, c: Clause, r: Request) {
    Asks(from, superview, c.first, c.edits[..Before(c.edits)], r)
  }

  /** A closure runs exactly when every call in every clause goes. */
  lemma RunsInWords(from: object, superview: object?, closure: seq<Clause>)
    ensures Runs(from, superview, closure)
        <==> forall i :: 0 <= i < |closure| ==> AllGo(superview, closure[i].first, closure[i].edits)
  {
    forall i | 0 <= i < |closure|
      ensures RunClause(from, superview, closure[i]).Some? <==> AllGo(superview, closure[i].first, closure[i].edits)
    {
      ChainTells(from, superview, closure[i].first, closure[i].edits);
    }
  }

  lemma ReadTells(from: object, superview: object?, c: Clause)
    requires RunClause(from, superview, c).Some?
    ensures var memo := Read(from, superview, RunClause(from, superview, c).value).memo;
            && memo.Some?
            && (memo.value.Some? <==> !Without(c.edits, Relating))
            && (memo.value.Some? ==> ClauseAsks(from, superview, c, memo.value.value))
  {
    ChainTells(from, superview, c.first, c.edits);
    var p := RunClause(from, superview, c).value;
    if p.memo.None? {
      if p.draft.related.Some? {
        TellsAsks(from, superview, c.first, c.edits, p);
        assert c.edits[..|c.edits|] == c.edits;
      }
    } else {
      var k := LastExists(c.edits[..Before(c.edits)], Relating);
      assert Is(c.edits[k], Relating);
    }
  }

  /** The positions of the clauses that relate to something, in the order of the closure. */
  ghost predicate RelatingAt(closure: seq<Clause>, at: seq<nat>) {
    && (forall i :: 0 <= i < |at| ==> at[i] < |closure|)
    && (forall i, j :: 0 <= i < j < |at| ==> at[i] < at[j])
    && forall m :: 0 <= m < |closure| ==> (m in at <==> !Without(closure[m].edits, Relating))
  }

  /** The requests are what the clauses at the given positions ask for. */
  ghost predicate AskedAt(from: object, superview: object?, closure: seq<Clause>, at: seq<nat>, rs: seq<Request>) {
    && |at| == |rs|
    && forall i :: 0 <= i < |at| ==> at[i] < |closure| && ClauseAsks(from, superview, closure[at[i]], rs[i])
  }

  lemma RelatingAtMore(closure: seq<Clause>, at: seq<nat>)
    requires closure != [] && RelatingAt(closure[..|closure| - 1], at)
    ensures var last := |closure| - 1;
            RelatingAt(closure, at + if Without(closure[last].edits, Relating) then [] else [last])
  {
    var last, front := |closure| - 1, closure[..|closure| - 1];
    assert last !in at;
    forall m | 0 <= m < last ensures closure[m] == front[m] {}
    assert forall m :: m in at + [last] <==> m in at || m == last;
  }

  lemma AskedAtMore(from: object, superview: object?, closure: seq<Clause>, at: seq<nat>, rs: seq<Request>,
                    last: nat, r: Option<Request>)
    requires last + 1 == |closure| && AskedAt(from, superview, closure[..last], at, rs)
    requires r.Some? ==> ClauseAsks(from, superview, closure[last], r.value)
    ensures AskedAt(from, superview, closure, at + (if r.Some? then [last] else []),
                    rs + if r.Some? then [r.value] else [])
  {
    forall i | 0 <= i < |at| ensures at[i] < |closure| && closure[at[i]] == closure[..last][at[i]] {}
  }

  /** The request of the last clause, if it has one. */
  lemma LastInWords(from: object, superview: object?, closure: seq<Clause>) returns (r: Option<Request>)
    requires closure != [] && Runs(from, superview, closure)
    ensures r.Some? <==> !Without(closure[|closure| - 1].edits, Relating)
    ensures r.Some? ==> ClauseAsks(from, superview, closure[|closure| - 1], r.value)
    ensures Requests(from, superview, closure)
         == Requests(from, superview, closure[..|closure| - 1]) + if r.Some? then [r.value] else []
  {
    var last := closure[|closure| - 1];
    ReadTells(from, superview, last);
    r := Read(from, superview, RunClause(from, superview, last).value).memo.value;
  }

  lemma OneMoreInWords(from: object, superview: object?, closure: seq<Clause>, at: seq<nat>) returns (at': seq<nat>)
    requires closure != [] && Runs(from, superview, closure) && RelatingAt(closure[..|closure| - 1], at)
    requires AskedAt(from, superview, closure[..|closure| - 1], at, Requests(from, superview, closure[..|closure| - 1]))
    ensures RelatingAt(closure, at') && AskedAt(from, superview, closure, at', Requests(from, superview, closure))
  {
    var r := LastInWords(from, superview, closure);
    RelatingAtMore(closure, at);
    AskedAtMore(from, superview, closure, at, Requests(from, superview, closure[..|closure| - 1]), |closure| - 1, r);
    at' := at + if r.Some? then [|closure| - 1] else [];
  }

  /** The requests of a closure are what its relating clauses ask for, one each, in the order of the clauses. */
  lemma {:induction false} RequestsInWords(from: object, superview: object?, closure: seq<Clause>)
      returns (at: seq<nat>)
    requires Runs(from, superview, closure)
    ensures RelatingAt(closure, at) && AskedAt(from, superview, closure, at, Requests(from, superview, closure))
  {
    at := [];
    if closure != [] {
      at := RequestsInWords(from, superview, closure[..|closure| - 1]);
      at := OneMoreInWords(from, superview, closure, at);
    }
  }
}
