/** Layout attributes, sets of them, and the ascending lists the compiler walks. */
module AttributeLists {

  /** UIKit's NSLayoutConstraint.Attribute, the iOS cases. */
  datatype LayoutAttribute =
    | NotAnAttribute
    | Left | Top | Right | Bottom | Leading | Trailing | Width | Height | CenterX | CenterY
    | LastBaseline | FirstBaseline
    | LeftMargin | RightMargin | TopMargin | BottomMargin | LeadingMargin | TrailingMargin
    | CenterXWithinMargins | CenterYWithinMargins

  /** The value of an attribute mask; module ConstraintAttributes ties it to the raw bits. */
  type AttributeSet = s: set<LayoutAttribute> | NotAnAttribute !in s

  const NONE: AttributeSet := {}
  const EDGES: AttributeSet := {Left, Top, Right, Bottom}
  const DIRECTIONAL_EDGES: AttributeSet := {Top, Bottom, Leading, Trailing}
  const SIZE: AttributeSet := {Width, Height}
  const CENTER: AttributeSet := {CenterX, CenterY}
  const MARGINS: AttributeSet := {LeftMargin, RightMargin, TopMargin, BottomMargin}
  const DIRECTIONAL_MARGINS: AttributeSet := {TopMargin, BottomMargin, LeadingMargin, TrailingMargin}

  /** Position of an attribute in ascending bit order, from 1; notAnAttribute is 0. */
  function Rank(a: LayoutAttribute): nat {
    match a
    case NotAnAttribute => 0
    case Left => 1
    case Top => 2
    case Right => 3
    case Bottom => 4
    case Leading => 5
    case Trailing => 6
    case Width => 7
    case Height => 8
    case CenterX => 9
    case CenterY => 10
    case LastBaseline => 11
    case FirstBaseline => 12
    case LeftMargin => 13
    case RightMargin => 14
    case TopMargin => 15
    case BottomMargin => 16
    case LeadingMargin => 17
    case TrailingMargin => 18
    case CenterXWithinMargins => 19
    case CenterYWithinMargins => 20
  }

  /** Every attribute, in ascending bit order. */
  const ALL: seq<LayoutAttribute> :=
    [Left, Top, Right, Bottom, Leading, Trailing, Width, Height, CenterX, CenterY, LastBaseline, FirstBaseline,
     LeftMargin, RightMargin, TopMargin, BottomMargin, LeadingMargin, TrailingMargin,
     CenterXWithinMargins, CenterYWithinMargins]

  lemma AllIsComplete()
    ensures Ascending(ALL)
    ensures forall a :: a in ALL <==> a != NotAnAttribute
  {
    forall a | a != NotAnAttribute ensures a in ALL {
      assert 1 <= Rank(a) <= 20 && ALL[Rank(a) - 1] == a;
    }
    forall i | 0 <= i < |ALL| ensures ALL[i] != NotAnAttribute && Rank(ALL[i]) == i + 1 {
    }
  }

  lemma AtItsRank(a: LayoutAttribute)
    requires a != NotAnAttribute
    ensures 1 <= Rank(a) <= |ALL| && ALL[Rank(a) - 1] == a
  {
  }

  lemma RankInjective(a: LayoutAttribute, b: LayoutAttribute)
    ensures Rank(a) == Rank(b) <==> a == b
  {
  }

  // ---------- Ascending lists ----------

  ghost predicate Ascending(s: seq<LayoutAttribute>) {
    && (forall i :: 0 <= i < |s| ==> s[i] != NotAnAttribute)
    && (forall i, j :: 0 <= i < j < |s| ==> Rank(s[i]) < Rank(s[j]))
  }

  lemma {:induction false} AscendingUnique(s: seq<LayoutAttribute>, t: seq<LayoutAttribute>)
    requires Ascending(s) && Ascending(t)
    requires forall a :: a in s <==> a in t
    ensures s == t
  {
    assert s == [] || s[0] in t;
    assert t == [] || t[0] in s;
    if s == [] {
    } else {
      RankInjective(s[0], t[0]);
      assert s[0] == t[0];
      forall a ensures a in s[1..] <==> a in t[1..] {
        TailMembers(s, a);
        TailMembers(t, a);
      }
      AscendingUnique(s[1..], t[1..]);
    }
  }

  lemma TailMembers(s: seq<LayoutAttribute>, a: LayoutAttribute)
    requires Ascending(s) && s != []
    ensures a in s[1..] <==> a in s && a != s[0]
  {
    assert s == [s[0]] + s[1..];
  }

  /** The members of a set, in the order of the candidates. */
  function Select(attributes: AttributeSet, candidates: seq<LayoutAttribute>): seq<LayoutAttribute> {
    if candidates == [] then []
    else
      var last := |candidates| - 1;
      var front := Select(attributes, candidates[..last]);
      if candidates[last] in attributes then front + [candidates[last]] else front
  }

  lemma {:induction false} SelectSpec(attributes: AttributeSet, candidates: seq<LayoutAttribute>)
    requires Ascending(candidates)
    ensures Ascending(Select(attributes, candidates))
    ensures forall a :: a in Select(attributes, candidates) <==> a in attributes && a in candidates
  {
    if candidates == [] {
    } else {
      var last := |candidates| - 1;
      var front := candidates[..last];
      SelectSpec(attributes, front);
      assert candidates == front + [candidates[last]];
      forall a | a in Select(attributes, front) ensures Rank(a) < Rank(candidates[last]) {
        assert a in front;
      }
    }
  }

  ghost predicate IsListOf(s: seq<LayoutAttribute>, attributes: AttributeSet) {
    && Ascending(s)
    && forall a :: a in s <==> a in attributes
  }

  lemma {:induction false} ListHasSize(s: seq<LayoutAttribute>, attributes: AttributeSet)
    requires IsListOf(s, attributes)
    ensures |s| == |attributes|
  {
    if s == [] {
      assert attributes == {};
    } else {
      var rest := attributes - {s[0]};
      forall a ensures a in s[1..] <==> a in rest { TailMembers(s, a); }
      ListHasSize(s[1..], rest);
    }
  }

  lemma SelectLists(attributes: AttributeSet)
    ensures IsListOf(Select(attributes, ALL), attributes)
  {
    AllIsComplete();
    SelectSpec(attributes, ALL);
  }

  /** The list of an attribute set: ascending, without repetition, and exactly the members. */
  ghost function Listed(attributes: AttributeSet): (r: seq<LayoutAttribute>)
    ensures IsListOf(r, attributes)
  {
    SelectLists(attributes);
    var s :| IsListOf(s, attributes);
    s
  }

  lemma SelectIsListed(attributes: AttributeSet)
    ensures Select(attributes, ALL) == Listed(attributes)
  {
    SelectLists(attributes);
    AscendingUnique(Select(attributes, ALL), Listed(attributes));
  }

  function Members(s: seq<LayoutAttribute>): set<LayoutAttribute> {
    set a | a in s
  }

  /** Sets and ascending lists determine each other. */
  lemma ListedBijective(attributes: AttributeSet, s: seq<LayoutAttribute>)
    ensures Members(Listed(attributes)) == attributes
    ensures Ascending(s) ==> Listed(Members(s)) == s
    ensures Ascending(s) ==> (Listed(attributes) == s <==> attributes == Members(s))
  {
    if Ascending(s) {
      AscendingUnique(Listed(Members(s)), s);
    }
  }

  /** The list of a set, once an ascending enumeration of it is at hand. */
  lemma ListIs(attributes: AttributeSet, s: seq<LayoutAttribute>)
    requires IsListOf(s, attributes)
    ensures Listed(attributes) == s
  {
    AscendingUnique(Listed(attributes), s);
  }

  lemma NoneList()
    ensures Listed(NONE) == []
  {
    ListIs(NONE, []);
  }

  lemma SingletonList(a: LayoutAttribute)
    requires a != NotAnAttribute
    ensures Listed({a}) == [a]
  {
    ListIs({a}, [a]);
  }

  lemma EdgeList()
    ensures Listed(EDGES) == [Left, Top, Right, Bottom]
  {
    ListIs(EDGES, [Left, Top, Right, Bottom]);
  }

  lemma DirectionalEdgeList()
    ensures Listed(DIRECTIONAL_EDGES) == [Top, Bottom, Leading, Trailing]
  {
    ListIs(DIRECTIONAL_EDGES, [Top, Bottom, Leading, Trailing]);
  }

  lemma MarginList()
    ensures Listed(MARGINS) == [LeftMargin, RightMargin, TopMargin, BottomMargin]
  {
    ListIs(MARGINS, [LeftMargin, RightMargin, TopMargin, BottomMargin]);
  }

  lemma DirectionalMarginList()
    ensures Listed(DIRECTIONAL_MARGINS) == [TopMargin, BottomMargin, LeadingMargin, TrailingMargin]
  {
    ListIs(DIRECTIONAL_MARGINS, [TopMargin, BottomMargin, LeadingMargin, TrailingMargin]);
  }

  lemma SizeList()
    ensures Listed(SIZE) == [Width, Height]
  {
    ListIs(SIZE, [Width, Height]);
  }

  lemma CenterList()
    ensures Listed(CENTER) == [CenterX, CenterY]
  {
    ListIs(CENTER, [CenterX, CenterY]);
  }
}
