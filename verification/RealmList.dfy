/** RealmSwift's List: range operations as loops of single-element operations on the backing array. */
module RealmList {
  import opened Options

  /** RLMArray, with an index out of bounds reported by the result false instead of an exception. */
  class RLMArray<T> {
    var elements: seq<T>

    constructor ()
      ensures elements == []
    {
      elements := [];
    }

    method AddObject(x: T)
      modifies this
      ensures elements == old(elements) + [x]
    {
      elements := elements + [x];
    }

    method InsertObject(x: T, index: nat) returns (ok: bool)
      modifies this
      ensures ok <==> index <= |old(elements)|
      ensures elements == if ok then old(elements)[..index] + [x] + old(elements)[index..] else old(elements)
    {
      ok := index <= |elements|;
      if ok { elements := elements[..index] + [x] + elements[index..]; }
    }

    method RemoveObject(index: nat) returns (ok: bool)
      modifies this
      ensures ok <==> index < |old(elements)|
      ensures elements == if ok then old(elements)[..index] + old(elements)[index + 1..] else old(elements)
    {
      ok := index < |elements|;
      if ok { elements := elements[..index] + elements[index + 1..]; }
    }

    /** A no-op on an empty array. */
    method RemoveLastObject()
      modifies this
      ensures elements == if old(elements) == [] then [] else old(elements)[..|old(elements)| - 1]
    {
      if |elements| > 0 { elements := elements[..|elements| - 1]; }
    }
  }

  datatype Outcome<T> = Done(elements: seq<T>) | Thrown(elements: seq<T>)

  // ---------- What the range operations mean ----------

  /** Removing a range: it throws if the range leaves the list, and then has already removed what it could reach. */
  function RangeRemoved<T>(s: seq<T>, lo: int, hi: int): Outcome<T>
    requires lo <= hi
  {
    if lo == hi then Done(s)
    else if lo < 0 then Thrown(s)
    else if hi <= |s| then Done(s[..lo] + s[hi..])
    else if lo <= |s| then Thrown(s[..lo])
    else Thrown(s)
  }

  /** Inserting a block: a position outside the list throws before anything is inserted. */
  function BlockInserted<T>(s: seq<T>, xs: seq<T>, at: int): Outcome<T> {
    if xs == [] then Done(s)
    else if 0 <= at <= |s| then Done(s[..at] + xs + s[at..])
    else Thrown(s)
  }

  /**
   * Replacing a range: prefix, new elements, suffix. A range that leaves the list throws, after removing what it could
   * reach if it starts in the list; replacing nothing by nothing never does.
   */
  function RangeReplaced<T>(s: seq<T>, lo: int, hi: int, xs: seq<T>): Outcome<T>
    requires lo <= hi
  {
    if 0 <= lo <= hi <= |s| then Done(s[..lo] + xs + s[hi..])
    else if lo == hi && xs == [] then Done(s)
    else if 0 <= lo <= |s| then Thrown(s[..lo])
    else Thrown(s)
  }

  /** Replacing is removing and then inserting, in what it leaves and in what it throws on. */
  lemma ReplaceIsRemoveThenInsert<T>(s: seq<T>, lo: int, hi: int, xs: seq<T>)
    requires lo <= hi
    ensures RangeReplaced(s, lo, hi, xs)
         == match RangeRemoved(s, lo, hi)
            case Thrown(t) => Thrown(t)
            case Done(t) => BlockInserted(t, xs, lo)
  {
    if 0 <= lo <= hi <= |s| {
      var t := s[..lo] + s[hi..];
      assert lo == hi ==> t == s;
      assert t[..lo] == s[..lo] && t[lo..] == s[hi..];
      if xs == [] { assert s[..lo] + xs + s[hi..] == t; }
    }
  }

  lemma RemoveAhead<T>(s: seq<T>, lo: nat, i: nat)
    requires lo <= i < |s|
    ensures var t := s[..lo] + s[i..];
            t[..lo] + t[lo + 1..] == s[..lo] + s[i + 1..]
    ensures s[..lo] + s[lo..] == s
  {
  }

  lemma InsertAhead<T>(s: seq<T>, at: nat, x: T, ys: seq<T>)
    requires at <= |s|
    ensures var t := s[..at] + ys + s[at..];
            t[..at] + [x] + t[at..] == s[..at] + ([x] + ys) + s[at..]
    ensures ys == [] ==> s[..at] + ys + s[at..] == s
  {
  }

  /** A list; its storage is never shared with the collections passed to it. */
  class List<T> {
    const backing: RLMArray<T>

    constructor ()
      ensures backing.elements == [] && fresh(backing)
    {
      backing := new RLMArray();
    }

    method Append(x: T)
      modifies backing
      ensures backing.elements == old(backing.elements) + [x]
    {
      backing.AddObject(x);
    }

    method AppendObjects(xs: seq<T>)
      modifies backing
      ensures backing.elements == old(backing.elements) + xs
    {
      for i := 0 to |xs|
        invariant backing.elements == old(backing.elements) + xs[..i]
      {
        assert xs[..i + 1] == xs[..i] + [xs[i]];
        backing.AddObject(xs[i]);
      }
    }

    /** throwForNegativeIndex, then the primitive. */
    method Insert(x: T, index: int) returns (ok: bool)
      modifies backing
      ensures ok <==> 0 <= index <= |old(backing.elements)|
      ensures backing.elements ==
        if ok then old(backing.elements)[..index] + [x] + old(backing.elements)[index..] else old(backing.elements)
    {
      if index < 0 { return false; }
      ok := backing.InsertObject(x, index);
    }

    method Remove(index: int) returns (ok: bool)
      modifies backing
      ensures ok <==> 0 <= index < |old(backing.elements)|
      ensures backing.elements ==
        if ok then old(backing.elements)[..index] + old(backing.elements)[index + 1..] else old(backing.elements)
    {
      if index < 0 { return false; }
      ok := backing.RemoveObject(index);
    }

    /** removeSubrange: removes at the lower bound, once for every position of the range. */
    method RemoveSubrange(lo: int, hi: int) returns (ok: bool)
      requires lo <= hi
      modifies backing
      ensures RangeRemoved(old(backing.elements), lo, hi)
           == if ok then Done(backing.elements) else Thrown(backing.elements)
    {
      ghost var s := backing.elements;
      for i := lo to hi
        invariant i == lo || (0 <= lo && i <= |s|)
        invariant backing.elements == if i == lo then s else s[..lo] + s[i..]
      {
        if 0 <= lo && i < |s| { RemoveAhead(s, lo, i); }
        ok := Remove(lo);
        if !ok { return; }
      }
      ok := true;
    }

    /** insert(contentsOf:at:): inserts forwards, at increasing positions. */
    method InsertContents(xs: seq<T>, at: int) returns (ok: bool)
      modifies backing
      ensures BlockInserted(old(backing.elements), xs, at)
           == if ok then Done(backing.elements) else Thrown(backing.elements)
    {
      ghost var s := backing.elements;
      var currentIndex := at;
      for i := 0 to |xs|
        invariant currentIndex == at + i
        invariant i == 0 || 0 <= at <= |s|
        invariant backing.elements == if i == 0 then s else s[..at] + xs[..i] + s[at..]
      {
        ok := Insert(xs[i], currentIndex);
        if !ok { return; }
        currentIndex := currentIndex + 1;
        assert xs[..i + 1] == xs[..i] + [xs[i]];
      }
      assert xs[..|xs|] == xs;
      ok := true;
    }

    /** replaceSubrange: the loop of removeSubrange, and then insertion at the lower bound in reverse order. */
    method ReplaceSubrange(lo: int, hi: int, xs: seq<T>) returns (ok: bool)
      requires lo <= hi
      modifies backing
      ensures RangeReplaced(old(backing.elements), lo, hi, xs)
           == if ok then Done(backing.elements) else Thrown(backing.elements)
      ensures ok <==> (lo == hi && xs == []) || 0 <= lo <= hi <= |old(backing.elements)|
    {
      ghost var before := backing.elements;
      ReplaceIsRemoveThenInsert(before, lo, hi, xs);
      ok := RemoveSubrange(lo, hi);
      if !ok { return; }
      ok := InsertReversed(xs, lo);
    }

    /** The second loop of replaceSubrange. */
    method InsertReversed(xs: seq<T>, at: int) returns (ok: bool)
      modifies backing
      ensures BlockInserted(old(backing.elements), xs, at)
           == if ok then Done(backing.elements) else Thrown(backing.elements)
    {
      ghost var s := backing.elements;
      for i := |xs| downto 0
        invariant i == |xs| || 0 <= at <= |s|
        invariant backing.elements == if i == |xs| then s else s[..at] + xs[i..] + s[at..]
      {
        if 0 <= at <= |s| { InsertAhead(s, at, xs[i], xs[i + 1..]); }
        ok := Insert(xs[i], at);
        if !ok { return; }
        assert xs[i..] == [xs[i]] + xs[i + 1..];
      }
      assert xs[0..] == xs;
      ok := true;
    }

    /** removeFirst: the guard throws for too large a number, and the range 0..<number for a negative one. */
    method RemoveFirst(number: int) returns (ok: bool)
      modifies backing
      ensures ok <==> 0 <= number <= |old(backing.elements)|
      ensures backing.elements == if ok then old(backing.elements)[number..] else old(backing.elements)
    {
      if !(number <= |backing.elements|) || number < 0 { return false; }
      for i := 0 to number
        invariant number <= |old(backing.elements)|
        invariant backing.elements == old(backing.elements)[i..]
      {
        ok := backing.RemoveObject(0);
        assert ok;
      }
      ok := true;
    }

    method RemoveLast(number: int) returns (ok: bool)
      modifies backing
      ensures ok <==> 0 <= number <= |old(backing.elements)|
      ensures backing.elements ==
        if ok then old(backing.elements)[..|old(backing.elements)| - number] else old(backing.elements)
    {
      if !(number <= |backing.elements|) || number < 0 { return false; }
      for i := 0 to number
        invariant number <= |old(backing.elements)|
        invariant backing.elements == old(backing.elements)[..|old(backing.elements)| - i]
      {
        backing.RemoveLastObject();
      }
      ok := true;
    }

    // ---------- Codable ----------

    /** encode: one container entry per element, in order. */
    method Encode<J>(encode: T -> J) returns (container: seq<J>)
      ensures container == Encoded(backing.elements, encode)
    {
      container := [];
      for i := 0 to |backing.elements|
        invariant container == Encoded(backing.elements[..i], encode)
      {
        assert backing.elements[..i + 1][..i] == backing.elements[..i];
        container := container + [encode(backing.elements[i])];
      }
      assert backing.elements[..|backing.elements|] == backing.elements;
    }

    /**
     * init(from:) on a new list: decodes and appends until the container ends; an entry that does not decode throws.
     */
    method DecodeFrom<J>(container: seq<J>, decode: J -> Option<T>) returns (ok: bool)
      requires backing.elements == []
      modifies backing
      ensures ok <==> forall i :: 0 <= i < |container| ==> decode(container[i]).Some?
      ensures ok ==> |backing.elements| == |container|
      ensures ok ==> forall i :: 0 <= i < |container| ==> decode(container[i]) == Some(backing.elements[i])
    {
      var i := 0;
      while i < |container|
        invariant i <= |container| && |backing.elements| == i
        invariant forall k :: 0 <= k < i ==> decode(container[k]) == Some(backing.elements[k])
      {
        match decode(container[i]) {
          case None => return false;
          case Some(x) => Append(x);
        }
        i := i + 1;
      }
      ok := true;
    }
  }

  function Encoded<T, J>(s: seq<T>, encode: T -> J): seq<J> {
    if s == [] then [] else Encoded(s[..|s| - 1], encode) + [encode(s[|s| - 1])]
  }

  lemma {:induction false} EncodedAt<T, J>(s: seq<T>, encode: T -> J, i: nat)
    requires i < |s|
    ensures |Encoded(s, encode)| == |s| && Encoded(s, encode)[i] == encode(s[i])
  {
    if |s| == 1 {
    } else {
      EncodedAt(s[..|s| - 1], encode, if i < |s| - 1 then i else 0);
    }
  }

  /** Encode, then decode into a new list: the same elements in the same order, whenever each element survives. */
  method EncodeThenDecode<T, J>(list: List<T>, encode: T -> J, decode: J -> Option<T>) returns (ok: bool, copy: List<T>)
    requires forall x :: x in list.backing.elements ==> decode(encode(x)) == Some(x)
    ensures ok && copy.backing.elements == list.backing.elements
  {
    var container := list.Encode(encode);
    ghost var s := list.backing.elements;
    if s == [] {
      assert container == [];
    } else {
      EncodedAt(s, encode, 0);
    }
    forall i | 0 <= i < |container| ensures decode(container[i]) == Some(s[i]) {
      EncodedAt(s, encode, i);
    }
    copy := new List();
    ok := copy.DecodeFrom(container, decode);
  }

  /** replaceSubrange is removeSubrange followed by insert(contentsOf:), in its outcome and in what it throws on. */
  method RemoveThenInsert<T>(list: List<T>, lo: int, hi: int, xs: seq<T>) returns (ok: bool)
    requires lo <= hi
    modifies list.backing
    ensures RangeReplaced(old(list.backing.elements), lo, hi, xs)
            == if ok then Done(list.backing.elements) else Thrown(list.backing.elements)
  {
    ReplaceIsRemoveThenInsert(list.backing.elements, lo, hi, xs);
    ok := list.RemoveSubrange(lo, hi);
    if ok {
      ok := list.InsertContents(xs, lo);
    }
  }
}
