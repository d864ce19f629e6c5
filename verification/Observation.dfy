/** RLMObservationInfo's intrusive doubly linked list, and forEach from any of its nodes. */
module Observation {

  datatype Row = Detached | At(index: nat)

  class RLMObservationInfo<T> {
    var next: RLMObservationInfo?<T>
    var prev: RLMObservationInfo?<T>
    var row: Row
    var objectSchema: RLMClassInfo?<T>
    const object_: T

    /** The observer of an unmanaged object; a managed one has its schema set and then its row. */
    constructor (object_: T)
      ensures this.object_ == object_ && next == null && prev == null && row == Detached && objectSchema == null
    {
      this.object_, next, prev, row, objectSchema := object_, null, null, Detached, null;
    }

    /** The pointer surgery of setRow: this node goes in right behind the head of a list. */
    method Join(info: RLMObservationInfo<T>, ghost chain: seq<RLMObservationInfo<T>>)
      requires ListOf(chain, info) && this !in chain && row == info.row
      modifies this`next, this`prev, chain`next, chain`prev
      ensures ListOf([info, this] + chain[1..], info)
    {
      ghost var longer := [info, this] + chain[1..];
      assert forall i :: 1 < i < |longer| ==> longer[i] == chain[i - 1];
      DistinctNodes(chain);
      assert info.next == if |chain| == 1 then null else chain[1];
      prev := info;
      next := info.next;
      if next != null {
        next.prev := this;
      }
      info.next := this;
    }

    /** Joining the c-th list keeps all the lists well formed. */
    method JoinList(c: nat)
      requires objectSchema != null && objectSchema.Valid() && this !in objectSchema.Nodes()
      requires c < |objectSchema.chains| && objectSchema.observedObjects[c].row == row
      modifies this`next, this`prev, objectSchema`chains, objectSchema.chains[c]`next, objectSchema.chains[c]`prev
      ensures objectSchema.Valid()
      ensures objectSchema.Nodes() == old(objectSchema.Nodes()) + {this}
    {
      var schema := objectSchema;
      ghost var before, heads := schema.chains, schema.observedObjects;
      ghost var after := [heads[c], this] + before[c][1..];
      ListsAreApart(before, heads, c);
      NodesAfterJoining(before, c, this);
      assert ListOf(before[c], heads[c]);
      schema.chains := before[c := after];
      Join(schema.observedObjects[c], before[c]);
      forall d | 0 <= d < |before| && d != c ensures ListOf(before[d], heads[d]) {
        assert old(ListOf(before[d], heads[d]));
      }
      ListsAfterChange(before, heads, c, after, heads[c]);
      assert heads[c := heads[c]] == heads;
      assert schema.Valid();
      assert schema.Nodes() == old(schema.Nodes()) + {this};
    }

    /** setRow: joins the list of the row right behind its head, or becomes the head of a new list. */
    method SetRow(newRow: nat)
      requires objectSchema != null && objectSchema.Valid() && this !in objectSchema.Nodes()
      requires row == Detached && next == null && prev == null
      modifies this`next, this`prev, this`row, objectSchema
      modifies objectSchema.Nodes()`next, objectSchema.Nodes()`prev
      ensures objectSchema.Valid()
      ensures objectSchema.Nodes() == old(objectSchema.Nodes()) + {this}
      ensures row == At(newRow)
    {
      var schema := objectSchema;
      row := At(newRow);
      var i := 0;
      while i < |schema.observedObjects|
        invariant 0 <= i <= |schema.observedObjects|
        invariant forall c :: 0 <= c < i ==> schema.observedObjects[c].row != row
      {
        var info := schema.observedObjects[i];
        if info.row.At? && info.row.index == row.index {
          JoinList(i);
          return;
        }
        i := i + 1;
      }
      ListsAfterAdding(schema.chains, schema.observedObjects, this);
      schema.observedObjects := schema.observedObjects + [this];
      schema.chains := schema.chains + [[this]];
    }

    /** The pointer surgery of the destructor of a node that is not the head. */
    method Detach(ghost chain: seq<RLMObservationInfo<T>>, ghost i: nat)
      requires 0 < i < |chain| && chain[i] == this && ListOf(chain, chain[0])
      modifies chain`next, chain`prev
      ensures ListOf(chain[..i] + chain[i + 1..], chain[0])
    {
      DistinctNodes(chain);
      assert chain[i].prev == chain[i - 1] && next == if i == |chain| - 1 then null else chain[i + 1];
      ghost var shorter := chain[..i] + chain[i + 1..];
      assert forall k :: 0 <= k < |shorter| ==> shorter[k] == chain[if k < i then k else k + 1];
      prev.next := next;
      if next != null {
        next.prev := prev;
      }
    }

    method DetachList(ghost c: nat, ghost i: nat)
      requires objectSchema != null && objectSchema.Valid() && c < |objectSchema.chains|
      requires 0 < i < |objectSchema.chains[c]| && objectSchema.chains[c][i] == this
      modifies objectSchema`chains, objectSchema.chains[c]`next, objectSchema.chains[c]`prev
      ensures objectSchema.Valid()
      ensures objectSchema.Nodes() == old(objectSchema.Nodes()) - {this}
    {
      var schema := objectSchema;
      ghost var before, heads := schema.chains, schema.observedObjects;
      ghost var after := before[c][..i] + before[c][i + 1..];
      ListsAreApart(before, heads, c);
      NodesAfterRemoving(before, heads, c, i);
      assert ListOf(before[c], heads[c]);
      schema.chains := before[c := after];
      Detach(before[c], i);
      forall d | 0 <= d < |before| && d != c ensures ListOf(before[d], heads[d]) {
        assert old(ListOf(before[d], heads[d]));
      }
      ListsAfterChange(before, heads, c, after, heads[c]);
      assert heads[c := heads[c]] == heads;
      assert schema.Valid();
      assert schema.Nodes() == old(schema.Nodes()) - {this};
    }

    /** The first node of a list goes. */
    method Behead(ghost chain: seq<RLMObservationInfo<T>>)
      requires |chain| > 1 && ListOf(chain, this)
      modifies chain`prev
      ensures ListOf(chain[..0] + chain[1..], chain[1])
    {
      DistinctNodes(chain);
      assert next == chain[1];
      ghost var shorter := chain[..0] + chain[1..];
      assert forall k :: 0 <= k < |shorter| ==> shorter[k] == chain[k + 1];
      next.prev := null;
    }

    /** The pointer surgery on a head that leaves; the other lists stay as they are. */
    method BeheadList(c: nat, ghost chains: seq<seq<RLMObservationInfo<T>>>, ghost heads: seq<RLMObservationInfo<T>>)
      requires Lists(chains, heads) && c < |chains| && |chains[c]| > 1 && heads[c] == this
      modifies chains[c]`prev
      ensures ListOf(chains[c][..0] + chains[c][1..], chains[c][1])
      ensures forall d :: 0 <= d < |chains| && d != c ==> ListOf(chains[d], heads[d])
    {
      ListsAreApart(chains, heads, c);
      assert ListOf(chains[c], heads[c]);
      Behead(chains[c]);
      forall d | 0 <= d < |chains| && d != c ensures ListOf(chains[d], heads[d]) {
        assert old(ListOf(chains[d], heads[d]));
      }
    }

    /** A head leaves its list to the next node. */
    method ReplaceHead(c: nat)
      requires objectSchema != null && objectSchema.Valid() && c < |objectSchema.chains|
      requires |objectSchema.chains[c]| > 1 && objectSchema.observedObjects[c] == this
      modifies objectSchema, objectSchema.chains[c]`prev
      ensures objectSchema.Valid()
      ensures objectSchema.Nodes() == old(objectSchema.Nodes()) - {this}
    {
      var schema := objectSchema;
      ghost var before, heads := schema.chains, schema.observedObjects;
      ghost var after := before[c][..0] + before[c][1..];
      NodesAfterRemoving(before, heads, c, 0);
      assert ListOf(before[c], heads[c]);
      assert next == before[c][1];
      schema.chains := before[c := after];
      schema.observedObjects := schema.observedObjects[c := next];
      BeheadList(c, before, heads);
      ListsAfterChange(before, heads, c, after, next);
      assert Lists(schema.chains, schema.observedObjects);
      assert schema.Nodes() == old(schema.Nodes()) - {this};
    }

    /** The destructor of a node without a predecessor, which its schema may or may not list. */
    method DestroyHead()
      requires objectSchema != null && objectSchema.Valid() && prev == null
      modifies objectSchema, objectSchema.Nodes()`prev
      ensures objectSchema.Valid() && objectSchema.Nodes() == old(objectSchema.Nodes()) - {this}
    {
      var schema := objectSchema;
      var it := 0;
      while it < |schema.observedObjects| && schema.observedObjects[it] != this
        invariant 0 <= it <= |schema.observedObjects|
        invariant forall k :: 0 <= k < it ==> schema.observedObjects[k] != this
      {
        it := it + 1;
      }
      if it < |schema.observedObjects| {
        LeaveVector(it);
      } else if this in schema.Nodes() {
        ghost var c, i := schema.PlaceOf(this);
        assert false;
      }
    }

    /** The listed head leaves the vector to the next node, or takes its place out of the vector. */
    method LeaveVector(it: nat)
      requires objectSchema != null && objectSchema.Valid() && it < |objectSchema.chains|
      requires objectSchema.observedObjects[it] == this
      modifies objectSchema, objectSchema.chains[it]`prev
      ensures objectSchema.Valid() && objectSchema.Nodes() == old(objectSchema.Nodes()) - {this}
    {
      var schema := objectSchema;
      ghost var before, heads := schema.chains, schema.observedObjects;
      assert ListOf(before[it], heads[it]);
      assert |before[it]| > 1 ==> before[it][0].next == before[it][1];
      if next != null {
        ReplaceHead(it);
      } else {
        ListsAfterPop(before, heads, it);
        NodesAfterPop(before, heads, it);
        schema.observedObjects := SwapAndPop(schema.observedObjects, it);
        schema.chains := SwapAndPop(schema.chains, it);
      }
    }

    ghost function Schemas(): set<RLMClassInfo<T>>
      reads this
    {
      if objectSchema == null then {} else {objectSchema}
    }

    ghost function Peers(): set<RLMObservationInfo<T>>
      reads this, objectSchema
    {
      if objectSchema == null then {} else objectSchema.Nodes()
    }

    /**
     * The destructor: the node leaves its list, and the list its vector when nothing is left of it. A node that no list
     * holds, managed or not, leaves everything as it is.
     */
    method Destroy()
      requires objectSchema != null ==> objectSchema.Valid()
      requires prev != null ==> objectSchema != null && this in objectSchema.Nodes()
      modifies Schemas(), Peers()`next, Peers()`prev
      ensures objectSchema != null ==> objectSchema.Valid()
      ensures Peers() == old(Peers()) - {this}
    {
      if prev != null {
        ghost var c, i := objectSchema.PlaceOf(this);
        DetachList(c, i);
      } else if objectSchema != null {
        DestroyHead();
      }
    }

    /**
     * forEach, with the calls of the visitor recorded in order: first the predecessors from the nearest one to the
     * head, then the node itself and its successors to the tail.
     */
    method ForEach(ghost chain: seq<RLMObservationInfo<T>>, ghost k: nat) returns (visited: seq<T>)
      requires Linked(chain) && k < |chain| && chain[k] == this
      ensures visited == Objects(VisitOrder(chain, k))
    {
      visited := [];
      ghost var n: int := k;
      var info := prev;
      while info != null
        invariant 0 <= n <= k
        invariant info == if n == 0 then null else chain[n - 1]
        invariant visited == Objects(Backwards(chain[n..k]))
        decreases n
      {
        n := n - 1;
        assert chain[n..k] == [chain[n]] + chain[n + 1..k];
        BackwardsOfCons(chain[n], chain[n + 1..k]);
        visited := visited + [info.object_];
        info := info.prev;
      }
      assert chain[0..k] == chain[..k];
      ghost var back := visited;
      info := this;
      n := k;
      while info != null
        invariant k <= n <= |chain|
        invariant info == if n == |chain| then null else chain[n]
        invariant visited == back + Objects(chain[k..n])
        decreases |chain| - n
      {
        assert chain[k..n + 1] == chain[k..n] + [chain[n]];
        assert chain[n].next == if n == |chain| - 1 then null else chain[n + 1];
        visited := visited + [info.object_];
        info := info.next;
        n := n + 1;
      }
      assert chain[k..|chain|] == chain[k..];
    }
  }

  /** A well formed list, from its head to its tail. */
  ghost predicate Linked<T>(chain: seq<RLMObservationInfo<T>>)
    reads chain
  {
    && (chain != [] ==> chain[0].prev == null && chain[|chain| - 1].next == null)
    && (forall i :: 0 < i < |chain| ==> chain[i].prev == chain[i - 1])
    && (forall i :: 0 <= i < |chain| - 1 ==> chain[i].next == chain[i + 1])
  }

  function Objects<T>(infos: seq<RLMObservationInfo<T>>): (r: seq<T>)
    ensures |r| == |infos| && forall i :: 0 <= i < |infos| ==> r[i] == infos[i].object_
  {
    seq(|infos|, i requires 0 <= i < |infos| => infos[i].object_)
  }

  function Backwards<A>(s: seq<A>): seq<A> {
    if s == [] then [] else [s[|s| - 1]] + Backwards(s[..|s| - 1])
  }

  lemma {:induction false} BackwardsOfCons<A>(x: A, s: seq<A>)
    ensures Backwards([x] + s) == Backwards(s) + [x]
  {
    if s == [] {
      assert [x] + s == [x] && [x][..0] == [];
    } else {
      var front, t := s[..|s| - 1], [x] + s;
      assert t[..|t| - 1] == [x] + front && t[|t| - 1] == s[|s| - 1];
      BackwardsOfCons(x, front);
      assert Backwards(t) == [s[|s| - 1]] + (Backwards(front) + [x]);
    }
  }

  lemma {:induction false} BackwardsAt<A>(s: seq<A>, i: nat)
    requires i < |s|
    ensures |Backwards(s)| == |s| && Backwards(s)[i] == s[|s| - 1 - i]
  {
    if i > 0 {
      BackwardsAt(s[..|s| - 1], i - 1);
    } else if |s| > 1 {
      BackwardsAt(s[..|s| - 1], 0);
    }
  }

  lemma {:induction false} BackwardsIsPermutation<A>(s: seq<A>)
    ensures multiset(Backwards(s)) == multiset(s)
  {
    if s == [] {
    } else {
      assert s == s[..|s| - 1] + [s[|s| - 1]];
      BackwardsIsPermutation(s[..|s| - 1]);
    }
  }

  /** The nodes in the order forEach visits them from the k-th one. */
  function VisitOrder<A>(chain: seq<A>, k: nat): seq<A>
    requires k < |chain|
  {
    Backwards(chain[..k]) + chain[k..]
  }

  /** From whatever node it starts, forEach visits every node of the list exactly once. */
  lemma VisitsEveryNodeOnce<A>(chain: seq<A>, k: nat)
    requires k < |chain|
    ensures multiset(VisitOrder(chain, k)) == multiset(chain)
  {
    BackwardsIsPermutation(chain[..k]);
    assert chain == chain[..k] + chain[k..];
  }

  /** Where each node is visited: its distance for the predecessors, its own position from the start node on. */
  lemma VisitedAt<A>(chain: seq<A>, k: nat, i: nat)
    requires k < |chain| && i < |chain|
    ensures |VisitOrder(chain, k)| == |chain|
    ensures VisitOrder(chain, k)[if i < k then k - 1 - i else i] == chain[i]
  {
    if k > 0 { BackwardsAt(chain[..k], if i < k then k - 1 - i else 0); }
  }

  /** Nodes of a well formed list are distinct, so being visited once as an entry is being visited once as a node. */
  lemma {:induction false} LinkedIsDistinct<T>(chain: seq<RLMObservationInfo<T>>, i: nat, j: nat)
    requires Linked(chain) && i < j < |chain|
    ensures chain[i] != chain[j]
  {
    assert chain[j].prev == chain[j - 1];
    if i > 0 {
      assert chain[i].prev == chain[i - 1];
      LinkedIsDistinct(chain, i - 1, j - 1);
    }
  }

  /** Each list is well formed and of its own row. */
  ghost predicate Lists<T>(chains: seq<seq<RLMObservationInfo<T>>>, heads: seq<RLMObservationInfo<T>>)
    reads NodesOf(chains), heads
  {
    && |chains| == |heads|
    && (forall c :: 0 <= c < |chains| ==> ListOf(chains[c], heads[c]))
    && (forall c, d :: 0 <= c < d < |chains| ==> heads[c].row != heads[d].row)
  }

  lemma DistinctNodes<T>(chain: seq<RLMObservationInfo<T>>)
    requires Linked(chain)
    ensures forall i, j :: 0 <= i < j < |chain| ==> chain[i] != chain[j]
  {
    forall i, j | 0 <= i < j < |chain| ensures chain[i] != chain[j] {
      LinkedIsDistinct(chain, i, j);
    }
  }

  ghost function NodesOf<A>(chains: seq<seq<A>>): set<A> {
    set c, k | 0 <= c < |chains| && 0 <= k < |chains[c]| :: chains[c][k]
  }

  lemma NodesAfterJoining<A>(chains: seq<seq<A>>, c: nat, x: A)
    requires c < |chains| && chains[c] != []
    ensures NodesOf(chains[c := [chains[c][0], x] + chains[c][1..]]) == NodesOf(chains) + {x}
  {
    var longer := [chains[c][0], x] + chains[c][1..];
    var joined := chains[c := longer];
    forall node | node in NodesOf(chains) + {x} ensures node in NodesOf(joined) {
      if node == x {
        assert joined[c][1] == x;
      } else {
        var d, k :| 0 <= d < |chains| && 0 <= k < |chains[d]| && chains[d][k] == node;
        assert joined[d][if d == c && k > 0 then k + 1 else k] == node;
      }
    }
    forall node | node in NodesOf(joined) ensures node in NodesOf(chains) + {x} {
      var d, k :| 0 <= d < |joined| && 0 <= k < |joined[d]| && joined[d][k] == node;
      assert node == x || node == chains[d][if d == c && k > 1 then k - 1 else k];
    }
  }

  /** A well formed list from `head`, all of whose nodes observe one row. */
  ghost predicate ListOf<T>(chain: seq<RLMObservationInfo<T>>, head: RLMObservationInfo<T>)
    reads chain
  {
    && chain != [] && chain[0] == head && Linked(chain)
    && head.row.At? && forall node <- chain :: node.row == head.row
  }

  /** Changing one list into another one of the same row leaves all the lists well formed. */
  lemma ListsAfterChange<T>(chains: seq<seq<RLMObservationInfo<T>>>, heads: seq<RLMObservationInfo<T>>, c: nat,
    chain: seq<RLMObservationInfo<T>>, head: RLMObservationInfo<T>)
    requires c < |chains| == |heads| && ListOf(chain, head) && head.row == heads[c].row
    requires forall d :: 0 <= d < |chains| && d != c ==> ListOf(chains[d], heads[d])
    requires forall d, e :: 0 <= d < e < |chains| ==> heads[d].row != heads[e].row
    ensures Lists(chains[c := chain], heads[c := head])
  {
    var replaced, newHeads := chains[c := chain], heads[c := head];
    forall d | 0 <= d < |replaced| ensures ListOf(replaced[d], newHeads[d]) && newHeads[d].row == heads[d].row {
      assert replaced[d] == if d == c then chain else chains[d];
    }
  }

  /** The vector's swap with its last element and pop_back. */
  function SwapAndPop<A>(s: seq<A>, c: nat): seq<A>
    requires c < |s|
  {
    s[c := s[|s| - 1]][..|s| - 1]
  }

  lemma PoppedAt<A>(s: seq<A>, c: nat, d: nat)
    requires c < |s| && d < |s| - 1
    ensures SwapAndPop(s, c)[d] == s[if d == c then |s| - 1 else d]
  {
  }

  lemma ListsAfterPop<T>(chains: seq<seq<RLMObservationInfo<T>>>, heads: seq<RLMObservationInfo<T>>, c: nat)
    requires Lists(chains, heads) && c < |chains|
    ensures Lists(SwapAndPop(chains, c), SwapAndPop(heads, c))
  {
    var popped, kept := SwapAndPop(chains, c), SwapAndPop(heads, c);
    forall d | 0 <= d < |popped| ensures ListOf(popped[d], kept[d]) {
      PoppedAt(chains, c, d);
      PoppedAt(heads, c, d);
    }
    forall d, e | 0 <= d < e < |popped| ensures kept[d].row != kept[e].row {
      PoppedAt(heads, c, d);
      PoppedAt(heads, c, e);
    }
  }

  lemma NodesAfterPop<T>(chains: seq<seq<RLMObservationInfo<T>>>, heads: seq<RLMObservationInfo<T>>, c: nat)
    requires Lists(chains, heads) && c < |chains| && |chains[c]| == 1
    ensures NodesOf(SwapAndPop(chains, c)) == NodesOf(chains) - {heads[c]}
  {
    var popped := SwapAndPop(chains, c);
    assert ListOf(chains[c], heads[c]);
    ListsAreApart(chains, heads, c);
    forall node | node in NodesOf(chains) - {heads[c]} ensures node in NodesOf(popped) {
      var d, k :| 0 <= d < |chains| && 0 <= k < |chains[d]| && chains[d][k] == node;
      PoppedAt(chains, c, if d == |chains| - 1 then c else d);
      assert popped[if d == |chains| - 1 then c else d][k] == node;
    }
    forall node | node in NodesOf(popped) ensures node in NodesOf(chains) - {heads[c]} {
      var d, k :| 0 <= d < |popped| && 0 <= k < |popped[d]| && popped[d][k] == node;
      var e := if d == c then |chains| - 1 else d;
      PoppedAt(chains, c, d);
      assert chains[e][k] == node && e != c;
    }
  }

  lemma ListsAreApart<T>(chains: seq<seq<RLMObservationInfo<T>>>, heads: seq<RLMObservationInfo<T>>, c: nat)
    requires Lists(chains, heads) && c < |chains|
    ensures forall d, k :: 0 <= d < |chains| && d != c && 0 <= k < |chains[d]| ==> chains[d][k] !in chains[c]
  {
    assert ListOf(chains[c], heads[c]);
  }

  lemma NodesAfterRemoving<T>(chains: seq<seq<RLMObservationInfo<T>>>, heads: seq<RLMObservationInfo<T>>, c: nat,
    i: nat)
    requires Lists(chains, heads) && c < |chains| && i < |chains[c]|
    ensures NodesOf(chains[c := chains[c][..i] + chains[c][i + 1..]]) == NodesOf(chains) - {chains[c][i]}
  {
    ListsAreApart(chains, heads, c);
    assert ListOf(chains[c], heads[c]);
    DistinctNodes(chains[c]);
    var shorter := chains[c][..i] + chains[c][i + 1..];
    var removed := chains[c := shorter];
    forall node | node in NodesOf(chains) - {chains[c][i]} ensures node in NodesOf(removed) {
      var d, k :| 0 <= d < |chains| && 0 <= k < |chains[d]| && chains[d][k] == node;
      assert removed[d][if d == c && k > i then k - 1 else k] == node;
    }
    forall node | node in NodesOf(removed) ensures node in NodesOf(chains) - {chains[c][i]} {
      var d, k :| 0 <= d < |removed| && 0 <= k < |removed[d]| && removed[d][k] == node;
      var j := if d == c && k >= i then k + 1 else k;
      assert chains[d][j] == node && (d != c || j != i);
    }
  }

  lemma ListsAfterAdding<T>(chains: seq<seq<RLMObservationInfo<T>>>, heads: seq<RLMObservationInfo<T>>,
    x: RLMObservationInfo<T>)
    requires Lists(chains, heads) && ListOf([x], x)
    requires forall c :: 0 <= c < |heads| ==> heads[c].row != x.row
    ensures Lists(chains + [[x]], heads + [x])
    ensures NodesOf(chains + [[x]]) == NodesOf(chains) + {x}
  {
    var added := chains + [[x]];
    assert added[|chains|][0] == x;
    forall node | node in NodesOf(chains) ensures node in NodesOf(added) {
      var c, k :| 0 <= c < |chains| && 0 <= k < |chains[c]| && chains[c][k] == node;
      assert added[c][k] == node;
    }
  }

  /** The observers of the rows of one table: per observed row one list, known by its head. */
  class RLMClassInfo<T> {
    var observedObjects: seq<RLMObservationInfo<T>>
    ghost var chains: seq<seq<RLMObservationInfo<T>>>

    ghost function Nodes(): set<RLMObservationInfo<T>>
      reads this
    {
      NodesOf(chains)
    }

    ghost predicate Valid()
      reads this, Nodes(), observedObjects
    {
      Lists(chains, observedObjects)
    }

    /** Where a node hangs; a node is the head exactly when it has no predecessor. */
    lemma PlaceOf(node: RLMObservationInfo<T>) returns (c: nat, i: nat)
      requires Valid() && node in Nodes()
      ensures c < |chains| && i < |chains[c]| && chains[c][i] == node
      ensures i == 0 <==> node.prev == null
      ensures i == 0 <==> node == observedObjects[c]
    {
      c, i :| 0 <= c < |chains| && 0 <= i < |chains[c]| && chains[c][i] == node;
      assert ListOf(chains[c], observedObjects[c]);
      DistinctNodes(chains[c]);
      if i > 0 {
        assert chains[c][i].prev == chains[c][i - 1];
      }
    }

    constructor ()
      ensures Valid() && Nodes() == {}
    {
      observedObjects, chains := [], [];
    }
  }

  /** The list an observer hangs in holds every observer of its row, and no other one. */
  lemma ListIsRow<T>(info: RLMClassInfo<T>, c: nat, node: RLMObservationInfo<T>)
    requires info.Valid() && c < |info.chains|
    ensures node in info.chains[c] <==> node in info.Nodes() && node.row == info.observedObjects[c].row
  {
    assert ListOf(info.chains[c], info.observedObjects[c]);
    if node in info.Nodes() {
      var d, k :| 0 <= d < |info.chains| && 0 <= k < |info.chains[d]| && info.chains[d][k] == node;
      assert ListOf(info.chains[d], info.observedObjects[d]);
    }
  }

  lemma {:induction false} MultisetOfDistinct<A>(s: seq<A>, x: A)
    requires forall i, j :: 0 <= i < j < |s| ==> s[i] != s[j]
    ensures multiset(s)[x] == if x in s then 1 else 0
  {
    if s == [] {
    } else {
      MultisetOfDistinct(s[1..], x);
      assert s == [s[0]] + s[1..];
      assert multiset(s) == multiset{s[0]} + multiset(s[1..]);
    }
  }

  /** Called on any observer of a row, forEach tells every observer of that row once and nobody else. */
  lemma ForEachReachesTheRow<T>(info: RLMClassInfo<T>, c: nat, k: nat, node: RLMObservationInfo<T>)
    requires info.Valid() && c < |info.chains| && k < |info.chains[c]|
    ensures multiset(VisitOrder(info.chains[c], k))[node]
         == if node in info.Nodes() && node.row == info.chains[c][k].row then 1 else 0
  {
    var chain := info.chains[c];
    assert ListOf(chain, info.observedObjects[c]);
    assert chain[k] in chain && chain[k].row == info.observedObjects[c].row;
    DistinctNodes(chain);
    MultisetOfDistinct(chain, node);
    VisitsEveryNodeOnce(chain, k);
    ListIsRow(info, c, node);
    assert multiset(VisitOrder(chain, k))[node] == multiset(chain)[node];
  }
}
