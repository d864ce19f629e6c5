/** Realm.write: a block runs inside a transaction that the block itself may commit, cancel or reopen. */
module RealmWrite {
  import opened Options

  /** What a block may do to its Realm; commits succeed. */
  datatype Step<!D, E> =
    | Edit(change: D -> D)
    | CommitWrite
    | CancelWrite
    | BeginWrite
    | Throw(error: E)

  /** How a call of write ends; Raised is an Objective-C exception, which Swift code cannot catch. */
  datatype Ending<E> = Returned | Threw(error: E) | Raised

  class Realm<!D> {
    /** The last committed data. */
    var committed: D
    /** The data as this Realm sees it. */
    var data: D
    var isInWriteTransaction: bool

    ghost predicate Valid()
      reads this
    {
      !isInWriteTransaction ==> data == committed
    }

    constructor (initial: D)
      ensures Valid() && !isInWriteTransaction && data == initial
    {
      committed, data, isInWriteTransaction := initial, initial, false;
    }

    method Begin() returns (ok: bool)
      requires Valid()
      modifies this
      ensures Valid() && committed == old(committed) && data == old(data)
      ensures ok <==> !old(isInWriteTransaction)
      ensures isInWriteTransaction
    {
      ok := !isInWriteTransaction;
      isInWriteTransaction := true;
    }

    method Commit() returns (ok: bool)
      requires Valid()
      modifies this
      ensures Valid()
      ensures ok <==> old(isInWriteTransaction)
      ensures !isInWriteTransaction && data == committed == old(data)
    {
      ok := isInWriteTransaction;
      committed, isInWriteTransaction := data, false;
    }

    method Cancel() returns (ok: bool)
      requires Valid()
      modifies this
      ensures Valid()
      ensures ok <==> old(isInWriteTransaction)
      ensures !isInWriteTransaction && data == committed == old(committed)
    {
      ok := isInWriteTransaction;
      data, isInWriteTransaction := committed, false;
    }

    method Change(change: D -> D) returns (ok: bool)
      requires Valid()
      modifies this
      ensures Valid()
      ensures ok <==> isInWriteTransaction
      ensures isInWriteTransaction == old(isInWriteTransaction) && committed == old(committed)
      ensures data == if ok then change(old(data)) else old(data)
    {
      ok := isInWriteTransaction;
      if ok { data := change(data); }
    }

    ghost function State(): World<D>
      reads this
    {
      World(committed, data, isInWriteTransaction)
    }

    /** The block, step by step, until it throws, raises or ends. */
    method RunBlock<E>(block: seq<Step<D, E>>) returns (r: Ending<E>)
      requires Valid()
      modifies this
      ensures Valid()
      ensures Ran(old(State()), block).1 == r
      ensures !r.Raised? ==> State() == Ran(old(State()), block).0
    {
      for i := 0 to |block|
        invariant Valid()
        invariant Ran(old(State()), block) == Ran(State(), block[i..])
      {
        var ok := true;
        match block[i] {
          case Edit(change) => ok := Change(change);
          case CommitWrite => ok := Commit();
          case CancelWrite => ok := Cancel();
          case BeginWrite => ok := Begin();
          case Throw(e) => return Threw(e);
        }
        if !ok { return Raised; }
      }
      return Returned;
    }

    /** write: begins, runs the block, cancels on a throw and commits on a return if a transaction is still open. */
    method Write<E>(block: seq<Step<D, E>>) returns (r: Ending<E>)
      requires Valid()
      modifies this
      ensures Valid()
      ensures (old(isInWriteTransaction) || !Legal(block, true)) <==> r.Raised?
      ensures !r.Raised? ==> !isInWriteTransaction && data == committed
      ensures !r.Raised? ==> data == Applied(old(data), Surviving(block, true))
      ensures !r.Raised? ==> r == if Throws(block) then Threw(FirstError(block)) else Returned
    {
      var ok := Begin();
      if !ok { return Raised; }
      WriteMeansSurviving(State(), block);
      r := RunBlock(block);
      match r {
        case Raised => return;
        case Threw(_) => if isInWriteTransaction { ok := Cancel(); }
        case Returned => if isInWriteTransaction { ok := Commit(); }
      }
    }
  }

  /** A Realm's state as a value. */
  datatype World<!D> = World(committed: D, data: D, inWrite: bool)

  /** One step; None when it raises. */
  function Next<D, E>(w: World<D>, s: Step<D, E>): Option<World<D>> {
    match s
    case Edit(change) => if w.inWrite then Some(w.(data := change(w.data))) else None
    case CommitWrite => if w.inWrite then Some(World(w.data, w.data, false)) else None
    case CancelWrite => if w.inWrite then Some(World(w.committed, w.committed, false)) else None
    case BeginWrite => if w.inWrite then None else Some(w.(inWrite := true))
    case Throw(_) => Some(w)
  }

  function Ran<D, E>(w: World<D>, block: seq<Step<D, E>>): (World<D>, Ending<E>)
    decreases block
  {
    if block == [] then (w, Returned)
    else if block[0].Throw? then (w, Threw(block[0].error))
    else
      match Next(w, block[0])
      case None => (w, Raised)
      case Some(w') => Ran(w', block[1..])
  }

  // ---------- The meaning of a block, without running it ----------

  /** No step raises: edits, commits and cancels happen inside a transaction, and begins outside, up to a throw. */
  predicate Legal<D, E>(block: seq<Step<D, E>>, inWrite: bool) {
    if block == [] || block[0].Throw? then true
    else
      match block[0]
      case Edit(_) => inWrite && Legal(block[1..], true)
      case CommitWrite => inWrite && Legal(block[1..], false)
      case CancelWrite => inWrite && Legal(block[1..], false)
      case BeginWrite => !inWrite && Legal(block[1..], true)
      case Throw(_) => true
  }

  predicate Throws<D, E>(block: seq<Step<D, E>>) {
    exists i :: 0 <= i < |block| && block[i].Throw?
  }

  function FirstError<D, E>(block: seq<Step<D, E>>): E
    requires Throws(block)
  {
    if block[0].Throw? then block[0].error
    else
      assert Throws(block[1..]) by {
        var i :| 0 <= i < |block| && block[i].Throw?;
        assert block[1..][i - 1].Throw?;
      }
      FirstError(block[1..])
  }

  /** The transaction open at the start of the steps ends well: by a commit or by the block's own return. */
  predicate EndsWell<D, E>(block: seq<Step<D, E>>) {
    if block == [] then true
    else
      match block[0]
      case Edit(_) => EndsWell(block[1..])
      case CommitWrite => true
      case CancelWrite => false
      case BeginWrite => EndsWell(block[1..])
      case Throw(_) => false
  }

  /** The edits that count: those whose transaction is committed, or still open when the block returns. */
  function Surviving<D, E>(block: seq<Step<D, E>>, inWrite: bool): seq<D -> D> {
    if block == [] then []
    else
      match block[0]
      case Edit(change) => (if inWrite && EndsWell(block[1..]) then [change] else []) + Surviving(block[1..], inWrite)
      case CommitWrite => Surviving(block[1..], false)
      case CancelWrite => Surviving(block[1..], false)
      case BeginWrite => Surviving(block[1..], true)
      case Throw(_) => []
  }

  function Applied<D>(d: D, changes: seq<D -> D>): D {
    if changes == [] then d else Applied(changes[0](d), changes[1..])
  }

  /** The data after write has dealt with a transaction the block left open. */
  function Closed<D, E>(r: (World<D>, Ending<E>)): D {
    if r.0.inWrite && r.1.Returned? then r.0.data
    else if r.0.inWrite then r.0.committed
    else r.0.data
  }

  /** Running a block from inside or outside a transaction, against its meaning. */
  lemma {:induction false} RunMeansSurviving<D, E>(w: World<D>, block: seq<Step<D, E>>)
    requires !w.inWrite ==> w.data == w.committed
    ensures Ran(w, block).1.Raised? <==> !Legal(block, w.inWrite)
    ensures Legal(block, w.inWrite) ==>
      && Ran(w, block).1 == (if Throws(block) then Threw(FirstError(block)) else Returned)
      && Closed(Ran(w, block))
         == Applied(if w.inWrite && EndsWell(block) then w.data else w.committed, Surviving(block, w.inWrite))
    decreases block
  {
    if block == [] {
    } else {
      ThrowsTail(block);
      var later := Surviving(block[1..], w.inWrite);
      assert block[0].Edit? ==> ([block[0].change] + later)[1..] == later && [] + later == later;
      if !block[0].Throw? && Next(w, block[0]).Some? {
        RunMeansSurviving(Next(w, block[0]).value, block[1..]);
      }
    }
  }

  lemma ThrowsTail<D, E>(block: seq<Step<D, E>>)
    requires block != []
    ensures Throws(block) <==> block[0].Throw? || Throws(block[1..])
  {
    if i :| 0 <= i < |block| && block[i].Throw? { assert i == 0 || block[1..][i - 1].Throw?; }
    if i :| 0 <= i < |block[1..]| && block[1..][i].Throw? { assert block[i + 1].Throw?; }
  }

  /** The data after write: the edits that survive, in order, on top of the data before it. */
  lemma WriteMeansSurviving<D, E>(w: World<D>, block: seq<Step<D, E>>)
    requires w.inWrite && w.data == w.committed
    ensures Ran(w, block).1.Raised? <==> !Legal(block, true)
    ensures Legal(block, true) ==>
      && Ran(w, block).1 == (if Throws(block) then Threw(FirstError(block)) else Returned)
      && Closed(Ran(w, block)) == Applied(w.data, Surviving(block, true))
  {
    RunMeansSurviving(w, block);
  }

  // ---------- The two promises ----------

  predicate OnlyEdits<D, E>(block: seq<Step<D, E>>) {
    forall i :: 0 <= i < |block| ==> block[i].Edit?
  }

  function Edits<D, E>(block: seq<Step<D, E>>): seq<D -> D> {
    if block == [] then []
    else if block[0].Edit? then [block[0].change] + Edits(block[1..])
    else Edits(block[1..])
  }

  /** A block of edits that returns has all of them committed. */
  lemma {:induction false} ReturnCommitsAll<D, E>(edits: seq<Step<D, E>>)
    requires OnlyEdits(edits)
    ensures Legal(edits, true) && EndsWell(edits) && Surviving(edits, true) == Edits(edits)
  {
    if edits == [] {
    } else {
      ReturnCommitsAll(edits[1..]);
    }
  }

  /** Legal steps without a throw that end by opening a transaction, or no steps: the next edit starts a transaction. */
  predicate Opening<D, E>(earlier: seq<Step<D, E>>, inWrite: bool) {
    && Legal(earlier, inWrite) && !Throws(earlier)
    && (if earlier == [] then inWrite else earlier[|earlier| - 1].BeginWrite?)
  }

  lemma OpeningTail<D, E>(earlier: seq<Step<D, E>>, inWrite: bool)
    requires earlier != [] && Opening(earlier, inWrite)
    ensures !earlier[0].Throw?
    ensures Opening(earlier[1..], earlier[0].BeginWrite? || (earlier[0].Edit? && inWrite))
  {
    ThrowsTail(earlier);
    assert earlier[1..] != [] ==> earlier[1..][|earlier| - 2] == earlier[|earlier| - 1];
  }

  /** A transaction that is closed before the last one opens ends the same way whatever follows. */
  lemma {:induction false} EndIsSettled<D, E>(earlier: seq<Step<D, E>>, rest: seq<Step<D, E>>)
    requires earlier != [] && Opening(earlier, true)
    ensures EndsWell(earlier + rest) == EndsWell(earlier)
  {
    assert (earlier + rest)[1..] == earlier[1..] + rest;
    OpeningTail(earlier, true);
    if earlier[0].Edit? {
      assert earlier[1..] != [] by { assert !earlier[|earlier| - 1].Edit?; }
      EndIsSettled(earlier[1..], rest);
    }
  }

  /** A block splits where its last transaction opens: what comes before counts on its own. */
  lemma {:induction false} SplitsWhereItOpens<D, E>(earlier: seq<Step<D, E>>, rest: seq<Step<D, E>>, inWrite: bool)
    requires Opening(earlier, inWrite)
    ensures Surviving(earlier + rest, inWrite) == Surviving(earlier, inWrite) + Surviving(rest, true)
    ensures Legal(earlier + rest, inWrite) == Legal(rest, true)
    decreases earlier
  {
    if earlier == [] {
      assert earlier + rest == rest;
    } else {
      assert (earlier + rest)[1..] == earlier[1..] + rest;
      OpeningTail(earlier, inWrite);
      if earlier[0].Edit? {
        assert earlier[1..] != [] by { assert !earlier[|earlier| - 1].Edit?; }
        SplitsWhereItOpens(earlier[1..], rest, inWrite);
        EndIsSettled(earlier[1..], rest);
      } else {
        SplitsWhereItOpens(earlier[1..], rest, earlier[0].BeginWrite?);
      }
    }
  }

  /** What a last run of edits amounts to, thrown away, committed or cancelled, before whatever steps follow. */
  lemma {:induction false} LastEdits<D, E>(edits: seq<Step<D, E>>, end: Step<D, E>, rest: seq<Step<D, E>>)
    requires OnlyEdits(edits) && (end.Throw? || end.CommitWrite? || end.CancelWrite?)
    ensures var block := edits + [end] + rest;
            && EndsWell(block) == end.CommitWrite?
            && Surviving(block, true)
               == (if end.CommitWrite? then Edits(edits) else []) + (if end.Throw? then [] else Surviving(rest, false))
            && Legal(block, true) == (end.Throw? || Legal(rest, false))
  {
    var block := edits + [end] + rest;
    if edits == [] {
      assert block[1..] == rest;
    } else {
      assert block[1..] == edits[1..] + [end] + rest && block[0] == edits[0] && edits[0].Edit?;
      LastEdits(edits[1..], end, rest);
    }
  }

  /** A throw leaves exactly what the transactions closed before it had committed, whatever would have followed. */
  lemma ThrowRollsBack<D, E>(earlier: seq<Step<D, E>>, edits: seq<Step<D, E>>, e: E, rest: seq<Step<D, E>>)
    requires Opening(earlier, true) && OnlyEdits(edits)
    ensures Legal(earlier + (edits + [Throw(e)] + rest), true)
    ensures Surviving(earlier + (edits + [Throw(e)] + rest), true) == Surviving(earlier, true)
  {
    SplitsWhereItOpens(earlier, edits + [Throw(e)] + rest, true);
    LastEdits(edits, Throw(e), rest);
  }

  /** A commit inside the block is a point of no return: what comes before it is kept, whatever comes after. */
  lemma CommitIsFinal<D, E>(earlier: seq<Step<D, E>>, edits: seq<Step<D, E>>, rest: seq<Step<D, E>>)
    requires Opening(earlier, true) && OnlyEdits(edits)
    ensures Surviving(earlier + (edits + [CommitWrite] + rest), true)
         == Surviving(earlier, true) + (Edits(edits) + Surviving(rest, false))
    ensures Legal(earlier + (edits + [CommitWrite] + rest), true) == Legal(rest, false)
  {
    SplitsWhereItOpens(earlier, edits + [CommitWrite] + rest, true);
    LastEdits(edits, CommitWrite, rest);
  }

  /** A cancel drops exactly the edits since the last begin. */
  lemma CancelDropsItsEdits<D, E>(earlier: seq<Step<D, E>>, edits: seq<Step<D, E>>, rest: seq<Step<D, E>>)
    requires Opening(earlier, true) && OnlyEdits(edits)
    ensures Surviving(earlier + (edits + [CancelWrite] + rest), true)
         == Surviving(earlier, true) + Surviving(rest, false)
    ensures Legal(earlier + (edits + [CancelWrite] + rest), true) == Legal(rest, false)
  {
    SplitsWhereItOpens(earlier, edits + [CancelWrite] + rest, true);
    LastEdits(edits, CancelWrite, rest);
  }
}
