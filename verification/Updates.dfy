/** Runs of `update(offset:)`, `update(inset:)` and `update(priority:)` on one constraint, as values. */
module Updates {
  import opened ConstantTargets
  import opened Drafts

  const REQUIRED: real := 1000.0

  datatype Update =
    | ToOffset(amount: real)
    | ToInset(inset: InsetTarget)
    | ToPriority(priority: real)

  function OwnerConstant(k: ConstantTarget, us: seq<Update>): ConstantTarget {
    if us == [] then k
    else
      match us[|us| - 1]
      case ToOffset(amount) => Scalar(amount)
      case ToInset(inset) => InsetValue(inset)
      case ToPriority(_) => OwnerConstant(k, us[..|us| - 1])
  }

  function OwnerPriority(p: real, us: seq<Update>): real {
    if us == [] then p
    else if us[|us| - 1].ToPriority? then us[|us| - 1].priority
    else OwnerPriority(p, us[..|us| - 1])
  }

  /** What one call of the property observers does to a child's priority. */
  function PriorityStep(child: real, owner: real): real {
    if child < REQUIRED && owner != REQUIRED then owner else child
  }

  /** A child's priority after a run: every update, of whatever kind, takes one step with the owner's priority. */
  function ChildPriority(child: real, owner: real, us: seq<Update>): real {
    if us == [] then child
    else PriorityStep(ChildPriority(child, owner, us[..|us| - 1]), OwnerPriority(owner, us))
  }

  /** The priorities a run asks for, oldest first. */
  function History(us: seq<Update>): seq<real> {
    if us == [] then []
    else
      var front := History(us[..|us| - 1]);
      match us[|us| - 1]
      case ToPriority(p) => front + [p]
      case ToOffset(_) => front
      case ToInset(_) => front
  }

  /** The most recent priority other than required, or the one before all of them. */
  function LatestNonRequired(p: real, history: seq<real>): real {
    if history == [] then p
    else if history[|history| - 1] != REQUIRED then history[|history| - 1]
    else LatestNonRequired(p, history[..|history| - 1])
  }

  /** The last update that is not a priority, if there is one, is the j-th. */
  predicate LastChange(us: seq<Update>, j: nat) {
    j < |us| && !us[j].ToPriority? && forall i :: j < i < |us| ==> us[i].ToPriority?
  }

  /** The last priority asked for, if there is one, is the j-th. */
  predicate LastPriority(us: seq<Update>, j: nat) {
    j < |us| && us[j].ToPriority? && forall i :: j < i < |us| ==> !us[i].ToPriority?
  }

  /** The constant is the last offset or inset asked for, and stays as it was if there is none. */
  lemma {:induction false} ConstantFollowsLast(k: ConstantTarget, us: seq<Update>)
    ensures forall j: nat :: LastChange(us, j) && us[j].ToOffset? ==> OwnerConstant(k, us) == Scalar(us[j].amount)
    ensures forall j: nat :: LastChange(us, j) && us[j].ToInset? ==> HasSides(OwnerConstant(k, us), us[j].inset)
    ensures (forall j :: 0 <= j < |us| ==> us[j].ToPriority?) ==> OwnerConstant(k, us) == k
  {
    if us == [] {
    } else {
      var last, front := |us| - 1, us[..|us| - 1];
      ConstantFollowsLast(k, front);
      forall j: nat | LastChange(us, j) && j != last ensures LastChange(front, j) && us[j] == front[j] {}
    }
  }

  /** The owner's priority is the last one asked for, and stays as it was if there is none. */
  lemma {:induction false} PriorityFollowsLast(p: real, us: seq<Update>)
    ensures forall j: nat :: LastPriority(us, j) ==> OwnerPriority(p, us) == us[j].priority
    ensures (forall j :: 0 <= j < |us| ==> !us[j].ToPriority?) ==> OwnerPriority(p, us) == p
  {
    if us == [] {
    } else {
      var last, front := |us| - 1, us[..|us| - 1];
      PriorityFollowsLast(p, front);
      forall j: nat | LastPriority(us, j) && j != last ensures LastPriority(front, j) && us[j] == front[j] {}
    }
  }

  /** A child created required stays required through every run. */
  lemma {:induction false} RequiredStaysRequired(p: real, owner: real, us: seq<Update>)
    requires p >= REQUIRED
    ensures ChildPriority(p, owner, us) == p
  {
    if us == [] {
    } else {
      RequiredStaysRequired(p, owner, us[..|us| - 1]);
    }
  }

  /**
   * A child created below required holds the most recent non-required priority of the run's history, however offset and
   * inset updates are mixed in, and is never promoted to required.
   */
  lemma {:induction false} OptionalFollowsHistory(p: real, us: seq<Update>)
    requires p < REQUIRED
    requires forall i :: 0 <= i < |us| ==> us[i].ToPriority? ==> us[i].priority <= REQUIRED
    ensures ChildPriority(p, p, us) == LatestNonRequired(p, History(us)) < REQUIRED
    ensures OwnerPriority(p, us) == REQUIRED || OwnerPriority(p, us) == ChildPriority(p, p, us)
  {
    if us == [] {
    } else {
      var last := |us| - 1;
      var front := us[..last];
      assert forall i :: 0 <= i < last ==> front[i] == us[i];
      OptionalFollowsHistory(p, front);
      if us[last].ToPriority? {
        assert History(us)[..|History(us)| - 1] == History(front);
      }
    }
  }
}
