/**
 * The search every lookup in the plugin performs: walk a list and return the
 * first element that fits, or null when none does (tool installations by
 * name, credentials and file credentials by id).
 */
module Lookup {
  import opened Wrappers

  /** The first element of `xs` satisfying `fits`, or None. */
  function FirstWhere<T>(xs: seq<T>, fits: T -> bool): (r: Option<T>)
    ensures r.Some? ==> r.value in xs && fits(r.value)
  {
    if xs == [] then None
    else if fits(xs[0]) then Some(xs[0])
    else FirstWhere(xs[1..], fits)
  }

  /** When the element at `i` fits and none before it does, it is the one found. */
  lemma {:induction false} FirstWhereAt<T>(xs: seq<T>, fits: T -> bool, i: nat)
    requires i < |xs| && fits(xs[i])
    requires forall k :: 0 <= k < i ==> !fits(xs[k])
    ensures FirstWhere(xs, fits) == Some(xs[i])
  {
    if i > 0 {
      assert !fits(xs[0]);
      forall k | 0 <= k < i - 1 ensures !fits(xs[1..][k]) {
        assert xs[1..][k] == xs[k + 1];
      }
      FirstWhereAt(xs[1..], fits, i - 1);
    }
  }

  /** Nothing is found exactly when no element fits. */
  lemma {:induction false} FirstWhereNone<T>(xs: seq<T>, fits: T -> bool)
    ensures FirstWhere(xs, fits).None? <==> forall k :: 0 <= k < |xs| ==> !fits(xs[k])
  {
    if xs != [] && !fits(xs[0]) {
      FirstWhereNone(xs[1..], fits);
      assert forall k :: 1 <= k < |xs| ==> xs[k] == xs[1..][k - 1];
    }
  }
}
