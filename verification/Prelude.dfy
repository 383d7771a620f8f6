/** Option and Result, used by every other module, and selections from a list. */
module Prelude {
  datatype Option<+T> = None | Some(value: T)

  datatype Result<+T, +E> = Ok(value: T) | Err(error: E)

  ghost predicate Increasing(p: seq<nat>) {
    forall k, m :: 0 <= k < m < |p| ==> p[k] < p[m]
  }

  lemma InitMembers(p: seq<nat>, i: nat)
    requires p != [] && Increasing(p)
    ensures i in p[..|p| - 1] <==> i in p && i != p[|p| - 1]
  {}

  lemma LastIsGreatest(p: seq<nat>, i: nat)
    requires Increasing(p) && i in p
    ensures i <= p[|p| - 1]
  {}

  /** Two increasing lists with the same members are the same list. */
  lemma {:induction false} SameIncreasing(p: seq<nat>, q: seq<nat>)
    requires Increasing(p) && Increasing(q) && forall i :: i in p <==> i in q
    ensures p == q
    decreases |p|
  {
    assert (p != [] ==> p[0] in q) && (q != [] ==> q[0] in p);
    if p != [] {
      var a, b := p[|p| - 1], q[|q| - 1];
      LastIsGreatest(q, a);
      LastIsGreatest(p, b);
      var p', q' := p[..|p| - 1], q[..|q| - 1];
      forall i ensures i in p' <==> i in q' {
        InitMembers(p, i);
        InitMembers(q, i);
      }
      SameIncreasing(p', q');
    }
  }

  /** `kept` is the rows at `positions`, in their order. */
  ghost predicate Picks<T>(rows: seq<T>, kept: seq<T>, positions: seq<nat>) {
    && |kept| == |positions| && Increasing(positions)
    && forall k :: 0 <= k < |positions| ==> positions[k] < |rows| && kept[k] == rows[positions[k]]
  }

  lemma SamePicks<T>(rows: seq<T>, a: seq<T>, b: seq<T>, p: seq<nat>, q: seq<nat>)
    requires Picks(rows, a, p) && Picks(rows, b, q) && forall i :: i in p <==> i in q
    ensures a == b
  {
    SameIncreasing(p, q);
  }
}
