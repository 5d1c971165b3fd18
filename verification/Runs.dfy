/** Runs of a step function: the steps of all labels in order, as long as each can be made. */
module Runs {
  import opened Wrappers

  function RunOf<S, L>(step: (S, L) -> Option<S>, s: S, ls: seq<L>): Option<S>
    decreases |ls|
  {
    if ls == [] then Some(s)
    else match step(s, ls[0])
         case None => None
         case Some(t) => RunOf(step, t, ls[1..])
  }

  lemma {:induction false} RunOfMore<S, L>(step: (S, L) -> Option<S>, s: S, a: seq<L>, b: seq<L>)
    requires RunOf(step, s, a).Some?
    ensures RunOf(step, s, a + b) == RunOf(step, RunOf(step, s, a).value, b)
    decreases |a|
  {
    if a == [] {
      assert a + b == b;
    } else {
      assert (a + b)[1..] == a[1..] + b;
      RunOfMore(step, step(s, a[0]).value, a[1..], b);
    }
  }

  lemma RunOfOne<S, L>(step: (S, L) -> Option<S>, s: S, l: L)
    ensures RunOf(step, s, [l]) == step(s, l)
  {
    assert [l][1..] == [];
  }

  lemma RunOfFirst<S, L>(step: (S, L) -> Option<S>, s: S, l: L, t: S, ls: seq<L>)
    requires step(s, l) == Some(t)
    ensures RunOf(step, s, [l] + ls) == RunOf(step, t, ls)
  {
    assert ([l] + ls)[1..] == ls;
  }

  lemma {:induction false} RunOfLast<S, L>(step: (S, L) -> Option<S>, s: S, ls: seq<L>)
    requires ls != [] && RunOf(step, s, ls).Some?
    ensures var last := |ls| - 1;
            && RunOf(step, s, ls[..last]).Some?
            && step(RunOf(step, s, ls[..last]).value, ls[last]) == RunOf(step, s, ls)
    decreases |ls|
  {
    if |ls| > 1 {
      RunOfLast(step, step(s, ls[0]).value, ls[1..]);
      assert ls[1..][..|ls| - 2] == ls[..|ls| - 1][1..];
    } else {
      assert ls[1..] == [];
    }
  }

  ghost predicate ReachedBy<S, L(!new)>(step: (S, L) -> Option<S>, s: S, t: S) {
    exists ls: seq<L> :: RunOf(step, s, ls) == Some(t)
  }

  lemma ReachedOn<S, L(!new)>(step: (S, L) -> Option<S>, s: S, t: S, l: L, u: S)
    requires ReachedBy(step, s, t) && step(t, l) == Some(u)
    ensures ReachedBy(step, s, u)
  {
    var ls: seq<L> :| RunOf(step, s, ls) == Some(t);
    RunOfMore(step, s, ls, [l]);
    RunOfOne(step, t, l);
    assert RunOf(step, s, ls + [l]) == Some(u);
  }
}
