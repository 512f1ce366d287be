/**
 Runs of a state machine, given by which events it allows in a state and what an allowed event
 leads to.
 */
module Runs {

  predicate IsRun<S, E>(enabled: (S, E) -> bool, next: (S, E) -> S, s: S, run: seq<E>)
    decreases |run|
  {
    run == [] || (enabled(s, run[0]) && IsRun(enabled, next, next(s, run[0]), run[1..]))
  }

  /** The state a run ends in. */
  function After<S, E>(next: (S, E) -> S, s: S, run: seq<E>): (t: S)
    decreases |run|
  {
    if run == [] then s else After(next, next(s, run[0]), run[1..])
  }

  lemma {:induction false} RunAppend<S, E>(enabled: (S, E) -> bool, next: (S, E) -> S, s: S, run: seq<E>, more: seq<E>)
    requires IsRun(enabled, next, s, run)
    ensures IsRun(enabled, next, s, run + more) <==> IsRun(enabled, next, After(next, s, run), more)
    ensures After(next, s, run + more) == After(next, After(next, s, run), more)
    decreases |run|
  {
    if run == [] {
      assert run + more == more;
    } else {
      RunAppend(enabled, next, next(s, run[0]), run[1..], more);
      assert (run + more)[1..] == run[1..] + more;
    }
  }

  lemma RunOfOne<S, E>(enabled: (S, E) -> bool, next: (S, E) -> S, s: S, run: seq<E>, e: E)
    requires run == [e] && enabled(s, e)
    ensures IsRun(enabled, next, s, run) && After(next, s, run) == next(s, e)
  {
    assert run[1..] == [];
    assert IsRun(enabled, next, next(s, e), run[1..]);
    assert After(next, next(s, e), run[1..]) == next(s, e);
  }

  lemma RunSnoc<S, E>(enabled: (S, E) -> bool, next: (S, E) -> S, s: S, run: seq<E>, e: E)
    requires IsRun(enabled, next, s, run) && enabled(After(next, s, run), e)
    ensures IsRun(enabled, next, s, run + [e])
    ensures After(next, s, run + [e]) == next(After(next, s, run), e)
  {
    RunOfOne(enabled, next, After(next, s, run), [e], e);
    RunAppend(enabled, next, s, run, [e]);
  }

  lemma {:induction false} RunLast<S, E>(enabled: (S, E) -> bool, next: (S, E) -> S, s: S, run: seq<E>)
    requires IsRun(enabled, next, s, run) && run != []
    ensures var n := |run| - 1;
            var before := After(next, s, run[..n]);
            && IsRun(enabled, next, s, run[..n]) && enabled(before, run[n])
            && After(next, s, run) == next(before, run[n])
    decreases |run|
  {
    var n := |run| - 1;
    if n == 0 {
      assert run[1..] == [];
    } else {
      RunLast(enabled, next, next(s, run[0]), run[1..]);
      assert run[..n][1..] == run[1..][..n - 1];
    }
  }
}
