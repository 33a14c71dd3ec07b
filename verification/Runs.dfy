/** Runs of a state machine: what a list of events does, one after the other. */
module Runs {
  import opened Wrappers

  /** The state after the events, or `None` if one of them could not happen when it was due. */
  function Run<S, E>(next: (S, E) -> Option<S>, s: S, es: seq<E>): Option<S>
    decreases |es|
  {
    if es == [] then Some(s)
    else match next(s, es[0])
      case None => None
      case Some(t) => Run(next, t, es[1..])
  }

  /** Some run leads from the first state to the second. */
  ghost predicate Leads<S(!new), E(!new)>(next: (S, E) -> Option<S>, s: S, t: S) {
    exists es :: Run(next, s, es) == Some(t)
  }

  lemma {:induction false} RunThen<S, E>(next: (S, E) -> Option<S>, s: S, es: seq<E>, e: E)
    requires Run(next, s, es).Some?
    ensures Run(next, s, es + [e]) == next(Run(next, s, es).value, e)
    decreases |es|
  {
    if es == [] {
      assert ([] + [e])[1..] == [];
    } else {
      assert (es + [e])[1..] == es[1..] + [e];
      RunThen(next, next(s, es[0]).value, es[1..], e);
    }
  }

  /** A run can be cut anywhere: the first events are a run, which the next event continues. */
  lemma {:induction false} RunCut<S, E>(next: (S, E) -> Option<S>, s: S, es: seq<E>, n: nat)
    requires Run(next, s, es).Some? && n <= |es|
    ensures Run(next, s, es[..n]).Some?
    ensures n < |es| ==> Run(next, s, es[..n + 1]) == next(Run(next, s, es[..n]).value, es[n])
    decreases |es| - n
  {
    if n == |es| {
      assert es[..n] == es;
    } else {
      RunCut(next, s, es, n + 1);
      RunCutLast(next, s, es[..n + 1]);
      assert es[..n + 1] == es[..n] + [es[n]];
      RunThen(next, s, es[..n], es[n]);
    }
  }

  lemma {:induction false} RunCutLast<S, E>(next: (S, E) -> Option<S>, s: S, es: seq<E>)
    requires es != [] && Run(next, s, es).Some?
    ensures Run(next, s, es[..|es| - 1]).Some?
    decreases |es|
  {
    if |es| > 1 {
      RunCutLast(next, next(s, es[0]).value, es[1..]);
      assert es[1..][..|es| - 2] == es[..|es| - 1][1..];
    }
  }

  lemma Stays<S(!new), E(!new)>(next: (S, E) -> Option<S>, s: S)
    ensures Leads(next, s, s)
  {
    assert Run(next, s, []) == Some(s);
  }

  lemma Onward<S(!new), E(!new)>(next: (S, E) -> Option<S>, s: S, t: S, e: E, u: S)
    requires Leads(next, s, t) && next(t, e) == Some(u)
    ensures Leads(next, s, u)
  {
    var es :| Run(next, s, es) == Some(t);
    RunThen(next, s, es, e);
  }
}
