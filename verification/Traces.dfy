/** The states a state machine goes through. */
module Traces {
  /** `tr` are the states of a run that starts in `s` and takes the steps `more`. */
  ghost predicate Trace<S, T>(next: (S, T) -> S, s: S, more: seq<T>, tr: seq<S>) {
    && |tr| == |more| + 1 && tr[0] == s
    && forall c :: 0 <= c < |more| ==> Follows(next, tr, more, c)
  }

  ghost predicate Follows<S, T>(next: (S, T) -> S, tr: seq<S>, more: seq<T>, c: nat)
    requires c < |more| && |tr| == |more| + 1
  {
    tr[c + 1] == next(tr[c], more[c])
  }

  lemma {:induction false} TraceExists<S, T>(next: (S, T) -> S, s: S, more: seq<T>) returns (tr: seq<S>)
    ensures Trace(next, s, more, tr)
    decreases |more|
  {
    if more == [] {
      tr := [s];
    } else {
      var front := more[..|more| - 1];
      var before := TraceExists(next, s, front);
      tr := before + [next(before[|front|], more[|front|])];
      forall c | 0 <= c < |more| ensures Follows(next, tr, more, c) {
        if c < |front| { assert Follows(next, before, front, c); }
      }
    }
  }

  /** Up to any of its states a run is a run. */
  lemma {:induction false} TraceFront<S, T>(next: (S, T) -> S, s: S, more: seq<T>, tr: seq<S>, c: nat)
    requires Trace(next, s, more, tr) && c <= |more|
    ensures Trace(next, s, more[..c], tr[..c + 1])
  {
    var front, part := more[..c], tr[..c + 1];
    forall b | 0 <= b < c ensures Follows(next, part, front, b) {
      assert Follows(next, tr, more, b);
    }
  }

  lemma {:induction false} TraceOne<S, T>(next: (S, T) -> S, s: S, step: T)
    ensures Trace(next, s, [step], [s, next(s, step)])
  {
    var more, tr := [step], [s, next(s, step)];
    assert Follows(next, tr, more, 0);
  }

  lemma {:induction false} TracePrepend<S, T>(next: (S, T) -> S, s: S, step: T, more: seq<T>, tr: seq<S>)
    requires Trace(next, next(s, step), more, tr)
    ensures Trace(next, s, [step] + more, [s] + tr)
  {
    var more', tr' := [step] + more, [s] + tr;
    forall c | 0 <= c < |more'| ensures Follows(next, tr', more', c) {
      if c > 0 { assert Follows(next, tr, more, c - 1); }
    }
  }
}
