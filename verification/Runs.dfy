/** Runs of a deterministic machine: a start state and the actions taken one after the other. */
module Runs {
  function Run<S, A>(step: (S, A) -> S, s: S, acts: seq<A>): S {
    if acts == [] then s else Run(step, step(s, acts[0]), acts[1..])
  }

  /** Every action of the run is allowed in the state in which it is taken. */
  predicate Allowed<S, A>(step: (S, A) -> S, ok: (S, A) -> bool, s: S, acts: seq<A>) {
    acts == [] || (ok(s, acts[0]) && Allowed(step, ok, step(s, acts[0]), acts[1..]))
  }

  /** What every allowed action keeps holds after every allowed run. */
  lemma {:induction false} Invariant<S(!new), A(!new)>(step: (S, A) -> S, ok: (S, A) -> bool, inv: S -> bool, s: S, acts: seq<A>)
    requires inv(s) && Allowed(step, ok, s, acts)
    requires forall t, a :: inv(t) && ok(t, a) ==> inv(step(t, a))
    ensures inv(Run(step, s, acts))
  {
    if acts != [] {
      Invariant(step, ok, inv, step(s, acts[0]), acts[1..]);
    }
  }

  lemma {:induction false} RunConcat<S, A>(step: (S, A) -> S, s: S, a: seq<A>, b: seq<A>)
    ensures Run(step, s, a + b) == Run(step, Run(step, s, a), b)
  {
    if a == [] {
      assert a + b == b;
    } else {
      assert (a + b)[1..] == a[1..] + b;
      RunConcat(step, step(s, a[0]), a[1..], b);
    }
  }

  lemma {:induction false} RunOne<S, A>(step: (S, A) -> S, s: S, a: A)
    ensures Run(step, s, [a]) == step(s, a)
  {
    assert Run(step, step(s, a), [a][1..]) == step(s, a);
  }

  /** One more allowed action at the end. */
  lemma {:induction false} OneMore<S, A>(step: (S, A) -> S, ok: (S, A) -> bool, s: S, acts: seq<A>, a: A)
    requires Allowed(step, ok, s, acts) && ok(Run(step, s, acts), a)
    ensures Allowed(step, ok, s, acts + [a])
    ensures Run(step, s, acts + [a]) == step(Run(step, s, acts), a)
  {
    if acts == [] {
      assert acts + [a] == [a];
      RunOne(step, s, a);
    } else {
      assert (acts + [a])[1..] == acts[1..] + [a];
      OneMore(step, ok, step(s, acts[0]), acts[1..], a);
    }
  }

  lemma {:induction false} AllowedConcat<S, A>(step: (S, A) -> S, ok: (S, A) -> bool, s: S, a: seq<A>, b: seq<A>)
    requires Allowed(step, ok, s, a + b)
    ensures Allowed(step, ok, s, a) && Allowed(step, ok, Run(step, s, a), b)
  {
    if a == [] {
      assert a + b == b;
    } else {
      assert (a + b)[1..] == a[1..] + b;
      AllowedConcat(step, ok, step(s, a[0]), a[1..], b);
    }
  }
}
