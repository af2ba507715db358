/** Paths of a step relation. */
module Paths {
  ghost predicate Linked<S(!new)>(next: (S, S) -> bool, states: seq<S>) {
    |states| > 0
    && forall k {:trigger next(states[k], states[k + 1])} :: 0 <= k < |states| - 1 ==> next(states[k], states[k + 1])
  }

  /** Some steps, possibly none, lead from `s` to `t`. */
  ghost predicate Leads<S(!new)>(next: (S, S) -> bool, s: S, t: S) {
    exists states {:trigger Linked(next, states)} :: Linked(next, states) && states[0] == s && states[|states| - 1] == t
  }

  lemma Stay<S(!new)>(next: (S, S) -> bool, s: S)
    ensures Leads(next, s, s)
  {
    assert Linked(next, [s]);
  }

  lemma Joined<S(!new)>(next: (S, S) -> bool, s: S, t: S, u: S)
    requires Leads(next, s, t) && Leads(next, t, u)
    ensures Leads(next, s, u)
  {
    var states, k := Through(next, s, t, u);
  }

  lemma Extended<S(!new)>(next: (S, S) -> bool, s: S, t: S, u: S)
    requires Leads(next, s, t) && next(t, u)
    ensures Leads(next, s, u)
  {
    assert Linked(next, [t, u]);
    assert Leads(next, t, u);
    Joined(next, s, t, u);
  }

  /** One path through the state in between, and where on the path that is. */
  lemma Through<S(!new)>(next: (S, S) -> bool, s: S, t: S, u: S) returns (states: seq<S>, k: nat)
    requires Leads(next, s, t) && Leads(next, t, u)
    ensures Linked(next, states) && k < |states| && states[0] == s && states[k] == t && states[|states| - 1] == u
  {
    var a :| Linked(next, a) && a[0] == s && a[|a| - 1] == t;
    var b :| Linked(next, b) && b[0] == t && b[|b| - 1] == u;
    states, k := a + b[1..], |a| - 1;
    forall i | 0 <= i < |states| - 1 ensures next(states[i], states[i + 1]) {
      if i < |a| - 1 {
        assert next(a[i], a[i + 1]);
      } else {
        var j := i - |a| + 1;
        assert next(b[j], b[j + 1]) && states[i] == b[j] && states[i + 1] == b[j + 1];
      }
    }
  }
}
