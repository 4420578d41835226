/** Running a machine: its states, and what an observer sees, call by call. */
module Iteration {

  /** The state after `k` calls of `f`. */
  function Iterate<S>(f: S -> S, s: S, k: nat): S {
    if k == 0 then s else f(Iterate(f, s, k - 1))
  }

  /** What `g` shows of the states that the first `k` calls start from. */
  function Observe<S, O>(f: S -> S, g: S -> O, s: S, k: nat): (os: seq<O>)
    ensures |os| == k
  {
    if k == 0 then [] else Observe(f, g, s, k - 1) + [g(Iterate(f, s, k - 1))]
  }

  /** Running on from where a run stopped. */
  lemma {:induction false} IterateComposes<S>(f: S -> S, s: S, a: nat, b: nat)
    ensures Iterate(f, Iterate(f, s, a), b) == Iterate(f, s, a + b)
  {
    if b > 0 {
      IterateComposes(f, s, a, b - 1);
    }
  }

  lemma {:induction false} ObserveAt<S, O>(f: S -> S, g: S -> O, s: S, k: nat, j: nat)
    requires j < k
    ensures Observe(f, g, s, k)[j] == g(Iterate(f, s, j))
  {
    if j < k - 1 {
      ObserveAt(f, g, s, k - 1, j);
    }
  }

  lemma ObserveComposes<S, O>(f: S -> S, g: S -> O, s: S, a: nat, b: nat)
    ensures Observe(f, g, s, a + b) == Observe(f, g, s, a) + Observe(f, g, Iterate(f, s, a), b)
  {
    var mid := Iterate(f, s, a);
    var whole, parts := Observe(f, g, s, a + b), Observe(f, g, s, a) + Observe(f, g, mid, b);
    forall j: nat | j < a + b ensures whole[j] == parts[j] {
      ObserveAt(f, g, s, a + b, j);
      if j < a {
        ObserveAt(f, g, s, a, j);
      } else {
        ObserveAt(f, g, mid, b, j - a);
        IterateComposes(f, s, a, j - a);
      }
    }
  }
}
