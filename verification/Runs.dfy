/**
 Runs of a machine given by its start and by which state follows which under an action,
 and the lists that machines keep.
 */
module Runs {

  /** `states` are what the actions lead through, one by one. */
  ghost predicate Run<S, A>(start: S, follows: (S, A, S) -> bool, states: seq<S>, acts: seq<A>) {
    && |states| == |acts| + 1
    && states[0] == start
    && forall i :: 0 <= i < |acts| ==> follows(states[i], acts[i], states[i + 1])
  }

  ghost predicate Reachable<S(!new), A(!new)>(start: S, follows: (S, A, S) -> bool, s: S) {
    exists states: seq<S>, acts: seq<A> :: Run(start, follows, states, acts) && states[|acts|] == s
  }

  lemma StartIsReachable<S(!new), A(!new)>(start: S, follows: (S, A, S) -> bool)
    ensures Reachable(start, follows, start)
  {
    var none: seq<A> := [];
    assert Run(start, follows, [start], none) && [start][|none|] == start;
  }

  lemma ReachOn<S(!new), A(!new)>(start: S, follows: (S, A, S) -> bool, s: S, a: A, t: S)
    requires Reachable(start, follows, s) && follows(s, a, t)
    ensures Reachable(start, follows, t)
  {
    var states, acts :| Run(start, follows, states, acts) && states[|acts|] == s;
    var more, all := states + [t], acts + [a];
    forall i | 0 <= i < |all| ensures follows(more[i], all[i], more[i + 1]) {
      assert i < |acts| ==> follows(states[i], acts[i], states[i + 1]);
    }
    assert Run(start, follows, more, all) && more[|all|] == t;
  }

  lemma ReachTogether<S(!new), A(!new)>(start: S, follows: (S, A, S) -> bool, s: S, t: S)
    requires Reachable(start, follows, s) && Reachable(s, follows, t)
    ensures Reachable(start, follows, t)
  {
    var first, before :| Run(start, follows, first, before) && first[|before|] == s;
    var next, after :| Run(s, follows, next, after) && next[|after|] == t;
    var states, acts := first + next[1..], before + after;
    forall i | 0 <= i < |acts| ensures follows(states[i], acts[i], states[i + 1]) {
      if i < |before| {
        assert follows(first[i], before[i], first[i + 1]);
      } else {
        var j := i - |before|;
        assert follows(next[j], after[j], next[j + 1]);
      }
    }
    assert Run(start, follows, states, acts) && states[|acts|] == t;
  }

  /** What holds at the start and is kept by every step holds throughout. */
  lemma {:induction false} Invariant<S(!new), A(!new)>(start: S, follows: (S, A, S) -> bool, inv: S -> bool,
                                                      states: seq<S>, acts: seq<A>, k: nat)
    requires Run(start, follows, states, acts) && k < |states| && inv(start)
    requires forall s, a, t :: inv(s) && follows(s, a, t) ==> inv(t)
    ensures inv(states[k])
  {
    if k > 0 {
      Invariant(start, follows, inv, states, acts, k - 1);
      assert follows(states[k - 1], acts[k - 1], states[k - 1 + 1]);
    }
  }

  /** What holds from the first event on holds after `k` steps exactly when one of them was an event. */
  lemma {:induction false} HoldsExactlySo<S(!new), A(!new)>(start: S, follows: (S, A, S) -> bool, inv: S -> bool,
                                                           holds: S -> bool, event: (S, A) -> bool,
                                                           states: seq<S>, acts: seq<A>, k: nat)
    requires Run(start, follows, states, acts) && k < |states| && inv(start) && !holds(start)
    requires forall s, a, t :: inv(s) && follows(s, a, t) ==> inv(t)
    requires forall s, a, t :: inv(s) && follows(s, a, t) ==> (holds(t) <==> holds(s) || event(s, a))
    ensures holds(states[k]) <==> exists i: nat :: i < k && event(states[i], acts[i])
  {
    if k > 0 {
      HoldsExactlySo(start, follows, inv, holds, event, states, acts, k - 1);
      Invariant(start, follows, inv, states, acts, k - 1);
      assert follows(states[k - 1], acts[k - 1], states[k - 1 + 1]);
    }
  }

  /** What steps set and clear holds after `k` of them exactly when one from `i` on set it and none cleared it since. */
  lemma {:induction false} HoldsSince<S(!new), A(!new)>(start: S, follows: (S, A, S) -> bool, holds: S -> bool,
                                                       sets: (S, A) -> bool, clears: (S, A) -> bool,
                                                       states: seq<S>, acts: seq<A>, i: nat, k: nat)
    requires Run(start, follows, states, acts) && i <= k < |states| && !holds(states[i])
    requires forall s, a, t :: follows(s, a, t) ==> (holds(t) <==> sets(s, a) || (holds(s) && !clears(s, a)))
    ensures holds(states[k]) <==>
            exists h: nat :: i <= h < k && sets(states[h], acts[h]) && NoneSince(clears, states, acts, h, k)
    decreases k
  {
    if i < k {
      var s, a := states[k - 1], acts[k - 1];
      HoldsSince(start, follows, holds, sets, clears, states, acts, i, k - 1);
      assert follows(s, a, states[k - 1 + 1]);
      if h: nat :| i <= h < k - 1 && sets(states[h], acts[h]) && NoneSince(clears, states, acts, h, k - 1) {
        assert !clears(s, a) ==> NoneSince(clears, states, acts, h, k);
      }
      if h: nat :| i <= h < k && sets(states[h], acts[h]) && NoneSince(clears, states, acts, h, k) {
        assert h < k - 1 ==> NoneSince(clears, states, acts, h, k - 1) && !clears(s, a);
      }
      assert sets(s, a) ==> NoneSince(clears, states, acts, k - 1, k);
    }
  }

  /** No step between `h` and `k` is such an event. */
  ghost predicate NoneSince<S, A>(event: (S, A) -> bool, states: seq<S>, acts: seq<A>, h: nat, k: nat) {
    k <= |acts| && k <= |states| && forall g :: h < g < k ==> !event(states[g], acts[g])
  }

  predicate NoRepeats<T(==)>(q: seq<T>) {
    forall i, j :: 0 <= i < j < |q| ==> q[i] != q[j]
  }

  lemma {:induction false} ListWithin<T>(q: seq<T>, all: set<T>)
    requires NoRepeats(q) && forall x :: x in q ==> x in all
    ensures |q| <= |all|
  {
    if q != [] {
      var n := |q| - 1;
      assert q[n] in q;
      forall x | x in q[..n] ensures x in all - {q[n]} {
        assert x in q;
      }
      ListWithin(q[..n], all - {q[n]});
    }
  }
}
