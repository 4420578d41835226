/**
 Smooth weighted round-robin, on values: what one call of `Next` does to the
 list of nodes, and what that means over a run of calls.
 */
module SmoothWeights {
  import opened Iteration
  import opened Words

  datatype Node = Node(id: string, weight: int, cur: int)

  function SumWeights(ns: seq<Node>): int {
    if ns == [] then 0 else SumWeights(ns[..|ns| - 1]) + ns[|ns| - 1].weight
  }

  function SumCur(ns: seq<Node>): int {
    if ns == [] then 0 else SumCur(ns[..|ns| - 1]) + ns[|ns| - 1].cur
  }

  /** Every node's current weight raised by its own weight. */
  function Raised(ns: seq<Node>): seq<Node> {
    seq(|ns|, i requires 0 <= i < |ns| => ns[i].(cur := I64(ns[i].cur + ns[i].weight)))
  }

  /** Among the first `k` nodes, the first whose current weight no other exceeds. */
  function BestOf(ns: seq<Node>, k: nat): (b: nat)
    requires 0 < k <= |ns|
    ensures b < k
  {
    if k == 1 then 0
    else
      var b := BestOf(ns, k - 1);
      if ns[k - 1].cur > ns[b].cur then k - 1 else b
  }

  /** That node beats every earlier one, and no later one beats it. */
  lemma {:induction false} BestIsFirstMaximum(ns: seq<Node>, k: nat)
    requires 0 < k <= |ns|
    ensures forall j :: 0 <= j < k ==> ns[j].cur <= ns[BestOf(ns, k)].cur
    ensures forall j :: 0 <= j < BestOf(ns, k) ==> ns[j].cur < ns[BestOf(ns, k)].cur
  {
    if k > 1 {
      BestIsFirstMaximum(ns, k - 1);
    }
  }

  /** The index of the node that a call returns. */
  function Pick(ns: seq<Node>): (b: nat)
    ensures ns != [] ==> b < |ns|
  {
    if ns == [] then 0 else BestOf(Raised(ns), |ns|)
  }

  /** What a call leaves behind; with no node it changes nothing. */
  function Step(ns: seq<Node>, total: int): (r: seq<Node>)
    ensures |r| == |ns|
  {
    if ns == [] then []
    else
      var up, b := Raised(ns), Pick(ns);
      up[b := up[b].(cur := I64(up[b].cur - total))]
  }

  function Call(total: int): seq<Node> -> seq<Node> {
    ns => Step(ns, total)
  }

  function Chosen(): seq<Node> -> nat {
    ns => Pick(ns)
  }

  /** The nodes after `k` calls. */
  function Run(ns: seq<Node>, total: int, k: nat): seq<Node> {
    Iterate(Call(total), ns, k)
  }

  /** The indices that the first `k` calls return, in order. */
  function Trace(ns: seq<Node>, total: int, k: nat): seq<nat> {
    Observe(Call(total), Chosen(), ns, k)
  }

  function Count(ps: seq<nat>, i: nat): nat {
    if ps == [] then 0
    else Count(ps[..|ps| - 1], i) + (if ps[|ps| - 1] == i then 1 else 0)
  }

  /** How many of the first `k` calls return node `i`. */
  function Picks(ns: seq<Node>, total: int, k: nat, i: nat): nat {
    Count(Trace(ns, total, k), i)
  }

  /** Freshly added nodes: nobody is owed anything yet. */
  predicate Fresh(ns: seq<Node>) {
    forall i :: 0 <= i < |ns| ==> ns[i].cur == 0
  }

  /** Positive weights that `total` adds up and whose products stay inside an int64. */
  predicate Usable(ns: seq<Node>, total: int) {
    && ns != []
    && total == SumWeights(ns)
    && (forall i :: 0 <= i < |ns| ==> ns[i].weight >= 1)
    && |ns| * total <= MAX_INT64
  }

  /** What every call keeps: the debts cancel out and nobody owes a whole round. */
  predicate Balanced(ns: seq<Node>, total: int) {
    && Usable(ns, total)
    && SumCur(ns) == 0
    && (forall i :: 0 <= i < |ns| ==> ns[i].cur >= 1 - total)
  }

  // ---------------------------------------------------------------- sums

  lemma {:induction false} SumCurUpdate(ns: seq<Node>, i: nat, c: int)
    requires i < |ns|
    ensures SumCur(ns[i := ns[i].(cur := c)]) == SumCur(ns) - ns[i].cur + c
  {
    var n, up := |ns|, ns[i := ns[i].(cur := c)];
    if i == n - 1 {
      assert up[..n - 1] == ns[..n - 1];
    } else {
      SumCurUpdate(ns[..n - 1], i, c);
      assert up[..n - 1] == ns[..n - 1][i := ns[i].(cur := c)];
    }
  }

  lemma {:induction false} SumCurAtLeast(ns: seq<Node>, lo: int, i: nat)
    requires i < |ns|
    requires forall j :: 0 <= j < |ns| ==> ns[j].cur >= lo
    ensures SumCur(ns) >= ns[i].cur + (|ns| - 1) * lo
  {
    var n := |ns|;
    if n > 1 {
      if i == n - 1 {
        SumCurAtLeast(ns[..n - 1], lo, 0);
      } else {
        SumCurAtLeast(ns[..n - 1], lo, i);
      }
    }
  }

  lemma {:induction false} SumCurAtMostZero(ns: seq<Node>)
    requires forall j :: 0 <= j < |ns| ==> ns[j].cur <= 0
    ensures SumCur(ns) <= 0
  {
    if ns != [] {
      SumCurAtMostZero(ns[..|ns| - 1]);
    }
  }

  lemma {:induction false} SumCurZero(ns: seq<Node>)
    requires Fresh(ns)
    ensures SumCur(ns) == 0
  {
    if ns != [] {
      SumCurZero(ns[..|ns| - 1]);
    }
  }

  lemma {:induction false} SumWeightsAtLeast(ns: seq<Node>, i: nat)
    requires i < |ns|
    requires forall j :: 0 <= j < |ns| ==> ns[j].weight >= 1
    ensures SumWeights(ns) >= ns[i].weight + |ns| - 1
  {
    var n := |ns|;
    if n > 1 {
      SumWeightsAtLeast(ns[..n - 1], if i == n - 1 then 0 else i);
    }
  }

  lemma {:induction false} SumWeightsSame(a: seq<Node>, b: seq<Node>)
    requires |a| == |b|
    requires forall j :: 0 <= j < |a| ==> a[j].weight == b[j].weight
    ensures SumWeights(a) == SumWeights(b)
  {
    if a != [] {
      SumWeightsSame(a[..|a| - 1], b[..|b| - 1]);
    }
  }

  lemma {:induction false} SumCurRaised(ns: seq<Node>, up: seq<Node>)
    requires |up| == |ns|
    requires forall j :: 0 <= j < |ns| ==> up[j].cur == ns[j].cur + ns[j].weight
    ensures SumCur(up) == SumCur(ns) + SumWeights(ns)
  {
    if ns != [] {
      SumCurRaised(ns[..|ns| - 1], up[..|ns| - 1]);
    }
  }

  // ---------------------------------------------------------------- one call

  /** The highest current weight a balanced list can hold. */
  lemma CurUpperBound(ns: seq<Node>, total: int, i: nat)
    requires Balanced(ns, total) && i < |ns|
    ensures ns[i].cur <= (|ns| - 1) * (total - 1)
  {
    SumCurAtLeast(ns, 1 - total, i);
    assert (|ns| - 1) * (1 - total) == -((|ns| - 1) * (total - 1));
  }

  /** On a balanced list no addition of a call leaves the int64 range. */
  lemma CallStaysInRange(ns: seq<Node>, total: int, i: nat)
    requires Balanced(ns, total) && i < |ns|
    ensures MIN_INT64 <= ns[i].cur + ns[i].weight - total
    ensures ns[i].cur + ns[i].weight <= |ns| * total <= MAX_INT64
    ensures Raised(ns)[i].cur == ns[i].cur + ns[i].weight
  {
    CurUpperBound(ns, total, i);
    SumWeightsAtLeast(ns, i);
    var n := |ns|;
    assert (n - 1) * (total - 1) + total == n * total - (n - 1);
    assert n * total >= total by {
      assert (n - 1) * total >= 0;
    }
  }

  /** No addition of the next call leaves the int64 range. */
  predicate InRange(ns: seq<Node>, total: int) {
    forall i :: 0 <= i < |ns| ==> NodeInRange(ns[i], total)
  }

  predicate NodeInRange(n: Node, total: int) {
    && MIN_INT64 <= n.cur + n.weight <= MAX_INT64
    && MIN_INT64 <= n.cur + n.weight - total <= MAX_INT64
  }

  /** What a call does to each node when nothing wraps, whatever the debts are. */
  lemma StepInRange(ns: seq<Node>, total: int, i: nat)
    requires i < |ns| && NodeInRange(ns[i], total)
    ensures Raised(ns)[i] == ns[i].(cur := ns[i].cur + ns[i].weight)
    ensures Step(ns, total)[i] ==
      ns[i].(cur := ns[i].cur + ns[i].weight - (if i == Pick(ns) then total else 0))
  {
  }

  /** A call that stays in range leaves the sum of the debts, whatever it is, alone. */
  lemma CallConservesDebt(ns: seq<Node>, total: int)
    requires ns != [] && InRange(ns, total) && total == SumWeights(ns)
    ensures SumWeights(Step(ns, total)) == total
    ensures SumCur(Step(ns, total)) == SumCur(ns)
  {
    var up, b := Raised(ns), Pick(ns);
    forall j | 0 <= j < |ns|
      ensures up[j].cur == ns[j].cur + ns[j].weight
      ensures Step(ns, total)[j].weight == ns[j].weight
    {
      StepInRange(ns, total, j);
    }
    SumWeightsSame(ns, Step(ns, total));
    assert Step(ns, total) == up[b := up[b].(cur := up[b].cur - total)] by {
      StepInRange(ns, total, b);
    }
    SumCurRaised(ns, up);
    SumCurUpdate(up, b, up[b].cur - total);
  }

  /** The chosen node is the one that has been raised above zero. */
  lemma PickIsPositive(ns: seq<Node>, total: int)
    requires Balanced(ns, total)
    ensures Raised(ns)[Pick(ns)].cur >= 1
  {
    var up := Raised(ns);
    forall j | 0 <= j < |ns| ensures up[j].cur == ns[j].cur + ns[j].weight {
      CallStaysInRange(ns, total, j);
    }
    SumCurRaised(ns, up);
    SumWeightsAtLeast(ns, 0);
    if up[Pick(ns)].cur < 1 {
      BestIsFirstMaximum(up, |up|);
      SumCurAtMostZero(up);
    }
  }

  /** One call keeps the balance, and moves each node by its weight and its pick. */
  lemma StepKeepsBalance(ns: seq<Node>, total: int)
    requires Balanced(ns, total)
    ensures Balanced(Step(ns, total), total)
    ensures forall i :: 0 <= i < |ns| ==>
      Step(ns, total)[i] ==
        ns[i].(cur := ns[i].cur + ns[i].weight - (if i == Pick(ns) then total else 0))
  {
    forall j | 0 <= j < |ns| ensures NodeInRange(ns[j], total) {
      CallStaysInRange(ns, total, j);
      SumWeightsAtLeast(ns, 0);
    }
    CallConservesDebt(ns, total);
    forall i | 0 <= i < |ns|
      ensures Step(ns, total)[i] ==
        ns[i].(cur := ns[i].cur + ns[i].weight - (if i == Pick(ns) then total else 0))
    {
      StepInRange(ns, total, i);
    }
    PickIsPositive(ns, total);
    CallStaysInRange(ns, total, Pick(ns));
  }

  // ---------------------------------------------------------------- runs

  lemma PicksNext(ns: seq<Node>, total: int, k: nat, i: nat)
    ensures Picks(ns, total, k + 1, i) ==
            Picks(ns, total, k, i) + (if i == Pick(Run(ns, total, k)) then 1 else 0)
  {
    var t := Trace(ns, total, k + 1);
    assert t[..k] == Trace(ns, total, k);
  }

  /** Where node `n` stands after `k` calls of which `p` returned it. */
  function Moved(n: Node, total: int, k: nat, p: nat): Node {
    n.(cur := n.cur + k * n.weight - total * p)
  }

  lemma MovedOnce(n: Node, total: int, k: nat, p: nat, p': nat, picked: bool)
    requires p' == p + (if picked then 1 else 0)
    ensures var m := Moved(n, total, k, p);
      m.(cur := m.cur + m.weight - (if picked then total else 0)) == Moved(n, total, k + 1, p')
  {
    assert total * (p + 1) == total * p + total;
    assert (k + 1) * n.weight == k * n.weight + n.weight;
  }

  lemma {:induction false} RunKeepsBalance(ns: seq<Node>, total: int, k: nat)
    requires Balanced(ns, total)
    ensures Balanced(Run(ns, total, k), total) && |Run(ns, total, k)| == |ns|
  {
    if k > 0 {
      RunKeepsBalance(ns, total, k - 1);
      StepKeepsBalance(Run(ns, total, k - 1), total);
    }
  }

  lemma StepMoves(ns: seq<Node>, total: int, k: nat, i: nat)
    requires Balanced(ns, total) && i < |ns|
    ensures |Run(ns, total, k)| == |Run(ns, total, k + 1)| == |ns|
    ensures var m := Run(ns, total, k)[i];
      Run(ns, total, k + 1)[i] ==
        m.(cur := m.cur + m.weight - (if i == Pick(Run(ns, total, k)) then total else 0))
  {
    RunKeepsBalance(ns, total, k);
    StepKeepsBalance(Run(ns, total, k), total);
  }

  lemma RunMovesNext(ns: seq<Node>, total: int, k: nat, i: nat)
    requires Balanced(ns, total) && i < |ns|
    requires |Run(ns, total, k)| == |ns|
    requires Run(ns, total, k)[i] == Moved(ns[i], total, k, Picks(ns, total, k, i))
    ensures |Run(ns, total, k + 1)| == |ns|
    ensures Run(ns, total, k + 1)[i] == Moved(ns[i], total, k + 1, Picks(ns, total, k + 1, i))
  {
    StepMoves(ns, total, k, i);
    PicksNext(ns, total, k, i);
    MovedOnce(ns[i], total, k, Picks(ns, total, k, i), Picks(ns, total, k + 1, i),
              i == Pick(Run(ns, total, k)));
  }

  /** From any balanced list, a run moves each node by its weights and its picks. */
  lemma {:induction false} RunMoves(ns: seq<Node>, total: int, k: nat, i: nat)
    requires Balanced(ns, total) && i < |ns|
    ensures |Run(ns, total, k)| == |ns|
    ensures Run(ns, total, k)[i] == Moved(ns[i], total, k, Picks(ns, total, k, i))
  {
    if k > 0 {
      RunMoves(ns, total, k - 1, i);
      RunMovesNext(ns, total, k - 1, i);
    }
  }

  lemma FreshIsBalanced(ns: seq<Node>, total: int)
    requires Usable(ns, total) && Fresh(ns)
    ensures Balanced(ns, total)
  {
    SumCurZero(ns);
    SumWeightsAtLeast(ns, 0);
  }

  /**
   From any balanced list the current weight is exactly what is owed: what was owed at
   first, and `k * weight` less `total` a pick.
   */
  lemma CurIsWhatIsOwed(ns: seq<Node>, total: int, k: nat, i: nat)
    requires Balanced(ns, total) && i < |ns|
    ensures |Run(ns, total, k)| == |ns|
    ensures Run(ns, total, k)[i].cur == ns[i].cur + k * ns[i].weight - total * Picks(ns, total, k, i)
    ensures 1 - total <= Run(ns, total, k)[i].cur <= (|ns| - 1) * (total - 1)
  {
    RunKeepsBalance(ns, total, k);
    RunMoves(ns, total, k, i);
    CurUpperBound(Run(ns, total, k), total, i);
  }

  /** No prefix of a run gives a node more than what it was owed at first and its share, rounded up. */
  lemma PrefixQuota(ns: seq<Node>, total: int, k: nat, i: nat)
    requires Balanced(ns, total) && i < |ns|
    ensures total > 0
    ensures Picks(ns, total, k, i) <= (ns[i].cur + k * ns[i].weight + total - 1) / total
  {
    SumWeightsAtLeast(ns, i);
    CurIsWhatIsOwed(ns, total, k, i);
    AtMostQuotient(Picks(ns, total, k, i), total, ns[i].cur + k * ns[i].weight + total - 1);
  }

  lemma AtMostQuotient(p: int, d: int, x: int)
    requires d > 0 && d * p <= x
    ensures p <= x / d
  {
    var q := x / d;
    assert d * (q + 1) == d * q + d;
    MulCancels(d, p, q + 1);
  }

  lemma MulCancels(d: int, a: int, b: int)
    requires d > 0 && d * a < d * b
    ensures a < b
  {
    if a >= b {
      MulMonotone(d, b, a);
    }
  }

  lemma MulMonotone(d: int, a: int, b: int)
    requires d >= 0 && a <= b
    ensures d * a <= d * b
  {
    assert d * (b - a) >= 0;
  }

  /** How many entries of `ps` are below `m`. */
  function CountBelow(ps: seq<nat>, m: nat): nat {
    if m == 0 then 0 else CountBelow(ps, m - 1) + Count(ps, m - 1)
  }

  lemma {:induction false} CountBelowExtends(ps: seq<nat>, p: nat, m: nat)
    ensures CountBelow(ps + [p], m) == CountBelow(ps, m) + (if p < m then 1 else 0)
  {
    if m > 0 {
      CountBelowExtends(ps, p, m - 1);
      assert (ps + [p])[..|ps|] == ps;
    }
  }

  lemma EveryPickIsANode(ns: seq<Node>, total: int, k: nat)
    requires Balanced(ns, total)
    ensures forall j :: 0 <= j < k ==> Trace(ns, total, k)[j] < |ns|
  {
    forall j: nat | j < k ensures Trace(ns, total, k)[j] < |ns| {
      ObserveAt(Call(total), Chosen(), ns, k, j);
      RunKeepsBalance(ns, total, j);
    }
  }

  lemma {:induction false} CountBelowEmpty(m: nat)
    ensures CountBelow([], m) == 0
  {
    if m > 0 {
      CountBelowEmpty(m - 1);
    }
  }

  /** A sequence of indices below `n` is all accounted for by its first `n` counts. */
  lemma {:induction false} CountsAddUp(ps: seq<nat>, n: nat)
    requires forall j :: 0 <= j < |ps| ==> ps[j] < n
    ensures CountBelow(ps, n) == |ps|
  {
    if ps == [] {
      CountBelowEmpty(n);
    } else {
      var front, last := ps[..|ps| - 1], ps[|ps| - 1];
      assert ps == front + [last];
      CountsAddUp(front, n);
      CountBelowExtends(front, last, n);
    }
  }

  /** Counts that are each at most the weight and add up to all of it are the weights. */
  lemma {:induction false} TightCounts(ns: seq<Node>, ps: seq<nat>)
    requires forall i :: 0 <= i < |ns| ==> Count(ps, i) <= ns[i].weight
    ensures CountBelow(ps, |ns|) <= SumWeights(ns)
    ensures CountBelow(ps, |ns|) == SumWeights(ns) ==>
              forall i :: 0 <= i < |ns| ==> Count(ps, i) == ns[i].weight
  {
    if ns != [] {
      var front := ns[..|ns| - 1];
      forall i | 0 <= i < |front| ensures Count(ps, i) <= front[i].weight {
        assert front[i] == ns[i];
      }
      TightCounts(front, ps);
    }
  }

  /** One period gives every node exactly its weight. */
  lemma PeriodIsFair(ns: seq<Node>, total: int)
    requires Usable(ns, total) && Fresh(ns)
    ensures total > 0
    ensures forall i :: 0 <= i < |ns| ==> Picks(ns, total, total, i) == ns[i].weight
  {
    FreshIsBalanced(ns, total);
    SumWeightsAtLeast(ns, 0);
    var ps := Trace(ns, total, total);
    EveryPickIsANode(ns, total, total);
    forall i | 0 <= i < |ns| ensures Count(ps, i) <= ns[i].weight {
      PrefixQuota(ns, total, total, i);
      RoundedShare(total, ns[i].weight);
    }
    CountsAddUp(ps, |ns|);
    TightCounts(ns, ps);
  }

  /** One period gives every node exactly its weight and brings the list back. */
  lemma ExactFairness(ns: seq<Node>, total: int)
    requires Usable(ns, total) && Fresh(ns)
    ensures total > 0
    ensures forall i :: 0 <= i < |ns| ==> Picks(ns, total, total, i) == ns[i].weight
    ensures Run(ns, total, total) == ns
  {
    PeriodIsFair(ns, total);
    FreshIsBalanced(ns, total);
    RunKeepsBalance(ns, total, total);
    forall i | 0 <= i < |ns| ensures Run(ns, total, total)[i] == ns[i] {
      RunMoves(ns, total, total, i);
    }
  }

  lemma RoundedShare(d: int, w: int)
    requires d > 0
    ensures (d * w + d - 1) / d == w
  {
    var x := d * w + d - 1;
    var q := x / d;
    assert x == d * q + x % d;
    assert d * (q + 1) == d * q + d && d * (w + 1) == d * w + d;
    MulCancels(d, w, q + 1);
    MulCancels(d, q, w + 1);
  }

  /** The run repeats with period `total`. */
  lemma Periodic(ns: seq<Node>, total: int, k: nat)
    requires Usable(ns, total) && Fresh(ns)
    ensures total > 0
    ensures Run(ns, total, total + k) == Run(ns, total, k)
  {
    ExactFairness(ns, total);
    IterateComposes(Call(total), ns, total, k);
  }

  lemma {:induction false} CountConcat(a: seq<nat>, b: seq<nat>, i: nat)
    ensures Count(a + b, i) == Count(a, i) + Count(b, i)
  {
    if b == [] {
      assert a + b == a;
    } else {
      assert (a + b)[..|a + b| - 1] == a + b[..|b| - 1];
      CountConcat(a, b[..|b| - 1], i);
    }
  }

  lemma PicksCompose(ns: seq<Node>, total: int, a: nat, b: nat, i: nat)
    ensures Picks(ns, total, a + b, i) == Picks(ns, total, a, i) + Picks(Run(ns, total, a), total, b, i)
  {
    ObserveComposes(Call(total), Chosen(), ns, a, b);
    CountConcat(Trace(ns, total, a), Trace(Run(ns, total, a), total, b), i);
  }

  /** Any window of `total` consecutive calls is exactly fair, wherever it starts. */
  lemma EveryWindowIsFair(ns: seq<Node>, total: int, k: nat, i: nat)
    requires Usable(ns, total) && Fresh(ns) && i < |ns|
    ensures total > 0
    ensures Picks(Run(ns, total, k), total, total, i) == ns[i].weight
  {
    ExactFairness(ns, total);
    PicksCompose(ns, total, total, k, i);
    PicksCompose(ns, total, k, total, i);
  }

  // ---------------------------------------------------------------- gaps

  lemma {:induction false} AbsentIsUncounted(ps: seq<nat>, i: nat)
    requires i !in ps
    ensures Count(ps, i) == 0
  {
    if ps != [] {
      AbsentIsUncounted(ps[..|ps| - 1], i);
    }
  }

  /** Over enough calls an unpicked node would gain more than its bounds leave room for. */
  lemma LongWait(n: int, total: int, w: int, c: int, k: int, d: int, p: int, p': int)
    requires d * w > n * (total - 1)
    requires c + k * w - total * p >= 1 - total
    requires c + (k + d) * w - total * p' <= (n - 1) * (total - 1)
    ensures p' != p
  {
    assert (k + d) * w == k * w + d * w;
    assert n * (total - 1) == (n - 1) * (total - 1) + (total - 1);
  }

  /** Wherever a run stands, `d` more calls return node `i` if `d * weight > n * (total - 1)`. */
  lemma PickedAmongNext(ns: seq<Node>, total: int, k: nat, d: nat, i: nat)
    requires Balanced(ns, total) && i < |ns|
    requires d * ns[i].weight > |ns| * (total - 1)
    ensures i in Trace(Run(ns, total, k), total, d)
  {
    CurIsWhatIsOwed(ns, total, k, i);
    CurIsWhatIsOwed(ns, total, k + d, i);
    LongWait(|ns|, total, ns[i].weight, ns[i].cur, k, d, Picks(ns, total, k, i), Picks(ns, total, k + d, i));
    PicksCompose(ns, total, k, d, i);
    var ps := Trace(Run(ns, total, k), total, d);
    if i !in ps {
      AbsentIsUncounted(ps, i);
    }
  }

  /** The longest wait of a node of weight `w` among `n` nodes. */
  function GapBound(n: nat, total: nat, w: nat): (d: nat)
    requires total > 0 && w > 0
    ensures d * w > n * (total - 1)
  {
    var x := n * (total - 1);
    assert (x / w + 1) * w == w * (x / w) + w;
    x / w + 1
  }

  /** Wherever a run stands, node `i` is among the next `n * (total - 1) / weight + 1` picks. */
  lemma BoundedGap(ns: seq<Node>, total: int, k: nat, i: nat)
    requires Balanced(ns, total) && i < |ns| && total > 0
    ensures i in Trace(Run(ns, total, k), total, GapBound(|ns|, total, ns[i].weight))
  {
    PickedAmongNext(ns, total, k, GapBound(|ns|, total, ns[i].weight), i);
  }
}
