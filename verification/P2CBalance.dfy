/**
 The power-of-two-choices balancer: two different nodes are drawn, the one with the
 lower load is taken unless the other has waited too long, and every answer feeds the
 node's moving averages. Clock readings, draws, loads and the decay of the averages
 are parameters.
 */
module P2CBalance {
  import opened Ids
  import opened Options

  const SECOND: int := 1_000_000_000
  const FORCE_PICK_TIMEOUT: int := SECOND
  const INIT_SUCCESS: real := 1000.0
  const THROTTLE_SUCCESS: real := 500.0
  const PENALTY: int := 0x7fff_ffff

  datatype P2CNode = P2CNode(
    id: Id,
    weight: int,
    lag: real,
    inflight: int,
    success: real,
    requests: int,
    lastPick: int,
    stamp: int)

  function NewNode(id: Id, weight: int, now: int): P2CNode {
    P2CNode(id, weight, 0.0, 0, INIT_SUCCESS, 0, 0, now)
  }

  // --------------------------------------------------------------------------- load

  /** `sqrt` is any non-negative function in the place of the square root. */
  function Load(n: P2CNode, sqrt: real -> real): int {
    if n.success < THROTTLE_SUCCESS then PENALTY
    else
      var w := if n.weight <= 0 then 1 else n.weight;
      Truncated(Weighed(sqrt(n.lag + 1.0), n.inflight + 1, w))
  }

  function Weighed(s: real, requests: int, weight: int): real
    requires weight > 0
  {
    s * requests as real / weight as real
  }

  /** The integer part, towards zero. */
  function Truncated(x: real): int {
    if x >= 0.0 then x.Floor else -(-x).Floor
  }

  /** A healthy node's load never falls when it is given one more request. */
  lemma LoadGrows(n: P2CNode, sqrt: real -> real)
    requires n.inflight >= 0 && sqrt(n.lag + 1.0) >= 0.0
    ensures Load(n, sqrt) <= Load(n.(inflight := n.inflight + 1), sqrt)
  {
    if n.success >= THROTTLE_SUCCESS {
      var w := if n.weight <= 0 then 1 else n.weight;
      WeighedGrows(sqrt(n.lag + 1.0), n.inflight + 1, w);
      TruncatedGrows(Weighed(sqrt(n.lag + 1.0), n.inflight + 1, w), Weighed(sqrt(n.lag + 1.0), n.inflight + 1 + 1, w));
    }
  }

  lemma WeighedGrows(s: real, requests: int, weight: int)
    requires s >= 0.0 && requests >= 0 && weight > 0
    ensures 0.0 <= Weighed(s, requests, weight) <= Weighed(s, requests + 1, weight)
  {
    ScaledGrows(s, requests as real, (requests + 1) as real, weight as real);
  }

  /** Nor does it rise when the node is given a larger weight. */
  lemma LoadFallsWithWeight(n: P2CNode, sqrt: real -> real, weight: int)
    requires n.inflight >= 0 && sqrt(n.lag + 1.0) >= 0.0 && n.weight <= weight
    ensures Load(n.(weight := weight), sqrt) <= Load(n, sqrt)
  {
    if n.success >= THROTTLE_SUCCESS {
      var v, w := if n.weight <= 0 then 1 else n.weight, if weight <= 0 then 1 else weight;
      var s, k := sqrt(n.lag + 1.0), n.inflight + 1;
      WeighedFalls(s, k, v, w);
      TruncatedGrows(Weighed(s, k, w), Weighed(s, k, v));
    }
  }

  lemma WeighedFalls(s: real, requests: int, v: int, w: int)
    requires s >= 0.0 && requests >= 0 && 0 < v <= w
    ensures 0.0 <= Weighed(s, requests, w) <= Weighed(s, requests, v)
  {
    ScaledGrows(s, 0.0, requests as real, w as real);
    SharedByMore(s * requests as real, v as real, w as real);
  }

  lemma SharedByMore(x: real, v: real, w: real)
    requires x >= 0.0 && 0.0 < v <= w
    ensures 0.0 <= x / w <= x / v
  {
    var q, p := x / w, x / v;
    QuotientOrder(0.0, x, w);
    assert q * v <= q * w == x == p * v;
  }

  lemma TruncatedGrows(x: real, y: real)
    requires 0.0 <= x <= y
    ensures Truncated(x) <= Truncated(y)
  {
  }

  lemma ScaledGrows(s: real, k: real, m: real, w: real)
    requires s >= 0.0 && 0.0 <= k <= m && w > 0.0
    ensures 0.0 <= s * k / w <= s * m / w
  {
    assert s * m - s * k == s * (m - k) >= 0.0;
    assert s * k >= 0.0;
    QuotientOrder(s * k, s * m, w);
    QuotientOrder(0.0, s * k, w);
  }

  lemma QuotientOrder(x: real, y: real, w: real)
    requires x <= y && w > 0.0
    ensures x / w <= y / w
  {
  }

  lemma TruncatedIsBelow(x: real, n: int)
    requires x >= 0.0
    ensures Truncated(x) < n <==> x < n as real
  {
    assert x.Floor as real <= x < (x.Floor + 1) as real;
  }

  /** An unhealthy node has a larger load than a healthy one exactly while that is below the largest 32-bit number. */
  lemma UnhealthyLoadsMore(bad: P2CNode, good: P2CNode, sqrt: real -> real)
    requires bad.success < 500.0 <= good.success && good.weight > 0 && good.inflight >= 0 && sqrt(good.lag + 1.0) >= 0.0
    ensures Load(bad, sqrt) > Load(good, sqrt)
            <==> (sqrt(good.lag + 1.0) * (good.inflight + 1) as real) / (good.weight as real) < 2147483647.0
  {
    var x := Weighed(sqrt(good.lag + 1.0), good.inflight + 1, good.weight);
    var top := sqrt(good.lag + 1.0) * (good.inflight + 1) as real;
    assert top >= 0.0;
    assert x == top / (good.weight as real) >= 0.0;
    assert Load(good, sqrt) == Truncated(x);
    TruncatedIsBelow(x, 2147483647);
  }

  // --------------------------------------------------------------------- the two draws

  /** The second draw skips the first node drawn. */
  function Shifted(a: nat, bb: nat): nat {
    if bb >= a then bb + 1 else bb
  }

  function Unshifted(i: nat, j: nat): (bb: nat)
    requires i != j
  {
    if j > i then j - 1 else j
  }

  /**
   The pairs of draws stand one to one for the ordered pairs of different nodes, so
   two uniform draws sample every such pair equally often.
   */
  lemma DrawsAreBijective(n: nat)
    requires n >= 2
    ensures forall a: nat, bb: nat :: a < n && bb < n - 1 ==>
      Shifted(a, bb) < n && Shifted(a, bb) != a && Unshifted(a, Shifted(a, bb)) == bb
    ensures forall i: nat, j: nat :: i < n && j < n && i != j ==>
      Unshifted(i, j) < n - 1 && Shifted(i, Unshifted(i, j)) == j
  {
  }

  // ------------------------------------------------------------------------ choosing

  predicate Stale(n: P2CNode, now: int) {
    now - n.lastPick > FORCE_PICK_TIMEOUT
  }

  /** Which of the nodes `i` and `j` the balancer takes. */
  function Choice(ns: seq<P2CNode>, load: P2CNode -> int, i: nat, j: nat, now: int): (k: nat)
    requires i < |ns| && j < |ns|
    ensures k == i || k == j
  {
    var (light, heavy) := if load(ns[i]) > load(ns[j]) then (j, i) else (i, j);
    if Stale(ns[heavy], now) then heavy else light
  }

  /** The node a call takes when the draws are `a` and `bb`. */
  function Target(ns: seq<P2CNode>, load: P2CNode -> int, a: nat, bb: nat, now: int): (k: nat)
    requires |ns| > 0
    requires |ns| > 1 ==> a < |ns| && bb < |ns| - 1
    ensures k < |ns|
  {
    if |ns| == 1 then 0 else Choice(ns, load, a, Shifted(a, bb), now)
  }

  function Picked(n: P2CNode, at: int): P2CNode {
    n.(inflight := n.inflight + 1, requests := n.requests + 1, lastPick := at)
  }

  /** A stale node drawn with one that is not is taken, whatever the loads. */
  lemma StaleIsTaken(ns: seq<P2CNode>, load: P2CNode -> int, a: nat, bb: nat, now: int, s: nat)
    requires |ns| > 1 && a < |ns| && bb < |ns| - 1
    requires s == a || s == Shifted(a, bb)
    requires Stale(ns[s], now) && !Stale(ns[a + Shifted(a, bb) - s], now)
    ensures Target(ns, load, a, bb, now) == s
  {
  }

  /** Of two nodes drawn, the heavier one, or the second of two that weigh the same, is taken exactly when it is stale. */
  lemma HeavierIsTakenIffStale(ns: seq<P2CNode>, load: P2CNode -> int, a: nat, bb: nat, now: int, h: nat)
    requires |ns| > 1 && a < |ns| && bb < |ns| - 1
    requires h == a || h == Shifted(a, bb)
    requires var other := ns[a + Shifted(a, bb) - h];
      load(ns[h]) > load(other) || (load(ns[h]) == load(other) && h == Shifted(a, bb))
    ensures Target(ns, load, a, bb, now) == h <==> Stale(ns[h], now)
  {
  }

  // ---------------------------------------------------------------- runs of two nodes

  /** One call of Get: the loads it saw, its draws, and its two clock readings. */
  datatype Draw = Draw(load: P2CNode -> int, a: nat, bb: nat, now: int, at: int)

  predicate InRange(n: nat, d: Draw) {
    n > 1 ==> d.a < n && d.bb < n - 1
  }

  /** The nodes after the first `k` calls. */
  function After(ns: seq<P2CNode>, ds: seq<Draw>, k: nat): (r: seq<P2CNode>)
    requires |ns| > 0 && k <= |ds| && forall i :: 0 <= i < |ds| ==> InRange(|ns|, ds[i])
    ensures |r| == |ns|
  {
    if k == 0 then ns
    else
      var before := After(ns, ds, k - 1);
      var t := Target(before, ds[k - 1].load, ds[k - 1].a, ds[k - 1].bb, ds[k - 1].now);
      before[t := Picked(before[t], ds[k - 1].at)]
  }

  /** The clock never goes back, neither within a call nor from one to the next. */
  predicate Ordered(ds: seq<Draw>) {
    && (forall i :: 0 <= i < |ds| ==> ds[i].now <= ds[i].at)
    && (forall i :: 0 < i < |ds| ==> ds[i - 1].at <= ds[i].now)
  }

  /** Each call comes at most the forced-pick timeout after the one before. */
  predicate Busy(ds: seq<Draw>) {
    forall i :: 0 < i < |ds| ==> ds[i].at - ds[i - 1].at <= FORCE_PICK_TIMEOUT
  }

  /**
   Of two nodes, one that is stale at a call is taken by that call or by the next one,
   when that is at most the timeout later.
   */
  lemma BoundedBypass(ns: seq<P2CNode>, ds: seq<Draw>, k: nat, s: nat)
    requires |ns| == 2 && s < 2 && k + 2 <= |ds|
    requires forall i :: 0 <= i < |ds| ==> InRange(2, ds[i])
    requires Ordered(ds) && ds[k + 1].now - ds[k].at <= FORCE_PICK_TIMEOUT
    requires Stale(After(ns, ds, k)[s], ds[k].now)
    ensures After(ns, ds, k + 1)[s] == Picked(After(ns, ds, k)[s], ds[k].at)
         || After(ns, ds, k + 2)[s] == Picked(After(ns, ds, k + 1)[s], ds[k + 1].at)
  {
    var p, q := After(ns, ds, k), After(ns, ds, k + 1);
    var t := Target(p, ds[k].load, ds[k].a, ds[k].bb, ds[k].now);
    if t != s {
      assert q[t].lastPick == ds[k].at && q[s] == p[s];
      assert ds[k + 1 - 1].at <= ds[k + 1].now;
      StaleIsTaken(q, ds[k + 1].load, ds[k + 1].a, ds[k + 1].bb, ds[k + 1].now, s);
    }
  }

  /**
   No starvation: while calls keep coming at least once per timeout, each of two nodes
   has, from the second call on, been picked within the last two timeouts. A node
   passed over twice was not stale at the second call, since the other was not.
   */
  lemma NoStarvation(ns: seq<P2CNode>, ds: seq<Draw>, k: nat, s: nat)
    requires |ns| == 2 && s < 2 && 2 <= k <= |ds|
    requires forall i :: 0 <= i < |ds| ==> InRange(2, ds[i])
    requires Ordered(ds) && Busy(ds)
    ensures ds[k - 1].at - After(ns, ds, k)[s].lastPick <= 2 * FORCE_PICK_TIMEOUT
  {
  }

  /** At call `i` the balancer weighs `h` as the heavier node, or as the second of two that weigh the same. */
  predicate HeavierNow(ns: seq<P2CNode>, ds: seq<Draw>, i: nat, h: nat)
    requires |ns| == 2 && h < 2 && i < |ds|
    requires forall i :: 0 <= i < |ds| ==> InRange(2, ds[i])
  {
    var now, d := After(ns, ds, i), ds[i];
    d.load(now[h]) > d.load(now[1 - h]) || (d.load(now[h]) == d.load(now[1 - h]) && h == Shifted(d.a, d.bb))
  }

  /** The node is stale at the first of `k` calls, and each of the others comes later than the timeout after the one before. */
  predicate Slow(n: P2CNode, ds: seq<Draw>, k: nat)
    requires k <= |ds|
  {
    && (k > 0 ==> Stale(n, ds[0].now))
    && forall i :: 0 < i < k ==> ds[i].now - ds[i - 1].at > FORCE_PICK_TIMEOUT
  }

  lemma {:induction false} HeavierAlone(ns: seq<P2CNode>, ds: seq<Draw>, k: nat, h: nat)
    requires |ns| == 2 && h < 2 && k <= |ds|
    requires forall i :: 0 <= i < |ds| ==> InRange(2, ds[i])
    requires forall i :: 0 <= i < k ==> HeavierNow(ns, ds, i, h)
    ensures Slow(ns[h], ds, k) ==>
      && After(ns, ds, k)[1 - h] == ns[1 - h]
      && After(ns, ds, k)[h].requests == ns[h].requests + k
      && After(ns, ds, k)[h].lastPick == if k == 0 then ns[h].lastPick else ds[k - 1].at
    ensures !Slow(ns[h], ds, k) ==> After(ns, ds, k)[1 - h].requests > ns[1 - h].requests
  {
    if k > 0 {
      HeavierAlone(ns, ds, k - 1, h);
      assert HeavierNow(ns, ds, k - 1, h);
      var r, d := After(ns, ds, k - 1), ds[k - 1];
      HeavierIsTakenIffStale(r, d.load, d.a, d.bb, d.now, h);
      SlowOneMore(ns[h], ds, k, r[h]);
    }
  }

  lemma SlowOneMore(n: P2CNode, ds: seq<Draw>, k: nat, m: P2CNode)
    requires 0 < k <= |ds|
    requires Slow(n, ds, k - 1) ==> m.lastPick == if k == 1 then n.lastPick else ds[k - 2].at
    ensures Slow(n, ds, k) <==> Slow(n, ds, k - 1) && Stale(m, ds[k - 1].now)
  {
    assert k > 1 ==> ds[k - 1 - 1] == ds[k - 2];
  }

  /**
   The rule that prevents starvation turns into its opposite in slow traffic: of two
   nodes the one that is lighter at every call is never taken exactly when the heavier
   one is stale at the first call and every later call comes more than the timeout
   after the one before.
   */
  lemma LighterStarvesIffSlow(ns: seq<P2CNode>, ds: seq<Draw>, k: nat, h: nat)
    requires |ns| == 2 && h < 2 && k <= |ds|
    requires forall i :: 0 <= i < |ds| ==> InRange(2, ds[i])
    requires forall i :: 0 <= i < k ==> HeavierNow(ns, ds, i, h)
    ensures After(ns, ds, k)[1 - h] == ns[1 - h] <==> Slow(ns[h], ds, k)
    ensures Slow(ns[h], ds, k) ==> After(ns, ds, k)[h].requests == ns[h].requests + k
  {
    HeavierAlone(ns, ds, k, h);
  }

  // ------------------------------------------------------------- a traffic that starves

  /** Two new nodes, the second of twice the weight and so of the smaller load. */
  function NewPair(): seq<P2CNode> {
    [NewNode(1, 1, 0), NewNode(2, 2, 0)]
  }

  /** Loads before any answer, where the root is taken of one. */
  function UnansweredLoad(n: P2CNode): int {
    Load(n, x => x)
  }

  /** `k` calls, two seconds apart. */
  function SlowCalls(k: nat): seq<Draw> {
    seq(k, i => Draw(UnansweredLoad, 0, 0, 2 * SECOND * (i + 1), 2 * SECOND * (i + 1)))
  }

  /** The first node after `i` of them. */
  function TakenAlone(i: nat): P2CNode {
    P2CNode(1, 1, 0.0, i, INIT_SUCCESS, i, 2 * SECOND * i, 0)
  }

  lemma UnansweredLoads(i: nat)
    ensures UnansweredLoad(TakenAlone(i)) == i + 1 && UnansweredLoad(NewNode(2, 2, 0)) == 0
  {
  }

  lemma SlowCallTakesTheFirst(i: nat)
    ensures Target([TakenAlone(i), NewNode(2, 2, 0)], UnansweredLoad, 0, 0, 2 * SECOND * (i + 1)) == 0
    ensures Picked(TakenAlone(i), 2 * SECOND * (i + 1)) == TakenAlone(i + 1)
  {
    UnansweredLoads(i);
    HeavierIsTakenIffStale([TakenAlone(i), NewNode(2, 2, 0)], UnansweredLoad, 0, 0, 2 * SECOND * (i + 1), 0);
  }

  lemma {:induction false} SlowCallsTakeTheFirst(k: nat, i: nat)
    requires i <= k
    ensures After(NewPair(), SlowCalls(k), i) == [TakenAlone(i), NewNode(2, 2, 0)]
    ensures i < k ==> HeavierNow(NewPair(), SlowCalls(k), i, 0)
  {
    if i > 0 {
      SlowCallsTakeTheFirst(k, i - 1);
      SlowCallTakesTheFirst(i - 1);
    }
    UnansweredLoads(i);
  }

  /** However many such calls come, the node of twice the weight gets none of them. */
  lemma TheLighterCanStarve(k: nat)
    ensures Ordered(SlowCalls(k)) && forall i :: 0 <= i < k ==> HeavierNow(NewPair(), SlowCalls(k), i, 0)
    ensures After(NewPair(), SlowCalls(k), k)[1] == NewPair()[1]
    ensures After(NewPair(), SlowCalls(k), k)[0].requests == k
  {
    SlowCallsTakeTheFirst(k, k);
    forall i | 0 <= i < k ensures HeavierNow(NewPair(), SlowCalls(k), i, 0) {
      SlowCallsTakeTheFirst(k, i);
    }
  }

  // ------------------------------------------------------------- the moving averages

  /** The weight an old average keeps after `t` nanoseconds: the exponential's laws, all that is used of it. */
  ghost predicate DecayLaw(decay: int -> real) {
    && (forall t :: t >= 0 ==> 0.0 < decay(t) <= 1.0)
    && decay(0) == 1.0
    && (forall s, t :: s >= 0 && t >= 0 ==> Multiplies(decay, s, t))
  }

  predicate Multiplies(decay: int -> real, s: int, t: int) {
    decay(s + t) == decay(s) * decay(t)
  }

  function Mix(average: real, sample: real, w: real): real {
    average * w + sample * (1.0 - w)
  }

  /** One answer: when it was recorded, how long the dispatch took, and whether it failed. */
  datatype Answer = Answer(now: int, duration: int, failed: bool)

  function Sample(failed: bool): real {
    if failed then 0.0 else INIT_SUCCESS
  }

  function Recorded(n: P2CNode, x: Answer, decay: int -> real): P2CNode {
    var w := decay(x.now - n.stamp);
    n.(stamp := x.now,
       lag := Mix(n.lag, x.duration as real, w),
       success := Mix(n.success, Sample(x.failed), w),
       inflight := n.inflight - 1)
  }

  function RecordAll(n: P2CNode, xs: seq<Answer>, decay: int -> real): P2CNode
    decreases |xs|
  {
    if xs == [] then n else Recorded(RecordAll(n, xs[..|xs| - 1], decay), xs[|xs| - 1], decay)
  }

  /** The answers come in the order of the clock, none before the node's stamp. */
  predicate InOrder(stamp: int, xs: seq<Answer>) {
    && (|xs| > 0 ==> stamp <= xs[0].now)
    && (forall i :: 0 < i < |xs| ==> xs[i - 1].now <= xs[i].now)
  }

  function LastStamp(stamp: int, xs: seq<Answer>): int {
    if xs == [] then stamp else xs[|xs| - 1].now
  }

  lemma MixBetween(x: real, y: real, w: real, lo: real, hi: real)
    requires 0.0 <= w <= 1.0 && lo <= x <= hi && lo <= y <= hi
    ensures lo <= Mix(x, y, w) <= hi
  {
    assert (x - lo) * w >= 0.0 && (hi - x) * w >= 0.0;
    assert (y - lo) * (1.0 - w) >= 0.0 && (hi - y) * (1.0 - w) >= 0.0;
    assert lo * w + lo * (1.0 - w) == lo && hi * w + hi * (1.0 - w) == hi;
  }

  lemma {:induction false} Stamps(n: P2CNode, xs: seq<Answer>, decay: int -> real)
    requires InOrder(n.stamp, xs)
    ensures RecordAll(n, xs, decay).stamp == LastStamp(n.stamp, xs) >= n.stamp
  {
    if xs != [] {
      Stamps(n, xs[..|xs| - 1], decay);
    }
  }

  lemma RecordedInRange(n: P2CNode, x: Answer, decay: int -> real, top: real)
    requires 0.0 < decay(x.now - n.stamp) <= 1.0
    requires 0.0 <= n.success <= INIT_SUCCESS && 0.0 <= n.lag <= top
    requires 0.0 <= x.duration as real <= top
    ensures 0.0 <= Recorded(n, x, decay).success <= INIT_SUCCESS
    ensures 0.0 <= Recorded(n, x, decay).lag <= top
  {
    var w := decay(x.now - n.stamp);
    MixBetween(n.success, Sample(x.failed), w, 0.0, INIT_SUCCESS);
    MixBetween(n.lag, x.duration as real, w, 0.0, top);
  }

  /** Success stays within its scale, and lag within the range of zero and the samples seen. */
  lemma {:induction false} AveragesStayInRange(n: P2CNode, xs: seq<Answer>, decay: int -> real, top: real)
    requires DecayLaw(decay) && InOrder(n.stamp, xs)
    requires 0.0 <= n.success <= INIT_SUCCESS && 0.0 <= n.lag <= top
    requires forall i :: 0 <= i < |xs| ==> 0.0 <= xs[i].duration as real <= top
    ensures 0.0 <= RecordAll(n, xs, decay).success <= INIT_SUCCESS
    ensures 0.0 <= RecordAll(n, xs, decay).lag <= top
    decreases |xs|
  {
    if xs != [] {
      AveragesStayInRange(n, xs[..|xs| - 1], decay, top);
      Stamps(n, xs[..|xs| - 1], decay);
      RecordedInRange(RecordAll(n, xs[..|xs| - 1], decay), xs[|xs| - 1], decay, top);
    }
  }

  /** Of the distance to `sample` that an average had first, `kept` is left. */
  predicate Left(first: real, now: real, sample: real, kept: real) {
    now - sample == (first - sample) * kept
  }

  lemma MixLeaves(first: real, now: real, sample: real, before: real, w: real)
    requires Left(first, now, sample, before)
    ensures Left(first, Mix(now, sample, w), sample, before * w)
  {
    assert Mix(now, sample, w) - sample == (now - sample) * w;
  }

  lemma RecordedLeaves(first: real, now: real, sample: real, decay: int -> real, since: int, stamp: int, at: int)
    requires DecayLaw(decay) && since <= stamp <= at && Left(first, now, sample, decay(stamp - since))
    ensures Left(first, Mix(now, sample, decay(at - stamp)), sample, decay(at - since))
  {
    MixLeaves(first, now, sample, decay(stamp - since), decay(at - stamp));
    assert Multiplies(decay, stamp - since, at - stamp);
  }

  lemma {:induction false} SuccessLeft(n: P2CNode, xs: seq<Answer>, decay: int -> real, failed: bool)
    requires DecayLaw(decay) && InOrder(n.stamp, xs)
    requires forall i :: 0 <= i < |xs| ==> xs[i].failed == failed
    ensures Left(n.success, RecordAll(n, xs, decay).success, Sample(failed), decay(LastStamp(n.stamp, xs) - n.stamp))
    decreases |xs|
  {
    if xs != [] {
      var front, x := xs[..|xs| - 1], xs[|xs| - 1];
      var m := RecordAll(n, front, decay);
      SuccessLeft(n, front, decay, failed);
      Stamps(n, front, decay);
      RecordedLeaves(n.success, m.success, Sample(failed), decay, n.stamp, m.stamp, x.now);
    }
  }

  lemma {:induction false} LagLeft(n: P2CNode, xs: seq<Answer>, decay: int -> real, duration: int)
    requires DecayLaw(decay) && InOrder(n.stamp, xs)
    requires forall i :: 0 <= i < |xs| ==> xs[i].duration == duration
    ensures Left(n.lag, RecordAll(n, xs, decay).lag, duration as real, decay(LastStamp(n.stamp, xs) - n.stamp))
    decreases |xs|
  {
    if xs != [] {
      var front, x := xs[..|xs| - 1], xs[|xs| - 1];
      var m := RecordAll(n, front, decay);
      LagLeft(n, front, decay, duration);
      Stamps(n, front, decay);
      RecordedLeaves(n.lag, m.lag, duration as real, decay, n.stamp, m.stamp, x.now);
    }
  }

  /**
   After answers that all ended alike, success depends on the time they spanned and
   not on how many there were: all failures give `success * decay(span)`.
   */
  lemma OnlyTimeCounts(n: P2CNode, xs: seq<Answer>, decay: int -> real, failed: bool)
    requires DecayLaw(decay) && InOrder(n.stamp, xs)
    requires forall i :: 0 <= i < |xs| ==> xs[i].failed == failed
    ensures RecordAll(n, xs, decay).success - Sample(failed)
            == (n.success - Sample(failed)) * decay(LastStamp(n.stamp, xs) - n.stamp)
  {
    SuccessLeft(n, xs, decay, failed);
  }

  /** After answers that all took `duration`, lag has kept of its distance to it what the time they spanned leaves. */
  lemma LagApproachesTheDuration(n: P2CNode, xs: seq<Answer>, decay: int -> real, duration: int)
    requires DecayLaw(decay) && InOrder(n.stamp, xs)
    requires forall i :: 0 <= i < |xs| ==> xs[i].duration == duration
    ensures RecordAll(n, xs, decay).lag - duration as real
            == (n.lag - duration as real) * decay(LastStamp(n.stamp, xs) - n.stamp)
  {
    LagLeft(n, xs, decay, duration);
  }

  /** The time before which answer `i` was not yet in the averages. */
  function Since(stamp: int, xs: seq<Answer>, i: nat): int
    requires i < |xs|
  {
    if i == 0 then stamp else xs[i - 1].now
  }

  /**
   What answer `i` contributes to an average at time `end`: as much of it as had decayed of
   what was there before, less what it has itself lost since.
   */
  function Share(v: Answer -> real, stamp: int, xs: seq<Answer>, decay: int -> real, end: int, i: nat): real
    requires i < |xs|
  {
    v(xs[i]) * (decay(end - xs[i].now) - decay(end - Since(stamp, xs, i)))
  }

  /** What the first `k` answers contribute. */
  function Shares(v: Answer -> real, stamp: int, xs: seq<Answer>, decay: int -> real, end: int, k: nat): real
    requires k <= |xs|
  {
    if k == 0 then 0.0 else Shares(v, stamp, xs, decay, end, k - 1) + Share(v, stamp, xs, decay, end, k - 1)
  }

  lemma ScaledShare(b: real, p: real, q: real, w: real, later: real, laterStill: real)
    requires later == p * w && laterStill == q * w
    ensures b * (later - laterStill) == b * (p - q) * w
  {
  }

  lemma AddScaled(a: real, b: real, w: real)
    ensures a * w + b * w == (a + b) * w
  {
  }

  lemma ShareDecays(v: Answer -> real, stamp: int, xs: seq<Answer>, decay: int -> real, end: int, later: int, i: nat)
    requires DecayLaw(decay) && i < |xs| && Since(stamp, xs, i) <= xs[i].now <= end <= later
    ensures Share(v, stamp, xs, decay, later, i) == Share(v, stamp, xs, decay, end, i) * decay(later - end)
  {
    var p, q, w := decay(end - xs[i].now), decay(end - Since(stamp, xs, i)), decay(later - end);
    assert Multiplies(decay, end - xs[i].now, later - end) && Multiplies(decay, end - Since(stamp, xs, i), later - end);
    ScaledShare(v(xs[i]), p, q, w, decay(later - xs[i].now), decay(later - Since(stamp, xs, i)));
  }

  lemma SinceIsBefore(stamp: int, xs: seq<Answer>, i: nat)
    requires InOrder(stamp, xs) && i < |xs|
    ensures stamp <= Since(stamp, xs, i) <= xs[i].now
    ensures forall j :: i <= j < |xs| ==> xs[i].now <= xs[j].now
  {
    Sorted(stamp, xs, i);
    forall j | i <= j < |xs| ensures xs[i].now <= xs[j].now {
      SortedFrom(stamp, xs, i, j);
    }
  }

  lemma {:induction false} Sorted(stamp: int, xs: seq<Answer>, i: nat)
    requires InOrder(stamp, xs) && i < |xs|
    ensures stamp <= Since(stamp, xs, i) <= xs[i].now
  {
    if i > 0 {
      Sorted(stamp, xs, i - 1);
    }
  }

  lemma {:induction false} SortedFrom(stamp: int, xs: seq<Answer>, i: nat, j: nat)
    requires InOrder(stamp, xs) && i <= j < |xs|
    ensures xs[i].now <= xs[j].now
    decreases j
  {
    if i < j {
      SortedFrom(stamp, xs, i, j - 1);
    }
  }

  /** Later, all of it has decayed alike. */
  lemma {:induction false} SharesDecay(v: Answer -> real, stamp: int, xs: seq<Answer>, decay: int -> real, end: int, later: int,
                                      k: nat)
    requires DecayLaw(decay) && InOrder(stamp, xs) && k <= |xs| && (k > 0 ==> xs[k - 1].now <= end) && end <= later
    ensures Shares(v, stamp, xs, decay, later, k) == Shares(v, stamp, xs, decay, end, k) * decay(later - end)
  {
    if k > 0 {
      SinceIsBefore(stamp, xs, k - 1);
      SharesDecay(v, stamp, xs, decay, end, later, k - 1);
      ShareDecays(v, stamp, xs, decay, end, later, k - 1);
      AddScaled(Shares(v, stamp, xs, decay, end, k - 1), Share(v, stamp, xs, decay, end, k - 1), decay(later - end));
    }
  }

  /** The time of the averages after `k` answers. */
  function TimeAfter(stamp: int, xs: seq<Answer>, k: nat): int
    requires k <= |xs|
  {
    if k == 0 then stamp else xs[k - 1].now
  }

  /** An average that was `first` at `stamp`, after the first `k` answers. */
  function Averaged(first: real, v: Answer -> real, stamp: int, xs: seq<Answer>, decay: int -> real, k: nat): real
    requires k <= |xs|
  {
    var end := TimeAfter(stamp, xs, k);
    first * decay(end - stamp) + Shares(v, stamp, xs, decay, end, k)
  }

  lemma MixOfSum(first: real, kept: real, shares: real, x: real, w: real, later: real, one: real)
    requires later == kept * w && one == 1.0
    ensures first * later + (shares * w + x * (one - w)) == Mix(first * kept + shares, x, w)
  {
    assert first * (kept * w) == (first * kept) * w;
  }

  lemma AveragedOnce(first: real, v: Answer -> real, stamp: int, xs: seq<Answer>, decay: int -> real, k: nat)
    requires DecayLaw(decay) && InOrder(stamp, xs) && k < |xs|
    ensures Averaged(first, v, stamp, xs, decay, k + 1) ==
            Mix(Averaged(first, v, stamp, xs, decay, k), v(xs[k]), decay(xs[k].now - TimeAfter(stamp, xs, k)))
  {
    var end, later := TimeAfter(stamp, xs, k), xs[k].now;
    SinceIsBefore(stamp, xs, k);
    SharesDecay(v, stamp, xs, decay, end, later, k);
    assert Multiplies(decay, end - stamp, later - end);
    MixOfSum(first, decay(end - stamp), Shares(v, stamp, xs, decay, end, k), v(xs[k]), decay(later - end),
             decay(later - stamp), decay(later - later));
  }

  lemma RecordedLast(n: P2CNode, xs: seq<Answer>, decay: int -> real, k: nat)
    requires InOrder(n.stamp, xs) && k < |xs|
    ensures var before, after := RecordAll(n, xs[..k], decay), RecordAll(n, xs[..k + 1], decay);
      var w := decay(xs[k].now - TimeAfter(n.stamp, xs, k));
      && after.lag == Mix(before.lag, DurationOf(xs[k]), w)
      && after.success == Mix(before.success, OutcomeOf(xs[k]), w)
  {
    assert xs[..k + 1][..k] == xs[..k];
    Stamps(n, xs[..k], decay);
  }

  function DurationOf(x: Answer): real { x.duration as real }

  function OutcomeOf(x: Answer): real { if x.failed then 0.0 else 1000.0 }

  /** Lag after the first `k` answers is their average. */
  predicate LagIs(n: P2CNode, xs: seq<Answer>, decay: int -> real, k: nat, average: real)
    requires k <= |xs|
  {
    RecordAll(n, xs[..k], decay).lag == average
  }

  lemma LagOnce(n: P2CNode, xs: seq<Answer>, decay: int -> real, k: nat, before: real, after: real)
    requires InOrder(n.stamp, xs) && k < |xs| && LagIs(n, xs, decay, k, before)
    requires after == Mix(before, DurationOf(xs[k]), decay(xs[k].now - TimeAfter(n.stamp, xs, k)))
    ensures LagIs(n, xs, decay, k + 1, after)
  {
    RecordedLast(n, xs, decay, k);
  }

  predicate SuccessIs(n: P2CNode, xs: seq<Answer>, decay: int -> real, k: nat, average: real)
    requires k <= |xs|
  {
    RecordAll(n, xs[..k], decay).success == average
  }

  lemma SuccessOnce(n: P2CNode, xs: seq<Answer>, decay: int -> real, k: nat, before: real, after: real)
    requires InOrder(n.stamp, xs) && k < |xs| && SuccessIs(n, xs, decay, k, before)
    requires after == Mix(before, OutcomeOf(xs[k]), decay(xs[k].now - TimeAfter(n.stamp, xs, k)))
    ensures SuccessIs(n, xs, decay, k + 1, after)
  {
    RecordedLast(n, xs, decay, k);
  }

  lemma {:induction false} LagAfter(n: P2CNode, xs: seq<Answer>, decay: int -> real, k: nat)
    requires DecayLaw(decay) && InOrder(n.stamp, xs) && k <= |xs|
    ensures LagIs(n, xs, decay, k, Averaged(n.lag, DurationOf, n.stamp, xs, decay, k))
  {
    if k > 0 {
      LagAfter(n, xs, decay, k - 1);
      AveragedOnce(n.lag, DurationOf, n.stamp, xs, decay, k - 1);
      LagOnce(n, xs, decay, k - 1, Averaged(n.lag, DurationOf, n.stamp, xs, decay, k - 1),
              Averaged(n.lag, DurationOf, n.stamp, xs, decay, k));
    }
  }

  lemma {:induction false} SuccessAfter(n: P2CNode, xs: seq<Answer>, decay: int -> real, k: nat)
    requires DecayLaw(decay) && InOrder(n.stamp, xs) && k <= |xs|
    ensures SuccessIs(n, xs, decay, k, Averaged(n.success, OutcomeOf, n.stamp, xs, decay, k))
  {
    if k > 0 {
      SuccessAfter(n, xs, decay, k - 1);
      AveragedOnce(n.success, OutcomeOf, n.stamp, xs, decay, k - 1);
      SuccessOnce(n, xs, decay, k - 1, Averaged(n.success, OutcomeOf, n.stamp, xs, decay, k - 1),
                  Averaged(n.success, OutcomeOf, n.stamp, xs, decay, k));
    }
  }

  /**
   After any answers, lag is what is left of the first lag plus each answer's share of its
   duration, and success is the same of the outcomes.
   */
  lemma AveragesAreWeightedSums(n: P2CNode, xs: seq<Answer>, decay: int -> real)
    requires DecayLaw(decay) && InOrder(n.stamp, xs)
    ensures RecordAll(n, xs, decay).lag == Averaged(n.lag, DurationOf, n.stamp, xs, decay, |xs|)
    ensures RecordAll(n, xs, decay).success == Averaged(n.success, OutcomeOf, n.stamp, xs, decay, |xs|)
  {
    LagAfter(n, xs, decay, |xs|);
    SuccessAfter(n, xs, decay, |xs|);
    assert xs[..|xs|] == xs;
  }

  /** A node that has just begun to fail is unhealthy exactly when half of its weight has decayed. */
  lemma UnhealthyAfterHalfLife(n: P2CNode, xs: seq<Answer>, decay: int -> real)
    requires DecayLaw(decay) && InOrder(n.stamp, xs) && n.success == INIT_SUCCESS
    requires forall i :: 0 <= i < |xs| ==> xs[i].failed
    ensures RecordAll(n, xs, decay).success < THROTTLE_SUCCESS
            <==> 2.0 * decay(LastStamp(n.stamp, xs) - n.stamp) < 1.0
  {
    OnlyTimeCounts(n, xs, decay, true);
  }

  // ---------------------------------------------------------------- the index of nodes

  predicate DistinctIds(ns: seq<P2CNode>) {
    forall i, j :: 0 <= i < j < |ns| ==> ns[i].id != ns[j].id
  }

  /** Where the node `id` is; past the end when there is none. */
  function IndexOf(ns: seq<P2CNode>, id: Id): (k: nat)
    ensures k <= |ns|
  {
    if ns == [] || ns[0].id == id then 0 else IndexOf(ns[1..], id) + 1
  }

  lemma {:induction false} IndexOfIsFirst(ns: seq<P2CNode>, id: Id)
    ensures forall i :: 0 <= i < IndexOf(ns, id) ==> ns[i].id != id
    ensures IndexOf(ns, id) < |ns| ==> ns[IndexOf(ns, id)].id == id
  {
    if ns != [] && ns[0].id != id {
      IndexOfIsFirst(ns[1..], id);
      assert forall i :: 0 < i < |ns| ==> ns[i] == ns[1..][i - 1];
    }
  }

  function Added(ns: seq<P2CNode>, id: Id, weight: int, now: int): seq<P2CNode> {
    if IndexOf(ns, id) < |ns| then ns else ns + [NewNode(id, weight, now)]
  }

  function Removed(ns: seq<P2CNode>, id: Id): seq<P2CNode> {
    var k := IndexOf(ns, id);
    if k < |ns| then ns[..k] + ns[k + 1..] else ns
  }

  function Answered(ns: seq<P2CNode>, id: Id, x: Answer, decay: int -> real): seq<P2CNode> {
    var k := IndexOf(ns, id);
    if k < |ns| then ns[k := Recorded(ns[k], x, decay)] else ns
  }

  /** The ids differ, and `m` gives for each the requests in flight. */
  predicate InFlight(ns: seq<P2CNode>, m: map<Id, int>) {
    && DistinctIds(ns)
    && (forall k :: 0 <= k < |ns| ==> ns[k].id in m && m[ns[k].id] == ns[k].inflight)
    && (forall id :: id in m ==> HasId(ns, id))
  }

  predicate HasId(ns: seq<P2CNode>, id: Id) {
    exists k :: 0 <= k < |ns| && ns[k].id == id
  }

  lemma IndexAgrees(ns: seq<P2CNode>, m: map<Id, int>, id: Id)
    requires InFlight(ns, m)
    ensures id in m <==> IndexOf(ns, id) < |ns|
  {
    IndexOfIsFirst(ns, id);
    assert id in m ==> HasId(ns, id);
  }

  lemma HasIdAt(ns: seq<P2CNode>, k: nat)
    requires k < |ns|
    ensures HasId(ns, ns[k].id)
  {
  }

  lemma AppendedIds(ns: seq<P2CNode>, n: P2CNode)
    requires DistinctIds(ns) && !HasId(ns, n.id)
    ensures DistinctIds(ns + [n])
    ensures forall x :: HasId(ns + [n], x) <==> x == n.id || HasId(ns, x)
  {
    var r := ns + [n];
    HasIdAt(r, |ns|);
    forall i | 0 <= i < |ns| ensures r[i].id != n.id && HasId(r, r[i].id) {
      HasIdAt(ns, i);
      HasIdAt(r, i);
    }
    forall x | HasId(ns, x) ensures HasId(r, x) {
      var k :| 0 <= k < |ns| && ns[k].id == x;
      HasIdAt(r, k);
    }
  }

  lemma DroppedIds(ns: seq<P2CNode>, k: nat)
    requires DistinctIds(ns) && k < |ns|
    ensures DistinctIds(ns[..k] + ns[k + 1..])
    ensures forall x :: HasId(ns[..k] + ns[k + 1..], x) <==> x != ns[k].id && HasId(ns, x)
  {
    var r := ns[..k] + ns[k + 1..];
    assert forall i :: 0 <= i < |r| ==> r[i] == (if i < k then ns[i] else ns[i + 1]);
    forall x | HasId(r, x) ensures x != ns[k].id && HasId(ns, x) {
      var i :| 0 <= i < |r| && r[i].id == x;
      HasIdAt(ns, if i < k then i else i + 1);
    }
    forall x | x != ns[k].id && HasId(ns, x) ensures HasId(r, x) {
      var i :| 0 <= i < |ns| && ns[i].id == x;
      HasIdAt(r, if i < k then i else i - 1);
    }
  }

  lemma AppendedInFlight(ns: seq<P2CNode>, m: map<Id, int>, n: P2CNode)
    requires InFlight(ns, m) && n.id !in m
    ensures InFlight(ns + [n], m[n.id := n.inflight])
  {
    AppendedIds(ns, n);
  }

  lemma DroppedInFlight(ns: seq<P2CNode>, m: map<Id, int>, k: nat)
    requires InFlight(ns, m) && k < |ns|
    ensures InFlight(ns[..k] + ns[k + 1..], m - {ns[k].id})
  {
    var r := ns[..k] + ns[k + 1..];
    assert forall i :: 0 <= i < |r| ==> r[i] == (if i < k then ns[i] else ns[i + 1]);
    DroppedIds(ns, k);
  }

  /** What each operation does to the requests in flight, seen as a map from ids. */
  lemma AddedInFlight(ns: seq<P2CNode>, m: map<Id, int>, id: Id, weight: int, now: int)
    requires InFlight(ns, m)
    ensures InFlight(Added(ns, id, weight, now), if id in m then m else m[id := 0])
  {
    IndexAgrees(ns, m, id);
    if id !in m {
      AppendedInFlight(ns, m, NewNode(id, weight, now));
    }
  }

  lemma RemovedInFlight(ns: seq<P2CNode>, m: map<Id, int>, id: Id)
    requires InFlight(ns, m)
    ensures InFlight(Removed(ns, id), m - {id})
  {
    var k := IndexOf(ns, id);
    IndexAgrees(ns, m, id);
    IndexOfIsFirst(ns, id);
    if k < |ns| {
      DroppedInFlight(ns, m, k);
    } else {
      assert m - {id} == m;
    }
  }

  lemma ReplacedInFlight(ns: seq<P2CNode>, m: map<Id, int>, t: nat, n: P2CNode)
    requires InFlight(ns, m) && t < |ns| && n.id == ns[t].id
    ensures InFlight(ns[t := n], m[n.id := n.inflight])
  {
    var r := ns[t := n];
    assert forall k :: 0 <= k < |ns| ==> r[k].id == ns[k].id;
    forall x | x in m ensures HasId(r, x) {
      assert HasId(ns, x);
      var i :| 0 <= i < |ns| && ns[i].id == x;
      HasIdAt(r, i);
    }
  }

  lemma PickedInFlight(ns: seq<P2CNode>, m: map<Id, int>, t: nat, at: int)
    requires InFlight(ns, m) && t < |ns|
    ensures InFlight(ns[t := Picked(ns[t], at)], m[ns[t].id := m[ns[t].id] + 1])
  {
    ReplacedInFlight(ns, m, t, Picked(ns[t], at));
  }

  lemma AnsweredInFlight(ns: seq<P2CNode>, m: map<Id, int>, id: Id, x: Answer, decay: int -> real)
    requires InFlight(ns, m)
    ensures InFlight(Answered(ns, id, x, decay), if id in m then m[id := m[id] - 1] else m)
  {
    IndexAgrees(ns, m, id);
    IndexOfIsFirst(ns, id);
    var k := IndexOf(ns, id);
    if k < |ns| {
      ReplacedInFlight(ns, m, k, Recorded(ns[k], x, decay));
    }
  }

  // -------------------------------------------------------------------- the balancer

  class P2CBalancer {
    var nodes: seq<P2CNode>
    constructor ()
      ensures nodes == []
    {
      nodes := [];
    }

    method FindNode(id: Id) returns (k: nat)
      ensures k == IndexOf(nodes, id)
    {
      k := 0;
      while k < |nodes| && nodes[k].id != id
        invariant k <= |nodes|
        invariant IndexOf(nodes, id) == IndexOf(nodes[k..], id) + k
      {
        k := k + 1;
      }
    }

    /** A second node with the same id is not added. */
    method Add(id: Id, weight: int, now: int)
      modifies this
      ensures nodes == Added(old(nodes), id, weight, now)
      ensures nodes == if exists i :: 0 <= i < |old(nodes)| && old(nodes)[i].id == id then old(nodes)
                       else old(nodes) + [P2CNode(id, weight, 0.0, 0, 1000.0, 0, 0, now)]
    {
      var k := FindNode(id);
      IndexOfIsFirst(nodes, id);
      if k == |nodes| {
        nodes := nodes + [NewNode(id, weight, now)];
      }
    }

    method Remove(id: Id)
      modifies this
      ensures nodes == Removed(old(nodes), id)
    {
      var k := FindNode(id);
      if k < |nodes| {
        nodes := nodes[..k] + nodes[k + 1..];
      }
    }

    /**
     Of the two nodes drawn the lighter one is returned, unless nobody has picked the other
     for more than a second. Only the node returned changes; an empty balancer gives an error.
     */
    method Get(d: Draw) returns (got: Option<Id>)
      requires InRange(|nodes|, d)
      modifies this
      ensures got.None? ==> old(nodes) == [] && nodes == []
      ensures got.Some? ==> old(nodes) != []
      ensures got.Some? ==>
        var t := Target(old(nodes), d.load, d.a, d.bb, d.now);
        got.value == old(nodes)[t].id && nodes == old(nodes)[t := Picked(old(nodes)[t], d.at)]
      ensures |old(nodes)| == 1 ==> got == Some(old(nodes)[0].id)
      ensures |old(nodes)| > 1 ==>
        var first, second := old(nodes)[d.a], old(nodes)[if d.bb >= d.a then d.bb + 1 else d.bb];
        var (light, heavy) := if d.load(first) > d.load(second) then (second, first) else (first, second);
        got == Some(if d.now - heavy.lastPick > SECOND then heavy.id else light.id)
      ensures |nodes| == |old(nodes)| && forall i :: 0 <= i < |nodes| && nodes[i] != old(nodes)[i] ==>
        var was := old(nodes)[i];
        nodes[i] == was.(inflight := was.inflight + 1, requests := was.requests + 1, lastPick := d.at)
    {
      var n := |nodes|;
      if n == 0 {
        return None;
      }
      var chosen := 0;
      if n > 1 {
        var bb := d.bb;
        if bb >= d.a {
          bb := bb + 1;
        }
        var c1, c2 := d.a, bb;
        if d.load(nodes[c1]) > d.load(nodes[c2]) {
          c1, c2 := c2, c1;
        }
        chosen := if d.now - nodes[c2].lastPick > FORCE_PICK_TIMEOUT then c2 else c1;
      }
      var node := nodes[chosen];
      nodes := nodes[chosen := node.(inflight := node.inflight + 1, requests := node.requests + 1, lastPick := d.at)];
      got := Some(node.id);
    }

    /** An answer for a node that is gone changes nothing. */
    method Done(id: Id, x: Answer, decay: int -> real)
      modifies this
      ensures nodes == Answered(old(nodes), id, x, decay)
    {
      var k := FindNode(id);
      if k == |nodes| {
        return;
      }
      var node := nodes[k];
      var w := decay(x.now - node.stamp);
      var lag := Mix(node.lag, x.duration as real, w);
      var sample := INIT_SUCCESS;
      if x.failed {
        sample := 0.0;
      }
      var success := Mix(node.success, sample, w);
      nodes := nodes[k := node.(stamp := x.now, lag := lag, success := success, inflight := node.inflight - 1)];
    }
  }
}
