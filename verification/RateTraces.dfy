/**
 Traces that reach the limiter's bounds: requests of one address in bursts, and bursts in
 one minute window after the other.
 */
module RateTraces {
  import opened RateLimit
  import opened RateBounds

  function Min(x: int, y: int): int { if x <= y then x else y }

  /** `k` requests at one time. */
  function Repeat(ip: string, at: int, k: nat): (es: seq<Event>)
    ensures |es| == k
  {
    if k == 0 then [] else Repeat(ip, at, k - 1) + [Asked(ip, at)]
  }

  /** The address has the bucket `b` after the trace. */
  predicate Has(cfg: Config, es: seq<Event>, ip: string, b: Bucket) {
    ip in After(cfg, es) && After(cfg, es)[ip] == b
  }

  /** The trace is ordered and ends at `t` or earlier. */
  predicate Until(es: seq<Event>, t: int) {
    Ordered(es) && (es != [] ==> es[|es| - 1].at <= t)
  }

  predicate WithinLimits(cfg: Config, b: Bucket) {
    0 <= b.minuteCount <= cfg.perMinute && 0 <= b.dayCount <= cfg.perDay
  }

  /** How many of `k` requests a bucket admits whose windows are running. */
  function Admitted(cfg: Config, b: Bucket, k: nat): int {
    Min(k, Min(cfg.perMinute - b.minuteCount, cfg.perDay - b.dayCount))
  }

  /** The bucket after `k` requests at one time. */
  function Served(cfg: Config, b: Bucket, at: int, k: nat): Bucket {
    var r := Rolled(b, at);
    var n := Admitted(cfg, r, k);
    r.(minuteCount := r.minuteCount + n, dayCount := r.dayCount + n)
  }

  lemma OneRequest(cfg: Config, es: seq<Event>, ip: string, b: Bucket, at: int, a: int, z: int)
    requires Has(cfg, es, ip, b) && WithinLimits(cfg, Rolled(b, at)) && Until(es, at)
    ensures Has(cfg, es + [Asked(ip, at)], ip, Served(cfg, b, at, 1)) && Until(es + [Asked(ip, at)], at)
    ensures AllowedIn(cfg, es + [Asked(ip, at)], ip, a, z)
            == AllowedIn(cfg, es, ip, a, z) + (if a <= at <= z then Admitted(cfg, Rolled(b, at), 1) else 0)
  {
    assert (es + [Asked(ip, at)])[..|es|] == es;
  }

  lemma ServedOnce(cfg: Config, b: Bucket, at: int, k: nat)
    requires WithinLimits(cfg, Rolled(b, at))
    ensures var s := Served(cfg, b, at, k);
      && Rolled(s, at) == s && WithinLimits(cfg, s)
      && Served(cfg, s, at, 1) == Served(cfg, b, at, k + 1)
      && Admitted(cfg, Rolled(b, at), k) + Admitted(cfg, s, 1) == Admitted(cfg, Rolled(b, at), k + 1)
  {
  }

  /** A burst of one address. */
  lemma {:induction false} BurstServed(cfg: Config, es: seq<Event>, ip: string, b: Bucket, at: int, k: nat, a: int, z: int)
    requires Has(cfg, es, ip, b) && WithinLimits(cfg, Rolled(b, at)) && Until(es, at) && k >= 1
    ensures Has(cfg, es + Repeat(ip, at, k), ip, Served(cfg, b, at, k)) && Until(es + Repeat(ip, at, k), at)
    ensures AllowedIn(cfg, es + Repeat(ip, at, k), ip, a, z)
            == AllowedIn(cfg, es, ip, a, z) + (if a <= at <= z then Admitted(cfg, Rolled(b, at), k) else 0)
  {
    if k == 1 {
      assert Repeat(ip, at, 1) == [Asked(ip, at)];
      OneRequest(cfg, es, ip, b, at, a, z);
    } else {
      BurstServed(cfg, es, ip, b, at, k - 1, a, z);
      ServedOnce(cfg, b, at, k - 1);
      assert es + Repeat(ip, at, k) == es + Repeat(ip, at, k - 1) + [Asked(ip, at)];
      OneRequest(cfg, es + Repeat(ip, at, k - 1), ip, Served(cfg, b, at, k - 1), at, a, z);
    }
  }

  lemma FirstRequest(cfg: Config, ip: string, at: int, a: int, z: int)
    requires cfg.perMinute >= 1 && cfg.perDay >= 1
    ensures Has(cfg, [Asked(ip, at)], ip, Bucket(1, at + MINUTE, 1, at + DAY, at)) && Until([Asked(ip, at)], at)
    ensures AllowedIn(cfg, [Asked(ip, at)], ip, a, z) == if a <= at <= z then 1 else 0
  {
    assert [Asked(ip, at)][..0] == [];
  }

  /** The time of the `j`-th of the minute windows that follow each other from `x` on. */
  function WindowAt(x: int, j: int): int { x + j * (MINUTE + 1) }

  /** A full burst in each of `q` minute windows that follow each other. */
  function Bursts(ip: string, x: int, n: nat, q: nat): seq<Event> {
    if q == 0 then [] else Bursts(ip, x, n, q - 1) + Repeat(ip, WindowAt(x, q - 1), n)
  }

  /** The bucket after them. */
  function Filled(cfg: Config, b: Bucket, x: int, n: nat, q: nat): Bucket {
    if q == 0 then b else Served(cfg, Filled(cfg, b, x, n, q - 1), WindowAt(x, q - 1), n)
  }

  /** Bursts within one day fill it, window by window, as far as it goes. */
  predicate Fills(cfg: Config, b: Bucket, x: int, n: nat, q: nat) {
    var f := Filled(cfg, b, x, n, q);
    && WithinLimits(cfg, f)
    && f.dayReset == b.dayReset
    && f.dayCount == Min(cfg.perDay, b.dayCount + q * n)
    && (q > 0 ==> f.minuteReset == WindowAt(x, q - 1) + MINUTE)
  }

  lemma FillsOn(cfg: Config, b: Bucket, x: int, n: nat, q: nat)
    requires cfg.perMinute == n >= 1 && WithinLimits(cfg, b) && b.minuteReset < x
    requires WindowAt(x, q) <= b.dayReset && Fills(cfg, b, x, n, q)
    ensures var f := Filled(cfg, b, x, n, q);
      && Rolled(f, WindowAt(x, q)) == f.(minuteCount := 0, minuteReset := WindowAt(x, q) + MINUTE, lastSeen := WindowAt(x, q))
      && Filled(cfg, b, x, n, q + 1).dayCount - f.dayCount == Admitted(cfg, Rolled(f, WindowAt(x, q)), n)
    ensures Fills(cfg, b, x, n, q + 1)
  {
    assert (q + 1) * n == q * n + n;
  }

  /** The trace after `q` bursts: its bucket, and what it allowed in an interval that holds all of them or none. */
  predicate AfterBursts(cfg: Config, es: seq<Event>, ip: string, b: Bucket, x: int, n: nat, q: nat, a: int, z: int, held: bool) {
    var more, f := es + Bursts(ip, x, n, q), Filled(cfg, b, x, n, q);
    && Has(cfg, more, ip, f)
    && Until(more, if q == 0 then x else WindowAt(x, q - 1))
    && AllowedIn(cfg, more, ip, a, z) == AllowedIn(cfg, es, ip, a, z) + (if held then f.dayCount - b.dayCount else 0)
  }

  /** The interval holds the first `q` windows, or is over when they begin. */
  predicate HoldsWindows(x: int, q: nat, a: int, z: int, held: bool) {
    if held then a <= x && (q >= 1 ==> WindowAt(x, q - 1) <= z) else q >= 1 ==> WindowAt(x, q - 1) < a
  }

  lemma HoldsFewer(x: int, q: nat, a: int, z: int, held: bool)
    requires HoldsWindows(x, q + 1, a, z, held)
    ensures HoldsWindows(x, q, a, z, held)
    ensures if held then a <= WindowAt(x, q) <= z else WindowAt(x, q) < a
    ensures q >= 1 ==> WindowAt(x, q - 1) <= WindowAt(x, q)
    ensures x <= WindowAt(x, q)
  {
  }

  lemma NextBurst(cfg: Config, es: seq<Event>, ip: string, b: Bucket, x: int, n: nat, q: nat, a: int, z: int, held: bool)
    requires cfg.perMinute == n >= 1 && WithinLimits(cfg, b) && b.minuteReset < x && WindowAt(x, q) <= b.dayReset
    requires HoldsWindows(x, q + 1, a, z, held)
    requires AfterBursts(cfg, es, ip, b, x, n, q, a, z, held) && Fills(cfg, b, x, n, q)
    ensures AfterBursts(cfg, es, ip, b, x, n, q + 1, a, z, held) && Fills(cfg, b, x, n, q + 1)
  {
    var more, f, at := es + Bursts(ip, x, n, q), Filled(cfg, b, x, n, q), WindowAt(x, q);
    HoldsFewer(x, q, a, z, held);
    FillsOn(cfg, b, x, n, q);
    assert es + Bursts(ip, x, n, q + 1) == more + Repeat(ip, at, n);
    BurstServed(cfg, more, ip, f, at, n, a, z);
  }

  lemma HoldsSome(x: int, q: nat, k: nat, a: int, z: int, held: bool)
    requires k < q && HoldsWindows(x, q, a, z, held)
    ensures HoldsWindows(x, k + 1, a, z, held) && WindowAt(x, k) <= WindowAt(x, q - 1)
  {
  }

  predicate Stage(cfg: Config, es: seq<Event>, ip: string, b: Bucket, x: int, n: nat, q: nat, a: int, z: int, held: bool) {
    AfterBursts(cfg, es, ip, b, x, n, q, a, z, held) && Fills(cfg, b, x, n, q)
  }

  function Stages(cfg: Config, es: seq<Event>, ip: string, b: Bucket, x: int, n: nat, a: int, z: int, held: bool): nat -> bool {
    (k: nat) => Stage(cfg, es, ip, b, x, n, k, a, z, held)
  }

  /** The bursts fit in the day of the bucket `b`, which the address has when they begin. */
  predicate BurstsFit(cfg: Config, es: seq<Event>, ip: string, b: Bucket, x: int, n: nat, q: nat, a: int, z: int, held: bool) {
    && cfg.perMinute == n >= 1 && WithinLimits(cfg, b) && b.minuteReset < x
    && Has(cfg, es, ip, b) && Until(es, x) && (q >= 1 ==> WindowAt(x, q - 1) <= b.dayReset)
    && HoldsWindows(x, q, a, z, held)
  }

  lemma FirstStage(cfg: Config, es: seq<Event>, ip: string, b: Bucket, x: int, n: nat, q: nat, a: int, z: int, held: bool)
    requires BurstsFit(cfg, es, ip, b, x, n, q, a, z, held)
    ensures Stages(cfg, es, ip, b, x, n, a, z, held)(0)
  {
    assert es + Bursts(ip, x, n, 0) == es;
  }

  lemma NextStage(cfg: Config, es: seq<Event>, ip: string, b: Bucket, x: int, n: nat, q: nat, k: nat, a: int, z: int,
                  held: bool)
    requires BurstsFit(cfg, es, ip, b, x, n, q, a, z, held) && k < q
    requires Stages(cfg, es, ip, b, x, n, a, z, held)(k)
    ensures Stages(cfg, es, ip, b, x, n, a, z, held)(k + 1)
  {
    HoldsSome(x, q, k, a, z, held);
    NextBurst(cfg, es, ip, b, x, n, k, a, z, held);
  }

  lemma {:induction false} StepByStep(p: nat -> bool, q: nat)
    requires p(0) && forall k: nat :: k < q && p(k) ==> p(k + 1)
    ensures p(q)
  {
    if q > 0 {
      StepByStep(p, q - 1);
      assert p(q - 1) ==> p(q - 1 + 1);
    }
  }

  lemma LastStage(cfg: Config, es: seq<Event>, ip: string, b: Bucket, x: int, n: nat, q: nat, a: int, z: int, held: bool)
    requires BurstsFit(cfg, es, ip, b, x, n, q, a, z, held)
    ensures Stages(cfg, es, ip, b, x, n, a, z, held)(q)
  {
    FirstStage(cfg, es, ip, b, x, n, q, a, z, held);
    var p := Stages(cfg, es, ip, b, x, n, a, z, held);
    forall k: nat | k < q && p(k) ensures p(k + 1) {
      NextStage(cfg, es, ip, b, x, n, q, k, a, z, held);
    }
    StepByStep(p, q);
  }

  lemma BurstsServed(cfg: Config, es: seq<Event>, ip: string, b: Bucket, x: int, n: nat, q: nat, a: int, z: int, held: bool)
    requires cfg.perMinute == n >= 1 && WithinLimits(cfg, b) && b.minuteReset < x
    requires Has(cfg, es, ip, b) && Until(es, x) && (q >= 1 ==> WindowAt(x, q - 1) <= b.dayReset)
    requires HoldsWindows(x, q, a, z, held)
    ensures AfterBursts(cfg, es, ip, b, x, n, q, a, z, held) && Fills(cfg, b, x, n, q)
  {
    LastStage(cfg, es, ip, b, x, n, q, a, z, held);
  }

  /** Enough bursts in one day use it up. */
  lemma BurstsUseUpDay(cfg: Config, es: seq<Event>, ip: string, b: Bucket, x: int, q: nat, a: int, z: int)
    requires cfg.perMinute >= 1 && WithinLimits(cfg, b) && b.minuteReset < x
    requires Has(cfg, es, ip, b) && Until(es, x) && q >= 1 && WindowAt(x, q - 1) <= b.dayReset
    requires a <= x && WindowAt(x, q - 1) <= z
    requires b.dayCount + q * cfg.perMinute >= cfg.perDay
    ensures Ordered(es + Bursts(ip, x, cfg.perMinute, q))
    ensures AllowedIn(cfg, es + Bursts(ip, x, cfg.perMinute, q), ip, a, z)
            == AllowedIn(cfg, es, ip, a, z) + cfg.perDay - b.dayCount
  {
    BurstsServed(cfg, es, ip, b, x, cfg.perMinute, q, a, z, true);
  }

  // --------------------------------------------------------------- the minute's double

  const DAY_BEGINS: int := DAY + 1
  const FIRST_MINUTE: int := DAY_BEGINS - MINUTES_A_DAY
  const REFUSED_AT: int := DAY_BEGINS + DAY
  const MINUTE_DOUBLE: int := REFUSED_AT + 1

  /**
   A day window begins just after a minute window did, so that the 1440th minute window
   after it still begins in the same day.
   */
  lemma DayBeginsInAMinute(cfg: Config, ip: string) returns (es: seq<Event>)
    requires cfg.perMinute >= 1 && cfg.perDay >= 2 * cfg.perMinute
    ensures Until(es, DAY_BEGINS) && AllowedIn(cfg, es, ip, MINUTE_DOUBLE, MINUTE_DOUBLE + MINUTE) == 0
    ensures Has(cfg, es, ip, Bucket(cfg.perMinute, FIRST_MINUTE + MINUTE, cfg.perMinute - 1, DAY_BEGINS + DAY, DAY_BEGINS))
  {
    var a, z := MINUTE_DOUBLE, MINUTE_DOUBLE + MINUTE;
    var first := [Asked(ip, 0)];
    FirstRequest(cfg, ip, 0, a, z);
    var born := Bucket(1, MINUTE, 1, DAY, 0);
    BurstServed(cfg, first, ip, born, FIRST_MINUTE, 1, a, z);
    var second := first + Repeat(ip, FIRST_MINUTE, 1);
    var late := Bucket(1, FIRST_MINUTE + MINUTE, 2, DAY, FIRST_MINUTE);
    BurstServed(cfg, second, ip, late, DAY_BEGINS, cfg.perMinute, a, z);
    es := second + Repeat(ip, DAY_BEGINS, cfg.perMinute);
  }

  /** The day used up, a request that is refused begins a minute window at the day's last moment. */
  lemma RefusedBeginsAMinute(cfg: Config, ip: string) returns (es: seq<Event>)
    requires cfg.perMinute >= 1 && 2 * cfg.perMinute <= cfg.perDay < MINUTES_A_DAY * cfg.perMinute
    ensures Until(es, REFUSED_AT) && AllowedIn(cfg, es, ip, MINUTE_DOUBLE, MINUTE_DOUBLE + MINUTE) == 0
    ensures Has(cfg, es, ip, Bucket(0, REFUSED_AT + MINUTE, cfg.perDay, REFUSED_AT, REFUSED_AT))
  {
    var n, q, x, a, z := cfg.perMinute, MINUTES_A_DAY - 1, FIRST_MINUTE + MINUTE + 1, MINUTE_DOUBLE, MINUTE_DOUBLE + MINUTE;
    var begun := DayBeginsInAMinute(cfg, ip);
    var b := Bucket(n, FIRST_MINUTE + MINUTE, n - 1, DAY_BEGINS + DAY, DAY_BEGINS);
    assert WindowAt(x, q - 1) < DAY_BEGINS + DAY;
    BurstsServed(cfg, begun, ip, b, x, n, q, a, z, false);
    var f := Filled(cfg, b, x, n, q);
    assert Fills(cfg, b, x, n, q) && f.dayCount == cfg.perDay;
    var filled := begun + Bursts(ip, x, n, q);
    BurstServed(cfg, filled, ip, f, REFUSED_AT, 1, a, z);
    es := filled + Repeat(ip, REFUSED_AT, 1);
  }

  /** Then the day's count starts afresh within that minute, and the next minute follows: twice the limit. */
  lemma MinuteDoubleIsReached(cfg: Config, ip: string) returns (es: seq<Event>)
    requires cfg.perMinute >= 1 && 2 * cfg.perMinute <= cfg.perDay < MINUTES_A_DAY * cfg.perMinute
    ensures Ordered(es)
    ensures AllowedIn(cfg, es, ip, MINUTE_DOUBLE, MINUTE_DOUBLE + MINUTE) == 2 * Limit(cfg, false)
  {
    var n, a, z := cfg.perMinute, MINUTE_DOUBLE, MINUTE_DOUBLE + MINUTE;
    var refused := RefusedBeginsAMinute(cfg, ip);
    var b := Bucket(0, REFUSED_AT + MINUTE, cfg.perDay, REFUSED_AT, REFUSED_AT);
    BurstServed(cfg, refused, ip, b, a, n, a, z);
    var once := refused + Repeat(ip, a, n);
    var c := Served(cfg, b, a, n);
    assert c == Bucket(n, REFUSED_AT + MINUTE, n, a + DAY, a);
    BurstServed(cfg, once, ip, c, z, n, a, z);
    es := once + Repeat(ip, z, n);
  }

  /** The first request of a window, and then as many as it still admits. */
  lemma FullWindow(cfg: Config, ip: string, last: int, n: nat, a: int, z: int) returns (es: seq<Event>, b: Bucket)
    requires cfg.perMinute >= n >= 1 && cfg.perDay >= n
    requires 0 < last <= MINUTE || MINUTE < last <= DAY
    requires 0 < a <= last <= z
    ensures Has(cfg, es, ip, b) && Until(es, last) && WithinLimits(cfg, b)
    ensures b.dayReset == DAY && b.minuteReset <= (if last <= MINUTE then MINUTE else last + MINUTE) && b.dayCount == n
    ensures AllowedIn(cfg, es, ip, a, z) == n - 1
  {
    es, b := [Asked(ip, 0)], Bucket(1, MINUTE, 1, DAY, 0);
    FirstRequest(cfg, ip, 0, a, z);
    if n > 1 {
      BurstServed(cfg, es, ip, b, last, n - 1, a, z);
      es, b := es + Repeat(ip, last, n - 1), Served(cfg, b, last, n - 1);
    }
  }

  /** One less than twice the day's limit, by requests just before and just after a day's end. */
  lemma DayOneLessIsReached(cfg: Config, ip: string) returns (es: seq<Event>)
    requires 1 <= cfg.perDay <= cfg.perMinute
    ensures Ordered(es) && AllowedIn(cfg, es, ip, 1, 1 + DAY) == 2 * cfg.perDay - 1
  {
    var n, z := cfg.perDay, 1 + DAY;
    var full, b := FullWindow(cfg, ip, DAY - MINUTE, n, 1, z);
    BurstServed(cfg, full, ip, b, z, n, 1, z);
    es := full + Repeat(ip, z, n);
  }

  const LAST_MINUTE: int := DAY - MINUTE + 1

  /** A day that one request began, and another the minute window in which it ends. */
  lemma DayEndsInAMinute(cfg: Config, ip: string) returns (es: seq<Event>)
    requires cfg.perMinute >= 1 && cfg.perDay >= 2
    ensures Until(es, LAST_MINUTE) && AllowedIn(cfg, es, ip, DAY, DAY + MINUTE) == 0
    ensures Has(cfg, es, ip, Bucket(1, DAY + 1, 2, DAY, LAST_MINUTE))
  {
    var a, z := DAY, DAY + MINUTE;
    FirstRequest(cfg, ip, 0, a, z);
    BurstServed(cfg, [Asked(ip, 0)], ip, Bucket(1, MINUTE, 1, DAY, 0), LAST_MINUTE, 1, a, z);
    es := [Asked(ip, 0)] + Repeat(ip, LAST_MINUTE, 1);
  }

  /** One less than twice the minute's limit, by requests at the end of one window and the beginning of the next. */
  lemma MinuteOneLessIsReached(cfg: Config, ip: string) returns (es: seq<Event>)
    requires 1 <= cfg.perMinute < cfg.perDay
    ensures Ordered(es) && AllowedIn(cfg, es, ip, DAY, DAY + MINUTE) == 2 * cfg.perMinute - 1
  {
    var n, a, z := cfg.perMinute, DAY, DAY + MINUTE;
    var begun := DayEndsInAMinute(cfg, ip);
    BurstServed(cfg, begun, ip, Bucket(1, DAY + 1, 2, DAY, LAST_MINUTE), DAY, n, a, z);
    var full := begun + Repeat(ip, DAY, n);
    BurstServed(cfg, full, ip, Bucket(n, DAY + 1, n + 1, DAY, DAY), DAY + 2, n, a, z);
    es := full + Repeat(ip, DAY + 2, n);
  }

  /** Where two days fit in one minute window: all of two days but the request that began the first. */
  lemma DaysInAMinuteAreReached(cfg: Config, ip: string) returns (es: seq<Event>)
    requires 1 <= cfg.perDay && 2 * cfg.perDay - 1 <= cfg.perMinute
    ensures Ordered(es) && AllowedIn(cfg, es, ip, DAY, DAY + MINUTE) == 2 * cfg.perDay - 1
  {
    var d, a, z := cfg.perDay, DAY, DAY + MINUTE;
    FirstRequest(cfg, ip, 0, a, z);
    var first := [Asked(ip, 0)];
    BurstServed(cfg, first, ip, Bucket(1, MINUTE, 1, DAY, 0), DAY, d, a, z);
    var full := first + Repeat(ip, DAY, d);
    BurstServed(cfg, full, ip, Bucket(d - 1, DAY + MINUTE, d, DAY, DAY), DAY + 1, d, a, z);
    es := full + Repeat(ip, DAY + 1, d);
  }

  /** Where they do not, all but that one and the one that began the minute window in which the day ends. */
  lemma DaysInTwoMinutesAreReached(cfg: Config, ip: string) returns (es: seq<Event>)
    requires 2 <= cfg.perDay <= cfg.perMinute <= 2 * cfg.perDay - 2
    ensures Ordered(es) && AllowedIn(cfg, es, ip, DAY, DAY + MINUTE) == 2 * cfg.perDay - 2
  {
    var n, d, a, z := cfg.perMinute, cfg.perDay, DAY, DAY + MINUTE;
    var begun := DayEndsInAMinute(cfg, ip);
    BurstServed(cfg, begun, ip, Bucket(1, DAY + 1, 2, DAY, LAST_MINUTE), DAY, n, a, z);
    var used := begun + Repeat(ip, DAY, n);
    BurstServed(cfg, used, ip, Bucket(d - 1, DAY + 1, d, DAY, DAY), DAY + 1, n, a, z);
    var anew := used + Repeat(ip, DAY + 1, n);
    BurstServed(cfg, anew, ip, Bucket(n, DAY + 1, n - d + 1, DAY + 1 + DAY, DAY + 1), DAY + 2, n, a, z);
    es := anew + Repeat(ip, DAY + 2, n);
  }

  // ------------------------------------------------------------------ the day's double

  const HALF_A_DAY: int := 720
  const DAY_FULL_FROM: int := DAY_BEGINS + DAY - MINUTE - (HALF_A_DAY - 1) * (MINUTE + 1)
  const NEXT_DAY: int := DAY_BEGINS + DAY + 1

  /** A day window that begins with a request refused for the minute. */
  lemma RefusedBeginsADay(cfg: Config, ip: string, a: int, z: int) returns (es: seq<Event>)
    requires 1 <= cfg.perMinute < cfg.perDay && a > DAY_BEGINS
    ensures Until(es, DAY_BEGINS) && AllowedIn(cfg, es, ip, a, z) == 0
    ensures Has(cfg, es, ip, Bucket(cfg.perMinute, DAY + MINUTE, 0, DAY_BEGINS + DAY, DAY_BEGINS))
  {
    var n := cfg.perMinute;
    var first := [Asked(ip, 0)];
    FirstRequest(cfg, ip, 0, a, z);
    BurstServed(cfg, first, ip, Bucket(1, MINUTE, 1, DAY, 0), DAY, n, a, z);
    var used := first + Repeat(ip, DAY, n);
    BurstServed(cfg, used, ip, Bucket(n, DAY + MINUTE, n + 1, DAY, DAY), DAY_BEGINS, 1, a, z);
    es := used + Repeat(ip, DAY_BEGINS, 1);
  }

  /** It fills in its last 720 minutes. */
  lemma DayFillsLate(cfg: Config, ip: string) returns (es: seq<Event>, b: Bucket)
    requires 1 <= cfg.perMinute < cfg.perDay <= HALF_A_DAY * cfg.perMinute
    ensures Until(es, DAY_BEGINS + DAY) && Has(cfg, es, ip, b) && WithinLimits(cfg, b)
    ensures b.dayReset == DAY_BEGINS + DAY && b.minuteReset == DAY_BEGINS + DAY
    ensures AllowedIn(cfg, es, ip, DAY_FULL_FROM, DAY_FULL_FROM + DAY) == cfg.perDay
  {
    var n, a, z := cfg.perMinute, DAY_FULL_FROM, DAY_FULL_FROM + DAY;
    var begun := RefusedBeginsADay(cfg, ip, a, z);
    var empty := Bucket(n, DAY + MINUTE, 0, DAY_BEGINS + DAY, DAY_BEGINS);
    assert WindowAt(a, HALF_A_DAY - 1) == DAY_BEGINS + DAY - MINUTE <= z;
    BurstsServed(cfg, begun, ip, empty, a, n, HALF_A_DAY, a, z, true);
    es, b := begun + Bursts(ip, a, n, HALF_A_DAY), Filled(cfg, empty, a, n, HALF_A_DAY);
  }

  lemma NextDayBegins(cfg: Config, es: seq<Event>, ip: string, b: Bucket, a: int, z: int)
    requires 1 <= cfg.perMinute < cfg.perDay && Has(cfg, es, ip, b) && WithinLimits(cfg, b)
    requires Until(es, DAY_BEGINS + DAY) && b.dayReset == DAY_BEGINS + DAY && b.minuteReset == DAY_BEGINS + DAY
    requires a <= NEXT_DAY <= z
    ensures var n, more := cfg.perMinute, es + Repeat(ip, NEXT_DAY, cfg.perMinute);
      && Until(more, NEXT_DAY) && Has(cfg, more, ip, Bucket(n, NEXT_DAY + MINUTE, n, NEXT_DAY + DAY, NEXT_DAY))
      && AllowedIn(cfg, more, ip, a, z) == AllowedIn(cfg, es, ip, a, z) + n
  {
    BurstServed(cfg, es, ip, b, NEXT_DAY, cfg.perMinute, a, z);
  }

  lemma LastBurstInTime(x: int)
    requires x == NEXT_DAY + MINUTE + 1
    ensures WindowAt(x, HALF_A_DAY - 2) <= DAY_FULL_FROM + DAY && WindowAt(x, HALF_A_DAY - 2) <= NEXT_DAY + DAY
  {
  }

  /** The next day fills in its first 720 minutes: twice the day limit within 24 hours. */
  lemma DayDoubleIsReached(cfg: Config, ip: string) returns (es: seq<Event>)
    requires 1 <= cfg.perMinute < cfg.perDay <= HALF_A_DAY * cfg.perMinute
    ensures Ordered(es)
    ensures AllowedIn(cfg, es, ip, DAY_FULL_FROM, DAY_FULL_FROM + DAY) == 2 * Limit(cfg, true)
  {
    var n, q, a, z := cfg.perMinute, HALF_A_DAY - 1, DAY_FULL_FROM, DAY_FULL_FROM + DAY;
    var filled, b := DayFillsLate(cfg, ip);
    NextDayBegins(cfg, filled, ip, b, a, z);
    var once := filled + Repeat(ip, NEXT_DAY, n);
    var c, x := Bucket(n, NEXT_DAY + MINUTE, n, NEXT_DAY + DAY, NEXT_DAY), NEXT_DAY + MINUTE + 1;
    LastBurstInTime(x);
    BurstsUseUpDay(cfg, once, ip, c, x, q, a, z);
    es := once + Bursts(ip, x, n, q);
  }

  // ---------------------------------------------------- a day of full minute windows

  const AMPLE_FROM: int := DAY_BEGINS + (HALF_A_DAY + 1) * MINUTE - HALF_A_DAY
  const AMPLE_UNTIL: int := AMPLE_FROM + DAY
  const FIRST_OF_DAY: int := AMPLE_FROM + 1
  const SHARED: int := DAY_BEGINS + DAY
  const AFTER_SHARED: int := SHARED + MINUTE + 1

  /** What the minute window in which the day ends still gives to that day. */
  function Share(cfg: Config): int {
    Min(cfg.perMinute, cfg.perDay - HALF_A_DAY * cfg.perMinute)
  }

  lemma AmpleTimes()
    ensures WindowAt(FIRST_OF_DAY, HALF_A_DAY - 1) == SHARED
    ensures WindowAt(FIRST_OF_DAY, HALF_A_DAY - 2) < SHARED
    ensures WindowAt(AFTER_SHARED, HALF_A_DAY - 1) <= AMPLE_UNTIL
    ensures DAY + MINUTE < AMPLE_FROM - MINUTE && SHARED + 1 + DAY > AMPLE_UNTIL
  {
  }

  /** A minute window that began a minute before the interval is filled at its end. */
  lemma AmpleBegins(cfg: Config, ip: string) returns (es: seq<Event>)
    requires 1 <= cfg.perMinute && cfg.perDay > HALF_A_DAY * cfg.perMinute
    ensures Until(es, AMPLE_FROM) && AllowedIn(cfg, es, ip, AMPLE_FROM, AMPLE_UNTIL) == cfg.perMinute - 1
    ensures Has(cfg, es, ip, Bucket(cfg.perMinute, AMPLE_FROM, cfg.perMinute, SHARED, AMPLE_FROM))
  {
    var n, a, z := cfg.perMinute, AMPLE_FROM, AMPLE_UNTIL;
    AmpleTimes();
    var begun := RefusedBeginsADay(cfg, ip, a, z);
    BurstServed(cfg, begun, ip, Bucket(n, DAY + MINUTE, 0, SHARED, DAY_BEGINS), a - MINUTE, 1, a, z);
    var begins := begun + Repeat(ip, a - MINUTE, 1);
    BurstServed(cfg, begins, ip, Bucket(1, a, 1, SHARED, a - MINUTE), a, n, a, z);
    es := begins + Repeat(ip, a, n);
  }

  /** The windows of the first half. */
  lemma AmpleFirstHalf(cfg: Config, ip: string) returns (es: seq<Event>, b: Bucket)
    requires 1 <= cfg.perMinute && cfg.perDay > HALF_A_DAY * cfg.perMinute
    ensures Until(es, SHARED) && Has(cfg, es, ip, b) && WithinLimits(cfg, b)
    ensures b.dayCount == HALF_A_DAY * cfg.perMinute && b.dayReset == SHARED && b.minuteReset < SHARED
    ensures AllowedIn(cfg, es, ip, AMPLE_FROM, AMPLE_UNTIL) == HALF_A_DAY * cfg.perMinute - 1
  {
    var n, q, a, z := cfg.perMinute, HALF_A_DAY - 1, AMPLE_FROM, AMPLE_UNTIL;
    AmpleTimes();
    var begun := AmpleBegins(cfg, ip);
    var b0 := Bucket(n, a, n, SHARED, a);
    BurstsServed(cfg, begun, ip, b0, FIRST_OF_DAY, n, q, a, z, true);
    es, b := begun + Bursts(ip, FIRST_OF_DAY, n, q), Filled(cfg, b0, FIRST_OF_DAY, n, q);
  }

  /** The window in which the day ends serves that day, as far as it goes. */
  lemma AmpleUsed(cfg: Config, ip: string) returns (es: seq<Event>)
    requires 1 <= cfg.perMinute && cfg.perDay > HALF_A_DAY * cfg.perMinute
    ensures Until(es, SHARED)
    ensures Has(cfg, es, ip, Bucket(Share(cfg), SHARED + MINUTE, HALF_A_DAY * cfg.perMinute + Share(cfg), SHARED, SHARED))
    ensures AllowedIn(cfg, es, ip, AMPLE_FROM, AMPLE_UNTIL) == HALF_A_DAY * cfg.perMinute - 1 + Share(cfg)
  {
    AmpleTimes();
    var half, b := AmpleFirstHalf(cfg, ip);
    BurstServed(cfg, half, ip, b, SHARED, cfg.perMinute, AMPLE_FROM, AMPLE_UNTIL);
    es := half + Repeat(ip, SHARED, cfg.perMinute);
  }

  /** And then the next. */
  lemma AmpleShared(cfg: Config, ip: string) returns (es: seq<Event>)
    requires 1 <= cfg.perMinute && cfg.perDay > HALF_A_DAY * cfg.perMinute
    ensures Until(es, SHARED + 1)
    ensures Has(cfg, es, ip, Bucket(cfg.perMinute, SHARED + MINUTE, cfg.perMinute - Share(cfg), SHARED + 1 + DAY, SHARED + 1))
    ensures AllowedIn(cfg, es, ip, AMPLE_FROM, AMPLE_UNTIL) == HALF_A_DAY * cfg.perMinute - 1 + cfg.perMinute
  {
    var n, s := cfg.perMinute, Share(cfg);
    AmpleTimes();
    var used := AmpleUsed(cfg, ip);
    BurstServed(cfg, used, ip, Bucket(s, SHARED + MINUTE, HALF_A_DAY * n + s, SHARED, SHARED), SHARED + 1, n,
                AMPLE_FROM, AMPLE_UNTIL);
    es := used + Repeat(ip, SHARED + 1, n);
  }

  /** What the second half adds. */
  lemma AmpleSum(n: int, d: int, share: int, half: int)
    requires half == HALF_A_DAY * n && share == Min(n, d - half) && n >= 1 && d > half
    ensures half - 1 + n + (Min(d, n - share + half) - (n - share)) == Min(2 * d - 1, (MINUTES_A_DAY + 1) * n - 1)
  {
  }

  /** A day is allowed 1441 full minute windows but for one request, or two days but for one. */
  lemma AmpleDayIsReached(cfg: Config, ip: string) returns (es: seq<Event>)
    requires 1 <= cfg.perMinute && cfg.perDay > HALF_A_DAY * cfg.perMinute
    ensures Ordered(es)
    ensures AllowedIn(cfg, es, ip, AMPLE_FROM, AMPLE_UNTIL) ==
            Min(2 * cfg.perDay - 1, (MINUTES_A_DAY + 1) * cfg.perMinute - 1)
  {
    var n, q, a, z := cfg.perMinute, HALF_A_DAY, AMPLE_FROM, AMPLE_UNTIL;
    AmpleTimes();
    var shared := AmpleShared(cfg, ip);
    var b := Bucket(n, SHARED + MINUTE, n - Share(cfg), SHARED + 1 + DAY, SHARED + 1);
    BurstsServed(cfg, shared, ip, b, AFTER_SHARED, n, q, a, z, true);
    AmpleSum(n, cfg.perDay, Share(cfg), HALF_A_DAY * n);
    es := shared + Bursts(ip, AFTER_SHARED, n, q);
  }
}
