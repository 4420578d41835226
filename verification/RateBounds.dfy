/**
 How much the limiter admits in one window's length: never more than the limit while no
 window begins, and exactly when twice the limit can be reached.
 */
module RateBounds {
  import opened RateLimit

  const MINUTES_A_DAY: int := 24 * 60

  // ------------------------------------------------------------- while no window begins

  /** The request that ends `es` begins a window of `ip`. */
  predicate Begins(cfg: Config, es: seq<Event>, ip: string, daily: bool)
    requires es != []
  {
    var e, m := es[|es| - 1], AfterUnswept(cfg, es[..|es| - 1]);
    e.Asked? && e.ip == ip && (ip in m ==> e.at > Reset(m[ip], daily))
  }

  /** What was allowed from `a` on before the current window of `ip` began. */
  function AllowedBefore(cfg: Config, es: seq<Event>, ip: string, daily: bool, a: int): nat {
    if es == [] then 0
    else if Begins(cfg, es, ip, daily) then AllowedIn(cfg, es[..|es| - 1], ip, a, a + Length(daily))
    else AllowedBefore(cfg, es[..|es| - 1], ip, daily, a)
  }

  predicate Splits(cfg: Config, m: Buckets, ip: string, daily: bool, a: int, before: nat, allowed: nat) {
    && (ip !in m ==> allowed == 0)
    && (ip in m && Reset(m[ip], daily) - Length(daily) < a ==> allowed <= Counted(m[ip], daily))
    && (ip in m && Reset(m[ip], daily) - Length(daily) >= a ==> allowed == before + Counted(m[ip], daily))
  }

  lemma RequestSplits(cfg: Config, m: Buckets, ip: string, at: int, daily: bool, a: int, before: nat, allowed: nat)
    requires Splits(cfg, m, ip, daily, a, before, allowed) && at <= a + Length(daily)
    requires ip in m ==> Reset(m[ip], daily) - Length(daily) <= at && 0 <= Counted(m[ip], daily)
    requires at < a ==> allowed == 0
    ensures var (m', ok) := Request(cfg, m, ip, at);
      Splits(cfg, m', ip, daily, a, if ip in m && at <= Reset(m[ip], daily) then before else allowed,
             allowed + if ok && a <= at then 1 else 0)
  {
  }

  /**
   If no window of the address began at `a` or later, no more than the window's own
   count was allowed since `a`, so no more than the limit. If one began, what was
   allowed is what was before it and what it counted.
   */
  lemma {:induction false} AllowedSplits(cfg: Config, es: seq<Event>, ip: string, daily: bool, a: int)
    requires Ordered(es) && (es != [] ==> es[|es| - 1].at <= a + Length(daily))
    ensures Splits(cfg, AfterUnswept(cfg, es), ip, daily, a, AllowedBefore(cfg, es, ip, daily, a),
                   AllowedIn(cfg, es, ip, a, a + Length(daily)))
  {
    if es != [] {
      var before, e := es[..|es| - 1], es[|es| - 1];
      AllowedSplits(cfg, before, ip, daily, a);
      if e.Asked? && e.ip == ip {
        JanitorIsInvisible(cfg, es);
        WindowAccounts(cfg, before, ip, daily, a, e.at);
        RequestSplits(cfg, AfterUnswept(cfg, before), ip, e.at, daily, a, AllowedBefore(cfg, before, ip, daily, a),
                      AllowedIn(cfg, before, ip, a, a + Length(daily)));
      }
    }
  }

  /**
   The plain limit is exceeded in an interval of a window's length exactly when a
   window began in it and what was allowed before and what it counted add up to more.
   */
  lemma LimitExceededIff(cfg: Config, es: seq<Event>, ip: string, daily: bool, a: int)
    requires Ordered(es) && (es != [] ==> es[|es| - 1].at <= a + Length(daily))
    ensures var m := AfterUnswept(cfg, es);
      AllowedIn(cfg, es, ip, a, a + Length(daily)) > Limit(cfg, daily) <==>
        && ip in m && Reset(m[ip], daily) - Length(daily) >= a
        && AllowedBefore(cfg, es, ip, daily, a) + Counted(m[ip], daily) > Limit(cfg, daily)
  {
    AllowedSplits(cfg, es, ip, daily, a);
    WindowAccounts(cfg, es, ip, daily, a, if es == [] then 0 else es[|es| - 1].at);
  }

  // ------------------------------------------------------------- what holds along a trace

  /** With buckets `m`, at time `now` and with `c` requests allowed from `a` to `z`. */
  type Standing = (Buckets, int, nat) -> bool

  /** A request of `ip` keeps the standing. */
  ghost predicate KeptByRequest(cfg: Config, ip: string, a: int, z: int, p: Standing, m: Buckets, at: int, c: nat) {
    var (m', ok) := Request(cfg, m, ip, at);
    p(m, at, c) ==> p(m', at, c + if ok && a <= at <= z then 1 else 0)
  }

  /** It is about the bucket of `ip` alone, and lasts. */
  ghost predicate KeptByOthers(ip: string, p: Standing, m: Buckets, n: Buckets, now: int, later: int, c: nat) {
    p(m, now, c) && Same(m, n, ip) && now <= later ==> p(n, later, c)
  }

  /** It holds without a bucket, and every event keeps it. */
  ghost predicate IsKept(cfg: Config, ip: string, a: int, z: int, p: Standing) {
    && (forall now :: p(map[], now, 0))
    && (forall m, at, c {:trigger KeptByRequest(cfg, ip, a, z, p, m, at, c)} :: KeptByRequest(cfg, ip, a, z, p, m, at, c))
    && (forall m, n, now, later, c {:trigger KeptByOthers(ip, p, m, n, now, later, c)} ::
          KeptByOthers(ip, p, m, n, now, later, c))
  }

  /** From `c` allowed with buckets `m`, the event leads to `d` with buckets `n`. */
  predicate LeadsTo(cfg: Config, ip: string, a: int, z: int, e: Event, m: Buckets, c: nat, n: Buckets, d: nat) {
    var (m', ok) := Request(cfg, m, ip, e.at);
    if e.Asked? && e.ip == ip then n == m' && d == c + if ok && a <= e.at <= z then 1 else 0
    else Same(m, n, ip) && d == c
  }

  lemma LastLeadsTo(cfg: Config, es: seq<Event>, ip: string, a: int, z: int)
    requires Ordered(es) && es != []
    ensures var before := es[..|es| - 1];
      LeadsTo(cfg, ip, a, z, es[|es| - 1], AfterUnswept(cfg, before), AllowedIn(cfg, before, ip, a, z),
              AfterUnswept(cfg, es), AllowedIn(cfg, es, ip, a, z))
  {
    JanitorIsInvisible(cfg, es);
  }

  lemma EventKeeps(cfg: Config, ip: string, a: int, z: int, p: Standing, now: int, e: Event, m: Buckets, c: nat,
                   n: Buckets, d: nat)
    requires IsKept(cfg, ip, a, z, p) && p(m, e.at, c) && e.at <= now && LeadsTo(cfg, ip, a, z, e, m, c, n, d)
    ensures p(n, now, d)
  {
    if e.Asked? && e.ip == ip {
      assert KeptByRequest(cfg, ip, a, z, p, m, e.at, c);
      assert KeptByOthers(ip, p, n, n, e.at, now, d);
    } else {
      assert KeptByOthers(ip, p, m, n, e.at, now, d);
    }
  }

  function EndOf(es: seq<Event>): int {
    if es == [] then 0 else es[|es| - 1].at
  }

  /** Such a standing holds at the end of every trace. */
  lemma {:induction false} Throughout(cfg: Config, es: seq<Event>, ip: string, a: int, z: int, p: Standing, now: int)
    requires IsKept(cfg, ip, a, z, p) && Ordered(es) && (es != [] ==> es[|es| - 1].at <= now)
    ensures p(AfterUnswept(cfg, es), now, AllowedIn(cfg, es, ip, a, z))
  {
    if es != [] {
      var before, e := es[..|es| - 1], es[|es| - 1];
      Throughout(cfg, before, ip, a, z, p, e.at);
      LastLeadsTo(cfg, es, ip, a, z);
      EventKeeps(cfg, ip, a, z, p, now, e, AfterUnswept(cfg, before), AllowedIn(cfg, before, ip, a, z),
                 AfterUnswept(cfg, es), AllowedIn(cfg, es, ip, a, z));
    }
  }

  // --------------------------------------------------------- when the double is out of reach

  /** How many minute windows can begin one after the other within `x` nanoseconds of the first. */
  function WindowsIn(x: int): (k: nat)
    requires x >= 0
    ensures k * (MINUTE + 1) <= x < (k + 1) * (MINUTE + 1)
  {
    x / (MINUTE + 1)
  }

  lemma OneWindowMore(x: int, y: int)
    requires 0 <= x && x + MINUTE + 1 <= y
    ensures WindowsIn(y) >= WindowsIn(x) + 1
  {
  }

  lemma WindowsInADay(x: int)
    requires 0 <= x <= DAY
    ensures WindowsIn(x) <= MINUTES_A_DAY - 1
  {
  }

  function MinuteBegan(b: Bucket): int { b.minuteReset - MINUTE }

  function DayBegan(b: Bucket): int { b.dayReset - DAY }

  /**
   What the day has counted before the current minute: at most a full count for each
   minute window since the day began, and one less for a window the day began in.
   */
  predicate DayIsPaced(n: int, b: Bucket) {
    var earlier, since := b.dayCount - b.minuteCount, MinuteBegan(b) - DayBegan(b);
    if since < 0 then earlier <= -1
    else earlier <= n * WindowsIn(since) || (since > 0 && earlier <= n - 1 + n * WindowsIn(since - 1))
  }

  /** Every minute window began with a request that was allowed. */
  predicate MinutesBeginAllowed(cfg: Config, b: Bucket) {
    && 1 <= b.minuteCount <= cfg.perMinute
    && 0 <= b.dayCount <= cfg.perDay
    && MinuteBegan(b) <= b.lastSeen && DayBegan(b) <= b.lastSeen
    && DayBegan(b) <= MinuteBegan(b) + MINUTE
    && DayIsPaced(cfg.perMinute, b)
  }

  /** One window more makes room for one count more. */
  lemma OneCountMore(n: nat, k: nat, next: nat)
    requires k + 1 <= next
    ensures n * k + n <= n * next
  {
    var d: nat := next - (k + 1);
    ProductOfNats(n, d);
    Distribute(n, k, d);
    assert k + 1 + d == next;
  }

  lemma Distribute(n: nat, k: nat, d: nat)
    ensures n * (k + 1 + d) == n * k + n + n * d
  {
  }

  lemma CountsInADay(n: nat, k: nat)
    requires k <= MINUTES_A_DAY - 1
    ensures 0 <= n * k && n * k + n <= MINUTES_A_DAY * n
  {
    OneCountMore(n, k, MINUTES_A_DAY);
  }

  lemma PacedFrom(n: nat, earlier: int, count: int, was: int, now: int)
    requires was >= 0 && was + MINUTE + 1 <= now && count <= n
    requires earlier <= n * WindowsIn(was)
    ensures earlier + count <= n * WindowsIn(now)
  {
    OneWindowMore(was, now);
    OneCountMore(n, WindowsIn(was), WindowsIn(now));
  }

  lemma Paced(n: nat, earlier: int, count: int, was: int, now: int)
    requires n >= 1 && was + MINUTE + 1 <= now && now >= 1 && count <= n
    requires if was < 0 then earlier <= -1
      else earlier <= n * WindowsIn(was) || (was > 0 && earlier <= n - 1 + n * WindowsIn(was - 1))
    ensures earlier + count <= n * WindowsIn(now) || earlier + count <= n - 1 + n * WindowsIn(now - 1)
  {
    if was < 0 {
      CountsInADay(n, 0);
      ProductOfNats(n, WindowsIn(now - 1));
    } else if earlier <= n * WindowsIn(was) {
      PacedFrom(n, earlier, count, was, now);
    } else {
      PacedFrom(n, earlier - (n - 1), count, was - 1, now - 1);
    }
  }

  lemma ProductOfNats(x: nat, y: nat)
    ensures x * y >= 0
  {
  }

  lemma RoomLeft(n: nat, counted: int, now: int)
    requires n >= 1 && 1 <= now <= DAY
    requires counted <= n * WindowsIn(now) || counted <= n - 1 + n * WindowsIn(now - 1)
    ensures counted < MINUTES_A_DAY * n
  {
    WindowsInADay(now);
    WindowsInADay(now - 1);
    CountsInADay(n, WindowsIn(now));
    CountsInADay(n, WindowsIn(now - 1));
  }

  /** When a new minute begins in the same day, the day has paced it, and still has room. */
  lemma NewMinuteIsPaced(cfg: Config, b: Bucket, at: int)
    requires cfg.perMinute >= 1 && cfg.perDay >= MINUTES_A_DAY * cfg.perMinute
    requires MinutesBeginAllowed(cfg, b) && b.minuteReset < at <= b.dayReset
    ensures b.dayCount < cfg.perDay
    ensures DayIsPaced(cfg.perMinute, b.(minuteCount := 0, minuteReset := at + MINUTE))
  {
    var n, was, now := cfg.perMinute, MinuteBegan(b) - DayBegan(b), at - DayBegan(b);
    Paced(n, b.dayCount - b.minuteCount, b.minuteCount, was, now);
    RoomLeft(n, b.dayCount, now);
  }

  /** One request more in the minute and the day leaves the pace as it is. */
  lemma CountedStaysPaced(n: int, b: Bucket, now: int)
    requires DayIsPaced(n, b)
    ensures DayIsPaced(n, b.(minuteCount := b.minuteCount + 1, dayCount := b.dayCount + 1, lastSeen := now))
    ensures DayIsPaced(n, b.(lastSeen := now))
  {
  }

  lemma NewDayIsPaced(n: nat, b: Bucket)
    requires b.dayCount == 0 && (MinuteBegan(b) < DayBegan(b) ==> b.minuteCount >= 1) && b.minuteCount >= 0
    ensures DayIsPaced(n, b)
  {
    if MinuteBegan(b) >= DayBegan(b) {
      ProductOfNats(n, WindowsIn(MinuteBegan(b) - DayBegan(b)));
    }
  }

  /** The bucket that a request finds, before it is counted. */
  lemma CurrentIsPaced(cfg: Config, m: Buckets, ip: string, at: int)
    requires cfg.perMinute >= 1 && cfg.perDay >= MINUTES_A_DAY * cfg.perMinute
    requires ip in m ==> MinutesBeginAllowed(cfg, m[ip]) && m[ip].lastSeen <= at
    ensures DayIsPaced(cfg.perMinute, Current(m, ip, at))
    ensures ip !in m || at > m[ip].minuteReset ==>
      Current(m, ip, at).minuteCount == 0 && Current(m, ip, at).dayCount < cfg.perDay
  {
    var b := Current(m, ip, at);
    if ip in m && at <= m[ip].dayReset {
      if at > m[ip].minuteReset {
        NewMinuteIsPaced(cfg, m[ip], at);
        assert b == m[ip].(minuteCount := 0, minuteReset := at + MINUTE, lastSeen := at);
      } else {
        CountedStaysPaced(cfg.perMinute, m[ip], at);
        assert b == m[ip].(lastSeen := at);
      }
    } else {
      NewDayIsPaced(cfg.perMinute, b);
      CountsInADay(cfg.perMinute, 0);
    }
  }

  lemma RequestBeginsAllowed(cfg: Config, m: Buckets, ip: string, at: int)
    requires cfg.perMinute >= 1 && cfg.perDay >= MINUTES_A_DAY * cfg.perMinute
    requires ip in m ==> MinutesBeginAllowed(cfg, m[ip]) && m[ip].lastSeen <= at
    ensures MinutesBeginAllowed(cfg, Request(cfg, m, ip, at).0[ip])
    ensures ip !in m || at > m[ip].minuteReset ==> Request(cfg, m, ip, at).1
  {
    CurrentIsPaced(cfg, m, ip, at);
    CountedStaysPaced(cfg.perMinute, Current(m, ip, at), at);
  }

  /** Every day window began with a request that was allowed. */
  predicate DaysBeginAllowed(cfg: Config, b: Bucket) {
    && 0 <= b.minuteCount <= cfg.perMinute
    && 1 <= b.dayCount <= cfg.perDay
    && MinuteBegan(b) <= b.lastSeen && DayBegan(b) <= b.lastSeen
    && DayBegan(b) <= MinuteBegan(b) + MINUTE
    && (MinuteBegan(b) > DayBegan(b) ==> b.minuteCount < b.dayCount)
  }

  lemma RequestBeginsDayAllowed(cfg: Config, m: Buckets, ip: string, at: int)
    requires 1 <= cfg.perDay <= cfg.perMinute
    requires ip in m ==> DaysBeginAllowed(cfg, m[ip]) && m[ip].lastSeen <= at
    ensures DaysBeginAllowed(cfg, Request(cfg, m, ip, at).0[ip])
    ensures ip !in m || at > m[ip].dayReset ==> Request(cfg, m, ip, at).1
  {
  }

  /** The configurations for which no window begins with a refused request. */
  predicate AlwaysBeginsAllowed(cfg: Config, daily: bool) {
    if daily then 1 <= cfg.perDay <= cfg.perMinute
    else cfg.perMinute >= 1 && cfg.perDay >= MINUTES_A_DAY * cfg.perMinute
  }

  predicate BeginsAllowed(cfg: Config, daily: bool, b: Bucket) {
    if daily then DaysBeginAllowed(cfg, b) else MinutesBeginAllowed(cfg, b)
  }

  /** With `c` requests allowed since `a`: the request that a window began with is one that the interval misses, or the first. */
  predicate TightAccounts(cfg: Config, m: Buckets, ip: string, daily: bool, a: int, now: int, c: nat) {
    var n, len := Limit(cfg, daily), Length(daily);
    && c <= 2 * n - 1
    && (now < a ==> c == 0)
    && (ip !in m ==> c == 0)
    && (ip in m ==>
          var b := m[ip];
          var began := Reset(b, daily) - len;
          && began <= now
          && 1 <= Counted(b, daily) <= n
          && (began < a ==> c <= Counted(b, daily) - 1)
          && (a <= began <= a + len ==> c <= n - 1 + Counted(b, daily)))
  }

  lemma RequestTightAccounts(cfg: Config, m: Buckets, ip: string, at: int, daily: bool, a: int, c: nat)
    requires TightAccounts(cfg, m, ip, daily, a, at, c) && Limit(cfg, daily) >= 1
    requires ip !in m || at > Reset(m[ip], daily) ==> Request(cfg, m, ip, at).1
    ensures var (m', ok) := Request(cfg, m, ip, at);
      TightAccounts(cfg, m', ip, daily, a, at, c + if ok && a <= at <= a + Length(daily) then 1 else 0)
  {
  }

  predicate Stands(cfg: Config, m: Buckets, ip: string, daily: bool, a: int, now: int, c: nat) {
    && (ip in m ==> BeginsAllowed(cfg, daily, m[ip]) && m[ip].lastSeen <= now)
    && TightAccounts(cfg, m, ip, daily, a, now, c)
  }

  lemma StandsLater(cfg: Config, m: Buckets, n: Buckets, ip: string, daily: bool, a: int, now: int, later: int, c: nat)
    requires Stands(cfg, m, ip, daily, a, now, c) && Same(m, n, ip) && now <= later
    ensures Stands(cfg, n, ip, daily, a, later, c)
  {
  }

  lemma RequestStands(cfg: Config, m: Buckets, ip: string, at: int, daily: bool, a: int, c: nat)
    requires AlwaysBeginsAllowed(cfg, daily) && Stands(cfg, m, ip, daily, a, at, c)
    ensures var (m', ok) := Request(cfg, m, ip, at);
      Stands(cfg, m', ip, daily, a, at, c + if ok && a <= at <= a + Length(daily) then 1 else 0)
  {
    if daily {
      RequestBeginsDayAllowed(cfg, m, ip, at);
    } else {
      RequestBeginsAllowed(cfg, m, ip, at);
    }
    RequestTightAccounts(cfg, m, ip, at, daily, a, c);
  }

  function StandsFrom(cfg: Config, ip: string, daily: bool, a: int): Standing {
    (m: Buckets, now: int, c: nat) => Stands(cfg, m, ip, daily, a, now, c)
  }

  lemma StandsIsKept(cfg: Config, ip: string, daily: bool, a: int)
    requires AlwaysBeginsAllowed(cfg, daily)
    ensures IsKept(cfg, ip, a, a + Length(daily), StandsFrom(cfg, ip, daily, a))
  {
    var p, z := StandsFrom(cfg, ip, daily, a), a + Length(daily);
    forall m, at, c ensures KeptByRequest(cfg, ip, a, z, p, m, at, c) {
      if p(m, at, c) {
        RequestStands(cfg, m, ip, at, daily, a, c);
      }
    }
    forall m, n, now, later, c ensures KeptByOthers(ip, p, m, n, now, later, c) {
      if p(m, now, c) && Same(m, n, ip) && now <= later {
        StandsLater(cfg, m, n, ip, daily, a, now, later, c);
      }
    }
  }

  /**
   Where no window can begin with a refused request, twice the limit is out of reach: for
   the minute when the day admits as much as 1440 full minutes, for the day when the
   minute admits as much as the day.
   */
  lemma DoubleIsOutOfReach(cfg: Config, es: seq<Event>, ip: string, daily: bool, a: int)
    requires AlwaysBeginsAllowed(cfg, daily) && Ordered(es)
    ensures AllowedIn(cfg, es, ip, a, a + Length(daily)) <= 2 * Limit(cfg, daily) - 1
  {
    StandsIsKept(cfg, ip, daily, a);
    Throughout(cfg, es, ip, a, a + Length(daily), StandsFrom(cfg, ip, daily, a), EndOf(es));
  }
}
