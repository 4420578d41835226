/**
 The most that one address can be allowed within a minute and within a day, for every
 configuration: no trace is allowed more, and some trace is allowed as much.
 */
module RateMaximum {
  import opened RateLimit
  import opened RateBounds
  import opened RatePacing
  import opened RateTraces

  function Most(cfg: Config, daily: bool): int {
    var n, d := cfg.perMinute, cfg.perDay;
    if daily then
      if d <= n then 2 * d - 1
      else if d <= HALF_A_DAY * n then 2 * d
      else Min(2 * d - 1, (MINUTES_A_DAY + 1) * n - 1)
    else
      if d <= n then (if 2 * d - 1 <= n then 2 * d - 1 else 2 * d - 2)
      else if 2 * n <= d < MINUTES_A_DAY * n then 2 * n
      else 2 * n - 1
  }

  // ------------------------------------------------------- a minute with few requests a day

  /** The configurations in which a day's requests fit in a minute, but not a day's and another's. */
  predicate IsSparse(cfg: Config) {
    2 <= cfg.perDay <= cfg.perMinute <= 2 * cfg.perDay - 2
  }

  /** A day with one request so far began no earlier than its minute. */
  predicate SparseBucket(cfg: Config, b: Bucket, now: int) {
    DaysBeginAllowed(cfg, b) && b.lastSeen <= now && (b.dayCount == 1 ==> MinuteBegan(b) <= DayBegan(b))
  }

  /** All was allowed in one minute window, which began since `a`. */
  predicate InOneMinute(b: Bucket, a: int, c: nat) {
    c <= b.minuteCount && a <= MinuteBegan(b)
  }

  /**
   With `c` requests allowed since `a`. While the day is the one before `a`: one request
   of it besides its first was before `a`, or it lasts out the minute, or all is in one
   minute. Once a day has begun: what is not in one minute lacks two of the day before.
   */
  predicate SparseAccounts(cfg: Config, b: Bucket, a: int, c: nat) {
    if DayBegan(b) < a then
      || c == 0
      || c <= b.dayCount - 2
      || (c <= b.dayCount - 1 && (a + MINUTE < b.dayReset || InOneMinute(b, a, c)))
    else c <= cfg.perDay - 2 + b.dayCount || InOneMinute(b, a, c)
  }

  predicate Sparse(cfg: Config, ip: string, a: int, m: Buckets, now: int, c: nat) {
    && (now < a ==> c == 0)
    && c <= 2 * cfg.perDay - 2
    && if ip in m then SparseBucket(cfg, m[ip], now) && (now <= a + MINUTE ==> SparseAccounts(cfg, m[ip], a, c)) else c == 0
  }

  lemma RequestKeepsSparseBucket(cfg: Config, m: Buckets, ip: string, at: int)
    requires IsSparse(cfg) && (ip in m ==> SparseBucket(cfg, m[ip], at))
    ensures SparseBucket(cfg, Request(cfg, m, ip, at).0[ip], at)
    ensures ip !in m || at > m[ip].dayReset ==> Request(cfg, m, ip, at).1
  {
    RequestBeginsDayAllowed(cfg, m, ip, at);
  }

  lemma RequestKeepsSparse(cfg: Config, ip: string, a: int, m: Buckets, at: int, c: nat)
    requires IsSparse(cfg) && Sparse(cfg, ip, a, m, at, c)
    ensures var (m', ok) := Request(cfg, m, ip, at);
      Sparse(cfg, ip, a, m', at, c + if ok && a <= at <= a + MINUTE then 1 else 0)
  {
    RequestKeepsSparseBucket(cfg, m, ip, at);
  }

  function SparseFrom(cfg: Config, ip: string, a: int): Standing {
    (m: Buckets, now: int, c: nat) => Sparse(cfg, ip, a, m, now, c)
  }

  lemma SparseIsKept(cfg: Config, ip: string, a: int)
    requires IsSparse(cfg)
    ensures IsKept(cfg, ip, a, a + MINUTE, SparseFrom(cfg, ip, a))
  {
    var p, z := SparseFrom(cfg, ip, a), a + MINUTE;
    forall m, at, c ensures KeptByRequest(cfg, ip, a, z, p, m, at, c) {
      if p(m, at, c) {
        RequestKeepsSparse(cfg, ip, a, m, at, c);
      }
    }
    forall m, n, now, later, c ensures KeptByOthers(ip, p, m, n, now, later, c) {
      if p(m, now, c) && Same(m, n, ip) && now <= later {
        SparseLater(cfg, ip, a, m, n, now, later, c);
      }
    }
  }

  lemma SparseLater(cfg: Config, ip: string, a: int, m: Buckets, n: Buckets, now: int, later: int, c: nat)
    requires Sparse(cfg, ip, a, m, now, c) && Same(m, n, ip) && now <= later
    ensures Sparse(cfg, ip, a, n, later, c)
  {
  }

  lemma SparseBound(cfg: Config, es: seq<Event>, ip: string, a: int)
    requires IsSparse(cfg) && Ordered(es)
    ensures AllowedIn(cfg, es, ip, a, a + MINUTE) <= 2 * cfg.perDay - 2
  {
    SparseIsKept(cfg, ip, a);
    Throughout(cfg, es, ip, a, a + MINUTE, SparseFrom(cfg, ip, a), EndOf(es));
  }

  // --------------------------------------------------------- a day of 1441 minute windows

  /** The configurations whose day is never used up by 720 minutes. */
  predicate IsAmple(cfg: Config) {
    cfg.perMinute >= 1 && cfg.perDay > HALF_A_DAY * cfg.perMinute
  }

  /**
   With `c` requests allowed since `a`: one less than full minute windows, the first of
   which began before `a`, unless a minute can begin refused and all is in one day.
   */
  predicate AmpleAccounts(cfg: Config, b: Bucket, a: int, c: nat) {
    var n := cfg.perMinute;
    || (cfg.perDay < MINUTES_A_DAY * n && OneDay(cfg, b, a, c))
    || if MinuteBegan(b) < a then c <= b.minuteCount - 1
       else c - b.minuteCount <= n - 1 + n * WindowsIn(MinuteBegan(b) - a)
  }

  predicate AmpleBucket(cfg: Config, b: Bucket, now: int) {
    Sane(cfg, b, now) && (cfg.perDay >= MINUTES_A_DAY * cfg.perMinute ==> MinutesBeginAllowed(cfg, b))
  }

  predicate Ample(cfg: Config, ip: string, a: int, m: Buckets, now: int, c: nat) {
    && (now < a ==> c == 0)
    && c <= (MINUTES_A_DAY + 1) * cfg.perMinute - 1
    && if ip in m then AmpleBucket(cfg, m[ip], now) && (now <= a + DAY ==> AmpleAccounts(cfg, m[ip], a, c)) else c == 0
  }

  lemma RequestKeepsAmpleBucket(cfg: Config, m: Buckets, ip: string, at: int)
    requires IsAmple(cfg) && (ip in m ==> AmpleBucket(cfg, m[ip], at))
    ensures AmpleBucket(cfg, Request(cfg, m, ip, at).0[ip], at)
    ensures ip !in m || (cfg.perDay >= MINUTES_A_DAY * cfg.perMinute && at > m[ip].minuteReset) ==> Request(cfg, m, ip, at).1
  {
    RequestIsSane(cfg, m, ip, at);
    if cfg.perDay >= MINUTES_A_DAY * cfg.perMinute {
      RequestBeginsAllowed(cfg, m, ip, at);
    }
  }

  /** A new minute window, at `now`, after one that began at `was`. */
  lemma OneMinuteMore(n: nat, c: int, current: int, was: int, now: int)
    requires 0 <= was && was + MINUTE + 1 <= now && current <= n && c - current <= n - 1 + n * WindowsIn(was)
    ensures c <= n - 1 + n * WindowsIn(now)
  {
    OneWindowMore(was, now);
    OneCountMore(n, WindowsIn(was), WindowsIn(now));
  }

  lemma RequestAmple(cfg: Config, m: Buckets, ip: string, at: int, a: int, c: nat)
    requires IsAmple(cfg) && at <= a + DAY && (at < a ==> c == 0)
    requires if ip in m then AmpleBucket(cfg, m[ip], at) && AmpleAccounts(cfg, m[ip], a, c) else c == 0
    ensures var (m', ok) := Request(cfg, m, ip, at);
      AmpleAccounts(cfg, m'[ip], a, c + if ok && a <= at then 1 else 0)
  {
    RequestKeepsAmpleBucket(cfg, m, ip, at);
    if at >= a {
      ProductOfNats(cfg.perMinute, WindowsIn(at - a));
      if ip in m && MinuteBegan(m[ip]) >= a && at > m[ip].minuteReset
         && c - m[ip].minuteCount <= cfg.perMinute - 1 + cfg.perMinute * WindowsIn(MinuteBegan(m[ip]) - a) {
        OneMinuteMore(cfg.perMinute, c, m[ip].minuteCount, MinuteBegan(m[ip]) - a, at - a);
      }
    }
  }

  lemma AmpleTotal(cfg: Config, b: Bucket, a: int, c: nat)
    requires IsAmple(cfg) && AmpleBucket(cfg, b, a + DAY) && AmpleAccounts(cfg, b, a, c)
    ensures c <= (MINUTES_A_DAY + 1) * cfg.perMinute - 1
  {
    if MinuteBegan(b) >= a {
      WindowsInADay(MinuteBegan(b) - a);
      CountsInADay(cfg.perMinute, WindowsIn(MinuteBegan(b) - a));
    }
  }

  lemma RequestKeepsAmple(cfg: Config, ip: string, a: int, m: Buckets, at: int, c: nat)
    requires IsAmple(cfg) && Ample(cfg, ip, a, m, at, c)
    ensures var (m', ok) := Request(cfg, m, ip, at);
      Ample(cfg, ip, a, m', at, c + if ok && a <= at <= a + DAY then 1 else 0)
  {
    RequestKeepsAmpleBucket(cfg, m, ip, at);
    if at <= a + DAY {
      var (m', ok) := Request(cfg, m, ip, at);
      RequestAmple(cfg, m, ip, at, a, c);
      AmpleTotal(cfg, m'[ip], a, c + if ok && a <= at then 1 else 0);
    }
  }

  lemma AmpleLater(cfg: Config, ip: string, a: int, m: Buckets, n: Buckets, now: int, later: int, c: nat)
    requires Ample(cfg, ip, a, m, now, c) && Same(m, n, ip) && now <= later
    ensures Ample(cfg, ip, a, n, later, c)
  {
  }

  function AmpleFrom(cfg: Config, ip: string, a: int): Standing {
    (m: Buckets, now: int, c: nat) => Ample(cfg, ip, a, m, now, c)
  }

  lemma AmpleIsKept(cfg: Config, ip: string, a: int)
    requires IsAmple(cfg)
    ensures IsKept(cfg, ip, a, a + DAY, AmpleFrom(cfg, ip, a))
  {
    var p, z := AmpleFrom(cfg, ip, a), a + DAY;
    forall m, at, c ensures KeptByRequest(cfg, ip, a, z, p, m, at, c) {
      if p(m, at, c) {
        RequestKeepsAmple(cfg, ip, a, m, at, c);
      }
    }
    forall m, n, now, later, c ensures KeptByOthers(ip, p, m, n, now, later, c) {
      if p(m, now, c) && Same(m, n, ip) && now <= later {
        AmpleLater(cfg, ip, a, m, n, now, later, c);
      }
    }
  }

  lemma AmpleBound(cfg: Config, es: seq<Event>, ip: string, a: int)
    requires IsAmple(cfg) && Ordered(es)
    ensures AllowedIn(cfg, es, ip, a, a + DAY) <= (MINUTES_A_DAY + 1) * cfg.perMinute - 1
  {
    AmpleIsKept(cfg, ip, a);
    Throughout(cfg, es, ip, a, a + DAY, AmpleFrom(cfg, ip, a), EndOf(es));
  }

  // ---------------------------------------------------------------------- the exact maximum

  lemma {:induction false} LessInAMinute(cfg: Config, es: seq<Event>, ip: string, a: int)
    ensures AllowedIn(cfg, es, ip, a, a + MINUTE) <= AllowedIn(cfg, es, ip, a, a + DAY)
  {
    if es != [] {
      LessInAMinute(cfg, es[..|es| - 1], ip, a);
    }
  }

  lemma MinuteBound(cfg: Config, es: seq<Event>, ip: string, a: int)
    requires cfg.perMinute >= 1 && cfg.perDay >= 1 && Ordered(es)
    ensures AllowedIn(cfg, es, ip, a, a + MINUTE) <= Most(cfg, false)
  {
    if cfg.perDay <= cfg.perMinute {
      if IsSparse(cfg) {
        SparseBound(cfg, es, ip, a);
      } else {
        LessInAMinute(cfg, es, ip, a);
        DoubleIsOutOfReach(cfg, es, ip, true, a);
      }
    } else if cfg.perDay < 2 * cfg.perMinute {
      DoubleIsCrampedOut(cfg, es, ip, false, a);
    } else if cfg.perDay < MINUTES_A_DAY * cfg.perMinute {
      SlidingWindowBound(cfg, es, ip, false, a);
    } else {
      DoubleIsOutOfReach(cfg, es, ip, false, a);
    }
  }

  lemma DayBound(cfg: Config, es: seq<Event>, ip: string, a: int)
    requires cfg.perMinute >= 1 && cfg.perDay >= 1 && Ordered(es)
    ensures AllowedIn(cfg, es, ip, a, a + DAY) <= Most(cfg, true)
  {
    if cfg.perDay <= cfg.perMinute {
      DoubleIsOutOfReach(cfg, es, ip, true, a);
    } else if cfg.perDay <= HALF_A_DAY * cfg.perMinute {
      SlidingWindowBound(cfg, es, ip, true, a);
    } else {
      DoubleIsCrampedOut(cfg, es, ip, true, a);
      AmpleBound(cfg, es, ip, a);
    }
  }

  /** The trace is allowed `k` requests in the interval of a window's length from `a` on. */
  predicate Allows(cfg: Config, es: seq<Event>, ip: string, daily: bool, a: int, k: int) {
    Ordered(es) && AllowedIn(cfg, es, ip, a, a + Length(daily)) == k
  }

  predicate AllowsAtMost(cfg: Config, es: seq<Event>, ip: string, daily: bool, a: int, k: int) {
    Ordered(es) ==> AllowedIn(cfg, es, ip, a, a + Length(daily)) <= k
  }

  lemma MinuteMostIsReached(cfg: Config, ip: string) returns (es: seq<Event>, a: int)
    requires cfg.perMinute >= 1 && cfg.perDay >= 1
    ensures Allows(cfg, es, ip, false, a, Most(cfg, false))
  {
    a := DAY;
    if cfg.perDay <= cfg.perMinute {
      if IsSparse(cfg) {
        es := DaysInTwoMinutesAreReached(cfg, ip);
      } else {
        es := DaysInAMinuteAreReached(cfg, ip);
      }
    } else if 2 * cfg.perMinute <= cfg.perDay < MINUTES_A_DAY * cfg.perMinute {
      a := MINUTE_DOUBLE;
      es := MinuteDoubleIsReached(cfg, ip);
    } else {
      es := MinuteOneLessIsReached(cfg, ip);
    }
  }

  lemma DayMostIsReached(cfg: Config, ip: string) returns (es: seq<Event>, a: int)
    requires cfg.perMinute >= 1 && cfg.perDay >= 1
    ensures Allows(cfg, es, ip, true, a, Most(cfg, true))
  {
    if cfg.perDay <= cfg.perMinute {
      a := 1;
      es := DayOneLessIsReached(cfg, ip);
    } else if cfg.perDay <= HALF_A_DAY * cfg.perMinute {
      a := DAY_FULL_FROM;
      es := DayDoubleIsReached(cfg, ip);
    } else {
      a := AMPLE_FROM;
      es := AmpleDayIsReached(cfg, ip);
    }
  }

  /** `Most` is what its name says: no interval of a window's length is allowed more, and some is allowed as much. */
  lemma MostIsExact(cfg: Config, ip: string, daily: bool)
    requires cfg.perMinute >= 1 && cfg.perDay >= 1
    ensures forall es, a :: AllowsAtMost(cfg, es, ip, daily, a, Most(cfg, daily))
    ensures exists es, a :: Allows(cfg, es, ip, daily, a, Most(cfg, daily))
  {
    forall es, a ensures AllowsAtMost(cfg, es, ip, daily, a, Most(cfg, daily)) {
      if Ordered(es) && daily {
        DayBound(cfg, es, ip, a);
      } else if Ordered(es) {
        MinuteBound(cfg, es, ip, a);
      }
    }
    if daily {
      var es, a := DayMostIsReached(cfg, ip);
      assert Allows(cfg, es, ip, daily, a, Most(cfg, daily));
    } else {
      var es, a := MinuteMostIsReached(cfg, ip);
      assert Allows(cfg, es, ip, daily, a, Most(cfg, daily));
    }
  }

  /** More than the limit is allowed in the interval of a window's length from `a` on. */
  predicate Exceeds(cfg: Config, es: seq<Event>, ip: string, daily: bool, a: int) {
    Ordered(es) && AllowedIn(cfg, es, ip, a, a + Length(daily)) > Limit(cfg, daily)
  }

  /** The configurations under which the plain limit can be exceeded. */
  predicate CanExceed(cfg: Config, daily: bool) {
    var n, d := cfg.perMinute, cfg.perDay;
    if daily then 2 <= d < (MINUTES_A_DAY + 1) * n - 1
    else if d <= n then 2 * d > n + 2
    else n >= 2 || d < MINUTES_A_DAY
  }

  lemma MostExceeds(cfg: Config, daily: bool)
    requires cfg.perMinute >= 1 && cfg.perDay >= 1
    ensures Most(cfg, daily) > Limit(cfg, daily) <==> CanExceed(cfg, daily)
  {
  }

  lemma ExceededIff(cfg: Config, ip: string, daily: bool)
    requires cfg.perMinute >= 1 && cfg.perDay >= 1
    ensures (exists es, a :: Exceeds(cfg, es, ip, daily, a)) <==> CanExceed(cfg, daily)
  {
    MostIsExact(cfg, ip, daily);
    MostExceeds(cfg, daily);
    if CanExceed(cfg, daily) {
      var es, a :| Allows(cfg, es, ip, daily, a, Most(cfg, daily));
      assert Exceeds(cfg, es, ip, daily, a);
    } else if es, a :| Exceeds(cfg, es, ip, daily, a) {
      assert AllowsAtMost(cfg, es, ip, daily, a, Most(cfg, daily));
    }
  }

  /**
   The configurations under which twice a limit can pass. For the minute: the day admits
   two full minutes, and not 1440. For the day: no minute admits it all, and 720 do.
   */
  predicate AdmitsDouble(cfg: Config, daily: bool) {
    if daily then cfg.perMinute < cfg.perDay <= HALF_A_DAY * cfg.perMinute
    else 2 * cfg.perMinute <= cfg.perDay < MINUTES_A_DAY * cfg.perMinute
  }

  lemma MostDoubles(cfg: Config, daily: bool)
    requires cfg.perMinute >= 1 && cfg.perDay >= 1
    ensures Most(cfg, daily) <= 2 * Limit(cfg, daily)
    ensures Most(cfg, daily) == 2 * Limit(cfg, daily) <==> AdmitsDouble(cfg, daily)
  {
  }

  /** Twice a limit can be allowed within its window's length exactly when the other limit has room for it. */
  lemma DoubleIff(cfg: Config, ip: string, daily: bool)
    requires cfg.perMinute >= 1 && cfg.perDay >= 1
    ensures (exists es, a :: Allows(cfg, es, ip, daily, a, 2 * Limit(cfg, daily))) <==> AdmitsDouble(cfg, daily)
  {
    MostIsExact(cfg, ip, daily);
    MostDoubles(cfg, daily);
    if es, a :| Allows(cfg, es, ip, daily, a, 2 * Limit(cfg, daily)) {
      assert AllowsAtMost(cfg, es, ip, daily, a, Most(cfg, daily));
    }
  }
}
