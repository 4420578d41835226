/**
 Where the other window leaves no room for it, twice a limit is out of reach: twice the
 minute's limit when a day admits less, twice the day's when 1440 full minutes do.
 */
module RatePacing {
  import opened RateLimit
  import opened RateBounds

  /** The configurations for which the other window is in the way. */
  predicate IsCramped(cfg: Config, daily: bool) {
    && cfg.perMinute >= 1 && cfg.perDay >= 1
    && if daily then cfg.perDay > MINUTES_A_DAY / 2 * cfg.perMinute else cfg.perDay < 2 * cfg.perMinute
  }

  /** An opener is refused only when the other window is full. */
  predicate Sane(cfg: Config, b: Bucket, now: int) {
    && 0 <= b.minuteCount <= cfg.perMinute && 0 <= b.dayCount <= cfg.perDay
    && (b.minuteCount == 0 ==> b.dayCount == cfg.perDay)
    && (b.dayCount == 0 ==> b.minuteCount == cfg.perMinute)
    && MinuteBegan(b) <= b.lastSeen <= now && DayBegan(b) <= b.lastSeen
  }

  lemma RequestIsSane(cfg: Config, m: Buckets, ip: string, at: int)
    requires cfg.perMinute >= 1 && cfg.perDay >= 1 && (ip in m ==> Sane(cfg, m[ip], at))
    ensures Sane(cfg, Request(cfg, m, ip, at).0[ip], at)
  {
  }

  // ----------------------------------------------------------------------- the minute

  /** All that was allowed since `a` is in the current day, which began since `a` or is full. */
  predicate OneDay(cfg: Config, b: Bucket, a: int, c: nat) {
    if c == 0 then b.minuteCount == 0 && b.dayCount == cfg.perDay else c <= b.dayCount && a <= DayBegan(b)
  }

  /** With `c` requests allowed from `a` on, at `now` within a minute of it. */
  predicate MinuteAccounts(cfg: Config, b: Bucket, a: int, c: nat) {
    if MinuteBegan(b) < a then c <= b.minuteCount - 1 || (c == b.minuteCount && OneDay(cfg, b, a, c))
    else c <= cfg.perMinute - 1 + b.minuteCount || OneDay(cfg, b, a, c)
  }

  lemma RequestMinute(cfg: Config, m: Buckets, ip: string, at: int, a: int, c: nat)
    requires IsCramped(cfg, false) && at <= a + MINUTE
    requires if ip in m then Sane(cfg, m[ip], at) && MinuteAccounts(cfg, m[ip], a, c) else c == 0
    requires at < a ==> c == 0
    ensures var (m', ok) := Request(cfg, m, ip, at);
      MinuteAccounts(cfg, m'[ip], a, c + if ok && a <= at then 1 else 0)
  {
  }

  // -------------------------------------------------------------------------- the day

  /** What was allowed since `a`, in full minutes that began since. */
  predicate InMinutes(cfg: Config, b: Bucket, a: int, c: nat) {
    if MinuteBegan(b) < a then c == 0 else c - b.minuteCount <= cfg.perMinute * WindowsIn(MinuteBegan(b) - a)
  }

  predicate DayAccounts(cfg: Config, b: Bucket, a: int, c: nat) {
    if DayBegan(b) < a then c <= b.dayCount - 1 || (c == b.dayCount && InMinutes(cfg, b, a, c))
    else c <= cfg.perDay - 1 + b.dayCount || InMinutes(cfg, b, a, c)
  }

  /** A request at `at`, counted or not, leaves what was allowed in full minutes. */
  lemma MinutesGoOn(cfg: Config, b: Bucket, a: int, c: nat, at: int, hit: nat)
    requires cfg.perMinute >= 1 && b.minuteCount <= cfg.perMinute && MinuteBegan(b) <= at && a <= at
    requires InMinutes(cfg, b, a, c) && (MinuteBegan(b) < a && at <= b.minuteReset ==> hit == 0)
    ensures var r := Rolled(b, at); InMinutes(cfg, r.(minuteCount := r.minuteCount + hit), a, c + hit)
  {
    if at > b.minuteReset {
      if MinuteBegan(b) < a {
        ProductOfNats(cfg.perMinute, WindowsIn(at - a));
      } else {
        OneWindowMore(MinuteBegan(b) - a, at - a);
        OneCountMore(cfg.perMinute, WindowsIn(MinuteBegan(b) - a), WindowsIn(at - a));
      }
    }
  }

  lemma RequestDay(cfg: Config, m: Buckets, ip: string, at: int, a: int, c: nat)
    requires IsCramped(cfg, true) && at <= a + DAY
    requires if ip in m then Sane(cfg, m[ip], at) && DayAccounts(cfg, m[ip], a, c) else c == 0
    requires at < a ==> c == 0
    ensures var (m', ok) := Request(cfg, m, ip, at);
      DayAccounts(cfg, m'[ip], a, c + if ok && a <= at then 1 else 0)
  {
    if ip in m && a <= at && InMinutes(cfg, m[ip], a, c) {
      if MinuteBegan(m[ip]) >= a || at > m[ip].minuteReset {
        MinutesGoOn(cfg, m[ip], a, c, at, 1);
      }
      MinutesGoOn(cfg, m[ip], a, c, at, 0);
    }
  }

  /** The minutes that begin within a day are 1440 at most. */
  lemma DayIsTooShort(cfg: Config, b: Bucket, a: int, c: nat)
    requires IsCramped(cfg, true) && Sane(cfg, b, a + DAY) && DayAccounts(cfg, b, a, c)
    ensures c <= 2 * cfg.perDay - 1
  {
    if InMinutes(cfg, b, a, c) && MinuteBegan(b) >= a {
      var k := WindowsIn(MinuteBegan(b) - a);
      WindowsInADay(MinuteBegan(b) - a);
      CountsInADay(cfg.perMinute, k);
      TooFew(cfg.perMinute, cfg.perMinute * k, c, b.minuteCount, cfg.perDay);
    }
  }

  lemma TooFew(n: int, full: int, c: int, current: int, d: int)
    requires c - current <= full && current <= n && full + n <= MINUTES_A_DAY * n && d > MINUTES_A_DAY / 2 * n
    ensures c <= 2 * d - 1
  {
  }

  // --------------------------------------------------------------------------- traces

  predicate Accounted(cfg: Config, daily: bool, b: Bucket, a: int, c: nat) {
    if daily then DayAccounts(cfg, b, a, c) else MinuteAccounts(cfg, b, a, c)
  }

  predicate Holds(cfg: Config, m: Buckets, ip: string, daily: bool, a: int, now: int, c: nat) {
    && c <= 2 * Limit(cfg, daily) - 1
    && (now < a ==> c == 0)
    && (if ip in m then Sane(cfg, m[ip], now) && (now <= a + Length(daily) ==> Accounted(cfg, daily, m[ip], a, c)) else c == 0)
  }

  lemma RequestHolds(cfg: Config, m: Buckets, ip: string, at: int, daily: bool, a: int, c: nat)
    requires IsCramped(cfg, daily) && Holds(cfg, m, ip, daily, a, at, c)
    ensures var (m', ok) := Request(cfg, m, ip, at);
      Holds(cfg, m', ip, daily, a, at, c + if ok && a <= at <= a + Length(daily) then 1 else 0)
  {
    RequestIsSane(cfg, m, ip, at);
    if at <= a + Length(daily) {
      var (m', ok) := Request(cfg, m, ip, at);
      if daily {
        RequestDay(cfg, m, ip, at, a, c);
        DayIsTooShort(cfg, m'[ip], a, c + if ok && a <= at then 1 else 0);
      } else {
        RequestMinute(cfg, m, ip, at, a, c);
      }
    }
  }

  lemma StillHolds(cfg: Config, m: Buckets, n: Buckets, ip: string, daily: bool, a: int, now: int, later: int, c: nat)
    requires Holds(cfg, m, ip, daily, a, now, c) && Same(m, n, ip) && now <= later
    ensures Holds(cfg, n, ip, daily, a, later, c)
  {
  }

  function HoldsFrom(cfg: Config, ip: string, daily: bool, a: int): Standing {
    (m: Buckets, now: int, c: nat) => Holds(cfg, m, ip, daily, a, now, c)
  }

  lemma HoldsIsKept(cfg: Config, ip: string, daily: bool, a: int)
    requires IsCramped(cfg, daily)
    ensures IsKept(cfg, ip, a, a + Length(daily), HoldsFrom(cfg, ip, daily, a))
  {
    var p, z := HoldsFrom(cfg, ip, daily, a), a + Length(daily);
    forall m, at, c ensures KeptByRequest(cfg, ip, a, z, p, m, at, c) {
      if p(m, at, c) {
        RequestHolds(cfg, m, ip, at, daily, a, c);
      }
    }
    forall m, n, now, later, c ensures KeptByOthers(ip, p, m, n, now, later, c) {
      if p(m, now, c) && Same(m, n, ip) && now <= later {
        StillHolds(cfg, m, n, ip, daily, a, now, later, c);
      }
    }
  }

  /** Where the other window is in the way, twice the limit is out of reach. */
  lemma DoubleIsCrampedOut(cfg: Config, es: seq<Event>, ip: string, daily: bool, a: int)
    requires IsCramped(cfg, daily) && Ordered(es)
    ensures AllowedIn(cfg, es, ip, a, a + Length(daily)) <= 2 * Limit(cfg, daily) - 1
  {
    HoldsIsKept(cfg, ip, daily, a);
    Throughout(cfg, es, ip, a, a + Length(daily), HoldsFrom(cfg, ip, daily, a), EndOf(es));
  }
}
