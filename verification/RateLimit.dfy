/** The per-address request limiter: two fixed windows a bucket, and a janitor. */
module RateLimit {

  // Times and durations in nanoseconds.
  const MINUTE: int := 60_000_000_000
  const DAY: int := 24 * 60 * MINUTE

  datatype Config = Config(perMinute: int, perDay: int)

  datatype Bucket = Bucket(minuteCount: int, minuteReset: int, dayCount: int, dayReset: int, lastSeen: int)

  type Buckets = map<string, Bucket>

  /** The bucket that an address gets on its first request. */
  function NewBucket(now: int): Bucket {
    Bucket(0, now + MINUTE, 0, now + DAY, now)
  }

  /** The bucket once the windows that have ended are started afresh. */
  function Rolled(b: Bucket, now: int): Bucket {
    Bucket(if now > b.minuteReset then 0 else b.minuteCount,
           if now > b.minuteReset then now + MINUTE else b.minuteReset,
           if now > b.dayReset then 0 else b.dayCount,
           if now > b.dayReset then now + DAY else b.dayReset,
           now)
  }

  predicate Admits(cfg: Config, b: Bucket) {
    b.minuteCount < cfg.perMinute && b.dayCount < cfg.perDay
  }

  function Current(m: Buckets, ip: string, now: int): Bucket {
    Rolled(if ip in m then m[ip] else NewBucket(now), now)
  }

  /** The buckets after a request, and the answer. */
  function Request(cfg: Config, m: Buckets, ip: string, now: int): (Buckets, bool) {
    var b := Current(m, ip, now);
    if Admits(cfg, b) then
      (m[ip := b.(minuteCount := b.minuteCount + 1, dayCount := b.dayCount + 1)], true)
    else
      (m[ip := b], false)
  }

  predicate Inactive(b: Bucket, now: int) {
    b.lastSeen < now - DAY
  }

  /** The buckets that a pass of the janitor leaves. */
  function Swept(m: Buckets, now: int): Buckets {
    map ip | ip in m && !Inactive(m[ip], now) :: m[ip]
  }

  class IPRateLimiter {
    const cfg: Config
    var buckets: Buckets

    constructor (cfg: Config)
      ensures this.cfg == cfg && buckets == map[]
    {
      this.cfg := cfg;
      buckets := map[];
    }

    method Allow(ip: string, now: int) returns (ok: bool)
      modifies this
      ensures (buckets, ok) == Request(cfg, old(buckets), ip, now)
    {
      if ip !in buckets {
        buckets := buckets[ip := NewBucket(now)];
      }
      var b := buckets[ip].(lastSeen := now);
      if now > b.minuteReset {
        b := b.(minuteCount := 0, minuteReset := now + MINUTE);
      }
      if now > b.dayReset {
        b := b.(dayCount := 0, dayReset := now + DAY);
      }
      if b.minuteCount >= cfg.perMinute || b.dayCount >= cfg.perDay {
        buckets := buckets[ip := b];
        assert buckets == old(buckets)[ip := b];
        return false;
      }
      b := b.(minuteCount := b.minuteCount + 1, dayCount := b.dayCount + 1);
      buckets := buckets[ip := b];
      assert buckets == old(buckets)[ip := b];
      return true;
    }

    method Sweep(now: int)
      modifies this
      ensures buckets == Swept(old(buckets), now)
    {
      var todo := buckets.Keys;
      ghost var was := buckets;
      while todo != {}
        invariant todo <= buckets.Keys <= was.Keys
        invariant forall ip :: ip in buckets ==> buckets[ip] == was[ip]
        invariant forall ip :: ip in was && ip !in todo ==> (ip in buckets <==> !Inactive(was[ip], now))
        decreases todo
      {
        var ip :| ip in todo;
        todo := todo - {ip};
        if Inactive(buckets[ip], now) {
          buckets := buckets - {ip};
        }
      }
    }
  }

  // ---------------------------------------------------------------- traces

  datatype Event = Asked(ip: string, at: int) | Cleaned(at: int)

  /** The clock never runs backwards along the trace. */
  predicate Ordered(es: seq<Event>) {
    forall i, j :: 0 <= i < j < |es| ==> es[i].at <= es[j].at
  }

  function After(cfg: Config, es: seq<Event>): Buckets {
    if es == [] then map[]
    else
      var m := After(cfg, es[..|es| - 1]);
      match es[|es| - 1]
      case Asked(ip, at) => Request(cfg, m, ip, at).0
      case Cleaned(at) => Swept(m, at)
  }

  /** The answer to the request that ends the trace. */
  predicate LastAllowed(cfg: Config, es: seq<Event>)
    requires es != []
  {
    var e := es[|es| - 1];
    e.Asked? && Request(cfg, After(cfg, es[..|es| - 1]), e.ip, e.at).1
  }

  /** The buckets of a limiter that has no janitor. */
  function AfterUnswept(cfg: Config, es: seq<Event>): Buckets {
    if es == [] then map[]
    else
      var m := AfterUnswept(cfg, es[..|es| - 1]);
      match es[|es| - 1]
      case Asked(ip, at) => Request(cfg, m, ip, at).0
      case Cleaned(_) => m
  }

  predicate LastAllowedUnswept(cfg: Config, es: seq<Event>)
    requires es != []
  {
    var e := es[|es| - 1];
    e.Asked? && Request(cfg, AfterUnswept(cfg, es[..|es| - 1]), e.ip, e.at).1
  }

  /** The part of a trace that concerns one address: its requests and the sweeps. */
  function Own(es: seq<Event>, ip: string): seq<Event> {
    if es == [] then []
    else
      var e := es[|es| - 1];
      Own(es[..|es| - 1], ip) + if e.Asked? && e.ip != ip then [] else [e]
  }

  predicate Same(m: Buckets, n: Buckets, ip: string) {
    && (ip in m <==> ip in n)
    && (ip in m ==> m[ip] == n[ip])
  }

  lemma OwnEventKeepsSame(cfg: Config, m: Buckets, n: Buckets, ip: string, at: int)
    requires Same(m, n, ip)
    ensures Same(Request(cfg, m, ip, at).0, Request(cfg, n, ip, at).0, ip)
    ensures Same(Swept(m, at), Swept(n, at), ip)
  {
  }

  /** What other addresses do has no effect on an address. */
  lemma {:induction false} AddressesAreIndependent(cfg: Config, es: seq<Event>, ip: string)
    ensures Same(After(cfg, es), After(cfg, Own(es, ip)), ip)
  {
    if es != [] {
      var e := es[|es| - 1];
      var before, own := es[..|es| - 1], Own(es[..|es| - 1], ip);
      AddressesAreIndependent(cfg, before, ip);
      if e.Asked? && e.ip != ip {
        assert Own(es, ip) == own;
        assert Same(Request(cfg, After(cfg, before), e.ip, e.at).0, After(cfg, before), ip);
      } else {
        assert (own + [e])[..|own|] == own;
        OwnEventKeepsSame(cfg, After(cfg, before), After(cfg, own), ip, e.at);
      }
    }
  }

  // ---------------------------------------------------- the janitor is invisible

  /** The swept buckets are some of the others, and what is missing has run out. */
  ghost predicate Simulates(swept: Buckets, full: Buckets, now: int) {
    && (forall ip :: ip in swept ==> ip in full && full[ip] == swept[ip])
    && (forall ip :: ip in full && ip !in swept ==> full[ip].minuteReset < now && full[ip].dayReset < now)
    && (forall ip :: ip in full ==>
          full[ip].lastSeen <= now &&
          full[ip].minuteReset <= full[ip].lastSeen + MINUTE &&
          full[ip].dayReset <= full[ip].lastSeen + DAY)
  }

  lemma {:induction false} SweptSimulatesUnswept(cfg: Config, es: seq<Event>, now: int)
    requires Ordered(es) && (es != [] ==> es[|es| - 1].at <= now)
    ensures Simulates(After(cfg, es), AfterUnswept(cfg, es), now)
  {
    if es != [] {
      var e := es[|es| - 1];
      SweptSimulatesUnswept(cfg, es[..|es| - 1], e.at);
    }
  }

  /** With or without sweeps, every request of every trace gets the same answer. */
  lemma JanitorIsInvisible(cfg: Config, es: seq<Event>)
    requires Ordered(es) && es != []
    ensures LastAllowed(cfg, es) == LastAllowedUnswept(cfg, es)
  {
    SweptSimulatesUnswept(cfg, es[..|es| - 1], es[|es| - 1].at);
  }

  // ------------------------------------------------------------- what the janitor keeps

  /** The address asked at `t` or later. */
  predicate AskedSince(es: seq<Event>, ip: string, t: int) {
    exists i :: 0 <= i < |es| && es[i].Asked? && es[i].ip == ip && es[i].at >= t
  }

  lemma AskedOneMore(es: seq<Event>, ip: string, t: int)
    requires es != []
    ensures var e := es[|es| - 1];
      AskedSince(es, ip, t) <==> AskedSince(es[..|es| - 1], ip, t) || (e.Asked? && e.ip == ip && e.at >= t)
  {
    var front := es[..|es| - 1];
    if i :| 0 <= i < |front| && front[i].Asked? && front[i].ip == ip && front[i].at >= t {
      assert es[i] == front[i];
    }
    if i :| 0 <= i < |es| && es[i].Asked? && es[i].ip == ip && es[i].at >= t && i < |es| - 1 {
      assert front[i] == es[i];
    }
  }

  lemma AskedEarlier(es: seq<Event>, ip: string, t: int, u: int)
    requires AskedSince(es, ip, t) && u <= t
    ensures AskedSince(es, ip, u)
  {
  }

  /** A bucket was last seen at the address's last request; an address without one has not asked for a day. */
  ghost predicate SeenRightly(m: Buckets, es: seq<Event>, ip: string, now: int) {
    if ip in m then forall t :: AskedSince(es, ip, t) <==> t <= m[ip].lastSeen
    else !AskedSince(es, ip, now - DAY)
  }

  lemma {:induction false} BucketsAreSeenRightly(cfg: Config, es: seq<Event>, ip: string, now: int)
    requires Ordered(es) && (es != [] ==> es[|es| - 1].at <= now)
    ensures SeenRightly(After(cfg, es), es, ip, now)
  {
    if es != [] {
      var before, e := es[..|es| - 1], es[|es| - 1];
      BucketsAreSeenRightly(cfg, before, ip, e.at);
      forall t ensures AskedSince(es, ip, t) <==> AskedSince(before, ip, t) || (e.Asked? && e.ip == ip && e.at >= t) {
        AskedOneMore(es, ip, t);
      }
      AskedNoLater(before, ip, e.at);
      if AskedSince(before, ip, now - DAY) {
        AskedEarlier(before, ip, now - DAY, e.at - DAY);
      }
    }
  }

  lemma AskedNoLater(es: seq<Event>, ip: string, now: int)
    requires forall i :: 0 <= i < |es| ==> es[i].at <= now
    ensures forall t :: AskedSince(es, ip, t) ==> t <= now
  {
  }

  /** After a sweep at `at` an address has a bucket if and only if it asked within the day before. */
  lemma KeptIffAskedLately(cfg: Config, es: seq<Event>, ip: string)
    requires Ordered(es) && es != [] && es[|es| - 1].Cleaned?
    ensures ip in After(cfg, es) <==> AskedSince(es, ip, es[|es| - 1].at - DAY)
  {
    var before, at := es[..|es| - 1], es[|es| - 1].at;
    BucketsAreSeenRightly(cfg, before, ip, at);
    AskedOneMore(es, ip, at - DAY);
  }

  // ---------------------------------------------------------- sliding windows

  /** How many requests of `ip` the limiter allowed at times from `a` to `z`. */
  function AllowedIn(cfg: Config, es: seq<Event>, ip: string, a: int, z: int): nat {
    if es == [] then 0
    else
      var e := es[|es| - 1];
      AllowedIn(cfg, es[..|es| - 1], ip, a, z) +
      if e.Asked? && e.ip == ip && a <= e.at <= z && LastAllowed(cfg, es) then 1 else 0
  }

  /** One of a bucket's two windows. */
  function Length(daily: bool): int { if daily then DAY else MINUTE }

  function Limit(cfg: Config, daily: bool): int {
    var n := if daily then cfg.perDay else cfg.perMinute;
    if n < 0 then 0 else n
  }

  function Counted(b: Bucket, daily: bool): int { if daily then b.dayCount else b.minuteCount }

  function Reset(b: Bucket, daily: bool): int { if daily then b.dayReset else b.minuteReset }

  /**
   With `c` requests allowed since `a`: no more than the window's own count when
   it began before `a`, and no more than one window besides it otherwise.
   */
  predicate Accounts(cfg: Config, m: Buckets, ip: string, daily: bool, a: int, now: int, c: nat) {
    var n, len := Limit(cfg, daily), Length(daily);
    && c <= 2 * n
    && (now < a ==> c == 0)
    && (ip !in m ==> c == 0)
    && (ip in m ==>
          var b := m[ip];
          var began := Reset(b, daily) - len;
          && began <= now
          && 0 <= Counted(b, daily) <= n
          && (began < a ==> c <= Counted(b, daily))
          && (a <= began <= a + len ==> c <= n + Counted(b, daily)))
  }

  lemma RequestAccounts(cfg: Config, m: Buckets, asked: string, at: int, ip: string, daily: bool, a: int, c: nat)
    requires Accounts(cfg, m, ip, daily, a, at, c)
    ensures var (m', ok) := Request(cfg, m, asked, at);
      var hit := ok && asked == ip && a <= at <= a + Length(daily);
      Accounts(cfg, m', ip, daily, a, at, c + if hit then 1 else 0)
  {
  }

  lemma {:induction false} WindowAccounts(cfg: Config, es: seq<Event>, ip: string, daily: bool, a: int, now: int)
    requires Ordered(es) && (es != [] ==> es[|es| - 1].at <= now)
    ensures Accounts(cfg, AfterUnswept(cfg, es), ip, daily, a, now, AllowedIn(cfg, es, ip, a, a + Length(daily)))
  {
    if es != [] {
      var e := es[|es| - 1];
      var before := es[..|es| - 1];
      WindowAccounts(cfg, before, ip, daily, a, e.at);
      if e.Asked? {
        JanitorIsInvisible(cfg, es);
        RequestAccounts(cfg, AfterUnswept(cfg, before), e.ip, e.at, ip, daily, a,
                        AllowedIn(cfg, before, ip, a, a + Length(daily)));
      }
    }
  }

  /** In any minute, at most twice the minute limit; in any 24 hours, at most twice the day limit. */
  lemma SlidingWindowBound(cfg: Config, es: seq<Event>, ip: string, daily: bool, a: int)
    requires Ordered(es)
    ensures AllowedIn(cfg, es, ip, a, a + Length(daily)) <= 2 * Limit(cfg, daily)
  {
    WindowAccounts(cfg, es, ip, daily, a, if es == [] then 0 else es[|es| - 1].at);
  }

  /** A bucket's count is made of requests it really allowed since the window began. */
  lemma {:induction false} CountIsEarned(cfg: Config, es: seq<Event>, ip: string, daily: bool, a: int, now: int)
    requires Ordered(es) && (es != [] ==> es[|es| - 1].at <= now)
    ensures var m := AfterUnswept(cfg, es);
      ip in m ==>
        var began := Reset(m[ip], daily) - Length(daily);
        && began <= now
        && (a <= began ==> Counted(m[ip], daily) <= AllowedIn(cfg, es, ip, a, now))
  {
    if es != [] {
      var e := es[|es| - 1];
      var before := es[..|es| - 1];
      CountIsEarned(cfg, before, ip, daily, a, now);
      CountIsEarned(cfg, before, ip, daily, a, e.at);
      if e.Asked? {
        JanitorIsInvisible(cfg, es);
      }
    }
  }

  /** An address is refused only when one of its limits was used up within the window's length. */
  lemma RefusedOnlyAtLimit(cfg: Config, es: seq<Event>)
    requires Ordered(es) && es != [] && es[|es| - 1].Asked? && !LastAllowed(cfg, es)
    ensures var e := es[|es| - 1];
      || AllowedIn(cfg, es, e.ip, e.at - MINUTE, e.at) >= cfg.perMinute
      || AllowedIn(cfg, es, e.ip, e.at - DAY, e.at) >= cfg.perDay
  {
    var e := es[|es| - 1];
    var before := es[..|es| - 1];
    JanitorIsInvisible(cfg, es);
    CountIsEarned(cfg, before, e.ip, false, e.at - MINUTE, e.at);
    CountIsEarned(cfg, before, e.ip, true, e.at - DAY, e.at);
  }
}
