/**
 What the steps of the delivery machine keep about the past: which requests were sent
 and acknowledged, who redispatched them, and what the balancer counts.
 */
module DeliveryHistory {
  import opened Delivery
  import opened Ids
  import opened Options
  import opened Runs

  // --------------------------------------------------------------------- sent and acked

  /** A call past the write of its request, or made by a redispatch loop. */
  predicate HasSent(x: Exec) {
    || x.from.Some? || x.phase.Awaiting? || x.phase.Tracking? || x.phase.Storing?
    || (x.phase.Reporting? && !x.phase.verdict.Unwritten?)
  }

  predicate HasExpired(x: Exec) {
    x.phase.Reporting? && x.phase.verdict.Expired?
  }

  predicate SentCall(x: Exec, sent: set<Id>, expired: set<Id>) {
    && (Active(x) ==> (x.req in sent <==> HasSent(x)))
    && (Active(x) ==> (x.req in expired <==> HasExpired(x)))
    && (HasExpired(x) ==> x.sync)
  }

  predicate SentPlace(p: Place, r: Id, sync: bool, sent: set<Id>, expired: set<Id>, acked: set<Id>) {
    match p
    case With(_) => true
    case InTable(_) => r in sent && r !in expired
    case Queued(_) => r in sent && r !in expired
    case Ended(Rejected) => (r in sent <==> r in expired) && (r in expired ==> sync)
    case Ended(Answered) => r in sent && r !in expired && sync
    case Ended(Confirmed) => r in sent && r !in expired && r in acked && !sync
    case Ended(Dropped) => r in sent && r !in expired && !sync
  }

  predicate SentCalls(execs: seq<Exec>, sent: set<Id>, expired: set<Id>) {
    forall e :: 0 <= e < |execs| ==> SentCall(execs[e], sent, expired)
  }

  predicate SentPlaces(place: PlaceMap, asked: map<Id, bool>, sent: set<Id>, expired: set<Id>, acked: set<Id>) {
    && (forall r :: r in place ==> r in asked && SentPlace(place[r], r, asked[r], sent, expired, acked))
    && sent <= asked.Keys
    && expired <= asked.Keys
  }

  predicate Sentness(s: State) {
    SentCalls(s.execs, s.sent, s.expired) && SentPlaces(s.place, s.asked, s.sent, s.expired, s.acked)
  }

  lemma NowSentness(s: State, e: nat, ph: Phase)
    requires Sentness(s) && IsCall(s, e) && Active(s.execs[e])
    requires HasSent(s.execs[e]) == HasSent(s.execs[e].(phase := ph))
    requires HasExpired(s.execs[e]) == HasExpired(s.execs[e].(phase := ph))
    ensures Sentness(Now(s, e, ph))
  {
    assert SentCall(s.execs[e], s.sent, s.expired);
  }

  lemma ReturnSentness(s: State, e: nat, p: Place)
    requires Inv(s) && Sentness(s) && IsCall(s, e)
    requires SentPlace(p, s.execs[e].req, s.execs[e].sync, s.sent, s.expired, s.acked)
    ensures Sentness(Return(s, e, p))
  {
    assert Fits(s.execs[e], s.asked);
  }

  lemma FailSentness(s: State, e: nat)
    requires Inv(s) && Sentness(s) && IsCall(s, e) && Active(s.execs[e])
    requires s.execs[e].phase.Picking? || (s.execs[e].phase.Reporting? && !s.execs[e].phase.verdict.Done?)
    ensures Sentness(Fail(s, e))
  {
    assert SentCall(s.execs[e], s.sent, s.expired) && Fits(s.execs[e], s.asked);
    ReturnSentness(s, e, Ended(if s.execs[e].from.None? then Rejected else Dropped));
  }

  lemma PickSentness(s: State, e: nat, c: Id)
    requires Inv(s) && Sentness(s) && Enabled(s, Pick(e, c))
    ensures Sentness(Step(s, Pick(e, c)))
  {
    EvictKeeps(s, c);
    FailSentness(Evict(s, c), e);
    NowSentness(s, e, Picking(s.execs[e].phase.tries + 1));
    NowSentness(s, e, Sending(c));
  }

  /** What a call puts in the history of its own request is no other call's business. */
  lemma NewlySentness(s: State, e: nat, ph: Phase, sent: set<Id>, expired: set<Id>)
    requires Inv(s) && Sentness(s) && IsCall(s, e) && Active(s.execs[e]) && !ph.Finished?
    requires s.sent <= sent <= s.sent + {s.execs[e].req} && s.expired <= expired <= s.expired + {s.execs[e].req}
    requires SentCall(s.execs[e].(phase := ph), sent, expired)
    ensures Sentness(Now(s, e, ph).(sent := sent, expired := expired))
  {
    var r, after := s.execs[e].req, Now(s, e, ph).execs;
    assert At(s.place, r, With(e)) && Fits(s.execs[e], s.asked);
    forall f | 0 <= f < |s.execs| ensures SentCall(after[f], sent, expired) {
      assert SentCall(s.execs[f], s.sent, s.expired);
      assert Active(s.execs[f]) ==> At(s.place, s.execs[f].req, With(f));
    }
    forall q | q in s.place ensures SentPlace(s.place[q], q, s.asked[q], sent, expired, s.acked) {
      assert SentPlace(s.place[q], q, s.asked[q], s.sent, s.expired, s.acked);
    }
  }

  lemma SendSentness(s: State, e: nat, ok: bool)
    requires Inv(s) && Sentness(s) && Enabled(s, Send(e, ok))
    ensures Sentness(Step(s, Send(e, ok)))
  {
    var t := Step(s, Send(e, ok));
    assert SentCall(s.execs[e], s.sent, s.expired) && Fits(s.execs[e], s.asked);
    NewlySentness(s, e, t.execs[e].phase, t.sent, s.expired);
  }

  lemma AwaitSentness(s: State, e: nat, answered: bool)
    requires Inv(s) && Sentness(s) && Enabled(s, Await(e, answered))
    ensures Sentness(Step(s, Await(e, answered)))
  {
    var t := Step(s, Await(e, answered));
    assert SentCall(s.execs[e], s.sent, s.expired) && Fits(s.execs[e], s.asked);
    NewlySentness(s, e, t.execs[e].phase, s.sent, t.expired);
  }

  lemma ReportSentness(s: State, e: nat)
    requires Inv(s) && Sentness(s) && Enabled(s, Report(e))
    ensures Sentness(Step(s, Report(e)))
  {
    var Reporting(c, verdict) := s.execs[e].phase;
    var t := if c in s.inflight then s.(inflight := s.inflight[c := s.inflight[c] - 1]) else s;
    assert Inv(t) && Sentness(t);
    assert SentCall(s.execs[e], s.sent, s.expired) && Fits(s.execs[e], s.asked);
    if !verdict.Done? {
      FailSentness(t, e);
    } else if s.execs[e].sync {
      ReturnSentness(t, e, Ended(Answered));
    } else {
      NowSentness(t, e, Tracking(c));
    }
  }

  lemma TrackLoadSentness(s: State, e: nat)
    requires Inv(s) && Sentness(s) && Enabled(s, TrackLoad(e))
    ensures Sentness(Step(s, TrackLoad(e)))
  {
    assert SentCall(s.execs[e], s.sent, s.expired) && Fits(s.execs[e], s.asked);
    NowSentness(s, e, Storing(s.execs[e].phase.to));
    ReturnSentness(s, e, Ended(Dropped));
  }

  lemma TrackStoreSentness(s: State, e: nat)
    requires Inv(s) && Sentness(s) && Enabled(s, TrackStore(e))
    ensures Sentness(Step(s, TrackStore(e)))
  {
    assert SentCall(s.execs[e], s.sent, s.expired) && Fits(s.execs[e], s.asked);
    ReturnSentness(s, e, Ended(Dropped));
    ReturnSentness(s, e, InTable(s.execs[e].phase.to));
  }

  lemma AckSentness(s: State, c: Id, r: Id)
    requires Inv(s) && Sentness(s) && Enabled(s, Ack(c, r))
    ensures Sentness(Step(s, Ack(c, r)))
  {
    assert r in TableOf(s.tables, c) ==> At(s.place, r, InTable(c));
    forall q | q in s.place ensures SentPlace(s.place[q], q, s.asked[q], s.sent, s.expired, s.acked + {r}) {
      assert SentPlace(s.place[q], q, s.asked[q], s.sent, s.expired, s.acked);
    }
  }

  lemma BeginSentness(s: State, r: Id, sync: bool)
    requires Inv(s) && Sentness(s) && Enabled(s, Begin(r, sync))
    ensures Sentness(Step(s, Begin(r, sync)))
  {
  }

  lemma CollectSentness(s: State, c: Id, order: seq<Id>)
    requires Inv(s) && Sentness(s) && Enabled(s, Collect(c, order))
    ensures Sentness(Step(s, Collect(c, order)))
  {
    var moved := Step(s, Collect(c, order)).place;
    forall r | r in moved ensures SentPlace(moved[r], r, s.asked[r], s.sent, s.expired, s.acked) {
      assert SentPlace(s.place[r], r, s.asked[r], s.sent, s.expired, s.acked);
      assert r in TableOf(s.tables, c) ==> At(s.place, r, InTable(c));
    }
  }

  lemma RedispatchSentness(s: State, c: Id)
    requires Inv(s) && Sentness(s) && Enabled(s, Redispatch(c))
    ensures Sentness(Step(s, Redispatch(c)))
  {
    var r := QueueOf(s.loops, c)[0];
    assert r in QueueOf(s.loops, c) && At(s.place, r, Queued(c));
  }

  lemma StepKeepsSentness(s: State, a: Action)
    requires Inv(s) && Sentness(s) && Enabled(s, a)
    ensures Sentness(Step(s, a))
  {
    match a {
      case Begin(r, sync) => BeginSentness(s, r, sync);
      case Pick(e, c) => PickSentness(s, e, c);
      case NoClient(e) => FailSentness(s, e);
      case Send(e, ok) => SendSentness(s, e, ok);
      case Await(e, answered) => AwaitSentness(s, e, answered);
      case Report(e) => ReportSentness(s, e);
      case TrackLoad(e) => TrackLoadSentness(s, e);
      case TrackStore(e) => TrackStoreSentness(s, e);
      case Ack(c, r) => AckSentness(s, c, r);
      case Collect(c, order) => CollectSentness(s, c, order);
      case Redispatch(c) => RedispatchSentness(s, c);
      case AddClient(_) | MarkClosed(_) | ReadFails(_) | Leave(_, _) =>
    }
  }

  // ------------------------------------------------------------------- redispatch, once

  /** Who redispatched `r`, in order. */
  function Froms(execs: seq<Exec>, r: Id): (q: seq<Id>) {
    if execs == [] then []
    else
      var x := execs[|execs| - 1];
      Froms(execs[..|execs| - 1], r) + (if x.req == r && x.from.Some? then [x.from.value] else [])
  }

  lemma {:induction false} FromsAfterNow(execs: seq<Exec>, e: nat, ph: Phase, r: Id)
    requires e < |execs|
    ensures Froms(execs[e := execs[e].(phase := ph)], r) == Froms(execs, r)
    decreases |execs|
  {
    var n := |execs| - 1;
    var after := execs[e := execs[e].(phase := ph)];
    if e < n {
      FromsAfterNow(execs[..n], e, ph, r);
      assert after[..n] == execs[..n][e := execs[e].(phase := ph)];
    } else {
      assert after[..n] == execs[..n];
    }
  }

  lemma FromsAfterCall(execs: seq<Exec>, x: Exec, r: Id)
    ensures Froms(execs + [x], r) == Froms(execs, r) + (if x.req == r && x.from.Some? then [x.from.value] else [])
  {
    assert (execs + [x])[..|execs|] == execs;
  }

  predicate IsCallAction(a: Action) {
    a.Pick? || a.NoClient? || a.Send? || a.Await? || a.Report? || a.TrackLoad? || a.TrackStore?
  }

  /** `t` differs from `s` in no other call than `e`, and in no loop but that of the client it redispatches for. */
  predicate Touched(s: State, e: nat, t: State) {
    && e < |s.execs| == |t.execs|
    && t.execs == s.execs[e := s.execs[e].(phase := t.execs[e].phase)]
    && (t.loops == s.loops || t.loops == Idle(s.loops, s.execs[e].from))
    && s.execs[e].req in t.place
    && (t.place == s.place || t.place == s.place[s.execs[e].req := t.place[s.execs[e].req]])
  }

  lemma NowTouches(s: State, e: nat, ph: Phase)
    requires IsCall(s, e) && s.execs[e].req in s.place
    ensures Touched(s, e, Now(s, e, ph))
  {
  }

  lemma ReturnTouches(s: State, e: nat, p: Place)
    requires IsCall(s, e)
    ensures Touched(s, e, Return(s, e, p))
  {
  }

  lemma PickTouches(s: State, e: nat, c: Id)
    requires Enabled(s, Pick(e, c)) && s.execs[e].req in s.place
    ensures Touched(s, e, Step(s, Pick(e, c)))
  {
    ReturnTouches(Evict(s, c), e, Ended(if s.execs[e].from.None? then Rejected else Dropped));
    NowTouches(Evict(s, c), e, Picking(s.execs[e].phase.tries + 1));
    NowTouches(s, e, Sending(c));
  }

  lemma ConcludeTouches(s: State, e: nat, c: Id, verdict: Verdict)
    requires IsCall(s, e) && s.execs[e].req in s.place
    ensures Touched(s, e, Conclude(s, e, c, verdict))
  {
    ReturnTouches(s, e, Ended(if s.execs[e].from.None? then Rejected else Dropped));
    ReturnTouches(s, e, Ended(Answered));
    NowTouches(s, e, Tracking(c));
  }

  lemma ReportTouches(s: State, e: nat)
    requires Enabled(s, Report(e)) && s.execs[e].req in s.place
    ensures Touched(s, e, Step(s, Report(e)))
  {
    var Reporting(c, verdict) := s.execs[e].phase;
    ConcludeTouches(if c in s.inflight then s.(inflight := s.inflight[c := s.inflight[c] - 1]) else s, e, c, verdict);
  }

  lemma TrackTouches(s: State, e: nat)
    requires IsCall(s, e) && s.execs[e].req in s.place
    ensures Enabled(s, TrackLoad(e)) ==> Touched(s, e, Step(s, TrackLoad(e)))
    ensures Enabled(s, TrackStore(e)) ==> Touched(s, e, Step(s, TrackStore(e)))
  {
    if Enabled(s, TrackLoad(e)) {
      ReturnTouches(s, e, Ended(Dropped));
      NowTouches(s, e, Storing(s.execs[e].phase.to));
    } else if Enabled(s, TrackStore(e)) {
      ReturnTouches(s, e, Ended(Dropped));
      ReturnTouches(s, e, InTable(s.execs[e].phase.to));
    }
  }

  lemma CallActionTouches(s: State, a: Action)
    requires Inv(s) && Enabled(s, a) && IsCallAction(a)
    ensures Touched(s, a.e, Step(s, a))
  {
    assert At(s.place, s.execs[a.e].req, With(a.e));
    match a {
      case Pick(e, c) => PickTouches(s, e, c);
      case NoClient(e) => ReturnTouches(s, e, Ended(if s.execs[e].from.None? then Rejected else Dropped));
      case Send(e, ok) => NowTouches(s, e, Step(s, a).execs[e].phase);
      case Await(e, answered) => NowTouches(s, e, Step(s, a).execs[e].phase);
      case Report(e) => ReportTouches(s, e);
      case TrackLoad(e) => TrackTouches(s, e);
      case TrackStore(e) => TrackTouches(s, e);
    }
  }

  /** A step leaves every call alone that it is not a step of. */
  lemma OthersStay(s: State, a: Action, e: nat)
    requires Inv(s) && Enabled(s, a) && e < |s.execs| && (IsCallAction(a) ==> a.e != e)
    ensures e < |Step(s, a).execs| && Step(s, a).execs[e] == s.execs[e]
  {
    if IsCallAction(a) {
      assert IsCall(s, a.e) && Active(s.execs[a.e]);
      assert At(s.place, s.execs[a.e].req, With(a.e));
      CallActionTouches(s, a);
    }
  }

  /** A step of a call puts its request in no queue. */
  lemma CallActionQueuesNothing(s: State, a: Action)
    requires Inv(s) && Enabled(s, a) && IsCallAction(a)
    ensures s.execs[a.e].req in Step(s, a).place && !Step(s, a).place[s.execs[a.e].req].Queued?
  {
    assert At(s.place, s.execs[a.e].req, With(a.e));
  }

  predicate SpentAt(s: State, r: Id, c: Id) {
    c in s.loops && !Live(s.loops, c) && !At(s.place, r, Queued(c))
  }

  /** What was spent in `s` is spent in `t`. */
  ghost predicate SpentGoesOn(s: State, t: State) {
    forall r, c :: SpentAt(s, r, c) ==> SpentAt(t, r, c)
  }

  ghost predicate History(s: State) {
    && (forall r, c :: c in Froms(s.execs, r) ==> SpentAt(s, r, c))
    && (forall r :: NoRepeats(Froms(s.execs, r)))
  }

  lemma TouchedKeepsHistory(s: State, e: nat, t: State)
    requires History(s) && Touched(s, e, t) && !t.place[s.execs[e].req].Queued?
    ensures History(t)
  {
    forall r ensures Froms(t.execs, r) == Froms(s.execs, r) {
      FromsAfterNow(s.execs, e, t.execs[e].phase, r);
    }
  }

  lemma SameKeepsHistory(s: State, t: State)
    requires History(s) && SpentGoesOn(s, t) && t.execs == s.execs
    ensures History(t)
  {
  }

  lemma CalledKeepsHistory(s: State, t: State, x: Exec)
    requires History(s) && SpentGoesOn(s, t) && t.execs == s.execs + [x]
    requires x.from.Some? ==> At(s.place, x.req, Queued(x.from.value)) && SpentAt(t, x.req, x.from.value)
    ensures History(t)
  {
    forall r ensures NoRepeats(Froms(t.execs, r)) && forall c :: c in Froms(t.execs, r) ==> SpentAt(t, r, c) {
      FromsAfterCall(s.execs, x, r);
      assert NoRepeats(Froms(s.execs, r));
      assert x.from.Some? ==> !SpentAt(s, x.req, x.from.value);
    }
  }

  /** A step that is no call's leaves spent what was spent: a client that is not live stays so, and is queued nothing. */
  lemma OthersKeepSpent(s: State, a: Action)
    requires Inv(s) && Enabled(s, a) && !IsCallAction(a)
    ensures SpentGoesOn(s, Step(s, a))
  {
    if a.Collect? {
      CollectKeepsSpent(s, a.c, a.order);
    }
  }

  lemma CollectKeepsSpent(s: State, d: Id, order: seq<Id>)
    requires Enabled(s, Collect(d, order))
    ensures SpentGoesOn(s, Step(s, Collect(d, order)))
  {
  }

  lemma RedispatchKeepsHistory(s: State, c: Id)
    requires Inv(s) && History(s) && Enabled(s, Redispatch(c))
    ensures History(Step(s, Redispatch(c)))
  {
    OthersKeepSpent(s, Redispatch(c));
    assert s.loops[c].queue[0] in QueueOf(s.loops, c);
    CalledKeepsHistory(s, Step(s, Redispatch(c)), Exec(s.loops[c].queue[0], false, Some(c), Picking(0)));
  }

  lemma StepKeepsHistory(s: State, a: Action)
    requires Inv(s) && History(s) && Enabled(s, a)
    ensures History(Step(s, a))
  {
    if IsCallAction(a) {
      CallActionTouches(s, a);
      CallActionQueuesNothing(s, a);
      TouchedKeepsHistory(s, a.e, Step(s, a));
    } else {
      OthersKeepSpent(s, a);
      if a.Begin? {
        CalledKeepsHistory(s, Step(s, a), Exec(a.r, a.sync, None, Picking(0)));
      } else if a.Redispatch? {
        RedispatchKeepsHistory(s, a.c);
      } else {
        SameKeepsHistory(s, Step(s, a));
      }
    }
  }

  // ---------------------------------------------------------------- requests in flight

  /** Whether the call has got client `c` from the balancer and not yet reported back. */
  function Holds(x: Exec, c: Id): nat {
    if (x.phase.Sending? || x.phase.Awaiting? || x.phase.Reporting?) && x.phase.to == c then 1 else 0
  }

  function Holders(execs: seq<Exec>, c: Id): nat {
    if execs == [] then 0 else Holders(execs[..|execs| - 1], c) + Holds(execs[|execs| - 1], c)
  }

  ghost predicate Accounted(inflight: map<Id, int>, execs: seq<Exec>) {
    forall c :: c in inflight ==> inflight[c] == Holders(execs, c)
  }

  lemma {:induction false} HoldersAfterNow(execs: seq<Exec>, e: nat, ph: Phase, c: Id)
    requires e < |execs|
    ensures Holders(execs[e := execs[e].(phase := ph)], c)
            == Holders(execs, c) - Holds(execs[e], c) + Holds(execs[e].(phase := ph), c)
    decreases |execs|
  {
    var n := |execs| - 1;
    var after := execs[e := execs[e].(phase := ph)];
    if e < n {
      HoldersAfterNow(execs[..n], e, ph, c);
      assert after[..n] == execs[..n][e := execs[e].(phase := ph)];
    } else {
      assert after[..n] == execs[..n];
    }
  }

  lemma HoldersAfterCall(execs: seq<Exec>, x: Exec, c: Id)
    ensures Holders(execs + [x], c) == Holders(execs, c) + Holds(x, c)
  {
    assert (execs + [x])[..|execs|] == execs;
  }

  lemma {:induction false} NobodyHolds(execs: seq<Exec>, loops: LoopMap, c: Id)
    requires Targets(execs, loops) && c !in loops
    ensures Holders(execs, c) == 0
    decreases |execs|
  {
    if execs != [] {
      var n := |execs| - 1;
      assert Aimed(execs[n], loops);
      NobodyHolds(execs[..n], loops, c);
    }
  }

  lemma {:induction false} QuietHolders(execs: seq<Exec>, c: Id)
    requires forall e :: 0 <= e < |execs| ==> Holds(execs[e], c) == 0
    ensures Holders(execs, c) == 0
    decreases |execs|
  {
    if execs != [] {
      QuietHolders(execs[..|execs| - 1], c);
    }
  }

  /** From `s` to `t` the count at `c` moves with what call `e` holds. */
  predicate Moves(s: State, e: nat, t: State, c: Id) {
    e < |s.execs| && e < |t.execs| &&
    (c in t.inflight ==>
       c in s.inflight && t.inflight[c] == s.inflight[c] - Holds(s.execs[e], c) + Holds(t.execs[e], c))
  }

  lemma PickMoves(s: State, e: nat, d: Id, c: Id)
    requires Enabled(s, Pick(e, d))
    ensures Moves(s, e, Step(s, Pick(e, d)), c)
  {
  }

  lemma ReportMoves(s: State, e: nat, c: Id)
    requires Enabled(s, Report(e))
    ensures Moves(s, e, Step(s, Report(e)), c)
  {
  }

  lemma TrackMoves(s: State, e: nat, c: Id)
    requires IsCall(s, e)
    ensures Enabled(s, TrackLoad(e)) ==> Moves(s, e, Step(s, TrackLoad(e)), c)
    ensures Enabled(s, TrackStore(e)) ==> Moves(s, e, Step(s, TrackStore(e)), c)
  {
  }

  lemma CallActionMoves(s: State, a: Action, c: Id)
    requires Enabled(s, a) && IsCallAction(a)
    ensures Moves(s, a.e, Step(s, a), c)
  {
    match a {
      case Pick(e, d) => PickMoves(s, e, d, c);
      case Report(e) => ReportMoves(s, e, c);
      case TrackLoad(e) => TrackMoves(s, e, c);
      case TrackStore(e) => TrackMoves(s, e, c);
      case NoClient(_) | Send(_, _) | Await(_, _) =>
    }
  }

  lemma TouchedKeepsAccounts(s: State, e: nat, t: State)
    requires Accounted(s.inflight, s.execs) && Touched(s, e, t)
    requires forall c :: Moves(s, e, t, c)
    ensures Accounted(t.inflight, t.execs)
  {
    forall c | c in t.inflight ensures t.inflight[c] == Holders(t.execs, c) {
      assert Moves(s, e, t, c);
      HoldersAfterNow(s.execs, e, t.execs[e].phase, c);
    }
  }

  lemma CalledKeepsAccounts(s: State, t: State, x: Exec)
    requires Accounted(s.inflight, s.execs) && t.inflight == s.inflight && t.execs == s.execs + [x] && x.phase.Picking?
    ensures Accounted(t.inflight, t.execs)
  {
    forall c | c in t.inflight ensures t.inflight[c] == Holders(t.execs, c) {
      HoldersAfterCall(s.execs, x, c);
    }
  }

  lemma OthersKeepAccounts(s: State, a: Action)
    requires Inv(s) && Accounted(s.inflight, s.execs) && Enabled(s, a) && !IsCallAction(a)
    ensures Accounted(Step(s, a).inflight, Step(s, a).execs)
  {
    match a {
      case AddClient(d) => NobodyHolds(s.execs, s.loops, d);
      case Begin(r, sync) => CalledKeepsAccounts(s, Step(s, a), Exec(r, sync, None, Picking(0)));
      case Redispatch(d) =>
        CalledKeepsAccounts(s, Step(s, a), Exec(s.loops[d].queue[0], false, Some(d), Picking(0)));
      case _ =>
    }
  }

  lemma StepKeepsAccounts(s: State, a: Action)
    requires Inv(s) && Accounted(s.inflight, s.execs) && Enabled(s, a)
    ensures Accounted(Step(s, a).inflight, Step(s, a).execs)
  {
    if IsCallAction(a) {
      CallActionTouches(s, a);
      forall c ensures Moves(s, a.e, Step(s, a), c) {
        CallActionMoves(s, a, c);
      }
      TouchedKeepsAccounts(s, a.e, Step(s, a));
    } else {
      OthersKeepAccounts(s, a);
    }
  }
}
