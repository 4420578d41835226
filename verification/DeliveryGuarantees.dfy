/**
 What holds in every run of the delivery machine: where each request is, which steps
 lose one, how often one can be redispatched, and what the balancer counts.
 */
module DeliveryGuarantees {
  import opened Delivery
  import opened DeliveryHistory
  import opened Ids
  import opened Options
  import opened Runs

  // ------------------------------------------------------------------------------- runs

  predicate Follows(s: State, a: Action, t: State) {
    Enabled(s, a) && t == Step(s, a)
  }

  /** What the actions lead through, from a server without clients. */
  ghost predicate IsRun(states: seq<State>, acts: seq<Action>) {
    Run(START, Follows, states, acts)
  }

  ghost predicate Sound(s: State) {
    && Inv(s)
    && Sentness(s)
    && History(s)
    && Accounted(s.inflight, s.execs)
  }

  lemma StartIsSound()
    ensures Sound(START)
  {
    assert START.execs == [];
    assert forall r :: Froms(START.execs, r) == [];
  }

  lemma StepKeepsSound(s: State, a: Action, t: State)
    requires Sound(s) && Follows(s, a, t)
    ensures Sound(t)
  {
    StepKeeps(s, a);
    StepKeepsSentness(s, a);
    StepKeepsHistory(s, a);
    StepKeepsAccounts(s, a);
  }

  lemma RunIsSound(states: seq<State>, acts: seq<Action>, k: nat)
    requires IsRun(states, acts) && k < |states|
    ensures Sound(states[k])
  {
    StartIsSound();
    forall s, a, t | Sound(s) && Follows(s, a, t) ensures Sound(t) {
      StepKeepsSound(s, a, t);
    }
    Invariant(START, Follows, s => Sound(s), states, acts, k);
  }

  // --------------------------------------------------------------------- classification

  predicate UnderwayOrDropped(s: State, p: Place) {
    match p
    case With(e) => e < |s.execs| && HasSent(s.execs[e])
    case InTable(_) => true
    case Queued(_) => true
    case Ended(how) => how == Dropped
  }

  /**
   Every request is in exactly one place: with one call, in one table that is still to
   be drained, in one redispatch queue, or at its end. One that was sent and not
   acknowledged, and is not synchronous, is with a call that is past its send or made
   by a redispatch loop, in a table, in a queue, or dropped.
   */
  lemma Classification(states: seq<State>, acts: seq<Action>, k: nat, r: Id)
    requires IsRun(states, acts) && k < |states| && r in states[k].asked
    ensures r in states[k].place
    ensures forall e: nat :: WorksFor(states[k].execs, e, r) <==> states[k].place[r] == With(e)
    ensures forall c :: Live(states[k].loops, c) && r in TableOf(states[k].tables, c) <==> states[k].place[r] == InTable(c)
    ensures forall c :: r in QueueOf(states[k].loops, c) <==> states[k].place[r] == Queued(c)
    ensures r in states[k].sent && r !in states[k].acked && !states[k].asked[r] ==>
      UnderwayOrDropped(states[k], states[k].place[r])
  {
    RunIsSound(states, acts, k);
    Classified(states[k], r);
  }

  lemma Classified(s: State, r: Id)
    requires Sound(s) && r in s.asked
    ensures r in s.place
    ensures forall e: nat :: WorksFor(s.execs, e, r) <==> s.place[r] == With(e)
    ensures forall c :: Live(s.loops, c) && r in TableOf(s.tables, c) <==> s.place[r] == InTable(c)
    ensures forall c :: r in QueueOf(s.loops, c) <==> s.place[r] == Queued(c)
    ensures r in s.sent && r !in s.acked && !s.asked[r] ==>
      UnderwayOrDropped(s, s.place[r])
  {
    forall e: nat ensures WorksFor(s.execs, e, r) <==> s.place[r] == With(e) {
      assert WorksFor(s.execs, e, r) ==> At(s.place, s.execs[e].req, With(e));
    }
    assert SentPlace(s.place[r], r, s.asked[r], s.sent, s.expired, s.acked);
    if s.place[r].With? {
      assert WorksFor(s.execs, s.place[r].e, r) && SentCall(s.execs[s.place[r].e], s.sent, s.expired);
    }
  }

  /**
   An error returned to the caller of an asynchronous request means that it was never
   written; that of a synchronous one, that it was not or that its wait ended without a
   result. Only an acknowledged request is confirmed, only an asynchronous one dropped.
   */
  lemma OutcomesAreHonest(states: seq<State>, acts: seq<Action>, k: nat, r: Id, how: Outcome)
    requires IsRun(states, acts) && k < |states| && r in states[k].asked && At(states[k].place, r, Ended(how))
    ensures how == Rejected && !states[k].asked[r] ==> r !in states[k].sent
    ensures how == Rejected && states[k].asked[r] ==> (r in states[k].sent <==> r in states[k].expired)
    ensures how == Answered ==> r in states[k].sent && r !in states[k].expired && states[k].asked[r]
    ensures how == Confirmed ==> r in states[k].sent && r in states[k].acked && !states[k].asked[r]
    ensures how == Dropped ==> r in states[k].sent && !states[k].asked[r]
  {
    RunIsSound(states, acts, k);
    var s := states[k];
    assert SentPlace(s.place[r], r, s.asked[r], s.sent, s.expired, s.acked);
  }

  predicate ExpiresAt(s: State, a: Action, r: Id) {
    a.Await? && !a.answered && IsCall(s, a.e) && s.execs[a.e].req == r
  }

  lemma StepExpires(s: State, a: Action, t: State, r: Id)
    requires Follows(s, a, t)
    ensures r in t.expired <==> r in s.expired || ExpiresAt(s, a, r)
  {
    match a {
      case Pick(e, c) => PickKeepsExpired(s, e, c);
      case Report(e) => ReportKeepsExpired(s, e);
      case _ =>
    }
  }

  lemma PickKeepsExpired(s: State, e: nat, c: Id)
    requires Enabled(s, Pick(e, c))
    ensures Step(s, Pick(e, c)).expired == s.expired
  {
  }

  lemma ReportKeepsExpired(s: State, e: nat)
    requires Enabled(s, Report(e))
    ensures Step(s, Report(e)).expired == s.expired
  {
    ReportLeaves(s, e);
  }

  /**
   The caller got an error for a request that was written, and may be executing,
   exactly when some step of the run ended its wait without a result.
   */
  lemma ErrorAfterWrite(states: seq<State>, acts: seq<Action>, k: nat, r: Id)
    requires IsRun(states, acts) && k < |states| && r in states[k].asked && At(states[k].place, r, Ended(Rejected))
    ensures r in states[k].sent <==> exists i: nat :: i < k && ExpiresAt(states[i], acts[i], r)
  {
    OutcomesAreHonest(states, acts, k, r, Rejected);
    RunIsSound(states, acts, k);
    assert SentPlace(states[k].place[r], r, states[k].asked[r], states[k].sent, states[k].expired, states[k].acked);
    ExpiredExactlySo(states, acts, k, r);
  }

  lemma ExpiredExactlySo(states: seq<State>, acts: seq<Action>, k: nat, r: Id)
    requires IsRun(states, acts) && k < |states|
    ensures r in states[k].expired <==> exists i: nat :: i < k && ExpiresAt(states[i], acts[i], r)
  {
    forall s, a, t | Follows(s, a, t) ensures r in t.expired <==> r in s.expired || ExpiresAt(s, a, r) {
      StepExpires(s, a, t, r);
    }
    HoldsExactlySo(START, Follows, (s: State) => true, (s: State) => r in s.expired,
                   (s, a) => ExpiresAt(s, a, r), states, acts, k);
  }

  // ------------------------------------------------------------------------ what loses one

  /**
   The steps that lose the request of their call: finding the table detached, storing
   in a table already collected, and a redispatch that fails because the balancer is
   empty, because the last try hit a closed client, or because the send failed.
   */
  predicate Loses(s: State, a: Action)
    requires Enabled(s, a)
  {
    match a
    case TrackLoad(e) => s.execs[e].phase.to !in s.attached
    case TrackStore(e) => !Live(s.loops, s.execs[e].phase.to)
    case NoClient(e) => s.execs[e].from.Some?
    case Pick(e, c) =>
      s.execs[e].from.Some? && c in s.closed && s.execs[e].phase.tries + 1 >= MAX_RETRY_PICK_CLIENT
    case Report(e) => s.execs[e].from.Some? && !s.execs[e].phase.verdict.Done?
    case _ => false
  }

  /** What a step of call `e` leaves of its request. */
  predicate LostBy(s: State, a: Action, e: nat)
    requires Enabled(s, a) && IsCall(s, e)
  {
    At(Step(s, a).place, s.execs[e].req, Ended(Dropped))
  }

  lemma PickLoses(s: State, e: nat, c: Id)
    requires Inv(s) && Enabled(s, Pick(e, c))
    ensures LostBy(s, Pick(e, c), e) <==> Loses(s, Pick(e, c))
  {
    assert At(s.place, s.execs[e].req, With(e));
  }

  lemma ReportLoses(s: State, e: nat)
    requires Inv(s) && Enabled(s, Report(e))
    ensures LostBy(s, Report(e), e) <==> Loses(s, Report(e))
  {
    assert At(s.place, s.execs[e].req, With(e));
  }

  lemma TrackLoses(s: State, e: nat)
    requires Inv(s) && IsCall(s, e)
    ensures Enabled(s, TrackLoad(e)) ==> (LostBy(s, TrackLoad(e), e) <==> Loses(s, TrackLoad(e)))
    ensures Enabled(s, TrackStore(e)) ==> (LostBy(s, TrackStore(e), e) <==> Loses(s, TrackStore(e)))
  {
    assert Active(s.execs[e]) ==> At(s.place, s.execs[e].req, With(e));
  }

  lemma CallActionLoses(s: State, a: Action)
    requires Inv(s) && Enabled(s, a) && IsCallAction(a)
    ensures LostBy(s, a, a.e) <==> Loses(s, a)
  {
    match a {
      case Pick(e, c) => PickLoses(s, e, c);
      case Report(e) => ReportLoses(s, e);
      case TrackLoad(e) => TrackLoses(s, e);
      case TrackStore(e) => TrackLoses(s, e);
      case NoClient(e) => assert At(s.place, s.execs[e].req, With(e));
      case Send(e, _) => assert At(s.place, s.execs[e].req, With(e));
      case Await(e, _) => assert At(s.place, s.execs[e].req, With(e));
    }
  }

  lemma OthersLoseNothing(s: State, a: Action, r: Id)
    requires Inv(s) && Enabled(s, a) && !IsCallAction(a) && r in s.place
    ensures r in Step(s, a).place
    ensures Step(s, a).place[r] == s.place[r] || !At(Step(s, a).place, r, Ended(Dropped))
  {
  }

  /** A step loses a request that was not lost before exactly when it is one of these steps of its call. */
  lemma LosesExactly(s: State, a: Action, r: Id)
    requires Inv(s) && Enabled(s, a) && r in s.place && s.place[r] != Ended(Dropped)
    ensures At(Step(s, a).place, r, Ended(Dropped)) <==> Loses(s, a) && s.execs[a.e].req == r
  {
    if IsCallAction(a) {
      CallActionTouches(s, a);
      CallActionLoses(s, a);
    } else {
      OthersLoseNothing(s, a, r);
    }
  }

  /** A request that has come to its end stays there. */
  lemma EndIsFinal(s: State, a: Action, r: Id)
    requires Inv(s) && Enabled(s, a) && r in s.place && s.place[r].Ended?
    ensures At(Step(s, a).place, r, s.place[r])
  {
    if IsCallAction(a) {
      CallActionTouches(s, a);
      assert At(s.place, s.execs[a.e].req, With(a.e));
    } else {
      OthersKeepTheEnd(s, a, r);
    }
  }

  lemma OthersKeepTheEnd(s: State, a: Action, r: Id)
    requires Inv(s) && Enabled(s, a) && !IsCallAction(a) && r in s.place && s.place[r].Ended?
    ensures At(Step(s, a).place, r, s.place[r])
  {
    match a {
      case Ack(c, q) => assert r in TableOf(s.tables, c) ==> At(s.place, r, InTable(c));
      case Collect(c, _) => assert r in TableOf(s.tables, c) ==> At(s.place, r, InTable(c));
      case Redispatch(c) =>
        assert s.loops[c].queue[0] in QueueOf(s.loops, c);
        assert At(s.place, s.loops[c].queue[0], Queued(c));
      case _ =>
    }
  }

  predicate LosesAt(s: State, a: Action, r: Id) {
    Enabled(s, a) && Loses(s, a) && s.execs[a.e].req == r
  }

  /** A request is lost after `k` steps exactly when one of them lost it. */
  lemma LostExactlySo(states: seq<State>, acts: seq<Action>, k: nat, r: Id)
    requires IsRun(states, acts) && k < |states|
    ensures At(states[k].place, r, Ended(Dropped)) <==> exists i: nat :: i < k && LosesAt(states[i], acts[i], r)
  {
    StartIsSound();
    forall s, a, t | Sound(s) && Follows(s, a, t)
      ensures Sound(t)
      ensures At(t.place, r, Ended(Dropped)) <==> At(s.place, r, Ended(Dropped)) || LosesAt(s, a, r)
    {
      StepKeepsSound(s, a, t);
      LastStepLoses(s, a, t, r);
    }
    HoldsExactlySo(START, Follows, s => Sound(s), (s: State) => At(s.place, r, Ended(Dropped)),
                   (s, a) => LosesAt(s, a, r), states, acts, k);
  }

  lemma LastStepLoses(s: State, a: Action, t: State, r: Id)
    requires Sound(s) && Follows(s, a, t)
    ensures At(t.place, r, Ended(Dropped)) <==>
            At(s.place, r, Ended(Dropped)) || LosesAt(s, a, r)
  {
    if r !in s.place {
      NewcomersStart(s, a, r);
    } else if s.place[r] == Ended(Dropped) {
      EndIsFinal(s, a, r);
    } else {
      LosesExactly(s, a, r);
    }
  }

  lemma NewcomersStart(s: State, a: Action, r: Id)
    requires Inv(s) && Enabled(s, a) && r !in s.place
    ensures !At(Step(s, a).place, r, Ended(Dropped))
    ensures IsCallAction(a) ==> s.execs[a.e].req != r
  {
    if IsCallAction(a) {
      CallActionTouches(s, a);
      assert At(s.place, s.execs[a.e].req, With(a.e));
    }
  }

  // --------------------------------------------------------------- how often, and how many

  /**
   Redispatching ends: no client redispatches a request twice, so the chain of a
   request is at most as long as the number of clients that ever joined.
   */
  lemma RedispatchIsBounded(states: seq<State>, acts: seq<Action>, k: nat, r: Id)
    requires IsRun(states, acts) && k < |states|
    ensures NoRepeats(Froms(states[k].execs, r))
    ensures |Froms(states[k].execs, r)| <= |states[k].loops|
  {
    RunIsSound(states, acts, k);
    var s := states[k];
    assert NoRepeats(Froms(s.execs, r));
    forall c | c in Froms(s.execs, r) ensures c in s.loops.Keys {
      assert SpentAt(s, r, c);
    }
    ListWithin(Froms(s.execs, r), s.loops.Keys);
    assert |s.loops.Keys| == |s.loops|;
  }

  /** The balancer has exactly the registered clients, and counts for each the calls that got it and have not reported. */
  lemma InFlightIsExact(states: seq<State>, acts: seq<Action>, k: nat)
    requires IsRun(states, acts) && k < |states|
    ensures states[k].inflight.Keys == states[k].clients
    ensures forall c :: c in states[k].clients ==> states[k].inflight[c] == Holders(states[k].execs, c)
  {
    RunIsSound(states, acts, k);
  }

  /** When no call is between its pick and its report, every count is zero again. */
  lemma QuietCountsAreZero(states: seq<State>, acts: seq<Action>, k: nat, c: Id)
    requires IsRun(states, acts) && k < |states| && c in states[k].clients
    requires forall e :: 0 <= e < |states[k].execs| ==> Holds(states[k].execs[e], c) == 0
    ensures c in states[k].inflight && states[k].inflight[c] == 0
  {
    InFlightIsExact(states, acts, k);
    QuietHolders(states[k].execs, c);
  }

  /** A try of `GetClientByBalance` yields a registered client that is not closed, or evicts one that is. */
  lemma PickTakesLiveOrEvictsDead(s: State, e: nat, c: Id)
    requires Inv(s) && Enabled(s, Pick(e, c))
    ensures c in s.clients
    ensures c !in s.closed ==>
      && Step(s, Pick(e, c)).execs[e].phase == Sending(c) && Step(s, Pick(e, c)).clients == s.clients
      && Step(s, Pick(e, c)).inflight == s.inflight[c := s.inflight[c] + 1]
    ensures c in s.closed ==>
      && !Step(s, Pick(e, c)).execs[e].phase.Sending? && Step(s, Pick(e, c)).clients == s.clients - {c}
      && Step(s, Pick(e, c)).inflight == s.inflight - {c}
  {
  }

  lemma ReportRemovesNobody(s: State, e: nat)
    requires Enabled(s, Report(e))
    ensures Step(s, Report(e)).clients == s.clients
  {
    ReportLeaves(s, e);
  }

  lemma PickRemovesOnlyClosed(s: State, e: nat, d: Id, c: Id)
    requires Inv(s) && Enabled(s, Pick(e, d)) && c in s.clients && c !in Step(s, Pick(e, d)).clients
    ensures c == d && c in s.closed
  {
  }

  /** Only a closed client, or one whose own loop has ended, is ever removed. */
  lemma NoLiveClientIsRemoved(s: State, a: Action, c: Id)
    requires Inv(s) && Enabled(s, a) && c in s.clients && c !in Step(s, a).clients
    ensures (a.Pick? && a.c == c && c in s.closed) || (a.Leave? && a.c == c)
  {
    match a {
      case Pick(e, d) => PickRemovesOnlyClosed(s, e, d, c);
      case Report(e) => ReportRemovesNobody(s, e);
      case _ =>
    }
  }
}
