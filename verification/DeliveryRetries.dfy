/**
 How a dispatch ends: with the caller's error, without a trace, or with an answer, told
 by the steps of the run. A call tries three clients at most.
 */
module DeliveryRetries {
  import opened Delivery
  import opened DeliveryHistory
  import opened DeliveryGuarantees
  import opened Ids
  import opened Options
  import opened Runs

  /** How often call `e` asks the balancer and gets a client. */
  function PicksOf(acts: seq<Action>, e: nat): nat {
    if acts == [] then 0
    else
      var a := acts[|acts| - 1];
      PicksOf(acts[..|acts| - 1], e) + if a.Pick? && a.e == e then 1 else 0
  }

  lemma OneActionMore(acts: seq<Action>, k: nat, e: nat)
    requires k < |acts|
    ensures PicksOf(acts[..k + 1], e) == PicksOf(acts[..k], e) + if acts[k].Pick? && acts[k].e == e then 1 else 0
  {
    assert acts[..k + 1][..k] == acts[..k];
  }

  /** The tries of a call that is still picking are its picks so far, and fewer than three. */
  predicate TriesAre(x: Exec, picks: nat) {
    x.phase.Picking? ==> x.phase.tries == picks < 3
  }

  lemma PickCountsTries(s: State, e: nat, c: Id)
    requires Enabled(s, Pick(e, c))
    ensures e < |Step(s, Pick(e, c)).execs| && TriesAre(Step(s, Pick(e, c)).execs[e], s.execs[e].phase.tries + 1)
  {
  }

  lemma OwnStepCountsTries(s: State, a: Action)
    requires Enabled(s, a) && IsCallAction(a) && !a.Pick?
    ensures a.e < |Step(s, a).execs| && !Step(s, a).execs[a.e].phase.Picking?
  {
    match a {
      case Report(e) => ReportCountsTries(s, e);
      case TrackLoad(e) => TrackCountsTries(s, e);
      case TrackStore(e) => TrackCountsTries(s, e);
      case NoClient(_) | Send(_, _) | Await(_, _) =>
    }
  }

  lemma TrackCountsTries(s: State, e: nat)
    requires IsCall(s, e)
    ensures Enabled(s, TrackLoad(e)) ==>
      var t := TrackLoadStep(s, e); e < |t.execs| && !t.execs[e].phase.Picking?
    ensures Enabled(s, TrackStore(e)) ==>
      var t := TrackStoreStep(s, e); e < |t.execs| && !t.execs[e].phase.Picking?
  {
  }

  lemma ConcludeCountsTries(s: State, e: nat, c: Id, verdict: Verdict)
    requires IsCall(s, e)
    ensures var t := Conclude(s, e, c, verdict); e < |t.execs| && !t.execs[e].phase.Picking?
  {
  }

  lemma ReportCountsTries(s: State, e: nat)
    requires Enabled(s, Report(e))
    ensures e < |ReportStep(s, e).execs| && !ReportStep(s, e).execs[e].phase.Picking?
  {
    var c := s.execs[e].phase.to;
    ConcludeCountsTries(if c in s.inflight then s.(inflight := s.inflight[c := s.inflight[c] - 1]) else s, e, c,
                        s.execs[e].phase.verdict);
  }

  lemma OldCallCountsTries(s: State, a: Action, e: nat, picks: nat)
    requires Inv(s) && Enabled(s, a) && e < |s.execs| && TriesAre(s.execs[e], picks)
    ensures e < |Step(s, a).execs|
    ensures TriesAre(Step(s, a).execs[e], picks + if a.Pick? && a.e == e then 1 else 0)
  {
    if IsCallAction(a) && a.e == e {
      if a.Pick? {
        PickCountsTries(s, e, a.c);
      } else {
        OwnStepCountsTries(s, a);
      }
    } else {
      OthersStay(s, a, e);
    }
  }

  lemma CallActionAddsNone(s: State, a: Action)
    requires Inv(s) && Enabled(s, a) && IsCallAction(a)
    ensures |Step(s, a).execs| == |s.execs|
  {
    CallActionTouches(s, a);
  }

  lemma OthersAddOne(s: State, a: Action)
    requires Enabled(s, a) && !IsCallAction(a)
    ensures var t := Step(s, a);
      |t.execs| == |s.execs| || (|t.execs| == |s.execs| + 1 && t.execs[|s.execs|].phase == Picking(0))
  {
  }

  /** The tries of call `e` are counted; one that is still to come has none. */
  predicate Counted(s: State, e: nat, picks: nat) {
    if e < |s.execs| then TriesAre(s.execs[e], picks) else picks == 0
  }

  lemma StepCountsTries(s: State, a: Action, t: State, e: nat, picks: nat)
    requires Inv(s) && Follows(s, a, t) && Counted(s, e, picks)
    ensures Counted(t, e, picks + if a.Pick? && a.e == e then 1 else 0)
  {
    if e < |s.execs| {
      OldCallCountsTries(s, a, e, picks);
    } else if IsCallAction(a) {
      CallActionAddsNone(s, a);
    } else {
      OthersAddOne(s, a);
    }
  }

  /** What a step makes of the picks of call `e`. */
  predicate CountsOn(s: State, a: Action, t: State, e: nat, picks: nat) {
    Counted(s, e, picks) ==> Counted(t, e, picks + if a.Pick? && a.e == e then 1 else 0)
  }

  lemma RunCountsOn(states: seq<State>, acts: seq<Action>, i: nat, e: nat, picks: nat)
    requires IsRun(states, acts) && i < |acts|
    ensures CountsOn(states[i], acts[i], states[i + 1], e, picks)
  {
    RunIsSound(states, acts, i);
    assert Follows(states[i], acts[i], states[i + 1]);
    if Counted(states[i], e, picks) {
      StepCountsTries(states[i], acts[i], states[i + 1], e, picks);
    }
  }

  lemma {:induction false} TriesAreCounted(states: seq<State>, acts: seq<Action>, k: nat, e: nat)
    requires IsRun(states, acts) && k < |states|
    ensures Counted(states[k], e, PicksOf(acts[..k], e))
  {
    if k > 0 {
      TriesAreCounted(states, acts, k - 1, e);
      RunCountsOn(states, acts, k - 1, e, PicksOf(acts[..k - 1], e));
      OneActionMore(acts, k - 1, e);
    }
  }

  // ------------------------------------------------------------------ steps that fail a call

  /** The step ends its call with an error: no client, the third dead one, or a failed dispatch. */
  predicate Fails(s: State, a: Action) {
    match a
    case NoClient(e) => true
    case Pick(e, c) => IsCall(s, e) && s.execs[e].phase == Picking(2) && c in s.closed
    case Report(e) => IsCall(s, e) && s.execs[e].phase.Reporting? && !s.execs[e].phase.verdict.Done?
    case _ => false
  }

  predicate RejectedBy(s: State, a: Action, r: Id) {
    Enabled(s, a) && Fails(s, a) && s.execs[a.e].req == r && s.execs[a.e].from.None?
  }

  /** What a step of call `e` leaves of its request. */
  predicate TurnedDown(s: State, a: Action, e: nat)
    requires Enabled(s, a) && IsCall(s, e)
  {
    At(Step(s, a).place, s.execs[e].req, Ended(Rejected))
  }

  lemma PickRejects(s: State, e: nat, c: Id)
    requires Inv(s) && Enabled(s, Pick(e, c)) && s.execs[e].phase.tries < 3
    ensures TurnedDown(s, Pick(e, c), e) <==> Fails(s, Pick(e, c)) && s.execs[e].from.None?
  {
    assert At(s.place, s.execs[e].req, With(e));
  }

  lemma ReportRejects(s: State, e: nat)
    requires Inv(s) && Enabled(s, Report(e))
    ensures TurnedDown(s, Report(e), e) <==> Fails(s, Report(e)) && s.execs[e].from.None?
  {
    assert At(s.place, s.execs[e].req, With(e));
  }

  lemma TrackRejectsNothing(s: State, e: nat)
    requires Inv(s) && IsCall(s, e)
    ensures Enabled(s, TrackLoad(e)) ==> !TurnedDown(s, TrackLoad(e), e)
    ensures Enabled(s, TrackStore(e)) ==> !TurnedDown(s, TrackStore(e), e)
  {
    assert Active(s.execs[e]) ==> At(s.place, s.execs[e].req, With(e));
  }

  lemma CallActionRejects(s: State, a: Action)
    requires Inv(s) && Enabled(s, a) && IsCallAction(a) && (a.Pick? ==> s.execs[a.e].phase.tries < 3)
    ensures TurnedDown(s, a, a.e) <==> Fails(s, a) && s.execs[a.e].from.None?
  {
    match a {
      case Pick(e, c) => PickRejects(s, e, c);
      case Report(e) => ReportRejects(s, e);
      case TrackLoad(e) => TrackRejectsNothing(s, e);
      case TrackStore(e) => TrackRejectsNothing(s, e);
      case NoClient(e) => assert At(s.place, s.execs[e].req, With(e));
      case Send(e, _) => assert At(s.place, s.execs[e].req, With(e));
      case Await(e, _) => assert At(s.place, s.execs[e].req, With(e));
    }
  }

  lemma OthersRejectNothing(s: State, a: Action, r: Id)
    requires Inv(s) && Enabled(s, a) && !IsCallAction(a)
    ensures At(Step(s, a).place, r, Ended(Rejected)) ==> At(s.place, r, Ended(Rejected))
  {
  }

  predicate FewTries(s: State) {
    forall e :: 0 <= e < |s.execs| && s.execs[e].phase.Picking? ==> s.execs[e].phase.tries < 3
  }

  lemma StepKeepsFewTries(s: State, a: Action)
    requires Inv(s) && FewTries(s) && Enabled(s, a)
    ensures FewTries(Step(s, a))
  {
    var t := Step(s, a);
    forall e | 0 <= e < |t.execs| && t.execs[e].phase.Picking? ensures t.execs[e].phase.tries < 3 {
      var picks := if e < |s.execs| && s.execs[e].phase.Picking? then s.execs[e].phase.tries else 0;
      StepCountsTries(s, a, t, e, picks);
    }
  }

  /** A step rejects a request that has not ended exactly when it fails the caller's own call for it. */
  lemma RejectsExactly(s: State, a: Action, r: Id)
    requires Inv(s) && FewTries(s) && Enabled(s, a) && !At(s.place, r, Ended(Rejected))
    ensures At(Step(s, a).place, r, Ended(Rejected)) <==> RejectedBy(s, a, r)
  {
    if IsCallAction(a) {
      assert At(s.place, s.execs[a.e].req, With(a.e));
      CallActionTouches(s, a);
      CallActionRejects(s, a);
    } else {
      OthersRejectNothing(s, a, r);
    }
  }

  lemma LastStepRejects(s: State, a: Action, t: State, r: Id)
    requires Inv(s) && FewTries(s) && Follows(s, a, t)
    ensures At(t.place, r, Ended(Rejected)) <==> At(s.place, r, Ended(Rejected)) || RejectedBy(s, a, r)
  {
    if At(s.place, r, Ended(Rejected)) {
      EndIsFinal(s, a, r);
    } else {
      RejectsExactly(s, a, r);
    }
  }

  lemma RejectedByStep(states: seq<State>, acts: seq<Action>, k: nat, r: Id)
    requires IsRun(states, acts) && k < |states|
    ensures At(states[k].place, r, Ended(Rejected)) <==> exists i: nat :: i < k && RejectedBy(states[i], acts[i], r)
  {
    StartIsSound();
    forall s, a, t | Inv(s) && FewTries(s) && Follows(s, a, t)
      ensures Inv(t) && FewTries(t)
      ensures At(t.place, r, Ended(Rejected)) <==> At(s.place, r, Ended(Rejected)) || RejectedBy(s, a, r)
    {
      StepKeeps(s, a);
      StepKeepsFewTries(s, a);
      LastStepRejects(s, a, t, r);
    }
    HoldsExactlySo(START, Follows, s => Inv(s) && FewTries(s), (s: State) => At(s.place, r, Ended(Rejected)),
                   (s, a) => RejectedBy(s, a, r), states, acts, k);
  }

  // -------------------------------------------------------------------- told by the run alone

  /** Step `i` is one of call `e` for `r`: its own if `from` is none, a redispatching client's otherwise. */
  predicate IsStepFor(states: seq<State>, acts: seq<Action>, i: nat, r: Id, own: bool) {
    && i < |acts| && i < |states| && IsCallAction(acts[i]) && IsCall(states[i], acts[i].e)
    && states[i].execs[acts[i].e].req == r && states[i].execs[acts[i].e].from.None? == own
  }

  /**
   Step `i` fails the dispatch: the balancer is empty; or the client it gives is closed
   and the call was given two others before; or the dispatch was not written, or ended
   without a readable result in time.
   */
  predicate FailsAt(states: seq<State>, acts: seq<Action>, i: nat)
    requires i < |acts| && i < |states|
  {
    var s := states[i];
    match acts[i]
    case NoClient(e) => true
    case Pick(e, c) => c in s.closed && PicksOf(acts[..i], e) == 2
    case Report(e) => IsCall(s, e) && s.execs[e].phase.Reporting? && s.execs[e].phase.verdict != Done
    case _ => false
  }

  lemma FailsAsCounted(states: seq<State>, acts: seq<Action>, i: nat)
    requires IsRun(states, acts) && i < |acts|
    ensures Enabled(states[i], acts[i]) && (FailsAt(states, acts, i) <==> Fails(states[i], acts[i]))
  {
    assert Follows(states[i], acts[i], states[i + 1]);
    if acts[i].Pick? {
      TriesAreCounted(states, acts, i, acts[i].e);
    }
  }

  /**
   The caller of a request has an error after `k` steps if and only if one of them failed
   a call of its own for it; a call fails at its third closed client and not before.
   */
  lemma RejectedExactlySo(states: seq<State>, acts: seq<Action>, k: nat, r: Id)
    requires IsRun(states, acts) && k < |states|
    ensures At(states[k].place, r, Ended(Rejected))
            <==> exists i: nat :: i < k && IsStepFor(states, acts, i, r, true) && FailsAt(states, acts, i)
  {
    RejectedByStep(states, acts, k, r);
    forall i: nat | i < k
      ensures RejectedBy(states[i], acts[i], r) <==> IsStepFor(states, acts, i, r, true) && FailsAt(states, acts, i)
    {
      FailsAsCounted(states, acts, i);
    }
  }

  /** Step `i` finds the client's table detached, or stores in it when it has been collected. */
  predicate TracksTooLate(states: seq<State>, acts: seq<Action>, i: nat)
    requires i < |acts| && i < |states|
  {
    var s := states[i];
    match acts[i]
    case TrackLoad(e) => IsCall(s, e) && s.execs[e].phase.Tracking? && s.execs[e].phase.to !in s.attached
    case TrackStore(e) => IsCall(s, e) && s.execs[e].phase.Storing? && !Live(s.loops, s.execs[e].phase.to)
    case _ => false
  }

  /** Step `i` fails a redispatch of `r`, or tracks it too late. */
  predicate DropsAt(states: seq<State>, acts: seq<Action>, i: nat, r: Id) {
    || (IsStepFor(states, acts, i, r, false) && (FailsAt(states, acts, i) || TracksTooLate(states, acts, i)))
    || (IsStepFor(states, acts, i, r, true) && TracksTooLate(states, acts, i))
  }

  /**
   A request is gone without a trace after `k` steps if and only if one of them failed a
   redispatch of it, or came too late to track it.
   */
  lemma DroppedExactlySo(states: seq<State>, acts: seq<Action>, k: nat, r: Id)
    requires IsRun(states, acts) && k < |states|
    ensures At(states[k].place, r, Ended(Dropped)) <==> exists i: nat :: i < k && DropsAt(states, acts, i, r)
  {
    LostExactlySo(states, acts, k, r);
    forall i: nat | i < k ensures LosesAt(states[i], acts[i], r) <==> DropsAt(states, acts, i, r) {
      FailsAsCounted(states, acts, i);
      LosesAsCounted(states, acts, i, r);
    }
  }

  lemma LosesAsCounted(states: seq<State>, acts: seq<Action>, i: nat, r: Id)
    requires IsRun(states, acts) && i < |acts| && Enabled(states[i], acts[i])
    requires FailsAt(states, acts, i) <==> Fails(states[i], acts[i])
    ensures LosesAt(states[i], acts[i], r) <==> DropsAt(states, acts, i, r)
  {
    if acts[i].Pick? {
      TriesAreCounted(states, acts, i, acts[i].e);
    }
  }
}
