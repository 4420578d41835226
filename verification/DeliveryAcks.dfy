/**
 ACKs and redispatching: which ACK ends a request, and when a request is dispatched
 again although its client had acknowledged it.
 */
module DeliveryAcks {
  import opened Delivery
  import opened DeliveryHistory
  import opened DeliveryGuarantees
  import opened Ids
  import opened Options
  import opened Runs

  /** An ACK for `r` whose client's table holds it. */
  predicate FindsAt(s: State, a: Action, r: Id) {
    a.Ack? && a.r == r && r in TableOf(s.tables, a.c)
  }

  /** An ACK for `r` whose client's table does not hold it. */
  predicate MissesAt(s: State, a: Action, r: Id) {
    a.Ack? && a.r == r && r !in TableOf(s.tables, a.c)
  }

  /** A request is still under way after an ACK exactly when the acknowledging client's table did not hold it. */
  lemma AckEndsIffTracked(s: State, c: Id, r: Id)
    requires Inv(s) && Enabled(s, Ack(c, r)) && r in s.place && !s.place[r].Ended?
    ensures r in Step(s, Ack(c, r)).place
    ensures Step(s, Ack(c, r)).place[r].Ended? <==> r in TableOf(s.tables, c)
  {
  }

  // -------------------------------------------------------------------- confirmed exactly so

  lemma CallActionConfirmsNothing(s: State, a: Action)
    requires Inv(s) && Enabled(s, a) && IsCallAction(a)
    ensures !At(Step(s, a).place, s.execs[a.e].req, Ended(Confirmed))
  {
    assert At(s.place, s.execs[a.e].req, With(a.e));
  }

  lemma OthersConfirm(s: State, a: Action, r: Id)
    requires Inv(s) && Enabled(s, a) && !IsCallAction(a)
    ensures At(Step(s, a).place, r, Ended(Confirmed)) ==> At(s.place, r, Ended(Confirmed)) || FindsAt(s, a, r)
    ensures FindsAt(s, a, r) ==> At(Step(s, a).place, r, Ended(Confirmed))
  {
  }

  lemma StepConfirms(s: State, a: Action, t: State, r: Id)
    requires Inv(s) && Follows(s, a, t)
    ensures At(t.place, r, Ended(Confirmed)) <==> At(s.place, r, Ended(Confirmed)) || FindsAt(s, a, r)
  {
    if At(s.place, r, Ended(Confirmed)) {
      EndIsFinal(s, a, r);
    }
    if IsCallAction(a) {
      CallActionTouches(s, a);
      CallActionConfirmsNothing(s, a);
    } else {
      OthersConfirm(s, a, r);
    }
  }

  /** A request is confirmed after `k` steps exactly when one of them was an ACK that found it. */
  lemma ConfirmedExactlySo(states: seq<State>, acts: seq<Action>, k: nat, r: Id)
    requires IsRun(states, acts) && k < |states|
    ensures At(states[k].place, r, Ended(Confirmed)) <==> exists i: nat :: i < k && FindsAt(states[i], acts[i], r)
  {
    StartIsSound();
    forall s, a, t | Sound(s) && Follows(s, a, t)
      ensures Sound(t)
      ensures At(t.place, r, Ended(Confirmed)) <==> At(s.place, r, Ended(Confirmed)) || FindsAt(s, a, r)
    {
      StepKeepsSound(s, a, t);
      StepConfirms(s, a, t, r);
    }
    HoldsExactlySo(START, Follows, s => Sound(s), (s: State) => At(s.place, r, Ended(Confirmed)),
                   (s, a) => FindsAt(s, a, r), states, acts, k);
  }

  // ---------------------------------------------------------------------- acked exactly so

  predicate AcksAt(a: Action, r: Id) {
    a.Ack? && a.r == r
  }

  lemma PickKeepsAcked(s: State, e: nat, c: Id)
    requires Enabled(s, Pick(e, c))
    ensures Step(s, Pick(e, c)).acked == s.acked
  {
  }

  lemma ReportKeepsAcked(s: State, e: nat)
    requires Enabled(s, Report(e))
    ensures Step(s, Report(e)).acked == s.acked
  {
    ReportLeaves(s, e);
  }

  lemma StepAcks(s: State, a: Action, t: State, r: Id)
    requires Follows(s, a, t)
    ensures r in t.acked <==> r in s.acked || AcksAt(a, r)
  {
    match a {
      case Pick(e, c) => PickKeepsAcked(s, e, c);
      case Report(e) => ReportKeepsAcked(s, e);
      case _ =>
    }
  }

  lemma AckedExactlySo(states: seq<State>, acts: seq<Action>, k: nat, r: Id)
    requires IsRun(states, acts) && k < |states|
    ensures r in states[k].acked <==> exists i: nat :: i < k && AcksAt(acts[i], r)
  {
    forall s, a, t | Follows(s, a, t) ensures r in t.acked <==> r in s.acked || AcksAt(a, r) {
      StepAcks(s, a, t, r);
    }
    HoldsExactlySo(START, Follows, (s: State) => true, (s: State) => r in s.acked,
                   (s: State, a: Action) => AcksAt(a, r), states, acts, k);
  }

  // ------------------------------------------------------------------------- after an ACK

  /**
   An asynchronous request that was written and acknowledged is still under way exactly
   when no ACK found it in the acknowledging client's table and no step lost it.
   */
  lemma UnderwayAfterAck(states: seq<State>, acts: seq<Action>, k: nat, r: Id)
    requires IsRun(states, acts) && k < |states|
    requires r in states[k].asked && !states[k].asked[r] && r in states[k].sent && r in states[k].acked
    ensures r in states[k].place
    ensures !states[k].place[r].Ended? <==>
            && (forall i: nat :: i < k ==> !FindsAt(states[i], acts[i], r))
            && (forall i: nat :: i < k ==> !LosesAt(states[i], acts[i], r))
  {
    RunIsSound(states, acts, k);
    var s := states[k];
    assert SentPlace(s.place[r], r, s.asked[r], s.sent, s.expired, s.acked);
    ConfirmedExactlySo(states, acts, k, r);
    LostExactlySo(states, acts, k, r);
  }

  /** The `Run` loop of a client hands `r` to a new dispatch. */
  predicate RedispatchesAt(s: State, a: Action, r: Id) {
    a.Redispatch? && r in QueueOf(s.loops, a.c) && QueueOf(s.loops, a.c)[0] == r
  }

  /**
   When a request is redispatched, it had been acknowledged exactly when an ACK missed
   it: came when the acknowledging client's table did not hold it, before it was
   tracked there or after the table was drained. No ACK had found it.
   */
  lemma RedispatchedThoughAcked(states: seq<State>, acts: seq<Action>, j: nat, r: Id)
    requires IsRun(states, acts) && j < |acts| && RedispatchesAt(states[j], acts[j], r)
    ensures r in states[j].acked <==> exists i: nat :: i < j && MissesAt(states[i], acts[i], r)
    ensures forall i: nat :: i < j ==> !FindsAt(states[i], acts[i], r)
  {
    RunIsSound(states, acts, j);
    assert At(states[j].place, r, Queued(acts[j].c));
    ConfirmedExactlySo(states, acts, j, r);
    AckedExactlySo(states, acts, j, r);
    forall i: nat | i < j ensures !FindsAt(states[i], acts[i], r) {
    }
    if i: nat :| i < j && AcksAt(acts[i], r) {
      assert MissesAt(states[i], acts[i], r);
    }
    if i: nat :| i < j && MissesAt(states[i], acts[i], r) {
      assert AcksAt(acts[i], r);
    }
  }

  /** At step `j` an acknowledged request is redispatched. */
  ghost predicate Repeats(states: seq<State>, acts: seq<Action>, j: nat, r: Id) {
    j < |acts| && j < |states| && RedispatchesAt(states[j], acts[j], r) && r in states[j].acked
  }

  /** An ACK missed `r` at step `i`, no ACK found it before step `j`, and there it was redispatched. */
  ghost predicate MissedAndRepeated(states: seq<State>, acts: seq<Action>, i: nat, j: nat, r: Id) {
    && i < j < |acts| && j < |states|
    && MissesAt(states[i], acts[i], r)
    && RedispatchesAt(states[j], acts[j], r)
    && forall h: nat :: h < j ==> !FindsAt(states[h], acts[h], r)
  }

  /**
   A run dispatches an acknowledged request again if and only if an ACK for it missed,
   no later one found it, and then it was redispatched.
   */
  lemma RepeatedExactlySo(states: seq<State>, acts: seq<Action>, r: Id)
    requires IsRun(states, acts)
    ensures (exists j: nat :: Repeats(states, acts, j, r))
            <==> (exists i: nat, j: nat :: MissedAndRepeated(states, acts, i, j, r))
  {
    if j: nat :| Repeats(states, acts, j, r) {
      RedispatchedThoughAcked(states, acts, j, r);
      var i: nat :| i < j && MissesAt(states[i], acts[i], r);
      assert MissedAndRepeated(states, acts, i, j, r);
    }
    if i: nat, j: nat :| MissedAndRepeated(states, acts, i, j, r) {
      RedispatchedThoughAcked(states, acts, j, r);
      assert Repeats(states, acts, j, r);
    }
  }

  /**
   What is queued for redispatch when a client is lost is what its table still holds,
   acknowledged or not; a request there had been acknowledged exactly when an ACK
   missed it.
   */
  lemma CollectedThoughAcked(states: seq<State>, acts: seq<Action>, j: nat, r: Id)
    requires IsRun(states, acts) && j < |acts| && acts[j].Collect?
    ensures At(states[j + 1].place, r, Queued(acts[j].c)) <==> r in TableOf(states[j].tables, acts[j].c)
    ensures r in TableOf(states[j].tables, acts[j].c) ==>
      (r in states[j].acked <==> exists i: nat :: i < j && MissesAt(states[i], acts[i], r))
  {
    RunIsSound(states, acts, j);
    assert Follows(states[j], acts[j], states[j + 1]);
    CollectQueues(states[j], acts[j].c, acts[j].order, r);
    if r in TableOf(states[j].tables, acts[j].c) {
      ConfirmedExactlySo(states, acts, j, r);
      AckedExactlySo(states, acts, j, r);
      if i: nat :| i < j && AcksAt(acts[i], r) {
        assert !FindsAt(states[i], acts[i], r);
        assert MissesAt(states[i], acts[i], r);
      }
      if i: nat :| i < j && MissesAt(states[i], acts[i], r) {
        assert AcksAt(acts[i], r);
      }
    }
  }

  lemma CollectQueues(s: State, c: Id, order: seq<Id>, r: Id)
    requires Inv(s) && Enabled(s, Collect(c, order))
    ensures At(Step(s, Collect(c, order)).place, r, Queued(c)) <==> r in TableOf(s.tables, c)
    ensures r in TableOf(s.tables, c) ==> At(s.place, r, InTable(c))
  {
    assert QueueOf(s.loops, c) == [];
  }
}
