/** Runs that show what the delivery protocol does not promise. */
module DeliveryExamples {
  import opened Delivery
  import opened DeliveryGuarantees
  import opened Ids
  import opened Options
  import opened Runs

  const CLIENT: Id := 1
  const REQUEST: Id := 7

  ghost predicate CanBe(s: State) {
    Reachable(START, Follows, s)
  }

  lemma Reach(s: State, a: Action, t: State)
    requires CanBe(s) && Follows(s, a, t)
    ensures CanBe(t)
  {
    ReachOn(START, Follows, s, a, t);
  }

  // ----------------------------------------------------------------- the common beginning

  function Alone(): State {
    State({CLIENT}, {}, map[CLIENT := 0], {CLIENT}, map[CLIENT := {}], map[CLIENT := Reading],
          [], map[], map[], {}, {}, {})
  }

  /** One client that is read, and one request at phase `ph` of its call. */
  function Early(inflight: int, ph: Phase, sent: set<Id>, acked: set<Id>): State {
    State({CLIENT}, {}, map[CLIENT := inflight], {CLIENT}, map[CLIENT := {}], map[CLIENT := Reading],
          [Exec(REQUEST, false, None, ph)], map[REQUEST := false], map[REQUEST := With(0)], sent, {}, acked)
  }

  lemma Dispatched()
    ensures CanBe(Early(1, Reporting(CLIENT, Done), {REQUEST}, {}))
  {
    StartIsReachable(START, Follows);
    assert START.inflight[CLIENT := 0] == map[CLIENT := 0];
    Reach(START, AddClient(CLIENT), Alone());
    Reach(Alone(), Begin(REQUEST, false), Early(0, Picking(0), {}, {}));
    Reach(Early(0, Picking(0), {}, {}), Pick(0, CLIENT), Early(1, Sending(CLIENT), {}, {}));
    Reach(Early(1, Sending(CLIENT), {}, {}), Send(0, true), Early(1, Reporting(CLIENT, Done), {REQUEST}, {}));
  }

  // ---------------------------------------------------------------------- a request lost

  /** The client's loop has detached its table before the request was tracked. */
  function Late(ph: Phase, p: Place): State {
    State({CLIENT}, {}, map[CLIENT := 0], {}, map[CLIENT := {}], map[CLIENT := Draining],
          [Exec(REQUEST, false, None, ph)], map[REQUEST := false], map[REQUEST := p], {REQUEST}, {}, {})
  }

  lemma CanFail(sent: set<Id>)
    requires sent == {REQUEST}
    ensures Follows(Early(0, Tracking(CLIENT), sent, {}), ReadFails(CLIENT), Late(Tracking(CLIENT), With(0)))
  {
  }

  lemma CanDrop()
    ensures Follows(Late(Tracking(CLIENT), With(0)), TrackLoad(0), Late(Finished, Ended(Dropped)))
  {
  }

  /**
   A request can be lost: sent, never acknowledged, and neither with a call nor in a
   table or queue. The connection failed between the send and the tracking.
   */
  lemma ARequestCanBeLost()
    ensures exists s :: CanBe(s) && REQUEST in s.sent && REQUEST !in s.acked && At(s.place, REQUEST, Ended(Dropped))
  {
    Dispatched();
    var sent := {REQUEST};
    Reach(Early(1, Reporting(CLIENT, Done), sent, {}), Report(0), Early(0, Tracking(CLIENT), sent, {}));
    CanFail(sent);
    Reach(Early(0, Tracking(CLIENT), sent, {}), ReadFails(CLIENT), Late(Tracking(CLIENT), With(0)));
    CanDrop();
    Reach(Late(Tracking(CLIENT), With(0)), TrackLoad(0), Late(Finished, Ended(Dropped)));
    assert At(Late(Finished, Ended(Dropped)).place, REQUEST, Ended(Dropped));
  }

  // --------------------------------------------- an acknowledged request sent a second time

  function Tracked(l: Loop, attached: set<Id>, p: Place): State {
    State({CLIENT}, {}, map[CLIENT := 0], attached, map[CLIENT := {REQUEST}], map[CLIENT := l],
          [Exec(REQUEST, false, None, Finished)], map[REQUEST := false], map[REQUEST := p], {REQUEST}, {}, {REQUEST})
  }

  function Again(inflight: int, ph: Phase): State {
    State({CLIENT}, {}, map[CLIENT := inflight], {}, map[CLIENT := {REQUEST}],
          map[CLIENT := Redispatching([], Some(1))],
          [Exec(REQUEST, false, None, Finished), Exec(REQUEST, false, Some(CLIENT), ph)],
          map[REQUEST := false], map[REQUEST := With(1)], {REQUEST}, {}, {REQUEST})
  }

  lemma CanStore(sent: set<Id>)
    requires sent == {REQUEST}
    ensures Follows(Early(0, Storing(CLIENT), sent, sent), TrackStore(0), Tracked(Reading, {CLIENT}, InTable(CLIENT)))
  {
    var tables: TableMap := map[CLIENT := {}];
    assert TableOf(tables, CLIENT) + {REQUEST} == {REQUEST};
    assert tables[CLIENT := {REQUEST}] == map[CLIENT := {REQUEST}];
  }

  /** The ACK came before the tracking, so the request is tracked although it is done. */
  lemma AckedButTracked()
    ensures CanBe(Tracked(Reading, {CLIENT}, InTable(CLIENT)))
  {
    Dispatched();
    var sent := {REQUEST};
    Reach(Early(1, Reporting(CLIENT, Done), sent, {}), Ack(CLIENT, REQUEST), Early(1, Reporting(CLIENT, Done), sent, sent));
    Reach(Early(1, Reporting(CLIENT, Done), sent, sent), Report(0), Early(0, Tracking(CLIENT), sent, sent));
    Reach(Early(0, Tracking(CLIENT), sent, sent), TrackLoad(0), Early(0, Storing(CLIENT), sent, sent));
    CanStore(sent);
    Reach(Early(0, Storing(CLIENT), sent, sent), TrackStore(0), Tracked(Reading, {CLIENT}, InTable(CLIENT)));
  }

  lemma AckedAndQueued()
    ensures CanBe(Tracked(Redispatching([REQUEST], None), {}, Queued(CLIENT)))
  {
    AckedButTracked();
    Reach(Tracked(Reading, {CLIENT}, InTable(CLIENT)), ReadFails(CLIENT), Tracked(Draining, {}, InTable(CLIENT)));
    CanCollect();
    Reach(Tracked(Draining, {}, InTable(CLIENT)), Collect(CLIENT, [REQUEST]),
          Tracked(Redispatching([REQUEST], None), {}, Queued(CLIENT)));
  }

  lemma CanRedispatch()
    ensures Follows(Tracked(Redispatching([REQUEST], None), {}, Queued(CLIENT)), Redispatch(CLIENT), Again(0, Picking(0)))
  {
    assert [REQUEST][1..] == [];
  }

  lemma CanPickTheDead()
    ensures Follows(Again(0, Picking(0)), Pick(1, CLIENT), Again(1, Sending(CLIENT)))
  {
  }

  /**
   An acknowledged request can be dispatched again, and to the very client whose
   connection failed: it is still registered while its requests are redispatched.
   */
  lemma AnAckedRequestCanGoToTheDeadClient()
    ensures exists s :: CanBe(s) && REQUEST in s.acked && !Live(s.loops, CLIENT)
              && |s.execs| == 2 && s.execs[1] == Exec(REQUEST, false, Some(CLIENT), Sending(CLIENT))
  {
    AckedAndQueued();
    CanRedispatch();
    Reach(Tracked(Redispatching([REQUEST], None), {}, Queued(CLIENT)), Redispatch(CLIENT), Again(0, Picking(0)));
    CanPickTheDead();
    Reach(Again(0, Picking(0)), Pick(1, CLIENT), Again(1, Sending(CLIENT)));
  }

  lemma CanCollect()
    ensures Follows(Tracked(Draining, {}, InTable(CLIENT)), Collect(CLIENT, [REQUEST]),
                    Tracked(Redispatching([REQUEST], None), {}, Queued(CLIENT)))
  {
  }

  // ------------------------------------------- a synchronous request written and rejected

  function Asked(inflight: int, ph: Phase, place: Place, sent: set<Id>, expired: set<Id>): State {
    State({CLIENT}, {}, map[CLIENT := inflight], {CLIENT}, map[CLIENT := {}], map[CLIENT := Reading],
          [Exec(REQUEST, true, None, ph)], map[REQUEST := true], map[REQUEST := place], sent, expired, {})
  }

  lemma AskedAndWritten()
    ensures CanBe(Asked(1, Awaiting(CLIENT), With(0), {REQUEST}, {}))
  {
    StartIsReachable(START, Follows);
    assert START.inflight[CLIENT := 0] == map[CLIENT := 0];
    Reach(START, AddClient(CLIENT), Alone());
    Reach(Alone(), Begin(REQUEST, true), Asked(0, Picking(0), With(0), {}, {}));
    Reach(Asked(0, Picking(0), With(0), {}, {}), Pick(0, CLIENT), Asked(1, Sending(CLIENT), With(0), {}, {}));
    Reach(Asked(1, Sending(CLIENT), With(0), {}, {}), Send(0, true), Asked(1, Awaiting(CLIENT), With(0), {REQUEST}, {}));
  }

  /** The caller of a synchronous request can get an error although the request was written, and may be executing. */
  lemma ARejectedRequestCanBeWritten()
    ensures exists s :: CanBe(s) && REQUEST in s.sent && At(s.place, REQUEST, Ended(Rejected))
  {
    AskedAndWritten();
    var r := {REQUEST};
    Reach(Asked(1, Awaiting(CLIENT), With(0), r, {}), Await(0, false), Asked(1, Reporting(CLIENT, Expired), With(0), r, r));
    Reach(Asked(1, Reporting(CLIENT, Expired), With(0), r, r), Report(0), Asked(0, Finished, Ended(Rejected), r, r));
    assert At(Asked(0, Finished, Ended(Rejected), r, r).place, REQUEST, Ended(Rejected));
  }
}
