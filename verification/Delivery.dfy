/**
 Delivery of requests to workers: the calls of `Execute` and `ExecuteSync`, and the
 `Run` loop of every client, interleaved step by step over one client manager.
 */
module Delivery {
  import opened Ids
  import opened Options
  import opened Runs

  const MAX_RETRY_PICK_CLIENT: nat := 3

  /** Where a call of `Execute` or `ExecuteSync` has got to. */
  datatype Phase =
    | Picking(tries: nat)
    | Sending(to: Id)
    | Awaiting(to: Id)               // has written a synchronous request, waits for its result
    | Reporting(to: Id, verdict: Verdict) // about to tell the balancer how it went
    | Tracking(to: Id)               // about to look up the client's pending table
    | Storing(to: Id)                // has the table, about to store in it
    | Finished

  /** How a dispatch went: done, not written, or written without a readable result in time. */
  datatype Verdict = Done | Unwritten | Expired

  /** `from` is the client whose `Run` loop redispatches the request, if one does. */
  datatype Exec = Exec(req: Id, sync: bool, from: Option<Id>, phase: Phase)

  /** Where the `Run` loop of a client has got to. */
  datatype Loop =
    | Reading
    | Draining                                         // has detached the table
    | Redispatching(queue: seq<Id>, busy: Option<nat>) // `busy` is the call it waits for
    | Exited

  datatype Outcome =
    | Rejected      // the caller got an error
    | Answered      // a synchronous request returned
    | Confirmed     // an ACK removed it
    | Dropped       // gone without a trace

  datatype Place = With(e: nat) | InTable(c: Id) | Queued(c: Id) | Ended(how: Outcome)

  datatype State = State(
    clients: set<Id>,                // registered with the manager
    closed: set<Id>,                 // clients whose connection is marked closed
    inflight: map<Id, int>,          // the balancer's nodes
    attached: set<Id>,               // keys of pendingReqs
    tables: map<Id, set<Id>>,        // every pending table made, attached or not
    loops: map<Id, Loop>,            // every client ever added
    execs: seq<Exec>,
    // history, read by no step
    asked: map<Id, bool>,            // every request, and whether it is synchronous
    place: map<Id, Place>,
    sent: set<Id>,                   // requests that were written to a client
    expired: set<Id>,                // synchronous requests written whose wait ended without a result
    acked: set<Id>)

  const START: State := State({}, {}, map[], {}, map[], map[], [], map[], map[], {}, {}, {})

  datatype Action =
    | AddClient(c: Id)
    | Begin(r: Id, sync: bool)
    | Pick(e: nat, c: Id)            // the balancer returns `c`
    | NoClient(e: nat)               // the balancer is empty
    | Send(e: nat, ok: bool)
    | Await(e: nat, answered: bool)  // a readable result comes in time, or none does
    | Report(e: nat)
    | TrackLoad(e: nat)
    | TrackStore(e: nat)
    | Ack(c: Id, r: Id)              // `c` acknowledges `r`, rightly or not
    | MarkClosed(c: Id)              // the heartbeat gives the connection up
    | ReadFails(c: Id)
    | Collect(c: Id, order: seq<Id>)
    | Redispatch(c: Id)
    | Leave(c: Id, closes: bool)     // the deferred RemoveClient

  predicate IsCall(s: State, e: nat) {
    e < |s.execs|
  }

  predicate IsListOf(q: seq<Id>, rs: set<Id>) {
    && (forall i :: 0 <= i < |q| ==> q[i] in rs)
    && (forall r :: r in rs ==> r in q)
    && NoRepeats(q)
  }

  predicate Enabled(s: State, a: Action) {
    match a
    case AddClient(c) => c !in s.loops
    case Begin(r, _) => r !in s.asked
    case Pick(e, c) => IsCall(s, e) && s.execs[e].phase.Picking? && c in s.inflight
    case NoClient(e) => IsCall(s, e) && s.execs[e].phase.Picking? && |s.inflight| == 0
    case Send(e, _) => IsCall(s, e) && s.execs[e].phase.Sending?
    case Await(e, _) => IsCall(s, e) && s.execs[e].phase.Awaiting?
    case Report(e) => IsCall(s, e) && s.execs[e].phase.Reporting?
    case TrackLoad(e) => IsCall(s, e) && s.execs[e].phase.Tracking?
    case TrackStore(e) => IsCall(s, e) && s.execs[e].phase.Storing?
    case Ack(c, _) => c in s.loops && s.loops[c].Reading?
    case MarkClosed(c) => c in s.loops
    case ReadFails(c) => c in s.loops && s.loops[c].Reading?
    case Collect(c, order) => c in s.loops && s.loops[c].Draining? && c in s.tables && IsListOf(order, s.tables[c])
    case Redispatch(c) =>
      c in s.loops && s.loops[c].Redispatching? && s.loops[c].queue != [] && s.loops[c].busy.None?
    case Leave(c, _) =>
      c in s.loops && s.loops[c].Redispatching? && s.loops[c].queue == [] && s.loops[c].busy.None?
  }

  // -------------------------------------------------------------------- the pieces of a step

  /** Call `e` goes on to phase `ph`. */
  function Now(s: State, e: nat, ph: Phase): State
    requires IsCall(s, e)
  {
    s.(execs := s.execs[e := s.execs[e].(phase := ph)])
  }

  function Idle(loops: map<Id, Loop>, from: Option<Id>): map<Id, Loop> {
    if from.Some? && from.value in loops && loops[from.value].Redispatching?
    then loops[from.value := loops[from.value].(busy := None)]
    else loops
  }

  /** Call `e` returns, leaving its request at `p`. */
  function Return(s: State, e: nat, p: Place): State
    requires IsCall(s, e)
  {
    Now(s, e, Finished).(place := s.place[s.execs[e].req := p], loops := Idle(s.loops, s.execs[e].from))
  }

  /** Call `e` returns an error: to the caller, or to a redispatch loop that only logs it. */
  function Fail(s: State, e: nat): State
    requires IsCall(s, e)
  {
    Return(s, e, Ended(if s.execs[e].from.None? then Rejected else Dropped))
  }

  /** The client leaves the manager and the balancer. */
  function Evict(s: State, c: Id): State {
    s.(clients := s.clients - {c}, inflight := s.inflight - {c})
  }

  function Retry(s: State, e: nat, tries: nat): State
    requires IsCall(s, e)
  {
    if tries + 1 < MAX_RETRY_PICK_CLIENT then Now(s, e, Picking(tries + 1)) else Fail(s, e)
  }

  function PickStep(s: State, e: nat, c: Id): State
    requires Enabled(s, Pick(e, c))
  {
    if c !in s.clients || c in s.closed then Retry(Evict(s, c), e, s.execs[e].phase.tries)
    else Now(s, e, Sending(c)).(inflight := s.inflight[c := s.inflight[c] + 1])
  }

  /** A synchronous call goes on to wait for its result, any other is done with the write. */
  function SendStep(s: State, e: nat, ok: bool): State
    requires Enabled(s, Send(e, ok))
  {
    var c := s.execs[e].phase.to;
    if !ok then Now(s, e, Reporting(c, Unwritten))
    else Now(s, e, if s.execs[e].sync then Awaiting(c) else Reporting(c, Done)).(sent := s.sent + {s.execs[e].req})
  }

  function AwaitStep(s: State, e: nat, answered: bool): State
    requires Enabled(s, Await(e, answered))
  {
    var c := s.execs[e].phase.to;
    if answered then Now(s, e, Reporting(c, Done))
    else Now(s, e, Reporting(c, Expired)).(expired := s.expired + {s.execs[e].req})
  }

  /** What the call does after its report to the balancer. */
  function Conclude(s: State, e: nat, c: Id, verdict: Verdict): State
    requires IsCall(s, e)
  {
    if !verdict.Done? then Fail(s, e)
    else if s.execs[e].sync then Return(s, e, Ended(Answered))
    else Now(s, e, Tracking(c))
  }

  function ReportStep(s: State, e: nat): State
    requires Enabled(s, Report(e))
  {
    var Reporting(c, verdict) := s.execs[e].phase;
    Conclude(if c in s.inflight then s.(inflight := s.inflight[c := s.inflight[c] - 1]) else s, e, c, verdict)
  }

  function TrackLoadStep(s: State, e: nat): State
    requires Enabled(s, TrackLoad(e))
  {
    var c := s.execs[e].phase.to;
    if c in s.attached then Now(s, e, Storing(c)) else Return(s, e, Ended(Dropped))
  }

  /** The entries of the table of `c` are still to be collected. */
  predicate Live(loops: map<Id, Loop>, c: Id) {
    c in loops && (loops[c].Reading? || loops[c].Draining?)
  }

  function TrackStoreStep(s: State, e: nat): State
    requires Enabled(s, TrackStore(e))
  {
    var c, r := s.execs[e].phase.to, s.execs[e].req;
    var t := s.(tables := s.tables[c := TableOf(s.tables, c) + {r}]);
    if Live(s.loops, c) then Return(t, e, InTable(c))
    else Return(t, e, Ended(Dropped))
  }

  function TableOf(tables: map<Id, set<Id>>, c: Id): set<Id> {
    if c in tables then tables[c] else {}
  }

  function AckStep(s: State, c: Id, r: Id): State {
    var t := s.(acked := s.acked + {r});
    if c in s.attached && r in TableOf(s.tables, c) then
      t.(tables := s.tables[c := TableOf(s.tables, c) - {r}], place := s.place[r := Ended(Confirmed)])
    else t
  }

  function RedispatchStep(s: State, c: Id): State
    requires Enabled(s, Redispatch(c))
  {
    var r, e := s.loops[c].queue[0], |s.execs|;
    s.(execs := s.execs + [Exec(r, false, Some(c), Picking(0))],
       loops := s.loops[c := Redispatching(s.loops[c].queue[1..], Some(e))],
       place := s.place[r := With(e)])
  }

  function LeaveStep(s: State, c: Id, closes: bool): State
    requires Enabled(s, Leave(c, closes))
  {
    var t := s.(loops := s.loops[c := Exited]);
    if c !in s.clients then t
    else if c in s.closed || closes then Evict(t, c).(closed := s.closed + {c})
    else t.(closed := s.closed + {c})
  }

  function CollectStep(s: State, c: Id, order: seq<Id>): State
    requires Enabled(s, Collect(c, order))
  {
    s.(loops := s.loops[c := Redispatching(order, None)],
       place := map r | r in s.place :: if r in s.tables[c] then Queued(c) else s.place[r])
  }

  function Step(s: State, a: Action): State
    requires Enabled(s, a)
  {
    match a
    case AddClient(c) =>
      s.(clients := s.clients + {c}, inflight := s.inflight[c := 0], attached := s.attached + {c},
         tables := s.tables[c := {}], loops := s.loops[c := Reading])
    case Begin(r, sync) =>
      s.(execs := s.execs + [Exec(r, sync, None, Picking(0))],
         asked := s.asked[r := sync], place := s.place[r := With(|s.execs|)])
    case Pick(e, c) => PickStep(s, e, c)
    case NoClient(e) => Fail(s, e)
    case Send(e, ok) => SendStep(s, e, ok)
    case Await(e, answered) => AwaitStep(s, e, answered)
    case Report(e) => ReportStep(s, e)
    case TrackLoad(e) => TrackLoadStep(s, e)
    case TrackStore(e) => TrackStoreStep(s, e)
    case Ack(c, r) => AckStep(s, c, r)
    case MarkClosed(c) => s.(closed := s.closed + {c})
    case ReadFails(c) => s.(attached := s.attached - {c}, loops := s.loops[c := Draining])
    case Collect(c, order) => CollectStep(s, c, order)
    case Redispatch(c) => RedispatchStep(s, c)
    case Leave(c, closes) => LeaveStep(s, c, closes)
  }

  lemma ConcludeLeaves(s: State, e: nat, c: Id, verdict: Verdict)
    requires IsCall(s, e)
    ensures var t := Conclude(s, e, c, verdict);
      t.clients == s.clients && t.acked == s.acked && t.expired == s.expired
  {
  }

  /** A report neither removes a client nor ends a wait nor acknowledges. */
  lemma ReportLeaves(s: State, e: nat)
    requires Enabled(s, Report(e))
    ensures var t := ReportStep(s, e);
      t.clients == s.clients && t.acked == s.acked && t.expired == s.expired
  {
    var Reporting(c, verdict) := s.execs[e].phase;
    ConcludeLeaves(if c in s.inflight then s.(inflight := s.inflight[c := s.inflight[c] - 1]) else s, e, c, verdict);
  }

  // ------------------------------------------------------------------------- the invariant

  predicate Active(x: Exec) {
    !x.phase.Finished?
  }

  /** The balancer knows exactly the registered clients. */
  predicate Index(clients: set<Id>, inflight: map<Id, int>, loops: map<Id, Loop>) {
    inflight.Keys == clients <= loops.Keys
  }

  /** Every client has had a table, attached while the client is read. */
  ghost predicate Attachment(attached: set<Id>, tables: map<Id, set<Id>>, loops: map<Id, Loop>) {
    && tables.Keys == loops.Keys
    && forall c :: c in attached <==> c in loops && loops[c].Reading?
  }

  predicate At(place: map<Id, Place>, r: Id, p: Place) {
    r in place && place[r] == p
  }

  /** A call at work has its request, and a request with a call is that call's. */
  predicate Calls(execs: seq<Exec>, place: map<Id, Place>) {
    && (forall e :: 0 <= e < |execs| && Active(execs[e]) ==> At(place, execs[e].req, With(e)))
    && (forall r :: r in place && place[r].With? ==> WorksFor(execs, place[r].e, r))
  }

  predicate WorksFor(execs: seq<Exec>, e: nat, r: Id) {
    e < |execs| && Active(execs[e]) && execs[e].req == r
  }

  /** Only asynchronous requests are tracked, queued or redispatched. */
  predicate Kinds(execs: seq<Exec>, asked: map<Id, bool>, place: map<Id, Place>) {
    && place.Keys == asked.Keys
    && (forall e :: 0 <= e < |execs| ==> Fits(execs[e], asked))
    && (forall r :: r in place && (place[r].InTable? || place[r].Queued?) ==> !asked[r])
  }

  predicate Fits(x: Exec, asked: map<Id, bool>) {
    && x.req in asked && asked[x.req] == x.sync
    && (x.from.Some? || x.phase.Tracking? || x.phase.Storing? ==> !x.sync)
    && (x.phase.Awaiting? ==> x.sync)
  }

  predicate Targets(execs: seq<Exec>, loops: map<Id, Loop>) {
    forall e :: 0 <= e < |execs| ==> Aimed(execs[e], loops)
  }

  predicate Aimed(x: Exec, loops: map<Id, Loop>) {
    Active(x) && !x.phase.Picking? ==> x.phase.to in loops
  }

  /** What a live table holds is at that table, and a request at a table is in it. */
  ghost predicate Tables(tables: map<Id, set<Id>>, loops: map<Id, Loop>, place: map<Id, Place>) {
    && (forall c, r :: Live(loops, c) && r in TableOf(tables, c) ==> At(place, r, InTable(c)))
    && (forall r :: r in place && place[r].InTable? ==>
          Live(loops, place[r].c) && r in TableOf(tables, place[r].c))
  }

  function QueueOf(loops: map<Id, Loop>, c: Id): seq<Id> {
    if c in loops && loops[c].Redispatching? then loops[c].queue else []
  }

  ghost predicate Queues(loops: map<Id, Loop>, place: map<Id, Place>) {
    && (forall c, r :: r in QueueOf(loops, c) ==> At(place, r, Queued(c)))
    && (forall c :: c in loops ==> NoRepeats(QueueOf(loops, c)))
    && (forall r :: r in place && place[r].Queued? ==> r in QueueOf(loops, place[r].c))
  }

  predicate BusyWith(loops: map<Id, Loop>, c: Id, e: nat) {
    c in loops && loops[c].Redispatching? && loops[c].busy == Some(e)
  }

  /** A redispatch loop waits for exactly the calls made from it. */
  predicate Loops(execs: seq<Exec>, loops: map<Id, Loop>) {
    && (forall e :: 0 <= e < |execs| && Active(execs[e]) && execs[e].from.Some? ==>
          BusyWith(loops, execs[e].from.value, e))
    && (forall c :: c in loops && loops[c].Redispatching? && loops[c].busy.Some? ==>
          CalledFrom(execs, loops[c].busy.value, c))
  }

  predicate CalledFrom(execs: seq<Exec>, e: nat, c: Id) {
    e < |execs| && Active(execs[e]) && execs[e].from == Some(c)
  }

  // ------------------------------------------- what each kind of change keeps of the invariant

  type TableMap = map<Id, set<Id>>
  type LoopMap = map<Id, Loop>
  type PlaceMap = map<Id, Place>

  lemma TablesNewClient(tables: TableMap, loops: LoopMap, place: PlaceMap, c: Id)
    requires Tables(tables, loops, place) && c !in loops && c !in tables
    ensures Tables(tables[c := {}], loops[c := Reading], place)
  {
  }

  lemma TablesNewLoop(tables: TableMap, loops: LoopMap, place: PlaceMap, c: Id, l: Loop)
    requires Tables(tables, loops, place) && Live(loops[c := l], c) == Live(loops, c)
    ensures Tables(tables, loops[c := l], place)
  {
    assert forall d :: Live(loops[c := l], d) == Live(loops, d);
  }

  lemma TablesMove(tables: TableMap, loops: LoopMap, place: PlaceMap, r: Id, p: Place)
    requires Tables(tables, loops, place) && (r in place ==> !place[r].InTable?) && !p.InTable?
    ensures Tables(tables, loops, place[r := p])
  {
  }

  lemma TablesStore(tables: TableMap, loops: LoopMap, place: PlaceMap, c: Id, r: Id)
    requires Tables(tables, loops, place) && Live(loops, c) && (r in place ==> !place[r].InTable?)
    ensures Tables(tables[c := TableOf(tables, c) + {r}], loops, place[r := InTable(c)])
  {
    var after, moved := tables[c := TableOf(tables, c) + {r}], place[r := InTable(c)];
    forall d, q | Live(loops, d) && q in TableOf(after, d) ensures At(moved, q, InTable(d)) {
      assert q in TableOf(tables, d) || (d == c && q == r);
    }
    assert forall d, q :: q in TableOf(tables, d) ==> q in TableOf(after, d);
  }

  lemma TablesStoreDead(tables: TableMap, loops: LoopMap, place: PlaceMap, c: Id, rs: set<Id>)
    requires Tables(tables, loops, place) && !Live(loops, c)
    ensures Tables(tables[c := rs], loops, place)
  {
  }

  lemma TablesAck(tables: TableMap, loops: LoopMap, place: PlaceMap, c: Id, r: Id)
    requires Tables(tables, loops, place) && Live(loops, c) && r in TableOf(tables, c)
    ensures Tables(tables[c := TableOf(tables, c) - {r}], loops, place[r := Ended(Confirmed)])
  {
    var after, moved := tables[c := TableOf(tables, c) - {r}], place[r := Ended(Confirmed)];
    assert At(place, r, InTable(c));
    forall d, q | Live(loops, d) && q in TableOf(after, d) ensures At(moved, q, InTable(d)) {
      assert q in TableOf(tables, d) && (d == c ==> q != r);
      assert At(place, q, InTable(d));
    }
    assert forall d, q :: q in TableOf(tables, d) && q != r ==> q in TableOf(after, d);
  }

  function Collected(tables: TableMap, place: PlaceMap, c: Id): PlaceMap {
    map r | r in place :: if r in TableOf(tables, c) then Queued(c) else place[r]
  }

  lemma TablesCollect(tables: TableMap, loops: LoopMap, place: PlaceMap, c: Id, order: seq<Id>)
    requires Tables(tables, loops, place) && Live(loops, c)
    ensures Tables(tables, loops[c := Redispatching(order, None)], Collected(tables, place, c))
  {
    var after, moved := loops[c := Redispatching(order, None)], Collected(tables, place, c);
    forall d, r | Live(after, d) && r in TableOf(tables, d) ensures At(moved, r, InTable(d)) {
      assert Live(loops, d) && At(place, r, InTable(d));
      assert r in TableOf(tables, c) ==> At(place, r, InTable(c));
    }
  }

  lemma QueuesNewLoop(loops: LoopMap, place: PlaceMap, c: Id, l: Loop)
    requires Queues(loops, place) && QueueOf(loops[c := l], c) == QueueOf(loops, c)
    ensures Queues(loops[c := l], place)
  {
    assert forall d :: QueueOf(loops[c := l], d) == QueueOf(loops, d);
  }

  lemma QueuesMove(loops: LoopMap, place: PlaceMap, r: Id, p: Place)
    requires Queues(loops, place) && (r in place ==> !place[r].Queued?) && !p.Queued?
    ensures Queues(loops, place[r := p])
  {
  }

  lemma QueuesCollect(tables: TableMap, loops: LoopMap, place: PlaceMap, c: Id, order: seq<Id>)
    requires Queues(loops, place) && Tables(tables, loops, place) && Live(loops, c)
    requires IsListOf(order, TableOf(tables, c))
    ensures Queues(loops[c := Redispatching(order, None)], Collected(tables, place, c))
  {
    var after, moved := loops[c := Redispatching(order, None)], Collected(tables, place, c);
    assert QueueOf(after, c) == order;
    forall d, r | r in QueueOf(after, d) ensures At(moved, r, Queued(d)) {
      if d == c {
        assert r in TableOf(tables, c) && At(place, r, InTable(c));
      } else {
        assert QueueOf(after, d) == QueueOf(loops, d) && At(place, r, Queued(d));
        assert r in TableOf(tables, c) ==> At(place, r, InTable(c));
      }
    }
    forall r | r in moved && moved[r].Queued? ensures r in QueueOf(after, moved[r].c) {
      if r !in TableOf(tables, c) {
        assert r in QueueOf(loops, place[r].c);
      }
    }
  }

  lemma QueuesTake(loops: LoopMap, place: PlaceMap, c: Id, busy: Option<nat>, p: Place)
    requires Queues(loops, place) && c in loops && QueueOf(loops, c) != [] && !p.Queued?
    ensures Queues(loops[c := Redispatching(QueueOf(loops, c)[1..], busy)], place[QueueOf(loops, c)[0] := p])
  {
    var q := QueueOf(loops, c);
    var after, moved := loops[c := Redispatching(q[1..], busy)], place[q[0] := p];
    assert NoRepeats(q) && QueueOf(after, c) == q[1..];
    assert q[0] in q;
    forall d, r | r in QueueOf(after, d) ensures At(moved, r, Queued(d)) {
      assert d != c ==> QueueOf(after, d) == QueueOf(loops, d);
      assert r in QueueOf(loops, d);
    }
    forall r | r in moved && moved[r].Queued? ensures r in QueueOf(after, moved[r].c) {
      assert r in QueueOf(loops, place[r].c);
    }
  }

  lemma CallsBegin(execs: seq<Exec>, place: PlaceMap, x: Exec)
    requires Calls(execs, place) && Active(x) && (x.req in place ==> !place[x.req].With?)
    ensures Calls(execs + [x], place[x.req := With(|execs|)])
  {
    forall r | r in place && place[r].With? ensures WorksFor(execs + [x], place[r].e, r) {
      assert WorksFor(execs, place[r].e, r);
    }
  }

  lemma CallsNow(execs: seq<Exec>, place: PlaceMap, e: nat, x: Exec)
    requires Calls(execs, place) && e < |execs| && Active(execs[e]) && Active(x) && x.req == execs[e].req
    ensures Calls(execs[e := x], place)
  {
    forall r | r in place && place[r].With? ensures WorksFor(execs[e := x], place[r].e, r) {
      assert WorksFor(execs, place[r].e, r);
    }
  }

  lemma CallsReturn(execs: seq<Exec>, place: PlaceMap, e: nat, x: Exec, p: Place)
    requires Calls(execs, place) && e < |execs| && Active(execs[e]) && !Active(x) && !p.With?
    ensures Calls(execs[e := x], place[execs[e].req := p])
  {
    var q := place[execs[e].req := p];
    forall r | r in q && q[r].With? ensures WorksFor(execs[e := x], q[r].e, r) {
      assert WorksFor(execs, place[r].e, r);
      assert At(place, execs[e].req, With(e));
    }
  }

  lemma CallsMove(execs: seq<Exec>, place: PlaceMap, moved: PlaceMap)
    requires Calls(execs, place) && moved.Keys == place.Keys
    requires forall r :: r in place ==> moved[r] == place[r] || (!place[r].With? && !moved[r].With?)
    ensures Calls(execs, moved)
  {
    forall e | 0 <= e < |execs| && Active(execs[e]) ensures At(moved, execs[e].req, With(e)) {
      assert At(place, execs[e].req, With(e));
    }
  }

  lemma LoopsNow(execs: seq<Exec>, loops: LoopMap, e: nat, x: Exec)
    requires Loops(execs, loops) && e < |execs| && Active(execs[e]) && Active(x) && x.from == execs[e].from
    ensures Loops(execs[e := x], loops)
  {
    forall c | c in loops && loops[c].Redispatching? && loops[c].busy.Some?
      ensures CalledFrom(execs[e := x], loops[c].busy.value, c)
    {
      assert CalledFrom(execs, loops[c].busy.value, c);
    }
  }

  lemma LoopsReturn(execs: seq<Exec>, loops: LoopMap, e: nat, x: Exec)
    requires Loops(execs, loops) && e < |execs| && Active(execs[e]) && !Active(x)
    ensures Loops(execs[e := x], Idle(loops, execs[e].from))
  {
    var after, from := Idle(loops, execs[e].from), execs[e].from;
    forall f | 0 <= f < |execs| && f != e && Active(execs[f]) && execs[f].from.Some?
      ensures BusyWith(after, execs[f].from.value, f)
    {
      assert BusyWith(loops, execs[f].from.value, f);
      assert from.Some? ==> BusyWith(loops, from.value, e);
    }
    forall c | c in after && after[c].Redispatching? && after[c].busy.Some?
      ensures CalledFrom(execs[e := x], after[c].busy.value, c)
    {
      assert CalledFrom(execs, loops[c].busy.value, c);
      assert from.Some? ==> BusyWith(loops, from.value, e);
    }
  }

  lemma LoopsBegin(execs: seq<Exec>, loops: LoopMap, x: Exec)
    requires Loops(execs, loops) && Active(x) && x.from.None?
    ensures Loops(execs + [x], loops)
  {
    forall c | c in loops && loops[c].Redispatching? && loops[c].busy.Some?
      ensures CalledFrom(execs + [x], loops[c].busy.value, c)
    {
      assert CalledFrom(execs, loops[c].busy.value, c);
    }
  }

  lemma LoopsRedispatch(execs: seq<Exec>, loops: LoopMap, x: Exec, c: Id, q: seq<Id>)
    requires Loops(execs, loops) && Active(x) && x.from == Some(c)
    requires c in loops && loops[c].Redispatching? && loops[c].busy.None?
    ensures Loops(execs + [x], loops[c := Redispatching(q, Some(|execs|))])
  {
    var after := loops[c := Redispatching(q, Some(|execs|))];
    forall d | d in after && after[d].Redispatching? && after[d].busy.Some?
      ensures CalledFrom(execs + [x], after[d].busy.value, d)
    {
      if d != c {
        assert CalledFrom(execs, loops[d].busy.value, d);
      }
    }
    forall f | 0 <= f < |execs| && Active(execs[f]) && execs[f].from.Some?
      ensures BusyWith(after, execs[f].from.value, f)
    {
      assert BusyWith(loops, execs[f].from.value, f);
    }
  }

  /** A loop that waits for no call, before and after. */
  lemma LoopsFree(execs: seq<Exec>, loops: LoopMap, c: Id, l: Loop)
    requires Loops(execs, loops)
    requires c in loops && loops[c].Redispatching? ==> loops[c].busy.None?
    requires l.Redispatching? ==> l.busy.None?
    ensures Loops(execs, loops[c := l])
  {
    forall f | 0 <= f < |execs| && Active(execs[f]) && execs[f].from.Some?
      ensures BusyWith(loops[c := l], execs[f].from.value, f)
    {
      assert BusyWith(loops, execs[f].from.value, f);
    }
  }

  lemma KindsBegin(execs: seq<Exec>, asked: map<Id, bool>, place: PlaceMap, x: Exec, e: nat)
    requires Kinds(execs, asked, place) && Fits(x, asked)
    ensures Kinds(execs + [x], asked, place[x.req := With(e)])
  {
  }

  lemma KindsReturn(execs: seq<Exec>, asked: map<Id, bool>, place: PlaceMap, e: nat, p: Place)
    requires Kinds(execs, asked, place) && e < |execs| && !p.Queued?
    requires p.InTable? ==> !execs[e].sync
    ensures Kinds(execs[e := execs[e].(phase := Finished)], asked, place[execs[e].req := p])
  {
    assert Fits(execs[e], asked);
    assert Fits(execs[e].(phase := Finished), asked);
  }

  /** A client that was being drained or redispatched goes on in its loop. */
  lemma LoopGoesOn(execs: seq<Exec>, attached: set<Id>, tables: TableMap, loops: LoopMap, c: Id, l: Loop)
    requires Targets(execs, loops) && Attachment(attached, tables, loops)
    requires c in loops && !loops[c].Reading? && !l.Reading?
    ensures Targets(execs, loops[c := l]) && Attachment(attached, tables, loops[c := l])
  {
    assert loops[c := l].Keys == loops.Keys;
    forall e | 0 <= e < |execs| ensures Aimed(execs[e], loops[c := l]) {
      assert Aimed(execs[e], loops);
    }
  }

  // ---------------------------------------------------------------- every step keeps it

  ghost predicate Inv(s: State) {
    && Index(s.clients, s.inflight, s.loops)
    && Attachment(s.attached, s.tables, s.loops)
    && Calls(s.execs, s.place)
    && Kinds(s.execs, s.asked, s.place)
    && Targets(s.execs, s.loops)
    && Tables(s.tables, s.loops, s.place)
    && Queues(s.loops, s.place)
    && Loops(s.execs, s.loops)
  }

  lemma AddClientKeeps(s: State, c: Id)
    requires Inv(s) && Enabled(s, AddClient(c))
    ensures Inv(Step(s, AddClient(c)))
  {
    TablesNewClient(s.tables, s.loops, s.place, c);
    QueuesNewLoop(s.loops, s.place, c, Reading);
    LoopsFree(s.execs, s.loops, c, Reading);
  }

  lemma BeginKeeps(s: State, r: Id, sync: bool)
    requires Inv(s) && Enabled(s, Begin(r, sync))
    ensures Inv(Step(s, Begin(r, sync)))
  {
    var x := Exec(r, sync, None, Picking(0));
    CallsBegin(s.execs, s.place, x);
    TablesMove(s.tables, s.loops, s.place, r, With(|s.execs|));
    QueuesMove(s.loops, s.place, r, With(|s.execs|));
    LoopsBegin(s.execs, s.loops, x);
  }

  lemma NowKeeps(s: State, e: nat, ph: Phase)
    requires Inv(s) && IsCall(s, e) && Active(s.execs[e]) && !ph.Finished?
    requires !ph.Picking? ==> ph.to in s.loops
    requires ph.Tracking? || ph.Storing? ==> !s.execs[e].sync
    requires ph.Awaiting? ==> s.execs[e].sync
    ensures Inv(Now(s, e, ph))
  {
    var x := s.execs[e].(phase := ph);
    CallsNow(s.execs, s.place, e, x);
    LoopsNow(s.execs, s.loops, e, x);
  }

  lemma ReturnKeeps(s: State, e: nat, how: Outcome)
    requires Inv(s) && IsCall(s, e) && Active(s.execs[e])
    ensures Inv(Return(s, e, Ended(how)))
  {
    var x := s.execs[e].(phase := Finished);
    assert At(s.place, x.req, With(e));
    CallsReturn(s.execs, s.place, e, x, Ended(how));
    LoopsReturn(s.execs, s.loops, e, x);
    IdleKeeps(s.tables, s.loops, s.place, x.from);
    TablesMove(s.tables, Idle(s.loops, x.from), s.place, x.req, Ended(how));
    QueuesMove(Idle(s.loops, x.from), s.place, x.req, Ended(how));
  }

  lemma IdleGoesOn(execs: seq<Exec>, attached: set<Id>, tables: TableMap, loops: LoopMap, from: Option<Id>)
    requires Targets(execs, loops) && Attachment(attached, tables, loops)
    ensures Targets(execs, Idle(loops, from)) && Attachment(attached, tables, Idle(loops, from))
  {
    if Idle(loops, from) != loops {
      LoopGoesOn(execs, attached, tables, loops, from.value, Idle(loops, from)[from.value]);
    }
  }

  lemma FinishKeepsTargets(execs: seq<Exec>, loops: LoopMap, e: nat)
    requires Targets(execs, loops) && e < |execs|
    ensures Targets(execs[e := execs[e].(phase := Finished)], loops)
  {
  }

  lemma StoreKeepsAttachment(attached: set<Id>, tables: TableMap, loops: LoopMap, c: Id, rs: set<Id>)
    requires Attachment(attached, tables, loops) && c in loops
    ensures Attachment(attached, tables[c := rs], loops)
  {
    assert tables[c := rs].Keys == tables.Keys + {c};
  }

  lemma StoreLiveKeeps(s: State, e: nat)
    requires Inv(s) && Enabled(s, TrackStore(e)) && Live(s.loops, s.execs[e].phase.to)
    ensures Inv(Step(s, TrackStore(e)))
  {
    var x, c := s.execs[e].(phase := Finished), s.execs[e].phase.to;
    assert At(s.place, x.req, With(e)) && Fits(s.execs[e], s.asked);
    CallsReturn(s.execs, s.place, e, x, InTable(c));
    KindsReturn(s.execs, s.asked, s.place, e, InTable(c));
    LoopsReturn(s.execs, s.loops, e, x);
    IdleKeeps(s.tables, s.loops, s.place, x.from);
    IdleGoesOn(s.execs, s.attached, s.tables, s.loops, x.from);
    FinishKeepsTargets(s.execs, Idle(s.loops, x.from), e);
    StoreKeepsAttachment(s.attached, s.tables, Idle(s.loops, x.from), c, TableOf(s.tables, c) + {x.req});
    TablesStore(s.tables, Idle(s.loops, x.from), s.place, c, x.req);
    QueuesMove(Idle(s.loops, x.from), s.place, x.req, InTable(c));
  }

  lemma TrackStoreKeeps(s: State, e: nat)
    requires Inv(s) && Enabled(s, TrackStore(e))
    ensures Inv(Step(s, TrackStore(e)))
  {
    var c, r := s.execs[e].phase.to, s.execs[e].req;
    assert Aimed(s.execs[e], s.loops);
    if Live(s.loops, c) {
      StoreLiveKeeps(s, e);
    } else {
      TablesStoreDead(s.tables, s.loops, s.place, c, TableOf(s.tables, c) + {r});
      ReturnKeeps(s.(tables := s.tables[c := TableOf(s.tables, c) + {r}]), e, Dropped);
    }
  }

  lemma AckKeeps(s: State, c: Id, r: Id)
    requires Inv(s) && Enabled(s, Ack(c, r))
    ensures Inv(Step(s, Ack(c, r)))
  {
    if r in TableOf(s.tables, c) {
      assert At(s.place, r, InTable(c));
      TablesAck(s.tables, s.loops, s.place, c, r);
      QueuesMove(s.loops, s.place, r, Ended(Confirmed));
      CallsMove(s.execs, s.place, s.place[r := Ended(Confirmed)]);
    }
  }

  lemma ReadFailsKeeps(s: State, c: Id)
    requires Inv(s) && Enabled(s, ReadFails(c))
    ensures Inv(Step(s, ReadFails(c)))
  {
    TablesNewLoop(s.tables, s.loops, s.place, c, Draining);
    QueuesNewLoop(s.loops, s.place, c, Draining);
    LoopsFree(s.execs, s.loops, c, Draining);
  }

  lemma CollectKeeps(s: State, c: Id, order: seq<Id>)
    requires Inv(s) && Enabled(s, Collect(c, order))
    ensures Inv(Step(s, Collect(c, order)))
  {
    var moved := Collected(s.tables, s.place, c);
    TablesCollect(s.tables, s.loops, s.place, c, order);
    QueuesCollect(s.tables, s.loops, s.place, c, order);
    LoopsFree(s.execs, s.loops, c, Redispatching(order, None));
    forall r | r in TableOf(s.tables, c) ensures At(s.place, r, InTable(c)) {
    }
    CallsMove(s.execs, s.place, moved);
  }

  lemma RedispatchKeeps(s: State, c: Id)
    requires Inv(s) && Enabled(s, Redispatch(c))
    ensures Inv(Step(s, Redispatch(c)))
  {
    RedispatchKeepsCalls(s, c);
    RedispatchKeepsTables(s, c);
  }

  lemma RedispatchKeepsCalls(s: State, c: Id)
    requires Inv(s) && Enabled(s, Redispatch(c))
    ensures var t := RedispatchStep(s, c);
      Calls(t.execs, t.place) && Kinds(t.execs, t.asked, t.place) && Loops(t.execs, t.loops)
  {
    var q, e := QueueOf(s.loops, c), |s.execs|;
    var x := Exec(q[0], false, Some(c), Picking(0));
    assert q[0] in q && At(s.place, q[0], Queued(c));
    CallsBegin(s.execs, s.place, x);
    LoopsRedispatch(s.execs, s.loops, x, c, q[1..]);
    KindsBegin(s.execs, s.asked, s.place, x, e);
  }

  lemma RedispatchKeepsTables(s: State, c: Id)
    requires Inv(s) && Enabled(s, Redispatch(c))
    ensures var t := RedispatchStep(s, c);
      && Index(t.clients, t.inflight, t.loops) && Attachment(t.attached, t.tables, t.loops)
      && Targets(t.execs, t.loops) && Tables(t.tables, t.loops, t.place) && Queues(t.loops, t.place)
  {
    var q, e := QueueOf(s.loops, c), |s.execs|;
    assert q[0] in q && At(s.place, q[0], Queued(c));
    QueuesTake(s.loops, s.place, c, Some(e), With(e));
    TablesNewLoop(s.tables, s.loops, s.place, c, Redispatching(q[1..], Some(e)));
    TablesMove(s.tables, s.loops[c := Redispatching(q[1..], Some(e))], s.place, q[0], With(e));
    LoopGoesOn(s.execs, s.attached, s.tables, s.loops, c, Redispatching(q[1..], Some(e)));
  }

  lemma LeaveKeeps(s: State, c: Id, closes: bool)
    requires Inv(s) && Enabled(s, Leave(c, closes))
    ensures Inv(Step(s, Leave(c, closes)))
  {
    LeftKeeps(s, c);
    EvictKeeps(s.(loops := s.loops[c := Exited]), c);
  }

  lemma LeftKeeps(s: State, c: Id)
    requires Inv(s) && c in s.loops && s.loops[c].Redispatching? && s.loops[c].queue == [] && s.loops[c].busy.None?
    ensures Inv(s.(loops := s.loops[c := Exited]))
  {
    LoopGoesOn(s.execs, s.attached, s.tables, s.loops, c, Exited);
    TablesNewLoop(s.tables, s.loops, s.place, c, Exited);
    QueuesNewLoop(s.loops, s.place, c, Exited);
    LoopsFree(s.execs, s.loops, c, Exited);
  }

  lemma IdleKeeps(tables: TableMap, loops: LoopMap, place: PlaceMap, from: Option<Id>)
    requires Tables(tables, loops, place) && Queues(loops, place)
    ensures Tables(tables, Idle(loops, from), place) && Queues(Idle(loops, from), place)
  {
    if Idle(loops, from) != loops {
      var l := Idle(loops, from)[from.value];
      TablesNewLoop(tables, loops, place, from.value, l);
      QueuesNewLoop(loops, place, from.value, l);
    }
  }

  lemma EvictKeeps(s: State, c: Id)
    requires Inv(s)
    ensures Inv(Evict(s, c))
  {
  }

  lemma PickKeeps(s: State, e: nat, c: Id)
    requires Inv(s) && Enabled(s, Pick(e, c))
    ensures Inv(Step(s, Pick(e, c)))
  {
    if c !in s.clients || c in s.closed {
      EvictKeeps(s, c);
      ReturnKeeps(Evict(s, c), e, if s.execs[e].from.None? then Rejected else Dropped);
      NowKeeps(Evict(s, c), e, Picking(s.execs[e].phase.tries + 1));
    } else {
      NowKeeps(s, e, Sending(c));
    }
  }

  lemma ReportKeeps(s: State, e: nat)
    requires Inv(s) && Enabled(s, Report(e))
    ensures Inv(Step(s, Report(e)))
  {
    var Reporting(c, verdict) := s.execs[e].phase;
    var t := if c in s.inflight then s.(inflight := s.inflight[c := s.inflight[c] - 1]) else s;
    assert Inv(t) && Aimed(s.execs[e], s.loops);
    if !verdict.Done? {
      ReturnKeeps(t, e, if s.execs[e].from.None? then Rejected else Dropped);
    } else if s.execs[e].sync {
      ReturnKeeps(t, e, Answered);
    } else {
      NowKeeps(t, e, Tracking(c));
    }
  }

  lemma SendKeeps(s: State, e: nat, ok: bool)
    requires Inv(s) && Enabled(s, Send(e, ok))
    ensures Inv(Step(s, Send(e, ok)))
  {
    assert Aimed(s.execs[e], s.loops);
    NowKeeps(s, e, Step(s, Send(e, ok)).execs[e].phase);
  }

  lemma AwaitKeeps(s: State, e: nat, answered: bool)
    requires Inv(s) && Enabled(s, Await(e, answered))
    ensures Inv(Step(s, Await(e, answered)))
  {
    assert Aimed(s.execs[e], s.loops);
    NowKeeps(s, e, Step(s, Await(e, answered)).execs[e].phase);
  }

  lemma StepKeeps(s: State, a: Action)
    requires Inv(s) && Enabled(s, a)
    ensures Inv(Step(s, a))
  {
    match a {
      case AddClient(c) => AddClientKeeps(s, c);
      case Begin(r, sync) => BeginKeeps(s, r, sync);
      case Pick(e, c) => PickKeeps(s, e, c);
      case NoClient(e) => ReturnKeeps(s, e, if s.execs[e].from.None? then Rejected else Dropped);
      case Send(e, ok) => SendKeeps(s, e, ok);
      case Await(e, answered) => AwaitKeeps(s, e, answered);
      case Report(e) => ReportKeeps(s, e);
      case TrackLoad(e) =>
        assert Aimed(s.execs[e], s.loops) && Fits(s.execs[e], s.asked);
        NowKeeps(s, e, Storing(s.execs[e].phase.to));
        ReturnKeeps(s, e, Dropped);
      case TrackStore(e) => TrackStoreKeeps(s, e);
      case Ack(c, r) => AckKeeps(s, c, r);
      case MarkClosed(c) =>
      case ReadFails(c) => ReadFailsKeeps(s, c);
      case Collect(c, order) => CollectKeeps(s, c, order);
      case Redispatch(c) => RedispatchKeeps(s, c);
      case Leave(c, closes) => LeaveKeeps(s, c, closes);
    }
  }
}
