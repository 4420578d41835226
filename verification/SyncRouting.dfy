/**
 Synchronous requests over one worker connection: every `SendSync` registers a channel
 with room for one result under its request id, and the read loop looks the channel up
 and sends into it, as two steps.
 */
module SyncRouting {
  import opened Ids
  import opened Options
  import opened Runs

  datatype Phase =
    | Fresh                          // about to register the channel
    | Writing
    | Waiting
    | Leaving(result: Option<string>) // about to unregister
    | Returned(result: Option<string>)

  /** A call of SendSync; its channel has the call's own number. */
  datatype Call = Call(req: Id, phase: Phase, buffer: Option<string>)

  datatype Reader = Free | Sending(to: nat, payload: string)

  datatype Answer = Answer(req: Id, payload: string)

  datatype State = State(
    pending: map<Id, nat>,           // pendingSync: request id to channel
    calls: seq<Call>,
    reader: Reader,
    arrived: seq<Answer>)            // every result frame read, in order

  const START: State := State(map[], [], Free, [])

  datatype Action =
    | Begin(r: Id)
    | Register(w: nat)
    | Write(w: nat, ok: bool)
    | Receive(w: nat)
    | Expire(w: nat)
    | Leave(w: nat)
    | Arrive(r: Id, payload: string)
    | Deliver

  predicate Enabled(s: State, a: Action) {
    match a
    case Begin(r) => forall w :: 0 <= w < |s.calls| ==> s.calls[w].req != r
    case Register(w) => w < |s.calls| && s.calls[w].phase.Fresh?
    case Write(w, _) => w < |s.calls| && s.calls[w].phase.Writing?
    case Receive(w) => w < |s.calls| && s.calls[w].phase.Waiting? && s.calls[w].buffer.Some?
    case Expire(w) => w < |s.calls| && s.calls[w].phase.Waiting?
    case Leave(w) => w < |s.calls| && s.calls[w].phase.Leaving?
    case Arrive(_, _) => s.reader.Free?
    case Deliver => s.reader.Sending? && s.reader.to < |s.calls| && s.calls[s.reader.to].buffer.None?
  }

  function Now(s: State, w: nat, ph: Phase): State
    requires w < |s.calls|
  {
    s.(calls := s.calls[w := s.calls[w].(phase := ph)])
  }

  function Step(s: State, a: Action): State
    requires Enabled(s, a)
  {
    match a
    case Begin(r) => s.(calls := s.calls + [Call(r, Fresh, None)])
    case Register(w) => Now(s, w, Writing).(pending := s.pending[s.calls[w].req := w])
    case Write(w, ok) => Now(s, w, if ok then Waiting else Leaving(None))
    case Receive(w) =>
      s.(calls := s.calls[w := s.calls[w].(phase := Leaving(s.calls[w].buffer), buffer := None)])
    case Expire(w) => Now(s, w, Leaving(None))
    case Leave(w) => Now(s, w, Returned(s.calls[w].phase.result)).(pending := s.pending - {s.calls[w].req})
    case Arrive(r, payload) =>
      s.(arrived := s.arrived + [Answer(r, payload)],
         reader := if r in s.pending then Sending(s.pending[r], payload) else Free)
    case Deliver =>
      var w := s.reader.to;
      s.(reader := Free, calls := s.calls[w := s.calls[w].(buffer := Some(s.reader.payload))])
  }

  predicate Follows(s: State, a: Action, t: State) {
    Enabled(s, a) && t == Step(s, a)
  }

  ghost predicate IsRun(states: seq<State>, acts: seq<Action>) {
    Run(START, Follows, states, acts)
  }

  // ------------------------------------------------------------------------ correlation

  predicate Came(arrived: seq<Answer>, r: Id, p: Option<string>) {
    p.Some? ==> Answer(r, p.value) in arrived
  }

  /** What a call has been given, or can be given, came for its own id. */
  predicate Own(x: Call, arrived: seq<Answer>) {
    && Came(arrived, x.req, x.buffer)
    && (x.phase.Leaving? || x.phase.Returned? ==> Came(arrived, x.req, x.phase.result))
  }

  predicate Registered(ph: Phase) {
    ph.Writing? || ph.Waiting? || ph.Leaving?
  }

  predicate Inv(s: State) {
    && (forall w :: 0 <= w < |s.calls| ==> Own(s.calls[w], s.arrived))
    && (forall v, w :: 0 <= v < w < |s.calls| ==> s.calls[v].req != s.calls[w].req)
    && (forall r :: r in s.pending ==>
          s.pending[r] < |s.calls| && s.calls[s.pending[r]].req == r && Registered(s.calls[s.pending[r]].phase))
    && (s.reader.Sending? ==>
          s.reader.to < |s.calls| && Came(s.arrived, s.calls[s.reader.to].req, Some(s.reader.payload)))
  }

  lemma ReaderKeepsInv(s: State, a: Action)
    requires Inv(s) && Enabled(s, a) && (a.Arrive? || a.Deliver?)
    ensures Inv(Step(s, a))
  {
  }

  lemma EndsKeepInv(s: State, a: Action)
    requires Inv(s) && Enabled(s, a) && (a.Begin? || a.Register? || a.Leave?)
    ensures Inv(Step(s, a))
  {
  }

  lemma MiddleKeepsInv(s: State, a: Action)
    requires Inv(s) && Enabled(s, a) && (a.Write? || a.Receive? || a.Expire?)
    ensures Inv(Step(s, a))
  {
  }

  lemma StepKeepsInv(s: State, a: Action)
    requires Inv(s) && Enabled(s, a)
    ensures Inv(Step(s, a))
  {
    if a.Arrive? || a.Deliver? {
      ReaderKeepsInv(s, a);
    } else if a.Begin? || a.Register? || a.Leave? {
      EndsKeepInv(s, a);
    } else {
      MiddleKeepsInv(s, a);
    }
  }

  lemma RunKeepsInv(states: seq<State>, acts: seq<Action>, k: nat)
    requires IsRun(states, acts) && k < |states|
    ensures Inv(states[k])
  {
    forall s, a, t | Inv(s) && Follows(s, a, t) ensures Inv(t) {
      StepKeepsInv(s, a);
    }
    Invariant(START, Follows, Inv, states, acts, k);
  }

  /** A call that succeeds returns a payload that the worker sent for the call's own id. */
  lemma ResultsAreOwn(states: seq<State>, acts: seq<Action>, k: nat, w: nat)
    requires IsRun(states, acts) && k < |states| && w < |states[k].calls|
    requires states[k].calls[w].phase.Returned? && states[k].calls[w].phase.result.Some?
    ensures Answer(states[k].calls[w].req, states[k].calls[w].phase.result.value) in states[k].arrived
  {
    RunKeepsInv(states, acts, k);
    assert Own(states[k].calls[w], states[k].arrived);
  }

  /** The call has given up, or is about to return that it has. */
  predicate HasFailed(s: State, w: nat) {
    w < |s.calls| && s.calls[w].phase in {Leaving(None), Returned(None)}
  }

  /** A call fails exactly when its write failed or its wait expired. */
  lemma FailsExactlySo(states: seq<State>, acts: seq<Action>, n: nat, w: nat)
    requires IsRun(states, acts) && n < |states|
    ensures HasFailed(states[n], w) <==> exists i: nat :: i < n && (acts[i] == Write(w, false) || acts[i] == Expire(w))
  {
    HoldsExactlySo(START, Follows, _ => true, (s: State) => HasFailed(s, w),
                   (s: State, a: Action) => a == Write(w, false) || a == Expire(w), states, acts, n);
  }

  /** A result for a call that has returned is dropped: no other call can see it. */
  lemma LateResultsAreDropped(states: seq<State>, acts: seq<Action>, k: nat, w: nat, payload: string)
    requires IsRun(states, acts) && k < |states| && w < |states[k].calls|
    requires states[k].calls[w].phase.Returned?
    requires Enabled(states[k], Arrive(states[k].calls[w].req, payload))
    ensures var t := Step(states[k], Arrive(states[k].calls[w].req, payload));
      t.calls == states[k].calls && t.reader == Free && t.pending == states[k].pending
  {
    RunKeepsInv(states, acts, k);
    var s := states[k];
    assert forall r :: r in s.pending && s.pending[r] != w ==> s.calls[s.pending[r]].req != s.calls[w].req;
  }

  // ---------------------------------------------------------------------- never blocking

  /** The worker answers no request twice. */
  predicate OneResult(s: State, a: Action) {
    a.Arrive? ==> forall i :: 0 <= i < |s.arrived| ==> s.arrived[i].req != a.r
  }

  predicate HasCome(arrived: seq<Answer>, r: Id) {
    exists i :: 0 <= i < |arrived| && arrived[i].req == r
  }

  /** A channel that is full, or about to be filled, belongs to a request that was answered; none is both. */
  predicate Room(s: State) {
    && (forall w :: 0 <= w < |s.calls| && s.calls[w].buffer.Some? ==> HasCome(s.arrived, s.calls[w].req))
    && (s.reader.Sending? ==>
          && s.reader.to < |s.calls|
          && s.calls[s.reader.to].buffer.None? && HasCome(s.arrived, s.calls[s.reader.to].req))
  }

  lemma StillCome(arrived: seq<Answer>, x: Answer, r: Id)
    requires HasCome(arrived, r) || x.req == r
    ensures HasCome(arrived + [x], r)
  {
    if HasCome(arrived, r) {
      var i :| 0 <= i < |arrived| && arrived[i].req == r;
      assert (arrived + [x])[i].req == r;
    } else {
      assert (arrived + [x])[|arrived|].req == r;
    }
  }

  lemma StepKeepsRoom(s: State, a: Action)
    requires Inv(s) && Room(s) && Enabled(s, a) && OneResult(s, a)
    ensures Room(Step(s, a))
  {
    if a.Arrive? {
      var x := Answer(a.r, a.payload);
      forall w | 0 <= w < |s.calls| && (s.calls[w].buffer.Some? || s.calls[w].req == a.r)
        ensures HasCome(s.arrived + [x], s.calls[w].req)
      {
        StillCome(s.arrived, x, s.calls[w].req);
      }
    }
  }

  /** If the worker answers each request at most once, the read loop never waits for room in a channel. */
  lemma {:induction false} ReaderNeverBlocks(states: seq<State>, acts: seq<Action>, k: nat)
    requires IsRun(states, acts) && k < |states|
    requires forall i :: 0 <= i < |acts| ==> OneResult(states[i], acts[i])
    ensures Room(states[k])
    ensures states[k].reader.Sending? ==> Enabled(states[k], Deliver)
  {
    if k > 0 {
      ReaderNeverBlocks(states, acts, k - 1);
      RunKeepsInv(states, acts, k - 1);
      assert Follows(states[k - 1], acts[k - 1], states[k]);
      StepKeepsRoom(states[k - 1], acts[k - 1]);
    }
  }

  /** A step of call `w` is possible. */
  ghost predicate CanGoOn(s: State, w: nat) {
    exists a: Action :: (a.Register? || a.Write? || a.Receive? || a.Expire? || a.Leave?) && a.w == w && Enabled(s, a)
  }

  /** Whatever the read loop does, no call is held up: a wait can always end, by expiring at the latest. */
  lemma NoCallIsStuck(s: State, w: nat)
    requires w < |s.calls| && !s.calls[w].phase.Returned?
    ensures CanGoOn(s, w)
    ensures s.calls[w].phase.Writing? ==> forall ok :: Enabled(s, Write(w, ok))
    ensures s.calls[w].phase.Waiting? ==> Enabled(s, Expire(w)) && (Enabled(s, Receive(w)) <==> s.calls[w].buffer.Some?)
  {
    match s.calls[w].phase {
      case Fresh => assert Enabled(s, Register(w));
      case Writing => assert Enabled(s, Write(w, true));
      case Waiting => assert Enabled(s, Expire(w));
      case Leaving(_) => assert Enabled(s, Leave(w));
    }
  }

  /** The read loop waits for room in a channel that is full. */
  predicate Blocked(s: State) {
    s.reader.Sending? && s.reader.to < |s.calls| && s.calls[s.reader.to].buffer.Some?
  }

  /** A result stops the read loop exactly when its id is waited for and the channel holds an unread result. */
  lemma ArrivalBlocksIff(states: seq<State>, acts: seq<Action>, k: nat, r: Id, payload: string)
    requires IsRun(states, acts) && k < |states| && Enabled(states[k], Arrive(r, payload))
    ensures r in states[k].pending ==> states[k].pending[r] < |states[k].calls|
    ensures Blocked(Step(states[k], Arrive(r, payload)))
            <==> r in states[k].pending && states[k].calls[states[k].pending[r]].buffer.Some?
  {
    RunKeepsInv(states, acts, k);
  }

  /** A step frees a blocked read loop exactly when the call takes what its channel holds, as it can while it waits. */
  lemma OnlyTakingUnblocks(s: State, a: Action)
    requires Blocked(s) && Enabled(s, a)
    ensures !Blocked(Step(s, a)) <==> a == Receive(s.reader.to)
    ensures Blocked(Step(s, a)) ==> Step(s, a).reader == s.reader
    ensures s.calls[s.reader.to].phase.Waiting? ==> Enabled(s, Receive(s.reader.to))
  {
  }

  /** The call will take nothing more. */
  predicate GoneBy(ph: Phase) {
    ph.Leaving? || ph.Returned?
  }

  lemma GoneStaysGone(s: State, a: Action, w: nat)
    requires Enabled(s, a) && w < |s.calls| && GoneBy(s.calls[w].phase)
    ensures w < |Step(s, a).calls| && GoneBy(Step(s, a).calls[w].phase)
  {
  }

  /**
   When the call that a blocked read loop waits for has given up, the loop is blocked
   for good, whatever happens.
   */
  lemma {:induction false} BlockedForGood(states: seq<State>, acts: seq<Action>, k: nat, n: nat)
    requires IsRun(states, acts) && k <= n < |states|
    requires Blocked(states[k]) && GoneBy(states[k].calls[states[k].reader.to].phase)
    ensures Blocked(states[n]) && states[n].reader == states[k].reader
    ensures GoneBy(states[n].calls[states[n].reader.to].phase)
    decreases n
  {
    if k < n {
      BlockedForGood(states, acts, k, n - 1);
      var s, a := states[n - 1], acts[n - 1];
      assert Follows(s, a, states[n - 1 + 1]);
      OnlyTakingUnblocks(s, a);
      GoneStaysGone(s, a, s.reader.to);
    }
  }

  /** One request with id 7, at phase `ph`. */
  function OneCall(ph: Phase, buffer: Option<string>, reader: Reader, arrived: seq<Answer>): State {
    State(map[7 := 0], [Call(7, ph, buffer)], reader, arrived)
  }

  ghost predicate CanBe(s: State) {
    Reachable(START, Follows, s)
  }

  lemma Reach(s: State, a: Action, t: State)
    requires CanBe(s) && Follows(s, a, t)
    ensures CanBe(t)
  {
    ReachOn(START, Follows, s, a, t);
  }

  lemma OneResultUnread(x: Answer)
    requires x.req == 7
    ensures CanBe(OneCall(Waiting, Some(x.payload), Free, [x]))
  {
    StartIsReachable(START, Follows);
    var begun := START.(calls := [Call(7, Fresh, None)]);
    Reach(START, Begin(7), begun);
    Reach(begun, Register(0), OneCall(Writing, None, Free, []));
    Reach(OneCall(Writing, None, Free, []), Write(0, true), OneCall(Waiting, None, Free, []));
    Reach(OneCall(Waiting, None, Free, []), Arrive(7, x.payload), OneCall(Waiting, None, Sending(0, x.payload), [x]));
    Reach(OneCall(Waiting, None, Sending(0, x.payload), [x]), Deliver, OneCall(Waiting, Some(x.payload), Free, [x]));
  }

  /** A worker that answers twice can stop the read loop, and if the caller then gives up, for good. */
  lemma TheReaderCanBeBlockedForGood()
    ensures exists s :: CanBe(s) && Blocked(s) && GoneBy(s.calls[s.reader.to].phase)
  {
    var x, y := Answer(7, "first"), Answer(7, "second");
    OneResultUnread(x);
    var full := Some(x.payload);
    assert [x] + [y] == [x, y];
    Reach(OneCall(Waiting, full, Free, [x]), Arrive(7, y.payload), OneCall(Waiting, full, Sending(0, y.payload), [x, y]));
    Reach(OneCall(Waiting, full, Sending(0, y.payload), [x, y]), Expire(0),
          OneCall(Leaving(None), full, Sending(0, y.payload), [x, y]));
  }

  // ------------------------------------------------------------------------ the read loop

  datatype Frame = Ack(id: Id) | Result(id: Id, payload: string) | Other(payload: string)

  /** The acknowledged ids of the frames, in order. */
  function AckIds(fs: seq<Frame>): seq<Id> {
    if fs == [] then []
    else AckIds(fs[..|fs| - 1]) + (if fs[|fs| - 1].Ack? then [fs[|fs| - 1].id] else [])
  }

  /** The channels after the result frames have been put in. */
  function Routed(channels: map<Id, Option<string>>, fs: seq<Frame>): (m: map<Id, Option<string>>)
    ensures m.Keys == channels.Keys
  {
    if fs == [] then channels
    else
      var f, m := fs[|fs| - 1], Routed(channels, fs[..|fs| - 1]);
      if f.Result? && f.id in m then m[f.id := Some(f.payload)] else m
  }

  /** Each of the first `n` frames that is a result found its channel empty. */
  predicate FoundRoom(channels: map<Id, Option<string>>, fs: seq<Frame>, n: nat) {
    forall k :: 0 <= k < n && k < |fs| && fs[k].Result? && fs[k].id in channels ==>
      Routed(channels, fs[..k])[fs[k].id].None?
  }

  lemma OneMoreFrame(channels: map<Id, Option<string>>, fs: seq<Frame>, n: nat)
    requires n < |fs|
    ensures AckIds(fs[..n + 1]) == AckIds(fs[..n]) + (if fs[n].Ack? then [fs[n].id] else [])
    ensures var m := Routed(channels, fs[..n]);
      Routed(channels, fs[..n + 1]) == (if fs[n].Result? && fs[n].id in m then m[fs[n].id := Some(fs[n].payload)] else m)
    ensures FoundRoom(channels, fs, n + 1) <==>
            FoundRoom(channels, fs, n)
            && (fs[n].Result? && fs[n].id in channels ==> Routed(channels, fs[..n])[fs[n].id].None?)
  {
    assert fs[..n + 1][..n] == fs[..n] && fs[..n + 1][n] == fs[n];
  }

  predicate OneEach(fs: seq<Frame>) {
    forall i, j :: 0 <= i < j < |fs| && fs[i].Result? && fs[j].Result? ==> fs[i].id != fs[j].id
  }

  /** Each channel ends up with the result of its own id and nothing else; no channel appears. */
  lemma {:induction false} RoutedIsOwn(channels: map<Id, Option<string>>, fs: seq<Frame>, r: Id)
    requires OneEach(fs)
    ensures r in Routed(channels, fs) <==> r in channels
    ensures r in channels ==> forall i :: 0 <= i < |fs| && fs[i].Result? && fs[i].id == r ==>
      Routed(channels, fs)[r] == Some(fs[i].payload)
    ensures r in channels && (forall i :: 0 <= i < |fs| && fs[i].Result? ==> fs[i].id != r) ==>
      Routed(channels, fs)[r] == channels[r]
    decreases |fs|
  {
    if fs != [] {
      RoutedIsOwn(channels, fs[..|fs| - 1], r);
    }
  }

  class Connection {
    /** pendingSync: for each id waited for, the one-place channel. */
    var pendingSync: map<Id, Option<string>>
    /** The calls of the ACK handler. */
    var acked: seq<Id>

    constructor ()
      ensures pendingSync == map[] && acked == []
    {
      pendingSync, acked := map[], [];
    }

    /**
     Reads frames until one is neither an ACK nor a result, and returns its payload, or
     until a result meets a full channel, which blocks the loop; otherwise it runs until
     the connection fails, when all frames are used up.
     */
    method Read(fs: seq<Frame>) returns (got: Option<string>, blocked: bool, n: nat)
      modifies this
      ensures n <= |fs|
      ensures got.None? && !blocked ==> n == |fs|
      ensures got.Some? ==> !blocked && n > 0 && fs[n - 1] == Other(got.value)
      ensures forall i :: 0 <= i < (if got.Some? then n - 1 else n) ==> !fs[i].Other?
      ensures acked == old(acked) + AckIds(fs[..n])
      ensures pendingSync == Routed(old(pendingSync), fs[..n])
      ensures blocked <==> n < |fs| && got.None?
      ensures blocked ==> fs[n].Result? && fs[n].id in pendingSync && pendingSync[fs[n].id].Some?
      ensures forall k :: 0 <= k < n && fs[k].Result? && fs[k].id in old(pendingSync) ==>
        Routed(old(pendingSync), fs[..k])[fs[k].id].None?
    {
      n := 0;
      while n < |fs|
        invariant n <= |fs|
        invariant forall i :: 0 <= i < n ==> !fs[i].Other?
        invariant acked == old(acked) + AckIds(fs[..n])
        invariant pendingSync == Routed(old(pendingSync), fs[..n])
        invariant FoundRoom(old(pendingSync), fs, n)
      {
        var f := fs[n];
        OneMoreFrame(old(pendingSync), fs, n);
        match f {
          case Ack(id) => acked := acked + [id];
          case Result(id, payload) =>
            if id in pendingSync {
              if pendingSync[id].Some? {
                return None, true, n;
              }
              pendingSync := pendingSync[id := Some(payload)];
            }
          case Other(payload) => return Some(payload), false, n + 1;
        }
        n := n + 1;
      }
      got, blocked := None, false;
    }
  }
}
