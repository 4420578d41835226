/**
 The life of a worker's connection: the critical sections of connect, reconnect and
 Close under the lifecycle lock, interleaved by any number of goroutines. Sockets and
 stop channels are numbered as they are made.
 */
module WorkerConnection {
  import opened Options
  import opened Runs

  /** The fields under the lock, and what became of every channel and socket made. */
  datatype Link = Link(
    conn: Option<nat>,
    stop: Option<nat>,
    closed: bool,
    made: nat,                // stop channels made so far
    shut: seq<nat>,           // stop channels closed, in order
    open: set<nat>)           // sockets dialled and not closed

  const NEW: Link := Link(None, None, false, 0, [], {})

  function ShutStop(l: Link): Link {
    if l.stop.Some? then l.(stop := None, shut := l.shut + [l.stop.value]) else l
  }

  function ShutConn(l: Link): Link {
    if l.conn.Some? then l.(conn := None, open := l.open - {l.conn.value}) else l
  }

  /** The critical section of connect, for a socket just dialled. */
  function Installed(l: Link, socket: nat): Link {
    if l.closed then l.(open := l.open - {socket})
    else
      var t := ShutStop(l);
      t.(stop := Some(t.made), made := t.made + 1, conn := Some(socket))
  }

  /** The critical section that reconnect begins with. */
  function TornDown(l: Link): Link {
    if l.closed then l else ShutConn(ShutStop(l))
  }

  function Closed(l: Link): Link {
    if l.closed then l else ShutConn(ShutStop(l.(closed := true)))
  }

  // ----------------------------------------------------------------------- interleaving

  datatype Call =
    | Dialling(again: bool)              // `again` inside the reconnect loop
    | Dialled(socket: nat, again: bool)
    | Retrying                           // asleep between two attempts
    | Returned

  datatype Beat = Beat(socket: nat, stop: nat)

  datatype State = State(link: Link, calls: seq<Call>, beats: seq<Beat>, sockets: nat)

  const START: State := State(NEW, [], [], 0)

  datatype Action =
    | Dail
    | ReadFails                          // a reader enters reconnect
    | Dial(w: nat, ok: bool)
    | Install(w: nat)
    | Retry(w: nat)
    | Close

  predicate Enabled(s: State, a: Action) {
    match a
    case Dail => true
    case ReadFails => true
    case Dial(w, _) => w < |s.calls| && s.calls[w].Dialling?
    case Install(w) => w < |s.calls| && s.calls[w].Dialled?
    case Retry(w) => w < |s.calls| && s.calls[w].Retrying?
    case Close => true
  }

  function Step(s: State, a: Action): State
    requires Enabled(s, a)
  {
    match a
    case Dail => s.(calls := s.calls + [Dialling(false)])
    case ReadFails =>
      s.(link := TornDown(s.link), calls := s.calls + [if s.link.closed then Returned else Dialling(true)])
    case Dial(w, ok) =>
      var again := s.calls[w].again;
      if ok then
        s.(calls := s.calls[w := Dialled(s.sockets, again)], sockets := s.sockets + 1,
           link := s.link.(open := s.link.open + {s.sockets}))
      else s.(calls := s.calls[w := if again then Retrying else Returned])
    case Install(w) =>
      var Dialled(socket, again) := s.calls[w];
      if s.link.closed then
        s.(link := Installed(s.link, socket), calls := s.calls[w := if again then Retrying else Returned])
      else
        s.(link := Installed(s.link, socket), calls := s.calls[w := Returned],
           beats := s.beats + [Beat(socket, s.link.made)])
    case Retry(w) => s.(calls := s.calls[w := if s.link.closed then Returned else Dialling(true)])
    case Close => s.(link := Closed(s.link))
  }

  predicate Follows(s: State, a: Action, t: State) {
    Enabled(s, a) && t == Step(s, a)
  }

  ghost predicate IsRun(states: seq<State>, acts: seq<Action>) {
    Run(START, Follows, states, acts)
  }

  // -------------------------------------------------------------------------- invariants

  /** Socket and heartbeat come and go together, and every stop channel but the current one is closed, once. */
  predicate Orderly(l: Link) {
    && (l.conn.Some? <==> l.stop.Some?)
    && (l.closed ==> l.conn.None?)
    && NoRepeats(l.shut)
    && (forall c: nat :: c in l.shut ==> c < l.made && l.stop != Some(c))
    && (l.stop.Some? ==> l.stop.value < l.made)
    && (forall c: nat :: c < l.made && c !in l.shut ==> l.stop == Some(c))
  }

  lemma SectionsKeepOrder(l: Link, socket: nat)
    requires Orderly(l)
    ensures Orderly(Installed(l, socket)) && Orderly(TornDown(l)) && Orderly(Closed(l))
  {
    if l.stop.Some? {
      var shut := l.shut + [l.stop.value];
      assert forall c: nat :: c in shut <==> c in l.shut || c == l.stop.value;
    }
  }

  /** A heartbeat is that of the current connection, or has been told to stop. */
  predicate Beats(l: Link, beats: seq<Beat>) {
    && (forall i :: 0 <= i < |beats| ==>
          beats[i].stop in l.shut || (l.stop == Some(beats[i].stop) && l.conn == Some(beats[i].socket)))
    && (forall i, j :: 0 <= i < j < |beats| ==> beats[i].stop != beats[j].stop)
    && (forall i :: 0 <= i < |beats| ==> beats[i].stop < l.made)
  }

  lemma SectionsKeepBeats(l: Link, beats: seq<Beat>, socket: nat)
    requires Orderly(l) && Beats(l, beats)
    ensures !l.closed ==> Beats(Installed(l, socket), beats + [Beat(socket, l.made)])
    ensures Beats(TornDown(l), beats) && Beats(Closed(l), beats)
  {
  }

  lemma StepKeepsOrder(s: State, a: Action)
    requires Orderly(s.link) && Beats(s.link, s.beats) && Enabled(s, a)
    ensures Orderly(Step(s, a).link) && Beats(Step(s, a).link, Step(s, a).beats)
  {
    match a {
      case Install(w) =>
        SectionsKeepOrder(s.link, s.calls[w].socket);
        SectionsKeepBeats(s.link, s.beats, s.calls[w].socket);
      case ReadFails =>
        SectionsKeepOrder(s.link, 0);
        SectionsKeepBeats(s.link, s.beats, 0);
      case Close =>
        SectionsKeepOrder(s.link, 0);
        SectionsKeepBeats(s.link, s.beats, 0);
      case _ =>
    }
  }

  lemma RunIsOrderly(states: seq<State>, acts: seq<Action>, k: nat)
    requires IsRun(states, acts) && k < |states|
    ensures Orderly(states[k].link) && Beats(states[k].link, states[k].beats)
  {
    forall s: State, a, t | Orderly(s.link) && Beats(s.link, s.beats) && Follows(s, a, t)
      ensures Orderly(t.link) && Beats(t.link, t.beats)
    {
      StepKeepsOrder(s, a);
    }
    Invariant(START, Follows, (s: State) => Orderly(s.link) && Beats(s.link, s.beats), states, acts, k);
  }

  /** No stop channel is closed twice, which would panic. */
  lemma NoChannelIsClosedTwice(states: seq<State>, acts: seq<Action>, k: nat)
    requires IsRun(states, acts) && k < |states|
    ensures NoRepeats(states[k].link.shut)
  {
    RunIsOrderly(states, acts, k);
  }

  /** At most one heartbeat has not been told to stop, and it is that of the current connection. */
  lemma OneHeartbeat(states: seq<State>, acts: seq<Action>, k: nat, i: nat, j: nat)
    requires IsRun(states, acts) && k < |states| && i < |states[k].beats| && j < |states[k].beats|
    requires states[k].beats[i].stop !in states[k].link.shut && states[k].beats[j].stop !in states[k].link.shut
    ensures i == j && states[k].link.conn == Some(states[k].beats[i].socket)
  {
    RunIsOrderly(states, acts, k);
  }

  /** There is a connection exactly when there is a stop channel, and that one is open. */
  lemma ConnectionHasStopChannel(states: seq<State>, acts: seq<Action>, k: nat)
    requires IsRun(states, acts) && k < |states|
    ensures states[k].link.conn.Some? <==> states[k].link.stop.Some?
    ensures states[k].link.stop.Some? ==> states[k].link.stop.value !in states[k].link.shut
  {
    RunIsOrderly(states, acts, k);
  }

  /** After Close there is no connection and no open stop channel, ever again. */
  lemma {:induction false} ClosedForGood(states: seq<State>, acts: seq<Action>, k: nat, n: nat)
    requires IsRun(states, acts) && k <= n < |states| && states[k].link.closed
    ensures states[n].link.closed && states[n].link.conn.None? && states[n].link.stop.None?
    ensures forall c: nat :: c < states[n].link.made ==> c in states[n].link.shut
    decreases n
  {
    RunIsOrderly(states, acts, n);
    if k < n {
      ClosedForGood(states, acts, k, n - 1);
      assert Follows(states[n - 1], acts[n - 1], states[n]);
    }
  }

  /** The client is closed exactly when Close has run, which nothing prevents. */
  lemma ClosedExactlySo(states: seq<State>, acts: seq<Action>, n: nat)
    requires IsRun(states, acts) && n < |states|
    ensures states[n].link.closed <==> exists i: nat :: i < n && acts[i].Close?
    ensures Enabled(states[n], Close)
  {
    HoldsExactlySo(START, Follows, _ => true, (s: State) => s.link.closed, (s: State, a: Action) => a.Close?,
                   states, acts, n);
  }

  // ------------------------------------------------------------------ calls that return

  /** The call is inside the reconnect loop. */
  predicate IsLooping(c: Call) {
    c.Retrying? || ((c.Dialling? || c.Dialled?) && c.again)
  }

  /**
   How a call ends. The first connect returns at a failed dial or once its socket has
   been dealt with; a reconnect goes on until a socket is installed in an open client,
   or it wakes up to find the client closed.
   */
  lemma ReturnsExactlySo(s: State, a: Action, t: State, w: nat)
    requires Follows(s, a, t) && w < |s.calls| && !s.calls[w].Returned?
    ensures w < |t.calls|
    ensures IsLooping(s.calls[w]) ==>
      (t.calls[w].Returned? <==> (a == Install(w) && !s.link.closed) || (a == Retry(w) && s.link.closed))
    ensures !IsLooping(s.calls[w]) ==> (t.calls[w].Returned? <==> a == Dial(w, false) || a == Install(w))
    ensures !t.calls[w].Returned? ==> (IsLooping(t.calls[w]) <==> IsLooping(s.calls[w]))
  {
  }

  /** A call that has not returned can go on, whether its dialling succeeds or not. */
  lemma NoCallIsStuck(s: State, w: nat)
    requires w < |s.calls| && !s.calls[w].Returned?
    ensures exists a: Action :: (a.Dial? || a.Install? || a.Retry?) && a.w == w && Enabled(s, a)
    ensures s.calls[w].Dialling? ==> forall ok :: Enabled(s, Dial(w, ok))
  {
    match s.calls[w] {
      case Dialling(_) => assert Enabled(s, Dial(w, true));
      case Dialled(_, _) => assert Enabled(s, Install(w));
      case Retrying => assert Enabled(s, Retry(w));
    }
  }

  /** The call's next step is to dial, and it was at `k` already. */
  predicate WasDialling(states: seq<State>, k: nat, w: nat)
    requires k < |states|
  {
    w < |states[k].calls| && states[k].calls[w].Dialling?
  }

  /** Once the client is closed no reconnect dials again: one that does was about to when it was closed. */
  lemma {:induction false} NoReconnectAfterClose(states: seq<State>, acts: seq<Action>, k: nat, n: nat, w: nat)
    requires IsRun(states, acts) && k <= n < |states| && states[k].link.closed
    requires w < |states[n].calls| && states[n].calls[w].Dialling? && states[n].calls[w].again
    ensures WasDialling(states, k, w)
    decreases n
  {
    if k < n {
      ClosedForGood(states, acts, k, n - 1);
      assert Follows(states[n - 1], acts[n - 1], states[n]);
      NoReconnectAfterClose(states, acts, k, n - 1, w);
    }
  }

  // ---------------------------------------------------------------------------- sockets

  /** One goroutine connects, reads and reconnects; Close may come from anywhere. */
  predicate OneReader(s: State, a: Action) {
    && (a.Dail? || a.ReadFails? ==> forall w :: 0 <= w < |s.calls| ==> s.calls[w].Returned?)
    && (a.Dail? ==> s.link.conn.None?)
  }

  function Latest(calls: seq<Call>): Call {
    if calls == [] then Returned else calls[|calls| - 1]
  }

  /** The open sockets are the connection and the one being installed, and never both. */
  predicate Tidy(s: State) {
    && (forall w :: 0 <= w < |s.calls| - 1 ==> s.calls[w].Returned?)
    && match Latest(s.calls)
       case Returned => s.link.open == if s.link.conn.Some? then {s.link.conn.value} else {}
       case Dialled(socket, _) => s.link.conn.None? && s.link.open == {socket}
       case _ => s.link.conn.None? && s.link.open == {}
  }

  lemma StepKeepsTidy(s: State, a: Action)
    requires Orderly(s.link) && Tidy(s) && Enabled(s, a) && OneReader(s, a)
    ensures Tidy(Step(s, a))
  {
    if a.Dial? || a.Install? || a.Retry? {
      assert a.w == |s.calls| - 1;
    }
    if a.Dail? || a.ReadFails? {
      assert Latest(s.calls).Returned?;
    }
  }

  /** With one reader no socket is forgotten: whenever no call is under way, the connection is the only open one. */
  lemma {:induction false} NoSocketIsForgotten(states: seq<State>, acts: seq<Action>, k: nat)
    requires IsRun(states, acts) && k < |states|
    requires forall i :: 0 <= i < |acts| ==> OneReader(states[i], acts[i])
    ensures Tidy(states[k])
  {
    if k > 0 {
      NoSocketIsForgotten(states, acts, k - 1);
      RunIsOrderly(states, acts, k - 1);
      assert Follows(states[k - 1], acts[k - 1], states[k]);
      StepKeepsTidy(states[k - 1], acts[k - 1]);
    }
  }

  predicate HeldBy(calls: seq<Call>, k: nat) {
    exists w :: 0 <= w < |calls| && calls[w].Dialled? && calls[w].socket == k
  }

  /** An open socket that is neither the connection nor about to become it: nothing will close it. */
  predicate Forgotten(s: State, k: nat) {
    k in s.link.open && s.link.conn != Some(k) && !HeldBy(s.calls, k)
  }

  /** Every socket is made once, and the connection and the sockets held are open. */
  predicate Sockets(s: State) {
    && (forall k :: k in s.link.open ==> k < s.sockets)
    && (s.link.conn.Some? ==> s.link.conn.value in s.link.open && !HeldBy(s.calls, s.link.conn.value))
    && (forall w :: 0 <= w < |s.calls| && s.calls[w].Dialled? ==> s.calls[w].socket in s.link.open)
    && (forall v, w :: 0 <= v < w < |s.calls| && s.calls[v].Dialled? && s.calls[w].Dialled? ==>
          s.calls[v].socket != s.calls[w].socket)
  }

  /** Connecting puts socket `k`, which was the connection, out of reach. */
  predicate ReplacesAt(s: State, a: Action, k: nat) {
    a.Install? && !s.link.closed && s.link.conn == Some(k)
  }

  lemma HeldAfter(calls: seq<Call>, w: nat, c: Call, k: nat)
    requires w < |calls|
    requires forall v :: 0 <= v < |calls| && v != w && calls[v].Dialled? && calls[w].Dialled? ==>
      calls[v].socket != calls[w].socket
    ensures HeldBy(calls[w := c], k)
            <==> (c.Dialled? && c.socket == k) || (HeldBy(calls, k) && !(calls[w].Dialled? && calls[w].socket == k))
  {
    if v :| 0 <= v < |calls| && v != w && calls[v].Dialled? && calls[v].socket == k {
      assert calls[w := c][v] == calls[v];
    }
    if c.Dialled? && c.socket == k {
      assert calls[w := c][w] == c;
    }
  }

  lemma HeldAfterCall(calls: seq<Call>, c: Call, k: nat)
    requires !c.Dialled?
    ensures HeldBy(calls + [c], k) <==> HeldBy(calls, k)
  {
    if v :| 0 <= v < |calls| && calls[v].Dialled? && calls[v].socket == k {
      assert (calls + [c])[v] == calls[v];
    }
  }

  lemma StepHolds(s: State, a: Action, k: nat)
    requires Sockets(s) && Enabled(s, a)
    ensures HeldBy(Step(s, a).calls, k) <==>
            (a.Dial? && a.ok && k == s.sockets) || (HeldBy(s.calls, k) && !(a.Install? && s.calls[a.w].socket == k))
  {
    if a.Dail? || a.ReadFails? {
      HeldAfterCall(s.calls, Step(s, a).calls[|s.calls|], k);
    } else if !a.Close? {
      HeldAfter(s.calls, a.w, Step(s, a).calls[a.w], k);
    }
  }

  lemma StepKeepsSockets(s: State, a: Action)
    requires Orderly(s.link) && Sockets(s) && Enabled(s, a)
    ensures Sockets(Step(s, a))
  {
    forall k: nat ensures HeldBy(Step(s, a).calls, k) <==>
      (a.Dial? && a.ok && k == s.sockets) || (HeldBy(s.calls, k) && !(a.Install? && s.calls[a.w].socket == k))
    {
      StepHolds(s, a, k);
    }
    forall w | 0 <= w < |s.calls| && s.calls[w].Dialled? ensures HeldBy(s.calls, s.calls[w].socket) {
    }
  }

  /** A socket is forgotten after a step exactly when it was before, or the step is a connect that replaces it. */
  lemma StepForgets(s: State, a: Action, t: State, k: nat)
    requires Orderly(s.link) && Sockets(s) && Follows(s, a, t)
    ensures Forgotten(t, k) <==> Forgotten(s, k) || ReplacesAt(s, a, k)
  {
    StepHolds(s, a, k);
    if a.Install? {
      assert HeldBy(s.calls, s.calls[a.w].socket);
    }
  }

  lemma StartHasNoSockets()
    ensures Orderly(START.link) && Sockets(START)
  {
  }

  /**
   Over every interleaving, a socket is forgotten exactly when some connect found it in
   place as the connection of an open client: never, when there is one reader.
   */
  lemma ForgottenExactlySo(states: seq<State>, acts: seq<Action>, n: nat, k: nat)
    requires IsRun(states, acts) && n < |states|
    ensures Forgotten(states[n], k) <==> exists i: nat :: i < n && ReplacesAt(states[i], acts[i], k)
  {
    StartHasNoSockets();
    forall s: State, a, t | Orderly(s.link) && Beats(s.link, s.beats) && Sockets(s) && Follows(s, a, t)
      ensures Orderly(t.link) && Beats(t.link, t.beats) && Sockets(t)
      ensures Forgotten(t, k) <==> Forgotten(s, k) || ReplacesAt(s, a, k)
    {
      StepKeepsOrder(s, a);
      StepKeepsSockets(s, a);
      StepForgets(s, a, t, k);
    }
    HoldsExactlySo(START, Follows, (s: State) => Orderly(s.link) && Beats(s.link, s.beats) && Sockets(s),
                   (s: State) => Forgotten(s, k), (s: State, a: Action) => ReplacesAt(s, a, k), states, acts, n);
  }

  ghost predicate CanBe(s: State) {
    Reachable(START, Follows, s)
  }

  lemma Reach(s: State, a: Action, t: State)
    requires CanBe(s) && Follows(s, a, t)
    ensures CanBe(t)
  {
    ReachOn(START, Follows, s, a, t);
  }

  lemma Connected()
    ensures CanBe(State(Link(Some(0), Some(0), false, 1, [], {0}), [Returned], [Beat(0, 0)], 1))
  {
    StartIsReachable(START, Follows);
    var s1 := State(NEW, [Dialling(false)], [], 0);
    var s2 := State(NEW.(open := {0}), [Dialled(0, false)], [], 1);
    Reach(START, Dail, s1);
    assert NEW.open + {0} == {0};
    Reach(s1, Dial(0, true), s2);
    Reach(s2, Install(0), State(Link(Some(0), Some(0), false, 1, [], {0}), [Returned], [Beat(0, 0)], 1));
  }

  lemma BothDialled()
    ensures CanBe(State(Link(None, None, false, 1, [0], {1, 2}), [Returned, Dialled(1, true), Dialled(2, true)], [Beat(0, 0)], 3))
  {
    Connected();
    var torn := Link(None, None, false, 1, [0], {});
    var s0 := State(Link(Some(0), Some(0), false, 1, [], {0}), [Returned], [Beat(0, 0)], 1);
    var s1 := State(torn, [Returned, Dialling(true)], [Beat(0, 0)], 1);
    var s2 := State(torn, [Returned, Dialling(true), Dialling(true)], [Beat(0, 0)], 1);
    var s3 := State(torn.(open := {1}), [Returned, Dialled(1, true), Dialling(true)], [Beat(0, 0)], 2);
    Reach(s0, ReadFails, s1);
    Reach(s1, ReadFails, s2);
    Reach(s2, Dial(1, true), s3);
    Reach(s3, Dial(2, true),
          State(torn.(open := {1, 2}), [Returned, Dialled(1, true), Dialled(2, true)], [Beat(0, 0)], 3));
  }

  /** Two goroutines that read one connection and reconnect at once leave a socket open that nothing will close. */
  lemma TwoReadersForgetASocket()
    ensures exists s :: CanBe(s) && Forgotten(s, 1) && forall w :: 0 <= w < |s.calls| ==> s.calls[w].Returned?
  {
    BothDialled();
    var s := State(Link(None, None, false, 1, [0], {1, 2}), [Returned, Dialled(1, true), Dialled(2, true)], [Beat(0, 0)], 3);
    var s1 := Step(s, Install(1));
    var s2 := Step(s1, Install(2));
    Reach(s, Install(1), s1);
    Reach(s1, Install(2), s2);
    assert s2.calls == [Returned, Returned, Returned] && Forgotten(s2, 1);
  }

  // ---------------------------------------------------------------------------- backoff

  function Pow2(k: nat): (p: nat)
    ensures p >= 1
  {
    if k == 0 then 1 else 2 * Pow2(k - 1)
  }

  const INITIAL_BACKOFF: nat := 3
  const MAX_BACKOFF: nat := 30
  const BACKOFF_FACTOR: nat := 2

  /** Seconds between attempt `k + 1` and the next: doubling from 3, at most 30. */
  function Delay(k: nat): nat {
    var d := INITIAL_BACKOFF * Pow2(k);
    if d < MAX_BACKOFF then d else MAX_BACKOFF
  }

  lemma DelayDoubles(k: nat)
    ensures Delay(k + 1) == if 2 * Delay(k) < MAX_BACKOFF then 2 * Delay(k) else MAX_BACKOFF
  {
  }

  // -------------------------------------------------------------------------- the client

  class WebsocketClient {
    var conn: Option<nat>
    var currentStopCh: Option<nat>
    var closed: bool
    var made: nat                      // names the channels
    ghost var shut: seq<nat>
    ghost var open: set<nat>

    ghost function View(): Link
      reads this
    {
      Link(conn, currentStopCh, closed, made, shut, open)
    }

    constructor ()
      ensures View() == NEW
    {
      conn, currentStopCh, closed, made, shut, open := None, None, false, 0, [], {};
    }

    /** `socket` is what dialling gave: nothing, or a new open socket. */
    method Connect(socket: Option<nat>) returns (ok: bool)
      modifies this
      ensures ok <==> socket.Some? && !old(closed)
      ensures View() == if socket.None? then old(View())
                        else Installed(old(View()).(open := old(open) + {socket.value}), socket.value)
    {
      if socket.None? {
        return false;
      }
      open := open + {socket.value};
      if closed {
        open := open - {socket.value};
        return false;
      }
      if currentStopCh.Some? {
        shut := shut + [currentStopCh.value];
      }
      currentStopCh, made := Some(made), made + 1;
      conn := socket;
      ok := true;
    }

    method Close()
      modifies this
      ensures View() == Closed(old(View()))
    {
      if closed {
        return;
      }
      closed := true;
      if currentStopCh.Some? {
        shut, currentStopCh := shut + [currentStopCh.value], None;
      }
      if conn.Some? {
        open, conn := open - {conn.value}, None;
      }
    }

    /**
     The first `failures` attempts fail and the next one dials `socket`, unless another
     goroutine calls Close during the sleep after attempt `closing`. The delays slept
     double from 3 seconds up to 30.
     */
    method Reconnect(failures: nat, socket: nat, closing: nat) returns (ok: bool, delays: seq<nat>)
      requires closing >= 1
      modifies this
      ensures ok <==> !old(closed) && failures < closing
      ensures |delays| == if old(closed) then 0 else if failures < closing then failures else closing
      ensures |delays| > 0 ==> delays[0] == 3
      ensures forall k :: 0 < k < |delays| ==> delays[k] == if 2 * delays[k - 1] <= 30 then 2 * delays[k - 1] else 30
      ensures var torn := TornDown(old(View()));
        View() == if ok then Installed(torn.(open := torn.open + {socket}), socket) else Closed(torn)
    {
      delays := [];
      if closed {
        return false, delays;
      }
      if currentStopCh.Some? {
        shut, currentStopCh := shut + [currentStopCh.value], None;
      }
      if conn.Some? {
        open, conn := open - {conn.value}, None;
      }
      var backoff := INITIAL_BACKOFF;
      var attempt := 1;
      while true
        invariant 1 <= attempt <= failures + 1 && attempt <= closing + 1
        invariant View() == if attempt <= closing then TornDown(old(View())) else Closed(TornDown(old(View())))
        invariant backoff == Delay(attempt - 1)
        invariant |delays| == attempt - 1 && forall k :: 0 <= k < |delays| ==> delays[k] == Delay(k)
        decreases failures + 1 - attempt
      {
        if closed {
          return false, delays;
        }
        ok := Connect(if attempt <= failures then None else Some(socket));
        if ok {
          return;
        }
        delays := delays + [backoff];
        if attempt == closing {
          Close();
        }
        DelayDoubles(attempt - 1);
        if backoff < MAX_BACKOFF {
          backoff := backoff * BACKOFF_FACTOR;
          if backoff > MAX_BACKOFF {
            backoff := MAX_BACKOFF;
          }
        }
        attempt := attempt + 1;
      }
    }
  }
}
