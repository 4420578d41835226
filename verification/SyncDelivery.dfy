/**
 Synchronous requests from the caller of `ExecuteSync` to the read loop of the worker's
 connection: the delivery machine and the routing machine side by side. What happens to
 a call of `SendSync` on the connection is what the delivery machine leaves open.
 */
module SyncDelivery {
  import D = Delivery
  import G = DeliveryGuarantees
  import H = DeliveryHistory
  import opened Ids
  import opened Options
  import opened Runs
  import S = SyncRouting

  /** `execs[w]` is the call of `ExecuteSync` that call `w` of the connection's `SendSync` works for. */
  datatype Joint = Joint(server: D.State, wire: S.State, execs: seq<nat>)

  /** The client, and which payloads its `SendSync` in the domain can decode. */
  datatype Peer = Peer(to: Id, readable: string -> bool)

  /** The result counts as an answer. */
  predicate IsAnswer(peer: Peer, result: Option<string>) {
    result.Some? && peer.readable(result.value)
  }

  const START: Joint := Joint(D.START, S.START, [])

  datatype Move =
    | Server(act: D.Action)          // a step outside `SendSync` of the client
    | Enter(e: nat)                  // a call of `ExecuteSync` calls `SendSync`
    | Wire(op: S.Action)             // a step inside it, or of the read loop

  /** The step is one that `SendSync` of client `to` takes. */
  predicate IsInside(s: D.State, a: D.Action, peer: Peer) {
    match a
    case Send(e, _) => D.IsCall(s, e) && s.execs[e].sync && s.execs[e].phase == D.Sending(peer.to)
    case Await(e, _) => D.IsCall(s, e) && s.execs[e].sync && s.execs[e].phase == D.Awaiting(peer.to)
    case _ => false
  }

  /** Call `e` has no `SendSync` under way. */
  predicate HasReturned(j: Joint, e: nat) {
    forall w :: 0 <= w < |j.execs| && w < |j.wire.calls| && j.execs[w] == e ==> j.wire.calls[w].phase.Returned?
  }

  predicate Enabled(peer: Peer, j: Joint, m: Move) {
    match m
    case Server(a) =>
      D.Enabled(j.server, a) && !IsInside(j.server, a, peer) && (a.Report? ==> HasReturned(j, a.e))
    case Enter(e) =>
      && D.IsCall(j.server, e) && j.server.execs[e].sync && j.server.execs[e].phase == D.Sending(peer.to)
      && e !in j.execs && S.Enabled(j.wire, S.Begin(j.server.execs[e].req))
    case Wire(a) => !a.Begin? && S.Enabled(j.wire, a)
  }

  /** What a step of the connection is for the server. */
  function Shown(peer: Peer, j: Joint, a: S.Action): Option<D.Action> {
    match a
    case Write(w, ok) => if w < |j.execs| then Some(D.Send(j.execs[w], ok)) else None
    case Receive(w) =>
      if w < |j.execs| && w < |j.wire.calls| then Some(D.Await(j.execs[w], IsAnswer(peer, j.wire.calls[w].buffer))) else None
    case Expire(w) => if w < |j.execs| then Some(D.Await(j.execs[w], false)) else None
    case _ => None
  }

  function ServerAfter(peer: Peer, j: Joint, a: S.Action): D.State {
    var x := Shown(peer, j, a);
    if x.Some? && D.Enabled(j.server, x.value) then D.Step(j.server, x.value) else j.server
  }

  function Step(peer: Peer, j: Joint, m: Move): Joint
    requires Enabled(peer, j, m)
  {
    match m
    case Server(a) => j.(server := D.Step(j.server, a))
    case Enter(e) => j.(wire := S.Step(j.wire, S.Begin(j.server.execs[e].req)), execs := j.execs + [e])
    case Wire(a) => j.(server := ServerAfter(peer, j, a), wire := S.Step(j.wire, a))
  }

  predicate Follows(peer: Peer, j: Joint, m: Move, t: Joint) {
    Enabled(peer, j, m) && t == Step(peer, j, m)
  }

  function Steps(peer: Peer): (Joint, Move, Joint) -> bool {
    (j, m, t) => Follows(peer, j, m, t)
  }

  ghost predicate IsRun(peer: Peer, states: seq<Joint>, moves: seq<Move>) {
    Run(START, Steps(peer), states, moves)
  }

  // -------------------------------------------------------------------------- the link

  function EndOf(peer: Peer, result: Option<string>): D.Place {
    D.Ended(if IsAnswer(peer, result) then D.Answered else D.Rejected)
  }

  /** How far the server takes the call to be. */
  predicate InPhase(c: S.Call, x: D.Exec, place: map<Id, D.Place>, peer: Peer) {
    match c.phase
    case Fresh => x.phase == D.Sending(peer.to)
    case Writing => x.phase == D.Sending(peer.to)
    case Waiting => x.phase == D.Awaiting(peer.to)
    case Leaving(r) => IsReporting(x.phase, peer, r)
    case Returned(r) => IsReporting(x.phase, peer, r) || (x.phase.Finished? && D.At(place, c.req, EndOf(peer, r)))
  }

  predicate IsReporting(ph: D.Phase, peer: Peer, result: Option<string>) {
    ph.Reporting? && ph.to == peer.to && (ph.verdict.Done? <==> IsAnswer(peer, result))
  }

  predicate LinkedAt(j: Joint, w: nat, peer: Peer) {
    && w < |j.execs| && w < |j.wire.calls| && D.IsCall(j.server, j.execs[w])
    && var x := j.server.execs[j.execs[w]];
    x.sync && x.req == j.wire.calls[w].req && InPhase(j.wire.calls[w], x, j.server.place, peer)
  }

  predicate Linked(peer: Peer, j: Joint) {
    && |j.execs| == |j.wire.calls|
    && NoRepeats(j.execs)
    && forall w :: 0 <= w < |j.execs| ==> LinkedAt(j, w, peer)
  }

  // ------------------------------------------------------------------ steps of the server

  predicate EndsBy(x: D.Exec, e: nat, verdict: D.Verdict, t: D.State) {
    && e < |t.execs| && t.execs[e] == x.(phase := D.Finished)
    && D.At(t.place, x.req, D.Ended(if verdict.Done? then D.Answered else D.Rejected))
  }

  lemma ConcludeEnds(s: D.State, e: nat, c: Id, verdict: D.Verdict)
    requires D.IsCall(s, e) && s.execs[e].sync && s.execs[e].from.None?
    ensures EndsBy(s.execs[e], e, verdict, D.Conclude(s, e, c, verdict))
  {
  }

  /** The report of a synchronous call ends its request as the verdict says. */
  lemma ReportEnds(s: D.State, e: nat)
    requires D.Enabled(s, D.Report(e)) && s.execs[e].sync && s.execs[e].from.None?
    ensures EndsBy(s.execs[e], e, s.execs[e].phase.verdict, D.Step(s, D.Report(e)))
  {
    var c := s.execs[e].phase.to;
    ConcludeEnds(if c in s.inflight then s.(inflight := s.inflight[c := s.inflight[c] - 1]) else s, e, c,
                 s.execs[e].phase.verdict);
  }

  /** Outside `SendSync` the one step that a call in it can take is its report, once `SendSync` has returned. */
  lemma OnlyReports(peer: Peer, j: Joint, a: D.Action, w: nat)
    requires Enabled(peer, j, Server(a)) && LinkedAt(j, w, peer)
    requires H.IsCallAction(a) && a.e == j.execs[w]
    ensures a.Report? && j.wire.calls[w].phase.Returned?
  {
  }

  lemma ServerKeepsLinkAt(peer: Peer, j: Joint, a: D.Action, w: nat)
    requires D.Inv(j.server) && Enabled(peer, j, Server(a)) && LinkedAt(j, w, peer)
    ensures LinkedAt(Step(peer, j, Server(a)), w, peer)
  {
    var e := j.execs[w];
    var x := j.server.execs[e];
    assert D.Fits(x, j.server.asked);
    if H.IsCallAction(a) && a.e == e {
      OnlyReports(peer, j, a, w);
      ReportEnds(j.server, e);
    } else {
      H.OthersStay(j.server, a, e);
      if x.phase.Finished? {
        G.EndIsFinal(j.server, a, x.req);
      }
    }
  }

  // -------------------------------------------------------------- steps of the connection

  /** What the connection does next is a step that the server is ready for. */
  lemma ShownIsEnabled(peer: Peer, j: Joint, a: S.Action)
    requires Linked(peer, j) && S.Enabled(j.wire, a) && Shown(peer, j, a).Some?
    ensures D.Enabled(j.server, Shown(peer, j, a).value)
  {
    match a
    case Write(w, _) => assert LinkedAt(j, w, peer);
    case Receive(w) => assert LinkedAt(j, w, peer);
    case Expire(w) => assert LinkedAt(j, w, peer);
  }

  /** The call of the connection that the step is one of, if any. */
  function Mover(a: S.Action): Option<nat> {
    match a
    case Register(w) => Some(w)
    case Write(w, _) => Some(w)
    case Receive(w) => Some(w)
    case Expire(w) => Some(w)
    case Leave(w) => Some(w)
    case _ => None
  }

  lemma MoverKeepsLink(peer: Peer, j: Joint, a: S.Action, w: nat)
    requires Linked(peer, j) && Enabled(peer, j, Wire(a)) && Mover(a) == Some(w) && w < |j.execs|
    ensures LinkedAt(Step(peer, j, Wire(a)), w, peer)
  {
    assert LinkedAt(j, w, peer);
    if Shown(peer, j, a).Some? {
      ShownIsEnabled(peer, j, a);
    }
  }

  lemma OthersKeepLink(peer: Peer, j: Joint, a: S.Action, w: nat)
    requires D.Inv(j.server) && Linked(peer, j) && Enabled(peer, j, Wire(a)) && Mover(a) != Some(w) && w < |j.execs|
    ensures LinkedAt(Step(peer, j, Wire(a)), w, peer)
  {
    assert LinkedAt(j, w, peer);
    var x := j.server.execs[j.execs[w]];
    if Shown(peer, j, a).Some? {
      var y := Shown(peer, j, a).value;
      ShownIsEnabled(peer, j, a);
      assert y.e == j.execs[Mover(a).value] != j.execs[w];
      H.OthersStay(j.server, y, j.execs[w]);
      if x.phase.Finished? {
        G.EndIsFinal(j.server, y, x.req);
      }
    }
  }

  lemma WireKeepsLink(peer: Peer, j: Joint, a: S.Action)
    requires D.Inv(j.server) && Linked(peer, j) && Enabled(peer, j, Wire(a))
    ensures Linked(peer, Step(peer, j, Wire(a)))
  {
    var t := Step(peer, j, Wire(a));
    forall w | 0 <= w < |t.execs| ensures LinkedAt(t, w, peer) {
      if Mover(a) == Some(w) {
        MoverKeepsLink(peer, j, a, w);
      } else {
        OthersKeepLink(peer, j, a, w);
      }
    }
    assert |S.Step(j.wire, a).calls| == |j.wire.calls|;
  }

  lemma ServerKeepsLink(peer: Peer, j: Joint, a: D.Action)
    requires D.Inv(j.server) && Linked(peer, j) && Enabled(peer, j, Server(a))
    ensures Linked(peer, Step(peer, j, Server(a)))
  {
    forall w | 0 <= w < |j.execs| ensures LinkedAt(Step(peer, j, Server(a)), w, peer) {
      ServerKeepsLinkAt(peer, j, a, w);
    }
  }

  lemma EnterKeepsLink(peer: Peer, j: Joint, e: nat)
    requires Linked(peer, j) && Enabled(peer, j, Enter(e))
    ensures Linked(peer, Step(peer, j, Enter(e)))
  {
    var t := Step(peer, j, Enter(e));
    forall w | 0 <= w < |t.execs| ensures LinkedAt(t, w, peer) {
      assert w < |j.execs| ==> LinkedAt(j, w, peer);
    }
  }

  // ------------------------------------------------------------------------------ runs

  ghost predicate Sound(peer: Peer, j: Joint) {
    D.Inv(j.server) && S.Inv(j.wire) && Linked(peer, j)
  }

  lemma StepKeepsSound(peer: Peer, j: Joint, m: Move)
    requires Sound(peer, j) && Enabled(peer, j, m)
    ensures Sound(peer, Step(peer, j, m))
  {
    match m {
      case Server(a) =>
        D.StepKeeps(j.server, a);
        ServerKeepsLink(peer, j, a);
      case Enter(e) =>
        S.StepKeepsInv(j.wire, S.Begin(j.server.execs[e].req));
        EnterKeepsLink(peer, j, e);
      case Wire(a) =>
        S.StepKeepsInv(j.wire, a);
        if Shown(peer, j, a).Some? {
          ShownIsEnabled(peer, j, a);
          D.StepKeeps(j.server, Shown(peer, j, a).value);
        }
        WireKeepsLink(peer, j, a);
    }
  }

  lemma RunIsSound(peer: Peer, states: seq<Joint>, moves: seq<Move>, k: nat)
    requires IsRun(peer, states, moves) && k < |states|
    ensures Sound(peer, states[k])
  {
    G.StartIsSound();
    forall j, m, t | Sound(peer, j) && Steps(peer)(j, m, t) ensures Sound(peer, t) {
      StepKeepsSound(peer, j, m);
    }
    Invariant(START, Steps(peer), j => Sound(peer, j), states, moves, k);
  }

  // ------------------------------------------------------------------------ the outcomes

  /** What each of the two machines does in a joint run, it can do by itself. */
  ghost predicate EachByItself(j: Joint) {
    Reachable(D.START, G.Follows, j.server) && Reachable(S.START, S.Follows, j.wire)
  }

  lemma StepByItself(peer: Peer, j: Joint, m: Move)
    requires EachByItself(j) && Enabled(peer, j, m)
    ensures EachByItself(Step(peer, j, m))
  {
    match m {
      case Server(a) => ReachOn(D.START, G.Follows, j.server, a, D.Step(j.server, a));
      case Enter(e) =>
        var b := S.Begin(j.server.execs[e].req);
        ReachOn(S.START, S.Follows, j.wire, b, S.Step(j.wire, b));
      case Wire(a) =>
        ReachOn(S.START, S.Follows, j.wire, a, S.Step(j.wire, a));
        var x := Shown(peer, j, a);
        if x.Some? && D.Enabled(j.server, x.value) {
          ReachOn(D.START, G.Follows, j.server, x.value, D.Step(j.server, x.value));
        }
    }
  }

  lemma RunsSideBySide(peer: Peer, states: seq<Joint>, moves: seq<Move>, k: nat)
    requires IsRun(peer, states, moves) && k < |states|
    ensures EachByItself(states[k])
  {
    StartIsReachable(D.START, G.Follows);
    StartIsReachable(S.START, S.Follows);
    forall j, m, t | EachByItself(j) && Steps(peer)(j, m, t) ensures EachByItself(t) {
      StepByItself(peer, j, m);
    }
    Invariant(START, Steps(peer), j => EachByItself(j), states, moves, k);
  }

  /** A call whose request has ended has returned from `SendSync`, with an answer exactly when it was answered. */
  lemma EndedHasReturned(peer: Peer, j: Joint, w: nat)
    requires Sound(peer, j) && w < |j.execs|
    ensures LinkedAt(j, w, peer) && j.wire.calls[w].req in j.server.place
    ensures var c := j.wire.calls[w];
      j.server.place[c.req].Ended? ==> c.phase.Returned? && j.server.place[c.req] == EndOf(peer, c.phase.result)
  {
    assert LinkedAt(j, w, peer);
    var x := j.server.execs[j.execs[w]];
    assert D.Fits(x, j.server.asked);
    if D.Active(x) {
      assert D.At(j.server.place, x.req, D.With(j.execs[w]));
    }
  }

  /**
   From end to end: the caller of `ExecuteSync` has its answer if and only if the
   connection returned a result that can be decoded, and that came from the worker under
   the request's own id; otherwise it has an error.
   */
  lemma AnsweredExactlySo(peer: Peer, states: seq<Joint>, moves: seq<Move>, k: nat, w: nat)
    requires IsRun(peer, states, moves) && k < |states| && w < |states[k].execs|
    ensures w < |states[k].wire.calls| && states[k].wire.calls[w].req in states[k].server.place
    ensures var j := states[k];
      var c := j.wire.calls[w];
      j.server.place[c.req].Ended? ==>
        && c.phase.Returned?
        && (j.server.place[c.req] == D.Ended(D.Answered) <==> IsAnswer(peer, c.phase.result))
        && (j.server.place[c.req] == D.Ended(D.Rejected) <==> !IsAnswer(peer, c.phase.result))
        && (c.phase.result.Some? ==> S.Answer(c.req, c.phase.result.value) in j.wire.arrived)
  {
    RunIsSound(peer, states, moves, k);
    EndedHasReturned(peer, states[k], w);
    assert S.Own(states[k].wire.calls[w], states[k].wire.arrived);
  }

  /** While the server waits for a result, so does the connection: neither gives the request up alone. */
  lemma AwaitsTogether(peer: Peer, states: seq<Joint>, moves: seq<Move>, k: nat, w: nat)
    requires IsRun(peer, states, moves) && k < |states| && w < |states[k].execs|
    ensures states[k].execs[w] < |states[k].server.execs| && w < |states[k].wire.calls|
    ensures states[k].server.execs[states[k].execs[w]].phase == D.Awaiting(peer.to)
            <==> states[k].wire.calls[w].phase.Waiting?
  {
    RunIsSound(peer, states, moves, k);
    assert LinkedAt(states[k], w, peer);
  }

  /** A wait ends for both at once, answered exactly when the channel held what can be decoded. */
  lemma WaitEndsTogether(peer: Peer, states: seq<Joint>, moves: seq<Move>, k: nat, w: nat, a: S.Action)
    requires IsRun(peer, states, moves) && k < |states| && w < |states[k].execs|
    requires (a == S.Receive(w) || a == S.Expire(w)) && S.Enabled(states[k].wire, a)
    ensures w < |states[k].wire.calls|
    ensures var j := states[k];
      var x := D.Await(j.execs[w], a.Receive? && IsAnswer(peer, j.wire.calls[w].buffer));
      && D.Enabled(j.server, x) && Step(peer, j, Wire(a)).server == D.Step(j.server, x)
      && (a.Receive? ==> S.Came(j.wire.arrived, j.wire.calls[w].req, j.wire.calls[w].buffer))
  {
    RunIsSound(peer, states, moves, k);
    ShownIsEnabled(peer, states[k], a);
  }

  // ---------------------------------------------------- every run of the connection is one

  /** The server has asked for what the connection was given, and its client is open. */
  predicate Ready(peer: Peer, j: Joint) {
    && peer.to in j.server.clients && peer.to !in j.server.closed && peer.to in j.server.inflight
    && forall r :: r in j.server.asked ==> exists w :: 0 <= w < |j.wire.calls| && j.wire.calls[w].req == r
  }

  ghost predicate CanBe(peer: Peer, j: Joint) {
    Reachable(START, Steps(peer), j)
  }

  lemma Reach(peer: Peer, j: Joint, m: Move, t: Joint)
    requires CanBe(peer, j) && Follows(peer, j, m, t)
    ensures CanBe(peer, t)
  {
    ReachOn(START, Steps(peer), j, m, t);
  }

  lemma CanBeIsSound(peer: Peer, j: Joint)
    requires CanBe(peer, j)
    ensures Sound(peer, j)
  {
    var states, moves :| Run(START, Steps(peer), states, moves) && states[|moves|] == j;
    RunIsSound(peer, states, moves, |moves|);
  }

  /** A new request of a caller, dispatched to the client, which enters `SendSync`. */
  lemma CanEnter(peer: Peer, j: Joint, r: Id) returns (t: Joint)
    requires CanBe(peer, j) && Ready(peer, j) && S.Enabled(j.wire, S.Begin(r))
    ensures CanBe(peer, t) && Ready(peer, t) && t.wire == S.Step(j.wire, S.Begin(r))
  {
    CanBeIsSound(peer, j);
    forall w | 0 <= w < |j.execs| ensures j.execs[w] < |j.server.execs| {
      assert LinkedAt(j, w, peer);
    }
    var e := |j.server.execs|;
    var b, p := D.Begin(r, true), D.Pick(e, peer.to);
    var j1 := j.(server := D.Step(j.server, b));
    Reach(peer, j, Server(b), j1);
    var j2 := j1.(server := D.Step(j1.server, p));
    Reach(peer, j1, Server(p), j2);
    t := Step(peer, j2, Enter(e));
    Reach(peer, j2, Enter(e), t);
    forall q | q in t.server.asked ensures exists w :: 0 <= w < |t.wire.calls| && t.wire.calls[w].req == q {
      if q == r {
        assert t.wire.calls[|j.wire.calls|].req == r;
      } else {
        var w :| 0 <= w < |j.wire.calls| && j.wire.calls[w].req == q;
        assert t.wire.calls[w].req == q;
      }
    }
  }

  lemma CanMove(peer: Peer, j: Joint, a: S.Action) returns (t: Joint)
    requires CanBe(peer, j) && Ready(peer, j) && !a.Begin? && S.Enabled(j.wire, a)
    ensures CanBe(peer, t) && Ready(peer, t) && t.wire == S.Step(j.wire, a)
  {
    t := Step(peer, j, Wire(a));
    Reach(peer, j, Wire(a), t);
    forall q | q in t.server.asked ensures exists w :: 0 <= w < |t.wire.calls| && t.wire.calls[w].req == q {
      var w :| 0 <= w < |j.wire.calls| && j.wire.calls[w].req == q;
      assert t.wire.calls[w].req == q;
    }
  }

  lemma ReadyAtFirst(peer: Peer) returns (t: Joint)
    ensures CanBe(peer, t) && Ready(peer, t) && t.wire == S.START
  {
    StartIsReachable(START, Steps(peer));
    t := START.(server := D.Step(D.START, D.AddClient(peer.to)));
    Reach(peer, START, Server(D.AddClient(peer.to)), t);
  }

  /** The server leaves the connection every freedom it has: each of its runs is its part of a joint run. */
  lemma {:induction false} EveryWireRunIsServed(peer: Peer, states: seq<S.State>, acts: seq<S.Action>, k: nat) returns (j: Joint)
    requires S.IsRun(states, acts) && k < |states|
    ensures CanBe(peer, j) && Ready(peer, j) && j.wire == states[k]
  {
    if k == 0 {
      j := ReadyAtFirst(peer);
    } else {
      var i := EveryWireRunIsServed(peer, states, acts, k - 1);
      assert S.Follows(states[k - 1], acts[k - 1], states[k - 1 + 1]);
      if acts[k - 1].Begin? {
        j := CanEnter(peer, i, acts[k - 1].r);
      } else {
        j := CanMove(peer, i, acts[k - 1]);
      }
    }
  }
}
