/**
 Nothing in the delivery machine waits for ever on the server's own account: every call
 and every redispatch loop can go on, and what comes from outside can come at any time.
 */
module DeliveryProgress {
  import opened Delivery
  import opened DeliveryGuarantees
  import opened DeliveryHistory
  import opened Ids
  import opened Options
  import opened Runs

  lemma {:induction false} SetIsListed(rs: set<Id>) returns (q: seq<Id>)
    ensures IsListOf(q, rs)
  {
    q := [];
    if rs != {} {
      var r :| r in rs;
      q := SetIsListed(rs - {r});
      q := q + [r];
    }
  }

  /** A step of call `e` is possible. */
  ghost predicate CanGoOn(s: State, e: nat) {
    exists a: Action :: IsCallAction(a) && a.e == e && Enabled(s, a)
  }

  /** A step of the redispatch loop of `c`, once its connection has failed, is possible. */
  ghost predicate CanDrain(s: State, c: Id) {
    exists a: Action :: (a.Collect? || a.Redispatch? || a.Leave?) && a.c == c && Enabled(s, a)
  }

  lemma PickingGoesOn(s: State, e: nat)
    requires Inv(s) && IsCall(s, e) && s.execs[e].phase.Picking?
    ensures forall c :: c in s.clients ==> Enabled(s, Pick(e, c))
    ensures CanGoOn(s, e)
  {
    assert Index(s.clients, s.inflight, s.loops);
    if s.clients == {} {
      assert Enabled(s, NoClient(e));
    } else {
      var c :| c in s.clients;
      assert Enabled(s, Pick(e, c));
    }
  }

  lemma OthersGoOn(s: State, e: nat)
    requires IsCall(s, e) && Active(s.execs[e]) && !s.execs[e].phase.Picking?
    ensures CanGoOn(s, e)
    ensures s.execs[e].phase.Sending? ==> forall ok :: Enabled(s, Send(e, ok))
    ensures s.execs[e].phase.Awaiting? ==> forall answered :: Enabled(s, Await(e, answered))
  {
    match s.execs[e].phase {
      case Sending(_) => assert Enabled(s, Send(e, true));
      case Awaiting(_) => assert Enabled(s, Await(e, true));
      case Reporting(_, _) => assert Enabled(s, Report(e));
      case Tracking(_) => assert Enabled(s, TrackLoad(e));
      case Storing(_) => assert Enabled(s, TrackStore(e));
    }
  }

  /**
   A call that has not returned can go on: with any client in the balancer, with a write
   that succeeds or fails, with a result or without.
   */
  lemma NoCallIsStuck(states: seq<State>, acts: seq<Action>, k: nat, e: nat)
    requires IsRun(states, acts) && k < |states|
    requires IsCall(states[k], e) && !states[k].execs[e].phase.Finished?
    ensures CanGoOn(states[k], e)
    ensures states[k].execs[e].phase.Picking? ==> forall c :: c in states[k].clients ==> Enabled(states[k], Pick(e, c))
    ensures states[k].execs[e].phase.Sending? ==> forall ok :: Enabled(states[k], Send(e, ok))
    ensures states[k].execs[e].phase.Awaiting? ==> forall answered :: Enabled(states[k], Await(e, answered))
  {
    RunIsSound(states, acts, k);
    if states[k].execs[e].phase.Picking? {
      PickingGoesOn(states[k], e);
    } else {
      OthersGoOn(states[k], e);
    }
  }

  lemma OnlyAddingAdds(s: State, a: Action, t: State, c: Id)
    requires Inv(s) && Follows(s, a, t)
    ensures c in t.loops <==> c in s.loops || a == AddClient(c)
  {
    if IsCallAction(a) {
      CallActionTouches(s, a);
    }
  }

  /**
   Of a client that was added, ACKs can come and its reading can fail while it is read, and
   its heartbeat can give up at any time.
   */
  lemma AnyClientCanFail(states: seq<State>, acts: seq<Action>, k: nat, c: Id)
    requires IsRun(states, acts) && k < |states|
    requires exists i: nat :: i < k && acts[i] == AddClient(c)
    ensures c in states[k].loops && Enabled(states[k], MarkClosed(c)) && c in Step(states[k], MarkClosed(c)).closed
    ensures states[k].loops[c].Reading? ==> Enabled(states[k], ReadFails(c)) && forall r :: Enabled(states[k], Ack(c, r))
  {
    StartIsSound();
    forall s, a, t | Sound(s) && Follows(s, a, t) ensures Sound(t) && (c in t.loops <==> c in s.loops || a == AddClient(c)) {
      StepKeepsSound(s, a, t);
      OnlyAddingAdds(s, a, t, c);
    }
    HoldsExactlySo(START, Follows, s => Sound(s), (s: State) => c in s.loops, (s: State, a: Action) => a == AddClient(c),
                   states, acts, k);
  }

  predicate HasLeft(s: State, c: Id) {
    c in s.loops && s.loops[c].Exited?
  }

  lemma OnlyLeavingLeaves(s: State, a: Action, t: State, c: Id)
    requires Inv(s) && Follows(s, a, t)
    ensures HasLeft(t, c) <==> HasLeft(s, c) || (a.Leave? && a.c == c)
  {
    if IsCallAction(a) {
      CallActionTouches(s, a);
    }
  }

  /** The loop of a client is over exactly when it has left the manager, which it does once. */
  lemma LeftExactlySo(states: seq<State>, acts: seq<Action>, k: nat, c: Id)
    requires IsRun(states, acts) && k < |states|
    ensures HasLeft(states[k], c) <==> exists i: nat :: i < k && acts[i].Leave? && acts[i].c == c
    ensures HasLeft(states[k], c) && k < |acts| ==>
      acts[k] !in {ReadFails(c), Redispatch(c)} && !(acts[k].Leave? && acts[k].c == c)
  {
    StartIsSound();
    forall s, a, t | Sound(s) && Follows(s, a, t)
      ensures Sound(t) && (HasLeft(t, c) <==> HasLeft(s, c) || (a.Leave? && a.c == c))
    {
      StepKeepsSound(s, a, t);
      OnlyLeavingLeaves(s, a, t, c);
    }
    HoldsExactlySo(START, Follows, s => Sound(s), (s: State) => HasLeft(s, c),
                   (s: State, a: Action) => a.Leave? && a.c == c, states, acts, k);
    assert k < |acts| ==> Follows(states[k], acts[k], states[k + 1]);
  }

  lemma DrainGoesOn(s: State, c: Id)
    requires Inv(s) && c in s.loops
    requires s.loops[c].Draining? || (s.loops[c].Redispatching? && s.loops[c].busy.None?)
    ensures CanDrain(s, c)
  {
    match s.loops[c] {
      case Draining =>
        assert Attachment(s.attached, s.tables, s.loops);
        var order := SetIsListed(s.tables[c]);
        assert Enabled(s, Collect(c, order));
      case Redispatching(queue, _) =>
        if queue == [] {
          assert Enabled(s, Leave(c, true));
        } else {
          assert Enabled(s, Redispatch(c));
        }
    }
  }

  /** Nothing is left for the server to do. */
  ghost predicate Idles(s: State) {
    && (forall e: nat :: !CanGoOn(s, e))
    && (forall c :: !CanDrain(s, c))
  }

  /**
   When the server has nothing left to do, every request has come to its end or is in the
   table of a client that is being read, where only an ACK is still to come.
   */
  lemma IdleMeansSettled(states: seq<State>, acts: seq<Action>, k: nat, r: Id)
    requires IsRun(states, acts) && k < |states| && Idles(states[k]) && r in states[k].asked
    ensures r in states[k].place
    ensures var p := states[k].place[r];
      p.Ended? || (p.InTable? && p.c in states[k].loops && states[k].loops[p.c].Reading?)
  {
    var s := states[k];
    RunIsSound(states, acts, k);
    assert Kinds(s.execs, s.asked, s.place) && Calls(s.execs, s.place);
    match s.place[r] {
      case With(e) =>
        assert WorksFor(s.execs, e, r);
        NoCallIsStuck(states, acts, k, e);
      case InTable(c) =>
        assert Tables(s.tables, s.loops, s.place);
        if s.loops[c].Draining? {
          DrainGoesOn(s, c);
        }
      case Queued(c) =>
        assert Queues(s.loops, s.place) && r in QueueOf(s.loops, c);
        LoopGoesOn(states, acts, k, c);
      case Ended(_) =>
    }
  }

  /** A loop that redispatches can go on, or the call that it waits for can. */
  lemma LoopGoesOn(states: seq<State>, acts: seq<Action>, k: nat, c: Id)
    requires IsRun(states, acts) && k < |states|
    requires c in states[k].loops && states[k].loops[c].Redispatching?
    ensures CanDrain(states[k], c) || (states[k].loops[c].busy.Some? && CanGoOn(states[k], states[k].loops[c].busy.value))
  {
    var s := states[k];
    RunIsSound(states, acts, k);
    if s.loops[c].busy.Some? {
      assert Loops(s.execs, s.loops);
      assert CalledFrom(s.execs, s.loops[c].busy.value, c);
      NoCallIsStuck(states, acts, k, s.loops[c].busy.value);
    } else {
      DrainGoesOn(s, c);
    }
  }
}
