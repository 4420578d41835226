/**
 The client manager's methods are steps of the delivery machine: what the manager's
 objects hold is what the machine's state says, before and after.
 */
module ManagerSteps {
  import opened ClientManager
  import opened Delivery
  import opened DeliveryGuarantees
  import opened Ids
  import opened Options

  /** The part of the machine's state that the manager holds. */
  datatype Held = Held(
    clients: set<Id>,
    closed: set<Id>,
    inflight: map<Id, int>,
    attached: set<Id>,
    tables: map<Id, set<Id>>)

  function HeldIn(s: State): Held {
    Held(s.clients, s.closed, s.inflight, s.attached, s.tables)
  }

  ghost predicate Shows(m: Manager, h: Held)
    reads m, m.clients.Values, m.pending.Values
  {
    && m.Valid()
    && m.clients.Keys == h.clients
    && m.index == h.inflight
    && m.pending.Keys == h.attached
    && (forall c :: c in m.clients ==> (m.clients[c].closed <==> c in h.closed))
    && (forall c :: c in m.pending ==> m.pending[c].reqs.Keys == TableOf(h.tables, c))
  }

  // ------------------------------------------------- what each step does to what is held

  /** What is held after a try at `c`, which the balancer knows. */
  function AfterTry(h: Held, c: Id): Held
    requires c in h.inflight
  {
    if c in h.clients && c !in h.closed then h.(inflight := h.inflight[c := h.inflight[c] + 1])
    else h.(clients := h.clients - {c}, inflight := h.inflight - {c})
  }

  lemma PickHolds(s: State, e: nat, c: Id)
    requires Enabled(s, Pick(e, c))
    ensures HeldIn(Step(s, Pick(e, c))) == AfterTry(HeldIn(s), c)
  {
  }

  predicate GoesOnToSend(s: State, e: nat, c: Id) {
    e < |s.execs| && s.execs[e].phase == Sending(c)
  }

  lemma PickSendsIff(s: State, e: nat, c: Id)
    requires Inv(s) && Enabled(s, Pick(e, c))
    ensures GoesOnToSend(Step(s, Pick(e, c)), e, c) <==> c in s.clients && c !in s.closed
  {
    PickTakesLiveOrEvictsDead(s, e, c);
  }

  lemma ReportHolds(s: State, e: nat)
    requires Enabled(s, Report(e))
    ensures var c := s.execs[e].phase.to;
      HeldIn(Step(s, Report(e))) ==
        if c in s.inflight then HeldIn(s).(inflight := s.inflight[c := s.inflight[c] - 1]) else HeldIn(s)
  {
  }

  /** `TrackRequest` is the look-up and, if it finds a table, the store. */
  function TrackSteps(s: State, e: nat): State
    requires Enabled(s, TrackLoad(e))
  {
    var t := Step(s, TrackLoad(e));
    if s.execs[e].phase.to in s.attached then Step(t, TrackStore(e)) else t
  }

  lemma TrackHolds(s: State, e: nat)
    requires Enabled(s, TrackLoad(e))
    ensures var c := s.execs[e].phase.to;
      HeldIn(TrackSteps(s, e)) ==
        if c in s.attached then HeldIn(s).(tables := s.tables[c := TableOf(s.tables, c) + {s.execs[e].req}])
        else HeldIn(s)
  {
  }

  lemma AckHolds(s: State, c: Id, r: Id)
    requires Inv(s) && Enabled(s, Ack(c, r))
    ensures HeldIn(Step(s, Ack(c, r))) == HeldIn(s).(tables := s.tables[c := TableOf(s.tables, c) - {r}])
  {
    assert c in s.attached && c in s.tables;
    if r !in s.tables[c] {
      assert s.tables[c] - {r} == s.tables[c];
    }
  }

  lemma LeaveHolds(s: State, c: Id, closes: bool)
    requires Enabled(s, Leave(c, closes))
    ensures HeldIn(Step(s, Leave(c, closes))) ==
            if c !in s.clients then HeldIn(s)
            else if c in s.closed || closes then
              HeldIn(s).(clients := s.clients - {c}, inflight := s.inflight - {c}, closed := s.closed + {c})
            else HeldIn(s).(closed := s.closed + {c})
  {
  }

  // ------------------------------------------------------------------- the methods as steps

  method AddClientStep(m: Manager, client: Client, ghost s: State)
    requires Inv(s) && Enabled(s, AddClient(client.id)) && Shows(m, HeldIn(s))
    requires !client.closed && client.id !in s.closed
    modifies m
    ensures Shows(m, HeldIn(Step(s, AddClient(client.id))))
  {
    m.AddClient(client);
  }

  method Try(m: Manager, node: Id, ghost h: Held) returns (got: Option<Client>)
    requires node in h.inflight && Shows(m, h)
    modifies m`clients, m`index, m.clients.Values
    ensures Shows(m, AfterTry(h, node))
    ensures got.Some? <==> node in h.clients && node !in h.closed
  {
    got := m.TryClient(node);
  }

  method PickStep(m: Manager, node: Id, ghost s: State, ghost e: nat) returns (got: Option<Client>)
    requires Inv(s) && Enabled(s, Pick(e, node)) && Shows(m, HeldIn(s))
    modifies m`clients, m`index, m.clients.Values
    ensures Shows(m, HeldIn(Step(s, Pick(e, node))))
    ensures got.Some? <==> GoesOnToSend(Step(s, Pick(e, node)), e, node)
  {
    PickHolds(s, e, node);
    PickSendsIff(s, e, node);
    got := Try(m, node, HeldIn(s));
  }

  method DoneStep(m: Manager, node: Id, ghost s: State, ghost e: nat)
    requires Enabled(s, Report(e)) && s.execs[e].phase.to == node && Shows(m, HeldIn(s))
    modifies m`index
    ensures Shows(m, HeldIn(Step(s, Report(e))))
  {
    ReportHolds(s, e);
    m.Done(node);
  }

  method TrackStep(m: Manager, client: Id, req: Request, ghost s: State, ghost e: nat)
    requires Enabled(s, TrackLoad(e)) && s.execs[e].phase.to == client && s.execs[e].req == req.id
    requires Shows(m, HeldIn(s))
    modifies m.pending.Values
    ensures Shows(m, HeldIn(TrackSteps(s, e)))
  {
    TrackHolds(s, e);
    m.TrackRequest(client, req);
  }

  method AcknowledgeStep(m: Manager, client: Id, req: Id, ghost s: State)
    requires Inv(s) && Enabled(s, Ack(client, req)) && Shows(m, HeldIn(s))
    modifies m.pending.Values
    ensures Shows(m, HeldIn(Step(s, Ack(client, req))))
  {
    AckHolds(s, client, req);
    m.AcknowledgeRequest(client, req);
  }

  method DrainSteps(m: Manager, client: Id, ghost s: State) returns (result: seq<Request>, ghost order: seq<Id>)
    requires Inv(s) && Enabled(s, ReadFails(client)) && Shows(m, HeldIn(s))
    modifies m`pending
    ensures Enabled(Step(s, ReadFails(client)), Collect(client, order)) && |result| == |order|
    ensures Shows(m, HeldIn(Step(Step(s, ReadFails(client)), Collect(client, order))))
  {
    assert client in s.attached && client in s.tables;
    result, order := m.DrainPending(client);
  }

  method LeaveStep(m: Manager, client: Id, clean: bool, ghost s: State)
    requires Enabled(s, Leave(client, clean)) && Shows(m, HeldIn(s))
    modifies m`clients, m`index, m.clients.Values
    ensures Shows(m, HeldIn(Step(s, Leave(client, clean))))
  {
    LeaveHolds(s, client, clean);
    var _ := m.RemoveClient(client, clean);
  }

  // ------------------------------------------------------------- all tries of a dispatch

  /** The actions lead from `s` to `t`. */
  ghost predicate LeadsTo(s: State, acts: seq<Action>, t: State)
    decreases acts
  {
    if acts == [] then s == t else Enabled(s, acts[0]) && LeadsTo(Step(s, acts[0]), acts[1..], t)
  }

  lemma OneMoreStep(s: State, a: Action, acts: seq<Action>, t: State)
    requires Enabled(s, a) && LeadsTo(Step(s, a), acts, t)
    ensures LeadsTo(s, [a] + acts, t)
  {
    assert ([a] + acts)[1..] == acts;
  }

  lemma {:induction false} OneStepLast(s: State, acts: seq<Action>, t: State, a: Action)
    requires LeadsTo(s, acts, t) && Enabled(t, a)
    ensures LeadsTo(s, acts + [a], Step(t, a))
    decreases acts
  {
    if acts == [] {
      assert [] + [a] == [a] && [a][1..] == [];
    } else {
      OneStepLast(Step(s, acts[0]), acts[1..], t, a);
      assert (acts + [a])[0] == acts[0] && (acts + [a])[1..] == acts[1..] + [a];
    }
  }

  /** The steps are picks of call `e`, and at the end perhaps its finding no client. */
  predicate ArePicks(acts: seq<Action>, e: nat) {
    forall i :: 0 <= i < |acts| ==> (acts[i].Pick? && acts[i].e == e) || acts[i] == NoClient(e)
  }

  /** Where call `e` stands after `k` closed clients: at the next try, or at its end after the third. */
  predicate StandsAfter(s: State, e: nat, k: nat) {
    IsCall(s, e) && if k < 3 then s.execs[e].phase == Picking(k) else s.execs[e].phase.Finished?
  }

  function WithoutClients(h: Held, gone: set<Id>): Held {
    h.(clients := h.clients - gone, inflight := h.inflight - gone)
  }

  lemma WithoutOneMore(h: Held, gone: set<Id>, c: Id)
    requires c in gone
    ensures WithoutClients(WithoutClients(h, {c}), gone - {c}) == WithoutClients(h, gone)
  {
    assert h.inflight - {c} - (gone - {c}) == h.inflight - gone;
    assert h.clients - {c} - (gone - {c}) == h.clients - gone;
  }

  lemma ClosedPick(s: State, e: nat, c: Id, k: nat)
    requires StandsAfter(s, e, k) && k < 3 && c in s.inflight && c in s.closed
    ensures Enabled(s, Pick(e, c)) && StandsAfter(Step(s, Pick(e, c)), e, k + 1)
    ensures HeldIn(Step(s, Pick(e, c))) == WithoutClients(HeldIn(s), {c})
  {
    PickHolds(s, e, c);
  }

  /** Clients that the balancer knows and that are closed. */
  predicate AreDead(h: Held, gone: set<Id>) {
    forall c :: c in gone ==> c in h.inflight && c in h.closed
  }

  /** Closed clients, picked one after the other. */
  lemma {:induction false} ClosedPicks(s: State, e: nat, gone: set<Id>, k: nat) returns (acts: seq<Action>, t: State)
    requires StandsAfter(s, e, k) && k + |gone| <= 3 && AreDead(HeldIn(s), gone)
    ensures LeadsTo(s, acts, t) && ArePicks(acts, e)
    ensures StandsAfter(t, e, k + |gone|) && HeldIn(t) == WithoutClients(HeldIn(s), gone)
    decreases gone
  {
    if gone == {} {
      acts, t := [], s;
      assert s.inflight - gone == s.inflight && s.clients - gone == s.clients;
    } else {
      var c :| c in gone;
      ClosedPick(s, e, c, k);
      var s1 := Step(s, Pick(e, c));
      var more;
      more, t := ClosedPicks(s1, e, gone - {c}, k + 1);
      acts := [Pick(e, c)] + more;
      OneMoreStep(s, Pick(e, c), more, t);
      WithoutOneMore(HeldIn(s), gone, c);
    }
  }

  lemma LivePick(s: State, e: nat, c: Id, k: nat)
    requires StandsAfter(s, e, k) && k < 3 && c in s.inflight && c in s.clients && c !in s.closed
    ensures Enabled(s, Pick(e, c)) && GoesOnToSend(Step(s, Pick(e, c)), e, c)
    ensures HeldIn(Step(s, Pick(e, c))) == AfterTry(HeldIn(s), c)
  {
    PickHolds(s, e, c);
  }

  lemma NoPick(s: State, e: nat, k: nat)
    requires StandsAfter(s, e, k) && k < 3 && s.inflight == map[]
    ensures Enabled(s, NoClient(e)) && StandsAfter(Step(s, NoClient(e)), e, 3)
    ensures HeldIn(Step(s, NoClient(e))) == HeldIn(s)
  {
  }

  /** What all tries leave: without the clients found dead, and with one request more for the one found alive. */
  function AfterTries(h: Held, gone: set<Id>, got: Option<Id>): Held
    requires got.Some? ==> got.value in h.inflight - gone
  {
    if got.Some? then AfterTry(WithoutClients(h, gone), got.value) else WithoutClients(h, gone)
  }

  /** Three tries can find the clients `gone` dead and then `got` alive, or no more. */
  predicate CanFind(h: Held, gone: set<Id>, got: Option<Id>) {
    && AreDead(h, gone) && |gone| <= 3
    && if got.Some? then |gone| < 3 && got.value in h.inflight - gone && got.value in h.clients && got.value !in h.closed
       else |gone| == 3 || h.inflight - gone == map[]
  }

  lemma AllTries(s: State, e: nat, gone: set<Id>, got: Option<Id>) returns (acts: seq<Action>, t: State)
    requires StandsAfter(s, e, 0) && CanFind(HeldIn(s), gone, got)
    ensures LeadsTo(s, acts, t) && ArePicks(acts, e) && HeldIn(t) == AfterTries(HeldIn(s), gone, got)
    ensures if got.Some? then GoesOnToSend(t, e, got.value) else StandsAfter(t, e, 3)
  {
    var picks, u := ClosedPicks(s, e, gone, 0);
    if got.Some? {
      LivePick(u, e, got.value, |gone|);
      OneStepLast(s, picks, u, Pick(e, got.value));
      acts, t := picks + [Pick(e, got.value)], Step(u, Pick(e, got.value));
    } else if |gone| < 3 {
      NoPick(u, e, |gone|);
      OneStepLast(s, picks, u, NoClient(e));
      acts, t := picks + [NoClient(e)], Step(u, NoClient(e));
    } else {
      acts, t := picks, u;
    }
  }

  function IdOf(got: Option<Client>): Option<Id>
    reads if got.Some? then {got.value} else {}
  {
    if got.Some? then Some(got.value.id) else None
  }

  method Find(m: Manager, choice: (nat, set<Id>) -> Id, ghost h: Held) returns (got: Option<Client>, ghost gone: set<Id>)
    requires forall k: nat, ids: set<Id> :: ids != {} ==> choice(k, ids) in ids
    requires Shows(m, h) && h.inflight.Keys == h.clients
    modifies m`clients, m`index, m.clients.Values
    ensures CanFind(h, gone, IdOf(got)) && Shows(m, AfterTries(h, gone, IdOf(got)))
  {
    got, gone := m.GetClientByBalance(choice);
  }

  /** `GetClientByBalance` is a sequence of the machine's picks, and ends as the call does. */
  method GetClientSteps(m: Manager, choice: (nat, set<Id>) -> Id, ghost s: State, ghost e: nat)
    returns (got: Option<Client>, ghost acts: seq<Action>, ghost t: State)
    requires forall k: nat, ids: set<Id> :: ids != {} ==> choice(k, ids) in ids
    requires Index(s.clients, s.inflight, s.loops) && StandsAfter(s, e, 0) && Shows(m, HeldIn(s))
    modifies m`clients, m`index, m.clients.Values
    ensures LeadsTo(s, acts, t) && ArePicks(acts, e) && Shows(m, HeldIn(t))
    ensures if got.Some? then GoesOnToSend(t, e, got.value.id) else StandsAfter(t, e, 3)
  {
    ghost var gone;
    got, gone := Find(m, choice, HeldIn(s));
    acts, t := AllTries(s, e, gone, IdOf(got));
  }
}
