/**
 In-flight accounting from the calls of `Execute` to the fields of the balancer's nodes:
 the node list of the power-of-two-choices balancer, driven by a run of the delivery
 machine, counts for each registered client the calls that hold it.
 */
module BalancerSteps {
  import opened Delivery
  import opened DeliveryGuarantees
  import opened DeliveryHistory
  import opened Ids
  import P = P2CBalance

  /** What a step leaves open for the balancer: weight, times, and how an answer is weighed. */
  datatype Detail = Detail(weight: int, now: int, answer: P.Answer, decay: int -> real)

  /** The list of nodes after the balancer's part in a step. */
  function Driven(s: State, a: Action, ns: seq<P.P2CNode>, d: Detail): seq<P.P2CNode> {
    match a
    case AddClient(c) => P.Added(ns, c, d.weight, d.now)
    case Pick(e, c) =>
      var picked := PickedAt(ns, P.IndexOf(ns, c), d.now);
      if c in s.clients && c !in s.closed then picked else P.Removed(picked, c)
    case Report(e) =>
      if IsCall(s, e) && s.execs[e].phase.Reporting? then P.Answered(ns, s.execs[e].phase.to, d.answer, d.decay) else ns
    case Leave(c, closes) => if c in s.clients && (c in s.closed || closes) then P.Removed(ns, c) else ns
    case _ => ns
  }

  function PickedAt(ns: seq<P.P2CNode>, t: nat, at: int): seq<P.P2CNode> {
    if t < |ns| then ns[t := P.Picked(ns[t], at)] else ns
  }

  lemma PickInFlight(s: State, e: nat, c: Id, ns: seq<P.P2CNode>, d: Detail)
    requires Enabled(s, Pick(e, c)) && P.InFlight(ns, s.inflight)
    ensures P.InFlight(Driven(s, Pick(e, c), ns, d), Step(s, Pick(e, c)).inflight)
  {
    var t, m := P.IndexOf(ns, c), s.inflight[c := s.inflight[c] + 1];
    P.IndexAgrees(ns, s.inflight, c);
    P.IndexOfIsFirst(ns, c);
    P.PickedInFlight(ns, s.inflight, t, d.now);
    P.RemovedInFlight(PickedAt(ns, t, d.now), m, c);
    assert m - {c} == s.inflight - {c};
    PickFlies(s, e, c);
  }

  lemma PickFlies(s: State, e: nat, c: Id)
    requires Enabled(s, Pick(e, c))
    ensures Step(s, Pick(e, c)).inflight ==
            if c in s.clients && c !in s.closed then s.inflight[c := s.inflight[c] + 1] else s.inflight - {c}
  {
  }

  lemma ReportInFlight(s: State, e: nat, ns: seq<P.P2CNode>, d: Detail)
    requires Enabled(s, Report(e)) && P.InFlight(ns, s.inflight)
    ensures P.InFlight(Driven(s, Report(e), ns, d), Step(s, Report(e)).inflight)
  {
    P.AnsweredInFlight(ns, s.inflight, s.execs[e].phase.to, d.answer, d.decay);
    ReportFlies(s, e);
  }

  lemma ReportFlies(s: State, e: nat)
    requires Enabled(s, Report(e))
    ensures var c := s.execs[e].phase.to;
      ReportStep(s, e).inflight == if c in s.inflight then s.inflight[c := s.inflight[c] - 1] else s.inflight
  {
    var c := s.execs[e].phase.to;
    var t := if c in s.inflight then s.(inflight := s.inflight[c := s.inflight[c] - 1]) else s;
    assert Fail(t, e).inflight == t.inflight && Return(t, e, Ended(Answered)).inflight == t.inflight;
    assert Now(t, e, Tracking(c)).inflight == t.inflight;
  }

  /** The nodes follow the machine's counts in every step. */
  lemma StepInFlight(s: State, a: Action, ns: seq<P.P2CNode>, d: Detail)
    requires Index(s.clients, s.inflight, s.loops) && Enabled(s, a) && P.InFlight(ns, s.inflight)
    ensures P.InFlight(Driven(s, a, ns, d), Step(s, a).inflight)
  {
    match a {
      case AddClient(c) => P.AddedInFlight(ns, s.inflight, c, d.weight, d.now);
      case Pick(e, c) => PickInFlight(s, e, c, ns, d);
      case Report(e) => ReportInFlight(s, e, ns, d);
      case Leave(c, closes) => P.RemovedInFlight(ns, s.inflight, c);
      case _ =>
    }
  }

  /** The balancer's list along a run. */
  function Nodes(states: seq<State>, acts: seq<Action>, ds: seq<Detail>, k: nat): seq<P.P2CNode>
    requires k <= |acts| && k <= |states| && k <= |ds|
  {
    if k == 0 then [] else Driven(states[k - 1], acts[k - 1], Nodes(states, acts, ds, k - 1), ds[k - 1])
  }

  lemma RunIsIndexed(states: seq<State>, acts: seq<Action>, i: nat)
    requires IsRun(states, acts) && i < |acts|
    ensures Index(states[i].clients, states[i].inflight, states[i].loops)
    ensures Enabled(states[i], acts[i]) && states[i + 1] == Step(states[i], acts[i])
  {
    RunIsSound(states, acts, i);
    assert Follows(states[i], acts[i], states[i + 1]);
  }

  lemma {:induction false} NodesInFlight(states: seq<State>, acts: seq<Action>, ds: seq<Detail>, k: nat)
    requires IsRun(states, acts) && k <= |acts| <= |ds|
    ensures P.InFlight(Nodes(states, acts, ds, k), states[k].inflight)
  {
    if k > 0 {
      NodesInFlight(states, acts, ds, k - 1);
      RunIsIndexed(states, acts, k - 1);
      StepInFlight(states[k - 1], acts[k - 1], Nodes(states, acts, ds, k - 1), ds[k - 1]);
    }
  }

  /**
   After any run, the balancer has exactly one node for each registered client and none
   besides, and the node's `inflight` field is the number of calls between the client's
   pick and their report.
   */
  lemma NodesCountHolders(states: seq<State>, acts: seq<Action>, ds: seq<Detail>, k: nat, j: nat)
    requires IsRun(states, acts) && k <= |acts| <= |ds|
    ensures var ns := Nodes(states, acts, ds, k);
      && P.DistinctIds(ns)
      && (forall c :: c in states[k].clients <==> P.HasId(ns, c))
      && (j < |ns| ==> ns[j].inflight == Holders(states[k].execs, ns[j].id))
  {
    NodesInFlight(states, acts, ds, k);
    InFlightIsExact(states, acts, k);
  }
}
