/**
 One language's container pool: a buffered channel of idle slots, the calls that
 hold a slot, and the goroutines that repair one, as interleaved steps.
 */
module ContainerPool {
  import opened Decimals
  import opened Options
  import opened Runs

  datatype Slot = Slot(name: string, hostPath: string)

  const MAX_RETRIES: nat := 3

  /** Where a call of `RunCode`, or the repair it left behind, has got to. */
  datatype Phase =
    | Starting                       // about to look at the closed flag in Acquire
    | Waiting                        // receiving from the channel
    | Holding(slot: Slot)            // running code in the container
    | Sending(slot: Slot)            // found the pool open, about to send the slot back
    | Repairing(slot: Slot, attempt: nat)
    | Finished

  predicate Carries(ph: Phase) {
    ph.Holding? || ph.Sending? || ph.Repairing?
  }

  datatype Pool = Pool(
    size: nat,                       // capacity of the channel
    idle: seq<Slot>,                 // what the channel buffers
    closed: bool,                    // the flag
    shut: bool,                      // the channel itself
    calls: seq<Phase>,
    lost: seq<Slot>,                 // given up after the last retry
    dropped: seq<Slot>)              // discarded because the pool was closing

  datatype Action =
    | Call                           // a new RunCode
    | Enter(who: nat)
    | Receive(who: nat)
    | Expire(who: nat)               // the five seconds are over
    | Release(who: nat, healthy: bool)
    | Send(who: nat)
    | Restart(who: nat, ok: bool)
    | MarkClosed
    | ShutChannel

  predicate Enabled(p: Pool, a: Action) {
    match a
    case Call => true
    case Enter(w) => w < |p.calls| && p.calls[w].Starting?
    case Receive(w) => w < |p.calls| && p.calls[w].Waiting? && (p.idle != [] || p.shut)
    case Expire(w) => w < |p.calls| && p.calls[w].Waiting?
    case Release(w, _) => w < |p.calls| && p.calls[w].Holding?
    case Send(w) => w < |p.calls| && p.calls[w].Sending? && (p.shut || |p.idle| < p.size)
    case Restart(w, _) => w < |p.calls| && p.calls[w].Repairing?
    case MarkClosed => !p.closed
    case ShutChannel => p.closed && !p.shut
  }

  function Step(p: Pool, a: Action): Pool
    requires Enabled(p, a)
  {
    match a
    case Call => p.(calls := p.calls + [Starting])
    case Enter(w) => Now(p, w, if p.closed then Finished else Waiting)
    case Receive(w) =>
      if p.idle == [] then Now(p, w, Finished)
      else Now(p, w, Holding(p.idle[0])).(idle := p.idle[1..])
    case Expire(w) => Now(p, w, Finished)
    case Release(w, healthy) =>
      var slot := p.calls[w].slot;
      if p.closed then Drop(p, w)
      else Now(p, w, if healthy then Sending(slot) else Repairing(slot, 1))
    case Send(w) =>
      if p.shut then Drop(p, w)
      else Now(p, w, Finished).(idle := p.idle + [p.calls[w].slot])
    case Restart(w, ok) =>
      var Repairing(slot, attempt) := p.calls[w];
      if ok then
        if p.closed then Drop(p, w) else Now(p, w, Sending(slot))
      else if attempt < MAX_RETRIES then Now(p, w, Repairing(slot, attempt + 1))
      else Now(p, w, Finished).(lost := p.lost + [slot])
    case MarkClosed => p.(closed := true)
    case ShutChannel => p.(shut := true)
  }

  /** Call `w` goes on to phase `ph`. */
  function Now(p: Pool, w: nat, ph: Phase): Pool
    requires w < |p.calls|
  {
    p.(calls := p.calls[w := ph])
  }

  /** Call `w` ends and its slot is discarded. */
  function Drop(p: Pool, w: nat): Pool
    requires w < |p.calls| && Carries(p.calls[w])
  {
    Now(p, w, Finished).(dropped := p.dropped + [p.calls[w].slot])
  }

  // ------------------------------------------------------------------ the new pool

  function NewSlot(prefix: string, hostDir: string, i: nat): Slot {
    Slot(prefix + "-" + Decimal(i), "/app/tmp/" + hostDir + "-" + Decimal(i))
  }

  function NewSlots(prefix: string, hostDir: string, n: nat): (s: seq<Slot>)
    ensures |s| == n
    ensures forall i :: 0 <= i < n ==> s[i] == NewSlot(prefix, hostDir, i)
  {
    if n == 0 then [] else NewSlots(prefix, hostDir, n - 1) + [NewSlot(prefix, hostDir, n - 1)]
  }

  /** No two slots have the same container, and no two the same directory on the host. */
  predicate Distinct(s: seq<Slot>) {
    forall i, j :: 0 <= i < j < |s| ==> s[i].name != s[j].name && s[i].hostPath != s[j].hostPath
  }

  lemma NumbersDiffer(lead: string, i: nat, j: nat)
    requires i != j
    ensures lead + Decimal(i) != lead + Decimal(j)
  {
    ValueOfDecimal(i);
    ValueOfDecimal(j);
    assert (lead + Decimal(i))[|lead|..] == Decimal(i);
    assert (lead + Decimal(j))[|lead|..] == Decimal(j);
  }

  /** A new pool holds as many different containers as its size says, each with a directory of its own. */
  lemma NewSlotsAreDistinct(prefix: string, hostDir: string, n: nat)
    ensures Distinct(NewSlots(prefix, hostDir, n))
  {
    var s := NewSlots(prefix, hostDir, n);
    forall i, j | 0 <= i < j < n ensures s[i].name != s[j].name && s[i].hostPath != s[j].hostPath {
      NumbersDiffer(prefix + "-", i, j);
      NumbersDiffer("/app/tmp/" + hostDir + "-", i, j);
    }
  }

  // ------------------------------------------------------------------- conservation

  /** How many times `s` occurs in `xs`. */
  function Times(xs: seq<Slot>, s: Slot): nat {
    if xs == [] then 0 else Times(xs[1..], s) + (if xs[0] == s then 1 else 0)
  }

  /** How many of the calls and repairs have `s`. */
  function Carriers(calls: seq<Phase>, s: Slot): nat {
    if calls == [] then 0
    else Carriers(calls[1..], s) + Has(calls[0], s)
  }

  function Has(ph: Phase, s: Slot): nat {
    if Carries(ph) && ph.slot == s then 1 else 0
  }

  /** In how many places `s` is: idle, with a call or repair, given up or discarded. */
  function Places(p: Pool, s: Slot): nat {
    Times(p.idle, s) + Carriers(p.calls, s) + Times(p.lost, s) + Times(p.dropped, s)
  }

  lemma {:induction false} TimesAppend(xs: seq<Slot>, x: Slot, s: Slot)
    ensures Times(xs + [x], s) == Times(xs, s) + (if x == s then 1 else 0)
  {
    if xs != [] {
      TimesAppend(xs[1..], x, s);
      assert (xs + [x])[1..] == xs[1..] + [x];
    }
  }

  lemma {:induction false} CarriersUpdate(calls: seq<Phase>, w: nat, ph: Phase, s: Slot)
    requires w < |calls|
    ensures Carriers(calls[w := ph], s) == Carriers(calls, s) - Has(calls[w], s) + Has(ph, s)
  {
    if w > 0 {
      CarriersUpdate(calls[1..], w - 1, ph, s);
      assert calls[w := ph][1..] == calls[1..][w - 1 := ph];
    } else {
      assert calls[w := ph][1..] == calls[1..];
    }
  }

  lemma {:induction false} CarriersExtend(calls: seq<Phase>, ph: Phase, s: Slot)
    ensures Carriers(calls + [ph], s) == Carriers(calls, s) + Has(ph, s)
  {
    if calls != [] {
      CarriersExtend(calls[1..], ph, s);
      assert (calls + [ph])[1..] == calls[1..] + [ph];
    }
  }

  /** The ways a step can change the places of a slot: by a phase, and by one list. */
  lemma NowConserves(p: Pool, w: nat, ph: Phase, s: Slot)
    requires w < |p.calls|
    ensures Places(Now(p, w, ph), s) == Places(p, s) - Has(p.calls[w], s) + Has(ph, s)
  {
    CarriersUpdate(p.calls, w, ph, s);
  }

  lemma DropConserves(p: Pool, w: nat, s: Slot)
    requires w < |p.calls| && Carries(p.calls[w])
    ensures Places(Drop(p, w), s) == Places(p, s)
  {
    NowConserves(p, w, Finished, s);
    TimesAppend(p.dropped, p.calls[w].slot, s);
  }

  lemma GiveBackConserves(p: Pool, w: nat, s: Slot)
    requires w < |p.calls| && Carries(p.calls[w])
    ensures Places(Now(p, w, Finished).(idle := p.idle + [p.calls[w].slot]), s) == Places(p, s)
    ensures Places(Now(p, w, Finished).(lost := p.lost + [p.calls[w].slot]), s) == Places(p, s)
  {
    NowConserves(p, w, Finished, s);
    TimesAppend(p.idle, p.calls[w].slot, s);
    TimesAppend(p.lost, p.calls[w].slot, s);
  }

  lemma GivingUpConserves(p: Pool, w: nat, healthy: bool, s: Slot)
    requires Enabled(p, Release(w, healthy))
    ensures Places(Step(p, Release(w, healthy)), s) == Places(p, s)
  {
    var slot := p.calls[w].slot;
    DropConserves(p, w, s);
    NowConserves(p, w, if healthy then Sending(slot) else Repairing(slot, 1), s);
  }

  lemma RestartConserves(p: Pool, w: nat, ok: bool, s: Slot)
    requires Enabled(p, Restart(w, ok))
    ensures Places(Step(p, Restart(w, ok)), s) == Places(p, s)
  {
    var Repairing(slot, attempt) := p.calls[w];
    DropConserves(p, w, s);
    GiveBackConserves(p, w, s);
    NowConserves(p, w, if ok then Sending(slot) else Repairing(slot, attempt + 1), s);
  }

  /** No step makes, copies or loses a slot. */
  lemma StepConserves(p: Pool, a: Action, s: Slot)
    requires Enabled(p, a)
    ensures Places(Step(p, a), s) == Places(p, s)
  {
    match a {
      case Call => CarriersExtend(p.calls, Starting, s);
      case Enter(w) => NowConserves(p, w, if p.closed then Finished else Waiting, s);
      case Receive(w) =>
        NowConserves(p, w, if p.idle == [] then Finished else Holding(p.idle[0]), s);
      case Expire(w) => NowConserves(p, w, Finished, s);
      case Release(w, healthy) => GivingUpConserves(p, w, healthy, s);
      case Send(w) =>
        DropConserves(p, w, s);
        GiveBackConserves(p, w, s);
      case Restart(w, ok) => RestartConserves(p, w, ok, s);
      case MarkClosed =>
      case ShutChannel =>
    }
  }

  // --------------------------------------------------------------------------- runs

  predicate Follows(p: Pool, a: Action, q: Pool) {
    Enabled(p, a) && q == Step(p, a)
  }

  /** What holds besides conservation: every slot counted once, and nothing discarded before the pool closes. */
  predicate Sane(p: Pool) {
    && (p.shut ==> p.closed)
    && (!p.closed ==> p.dropped == [])
    && Counted(p) == p.size
  }

  function Counted(p: Pool): nat {
    |p.idle| + NumCarriers(p.calls) + |p.lost| + |p.dropped|
  }

  function NumCarriers(calls: seq<Phase>): nat {
    if calls == [] then 0 else NumCarriers(calls[1..]) + (if Carries(calls[0]) then 1 else 0)
  }

  function One(ph: Phase): nat {
    if Carries(ph) then 1 else 0
  }

  lemma {:induction false} NumCarriersUpdate(calls: seq<Phase>, w: nat, ph: Phase)
    requires w < |calls|
    ensures NumCarriers(calls) >= One(calls[w])
    ensures NumCarriers(calls[w := ph]) == NumCarriers(calls) - One(calls[w]) + One(ph)
  {
    if w > 0 {
      NumCarriersUpdate(calls[1..], w - 1, ph);
      assert calls[w := ph][1..] == calls[1..][w - 1 := ph];
    } else {
      assert calls[w := ph][1..] == calls[1..];
    }
  }

  lemma {:induction false} NumCarriersExtend(calls: seq<Phase>, ph: Phase)
    ensures NumCarriers(calls + [ph]) == NumCarriers(calls) + One(ph)
  {
    if calls != [] {
      NumCarriersExtend(calls[1..], ph);
      assert (calls + [ph])[1..] == calls[1..] + [ph];
    }
  }

  lemma NowCounts(p: Pool, w: nat, ph: Phase)
    requires w < |p.calls|
    ensures Counted(p) >= One(p.calls[w])
    ensures Counted(Now(p, w, ph)) == Counted(p) - One(p.calls[w]) + One(ph)
  {
    NumCarriersUpdate(p.calls, w, ph);
  }

  lemma StepCounts(p: Pool, a: Action)
    requires Enabled(p, a)
    ensures Counted(Step(p, a)) == Counted(p)
  {
    match a {
      case Call => NumCarriersExtend(p.calls, Starting);
      case Enter(w) => NowCounts(p, w, if p.closed then Finished else Waiting);
      case Receive(w) =>
        if p.idle == [] {
          NowCounts(p, w, Finished);
        } else {
          NowCounts(p, w, Holding(p.idle[0]));
        }
      case Expire(w) => NowCounts(p, w, Finished);
      case Release(w, healthy) =>
        NowCounts(p, w, Finished);
        NowCounts(p, w, Sending(p.calls[w].slot));
        NowCounts(p, w, Repairing(p.calls[w].slot, 1));
      case Send(w) => NowCounts(p, w, Finished);
      case Restart(w, ok) =>
        NowCounts(p, w, Finished);
        NowCounts(p, w, Sending(p.calls[w].slot));
        NowCounts(p, w, Repairing(p.calls[w].slot, p.calls[w].attempt + 1));
      case MarkClosed =>
      case ShutChannel =>
    }
  }

  lemma StepKeepsSane(p: Pool, a: Action)
    requires Sane(p) && Enabled(p, a)
    ensures Sane(Step(p, a)) && Step(p, a).size == p.size
  {
    StepCounts(p, a);
  }

  function NewPool(prefix: string, hostDir: string, size: nat): Pool {
    Pool(size, NewSlots(prefix, hostDir, size), false, false, [], [], [])
  }

  lemma {:induction false} TimesOfDistinct(xs: seq<Slot>, s: Slot)
    requires Distinct(xs)
    ensures Times(xs, s) == if s in xs then 1 else 0
  {
    if xs != [] {
      TimesOfDistinct(xs[1..], s);
      assert s in xs <==> s == xs[0] || s in xs[1..];
    }
  }

  /** A run of the pool of that size. */
  ghost predicate IsRun(prefix: string, hostDir: string, size: nat, states: seq<Pool>, acts: seq<Action>) {
    Run(NewPool(prefix, hostDir, size), Follows, states, acts)
  }

  lemma RunKeeps(prefix: string, hostDir: string, size: nat, states: seq<Pool>, acts: seq<Action>, k: nat)
    requires IsRun(prefix, hostDir, size, states, acts) && k < |states|
    ensures Sane(states[k]) && states[k].size == size
  {
    forall p: Pool, a, q | Sane(p) && p.size == size && Follows(p, a, q) ensures Sane(q) && q.size == size {
      StepKeepsSane(p, a);
    }
    Invariant(NewPool(prefix, hostDir, size), Follows, (p: Pool) => Sane(p) && p.size == size, states, acts, k);
  }

  /** Whatever the interleaving, each of the initial slots is in exactly one place, and no other slot anywhere. */
  lemma Conservation(prefix: string, hostDir: string, size: nat, states: seq<Pool>, acts: seq<Action>, k: nat, s: Slot)
    requires IsRun(prefix, hostDir, size, states, acts) && k < |states|
    ensures Places(states[k], s) == if s in NewSlots(prefix, hostDir, size) then 1 else 0
  {
    var n := if s in NewSlots(prefix, hostDir, size) then 1 else 0;
    NewSlotsAreDistinct(prefix, hostDir, size);
    TimesOfDistinct(NewSlots(prefix, hostDir, size), s);
    forall p: Pool, a, q | Places(p, s) == n && Follows(p, a, q) ensures Places(q, s) == n {
      StepConserves(p, a, s);
    }
    Invariant(NewPool(prefix, hostDir, size), Follows, (p: Pool) => Places(p, s) == n, states, acts, k);
  }

  lemma {:induction false} CarrierCounts(calls: seq<Phase>, w: nat, s: Slot)
    requires w < |calls| && Has(calls[w], s) == 1
    ensures Carriers(calls, s) >= 1
  {
    if w > 0 {
      CarrierCounts(calls[1..], w - 1, s);
    }
  }

  lemma {:induction false} TwoCarriersCount(calls: seq<Phase>, v: nat, w: nat, s: Slot)
    requires v < w < |calls| && Has(calls[v], s) == Has(calls[w], s) == 1
    ensures Carriers(calls, s) >= 2
  {
    if v > 0 {
      TwoCarriersCount(calls[1..], v - 1, w - 1, s);
    } else {
      CarrierCounts(calls[1..], w - 1, s);
    }
  }

  lemma {:induction false} IdleCounts(xs: seq<Slot>, s: Slot)
    requires s in xs
    ensures Times(xs, s) >= 1
  {
    if xs[0] != s {
      IdleCounts(xs[1..], s);
    }
  }

  /** A slot that a call or a repair has, the channel does not offer, and none has been given up or discarded. */
  lemma CarriedIsNotIdle(prefix: string, hostDir: string, size: nat, states: seq<Pool>, acts: seq<Action>, k: nat, v: nat)
    requires IsRun(prefix, hostDir, size, states, acts) && k < |states|
    requires v < |states[k].calls| && Carries(states[k].calls[v])
    ensures var p, s := states[k], states[k].calls[v].slot; s !in p.idle && s !in p.lost && s !in p.dropped
  {
    var p := states[k];
    var s := p.calls[v].slot;
    Conservation(prefix, hostDir, size, states, acts, k, s);
    CarrierCounts(p.calls, v, s);
    forall list | list in [p.idle, p.lost, p.dropped] && s in list ensures Times(list, s) >= 1 {
      IdleCounts(list, s);
    }
  }

  /** A slot that a call or a repair has, no other has. */
  lemma Exclusivity(prefix: string, hostDir: string, size: nat, states: seq<Pool>, acts: seq<Action>, k: nat, v: nat, w: nat)
    requires IsRun(prefix, hostDir, size, states, acts) && k < |states|
    requires v < |states[k].calls| && Carries(states[k].calls[v])
    requires w < |states[k].calls| && Carries(states[k].calls[w]) && v != w
    ensures states[k].calls[v].slot != states[k].calls[w].slot
  {
    var p := states[k];
    var s := p.calls[v].slot;
    Conservation(prefix, hostDir, size, states, acts, k, s);
    if p.calls[w].slot == s {
      TwoCarriersCount(p.calls, if v < w then v else w, if v < w then w else v, s);
    }
  }

  lemma ThereIsRoom(p: Pool, w: nat)
    requires Sane(p) && w < |p.calls| && p.calls[w].Sending?
    ensures |p.idle| < p.size
  {
    NumCarriersUpdate(p.calls, w, Finished);
  }

  /** Whoever is about to send a slot back finds room in the channel, or the channel closed, which ends the send. */
  lemma SendNeverBlocks(prefix: string, hostDir: string, size: nat, states: seq<Pool>, acts: seq<Action>, k: nat, w: nat)
    requires IsRun(prefix, hostDir, size, states, acts) && k < |states|
    requires w < |states[k].calls| && states[k].calls[w].Sending?
    ensures |states[k].idle| < size && Enabled(states[k], Send(w))
  {
    RunKeeps(prefix, hostDir, size, states, acts, k);
    ThereIsRoom(states[k], w);
  }

  /** A step of call `w` is possible. */
  ghost predicate CanGoOn(p: Pool, w: nat) {
    exists a: Action ::
      (a.Enter? || a.Receive? || a.Expire? || a.Release? || a.Send? || a.Restart?) && a.who == w && Enabled(p, a)
  }

  /** No call and no repair is ever stuck: a wait can end, code can end either way, and so can a restart. */
  lemma NoCallIsStuck(prefix: string, hostDir: string, size: nat, states: seq<Pool>, acts: seq<Action>, k: nat, w: nat)
    requires IsRun(prefix, hostDir, size, states, acts) && k < |states|
    requires w < |states[k].calls| && !states[k].calls[w].Finished?
    ensures CanGoOn(states[k], w)
    ensures states[k].calls[w].Waiting? ==>
      Enabled(states[k], Expire(w)) && (Enabled(states[k], Receive(w)) <==> states[k].idle != [] || states[k].shut)
    ensures states[k].calls[w].Holding? ==> forall healthy :: Enabled(states[k], Release(w, healthy))
    ensures states[k].calls[w].Repairing? ==> forall ok :: Enabled(states[k], Restart(w, ok))
  {
    var p := states[k];
    match p.calls[w] {
      case Starting => assert Enabled(p, Enter(w));
      case Waiting => assert Enabled(p, Expire(w));
      case Holding(_) => assert Enabled(p, Release(w, true));
      case Sending(_) => SendNeverBlocks(prefix, hostDir, size, states, acts, k, w);
      case Repairing(_, _) => assert Enabled(p, Restart(w, true));
    }
  }

  lemma {:induction false} NobodyCarries(calls: seq<Phase>)
    requires forall w :: 0 <= w < |calls| ==> !Carries(calls[w])
    ensures NumCarriers(calls) == 0
    ensures forall s :: Carriers(calls, s) == 0
  {
    if calls != [] {
      NobodyCarries(calls[1..]);
    }
  }

  /** When an open pool is quiet, every slot is idle again unless its repair was given up. */
  lemma QuietPoolIsFull(prefix: string, hostDir: string, size: nat, states: seq<Pool>, acts: seq<Action>, k: nat)
    requires IsRun(prefix, hostDir, size, states, acts) && k < |states|
    requires !states[k].closed && forall w :: 0 <= w < |states[k].calls| ==> !Carries(states[k].calls[w])
    ensures |states[k].idle| == size - |states[k].lost|
    ensures forall s :: s in NewSlots(prefix, hostDir, size) ==> s in states[k].idle || s in states[k].lost
  {
    var p := states[k];
    RunKeeps(prefix, hostDir, size, states, acts, k);
    NobodyCarries(p.calls);
    forall s | s in NewSlots(prefix, hostDir, size) ensures s in p.idle || s in p.lost {
      Conservation(prefix, hostDir, size, states, acts, k, s);
      if s !in p.idle {
        AbsentTimes(p.idle, s);
      }
      if s !in p.lost {
        AbsentTimes(p.lost, s);
      }
    }
  }

  lemma {:induction false} AbsentTimes(xs: seq<Slot>, s: Slot)
    requires s !in xs
    ensures Times(xs, s) == 0
  {
    if xs != [] {
      AbsentTimes(xs[1..], s);
    }
  }

  // ------------------------------------------------------- where slots and calls end

  /** How often call `w` tried in vain to restart its container. */
  function Failures(acts: seq<Action>, w: nat): nat {
    if acts == [] then 0
    else Failures(acts[..|acts| - 1], w) + if acts[|acts| - 1] == Restart(w, false) then 1 else 0
  }

  predicate AttemptsAre(calls: seq<Phase>, w: nat, failures: nat) {
    if w >= |calls| || calls[w].Starting? || calls[w].Waiting? || calls[w].Holding? then failures == 0
    else calls[w].Repairing? ==> calls[w].attempt == failures + 1 <= 3
  }

  lemma {:induction false} AttemptsAreCounted(prefix: string, hostDir: string, size: nat,
                                              states: seq<Pool>, acts: seq<Action>, k: nat, w: nat)
    requires IsRun(prefix, hostDir, size, states, acts) && k < |states|
    ensures AttemptsAre(states[k].calls, w, Failures(acts[..k], w))
  {
    if k > 0 {
      AttemptsAreCounted(prefix, hostDir, size, states, acts, k - 1, w);
      assert Follows(states[k - 1], acts[k - 1], states[k]);
      assert acts[..k][..k - 1] == acts[..k - 1];
    }
  }

  /** Step `i` is the third restart in vain of one and the same repair, that of `s`. */
  predicate IsThirdFailure(states: seq<Pool>, acts: seq<Action>, i: nat, s: Slot) {
    && i < |acts| && i < |states| && acts[i].Restart? && !acts[i].ok
    && var w := acts[i].who;
       w < |states[i].calls| && states[i].calls[w].Repairing? && states[i].calls[w].slot == s
       && Failures(acts[..i], w) == 2
  }

  predicate GivesUp(p: Pool, a: Action, s: Slot) {
    && a.Restart? && !a.ok && a.who < |p.calls|
    && p.calls[a.who].Repairing? && p.calls[a.who].slot == s && p.calls[a.who].attempt >= 3
  }

  /** Over a run a slot is given up exactly when a repair of it has failed three times. */
  lemma GivenUpExactlySo(prefix: string, hostDir: string, size: nat, states: seq<Pool>, acts: seq<Action>, n: nat, s: Slot)
    requires IsRun(prefix, hostDir, size, states, acts) && n < |states|
    ensures s in states[n].lost <==> exists i: nat :: i < n && IsThirdFailure(states, acts, i, s)
  {
    HoldsExactlySo(NewPool(prefix, hostDir, size), Follows, _ => true, (p: Pool) => s in p.lost,
                   (p: Pool, a: Action) => GivesUp(p, a, s), states, acts, n);
    forall i: nat | i < n ensures GivesUp(states[i], acts[i], s) <==> IsThirdFailure(states, acts, i, s) {
      if acts[i].Restart? {
        AttemptsAreCounted(prefix, hostDir, size, states, acts, i, acts[i].who);
      }
    }
  }

  /** A call that holds or repairs `s` finds the pool closed, or the channel when it sends. */
  predicate Discards(p: Pool, a: Action, s: Slot) {
    match a
    case Release(w, _) => w < |p.calls| && p.calls[w] == Holding(s) && p.closed
    case Send(w) => w < |p.calls| && p.calls[w] == Sending(s) && p.shut
    case Restart(w, ok) => ok && w < |p.calls| && p.calls[w].Repairing? && p.calls[w].slot == s && p.closed
    case _ => false
  }

  /** Over a run a slot is discarded exactly when its call, on the way back with it, met the closing. */
  lemma DiscardedExactlySo(prefix: string, hostDir: string, size: nat, states: seq<Pool>, acts: seq<Action>, n: nat, s: Slot)
    requires IsRun(prefix, hostDir, size, states, acts) && n < |states|
    ensures s in states[n].dropped <==> exists i: nat :: i < n && Discards(states[i], acts[i], s)
  {
    HoldsExactlySo(NewPool(prefix, hostDir, size), Follows, _ => true, (p: Pool) => s in p.dropped,
                   (p: Pool, a: Action) => Discards(p, a, s), states, acts, n);
  }

  /** The flag is set by the first half of Close and the channel closed by the second, once, and neither is undone. */
  lemma ClosedExactlySo(prefix: string, hostDir: string, size: nat, states: seq<Pool>, acts: seq<Action>, n: nat)
    requires IsRun(prefix, hostDir, size, states, acts) && n < |states|
    ensures states[n].closed <==> exists i: nat :: i < n && acts[i].MarkClosed?
    ensures states[n].shut <==> exists i: nat :: i < n && acts[i].ShutChannel?
    ensures n < |acts| && acts[n].ShutChannel? ==> states[n].closed && !states[n].shut
  {
    HoldsExactlySo(NewPool(prefix, hostDir, size), Follows, _ => true, (p: Pool) => p.closed,
                   (p: Pool, a: Action) => a.MarkClosed?, states, acts, n);
    HoldsExactlySo(NewPool(prefix, hostDir, size), Follows, _ => true, (p: Pool) => p.shut,
                   (p: Pool, a: Action) => a.ShutChannel?, states, acts, n);
    assert n < |acts| ==> Follows(states[n], acts[n], states[n + 1]);
  }

  /**
   A call is given the oldest idle slot, or ends without one: at a closed flag, at the end
   of its wait, or at a closed and empty channel.
   */
  lemma ServedOrRefused(p: Pool, a: Action, q: Pool, w: nat)
    requires Follows(p, a, q) && w < |p.calls| && (p.calls[w].Starting? || p.calls[w].Waiting?)
    ensures w < |q.calls|
    ensures q.calls[w].Finished? <==>
            a == Expire(w) || (a == Enter(w) && p.closed) || (a == Receive(w) && p.idle == [] && p.shut)
    ensures q.calls[w].Holding? <==> a == Receive(w) && p.idle != []
    ensures q.calls[w].Holding? ==> p.idle == [q.calls[w].slot] + q.idle
  {
  }

  // ------------------------------------------------------------- the pool as an object

  ghost predicate Reaches(p: Pool, q: Pool) {
    Reachable(p, Follows, q)
  }

  /** One more step keeps to the machine's runs. */
  lemma Onward(p: Pool, q: Pool, a: Action)
    requires Reaches(p, q) && Sane(q) && Enabled(q, a)
    ensures Reaches(p, Step(q, a)) && Sane(Step(q, a))
  {
    ReachOn(p, Follows, q, a, Step(q, a));
    StepKeepsSane(q, a);
  }

  /** How the code in the container ended. */
  datatype Outcome = Ran | Failed | TimedOut

  /**
   The channel and the flag, with the calls in flight as ghost state. Each method is
   what one goroutine does when no other step falls in between.
   */
  class LangPool {
    const size: nat
    var idle: seq<Slot>
    var closed: bool
    var shut: bool
    ghost var calls: seq<Phase>
    ghost var lost: seq<Slot>
    ghost var dropped: seq<Slot>

    ghost function View(): Pool
      reads this
    {
      Pool(size, idle, closed, shut, calls, lost, dropped)
    }

    constructor (prefix: string, hostDir: string, size: nat)
      ensures View() == NewPool(prefix, hostDir, size)
      ensures |idle| == size && !closed && !shut && calls == [] && lost == [] && dropped == []
      ensures forall i :: 0 <= i < size ==>
        idle[i].name == prefix + "-" + Decimal(i) && idle[i].hostPath == "/app/tmp/" + hostDir + "-" + Decimal(i)
    {
      this.size := size;
      closed, shut, calls, lost, dropped := false, false, [], [], [];
      new;
      var filled := [];
      for i := 0 to size
        invariant !closed && !shut && calls == [] && lost == [] && dropped == [] && this.size == size
        invariant filled == NewSlots(prefix, hostDir, i)
      {
        filled := filled + [NewSlot(prefix, hostDir, i)];
      }
      idle := filled;
    }

    /**
     The call in `RunCode`: `late` says that the five seconds ended the wait although
     a slot was there. A closed or empty pool gives none.
     */
    method Acquire(late: bool) returns (slot: Option<Slot>, ghost w: nat)
      requires Sane(View())
      modifies this
      ensures Reaches(old(View()), View()) && Sane(View())
      ensures slot == if old(closed) || late || old(idle) == [] then None else Some(old(idle[0]))
      ensures idle == if slot.Some? then old(idle[1..]) else old(idle)
      ensures w == |old(calls)|
      ensures calls == old(calls) + [if slot.Some? then Holding(slot.value) else Finished]
      ensures closed == old(closed) && shut == old(shut) && lost == old(lost) && dropped == old(dropped)
    {
      w := |calls|;
      slot := None;
      StartIsReachable(View(), Follows);
      Onward(old(View()), View(), Call);
      calls := calls + [Starting];
      Onward(old(View()), View(), Enter(w));
      if closed {
        calls := calls[w := Finished];
        return;
      }
      calls := calls[w := Waiting];
      if late || idle == [] {
        Onward(old(View()), View(), Expire(w));
        calls := calls[w := Finished];
      } else {
        Onward(old(View()), View(), Receive(w));
        slot := Some(idle[0]);
        calls := calls[w := Holding(idle[0])];
        idle := idle[1..];
      }
    }

    /** A healthy slot goes to the end of the queue, a damaged one to a repair, and any slot away once closed. */
    method Release(ghost w: nat, slot: Slot, healthy: bool)
      requires Sane(View()) && w < |calls| && calls[w] == Holding(slot)
      modifies this
      ensures Reaches(old(View()), View()) && Sane(View())
      ensures idle == if old(closed) || !healthy then old(idle) else old(idle) + [slot]
      ensures dropped == if old(closed) then old(dropped) + [slot] else old(dropped)
      ensures calls == old(calls)[w := if old(closed) || healthy then Finished else Repairing(slot, 1)]
      ensures closed == old(closed) && shut == old(shut) && lost == old(lost)
    {
      StartIsReachable(View(), Follows);
      Onward(old(View()), View(), Action.Release(w, healthy));
      if closed {
        dropped := dropped + [slot];
        calls := calls[w := Finished];
        return;
      }
      if healthy {
        calls := calls[w := Sending(slot)];
        ThereIsRoom(View(), w);
        Onward(old(View()), View(), Send(w));
        idle := idle + [slot];
        calls := calls[w := Finished];
      } else {
        calls := calls[w := Repairing(slot, 1)];
      }
    }

    /**
     The repair: `restarts` says how the successive attempts to start the container
     would end. The slot comes back if one of the first three succeeds while the pool
     is open, and is lost if none does.
     */
    method Replenish(ghost w: nat, slot: Slot, restarts: seq<bool>)
      requires Sane(View()) && w < |calls| && calls[w] == Repairing(slot, 1)
      requires |restarts| == MAX_RETRIES
      modifies this
      ensures Reaches(old(View()), View()) && Sane(View())
      ensures calls == old(calls)[w := Finished]
      ensures idle == if true in restarts && !old(closed) then old(idle) + [slot] else old(idle)
      ensures dropped == if true in restarts && old(closed) then old(dropped) + [slot] else old(dropped)
      ensures lost == if true in restarts then old(lost) else old(lost) + [slot]
      ensures closed == old(closed) && shut == old(shut)
    {
      StartIsReachable(View(), Follows);
      var attempt := 1;
      while attempt <= MAX_RETRIES
        invariant 1 <= attempt <= MAX_RETRIES + 1
        invariant true !in restarts[..attempt - 1]
        invariant Reaches(old(View()), View()) && Sane(View())
        invariant attempt <= MAX_RETRIES ==>
          View() == old(View()).(calls := old(calls)[w := Repairing(slot, attempt)])
        invariant attempt > MAX_RETRIES ==>
          View() == old(View()).(calls := old(calls)[w := Finished], lost := old(lost) + [slot])
      {
        Onward(old(View()), View(), Restart(w, restarts[attempt - 1]));
        if restarts[attempt - 1] {
          if closed {
            dropped := dropped + [slot];
          } else {
            calls := calls[w := Sending(slot)];
            ThereIsRoom(View(), w);
            Onward(old(View()), View(), Send(w));
            idle := idle + [slot];
          }
          calls := calls[w := Finished];
          return;
        }
        if attempt < MAX_RETRIES {
          calls := calls[w := Repairing(slot, attempt + 1)];
        } else {
          calls, lost := calls[w := Finished], lost + [slot];
        }
        attempt := attempt + 1;
      }
    }

    /** The flag is set and the channel closed; closing the channel again panics, which `ok` reports. */
    method Close() returns (ok: bool)
      requires Sane(View())
      modifies this
      ensures Reaches(old(View()), View()) && Sane(View())
      ensures View() == old(View()).(closed := true, shut := true)
      ensures ok <==> !old(shut)
    {
      StartIsReachable(View(), Follows);
      if !closed {
        Onward(old(View()), View(), MarkClosed);
        closed := true;
      }
      ok := !shut;
      if ok {
        Onward(old(View()), View(), ShutChannel);
        shut := true;
      }
    }

    /**
     `RunCode` as far as slots go: the slot it is given, it releases once, and marks as
     damaged exactly when the code ran out of time.
     */
    method RunCode(late: bool, outcome: Outcome) returns (ran: bool, ghost w: nat)
      requires Sane(View())
      modifies this
      ensures Reaches(old(View()), View()) && Sane(View())
      ensures ran <==> !old(closed) && !late && old(idle) != []
      ensures !ran ==> View() == old(View()).(calls := old(calls) + [Finished])
      ensures ran && outcome != TimedOut ==>
        View() == old(View()).(calls := old(calls) + [Finished], idle := old(idle[1..]) + [old(idle[0])])
      ensures ran && outcome == TimedOut ==>
        View() == old(View()).(calls := old(calls) + [Repairing(old(idle[0]), 1)], idle := old(idle[1..]))
    {
      var slot;
      slot, w := Acquire(late);
      ran := slot.Some?;
      if ran {
        label acquired:
        Release(w, slot.value, outcome != TimedOut);
        ReachTogether(old(View()), Follows, old@acquired(View()), View());
      }
    }
  }
}
