/**
 The session store over runs of its operations. Looking a session up in the cache and
 on disk, and filling the cache, are two steps without a lock between them. So are the
 cleaning goroutine's testing of a cached session and its deleting it: the test takes no
 lock. Creating, appending and deleting are one step each.
 */
module SessionHistory {
  import opened Ids
  import opened Options
  import opened Runs
  import opened SessionStore

  /** A lookup that missed the cache, with what it read from disk. */
  datatype Lookup = Lookup(id: Id, meta: Meta, filled: bool)

  /** `doomed` is the session that the cleaning goroutine is about to delete. */
  datatype State = State(files: Files, lookups: seq<Lookup>, doomed: Option<Id>)

  const START: State := State(Files(map[], map[], map[]), [], None)

  datatype Op =
    | Create(meta: Meta)
    | Append(id: Id, ms: seq<Message>, now: int)
    | Look(id: Id, now: int)
    | Fill(w: nat)                   // the lookup puts what it read in the cache
    | Delete(id: Id)
    | Test(id: Id, now: int)         // the cleaning goroutine looks at a cached session
    | Sweep                          // and deletes it if it had expired
    | Restart                        // a new process: an empty cache, nothing under way

  predicate Enabled(s: State, op: Op) {
    match op
    case Fill(w) => w < |s.lookups| && !s.lookups[w].filled
    case Test(id, _) => s.doomed.None? && id in s.files.metas
    case Sweep => s.doomed.Some?
    case _ => true
  }

  function Step(c: Codec, ttl: int, s: State, op: Op): State
    requires Enabled(s, op)
  {
    match op
    case Create(m) => s.(files := Created(c, s.files, m))
    case Append(id, ms, now) => s.(files := Appended(c, s.files, id, ms, now))
    case Look(id, now) =>
      var m := Fresh(OnDisk(c, s.files, id), now, ttl);
      if id in s.files.metas || m.None? then s else s.(lookups := s.lookups + [Lookup(id, m.value, false)])
    case Fill(w) =>
      var r := s.lookups[w];
      s.(files := Filled(s.files, r.id, r.meta), lookups := s.lookups[w := r.(filled := true)])
    case Delete(id) => s.(files := Deleted(s.files, {id}))
    case Test(id, now) => if Expired(s.files.metas[id], now, ttl) then s.(doomed := Some(id)) else s
    case Sweep => s.(files := Deleted(s.files, {s.doomed.value}), doomed := None)
    case Restart => State(s.files.(metas := map[]), [], None)
  }

  predicate Follows(c: Codec, ttl: int, s: State, op: Op, t: State) {
    Enabled(s, op) && t == Step(c, ttl, s, op)
  }

  function Steps(c: Codec, ttl: int): (State, Op, State) -> bool {
    (s, op, t) => Follows(c, ttl, s, op, t)
  }

  ghost predicate IsRun(c: Codec, ttl: int, states: seq<State>, ops: seq<Op>) {
    Run(START, Steps(c, ttl), states, ops)
  }

  /** What lookup `w` read has been put in the cache. */
  predicate HasFilled(s: State, w: nat) {
    w < |s.lookups| && s.lookups[w].filled
  }

  lemma {:induction false} FilledStays(c: Codec, ttl: int, states: seq<State>, ops: seq<Op>, i: nat, j: nat, w: nat)
    requires IsRun(c, ttl, states, ops) && i < j < |states| && ops[i] == Fill(w)
    requires forall h :: i <= h < j ==> !ops[h].Restart?
    ensures HasFilled(states[j], w)
    decreases j
  {
    assert Steps(c, ttl)(states[j - 1], ops[j - 1], states[j - 1 + 1]);
    if i < j - 1 {
      FilledStays(c, ttl, states, ops, i, j - 1, w);
    }
  }

  /** In the life of a process a lookup fills the cache once. */
  lemma FillsOnce(c: Codec, ttl: int, states: seq<State>, ops: seq<Op>, i: nat, j: nat, w: nat)
    requires IsRun(c, ttl, states, ops) && i < j < |ops| && ops[i] == Fill(w) && ops[j] == Fill(w)
    ensures exists h :: i < h < j && ops[h].Restart?
  {
    assert Steps(c, ttl)(states[j], ops[j], states[j + 1]);
    if forall h :: i <= h < j ==> !ops[h].Restart? {
      FilledStays(c, ttl, states, ops, i, j, w);
    }
  }

  // -------------------------------------------------------------------------- the log

  /** What the log of `id` holds after one more operation: created empty, grown, or gone. */
  function Grown(s: State, op: Op, id: Id, had: Option<seq<Message>>): Option<seq<Message>> {
    match op
    case Create(m) => if m.id == id then Some([]) else had
    case Append(x, ms, _) => if x != id then had else if had.Some? then Some(had.value + ms) else Some(ms)
    case Look(_, _) => had
    case Fill(_) => had
    case Delete(x) => if x == id then None else had
    case Test(_, _) => had
    case Sweep => if s.doomed == Some(id) then None else had
    case Restart => had
  }

  /** The messages appended to `id` since it was last created, deleted or cleaned; none if it has no log. */
  function Since(states: seq<State>, ops: seq<Op>, k: nat, id: Id): Option<seq<Message>>
    requires k <= |ops| < |states|
  {
    if k == 0 then None
    else Grown(states[k - 1], ops[k - 1], id, Since(states, ops, k - 1, id))
  }

  predicate LogHolds(c: Codec, f: Files, id: Id, had: Option<seq<Message>>) {
    && (id in f.logs <==> had.Some?)
    && (had.Some? ==> f.logs[id] == Framed(c, had.value))
  }

  lemma AppendedHolds(c: Codec, f: Files, id: Id, ms: seq<Message>, now: int, had: Option<seq<Message>>)
    requires LogHolds(c, f, id, had)
    ensures LogHolds(c, Appended(c, f, id, ms, now), id, Some(if had.Some? then had.value + ms else ms))
  {
    if had.Some? {
      FramedJoins(c, had.value, ms);
    } else {
      assert LogOf(f, id) + Framed(c, ms) == Framed(c, ms);
    }
  }

  lemma OneMore(c: Codec, ttl: int, s: State, op: Op, t: State, id: Id, had: Option<seq<Message>>)
    requires LogHolds(c, s.files, id, had) && Follows(c, ttl, s, op, t)
    ensures LogHolds(c, t.files, id, Grown(s, op, id, had))
  {
    if op.Append? && op.id == id {
      AppendedHolds(c, s.files, id, op.ms, op.now, had);
    }
  }

  /** Whatever the operations, restarts and late fills among them, the log holds what was appended since. */
  lemma {:induction false} LogIsHistory(c: Codec, ttl: int, states: seq<State>, ops: seq<Op>, k: nat, id: Id)
    requires IsRun(c, ttl, states, ops) && k < |states|
    ensures LogHolds(c, states[k].files, id, Since(states, ops, k, id))
  {
    if k > 0 {
      LogIsHistory(c, ttl, states, ops, k - 1, id);
      assert Steps(c, ttl)(states[k - 1], ops[k - 1], states[k - 1 + 1]);
      OneMore(c, ttl, states[k - 1], ops[k - 1], states[k], id, Since(states, ops, k - 1, id));
    }
  }

  /**
   Reading a session gives, in order, the messages appended since, up to the first that
   does not fit in the scanner: all of them, without an error, exactly when all fit.
   */
  lemma MessagesAreHistory(c: Codec, ttl: int, states: seq<State>, ops: seq<Op>, k: nat, id: Id)
    requires Faithful(c) && IsRun(c, ttl, states, ops) && k < |states|
    requires Since(states, ops, k, id).Some?
    ensures id in states[k].files.logs
    ensures var ms, scanned := Since(states, ops, k, id).value, Scan(states[k].files.logs[id]);
      && Decoded(c, scanned.lines) == ms[..Readable(c, ms)]
      && (!scanned.tooLong <==> Readable(c, ms) == |ms|)
      && (Readable(c, ms) == |ms| <==> forall i :: 0 <= i < |ms| ==> Fits(c, ms[i]))
  {
    LogIsHistory(c, ttl, states, ops, k, id);
    FramingRoundTrip(c, Since(states, ops, k, id).value);
    ReadableIsFirst(c, Since(states, ops, k, id).value);
  }

  // ------------------------------------------------------------------ cache and disk

  /** The meta file still holds what the lookup read. */
  predicate Timely(c: Codec, s: State, w: nat) {
    w < |s.lookups| && OnDisk(c, s.files, s.lookups[w].id) == Some(s.lookups[w].meta)
  }

  predicate LateFill(c: Codec, s: State, op: Op) {
    op.Fill? && op.w < |s.lookups| && !s.lookups[op.w].filled && !Timely(c, s, op.w)
  }

  predicate Coherent(c: Codec, s: State) {
    forall id :: id in s.files.metas ==> CoherentAt(c, s.files, id)
  }

  /** From a cache that agrees with the disk, an operation leads to one that does not exactly when it is a late fill. */
  lemma OnlyLateFillsSpoil(c: Codec, ttl: int, s: State, op: Op, t: State)
    requires Faithful(c) && Coherent(c, s) && Follows(c, ttl, s, op, t)
    ensures Coherent(c, t) <==> !LateFill(c, s, op)
  {
    if op.Fill? {
      assert s.lookups[op.w].id in t.files.metas;
    }
  }

  /** So a run without late fills keeps cache and disk together. */
  lemma {:induction false} CoherentThroughout(c: Codec, ttl: int, states: seq<State>, ops: seq<Op>, k: nat)
    requires Faithful(c) && IsRun(c, ttl, states, ops) && k < |states|
    requires forall i :: 0 <= i < k ==> !LateFill(c, states[i], ops[i])
    ensures Coherent(c, states[k])
  {
    if k > 0 {
      CoherentThroughout(c, ttl, states, ops, k - 1);
      assert Steps(c, ttl)(states[k - 1], ops[k - 1], states[k - 1 + 1]);
      OnlyLateFillsSpoil(c, ttl, states[k - 1], ops[k - 1], states[k]);
    }
  }

  // ------------------------------------------------------------------------ late fills

  /** The operation removes or writes the meta file of `id`. */
  predicate Rewrites(s: State, op: Op, id: Id) {
    match op
    case Create(m) => m.id == id
    case Append(x, _, _) => x == id && id in s.files.metas
    case Delete(x) => x == id
    case Sweep => s.doomed == Some(id)
    case _ => false
  }

  /** What the operation writes to the meta file of `id` is later than `time`. */
  predicate WritesAfter(op: Op, id: Id, time: int) {
    && (op.Create? && op.meta.id == id ==> op.meta.lastActiveAt > time)
    && (op.Append? && op.id == id ==> op.now > time)
  }

  /** The meta file of `id` is gone, or later than `m`. */
  predicate Overtaken(c: Codec, f: Files, id: Id, m: Meta) {
    OnDisk(c, f, id).Some? ==> OnDisk(c, f, id).value.lastActiveAt > m.lastActiveAt
  }

  lemma StepOvertakes(c: Codec, ttl: int, s: State, op: Op, t: State, id: Id, m: Meta)
    requires Faithful(c) && Follows(c, ttl, s, op, t) && WritesAfter(op, id, m.lastActiveAt)
    ensures Rewrites(s, op, id) || Overtaken(c, s.files, id, m) ==> Overtaken(c, t.files, id, m)
    ensures !Rewrites(s, op, id) ==> OnDisk(c, t.files, id) == OnDisk(c, s.files, id)
  {
  }

  lemma StepKeepsLookup(c: Codec, ttl: int, s: State, op: Op, t: State, w: nat)
    requires Follows(c, ttl, s, op, t) && w < |s.lookups| && !op.Restart?
    ensures w < |t.lookups| && t.lookups[w].id == s.lookups[w].id && t.lookups[w].meta == s.lookups[w].meta
  {
  }

  /** From step `i` on to step `n`, the lookup `w` stands and the meta file is as it was read, or has been overtaken. */
  lemma {:induction false} ReadOrOvertaken(c: Codec, ttl: int, states: seq<State>, ops: seq<Op>,
                                          i: nat, n: nat, w: nat, id: Id, m: Meta)
    requires Faithful(c) && IsRun(c, ttl, states, ops) && i <= n < |states|
    requires w < |states[i].lookups| && states[i].lookups[w].id == id && states[i].lookups[w].meta == m
    requires OnDisk(c, states[i].files, id) == Some(m)
    requires forall h :: i <= h < n ==> !ops[h].Restart? && WritesAfter(ops[h], id, m.lastActiveAt)
    ensures w < |states[n].lookups| && states[n].lookups[w].id == id && states[n].lookups[w].meta == m
    ensures if exists h :: i <= h < n && Rewrites(states[h], ops[h], id)
            then Overtaken(c, states[n].files, id, m) else OnDisk(c, states[n].files, id) == Some(m)
    decreases n
  {
    if i < n {
      ReadOrOvertaken(c, ttl, states, ops, i, n - 1, w, id, m);
      assert Steps(c, ttl)(states[n - 1], ops[n - 1], states[n - 1 + 1]);
      StepOvertakes(c, ttl, states[n - 1], ops[n - 1], states[n], id, m);
      StepKeepsLookup(c, ttl, states[n - 1], ops[n - 1], states[n], w);
    }
  }

  /**
   A lookup reads the meta file at step `i` and fills the cache at step `j` of the same
   process. After the fill the cached meta is the one on disk if and only if no step in
   between deleted, cleaned, created or touched the session. What is written in between
   is taken to bear a later time than what was read.
   */
  lemma FillAgreesIffUntouched(c: Codec, ttl: int, states: seq<State>, ops: seq<Op>, i: nat, j: nat)
    requires Faithful(c) && IsRun(c, ttl, states, ops) && i < j < |ops|
    requires ops[i].Look? && |states[i + 1].lookups| == |states[i].lookups| + 1
    requires ops[j] == Fill(|states[i].lookups|)
    requires forall h :: i < h < j ==> !ops[h].Restart?
    requires var read := states[i + 1].lookups[|states[i].lookups|];
      forall h :: i < h < j ==> WritesAfter(ops[h], read.id, read.meta.lastActiveAt)
    ensures CoherentAt(c, states[j + 1].files, ops[i].id)
            <==> forall h :: i < h < j ==> !Rewrites(states[h], ops[h], ops[i].id)
  {
    var w := |states[i].lookups|;
    assert Steps(c, ttl)(states[i], ops[i], states[i + 1]);
    var read := states[i + 1].lookups[w];
    assert read.id == ops[i].id && OnDisk(c, states[i + 1].files, read.id) == Some(read.meta);
    ReadOrOvertaken(c, ttl, states, ops, i + 1, j, w, read.id, read.meta);
    assert Steps(c, ttl)(states[j], ops[j], states[j + 1]);
    FillDecides(c, ttl, states[j], w, states[j + 1]);
    assert Overtaken(c, states[j].files, read.id, read.meta) ==>
      OnDisk(c, states[j].files, read.id) != Some(read.meta);
  }

  lemma FillDecides(c: Codec, ttl: int, s: State, w: nat, t: State)
    requires Follows(c, ttl, s, Fill(w), t)
    ensures CoherentAt(c, t.files, s.lookups[w].id) <==> OnDisk(c, s.files, s.lookups[w].id) == Some(s.lookups[w].meta)
  {
    assert s.lookups[w].id in t.files.metas;
  }

  // ------------------------------------------------------------------------ appending

  /** A session with a meta file is in the cache. */
  predicate Cached(s: State, id: Id) {
    id in s.files.metaFiles ==> id in s.files.metas
  }

  /** Once a process has looked a session up or created it, the session leaves the cache only with its file. */
  lemma {:induction false} CachedUntilDeleted(c: Codec, ttl: int, states: seq<State>, ops: seq<Op>, i: nat, k: nat, id: Id)
    requires IsRun(c, ttl, states, ops) && i <= k < |states| && Cached(states[i], id)
    requires forall h :: i <= h < k ==> !ops[h].Restart?
    ensures Cached(states[k], id)
    decreases k
  {
    if i < k {
      CachedUntilDeleted(c, ttl, states, ops, i, k - 1, id);
      assert Steps(c, ttl)(states[k - 1], ops[k - 1], states[k - 1 + 1]);
    }
  }

  /** An append renews a session on disk exactly when it is in the cache. */
  lemma AppendRenewsIffCached(c: Codec, f: Files, id: Id, ms: seq<Message>, now: int)
    requires Faithful(c) && OnDisk(c, f, id).Some? && OnDisk(c, f, id).value.lastActiveAt < now
    ensures OnDisk(c, Appended(c, f, id, ms, now), id).Some?
    ensures OnDisk(c, Appended(c, f, id, ms, now), id).value.lastActiveAt == now <==> id in f.metas
  {
  }

  /** A log without a meta file: no lookup finds the session, no cleaning removes it. */
  predicate Orphaned(f: Files, id: Id) {
    id in f.logs && id !in f.metaFiles && id !in f.metas
  }

  /**
   A request looks its session up, or creates it, before it appends. Its append then
   renews the session, unless the session left the cache meanwhile: then it makes a log
   without a meta file.
   */
  lemma AppendRenewsOrOrphans(c: Codec, ttl: int, states: seq<State>, ops: seq<Op>, i: nat, k: nat, id: Id)
    requires Faithful(c) && IsRun(c, ttl, states, ops) && i <= k < |ops|
    requires id in states[i].files.metas && ops[k].Append? && ops[k].id == id
    requires forall h :: i <= h < k ==> !ops[h].Restart?
    ensures var t := states[k + 1].files;
      if id in states[k].files.metas
      then OnDisk(c, t, id) == Some(states[k].files.metas[id].(lastActiveAt := ops[k].now))
      else Orphaned(t, id)
  {
    CachedUntilDeleted(c, ttl, states, ops, i, k, id);
    assert Steps(c, ttl)(states[k], ops[k], states[k + 1]);
  }

  // ------------------------------------------------------------------------- cleaning

  /** The cached session has not expired at `now`. */
  predicate Alive(ttl: int, s: State, id: Id, now: int) {
    id in s.files.metas && !Expired(s.files.metas[id], now, ttl)
  }

  /** The operation writes, replaces or drops the cached meta of `id`. */
  predicate Touches(s: State, op: Op, id: Id) {
    match op
    case Create(m) => m.id == id
    case Append(x, _, _) => x == id && id in s.files.metas
    case Fill(w) => w < |s.lookups| && s.lookups[w].id == id
    case Delete(x) => x == id
    case Sweep => s.doomed == Some(id)
    case Restart => true
    case _ => false
  }

  /** What it writes has not expired at `now`. */
  predicate Renews(ttl: int, s: State, op: Op, id: Id, now: int) {
    && Touches(s, op, id)
    && match op
       case Create(m) => !Expired(m, now, ttl)
       case Append(_, _, at) => now - at <= ttl
       case Fill(w) => !Expired(s.lookups[w].meta, now, ttl)
       case _ => false
  }

  lemma StepRenews(c: Codec, ttl: int, s: State, op: Op, t: State, id: Id, now: int)
    requires Follows(c, ttl, s, op, t)
    ensures Alive(ttl, t, id, now) <==> Renews(ttl, s, op, id, now) || (Alive(ttl, s, id, now) && !Touches(s, op, id))
  {
  }

  lemma {:induction false} DoomedUntilSwept(c: Codec, ttl: int, states: seq<State>, ops: seq<Op>, i: nat, j: nat)
    requires IsRun(c, ttl, states, ops) && i <= j < |states| && states[i].doomed.Some?
    requires forall h :: i <= h < j ==> !ops[h].Sweep? && !ops[h].Restart?
    ensures states[j].doomed == states[i].doomed
    decreases j
  {
    if i < j {
      DoomedUntilSwept(c, ttl, states, ops, i, j - 1);
      assert Steps(c, ttl)(states[j - 1], ops[j - 1], states[j - 1 + 1]);
    }
  }

  lemma {:induction false} NothingDoomed(c: Codec, ttl: int, states: seq<State>, ops: seq<Op>, i: nat, j: nat)
    requires IsRun(c, ttl, states, ops) && i < j < |states| && ops[i].Sweep?
    requires forall h :: i < h < j ==> !ops[h].Test?
    ensures states[j].doomed.None?
    decreases j
  {
    assert Steps(c, ttl)(states[j - 1], ops[j - 1], states[j - 1 + 1]);
    if i < j - 1 {
      NothingDoomed(c, ttl, states, ops, i, j - 1);
    }
  }

  /** The cleaning goroutine tests anew before it deletes again. */
  lemma SweepsOncePerTest(c: Codec, ttl: int, states: seq<State>, ops: seq<Op>, i: nat, j: nat)
    requires IsRun(c, ttl, states, ops) && i < j < |ops| && ops[i].Sweep? && ops[j].Sweep?
    ensures exists h :: i < h < j && ops[h].Test?
  {
    assert Steps(c, ttl)(states[j], ops[j], states[j + 1]);
    if forall h :: i < h < j ==> !ops[h].Test? {
      NothingDoomed(c, ttl, states, ops, i, j);
    }
  }

  /**
   What the cleaning goroutine found expired it deletes, whatever has happened since; what
   it deletes is alive if and only if some operation after the test wrote a meta that had
   not expired then, and none wrote or dropped it since.
   */
  lemma AliveIsCleanedIffRenewed(c: Codec, ttl: int, states: seq<State>, ops: seq<Op>, i: nat, j: nat, id: Id, now: int)
    requires IsRun(c, ttl, states, ops) && i < j < |ops|
    requires ops[i] == Test(id, now) && states[i + 1].doomed == Some(id) && ops[j] == Sweep
    requires forall h :: i < h < j ==> !ops[h].Sweep? && !ops[h].Restart?
    ensures var f := states[j + 1].files; id !in f.metas && id !in f.metaFiles && id !in f.logs
    ensures Alive(ttl, states[j], id, now) <==>
            exists h: nat :: i + 1 <= h < j && Renews(ttl, states[h], ops[h], id, now)
              && NoneSince((s, op) => Touches(s, op, id), states, ops, h, j)
  {
    assert Steps(c, ttl)(states[i], ops[i], states[i + 1]);
    assert Steps(c, ttl)(states[j], ops[j], states[j + 1]);
    DoomedUntilSwept(c, ttl, states, ops, i + 1, j);
    forall s, op, t | Steps(c, ttl)(s, op, t)
      ensures Alive(ttl, t, id, now) <==> Renews(ttl, s, op, id, now) || (Alive(ttl, s, id, now) && !Touches(s, op, id))
    {
      StepRenews(c, ttl, s, op, t, id, now);
    }
    HoldsSince(START, Steps(c, ttl), (s: State) => Alive(ttl, s, id, now),
               (s: State, op: Op) => Renews(ttl, s, op, id, now), (s: State, op: Op) => Touches(s, op, id),
               states, ops, i + 1, j);
  }

  // ------------------------------------------------------------------ who is found

  /** When the session was last active, as far as one more operation goes: an append counts when the session is cached. */
  function ActiveAfter(s: State, op: Op, id: Id, had: Option<int>): Option<int> {
    match op
    case Create(m) => if m.id == id then Some(m.lastActiveAt) else had
    case Append(x, _, now) => if x == id && id in s.files.metas then Some(now) else had
    case Delete(x) => if x == id then None else had
    case Sweep => if s.doomed == Some(id) then None else had
    case _ => had
  }

  /** The time of the last create or renewing append, if the session has not been deleted or cleaned since. */
  function LastActive(states: seq<State>, ops: seq<Op>, k: nat, id: Id): Option<int>
    requires k <= |ops| < |states|
  {
    if k == 0 then None else ActiveAfter(states[k - 1], ops[k - 1], id, LastActive(states, ops, k - 1, id))
  }

  /** The meta file bears that time, and is there when there is one. */
  predicate DiskIsActive(c: Codec, f: Files, id: Id, last: Option<int>) {
    if last.None? then OnDisk(c, f, id).None?
    else OnDisk(c, f, id).Some? && OnDisk(c, f, id).value.lastActiveAt == last.value
  }

  lemma StepKeepsActive(c: Codec, ttl: int, s: State, op: Op, t: State, id: Id, had: Option<int>)
    requires Faithful(c) && Follows(c, ttl, s, op, t) && DiskIsActive(c, s.files, id, had)
    ensures DiskIsActive(c, t.files, id, ActiveAfter(s, op, id, had))
  {
  }

  lemma {:induction false} DiskIsLastActive(c: Codec, ttl: int, states: seq<State>, ops: seq<Op>, k: nat, id: Id)
    requires Faithful(c) && IsRun(c, ttl, states, ops) && k < |states|
    ensures DiskIsActive(c, states[k].files, id, LastActive(states, ops, k, id))
  {
    if k > 0 {
      DiskIsLastActive(c, ttl, states, ops, k - 1, id);
      assert Steps(c, ttl)(states[k - 1], ops[k - 1], states[k - 1 + 1]);
      StepKeepsActive(c, ttl, states[k - 1], ops[k - 1], states[k], id, LastActive(states, ops, k - 1, id));
    }
  }

  /**
   Whether a lookup finds the session, over any run without late fills: if and only if it
   was last active no longer than the time to live ago, and not deleted or cleaned since.
   What the lookup finds bears that time.
   */
  lemma FoundIffActive(c: Codec, ttl: int, states: seq<State>, ops: seq<Op>, k: nat, id: Id, now: int)
    requires Faithful(c) && IsRun(c, ttl, states, ops) && k < |states|
    requires forall i :: 0 <= i < k ==> !LateFill(c, states[i], ops[i])
    ensures var found, last := Fresh(Known(c, states[k].files, id), now, ttl), LastActive(states, ops, k, id);
      && (found.Some? <==> last.Some? && now - last.value <= ttl)
      && (found.Some? ==> found.value.lastActiveAt == last.value)
  {
    CoherentThroughout(c, ttl, states, ops, k);
    DiskIsLastActive(c, ttl, states, ops, k, id);
    assert id in states[k].files.metas ==> CoherentAt(c, states[k].files, id);
  }

  /** A lookup goes to the disk, and waits to fill the cache, exactly when the cache misses and the disk has an active session. */
  lemma LooksOnDiskIff(c: Codec, ttl: int, states: seq<State>, ops: seq<Op>, k: nat)
    requires Faithful(c) && IsRun(c, ttl, states, ops) && k < |ops| && ops[k].Look?
    ensures var s, t, last := states[k], states[k + 1], LastActive(states, ops, k, ops[k].id);
      |t.lookups| == |s.lookups| + 1
      <==> ops[k].id !in s.files.metas && last.Some? && ops[k].now - last.value <= ttl
  {
    DiskIsLastActive(c, ttl, states, ops, k, ops[k].id);
    assert Steps(c, ttl)(states[k], ops[k], states[k + 1]);
  }

  /** The cleaning goroutine's test dooms a session exactly when it was last active longer ago than the time to live. */
  lemma DoomedIffOverdue(c: Codec, ttl: int, states: seq<State>, ops: seq<Op>, k: nat)
    requires Faithful(c) && IsRun(c, ttl, states, ops) && k < |ops| && ops[k].Test?
    requires forall i :: 0 <= i < k ==> !LateFill(c, states[i], ops[i])
    ensures var last := LastActive(states, ops, k, ops[k].id);
      last.Some? && (states[k + 1].doomed == Some(ops[k].id) <==> ops[k].now - last.value > ttl)
  {
    CoherentThroughout(c, ttl, states, ops, k);
    DiskIsLastActive(c, ttl, states, ops, k, ops[k].id);
    assert Steps(c, ttl)(states[k], ops[k], states[k + 1]);
    assert CoherentAt(c, states[k].files, ops[k].id);
  }

  // ------------------------------------------------------------------- what can happen

  ghost predicate CanBe(c: Codec, ttl: int, s: State) {
    Reachable(START, Steps(c, ttl), s)
  }

  lemma Reach(c: Codec, ttl: int, s: State, op: Op, t: State)
    requires CanBe(c, ttl, s) && Follows(c, ttl, s, op, t)
    ensures CanBe(c, ttl, t)
  {
    ReachOn(START, Steps(c, ttl), s, op, t);
  }

  /** After a restart a session is on disk and not in the cache. */
  lemma ASessionCanBeUncached(c: Codec, ttl: int, m: Meta) returns (t: State)
    ensures CanBe(c, ttl, t)
    ensures t == State(Files(map[m.id := []], map[m.id := c.encodeMeta(m)], map[]), [], None)
  {
    StartIsReachable(START, Steps(c, ttl));
    var s := Step(c, ttl, START, Create(m));
    Reach(c, ttl, START, Create(m), s);
    t := Step(c, ttl, s, Restart);
    Reach(c, ttl, s, Restart, t);
  }

  lemma ALookupCanBeUnderWay(c: Codec, ttl: int, m: Meta) returns (t: State)
    requires Faithful(c) && ttl >= 0
    ensures CanBe(c, ttl, t)
    ensures t == State(Files(map[m.id := []], map[m.id := c.encodeMeta(m)], map[]), [Lookup(m.id, m, false)], None)
  {
    var s := ASessionCanBeUncached(c, ttl, m);
    t := Step(c, ttl, s, Look(m.id, m.lastActiveAt));
    assert [] + [Lookup(m.id, m, false)] == [Lookup(m.id, m, false)];
    Reach(c, ttl, s, Look(m.id, m.lastActiveAt), t);
  }

  /** A session deleted between a lookup's reading and its filling stays in the cache without a file. */
  lemma ADeletedSessionCanBeCached(c: Codec, ttl: int, m: Meta) returns (t: State)
    requires Faithful(c) && ttl >= 0
    ensures CanBe(c, ttl, t) && m.id in t.files.metas && m.id !in t.files.metaFiles
  {
    var s := ALookupCanBeUnderWay(c, ttl, m);
    var s1 := Step(c, ttl, s, Delete(m.id));
    Reach(c, ttl, s, Delete(m.id), s1);
    t := Step(c, ttl, s1, Fill(0));
    Reach(c, ttl, s1, Fill(0), t);
  }

  /** One created anew in between is cached as it was before. */
  lemma ARecreatedSessionCanBeCachedOld(c: Codec, ttl: int, m: Meta, anew: Meta) returns (t: State)
    requires Faithful(c) && ttl >= 0 && anew.id == m.id
    ensures CanBe(c, ttl, t) && m.id in t.files.metas && t.files.metas[m.id] == m
    ensures OnDisk(c, t.files, m.id) == Some(anew)
  {
    var s := ALookupCanBeUnderWay(c, ttl, m);
    var s1 := Step(c, ttl, s, Create(anew));
    Reach(c, ttl, s, Create(anew), s1);
    t := Step(c, ttl, s1, Fill(0));
    Reach(c, ttl, s1, Fill(0), t);
  }

  /** One that another lookup cached and an append renewed in between looks as old as it was. */
  lemma ARenewedSessionCanBeCachedOld(c: Codec, ttl: int, m: Meta, later: int) returns (t: State)
    requires Faithful(c) && ttl >= 0
    ensures CanBe(c, ttl, t) && m.id in t.files.metas && t.files.metas[m.id] == m
    ensures OnDisk(c, t.files, m.id) == Some(m.(lastActiveAt := later))
  {
    var s := ALookupCanBeUnderWay(c, ttl, m);
    var s1 := Step(c, ttl, s, Look(m.id, m.lastActiveAt));
    Reach(c, ttl, s, Look(m.id, m.lastActiveAt), s1);
    assert s1.lookups[1] == Lookup(m.id, m, false) && s1.lookups[0] == s.lookups[0];
    var s2 := Step(c, ttl, s1, Fill(1));
    Reach(c, ttl, s1, Fill(1), s2);
    var s3 := Step(c, ttl, s2, Append(m.id, [], later));
    Reach(c, ttl, s2, Append(m.id, [], later), s3);
    t := Step(c, ttl, s3, Fill(0));
    Reach(c, ttl, s3, Fill(0), t);
  }

  /** A session that expired: created, and tested by the cleaning goroutine when its time is over. */
  lemma ASessionCanBeDoomed(c: Codec, ttl: int, m: Meta) returns (t: State)
    ensures CanBe(c, ttl, t)
    ensures t == State(Files(map[m.id := []], map[m.id := c.encodeMeta(m)], map[m.id := m]), [], Some(m.id))
  {
    var late := m.lastActiveAt + ttl + 1;
    StartIsReachable(START, Steps(c, ttl));
    var s := Step(c, ttl, START, Create(m));
    Reach(c, ttl, START, Create(m), s);
    t := Step(c, ttl, s, Test(m.id, late));
    Reach(c, ttl, s, Test(m.id, late), t);
  }

  /** A session renewed between the test and the deletion is alive, and goes all the same. */
  lemma ARenewedSessionCanBeCleaned(c: Codec, ttl: int, m: Meta) returns (s: State, t: State, now: int)
    requires ttl >= 0
    ensures CanBe(c, ttl, s) && Alive(ttl, s, m.id, now) && Follows(c, ttl, s, Sweep, t)
    ensures CanBe(c, ttl, t) && m.id !in t.files.metas && m.id !in t.files.metaFiles && m.id !in t.files.logs
  {
    now := m.lastActiveAt + ttl + 1;
    var s0 := ASessionCanBeDoomed(c, ttl, m);
    s := Step(c, ttl, s0, Append(m.id, [], now));
    Reach(c, ttl, s0, Append(m.id, [], now), s);
    t := Step(c, ttl, s, Sweep);
    Reach(c, ttl, s, Sweep, t);
  }

  /** A session cleaned between a request's lookup and its append leaves a log without a meta file. */
  lemma AnAppendCanOrphan(c: Codec, ttl: int, m: Meta) returns (t: State)
    requires ttl >= 0
    ensures CanBe(c, ttl, t) && Orphaned(t.files, m.id)
  {
    var late := m.lastActiveAt + ttl + 1;
    StartIsReachable(START, Steps(c, ttl));
    var s := Step(c, ttl, START, Create(m));
    Reach(c, ttl, START, Create(m), s);
    assert Fresh(Known(c, s.files, m.id), m.lastActiveAt, ttl) == Some(m);
    Reach(c, ttl, s, Look(m.id, m.lastActiveAt), s);
    var s1 := Step(c, ttl, s, Test(m.id, late));
    Reach(c, ttl, s, Test(m.id, late), s1);
    var s2 := Step(c, ttl, s1, Sweep);
    Reach(c, ttl, s1, Sweep, s2);
    t := Step(c, ttl, s2, Append(m.id, [], late));
    Reach(c, ttl, s2, Append(m.id, [], late), t);
  }
}
