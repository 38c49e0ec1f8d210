/**
  The cache of pkg/cache as a concurrent step system: any number of processes, each with
  its own Cache (L1 map, tombstones, single-flight registry), sharing one L2 store and
  one cross-process lock, and any number of calls running at once.

  A thread is ONE call of Get, SetWithTTL, Invalidate or GetOrCompute; a goroutine that
  makes several calls is several threads. One step is one critical section, one clock
  reading or one call out of the package (store, lock, compute).
  What the environment decides (store replies, lock refusals, compute outcomes, poll
  timeouts) is carried by the step's label, so `Next` is a function.
 */
module Protocol {
  import opened Prelude
  import opened CacheEntry

  type Pid = nat
  type Tid = nat
  type Key = string

  /** One key of one process's cache. */
  datatype Cell = Cell(p: Pid, k: Key)

  datatype Error = EmptyKey | StoreGet | StoreSet | StoreDelete | ComputeError(code: int)

  datatype Outcome = Value(v: string) | NoValue | Failed(error: Error)

  /** `budget` is the number of times a GetOrCompute may poll again before its wait is over. */
  datatype Op =
    | Get(k: Key)
    | Set(k: Key, v: string, ttl: int)
    | Invalidate(k: Key)
    | GetOrCompute(k: Key, budget: nat)

  /** Who called Get: a plain call, the fast path, the re-check under sfMu, or the poll loop. */
  datatype Caller = Plain | Fast | Recheck | Poll(left: nat)

  /** How a compute is guarded: no lock configured, lock held, or poll timed out. */
  datatype Mode = Unguarded | Holding | TimedOut

  datatype Writer = OwnSet | WriteBack(mode: Mode)

  /** How a finished call got its outcome. */
  datatype Via = Direct | Led | Followed(leader: Tid)

  datatype PC =
    | Start
    | GetClock(g: Caller)
    | GetL1(g: Caller, now: Time)
    | GetL2(g: Caller)
    | GetReclock(g: Caller, e: Entry)
    | GetPromote(g: Caller, e: Entry, now: Time)
    | WantMu
    | DropMu(v: string)
    | Register
    | Wait(leader: Tid)
    | TryLock
    | PollPause(left: nat)
    | Snapshot(mode: Mode)
    | Compute(mode: Mode, snap: Option<Time>)
    | Supersede(mode: Mode, snap: Option<Time>, v: string, ttl: int)
    | SetClock(w: Writer, v: string, ttl: int)
    | SetL1(w: Writer, e: Entry)
    | SetL2(w: Writer, e: Entry)
    | Unlock(out: Outcome)
    | Publish(out: Outcome)
    | Close(out: Outcome)
    | Release(out: Outcome)
    | InvClock
    | InvLock(now: Time)
    | InvL2
    | Done(out: Outcome, via: Via)

  datatype Thread = Thread(p: Pid, op: Op, pc: PC) {
    function Slot(): Cell { Cell(p, op.k) }
  }

  /** The shared record of one in-flight computation; it is named by the thread that made it. */
  datatype Call = Call(out: Option<Outcome>, closed: bool)

  /**
    `store` holds every row the L2 store may still return; a delete never removes one,
    because the store is free to ignore it or to lag. `wins` (calls whose compute returned
    success) and `made` (values a Set or a successful compute produced for a key) are
    histories: no step reads them.
   */
  datatype Sys = Sys(
    guarded: set<Pid>,
    tombTTL: map<Pid, Time>,
    clock: Time,
    l1: map<Cell, Entry>,
    tombs: map<Cell, Time>,
    lastPrune: map<Pid, Time>,
    sfMu: map<Pid, Tid>,
    sf: map<Cell, Tid>,
    calls: map<Tid, Call>,
    xlock: map<Key, Tid>,
    store: set<(Key, Entry)>,
    threads: map<Tid, Thread>,
    wins: set<Tid>,
    made: set<(Key, string)>)

  datatype Reply = Missing | Unreadable | Found(e: Entry)

  datatype Action =
    | Go
    | StoreReplies(r: Reply)
    | StoreWrites(kept: bool, failed: bool)
    | StoreDeletes(failed: bool)
    | LockReplies(ok: bool)
    | Computes(v: string, ttl: int)
    | ComputeFails(code: int)
    | PollEnds(timeout: bool)

  datatype Label = Tick(now: Time) | Step(t: Tid, a: Action)

  // ----- small pieces -----

  function Budget(op: Op): nat {
    if op.GetOrCompute? then op.budget else 0
  }

  function Begin(op: Op): PC {
    if op.k == "" then Done(Failed(EmptyKey), Direct)
    else match op
      case Get(_) => GetClock(Plain)
      case Set(_, v, ttl) => SetClock(OwnSet, v, ttl)
      case Invalidate(_) => InvClock
      case GetOrCompute(_, _) => GetClock(Fast)
  }

  /** Where a caller of Get goes on with what Get returned. */
  function AfterGet(g: Caller, r: Outcome): PC {
    match g
    case Plain => Done(r, Direct)
    case Fast => if r.NoValue? then WantMu else Done(r, Direct)
    case Recheck => if r.Value? then DropMu(r.v) else Register
    case Poll(left) => if r.Value? then Publish(r) else PollPause(left)
  }

  function AfterCompute(mode: Mode, out: Outcome): PC {
    if mode == Holding then Unlock(out) else Publish(out)
  }

  /** Whether an Invalidate in process p at `now` sweeps its tombstones. */
  predicate Sweeps(s: Sys, p: Pid, now: Time) {
    && p in s.tombTTL && 0 < s.tombTTL[p]
    && (p in s.lastPrune ==> s.tombTTL[p] <= now - s.lastPrune[p])
  }

  /** The tombstones process p keeps; other processes' tombstones are their own. */
  function Unswept(s: Sys, tombs: map<Cell, Time>, p: Pid, now: Time): map<Cell, Time> {
    if Sweeps(s, p, now) then map c | c in tombs && (c.p == p ==> now - s.tombTTL[p] <= tombs[c]) :: tombs[c]
    else tombs
  }

  // ----- the steps -----
  //
  // `Advance` is the control flow of a call; the functions after it say, variable by
  // variable, what a step does to the shared state.

  function Next(s: Sys, l: Label): Option<Sys> {
    match l
    case Tick(now) => Some(s.(clock := now))
    case Step(t, a) => if t in s.threads && Advance(s, t, a).Some? then Some(After(s, t, a)) else None
  }

  function After(s: Sys, t: Tid, a: Action): Sys
    requires t in s.threads && Advance(s, t, a).Some?
  {
    s.(
      threads := s.threads[t := s.threads[t].(pc := Advance(s, t, a).value)],
      l1 := L1After(s, t),
      tombs := TombsAfter(s, t),
      lastPrune := LastPruneAfter(s, t),
      sfMu := MuAfter(s, t),
      sf := SfAfter(s, t),
      calls := CallsAfter(s, t),
      xlock := XLockAfter(s, t, a),
      store := StoreAfter(s, t, a),
      wins := WinsAfter(s, t, a),
      made := MadeAfter(s, t, a))
  }

  /** Where thread t goes if its next step is taken with action a; None if that step is not enabled. */
  function Advance(s: Sys, t: Tid, a: Action): Option<PC>
    requires t in s.threads
  {
    var th := s.threads[t];
    match th.pc
    case Start => if a.Go? then Some(Begin(th.op)) else None
    case GetClock(g) => if a.Go? then Some(GetL1(g, s.clock)) else None
    case GetL1(g, now) => if a.Go? then Some(AfterL1(s, th.Slot(), g, now)) else None
    case GetL2(g) => if a.StoreReplies? then AfterL2(s, th.op.k, g, a.r) else None
    case GetReclock(g, e) => if a.Go? then Some(GetPromote(g, e, s.clock)) else None
    case GetPromote(g, e, now) => if a.Go? then Some(AfterGet(g, Promoted(s, th.Slot(), e, now))) else None
    case WantMu =>
      if !a.Go? || th.p in s.sfMu then None
      else if th.Slot() in s.sf then Some(Wait(s.sf[th.Slot()]))
      else Some(GetClock(Recheck))
    case DropMu(v) => if a.Go? then Some(Done(Value(v), Direct)) else None
    case Register => if a.Go? then Some(if th.p in s.guarded then TryLock else Snapshot(Unguarded)) else None
    case Wait(o) =>
      if a.Go? && o in s.calls && s.calls[o].closed && s.calls[o].out.Some? then
        Some(Done(s.calls[o].out.value, Followed(o)))
      else None
    case TryLock =>
      if !a.LockReplies? then None
      else if !a.ok then Some(GetClock(Poll(Budget(th.op))))
      else if th.op.k in s.xlock then None
      else Some(Snapshot(Holding))
    case PollPause(left) =>
      if !a.PollEnds? then None
      else if a.timeout then Some(Snapshot(TimedOut))
      else if left == 0 then None
      else Some(GetClock(Poll(left - 1)))
    case Snapshot(mode) => if a.Go? then Some(Compute(mode, Lookup(s.tombs, th.Slot()))) else None
    case Compute(mode, snap) =>
      if a.Computes? then Some(Supersede(mode, snap, a.v, a.ttl))
      else if a.ComputeFails? then Some(AfterCompute(mode, Failed(ComputeError(a.code))))
      else None
    case Supersede(mode, snap, v, ttl) =>
      if !a.Go? then None
      else if Superseded(snap, Lookup(s.tombs, th.Slot())) then Some(AfterCompute(mode, Value(v)))
      else Some(SetClock(WriteBack(mode), v, ttl))
    case SetClock(w, v, ttl) => if a.Go? then Some(SetL1(w, Stamped(v, ttl, s.clock))) else None
    case SetL1(w, e) => if a.Go? then Some(SetL2(w, e)) else None
    case SetL2(w, e) => if a.StoreWrites? then Some(AfterSet(w, e, a.failed)) else None
    case Unlock(out) => if a.Go? then Some(Publish(out)) else None
    case Publish(out) => if a.Go? then Some(Close(out)) else None
    case Close(out) => if a.Go? then Some(Release(out)) else None
    case Release(out) => if a.Go? && th.p !in s.sfMu then Some(Done(out, Led)) else None
    case InvClock => if a.Go? then Some(InvLock(s.clock)) else None
    case InvLock(now) => if a.Go? then Some(InvL2) else None
    case InvL2 =>
      if a.StoreDeletes? then Some(Done(if a.failed then Failed(StoreDelete) else NoValue, Direct)) else None
    case Done(_, _) => None
  }

  /** The L1 section of Get serves a valid entry and falls through to the store otherwise. */
  predicate HitsL1(s: Sys, c: Cell, now: Time) {
    c in s.l1 && Servable(s.l1[c], Lookup(s.tombs, c), now)
  }

  function AfterL1(s: Sys, c: Cell, g: Caller, now: Time): PC {
    if HitsL1(s, c, now) then AfterGet(g, Value(s.l1[c].value)) else GetL2(g)
  }

  /** The store may return any row it was ever given for the key, nothing, or an error. */
  function AfterL2(s: Sys, k: Key, g: Caller, r: Reply): Option<PC> {
    match r
    case Missing => Some(AfterGet(g, NoValue))
    case Unreadable => Some(AfterGet(g, Failed(StoreGet)))
    case Found(e) => if (k, e) in s.store then Some(GetReclock(g, e)) else None
  }

  /** The promotion section keeps a newer-or-equal servable L1 entry over the row that was read. */
  predicate KeepsL1(s: Sys, c: Cell, e: Entry, now: Time) {
    HitsL1(s, c, now) && e.storedAt <= s.l1[c].storedAt
  }

  predicate Promotes(s: Sys, c: Cell, e: Entry, now: Time) {
    !KeepsL1(s, c, e, now) && Servable(e, Lookup(s.tombs, c), now)
  }

  function Promoted(s: Sys, c: Cell, e: Entry, now: Time): Outcome {
    if KeepsL1(s, c, e, now) then Value(s.l1[c].value)
    else if Promotes(s, c, e, now) then Value(e.value)
    else NoValue
  }

  function AfterSet(w: Writer, e: Entry, failed: bool): PC {
    match w
    case OwnSet => Done(if failed then Failed(StoreSet) else NoValue, Direct)
    case WriteBack(mode) => AfterCompute(mode, Value(e.value))
  }

  function L1After(s: Sys, t: Tid): map<Cell, Entry>
    requires t in s.threads
  {
    var c := s.threads[t].Slot();
    match s.threads[t].pc
    case GetL1(_, now) => if HitsL1(s, c, now) then s.l1 else s.l1 - {c}
    case GetPromote(_, e, now) => if Promotes(s, c, e, now) then s.l1[c := e] else s.l1
    case SetL1(_, e) => s.l1[c := e]
    case InvLock(_) => s.l1 - {c}
    case _ => s.l1
  }

  function TombsAfter(s: Sys, t: Tid): map<Cell, Time>
    requires t in s.threads
  {
    var c := s.threads[t].Slot();
    match s.threads[t].pc
    case SetL1(_, _) => s.tombs - {c}
    case InvLock(now) => Unswept(s, s.tombs[c := now], c.p, now)
    case _ => s.tombs
  }

  function LastPruneAfter(s: Sys, t: Tid): map<Pid, Time>
    requires t in s.threads
  {
    var p := s.threads[t].p;
    match s.threads[t].pc
    case InvLock(now) => if Sweeps(s, p, now) then s.lastPrune[p := now] else s.lastPrune
    case _ => s.lastPrune
  }

  /** sfMu is kept only by a thread that found no call in flight; every way out lets it go. */
  function MuAfter(s: Sys, t: Tid): map<Pid, Tid>
    requires t in s.threads
  {
    var th := s.threads[t];
    match th.pc
    case WantMu => if th.Slot() in s.sf then s.sfMu else s.sfMu[th.p := t]
    case DropMu(_) => s.sfMu - {th.p}
    case Register => s.sfMu - {th.p}
    case _ => s.sfMu
  }

  function SfAfter(s: Sys, t: Tid): map<Cell, Tid>
    requires t in s.threads
  {
    var c := s.threads[t].Slot();
    match s.threads[t].pc
    case Register => s.sf[c := t]
    case Release(_) => s.sf - {c}
    case _ => s.sf
  }

  function CallsAfter(s: Sys, t: Tid): map<Tid, Call>
    requires t in s.threads
  {
    match s.threads[t].pc
    case Register => s.calls[t := Call(None, false)]
    case Publish(out) => s.calls[t := Call(Some(out), false)]
    case Close(out) => s.calls[t := Call(Some(out), true)]
    case _ => s.calls
  }

  /** The lock grants only a free key; it may refuse or break at any time. */
  function XLockAfter(s: Sys, t: Tid, a: Action): map<Key, Tid>
    requires t in s.threads
  {
    var k := s.threads[t].op.k;
    match s.threads[t].pc
    case TryLock => if a.LockReplies? && a.ok then s.xlock[k := t] else s.xlock
    case Unlock(_) => s.xlock - {k}
    case _ => s.xlock
  }

  /** A store write that fails may still have taken effect; a delete may always be ignored. */
  function StoreAfter(s: Sys, t: Tid, a: Action): set<(Key, Entry)>
    requires t in s.threads
  {
    match s.threads[t].pc
    case SetL2(_, e) =>
      if a.StoreWrites? && a.kept then s.store + {(s.threads[t].op.k, Reread(e))} else s.store
    case _ => s.store
  }

  function WinsAfter(s: Sys, t: Tid, a: Action): set<Tid>
    requires t in s.threads
  {
    if s.threads[t].pc.Compute? && a.Computes? then s.wins + {t} else s.wins
  }

  function MadeAfter(s: Sys, t: Tid, a: Action): set<(Key, string)>
    requires t in s.threads
  {
    var th := s.threads[t];
    if th.pc.Compute? && a.Computes? then s.made + {(th.op.k, a.v)}
    else if th.pc.SetL1? && th.pc.w.OwnSet? then s.made + {(th.op.k, th.pc.e.value)}
    else s.made
  }

  // ----- runs -----

  /** A fresh set of caches over a store that may already hold rows; no call has begun. */
  ghost predicate Init(s: Sys) {
    && s.l1 == map[] && s.tombs == map[] && s.lastPrune == map[]
    && s.sfMu == map[] && s.sf == map[] && s.calls == map[] && s.xlock == map[]
    && s.wins == {}
    && (forall k, v :: (k, v) in s.made <==> exists e :: (k, e) in s.store && e.value == v)
    && (forall t | t in s.threads :: s.threads[t].pc == Start)
  }

  /** `tr` is a run: state i+1 is what label i makes of state i. */
  ghost predicate Run(tr: seq<Sys>, ls: seq<Label>) {
    && |tr| == |ls| + 1
    && Init(tr[0])
    && forall i | 0 <= i < |ls| :: Next(tr[i], ls[i]) == Some(tr[i + 1])
  }
}
