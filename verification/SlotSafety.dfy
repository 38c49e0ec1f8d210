/**
  Who holds what. In every reachable state the single-flight slot, sfMu, the cross-process
  lock and the shared call records are exactly where the program counters say they are;
  a follower returns its leader's outcome.

  Each step is first reduced to what it does to the locks and records; the invariant is
  then kept part by part, without looking at program counters again.
 */
module SlotSafety {
  import opened Prelude
  import opened Protocol

  // ----- what a program counter entitles its thread to -----

  predicate InGet(pc: PC, g: Caller) {
    match pc
    case GetClock(h) => h == g
    case GetL1(h, _) => h == g
    case GetL2(h) => h == g
    case GetReclock(h, _) => h == g
    case GetPromote(h, _, _) => h == g
    case _ => false
  }

  predicate Polling(pc: PC) {
    match pc
    case GetClock(g) => g.Poll?
    case GetL1(g, _) => g.Poll?
    case GetL2(g) => g.Poll?
    case GetReclock(g, _) => g.Poll?
    case GetPromote(g, _, _) => g.Poll?
    case _ => pc.PollPause?
  }

  /** The thread is inside the sfMu critical section. */
  predicate HoldsMu(pc: PC) { InGet(pc, Recheck) || pc.DropMu? || pc.Register? }

  /** The mode of a thread between the snapshot and the end of its write-back. */
  function ModeOf(pc: PC): Option<Mode> {
    match pc
    case Snapshot(m) => Some(m)
    case Compute(m, _) => Some(m)
    case Supersede(m, _, _, _) => Some(m)
    case SetClock(w, _, _) => if w.WriteBack? then Some(w.mode) else None
    case SetL1(w, _) => if w.WriteBack? then Some(w.mode) else None
    case SetL2(w, _) => if w.WriteBack? then Some(w.mode) else None
    case _ => None
  }

  /** The thread holds the cross-process lock on its key. */
  predicate HoldsX(pc: PC) { ModeOf(pc) == Some(Holding) || pc.Unlock? }

  /** The thread's own call record, if it has made one. */
  function Record(pc: PC): Option<Call> {
    match pc
    case Close(out) => Some(Call(Some(out), false))
    case Release(out) => Some(Call(Some(out), true))
    case Done(out, via) => if via.Led? then Some(Call(Some(out), true)) else None
    case _ =>
      if pc.TryLock? || Polling(pc) || ModeOf(pc).Some? || pc.Unlock? || pc.Publish? then Some(Call(None, false))
      else None
  }

  /** The thread is between register and delete of its key's slot. */
  predicate Owns(pc: PC) { Record(pc).Some? && !pc.Done? }

  // ----- the invariant -----

  predicate Is(s: Sys, t: Tid, c: Cell) { t in s.threads && s.threads[t].Slot() == c }

  ghost predicate SlotsOk(s: Sys) {
    && (forall c | c in s.sf :: Is(s, s.sf[c], c) && Owns(s.threads[s.sf[c]].pc))
    && (forall t | t in s.threads && Owns(s.threads[t].pc) ::
          s.threads[t].Slot() in s.sf && s.sf[s.threads[t].Slot()] == t)
  }

  ghost predicate MuOk(s: Sys) {
    && (forall p | p in s.sfMu ::
          s.sfMu[p] in s.threads && s.threads[s.sfMu[p]].p == p && HoldsMu(s.threads[s.sfMu[p]].pc))
    && (forall t | t in s.threads && HoldsMu(s.threads[t].pc) ::
          s.threads[t].p in s.sfMu && s.sfMu[s.threads[t].p] == t && s.threads[t].Slot() !in s.sf)
  }

  ghost predicate XLockOk(s: Sys) {
    && (forall k | k in s.xlock ::
          s.xlock[k] in s.threads && s.threads[s.xlock[k]].op.k == k && HoldsX(s.threads[s.xlock[k]].pc))
    && (forall t | t in s.threads && HoldsX(s.threads[t].pc) ::
          s.threads[t].op.k in s.xlock && s.xlock[s.threads[t].op.k] == t)
  }

  ghost predicate CallsOk(s: Sys) {
    forall t | t in s.threads :: Lookup(s.calls, t) == Record(s.threads[t].pc)
  }

  predicate LeaderOk(s: Sys, t: Tid)
    requires t in s.threads
  {
    match s.threads[t].pc
    case Wait(o) => Is(s, o, s.threads[t].Slot()) && Record(s.threads[o].pc).Some?
    case Done(out, via) =>
      via.Followed? ==>
        && Is(s, via.leader, s.threads[t].Slot())
        && Record(s.threads[via.leader].pc) == Some(Call(Some(out), true))
    case _ => true
  }

  predicate ModeOk(s: Sys, t: Tid)
    requires t in s.threads
  {
    var th := s.threads[t];
    && (ModeOf(th.pc).Some? ==> (ModeOf(th.pc).value == Unguarded <==> th.p !in s.guarded))
    && (th.pc.TryLock? || Polling(th.pc) || th.pc.Unlock? ==> th.p in s.guarded)
    && (InGet(th.pc, Fast) || Owns(th.pc) || HoldsMu(th.pc) || th.pc.WantMu? || th.pc.Wait? ==> th.op.GetOrCompute?)
  }

  ghost predicate LockInv(s: Sys) {
    && SlotsOk(s) && MuOk(s) && XLockOk(s) && CallsOk(s)
    && forall t | t in s.threads :: LeaderOk(s, t) && ModeOk(s, t)
  }

  // ----- how one step changes a thread's entitlements -----

  predicate Steps(s: Sys, t: Tid, a: Action, pc': PC) {
    t in s.threads && Advance(s, t, a) == Some(pc')
  }

  /** sfMu is taken by a thread that found no call in flight, and let go at DropMu and Register. */
  lemma {:induction false} MuRole(s: Sys, t: Tid, a: Action, pc': PC)
    requires Steps(s, t, a, pc')
    ensures var pc := s.threads[t].pc;
      HoldsMu(pc') == if pc.WantMu? then s.threads[t].Slot() !in s.sf else HoldsMu(pc) && !pc.DropMu? && !pc.Register?
  {
  }

  lemma {:induction false} ModeRole(s: Sys, t: Tid, a: Action, pc': PC)
    requires Steps(s, t, a, pc')
    ensures var pc := s.threads[t].pc;
      ModeOf(pc').Some? ==>
        ModeOf(pc') == (
          if pc.Register? then Some(Unguarded)
          else if pc.TryLock? then Some(Holding)
          else if pc.PollPause? then Some(TimedOut)
          else ModeOf(pc))
  {
  }

  lemma {:induction false} XRole(s: Sys, t: Tid, a: Action, pc': PC)
    requires Steps(s, t, a, pc')
    ensures var pc := s.threads[t].pc;
      HoldsX(pc') == if pc.TryLock? then a.LockReplies? && a.ok else HoldsX(pc) && !pc.Unlock?
  {
  }

  predicate IsGet(pc: PC) {
    pc.GetClock? || pc.GetL1? || pc.GetL2? || pc.GetReclock? || pc.GetPromote?
  }

  lemma {:induction false} RecordInGet(s: Sys, t: Tid, a: Action, pc': PC)
    requires Steps(s, t, a, pc') && IsGet(s.threads[t].pc)
    ensures Record(pc') == Record(s.threads[t].pc)
  {
  }

  /** On the way to the compute. */
  predicate Queues(pc: PC) {
    pc.Start? || pc.WantMu? || pc.DropMu? || pc.Register? || pc.Wait? || pc.TryLock? || pc.PollPause?
  }

  lemma {:induction false} RecordInQueue(s: Sys, t: Tid, a: Action, pc': PC)
    requires Steps(s, t, a, pc') && Queues(s.threads[t].pc)
    ensures Record(pc') == if s.threads[t].pc.Register? then Some(Call(None, false)) else Record(s.threads[t].pc)
  {
  }

  lemma {:induction false} RecordInWork(s: Sys, t: Tid, a: Action, pc': PC)
    requires Steps(s, t, a, pc') && !IsGet(s.threads[t].pc) && !Queues(s.threads[t].pc)
    ensures Record(pc') == match s.threads[t].pc
      case Publish(out) => Some(Call(Some(out), false))
      case Close(out) => Some(Call(Some(out), true))
      case _ => Record(s.threads[t].pc)
  {
  }

  lemma {:induction false} DoneStep(s: Sys, t: Tid, a: Action, pc': PC)
    requires Steps(s, t, a, pc') && pc'.Done? && pc'.via.Led?
    ensures s.threads[t].pc.Release?
  {
  }

  lemma {:induction false} ReleaseStep(s: Sys, t: Tid, a: Action, pc': PC)
    requires Steps(s, t, a, pc') && s.threads[t].pc.Release?
    ensures pc' == Done(s.threads[t].pc.out, Led)
  {
  }

  /** A record is made at Register, filled at Publish, closed at Close, and never changed again. */
  lemma {:induction false} RecordRole(s: Sys, t: Tid, a: Action, pc': PC)
    requires Steps(s, t, a, pc')
    ensures Record(pc') == match s.threads[t].pc
      case Register => Some(Call(None, false))
      case Publish(out) => Some(Call(Some(out), false))
      case Close(out) => Some(Call(Some(out), true))
      case _ => Record(s.threads[t].pc)
    ensures Owns(pc') == (s.threads[t].pc.Register? || (Owns(s.threads[t].pc) && !s.threads[t].pc.Release?))
  {
    if IsGet(s.threads[t].pc) { RecordInGet(s, t, a, pc'); }
    else if Queues(s.threads[t].pc) { RecordInQueue(s, t, a, pc'); }
    else { RecordInWork(s, t, a, pc'); }
    if pc'.Done? && pc'.via.Led? { DoneStep(s, t, a, pc'); }
    if s.threads[t].pc.Release? { ReleaseStep(s, t, a, pc'); }
    assert !s.threads[t].pc.Done?;
    hide Advance;
  }

  // ----- each part of the invariant under each kind of change -----

  /** One thread moves to pc'; the other threads, and which processes are guarded, stay. */
  predicate Moves(s: Sys, s': Sys, t: Tid, pc': PC) {
    && t in s.threads
    && s'.threads == s.threads[t := s.threads[t].(pc := pc')]
    && s'.guarded == s.guarded
  }

  lemma {:induction false} SlotsSame(s: Sys, s': Sys, t: Tid, pc': PC)
    requires SlotsOk(s) && Moves(s, s', t, pc')
    requires s'.sf == s.sf && Owns(pc') == Owns(s.threads[t].pc)
    ensures SlotsOk(s')
  {
    hide Owns;
  }

  lemma {:induction false} SlotsTaken(s: Sys, s': Sys, t: Tid, pc': PC)
    requires SlotsOk(s) && Moves(s, s', t, pc')
    requires s.threads[t].Slot() !in s.sf && s'.sf == s.sf[s.threads[t].Slot() := t]
    requires Owns(pc')
    ensures SlotsOk(s')
  {
    hide Owns;
  }

  lemma {:induction false} SlotsLeft(s: Sys, s': Sys, t: Tid, pc': PC)
    requires SlotsOk(s) && Moves(s, s', t, pc')
    requires Owns(s.threads[t].pc) && !Owns(pc') && s'.sf == s.sf - {s.threads[t].Slot()}
    ensures SlotsOk(s')
  {
    hide Owns;
  }

  lemma {:induction false} MuSame(s: Sys, s': Sys, t: Tid, pc': PC)
    requires MuOk(s) && Moves(s, s', t, pc')
    requires s'.sfMu == s.sfMu && HoldsMu(pc') == HoldsMu(s.threads[t].pc)
    requires s'.sf.Keys <= s.sf.Keys
    ensures MuOk(s')
  {
    hide HoldsMu;
  }

  lemma {:induction false} MuTaken(s: Sys, s': Sys, t: Tid, pc': PC)
    requires MuOk(s) && Moves(s, s', t, pc')
    requires s.threads[t].p !in s.sfMu && s'.sfMu == s.sfMu[s.threads[t].p := t]
    requires HoldsMu(pc') && s.threads[t].Slot() !in s.sf && s'.sf == s.sf
    ensures MuOk(s')
  {
    hide HoldsMu;
  }

  lemma {:induction false} MuLeft(s: Sys, s': Sys, t: Tid, pc': PC)
    requires MuOk(s) && Moves(s, s', t, pc')
    requires HoldsMu(s.threads[t].pc) && !HoldsMu(pc')
    requires s'.sfMu == s.sfMu - {s.threads[t].p} && s'.sf.Keys <= s.sf.Keys + {s.threads[t].Slot()}
    ensures MuOk(s')
  {
    hide HoldsMu;
  }

  lemma {:induction false} XLockSame(s: Sys, s': Sys, t: Tid, pc': PC)
    requires XLockOk(s) && Moves(s, s', t, pc')
    requires s'.xlock == s.xlock && HoldsX(pc') == HoldsX(s.threads[t].pc)
    ensures XLockOk(s')
  {
    hide HoldsX;
  }

  lemma {:induction false} XLockTaken(s: Sys, s': Sys, t: Tid, pc': PC)
    requires XLockOk(s) && Moves(s, s', t, pc')
    requires s.threads[t].op.k !in s.xlock && s'.xlock == s.xlock[s.threads[t].op.k := t] && HoldsX(pc')
    ensures XLockOk(s')
  {
    hide HoldsX;
  }

  lemma {:induction false} XLockLeft(s: Sys, s': Sys, t: Tid, pc': PC)
    requires XLockOk(s) && Moves(s, s', t, pc')
    requires HoldsX(s.threads[t].pc) && !HoldsX(pc') && s'.xlock == s.xlock - {s.threads[t].op.k}
    ensures XLockOk(s')
  {
    hide HoldsX;
  }

  lemma {:induction false} LeadersSame(s: Sys, s': Sys, t: Tid, pc': PC)
    requires Moves(s, s', t, pc') && (forall u | u in s.threads :: LeaderOk(s, u))
    requires Record(s.threads[t].pc).Some? ==> Record(pc').Some?
    requires Record(s.threads[t].pc).Some? && Record(s.threads[t].pc).value.closed ==>
               Record(pc') == Record(s.threads[t].pc)
    requires LeaderOk(s', t)
    ensures forall u | u in s'.threads :: LeaderOk(s', u)
  {
    hide Record;
  }

  // ----- one step keeps every part -----

  lemma {:induction false} Changes(s: Sys, t: Tid, a: Action, pc': PC)
    requires Steps(s, t, a, pc')
    ensures var s' := After(s, t, a);
      && Moves(s, s', t, pc')
      && s'.sf == SfAfter(s, t) && s'.sfMu == MuAfter(s, t)
      && s'.calls == CallsAfter(s, t) && s'.xlock == XLockAfter(s, t, a)
  {
    hide Advance;
  }

  lemma {:induction false} KeepsSlots(s: Sys, s': Sys, t: Tid, a: Action, pc': PC)
    requires SlotsOk(s) && MuOk(s) && Steps(s, t, a, pc')
    requires Moves(s, s', t, pc') && s'.sf == SfAfter(s, t)
    ensures SlotsOk(s')
  {
    RecordRole(s, t, a, pc');
    hide Advance;
    match s.threads[t].pc
    case Register => SlotsTaken(s, s', t, pc');
    case Release(_) => SlotsLeft(s, s', t, pc');
    case _ => SlotsSame(s, s', t, pc');
  }

  lemma {:induction false} KeepsMu(s: Sys, s': Sys, t: Tid, a: Action, pc': PC)
    requires MuOk(s) && Steps(s, t, a, pc')
    requires Moves(s, s', t, pc') && s'.sf == SfAfter(s, t) && s'.sfMu == MuAfter(s, t)
    ensures MuOk(s')
  {
    MuRole(s, t, a, pc');
    match s.threads[t].pc
    case Register => MuLeft(s, s', t, pc');
    case DropMu(_) => MuLeft(s, s', t, pc');
    case WantMu => if s.threads[t].Slot() in s.sf { MuSame(s, s', t, pc'); } else { MuTaken(s, s', t, pc'); }
    case _ => MuSame(s, s', t, pc');
  }

  lemma {:induction false} KeepsXLock(s: Sys, s': Sys, t: Tid, a: Action, pc': PC)
    requires XLockOk(s) && Steps(s, t, a, pc')
    requires Moves(s, s', t, pc') && s'.xlock == XLockAfter(s, t, a)
    ensures XLockOk(s')
  {
    XRole(s, t, a, pc');
    match s.threads[t].pc
    case TryLock => if a.LockReplies? && a.ok { XLockTaken(s, s', t, pc'); } else { XLockSame(s, s', t, pc'); }
    case Unlock(_) => XLockLeft(s, s', t, pc');
    case _ => XLockSame(s, s', t, pc');
  }

  lemma {:induction false} KeepsCalls(s: Sys, s': Sys, t: Tid, a: Action, pc': PC)
    requires CallsOk(s) && Steps(s, t, a, pc')
    requires Moves(s, s', t, pc') && s'.calls == CallsAfter(s, t)
    ensures CallsOk(s')
  {
    RecordRole(s, t, a, pc');
    hide Advance, Record;
  }

  /** A thread starts to wait only for the owner of its slot, and wakes up only to a closed call. */
  lemma {:induction false} LeaderStep(s: Sys, t: Tid, a: Action, pc': PC)
    requires Steps(s, t, a, pc')
    ensures pc'.Wait? ==>
      s.threads[t].pc.WantMu? && s.threads[t].Slot() in s.sf && pc'.leader == s.sf[s.threads[t].Slot()]
    ensures pc'.Done? && pc'.via.Followed? ==>
      && s.threads[t].pc == Wait(pc'.via.leader)
      && Lookup(s.calls, pc'.via.leader) == Some(Call(Some(pc'.out), true))
  {
  }

  lemma {:induction false} KeepsLeader(s: Sys, s': Sys, t: Tid, a: Action, pc': PC)
    requires LockInv(s) && Steps(s, t, a, pc') && Moves(s, s', t, pc')
    ensures forall u | u in s'.threads :: LeaderOk(s', u)
  {
    RecordRole(s, t, a, pc');
    StepperHasLeader(s, s', t, a, pc');
    hide Advance, Record, SlotsOk, MuOk, XLockOk, CallsOk, LeaderOk, ModeOk, Owns, HoldsMu;
    LeadersSame(s, s', t, pc');
  }

  /** A step keeps its own thread's leader in order. */
  lemma {:induction false} StepperHasLeader(s: Sys, s': Sys, t: Tid, a: Action, pc': PC)
    requires SlotsOk(s) && CallsOk(s) && LeaderOkIn(s, t) && Steps(s, t, a, pc') && Moves(s, s', t, pc')
    ensures LeaderOkIn(s', t)
  {
    RecordRole(s, t, a, pc');
    LeaderStep(s, t, a, pc');
    hide Advance, Record;
  }

  predicate LeaderOkIn(s: Sys, t: Tid) { t in s.threads && LeaderOk(s, t) }

  lemma {:induction false} GuardedStep(s: Sys, t: Tid, a: Action, pc': PC)
    requires Steps(s, t, a, pc') && ModeOk(s, t)
    requires pc'.TryLock? || Polling(pc') || pc'.Unlock?
    ensures s.threads[t].p in s.guarded
  {
  }

  lemma {:induction false} JoinerStep(s: Sys, t: Tid, a: Action, pc': PC)
    requires Steps(s, t, a, pc') && ModeOk(s, t)
    requires InGet(pc', Fast) || Owns(pc') || HoldsMu(pc') || pc'.WantMu? || pc'.Wait?
    ensures s.threads[t].op.GetOrCompute?
  {
    RecordRole(s, t, a, pc');
    MuRole(s, t, a, pc');
    hide Owns, HoldsMu;
  }

  lemma {:induction false} KeepsMode(s: Sys, s': Sys, t: Tid, a: Action, pc': PC)
    requires Steps(s, t, a, pc') && Moves(s, s', t, pc') && ModeOk(s, t)
    ensures ModeOk(s', t)
  {
    ModeRole(s, t, a, pc');
    hide Advance, Owns, HoldsMu, ModeOf, InGet, Polling;
    if pc'.TryLock? || Polling(pc') || pc'.Unlock? { GuardedStep(s, t, a, pc'); }
    if InGet(pc', Fast) || Owns(pc') || HoldsMu(pc') || pc'.WantMu? || pc'.Wait? { JoinerStep(s, t, a, pc'); }
    if ModeOf(pc').Some? && s.threads[t].pc.Register? { RegisterStep(s, t, a, pc'); }
  }

  lemma {:induction false} RegisterStep(s: Sys, t: Tid, a: Action, pc': PC)
    requires Steps(s, t, a, pc') && s.threads[t].pc.Register?
    ensures pc' == if s.threads[t].p in s.guarded then TryLock else Snapshot(Unguarded)
  {
  }

  lemma {:induction false} ThreadStep(s: Sys, t: Tid, a: Action, pc': PC)
    requires LockInv(s) && Steps(s, t, a, pc')
    ensures LockInv(After(s, t, a))
  {
    var s' := After(s, t, a);
    Changes(s, t, a, pc');
    hide Advance, After, SlotsOk, MuOk, XLockOk, CallsOk, LeaderOk, ModeOk;
    KeepsSlots(s, s', t, a, pc');
    KeepsMu(s, s', t, a, pc');
    KeepsXLock(s, s', t, a, pc');
    KeepsCalls(s, s', t, a, pc');
    KeepsLeader(s, s', t, a, pc');
    forall u | u in s'.threads
      ensures ModeOk(s', u)
    {
      if u == t { KeepsMode(s, s', t, a, pc'); } else { OthersMode(s, s', t, u, pc'); }
    }
  }

  lemma {:induction false} OthersMode(s: Sys, s': Sys, t: Tid, u: Tid, pc': PC)
    requires Moves(s, s', t, pc') && u in s.threads && u != t && ModeOk(s, u)
    ensures ModeOk(s', u)
  {
  }

  /** The slot, lock and call-record invariant survives every step. */
  lemma {:induction false} LockStep(s: Sys, l: Label)
    requires LockInv(s) && Next(s, l).Some?
    ensures LockInv(Next(s, l).value)
  {
    hide LockInv;
    match l
    case Tick(now) => LockTick(s, now);
    case Step(t, a) => ThreadStep(s, t, a, Advance(s, t, a).value);
  }

  lemma {:induction false} LockTick(s: Sys, now: int)
    requires LockInv(s)
    ensures LockInv(s.(clock := now))
  {
    hide Owns, HoldsMu, HoldsX, Record, Polling, ModeOf, InGet;
  }

  lemma {:induction false} LockInit(s: Sys)
    requires Init(s)
    ensures LockInv(s)
  {
  }

  /** Every state of every run satisfies the slot, lock and call-record invariant. */
  lemma {:induction false} LockInvariant(tr: seq<Sys>, ls: seq<Label>, i: nat)
    requires Run(tr, ls) && i < |tr|
    ensures LockInv(tr[i])
  {
    hide LockInv, Init, Next;
    if i == 0 {
      LockInit(tr[0]);
    } else {
      LockInvariant(tr, ls, i - 1);
      assert Next(tr[i - 1], ls[i - 1]) == Some(tr[i]);
      LockStep(tr[i - 1], ls[i - 1]);
    }
  }

  // ----- main results -----

  /** A slot is taken iff some call is between register and delete for it, and then by exactly that call. */
  lemma {:induction false} SlotOwnership(tr: seq<Sys>, ls: seq<Label>, i: nat, c: Cell)
    requires Run(tr, ls) && i < |tr|
    ensures c in tr[i].sf <==> exists t :: Is(tr[i], t, c) && Owns(tr[i].threads[t].pc)
    ensures forall t :: Is(tr[i], t, c) && Owns(tr[i].threads[t].pc) ==> c in tr[i].sf && tr[i].sf[c] == t
  {
    LockInvariant(tr, ls, i);
    hide Owns;
  }

  /** Once a call record is closed, its outcome is fixed for the rest of the run. */
  lemma {:induction false} ClosedForever(tr: seq<Sys>, ls: seq<Label>, i: nat, j: nat, o: Tid)
    requires Run(tr, ls) && i <= j < |tr|
    requires o in tr[i].calls && tr[i].calls[o].closed
    ensures o in tr[j].calls && tr[j].calls[o] == tr[i].calls[o]
    decreases j - i
  {
    hide Run;
    if i < j {
      ClosedForever(tr, ls, i, j - 1, o);
      ClosedNext(tr, ls, j - 1, o);
    }
  }

  lemma {:induction false} ClosedNext(tr: seq<Sys>, ls: seq<Label>, j: nat, o: Tid)
    requires Run(tr, ls) && j + 1 < |tr| && o in tr[j].calls && tr[j].calls[o].closed
    ensures o in tr[j + 1].calls && tr[j + 1].calls[o] == tr[j].calls[o]
  {
    LockInvariant(tr, ls, j);
    assert Next(tr[j], ls[j]) == Some(tr[j + 1]) && CallsOk(tr[j]);
    hide Run, Next, LockInv, CallsOk;
    ClosedStep(tr[j], ls[j], o);
  }

  lemma {:induction false} ClosedStep(s: Sys, l: Label, o: Tid)
    requires CallsOk(s) && Next(s, l).Some? && o in s.calls && s.calls[o].closed
    ensures o in Next(s, l).value.calls && Next(s, l).value.calls[o] == s.calls[o]
  {
    match l
    case Tick(_) =>
    case Step(t, a) =>
      Changes(s, t, a, Advance(s, t, a).value);
      assert Lookup(s.calls, t) == Record(s.threads[t].pc);
      hide Advance, After;
  }

  /** Every follower returns exactly the outcome its leader, a call for the same cell, returns. */
  lemma {:induction false} Broadcast(tr: seq<Sys>, ls: seq<Label>, i: nat, j: nat, t: Tid)
    requires Run(tr, ls) && i <= j < |tr|
    requires t in tr[i].threads && tr[i].threads[t].pc.Done? && tr[i].threads[t].pc.via.Followed?
    ensures var Done(out, via) := tr[i].threads[t].pc;
      && Is(tr[j], via.leader, tr[i].threads[t].Slot())
      && tr[j].threads[via.leader].pc in {Release(out), Done(out, Led)}
  {
    LockInvariant(tr, ls, i);
    LockInvariant(tr, ls, j);
    var Done(out, via) := tr[i].threads[t].pc;
    var o := via.leader;
    assert LeaderOk(tr[i], t);
    assert Lookup(tr[i].calls, o) == Record(tr[i].threads[o].pc);
    ClosedForever(tr, ls, i, j, o);
    SameOp(tr, ls, i, j, o);
    ClosedRecord(tr[j], o, out);
  }

  lemma {:induction false} ClosedRecord(s: Sys, o: Tid, out: Outcome)
    requires o in s.threads && Record(s.threads[o].pc) == Some(Call(Some(out), true))
    ensures s.threads[o].pc in {Release(out), Done(out, Led)}
  {
  }

  /** A step of another thread, or of the clock, leaves a thread where it is. */
  lemma {:induction false} OtherThreadStays(s: Sys, l: Label, t: Tid)
    requires Next(s, l).Some? && t in s.threads && !(l.Step? && l.t == t)
    ensures t in Next(s, l).value.threads && Next(s, l).value.threads[t] == s.threads[t]
  {
    hide Advance;
  }

  /** A thread's own step takes it where `Advance` says. */
  lemma {:induction false} OwnStep(s: Sys, l: Label, t: Tid)
    requires Next(s, l).Some? && l.Step? && l.t == t
    ensures t in s.threads && t in Next(s, l).value.threads
    ensures Steps(s, t, l.a, Next(s, l).value.threads[t].pc)
  {
    Changes(s, t, l.a, Advance(s, t, l.a).value);
    hide Advance, After;
  }

  /** A thread never changes its process or its operation. */
  lemma {:induction false} SameOp(tr: seq<Sys>, ls: seq<Label>, i: nat, j: nat, t: Tid)
    requires Run(tr, ls) && i <= j < |tr|
    ensures t in tr[i].threads <==> t in tr[j].threads
    ensures t in tr[i].threads ==>
      tr[j].threads[t].p == tr[i].threads[t].p && tr[j].threads[t].op == tr[i].threads[t].op
    decreases j - i
  {
    if i < j {
      SameOp(tr, ls, i, j - 1, t);
      assert Next(tr[j - 1], ls[j - 1]) == Some(tr[j]);
      hide Advance;
    }
  }
}
