/**
  Where the outcome of every call comes from, over whole runs: a value was answered by a Get
  section or returned by a compute, of this call or of the call it followed, and each kind of
  failure has one place where it can arise.
 */
module Outcomes {
  import opened Prelude
  import opened CacheEntry
  import opened Protocol
  import opened SlotSafety
  import opened Provenance
  import opened Freshness

  /** The outcome a call without a leader is bound to, once its compute has returned or it has something to publish. */
  function Owed(pc: PC): Option<Outcome> {
    match pc
    case Supersede(_, _, v, _) => Some(Value(v))
    case SetClock(w, v, _) => if w.WriteBack? then Some(Value(v)) else None
    case SetL1(w, e) => if w.WriteBack? then Some(Value(e.value)) else None
    case SetL2(w, e) => if w.WriteBack? then Some(Value(e.value)) else None
    case Unlock(out) => Some(out)
    case Publish(out) => Some(out)
    case Close(out) => Some(out)
    case Release(out) => Some(out)
    case Done(out, via) => if via.Led? then Some(out) else None
    case _ => None
  }

  // ----- failures -----

  /** The error the owner of a slot is on its way to returning. */
  function OwnersError(pc: PC): Option<Error> {
    if Owed(pc).Some? then ErrorIn(Owed(pc).value) else None
  }

  function ErrorIn(out: Outcome): Option<Error> {
    if out.Failed? then Some(out.error) else None
  }

  /** In this step t's compute returns the error. */
  predicate ComputeReturns(s: Sys, l: Label, t: Tid, e: Error) {
    && l.Step? && l.t == t && t in s.threads && s.threads[t].pc.Compute?
    && l.a.ComputeFails? && e == ComputeError(l.a.code)
  }

  /** In this step a call without followers fails: an empty key, or an error of its own store call. */
  predicate FailsDirectly(s: Sys, l: Label, t: Tid, e: Error) {
    && l.Step? && l.t == t && t in s.threads
    && var pc := s.threads[t].pc;
       || (pc.Start? && s.threads[t].op.k == "" && e == EmptyKey)
       || (pc.GetL2? && (pc.g.Plain? || pc.g.Fast?) && l.a == StoreReplies(Unreadable) && e == StoreGet)
       || (pc.SetL2? && pc.w.OwnSet? && l.a.StoreWrites? && l.a.failed && e == StoreSet)
       || (pc.InvL2? && l.a.StoreDeletes? && l.a.failed && e == StoreDelete)
  }

  lemma {:induction false} OwnersErrorStep(s: Sys, t: Tid, a: Action, pc': PC)
    requires Steps(s, t, a, pc') && OwnersError(pc').Some?
    ensures OwnersError(s.threads[t].pc) == OwnersError(pc') || ComputeReturns(s, Step(t, a), t, OwnersError(pc').value)
  {
  }

  lemma {:induction false} DirectErrorStep(s: Sys, t: Tid, a: Action, pc': PC)
    requires Steps(s, t, a, pc') && pc'.Done? && pc'.via.Direct? && pc'.out.Failed?
    ensures FailsDirectly(s, Step(t, a), t, pc'.out.error)
  {
  }

  lemma {:induction false} OwnersErrorIsTheComputes(tr: seq<Sys>, ls: seq<Label>, i: nat, t: Tid) returns (j: nat)
    requires Run(tr, ls) && i < |tr| && t in tr[i].threads && OwnersError(tr[i].threads[t].pc).Some?
    ensures j < i && ComputeReturns(tr[j], ls[j], t, OwnersError(tr[i].threads[t].pc).value)
  {
    assert i > 0;
    var s, l := tr[i - 1], ls[i - 1];
    assert Next(s, l) == Some(tr[i]);
    SameOp(tr, ls, i - 1, i, t);
    hide Run, Next, Init, OwnersError, ComputeReturns;
    j := i - 1;
    if l.Step? && l.t == t {
      OwnStep(s, l, t);
      assert l == Step(t, l.a);
      OwnersErrorStep(s, t, l.a, tr[i].threads[t].pc);
      if !ComputeReturns(s, l, t, OwnersError(tr[i].threads[t].pc).value) {
        j := OwnersErrorIsTheComputes(tr, ls, i - 1, t);
      }
    } else {
      OtherThreadStays(s, l, t);
      j := OwnersErrorIsTheComputes(tr, ls, i - 1, t);
    }
  }

  /**
    A call that led and failed returns the error of its own compute, and nothing else: a store that
    fails while the call polls or re-checks, or a write-back that fails, is not its failure.
   */
  lemma {:induction false} LedFailureIsItsComputes(tr: seq<Sys>, ls: seq<Label>, i: nat, t: Tid, e: Error)
    returns (j: nat)
    requires Run(tr, ls) && i < |tr| && t in tr[i].threads && tr[i].threads[t].pc == Done(Failed(e), Led)
    ensures j < i && ComputeReturns(tr[j], ls[j], t, e)
  {
    j := OwnersErrorIsTheComputes(tr, ls, i, t);
  }

  /** A follower that failed returns the error of its leader's compute. */
  lemma {:induction false} FollowedFailureIsTheLeadersComputes(
      tr: seq<Sys>, ls: seq<Label>, i: nat, t: Tid, o: Tid, e: Error) returns (j: nat)
    requires Run(tr, ls) && i < |tr| && t in tr[i].threads && tr[i].threads[t].pc == Done(Failed(e), Followed(o))
    ensures o in tr[i].threads && tr[i].threads[o].Slot() == tr[i].threads[t].Slot()
    ensures j < i && ComputeReturns(tr[j], ls[j], o, e)
  {
    Broadcast(tr, ls, i, i, t);
    hide Run;
    j := OwnersErrorIsTheComputes(tr, ls, i, o);
  }

  /** Any other call that failed did so over an empty key or an error of its own store call. */
  lemma {:induction false} DirectFailureIsItsOwn(tr: seq<Sys>, ls: seq<Label>, i: nat, t: Tid, e: Error)
    returns (j: nat)
    requires Run(tr, ls) && i < |tr| && t in tr[i].threads && tr[i].threads[t].pc == Done(Failed(e), Direct)
    ensures j < i && FailsDirectly(tr[j], ls[j], t, e)
  {
    assert i > 0;
    var s, l := tr[i - 1], ls[i - 1];
    assert Next(s, l) == Some(tr[i]);
    SameOp(tr, ls, i - 1, i, t);
    hide Run, Next, Init, FailsDirectly;
    j := i - 1;
    if l.Step? && l.t == t {
      OwnStep(s, l, t);
      assert l == Step(t, l.a);
      DirectErrorStep(s, t, l.a, tr[i].threads[t].pc);
    } else {
      OtherThreadStays(s, l, t);
      j := DirectFailureIsItsOwn(tr, ls, i - 1, t, e);
    }
  }

  /** A store that fails while a call re-checks or polls only sends it on: to register, or to the next poll. */
  lemma {:induction false} FailedLookIsNoFailure(s: Sys, t: Tid, s': Sys)
    requires t in s.threads && s.threads[t].pc.GetL2? && Next(s, Step(t, StoreReplies(Unreadable))) == Some(s')
    ensures match s.threads[t].pc.g
      case Recheck => s'.threads[t].pc == Register
      case Poll(left) => s'.threads[t].pc == PollPause(left)
      case _ => s'.threads[t].pc == Done(Failed(StoreGet), Direct)
  {
  }

  // ----- values -----

  /** The value a call is bound to return, unless it followed another. */
  function Bound(pc: PC): Option<string> {
    match pc
    case DropMu(v) => Some(v)
    case Done(out, via) => if via.Followed? then None else BoundBy(out)
    case _ => if Owed(pc).Some? then BoundBy(Owed(pc).value) else None
  }

  function BoundBy(out: Outcome): Option<string> {
    if out.Value? then Some(out.v) else None
  }

  /** In this step call t settles on v: a Get section of its cell answers v, or its compute returns v. */
  predicate Settles(s: Sys, l: Label, s': Sys, t: Tid, v: string) {
    && l.Step? && l.t == t && t in s.threads
    && (Answers(s, l, s', s.threads[t].Slot(), v) || (s.threads[t].pc.Compute? && l.a.Computes? && l.a.v == v))
  }

  /** The step decides what value is bound, or leaves it as it was. */
  lemma {:induction false} BoundStep(s: Sys, t: Tid, a: Action, pc': PC)
    requires Steps(s, t, a, pc') && Bound(pc').Some?
    ensures
      || Bound(s.threads[t].pc) == Bound(pc')
      || s.threads[t].pc.GetL1? || s.threads[t].pc.GetPromote?
      || (s.threads[t].pc.Compute? && a.Computes? && Bound(pc') == Some(a.v))
  {
  }

  lemma {:induction false} BoundIsCarried(pc: PC)
    requires Bound(pc).Some?
    ensures Carried(pc) == Bound(pc)
  {
  }

  lemma {:induction false} BoundIsSettled(tr: seq<Sys>, ls: seq<Label>, i: nat, t: Tid, v: string) returns (j: nat)
    requires Run(tr, ls) && i < |tr| && t in tr[i].threads && Bound(tr[i].threads[t].pc) == Some(v)
    ensures j < i && Settles(tr[j], ls[j], tr[j + 1], t, v)
  {
    assert i > 0;
    var s, l := tr[i - 1], ls[i - 1];
    assert Next(s, l) == Some(tr[i]);
    SameOp(tr, ls, i - 1, i, t);
    hide Run, Next, Init, Bound;
    j := i - 1;
    if l.Step? && l.t == t {
      OwnStep(s, l, t);
      BoundStep(s, t, l.a, tr[i].threads[t].pc);
      BoundIsCarried(tr[i].threads[t].pc);
      hide Carried;
      if !Settles(s, l, tr[i], t, v) { j := BoundIsSettled(tr, ls, i - 1, t, v); }
    } else {
      OtherThreadStays(s, l, t);
      j := BoundIsSettled(tr, ls, i - 1, t, v);
    }
  }

  /**
    Every value a call returns was settled on before it returned: by one of its own Get sections, or
    by its own compute; for a follower, by its leader's.
   */
  lemma {:induction false} ReturnedValueIsSettled(
      tr: seq<Sys>, ls: seq<Label>, i: nat, t: Tid, v: string) returns (u: Tid, j: nat)
    requires Run(tr, ls) && i < |tr|
    requires t in tr[i].threads && tr[i].threads[t].pc.Done? && tr[i].threads[t].pc.out == Value(v)
    ensures u == if tr[i].threads[t].pc.via.Followed? then tr[i].threads[t].pc.via.leader else t
    ensures j < i && Settles(tr[j], ls[j], tr[j + 1], u, v)
  {
    u := t;
    if tr[i].threads[t].pc.via.Followed? {
      u := tr[i].threads[t].pc.via.leader;
      Broadcast(tr, ls, i, i, t);
    }
    hide Run;
    j := BoundIsSettled(tr, ls, i, u, v);
  }

  // ----- a compute's outcome is the call's -----

  lemma {:induction false} OwedStep(s: Sys, t: Tid, a: Action, pc': PC)
    requires Steps(s, t, a, pc')
    ensures Owed(s.threads[t].pc).Some? ==> Owed(pc') == Owed(s.threads[t].pc)
    ensures Owed(s.threads[t].pc).None? && Owed(pc').Some? ==> Owed(pc') != Some(NoValue)
    ensures s.threads[t].pc.Compute? && a.Computes? ==> Owed(pc') == Some(Value(a.v))
    ensures s.threads[t].pc.Compute? && a.ComputeFails? ==> Owed(pc') == Some(Failed(ComputeError(a.code)))
  {
  }

  /** In this step t's compute returns, and the call is to return `out`. */
  predicate ComputeEnds(s: Sys, l: Label, t: Tid, out: Outcome) {
    && l.Step? && l.t == t && t in s.threads && s.threads[t].pc.Compute?
    && ((l.a.Computes? && out == Value(l.a.v)) || (l.a.ComputeFails? && out == Failed(ComputeError(l.a.code))))
  }

  lemma {:induction false} OwedNext(s: Sys, l: Label, t: Tid, out: Outcome)
    requires Next(s, l).Some? && t in s.threads
    requires Owed(s.threads[t].pc) == Some(out) || ComputeEnds(s, l, t, out)
    ensures t in Next(s, l).value.threads && Owed(Next(s, l).value.threads[t].pc) == Some(out)
  {
    hide Next, Owed;
    if l.Step? && l.t == t {
      OwnStep(s, l, t);
      OwedStep(s, t, l.a, Next(s, l).value.threads[t].pc);
    } else {
      OtherThreadStays(s, l, t);
    }
  }

  lemma {:induction false} OwedStays(tr: seq<Sys>, ls: seq<Label>, j: nat, i: nat, t: Tid, out: Outcome)
    requires Run(tr, ls) && j < i < |tr| && ComputeEnds(tr[j], ls[j], t, out)
    ensures t in tr[i].threads && Owed(tr[i].threads[t].pc) == Some(out)
  {
    if j < i - 1 { OwedStays(tr, ls, j, i - 1, t, out); }
    assert Next(tr[i - 1], ls[i - 1]) == Some(tr[i]);
    hide Run, Next, Init, Owed;
    OwedNext(tr[i - 1], ls[i - 1], t, out);
  }

  /**
    A call that computed returns what its compute returned, value or error: whether or not the
    write-back was superseded, its store write failed, or the lock was held.
   */
  lemma {:induction false} ComputedIsReturned(
      tr: seq<Sys>, ls: seq<Label>, j: nat, i: nat, t: Tid, out: Outcome)
    requires Run(tr, ls) && j < i < |tr| && ComputeEnds(tr[j], ls[j], t, out)
    ensures t in tr[i].threads && (tr[i].threads[t].pc.Done? ==> tr[i].threads[t].pc == Done(out, Led))
  {
    OwedStays(tr, ls, j, i, t, out);
    hide Run;
  }

  // ----- a GetOrCompute never comes back empty-handed -----

  /** Where only a plain Get, a Set or an Invalidate can be. */
  predicate NotComputing(pc: PC) {
    match pc
    case SetClock(w, _, _) => w.OwnSet?
    case SetL1(w, _) => w.OwnSet?
    case SetL2(w, _) => w.OwnSet?
    case Done(out, via) => via.Direct? && out.NoValue?
    case _ => InGet(pc, Plain) || pc.InvClock? || pc.InvLock? || pc.InvL2?
  }

  predicate HasAnswer(th: Thread) {
    Owed(th.pc) != Some(NoValue) && (th.op.GetOrCompute? ==> !NotComputing(th.pc))
  }

  lemma {:induction false} NotComputingStep(s: Sys, t: Tid, a: Action, pc': PC)
    requires Steps(s, t, a, pc') && s.threads[t].op.GetOrCompute? && !NotComputing(s.threads[t].pc)
    ensures !NotComputing(pc')
  {
  }

  lemma {:induction false} HasAnswerAlways(tr: seq<Sys>, ls: seq<Label>, i: nat, t: Tid)
    requires Run(tr, ls) && i < |tr| && t in tr[i].threads
    ensures HasAnswer(tr[i].threads[t])
  {
    if i > 0 {
      var s, l := tr[i - 1], ls[i - 1];
      assert Next(s, l) == Some(tr[i]);
      SameOp(tr, ls, i - 1, i, t);
      HasAnswerAlways(tr, ls, i - 1, t);
      hide Run, Next, Init, Owed, NotComputing;
      if l.Step? && l.t == t {
        OwnStep(s, l, t);
        OwedStep(s, t, l.a, tr[i].threads[t].pc);
        if s.threads[t].op.GetOrCompute? { NotComputingStep(s, t, l.a, tr[i].threads[t].pc); }
      } else {
        OtherThreadStays(s, l, t);
      }
    }
  }

  /** Every GetOrCompute that comes back brings a value or an error, whoever computed it. */
  lemma {:induction false} NeverEmptyHanded(tr: seq<Sys>, ls: seq<Label>, i: nat, t: Tid)
    requires Run(tr, ls) && i < |tr| && t in tr[i].threads
    requires tr[i].threads[t].op.GetOrCompute? && tr[i].threads[t].pc.Done?
    ensures !tr[i].threads[t].pc.out.NoValue?
  {
    HasAnswerAlways(tr, ls, i, t);
    if tr[i].threads[t].pc.via.Followed? {
      Broadcast(tr, ls, i, i, t);
      HasAnswerAlways(tr, ls, i, tr[i].threads[t].pc.via.leader);
    }
    hide Run;
  }

  // ----- what is written -----

  /** Entry e was written at instant `at`, lives for ttl if that is positive and for ever if not, and holds v. */
  predicate WrittenAt(e: Entry, v: string, ttl: int, at: Time) {
    e.value == v && e.storedAt == at && e.expiresAt == if ttl > 0 then Some(at + ttl) else None
  }

  /** The value and ttl a thread is about to stamp: a compute's, or a Set's own. */
  function ToStamp(pc: PC): Option<(string, int)> {
    match pc
    case Supersede(_, _, v, ttl) => Some((v, ttl))
    case SetClock(_, v, ttl) => Some((v, ttl))
    case _ => None
  }

  /** Label l gives t what it is to stamp: its compute returns it, or its Set begins with it. */
  predicate Gives(s: Sys, l: Label, t: Tid, v: string, ttl: int) {
    && l.Step? && l.t == t && t in s.threads
    && ((s.threads[t].pc.Compute? && l.a == Computes(v, ttl))
        || (s.threads[t].pc.Start? && s.threads[t].op == Set(s.threads[t].op.k, v, ttl)))
  }

  lemma {:induction false} ToStampStep(s: Sys, t: Tid, a: Action, pc': PC)
    requires Steps(s, t, a, pc') && ToStamp(pc').Some?
    ensures
      || ToStamp(s.threads[t].pc) == ToStamp(pc')
      || Gives(s, Step(t, a), t, ToStamp(pc').value.0, ToStamp(pc').value.1)
  {
  }

  lemma {:induction false} StampStep(s: Sys, t: Tid, a: Action, pc': PC)
    requires Steps(s, t, a, pc') && pc'.SetL1?
    ensures ToStamp(s.threads[t].pc).Some?
    ensures var (v, ttl) := ToStamp(s.threads[t].pc).value; WrittenAt(pc'.e, v, ttl, s.clock)
  {
  }

  lemma {:induction false} ToStampWasGiven(tr: seq<Sys>, ls: seq<Label>, i: nat, t: Tid) returns (j: nat)
    requires Run(tr, ls) && i < |tr| && t in tr[i].threads && ToStamp(tr[i].threads[t].pc).Some?
    ensures var (v, ttl) := ToStamp(tr[i].threads[t].pc).value; j < i && Gives(tr[j], ls[j], t, v, ttl)
  {
    assert i > 0;
    var s, l := tr[i - 1], ls[i - 1];
    assert Next(s, l) == Some(tr[i]);
    SameOp(tr, ls, i - 1, i, t);
    hide Run, Next, Init, ToStamp, Gives;
    var pc' := tr[i].threads[t].pc;
    j := i - 1;
    if l.Step? && l.t == t {
      OwnStep(s, l, t);
      assert l == Step(t, l.a);
      ToStampStep(s, t, l.a, pc');
      if !Gives(s, l, t, ToStamp(pc').value.0, ToStamp(pc').value.1) { j := ToStampWasGiven(tr, ls, i - 1, t); }
    } else {
      OtherThreadStays(s, l, t);
      j := ToStampWasGiven(tr, ls, i - 1, t);
    }
  }

  /**
    Whatever a Set or a write-back puts into L1, in whatever mode its compute was guarded, is the
    value and the ttl that its Set was called with or its compute returned, stamped with a
    clock value of the run.
   */
  lemma {:induction false} EntriesAreStamped(tr: seq<Sys>, ls: seq<Label>, i: nat, t: Tid)
      returns (j: nat, n: nat, v: string, ttl: int)
    requires Run(tr, ls) && i < |tr| && t in tr[i].threads && tr[i].threads[t].pc.SetL1?
    ensures j < n < i && Gives(tr[j], ls[j], t, v, ttl) && WrittenAt(tr[i].threads[t].pc.e, v, ttl, tr[n].clock)
  {
    assert i > 0;
    var s, l := tr[i - 1], ls[i - 1];
    assert Next(s, l) == Some(tr[i]);
    SameOp(tr, ls, i - 1, i, t);
    hide Run, Next, Init, ToStamp, Gives, WrittenAt;
    if l.Step? && l.t == t {
      OwnStep(s, l, t);
      StampStep(s, t, l.a, tr[i].threads[t].pc);
      n := i - 1;
      v, ttl := ToStamp(s.threads[t].pc).value.0, ToStamp(s.threads[t].pc).value.1;
      j := ToStampWasGiven(tr, ls, n, t);
    } else {
      OtherThreadStays(s, l, t);
      j, n, v, ttl := EntriesAreStamped(tr, ls, i - 1, t);
    }
  }

  // ----- what time it is -----

  /** The instant a critical section works with: to judge entries at, to stamp with. */
  function Instant(pc: PC): Option<Time> {
    match pc
    case GetL1(_, now) => Some(now)
    case GetPromote(_, _, now) => Some(now)
    case InvLock(now) => Some(now)
    case SetL1(_, e) => Some(e.storedAt)
    case _ => None
  }

  lemma {:induction false} InstantStep(s: Sys, t: Tid, a: Action, pc': PC)
    requires Steps(s, t, a, pc') && Instant(pc').Some?
    ensures a == Go && Instant(pc') == Some(s.clock)
  {
  }

  /**
    Every critical section of a Get, whoever makes it, of a Set, of a write-back and of an
    Invalidate works with the clock as its call read it in its own step just before, once per section.
   */
  lemma {:induction false} InstantsAreRead(tr: seq<Sys>, ls: seq<Label>, i: nat, t: Tid) returns (j: nat)
    requires Run(tr, ls) && i < |tr| && t in tr[i].threads && Instant(tr[i].threads[t].pc).Some?
    ensures j < i && ls[j] == Step(t, Go) && Instant(tr[i].threads[t].pc) == Some(tr[j].clock)
    ensures forall m | j < m <= i :: t in tr[m].threads && tr[m].threads[t] == tr[i].threads[t]
  {
    assert i > 0;
    var s, l := tr[i - 1], ls[i - 1];
    assert Next(s, l) == Some(tr[i]);
    SameOp(tr, ls, i - 1, i, t);
    hide Run, Next, Init, Instant;
    j := i - 1;
    if l.Step? && l.t == t {
      OwnStep(s, l, t);
      assert l == Step(t, l.a);
      InstantStep(s, t, l.a, tr[i].threads[t].pc);
    } else {
      OtherThreadStays(s, l, t);
      j := InstantsAreRead(tr, ls, i - 1, t);
    }
  }

  /** A write the store keeps is a row that later reads of the key may return; nothing else changes the rows. */
  lemma {:induction false} KeptWritesAreRows(s: Sys, l: Label)
    requires Next(s, l).Some?
    ensures var s' := Next(s, l).value;
      if l.Step? && s.threads[l.t].pc.SetL2? && l.a.StoreWrites? && l.a.kept
      then s'.store == s.store + {(s.threads[l.t].op.k, Reread(s.threads[l.t].pc.e))}
      else s'.store == s.store
  {
    hide Advance;
  }

  // ----- what L1 and the store hold -----

  /** The row a Get has read and not yet judged. */
  function InHand(pc: PC): Option<Entry> {
    match pc
    case GetReclock(_, e) => Some(e)
    case GetPromote(_, e, _) => Some(e)
    case _ => None
  }

  lemma {:induction false} InHandStep(s: Sys, t: Tid, a: Action, pc': PC)
    requires Steps(s, t, a, pc') && InHand(pc').Some?
    ensures InHand(s.threads[t].pc) == InHand(pc') || (s.threads[t].op.k, InHand(pc').value) in s.store
  {
  }

  lemma {:induction false} RowsStay(s: Sys, l: Label)
    requires Next(s, l).Some?
    ensures s.store <= Next(s, l).value.store
  {
    KeptWritesAreRows(s, l);
    hide Next;
  }

  /** What a Get judges is a row of its key, unchanged. */
  lemma {:induction false} InHandIsARow(tr: seq<Sys>, ls: seq<Label>, i: nat, t: Tid)
    requires Run(tr, ls) && i < |tr| && t in tr[i].threads && InHand(tr[i].threads[t].pc).Some?
    ensures (tr[i].threads[t].op.k, InHand(tr[i].threads[t].pc).value) in tr[i].store
  {
    assert i > 0;
    var s, l := tr[i - 1], ls[i - 1];
    assert Next(s, l) == Some(tr[i]);
    SameOp(tr, ls, i - 1, i, t);
    RowsStay(s, l);
    hide Next, Init, InHand;
    if l.Step? && l.t == t {
      OwnStep(s, l, t);
      InHandStep(s, t, l.a, tr[i].threads[t].pc);
      if InHand(s.threads[t].pc) == InHand(tr[i].threads[t].pc) { InHandIsARow(tr, ls, i - 1, t); }
    } else {
      OtherThreadStays(s, l, t);
      InHandIsARow(tr, ls, i - 1, t);
    }
  }

  /** In this step e is put into L1 for c: by the L1 section of a write, or by a Get that holds it. */
  predicate Puts(s: Sys, l: Label, c: Cell, e: Entry) {
    && l.Step? && Is(s, l.t, c)
    && var pc := s.threads[l.t].pc; (pc.SetL1? && pc.e == e) || InHand(pc) == Some(e)
  }

  lemma {:induction false} PutStep(s: Sys, l: Label, c: Cell)
    requires Next(s, l).Some? && c in Next(s, l).value.l1
    ensures Lookup(s.l1, c) == Some(Next(s, l).value.l1[c]) || Puts(s, l, c, Next(s, l).value.l1[c])
  {
    hide Advance, HitsL1, Promotes;
  }

  /**
    Every entry in L1 is, down to its stamp and its expiry, one that the L1 section of a write on the
    same cell put there, or a row of its key that the store held: no read ever alters what it passes on.
   */
  lemma {:induction false} CachedEntriesAreWritten(tr: seq<Sys>, ls: seq<Label>, i: nat, c: Cell)
      returns (j: nat, t: Tid)
    requires Run(tr, ls) && i < |tr| && c in tr[i].l1
    ensures j < i && Is(tr[j], t, c)
    ensures var pc, e := tr[j].threads[t].pc, tr[i].l1[c]; (pc.SetL1? && pc.e == e) || (c.k, e) in tr[j].store
  {
    assert i > 0;
    var s, l := tr[i - 1], ls[i - 1];
    assert Next(s, l) == Some(tr[i]);
    hide Next, Init, InHand;
    PutStep(s, l, c);
    if Puts(s, l, c, tr[i].l1[c]) {
      j, t := i - 1, l.t;
      if InHand(s.threads[t].pc).Some? { InHandIsARow(tr, ls, i - 1, t); }
    } else {
      j, t := CachedEntriesAreWritten(tr, ls, i - 1, c);
    }
  }

  /** Every row that was not there from the start is what a re-read makes of an entry that a write put into L1. */
  lemma {:induction false} RowsAreWritten(tr: seq<Sys>, ls: seq<Label>, i: nat, k: Key, e: Entry)
      returns (j: nat, t: Tid)
    requires Run(tr, ls) && i < |tr| && (k, e) in tr[i].store && (k, e) !in tr[0].store
    ensures j < i && t in tr[j].threads && tr[j].threads[t].op.k == k
    ensures tr[j].threads[t].pc.SetL1? && e == Reread(tr[j].threads[t].pc.e)
  {
    var s, l := tr[i - 1], ls[i - 1];
    assert Next(s, l) == Some(tr[i]);
    KeptWritesAreRows(s, l);
    hide Next, Init, Reread;
    if (k, e) in s.store {
      j, t := RowsAreWritten(tr, ls, i - 1, k, e);
    } else {
      t := l.t;
      j := StoredIsCached(tr, ls, i - 1, t);
      SameOp(tr, ls, j, i - 1, t);
    }
  }

  lemma {:induction false} StoredStep(s: Sys, t: Tid, a: Action, pc': PC)
    requires Steps(s, t, a, pc') && pc'.SetL2?
    ensures s.threads[t].pc.SetL1? && s.threads[t].pc.e == pc'.e
  {
  }

  lemma {:induction false} StoredIsCached(tr: seq<Sys>, ls: seq<Label>, i: nat, t: Tid) returns (j: nat)
    requires Run(tr, ls) && i < |tr| && t in tr[i].threads && tr[i].threads[t].pc.SetL2?
    ensures j < i && t in tr[j].threads && tr[j].threads[t].pc.SetL1?
    ensures tr[j].threads[t].pc.e == tr[i].threads[t].pc.e
  {
    assert i > 0;
    var s, l := tr[i - 1], ls[i - 1];
    assert Next(s, l) == Some(tr[i]);
    SameOp(tr, ls, i - 1, i, t);
    hide Run, Next, Init;
    if l.Step? && l.t == t {
      OwnStep(s, l, t);
      StoredStep(s, t, l.a, tr[i].threads[t].pc);
      j := i - 1;
    } else {
      OtherThreadStays(s, l, t);
      j := StoredIsCached(tr, ls, i - 1, t);
    }
  }
}
