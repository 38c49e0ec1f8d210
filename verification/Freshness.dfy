/**
  What an Invalidate buys, and when reads are monotonic, over whole runs.
 */
module Freshness {
  import opened Prelude
  import opened CacheEntry
  import opened Protocol
  import opened SlotSafety
  import opened ExactlyOnce
  import opened Provenance
  import opened OneAnswer

  // ----- the critical sections that decide a cell's tombstone -----

  predicate ActsOn(s: Sys, l: Label, c: Cell) { l.Step? && Is(s, l.t, c) }

  predicate SetsCell(s: Sys, l: Label, c: Cell) { ActsOn(s, l, c) && s.threads[l.t].pc.SetL1? }

  predicate InvalidatesCell(s: Sys, l: Label, c: Cell) { ActsOn(s, l, c) && s.threads[l.t].pc.InvLock? }

  /** An Invalidate of some other key of the same process sweeps this cell's tombstone away. */
  predicate SweepsCell(s: Sys, l: Label, c: Cell) {
    && l.Step? && l.t in s.threads && s.threads[l.t].pc.InvLock? && s.threads[l.t].Slot() != c
    && c in s.tombs && c.p == s.threads[l.t].p
    && Sweeps(s, c.p, s.threads[l.t].pc.now) && s.tombs[c] < s.threads[l.t].pc.now - s.tombTTL[c.p]
  }

  predicate Touches(s: Sys, l: Label, c: Cell) {
    SetsCell(s, l, c) || InvalidatesCell(s, l, c) || SweepsCell(s, l, c)
  }

  lemma {:induction false} UntouchedTomb(s: Sys, l: Label, c: Cell)
    requires Next(s, l).Some? && !Touches(s, l, c)
    ensures Lookup(Next(s, l).value.tombs, c) == Lookup(s.tombs, c)
  {
    hide Advance;
  }

  /** The lock section of Invalidate leaves its own stamp, sweep or no sweep, and empties L1. */
  lemma {:induction false} InvalidateStamps(s: Sys, l: Label, c: Cell)
    requires Next(s, l).Some? && InvalidatesCell(s, l, c)
    ensures Lookup(Next(s, l).value.tombs, c) == Some(s.threads[l.t].pc.now)
    ensures c !in Next(s, l).value.l1
  {
    hide Advance;
  }

  // ----- what a Get answers -----

  /** In this step a Get of cell c settles on answering v: the call goes on with that value. */
  predicate Answers(s: Sys, l: Label, s': Sys, c: Cell, v: string) {
    && ActsOn(s, l, c) && (s.threads[l.t].pc.GetL1? || s.threads[l.t].pc.GetPromote?)
    && l.t in s'.threads && Carried(s'.threads[l.t].pc) == Some(v)
  }

  /** The entry the two sections of a Get judge fit to be served: L1's, or else the row that was read. */
  function Serves(s: Sys, l: Label): Option<(Cell, Entry)> {
    if !l.Step? || l.t !in s.threads then None
    else
      var c := s.threads[l.t].Slot();
      match s.threads[l.t].pc
      case GetL1(_, now) => if HitsL1(s, c, now) then Some((c, s.l1[c])) else None
      case GetPromote(_, e, now) =>
        if KeepsL1(s, c, e, now) then Some((c, s.l1[c]))
        else if Promotes(s, c, e, now) then Some((c, e))
        else None
      case _ => None
  }

  /** What is judged fit is what the call goes on with, and nothing else is: no other value, and no value without it. */
  lemma {:induction false} JudgementIsAnswered(s: Sys, l: Label)
    requires Next(s, l).Some? && l.Step?
    requires s.threads[l.t].pc.GetL1? || s.threads[l.t].pc.GetPromote?
    ensures var pc, pc' := s.threads[l.t].pc, Next(s, l).value.threads[l.t].pc;
      match Serves(s, l)
      case Some((_, e)) => pc' == AfterGet(pc.g, Value(e.value))
      case None => pc' == if pc.GetL1? then GetL2(pc.g) else AfterGet(pc.g, NoValue)
  {
  }

  /** Whatever a Get answers is what L1 holds once its section is over, and it was judged fit. */
  lemma {:induction false} AnswerIsInL1(s: Sys, l: Label, c: Cell, v: string)
    requires Next(s, l).Some? && Answers(s, l, Next(s, l).value, c, v)
    ensures var s' := Next(s, l).value;
      c in s'.l1 && s'.l1[c].value == v && Serves(s, l) == Some((c, s'.l1[c])) && s'.tombs == s.tombs
  {
    JudgementIsAnswered(s, l);
    AnswerCarries(s.threads[l.t].pc.g);
    ServedIsKept(s, l);
    hide Advance, Carried, AfterGet, Serves;
  }

  lemma {:induction false} AnswerCarries(g: Caller)
    ensures forall v :: Carried(AfterGet(g, Value(v))) == Some(v)
    ensures Carried(AfterGet(g, NoValue)) == None && Carried(GetL2(g)) == None
  {
  }

  lemma {:induction false} ServedIsKept(s: Sys, l: Label)
    requires l.Step? && l.t in s.threads && Serves(s, l).Some?
    ensures var c := s.threads[l.t].Slot();
      Serves(s, l).value.0 == c && Lookup(L1After(s, l.t), c) == Some(Serves(s, l).value.1)
  {
  }

  // ----- an Invalidate during a compute -----

  /** The stamp of the last Invalidate section of the cell among labels lo..hi, if there is one. */
  ghost function LastStamp(tr: seq<Sys>, ls: seq<Label>, c: Cell, lo: nat, hi: nat): Option<Time>
    requires lo <= hi <= |ls| <= |tr|
  {
    if lo == hi then None
    else if InvalidatesCell(tr[hi - 1], ls[hi - 1], c) then Some(tr[hi - 1].threads[ls[hi - 1].t].pc.now)
    else LastStamp(tr, ls, c, lo, hi - 1)
  }

  ghost predicate NoSetNoSweep(tr: seq<Sys>, ls: seq<Label>, c: Cell, lo: nat, hi: nat)
    requires lo <= hi <= |ls| <= |tr|
  {
    forall i | lo <= i < hi :: !SetsCell(tr[i], ls[i], c) && !SweepsCell(tr[i], ls[i], c)
  }

  lemma {:induction false} TombIsLastStamp(tr: seq<Sys>, ls: seq<Label>, c: Cell, lo: nat, hi: nat)
    requires Run(tr, ls) && lo <= hi <= |ls| && NoSetNoSweep(tr, ls, c, lo, hi)
    ensures Lookup(tr[hi].tombs, c) ==
      var w := LastStamp(tr, ls, c, lo, hi); if w.Some? then w else Lookup(tr[lo].tombs, c)
  {
    if lo < hi {
      TombIsLastStamp(tr, ls, c, lo, hi - 1);
      assert Next(tr[hi - 1], ls[hi - 1]) == Some(tr[hi]);
      if InvalidatesCell(tr[hi - 1], ls[hi - 1], c) {
        InvalidateStamps(tr[hi - 1], ls[hi - 1], c);
      } else {
        UntouchedTomb(tr[hi - 1], ls[hi - 1], c);
      }
    }
  }

  lemma {:induction false} LastStampFound(tr: seq<Sys>, ls: seq<Label>, c: Cell, lo: nat, hi: nat, j: nat)
    requires lo <= j < hi <= |ls| <= |tr| && InvalidatesCell(tr[j], ls[j], c)
    ensures exists n ::
      && j <= n < hi && InvalidatesCell(tr[n], ls[n], c)
      && LastStamp(tr, ls, c, lo, hi) == Some(tr[n].threads[ls[n].t].pc.now)
  {
    if !InvalidatesCell(tr[hi - 1], ls[hi - 1], c) {
      LastStampFound(tr, ls, c, lo, hi - 1, j);
    }
  }

  /**
    From an Invalidate's lock section on, as long as the cell is not set or swept and no Invalidate
    with an earlier stamp overtakes it, every value a Get answers is that of an entry stored
    strictly after that Invalidate's stamp, even when the L2 store ignores the delete and
    answers with old rows.
   */
  lemma {:induction false} HitsAfterInvalidateAreNewer(
      tr: seq<Sys>, ls: seq<Label>, c: Cell, j: nat, m: nat, v: string)
    requires Run(tr, ls) && j < m < |ls|
    requires InvalidatesCell(tr[j], ls[j], c) && NoSetNoSweep(tr, ls, c, j, m)
    requires forall n | j < n < m && InvalidatesCell(tr[n], ls[n], c) ::
      tr[j].threads[ls[j].t].pc.now <= tr[n].threads[ls[n].t].pc.now
    requires Answers(tr[m], ls[m], tr[m + 1], c, v)
    ensures c in tr[m + 1].l1 && tr[m + 1].l1[c].value == v
    ensures tr[j].threads[ls[j].t].pc.now < tr[m + 1].l1[c].storedAt
  {
    TombIsLastStamp(tr, ls, c, j, m);
    LastStampFound(tr, ls, c, j, m, j);
    assert Next(tr[m], ls[m]) == Some(tr[m + 1]);
    AnswerIsInL1(tr[m], ls[m], c, v);
    ServedIsServable(tr[m], ls[m], c, tr[m + 1].l1[c]);
    hide Run, Serves, Answers, Next;
  }

  lemma {:induction false} ServedIsServable(s: Sys, l: Label, c: Cell, e: Entry)
    requires Serves(s, l) == Some((c, e))
    ensures c in s.tombs ==> s.tombs[c] < e.storedAt
  {
  }

  /** The stamp an Invalidate section carries. */
  function Stamp(s: Sys, l: Label): Time {
    if l.Step? && l.t in s.threads && s.threads[l.t].pc.InvLock? then s.threads[l.t].pc.now else 0
  }

  /** Among labels lo..hi, label n is the last that sets, invalidates or sweeps the cell. */
  ghost predicate LastTouch(tr: seq<Sys>, ls: seq<Label>, c: Cell, lo: nat, hi: nat, n: nat) {
    && lo <= n < hi <= |ls| <= |tr| && Touches(tr[n], ls[n], c)
    && forall i | n < i < hi :: !Touches(tr[i], ls[i], c)
  }

  lemma {:induction false} LastTouchIsUnique(tr: seq<Sys>, ls: seq<Label>, c: Cell, lo: nat, hi: nat, n: nat, m: nat)
    requires LastTouch(tr, ls, c, lo, hi, n) && LastTouch(tr, ls, c, lo, hi, m)
    ensures n == m
  {
    hide Touches;
  }

  /** Without a Set or sweep the last touch is an Invalidate, and there is one if there is any. */
  lemma {:induction false} LastTouchFrom(
      tr: seq<Sys>, ls: seq<Label>, c: Cell, lo: nat, hi: nat, j: nat) returns (n: nat)
    requires lo <= j < hi <= |ls| <= |tr| && InvalidatesCell(tr[j], ls[j], c) && NoSetNoSweep(tr, ls, c, lo, hi)
    ensures j <= n && LastTouch(tr, ls, c, lo, hi, n) && InvalidatesCell(tr[n], ls[n], c)
  {
    hide SetsCell, InvalidatesCell, SweepsCell;
    n := hi - 1;
    while !InvalidatesCell(tr[n], ls[n], c)
      invariant j <= n < hi
      invariant forall i | n < i < hi :: !InvalidatesCell(tr[i], ls[i], c)
      decreases n
    {
      n := n - 1;
    }
  }

  lemma {:induction false} UntouchedSince(tr: seq<Sys>, ls: seq<Label>, c: Cell, lo: nat, hi: nat)
    requires Run(tr, ls) && lo <= hi <= |ls| && forall n: nat :: !LastTouch(tr, ls, c, lo, hi, n)
    ensures Lookup(tr[hi].tombs, c) == Lookup(tr[lo].tombs, c)
  {
    hide Touches;
    if lo < hi {
      var h := hi - 1;
      assert !LastTouch(tr, ls, c, lo, hi, h);
      forall n: nat
        ensures !LastTouch(tr, ls, c, lo, h, n)
      {
        assert !LastTouch(tr, ls, c, lo, hi, n);
      }
      UntouchedSince(tr, ls, c, lo, h);
      assert Next(tr[hi - 1], ls[hi - 1]) == Some(tr[hi]);
      hide Next;
      UntouchedTomb(tr[hi - 1], ls[hi - 1], c);
    }
  }

  /** The tombstone is what the last touch made of it: an Invalidate's stamp, or nothing. */
  lemma {:induction false} TombIsLastTouch(tr: seq<Sys>, ls: seq<Label>, c: Cell, lo: nat, hi: nat, n: nat)
    requires Run(tr, ls) && LastTouch(tr, ls, c, lo, hi, n)
    ensures Lookup(tr[hi].tombs, c) == if InvalidatesCell(tr[n], ls[n], c) then Some(Stamp(tr[n], ls[n])) else None
    decreases hi
  {
    assert Next(tr[hi - 1], ls[hi - 1]) == Some(tr[hi]);
    if n == hi - 1 {
      if InvalidatesCell(tr[n], ls[n], c) { InvalidateStamps(tr[n], ls[n], c); } else { TouchClears(tr[n], ls[n], c); }
      hide Next;
    } else {
      hide Touches, Next;
      TombIsLastTouch(tr, ls, c, lo, hi - 1, n);
      UntouchedTomb(tr[hi - 1], ls[hi - 1], c);
    }
  }

  lemma {:induction false} TouchClears(s: Sys, l: Label, c: Cell)
    requires Next(s, l).Some? && (SetsCell(s, l, c) || SweepsCell(s, l, c))
    ensures c !in Next(s, l).value.tombs
  {
    hide Advance;
  }

  /**
    Exactly when an Invalidate (label j) still protects its cell at state m: everything the cell
    could serve was stored after it if and only if what last happened to the tombstone is an
    Invalidate, possibly a later one, whose stamp is not earlier. A Set, a sweep of the tombstone
    or a later lock section with an earlier stamp ends the protection.
   */
  lemma {:induction false} ProtectionExact(tr: seq<Sys>, ls: seq<Label>, c: Cell, j: nat, m: nat)
    requires Run(tr, ls) && j < m <= |ls| && InvalidatesCell(tr[j], ls[j], c)
    ensures (forall e, now :: Servable(e, Lookup(tr[m].tombs, c), now) ==> Stamp(tr[j], ls[j]) < e.storedAt) <==>
      exists n: nat ::
        && LastTouch(tr, ls, c, j, m, n) && InvalidatesCell(tr[n], ls[n], c)
        && Stamp(tr[j], ls[j]) <= Stamp(tr[n], ls[n])
  {
    var stamp := Stamp(tr[j], ls[j]);
    var n := LastTouchAfter(tr, ls, c, j, m);
    TombIsLastTouch(tr, ls, c, j, m, n);
    forall n': nat | LastTouch(tr, ls, c, j, m, n')
      ensures n' == n
    {
      LastTouchIsUnique(tr, ls, c, j, m, n, n');
    }
    hide Run, LastTouch, InvalidatesCell, Stamp;
    var oldest := Entry("", stamp, None);
    assert Servable(oldest, Lookup(tr[m].tombs, c), 0) <==>
      !(Lookup(tr[m].tombs, c).Some? && stamp <= Lookup(tr[m].tombs, c).value);
  }

  /** What the cell's answers can come from: its L1 entry, a row of its key, or an entry a call is holding. */
  ghost predicate WithinReach(s: Sys, c: Cell, e: Entry) {
    || Lookup(s.l1, c) == Some(e)
    || (c.k, e) in s.store
    || (exists t :: Is(s, t, c) && Held(s.threads[t].pc) == Some(e))
  }

  /**
    Exactly when something that was stored no later than an Invalidate (label j) may be served
    again at state m. Let label n be what last happened to the tombstone. It takes an entry that
    really is in L1, in the store or in a call's hands, and that is not newer than the Invalidate;
    and n must be a Set or sweep, or an Invalidate with a stamp earlier than that entry.
   */
  lemma {:induction false} OlderIsServableExactly(
      tr: seq<Sys>, ls: seq<Label>, c: Cell, j: nat, m: nat, n: nat)
    requires Run(tr, ls) && j < m <= |ls| && InvalidatesCell(tr[j], ls[j], c) && LastTouch(tr, ls, c, j, m, n)
    ensures
      (exists e, now ::
        WithinReach(tr[m], c, e) && Servable(e, Lookup(tr[m].tombs, c), now) && e.storedAt <= Stamp(tr[j], ls[j])) <==>
      (exists e ::
        && WithinReach(tr[m], c, e) && e.storedAt <= Stamp(tr[j], ls[j])
        && (InvalidatesCell(tr[n], ls[n], c) ==> Stamp(tr[n], ls[n]) < e.storedAt))
  {
    TombIsLastTouch(tr, ls, c, j, m, n);
    hide Run, LastTouch, InvalidatesCell, Stamp, WithinReach;
    forall e
      ensures Servable(e, Lookup(tr[m].tombs, c), Early(e)) <==>
        (InvalidatesCell(tr[n], ls[n], c) ==> Stamp(tr[n], ls[n]) < e.storedAt)
    {
    }
  }

  /** An instant at which the entry is unexpired. */
  function Early(e: Entry): Time { if e.expiresAt.Some? then e.expiresAt.value - 1 else 0 }

  lemma {:induction false} LastTouchAfter(tr: seq<Sys>, ls: seq<Label>, c: Cell, j: nat, m: nat) returns (n: nat)
    requires j < m <= |ls| <= |tr| && Touches(tr[j], ls[j], c)
    ensures LastTouch(tr, ls, c, j, m, n)
  {
    hide Touches;
    n := m - 1;
    while !Touches(tr[n], ls[n], c)
      invariant j <= n < m
      invariant forall i | n < i < m :: !Touches(tr[i], ls[i], c)
      decreases n
    {
      n := n - 1;
    }
  }

  /** The snapshot a compute compares against is the tombstone at its snapshot step. */
  predicate Remembers(pc: PC, mode: Mode, snap: Option<Time>) {
    match pc
    case Compute(m, sn) => m == mode && sn == snap
    case Supersede(m, sn, _, _) => m == mode && sn == snap
    case _ => Past(pc)
  }

  lemma {:induction false} RemembersStep(s: Sys, t: Tid, a: Action, pc': PC, mode: Mode, snap: Option<Time>)
    requires Steps(s, t, a, pc') && Remembers(s.threads[t].pc, mode, snap)
    ensures Remembers(pc', mode, snap)
  {
  }

  lemma {:induction false} SnapshotIsKept(tr: seq<Sys>, ls: seq<Label>, t: Tid, i: nat, k: nat)
    requires Run(tr, ls) && i < k < |tr|
    requires ls[i].Step? && ls[i].t == t && t in tr[i].threads && tr[i].threads[t].pc.Snapshot?
    ensures t in tr[k].threads
    ensures Remembers(tr[k].threads[t].pc, tr[i].threads[t].pc.mode, Lookup(tr[i].tombs, tr[i].threads[t].Slot()))
  {
    var l := ls[k - 1];
    assert Next(tr[k - 1], l) == Some(tr[k]);
    SameOp(tr, ls, i, k, t);
    if k - 1 > i {
      SnapshotIsKept(tr, ls, t, i, k - 1);
      hide Next, Remembers, Run;
      if l.Step? && l.t == t {
        OwnStep(tr[k - 1], l, t);
        RemembersStep(tr[k - 1], t, l.a, tr[k].threads[t].pc,
          tr[i].threads[t].pc.mode, Lookup(tr[i].tombs, tr[i].threads[t].Slot()));
      } else {
        OtherThreadStays(tr[k - 1], l, t);
      }
    } else {
      hide Run;
    }
  }

  /** Label i is t's snapshot and label m its supersede check. */
  ghost predicate ComputeWindow(tr: seq<Sys>, ls: seq<Label>, t: Tid, i: nat, m: nat) {
    && Run(tr, ls) && i < m < |ls|
    && t in tr[i].threads && ls[i] == Step(t, Go) && tr[i].threads[t].pc.Snapshot?
    && t in tr[m].threads && ls[m] == Step(t, Go) && tr[m].threads[t].pc.Supersede?
  }

  predicate WritesBack(pc: PC) { pc.SetClock? && pc.w.WriteBack? }

  /**
    In every run, the write-back is skipped if and only if what last happened to the cell's
    tombstone between the snapshot and the check is an Invalidate, and that one carries a stamp
    later than the snapshotted tombstone. An Invalidate followed by a Set, by a sweep of its
    tombstone or by an Invalidate with a stamp that is not later is not honoured.
   */
  lemma {:induction false} SupersedeExact(tr: seq<Sys>, ls: seq<Label>, t: Tid, i: nat, m: nat)
    requires ComputeWindow(tr, ls, t, i, m)
    ensures var c := tr[i].threads[t].Slot();
      var before := Lookup(tr[i].tombs, c);
      && t in tr[m + 1].threads
      && (!WritesBack(tr[m + 1].threads[t].pc) <==> exists n: nat ::
            && LastTouch(tr, ls, c, i + 1, m, n) && InvalidatesCell(tr[n], ls[n], c)
            && (before.None? || before.value < Stamp(tr[n], ls[n])))
  {
    var c := tr[i].threads[t].Slot();
    SnapshotIsKept(tr, ls, t, i, m);
    SameOp(tr, ls, i, m, t);
    assert Next(tr[i], ls[i]) == Some(tr[i + 1]);
    UntouchedTomb(tr[i], ls[i], c);
    assert Next(tr[m], ls[m]) == Some(tr[m + 1]);
    CheckDecides(tr[m], t);
    hide Next, Remembers, LastTouch, Touches, Run;
    var lo := i + 1;
    if exists n: nat :: LastTouch(tr, ls, c, lo, m, n) {
      var n: nat :| LastTouch(tr, ls, c, lo, m, n);
      TombIsLastTouch(tr, ls, c, lo, m, n);
      forall n': nat | LastTouch(tr, ls, c, lo, m, n')
        ensures n' == n
      {
        LastTouchIsUnique(tr, ls, c, lo, m, n, n');
      }
    } else {
      UntouchedSince(tr, ls, c, lo, m);
    }
  }

  lemma {:induction false} CheckDecides(s: Sys, t: Tid)
    requires t in s.threads && s.threads[t].pc.Supersede? && Next(s, Step(t, Go)).Some?
    ensures var s' := Next(s, Step(t, Go)).value;
      && t in s'.threads
      && (!WritesBack(s'.threads[t].pc) <==> Superseded(s.threads[t].pc.snap, Lookup(s.tombs, s.threads[t].Slot())))
  {
  }

  /** An Invalidate during a compute is honoured when the stamps taken meanwhile are later than the snapshot's. */
  lemma {:induction false} InvalidateHonoured(tr: seq<Sys>, ls: seq<Label>, t: Tid, i: nat, j: nat, m: nat)
    requires ComputeWindow(tr, ls, t, i, m) && i < j < m
    requires NoSetNoSweep(tr, ls, tr[i].threads[t].Slot(), i + 1, m)
    requires InvalidatesCell(tr[j], ls[j], tr[i].threads[t].Slot())
    requires var c := tr[i].threads[t].Slot();
      forall n | i < n < m && InvalidatesCell(tr[n], ls[n], c) ::
        c in tr[i].tombs ==> tr[i].tombs[c] < Stamp(tr[n], ls[n])
    ensures t in tr[m + 1].threads && !WritesBack(tr[m + 1].threads[t].pc)
  {
    var c := tr[i].threads[t].Slot();
    SupersedeExact(tr, ls, t, i, m);
    hide SetsCell, InvalidatesCell, SweepsCell, Run;
    var n := LastTouchFrom(tr, ls, c, i + 1, m, j);
  }

  /** A thread on its way to its write-back's L1 section with value v. */
  predicate CarriesBack(pc: PC, v: string) {
    match pc
    case SetClock(w, u, _) => w.WriteBack? && u == v
    case SetL1(w, e) => w.WriteBack? && e.value == v
    case _ => false
  }

  lemma {:induction false} CarriesBackStep(s: Sys, t: Tid, a: Action, pc': PC, v: string)
    requires Steps(s, t, a, pc') && CarriesBack(s.threads[t].pc, v)
    ensures CarriesBack(pc', v) || s.threads[t].pc.SetL1?
  {
  }

  lemma {:induction false} CarriesBackUntil(tr: seq<Sys>, ls: seq<Label>, t: Tid, v: string, m: nat, n: nat)
    requires Run(tr, ls) && m <= n < |tr|
    requires t in tr[m].threads && CarriesBack(tr[m].threads[t].pc, v)
    requires forall i | m <= i < n && ls[i].Step? && ls[i].t == t :: t in tr[i].threads && !tr[i].threads[t].pc.SetL1?
    ensures t in tr[n].threads && CarriesBack(tr[n].threads[t].pc, v)
    decreases n - m
  {
    if m < n {
      CarriesBackUntil(tr, ls, t, v, m, n - 1);
      assert Next(tr[n - 1], ls[n - 1]) == Some(tr[n]);
      hide Next, CarriesBack, Run;
      if ls[n - 1].Step? && ls[n - 1].t == t {
        OwnStep(tr[n - 1], ls[n - 1], t);
        CarriesBackStep(tr[n - 1], t, ls[n - 1].a, tr[n].threads[t].pc, v);
      } else {
        OtherThreadStays(tr[n - 1], ls[n - 1], t);
      }
    }
  }

  /**
    Once the check is passed nothing stops the write-back. Whatever happens between the check
    (label m) and the write-back's L1 section (label n), the section leaves the computed value
    in L1 and no tombstone, so that a Get serves the value as long as it is unexpired. Every
    Invalidate that takes the lock in between is overwritten.
   */
  lemma {:induction false} LateInvalidateIsOverwritten(tr: seq<Sys>, ls: seq<Label>, t: Tid, m: nat, n: nat)
    requires Run(tr, ls) && m < n < |ls|
    requires t in tr[m].threads && ls[m] == Step(t, Go) && tr[m].threads[t].pc.Supersede?
    requires t in tr[m + 1].threads && WritesBack(tr[m + 1].threads[t].pc)
    requires t in tr[n].threads && ls[n] == Step(t, Go) && tr[n].threads[t].pc.SetL1?
    requires forall i | m < i < n && ls[i].Step? && ls[i].t == t :: t in tr[i].threads && !tr[i].threads[t].pc.SetL1?
    ensures var c, s := tr[m].threads[t].Slot(), tr[n + 1];
      && c !in s.tombs && c in s.l1 && s.l1[c].value == tr[m].threads[t].pc.v
      && forall now :: !Expired(s.l1[c], now) ==> HitsL1(s, c, now)
  {
    assert Next(tr[m], ls[m]) == Some(tr[m + 1]);
    assert CarriesBack(tr[m + 1].threads[t].pc, tr[m].threads[t].pc.v);
    CarriesBackUntil(tr, ls, t, tr[m].threads[t].pc.v, m + 1, n);
    SameOp(tr, ls, m, n, t);
    assert Next(tr[n], ls[n]) == Some(tr[n + 1]);
    SetWrites(tr[n], ls[n], tr[m].threads[t].Slot());
    hide Next, Run;
  }

  // ----- monotonic reads against a stale store -----

  /** Whatever the store answers, promotion replaces a servable L1 entry only by a strictly newer one. */
  lemma {:induction false} PromoteNeverRegresses(s: Sys, t: Tid)
    requires t in s.threads && s.threads[t].pc.GetPromote?
    requires HitsL1(s, s.threads[t].Slot(), s.threads[t].pc.now)
    ensures var c := s.threads[t].Slot();
      && c in L1After(s, t)
      && (L1After(s, t)[c] == s.l1[c] || s.l1[c].storedAt < L1After(s, t)[c].storedAt)
  {
  }

  /** This step does not judge the cell's L1 entry expired on promotion, nor overwrite it by an older one. */
  predicate KeepsUp(s: Sys, l: Label, c: Cell) {
    ActsOn(s, l, c) && c in s.l1 ==>
      var pc := s.threads[l.t].pc;
      && (pc.GetPromote? ==> !Expired(s.l1[c], pc.now))
      && (pc.SetL1? ==> s.l1[c].storedAt <= pc.e.storedAt)
  }

  lemma {:induction false} NewerStep(s: Sys, l: Label, c: Cell)
    requires OnceInv(s, c) && Unexpired(s, c) && KeepsUp(s, l, c) && Next(s, l).Some? && c in s.l1
    ensures c in Next(s, l).value.l1 && s.l1[c].storedAt <= Next(s, l).value.l1[c].storedAt
  {
    hide Advance, Committed, Unwritten;
  }

  /** Label l is the L1 section of a Set or write-back of key k, in any process. */
  predicate SetsKey(s: Sys, l: Label, k: Key) {
    l.Step? && l.t in s.threads && s.threads[l.t].op.k == k && s.threads[l.t].pc.SetL1?
  }

  function SetStamp(s: Sys, l: Label): Time {
    if l.Step? && l.t in s.threads && s.threads[l.t].pc.SetL1? then s.threads[l.t].pc.e.storedAt else 0
  }

  /**
    Sets of key k, in whatever process, take their lock in the order of their clock readings, and
    rows of k that were in the store at the start are not newer than any of them.
   */
  ghost predicate SetsInOrder(tr: seq<Sys>, ls: seq<Label>, k: Key) {
    && |ls| < |tr|
    && (forall i, j | 0 <= i < j < |ls| && SetsKey(tr[i], ls[i], k) && SetsKey(tr[j], ls[j], k) ::
          SetStamp(tr[i], ls[i]) <= SetStamp(tr[j], ls[j]))
    && (forall e, j | (k, e) in tr[0].store && 0 <= j < |ls| && SetsKey(tr[j], ls[j], k) ::
          e.storedAt <= SetStamp(tr[j], ls[j]))
  }

  /** The entry a thread holds on its way from the store to L1, or from L1 to the store. */
  function Held(pc: PC): Option<Entry> {
    match pc
    case GetReclock(_, e) => Some(e)
    case GetPromote(_, e, _) => Some(e)
    case SetL2(_, e) => Some(e)
    case _ => None
  }

  /** Nothing that is or may get into an L1 map for key k is newer than `stamp`, Sets to come aside. */
  ghost predicate NoneNewer(s: Sys, k: Key, stamp: Time) {
    && (forall c | c in s.l1 && c.k == k :: s.l1[c].storedAt <= stamp)
    && (forall e | (k, e) in s.store :: e.storedAt <= stamp)
    && (forall t | t in s.threads && s.threads[t].op.k == k && Held(s.threads[t].pc).Some? ::
          Held(s.threads[t].pc).value.storedAt <= stamp)
  }

  lemma {:induction false} HeldStep(s: Sys, t: Tid, a: Action, pc': PC, k: Key, stamp: Time)
    requires Steps(s, t, a, pc') && s.threads[t].op.k == k && NoneNewer(s, k, stamp)
    requires s.threads[t].pc.SetL1? ==> s.threads[t].pc.e.storedAt <= stamp
    ensures Held(pc').Some? ==> Held(pc').value.storedAt <= stamp
  {
  }

  lemma {:induction false} DataNotNewer(s: Sys, t: Tid, a: Action, k: Key, stamp: Time)
    requires t in s.threads && NoneNewer(s, k, stamp)
    requires s.threads[t].op.k == k && s.threads[t].pc.SetL1? ==> s.threads[t].pc.e.storedAt <= stamp
    ensures forall c | c in L1After(s, t) && c.k == k :: L1After(s, t)[c].storedAt <= stamp
    ensures forall e | (k, e) in StoreAfter(s, t, a) :: e.storedAt <= stamp
  {
    hide Servable;
    assert s.threads[t].op.k == k && Held(s.threads[t].pc).Some? ==> Held(s.threads[t].pc).value.storedAt <= stamp;
  }

  lemma {:induction false} NoneNewerStep(s: Sys, l: Label, k: Key, stamp: Time)
    requires Next(s, l).Some? && NoneNewer(s, k, stamp) && (SetsKey(s, l, k) ==> SetStamp(s, l) <= stamp)
    ensures NoneNewer(Next(s, l).value, k, stamp)
  {
    var s' := Next(s, l).value;
    match l
    case Tick(_) => hide Held;
    case Step(t, a) =>
      var pc' := Advance(s, t, a).value;
      Changes(s, t, a, pc');
      DataChanges(s, t, a, pc');
      hide Advance, After, L1After, StoreAfter, SfAfter, MuAfter, CallsAfter, XLockAfter, TombsAfter, MadeAfter;
      DataNotNewer(s, t, a, k, stamp);
      if s.threads[t].op.k == k { HeldStep(s, t, a, pc', k, stamp); }
      hide Held;
  }

  /** What Sets in order keep: nothing in the system is newer than a Set that has yet to lock. */
  lemma {:induction false} NoneNewerThanSet(tr: seq<Sys>, ls: seq<Label>, k: Key, i: nat, m: nat)
    requires Run(tr, ls) && SetsInOrder(tr, ls, k) && i <= m < |ls| && SetsKey(tr[m], ls[m], k)
    ensures NoneNewer(tr[i], k, SetStamp(tr[m], ls[m]))
  {
    hide SetsKey, SetStamp, Next, NoneNewer;
    if i > 0 {
      NoneNewerThanSet(tr, ls, k, i - 1, m);
      assert Next(tr[i - 1], ls[i - 1]) == Some(tr[i]);
      NoneNewerStep(tr[i - 1], ls[i - 1], k, SetStamp(tr[m], ls[m]));
    } else {
      NoneNewerAtStart(tr[0], k, SetStamp(tr[m], ls[m]));
    }
  }

  lemma {:induction false} NoneNewerAtStart(s: Sys, k: Key, stamp: Time)
    requires Init(s) && forall e | (k, e) in s.store :: e.storedAt <= stamp
    ensures NoneNewer(s, k, stamp)
  {
  }

  lemma {:induction false} RunKeepsUp(tr: seq<Sys>, ls: seq<Label>, c: Cell, n: nat)
    requires Run(tr, ls) && NeverExpires(tr, c) && SetsInOrder(tr, ls, c.k) && n < |ls|
    ensures KeepsUp(tr[n], ls[n], c)
  {
    var s, l := tr[n], ls[n];
    if ActsOn(s, l, c) && c in s.l1 {
      if s.threads[l.t].pc.GetPromote? { NeverJudgedExpired(tr, ls, c, n, l.t); }
      if SetsKey(s, l, c.k) { NoneNewerThanSet(tr, ls, c.k, n, n); }
    }
    hide Run, NeverExpires, SetsInOrder;
  }

  /** When nobody invalidates a cell, its entries outlast the clock and Sets lock in order, L1 only gets newer. */
  lemma {:induction false} L1OnlyGetsNewer(tr: seq<Sys>, ls: seq<Label>, c: Cell, i: nat, j: nat)
    requires Run(tr, ls) && i <= j < |tr| && c in tr[i].l1
    requires NeverInvalidated(tr[0], c) && NeverExpires(tr, c) && SetsInOrder(tr, ls, c.k)
    ensures c in tr[j].l1 && tr[i].l1[c].storedAt <= tr[j].l1[c].storedAt
    decreases j - i
  {
    hide OnceInv, Next, Init, KeepsUp, NeverExpires, NeverInvalidated, SetsInOrder;
    if i < j {
      L1OnlyGetsNewer(tr, ls, c, i, j - 1);
      StateKeepsUp(tr, ls, c, j - 1);
      NewerStep(tr[j - 1], ls[j - 1], c);
    }
  }

  /**
    Reads of a cell are monotonic when nobody invalidates it, its entries outlast the clock, and
    Sets of its key lock in clock order, whatever rows the store answers with: every value a Get
    answers at or after state i is that of an entry at least as new as L1 held there.
   */
  lemma {:induction false} MonotonicReads(tr: seq<Sys>, ls: seq<Label>, c: Cell, i: nat, j: nat, v: string)
    requires Run(tr, ls) && i <= j < |ls| && c in tr[i].l1
    requires NeverInvalidated(tr[0], c) && NeverExpires(tr, c) && SetsInOrder(tr, ls, c.k)
    requires Answers(tr[j], ls[j], tr[j + 1], c, v)
    ensures c in tr[j + 1].l1 && tr[j + 1].l1[c].value == v
    ensures tr[i].l1[c].storedAt <= tr[j + 1].l1[c].storedAt
  {
    L1OnlyGetsNewer(tr, ls, c, i, j + 1);
    assert Next(tr[j], ls[j]) == Some(tr[j + 1]);
    AnswerIsInL1(tr[j], ls[j], c, v);
  }

  lemma {:induction false} StateKeepsUp(tr: seq<Sys>, ls: seq<Label>, c: Cell, n: nat)
    requires Run(tr, ls) && n < |ls|
    requires NeverInvalidated(tr[0], c) && NeverExpires(tr, c) && SetsInOrder(tr, ls, c.k)
    ensures OnceInv(tr[n], c) && Unexpired(tr[n], c) && KeepsUp(tr[n], ls[n], c)
    ensures Next(tr[n], ls[n]) == Some(tr[n + 1])
  {
    hide OnceInv, Next, Init, KeepsUp, NeverExpires, NeverInvalidated, SetsInOrder;
    QuietIfNeverExpired(tr, ls, c);
    OnceInvariant(tr, ls, c, n);
    RunKeepsUp(tr, ls, c, n);
  }

  /** After a Set's L1 section, every later answer for the cell is that of an entry at least as new as that Set. */
  lemma {:induction false} ReadsSeeTheSet(tr: seq<Sys>, ls: seq<Label>, c: Cell, i: nat, j: nat, v: string)
    requires Run(tr, ls) && i < j < |ls|
    requires NeverInvalidated(tr[0], c) && NeverExpires(tr, c) && SetsInOrder(tr, ls, c.k)
    requires SetsCell(tr[i], ls[i], c) && Answers(tr[j], ls[j], tr[j + 1], c, v)
    ensures c in tr[j + 1].l1 && tr[j + 1].l1[c].value == v
    ensures tr[i].threads[ls[i].t].pc.e.storedAt <= tr[j + 1].l1[c].storedAt
  {
    assert Next(tr[i], ls[i]) == Some(tr[i + 1]);
    SetWrites(tr[i], ls[i], c);
    hide Run, Answers, NeverExpires, SetsInOrder;
    MonotonicReads(tr, ls, c, i + 1, j, v);
  }

  lemma {:induction false} SetWrites(s: Sys, l: Label, c: Cell)
    requires Next(s, l).Some? && SetsCell(s, l, c)
    ensures c in Next(s, l).value.l1 && Next(s, l).value.l1[c] == s.threads[l.t].pc.e
    ensures c !in Next(s, l).value.tombs
  {
    hide Advance;
  }
}
