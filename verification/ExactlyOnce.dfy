/**
  The stampede guard: while a cell is not invalidated and its L1 entry does not expire, at
  most one compute for it ever returns success, whatever the interleaving and whatever the
  L2 store answers. The step that carries the argument is the re-check of L1 under sfMu:
  a winner writes L1 before it gives up its slot.
 */
module ExactlyOnce {
  import opened Prelude
  import opened CacheEntry
  import opened Protocol
  import opened SlotSafety

  /** Past the re-check of L1, and compute has not returned success. */
  predicate Committed(pc: PC) {
    match pc
    case GetL2(g) => g.Recheck? || g.Poll?
    case GetReclock(g, _) => g.Recheck? || g.Poll?
    case GetPromote(g, _, _) => g.Recheck? || g.Poll?
    case GetClock(g) => g.Poll?
    case GetL1(g, _) => g.Poll?
    case _ => pc.Register? || pc.TryLock? || pc.PollPause? || pc.Snapshot? || pc.Compute?
  }

  /** Compute has returned success and its value is not in L1 yet. */
  predicate Unwritten(pc: PC) {
    pc.Supersede? || (pc.SetClock? && pc.w.WriteBack?) || (pc.SetL1? && pc.w.WriteBack?)
  }

  ghost predicate NeverInvalidated(s: Sys, c: Cell) {
    forall t | Is(s, t, c) :: !s.threads[t].op.Invalidate?
  }

  /** No Get of the cell is about to judge its L1 entry at an instant at or past the entry's expiry. */
  ghost predicate Unexpired(s: Sys, c: Cell) {
    forall t | Is(s, t, c) && s.threads[t].pc.GetL1? && c in s.l1 :: !Expired(s.l1[c], s.threads[t].pc.now)
  }

  ghost predicate OnceInv(s: Sys, c: Cell) {
    && c !in s.tombs
    && (forall t | Is(s, t, c) ::
          !s.threads[t].op.Invalidate? && !s.threads[t].pc.InvClock? && !s.threads[t].pc.InvLock?)
    && (forall t | Is(s, t, c) && t in s.wins :: Unwritten(s.threads[t].pc) || c in s.l1)
    && (forall t, u | Is(s, t, c) && Is(s, u, c) && t in s.wins :: !Committed(s.threads[u].pc))
    && (forall t, u | Is(s, t, c) && Is(s, u, c) && t in s.wins && u in s.wins :: t == u)
  }

  // ----- roles -----

  lemma {:induction false} CommittedRole(s: Sys, t: Tid, a: Action, pc': PC)
    requires Steps(s, t, a, pc') && Committed(pc') && !Committed(s.threads[t].pc)
    ensures s.threads[t].pc.GetL1? && s.threads[t].pc.g.Recheck?
    ensures !HitsL1(s, s.threads[t].Slot(), s.threads[t].pc.now)
  {
  }

  lemma {:induction false} UnwrittenRole(s: Sys, t: Tid, a: Action, pc': PC)
    requires Steps(s, t, a, pc') && Unwritten(s.threads[t].pc) && s.threads[t].Slot() !in s.tombs
    ensures Unwritten(pc') || s.threads[t].pc.SetL1?
  {
  }

  lemma {:induction false} InvRole(s: Sys, t: Tid, a: Action, pc': PC)
    requires Steps(s, t, a, pc') && (pc'.InvClock? || pc'.InvLock?)
    ensures s.threads[t].op.Invalidate? || s.threads[t].pc.InvClock?
  {
  }

  lemma {:induction false} WinRole(s: Sys, t: Tid, a: Action, pc': PC)
    requires Steps(s, t, a, pc') && t in WinsAfter(s, t, a) && t !in s.wins
    ensures s.threads[t].pc.Compute? && pc'.Supersede?
    ensures WinsAfter(s, t, a) == s.wins + {t}
  {
  }

  /** While the cell is quiet, its tombstone never appears and its L1 entry never disappears. */
  lemma {:induction false} DataStays(s: Sys, t: Tid, a: Action, c: Cell)
    requires t in s.threads && c !in s.tombs
    requires Is(s, t, c) ==> !s.threads[t].pc.InvLock?
    requires Is(s, t, c) && s.threads[t].pc.GetL1? && c in s.l1 ==> !Expired(s.l1[c], s.threads[t].pc.now)
    ensures c !in TombsAfter(s, t)
    ensures c in s.l1 ==> c in L1After(s, t)
    ensures Is(s, t, c) && s.threads[t].pc.SetL1? ==> c in L1After(s, t)
  {
  }

  /** An owner before its write-back and a thread past the re-check cannot share a cell. */
  lemma {:induction false} OwnerExcludes(s: Sys, t: Tid, u: Tid, c: Cell)
    requires LockInv(s) && Is(s, t, c) && Is(s, u, c) && t != u
    requires Owns(s.threads[t].pc)
    ensures !Committed(s.threads[u].pc) && !HoldsMu(s.threads[u].pc)
  {
    CommittedOwns(s.threads[u].pc);
    hide Owns, HoldsMu, Committed;
  }

  lemma {:induction false} CommittedOwns(pc: PC)
    ensures Committed(pc) ==> Owns(pc) || HoldsMu(pc)
    ensures Unwritten(pc) || pc.Compute? ==> Owns(pc)
    ensures pc.GetL1? && pc.g.Recheck? ==> HoldsMu(pc)
  {
  }

  // ----- preservation -----

  predicate Wrote(s: Sys, s': Sys, t: Tid, a: Action)
    requires t in s.threads
  {
    s'.l1 == L1After(s, t) && s'.tombs == TombsAfter(s, t) && s'.wins == WinsAfter(s, t, a)
  }

  lemma {:induction false} DataChanges(s: Sys, t: Tid, a: Action, pc': PC)
    requires Steps(s, t, a, pc')
    ensures Wrote(s, After(s, t, a), t, a)
    ensures After(s, t, a).store == StoreAfter(s, t, a) && After(s, t, a).made == MadeAfter(s, t, a)
  {
    hide Advance;
  }

  /** No win of the cell may coexist with a thread that is past the re-check. */
  lemma {:induction false} WinnerAndCommitted(s: Sys, s': Sys, t: Tid, a: Action, pc': PC, c: Cell, w: Tid, u: Tid)
    requires LockInv(s) && OnceInv(s, c) && Unexpired(s, c) && Steps(s, t, a, pc')
    requires Moves(s, s', t, pc') && Wrote(s, s', t, a)
    requires Is(s', w, c) && Is(s', u, c) && w in s'.wins
    ensures !Committed(s'.threads[u].pc)
  {
    hide Advance, LockInv, Owns, HoldsMu, L1After, TombsAfter;
    if w !in s.wins {
      assert w == t;
      WinRole(s, t, a, pc');
      CommittedOwns(s.threads[t].pc);
      if u != t { OwnerExcludes(s, t, u, c); }
    } else if u == t && !Committed(s.threads[t].pc) && Committed(pc') {
      CommittedRole(s, t, a, pc');
      CommittedOwns(s.threads[w].pc);
      CommittedOwns(s.threads[t].pc);
      if Unwritten(s.threads[w].pc) { OwnerExcludes(s, w, t, c); }
    }
  }

  lemma {:induction false} StaysUntombed(s: Sys, s': Sys, t: Tid, a: Action, pc': PC, c: Cell)
    requires OnceInv(s, c) && Unexpired(s, c) && Steps(s, t, a, pc')
    requires Moves(s, s', t, pc') && Wrote(s, s', t, a)
    ensures c !in s'.tombs
    ensures forall u | Is(s', u, c) ::
      !s'.threads[u].op.Invalidate? && !s'.threads[u].pc.InvClock? && !s'.threads[u].pc.InvLock?
  {
    DataStays(s, t, a, c);
    if Is(s, t, c) && (pc'.InvClock? || pc'.InvLock?) { InvRole(s, t, a, pc'); }
    hide Advance, Committed, Unwritten, L1After, TombsAfter, Expired;
  }

  lemma {:induction false} OnceStep(s: Sys, s': Sys, t: Tid, a: Action, pc': PC, c: Cell)
    requires LockInv(s) && OnceInv(s, c) && Unexpired(s, c) && Steps(s, t, a, pc')
    requires Moves(s, s', t, pc') && Wrote(s, s', t, a)
    ensures OnceInv(s', c)
  {
    StaysUntombed(s, s', t, a, pc', c);
    hide Steps, Moves, Wrote, Unexpired, LockInv, Committed, Unwritten;
    forall w | Is(s', w, c) && w in s'.wins
      ensures Unwritten(s'.threads[w].pc) || c in s'.l1
    {
      WinnerWrites(s, s', t, a, pc', c, w);
    }
    forall w, u | Is(s', w, c) && Is(s', u, c) && w in s'.wins
      ensures !Committed(s'.threads[u].pc)
    {
      WinnerAndCommitted(s, s', t, a, pc', c, w, u);
    }
    forall w, u | Is(s', w, c) && Is(s', u, c) && w in s'.wins && u in s'.wins
      ensures w == u
    {
      OneWinner(s, s', t, a, pc', c, w, u);
    }
  }

  lemma {:induction false} WinnerWrites(s: Sys, s': Sys, t: Tid, a: Action, pc': PC, c: Cell, w: Tid)
    requires OnceInv(s, c) && Unexpired(s, c) && Steps(s, t, a, pc')
    requires Moves(s, s', t, pc') && Wrote(s, s', t, a)
    requires Is(s', w, c) && w in s'.wins
    ensures Unwritten(s'.threads[w].pc) || c in s'.l1
  {
    DataStays(s, t, a, c);
    hide Advance, L1After, TombsAfter, Committed;
    if w !in s.wins {
      WinRole(s, t, a, pc');
    } else if w == t && Unwritten(s.threads[t].pc) {
      UnwrittenRole(s, t, a, pc');
    }
  }

  lemma {:induction false} OneWinner(s: Sys, s': Sys, t: Tid, a: Action, pc': PC, c: Cell, w: Tid, u: Tid)
    requires OnceInv(s, c) && Steps(s, t, a, pc')
    requires Moves(s, s', t, pc') && Wrote(s, s', t, a)
    requires Is(s', w, c) && Is(s', u, c) && w in s'.wins && u in s'.wins
    ensures w == u
  {
    hide Advance, L1After, TombsAfter, Unwritten;
    if t in s'.wins && t !in s.wins {
      WinRole(s, t, a, pc');
      assert Committed(s.threads[t].pc);
    }
  }

  // ----- main results -----

  /** The cell is quiet all along: never invalidated, its L1 entry never judged past its expiry. */
  ghost predicate Quiet(tr: seq<Sys>, c: Cell) {
    forall i | 0 <= i < |tr| :: NeverInvalidated(tr[i], c) && Unexpired(tr[i], c)
  }

  lemma {:induction false} OnceInvariant(tr: seq<Sys>, ls: seq<Label>, c: Cell, i: nat)
    requires Run(tr, ls) && i < |tr| && Quiet(tr, c)
    ensures OnceInv(tr[i], c)
  {
    if i == 0 {
      hide Next;
      assert NeverInvalidated(tr[0], c);
    } else {
      OnceInvariant(tr, ls, c, i - 1);
      LockInvariant(tr, ls, i - 1);
      assert Next(tr[i - 1], ls[i - 1]) == Some(tr[i]);
      OnceLabel(tr[i - 1], ls[i - 1], c);
    }
  }

  lemma {:induction false} OnceLabel(s: Sys, l: Label, c: Cell)
    requires LockInv(s) && OnceInv(s, c) && Unexpired(s, c) && Next(s, l).Some?
    ensures OnceInv(Next(s, l).value, c)
  {
    match l
    case Tick(_) => hide LockInv, Committed, Unwritten;
    case Step(t, a) =>
      hide LockInv, OnceInv;
      Changes(s, t, a, Advance(s, t, a).value);
      DataChanges(s, t, a, Advance(s, t, a).value);
      OnceStep(s, After(s, t, a), t, a, Advance(s, t, a).value, c);
  }

  /** At most one compute for a quiet cell ever returns success, in any interleaving. */
  lemma {:induction false} AtMostOneCompute(tr: seq<Sys>, ls: seq<Label>, c: Cell, i: nat, t: Tid, u: Tid)
    requires Run(tr, ls) && i < |tr| && Quiet(tr, c)
    requires Is(tr[i], t, c) && Is(tr[i], u, c) && t in tr[i].wins && u in tr[i].wins
    ensures t == u
  {
    OnceInvariant(tr, ls, c, i);
  }

  /** After that success no call of the cell ever reaches compute again. */
  lemma {:induction false} NoComputeAfterSuccess(tr: seq<Sys>, ls: seq<Label>, c: Cell, i: nat, t: Tid, u: Tid)
    requires Run(tr, ls) && i < |tr| && Quiet(tr, c)
    requires Is(tr[i], t, c) && t in tr[i].wins && Is(tr[i], u, c)
    ensures !tr[i].threads[u].pc.Compute?
  {
    OnceInvariant(tr, ls, c, i);
  }

  /** No clock value of the run reaches an expiry that the cell's L1 entry has during the run. */
  ghost predicate NeverExpires(tr: seq<Sys>, c: Cell) {
    forall i, n | 0 <= i < |tr| && 0 <= n < |tr| && c in tr[n].l1 && tr[n].l1[c].expiresAt.Some? ::
      tr[i].clock < tr[n].l1[c].expiresAt.value
  }

  /** The clock reading with which a Get judges entries, in either of its sections. */
  function Reading(pc: PC): Option<Time> {
    match pc
    case GetL1(_, now) => Some(now)
    case GetPromote(_, _, now) => Some(now)
    case _ => None
  }

  lemma {:induction false} ReadingStep(s: Sys, t: Tid, a: Action, pc': PC)
    requires Steps(s, t, a, pc') && Reading(pc').Some?
    ensures Reading(pc').value == s.clock
  {
  }

  /** Every reading is a clock value of the run. */
  lemma {:induction false} ReadingIsClock(tr: seq<Sys>, ls: seq<Label>, i: nat, t: Tid) returns (n: nat)
    requires Run(tr, ls) && i < |tr| && t in tr[i].threads && Reading(tr[i].threads[t].pc).Some?
    ensures n < |tr| && tr[n].clock == Reading(tr[i].threads[t].pc).value
  {
    assert i > 0;
    var l := ls[i - 1];
    assert Next(tr[i - 1], l) == Some(tr[i]);
    SameOp(tr, ls, i - 1, i, t);
    hide Next, Init, Reading;
    if l.Step? && l.t == t {
      OwnStep(tr[i - 1], l, t);
      ReadingStep(tr[i - 1], t, l.a, tr[i].threads[t].pc);
      n := i - 1;
    } else {
      OtherThreadStays(tr[i - 1], l, t);
      n := ReadingIsClock(tr, ls, i - 1, t);
    }
  }

  /** Then no Get judges the entry expired. */
  lemma {:induction false} NeverJudgedExpired(tr: seq<Sys>, ls: seq<Label>, c: Cell, i: nat, t: Tid)
    requires Run(tr, ls) && NeverExpires(tr, c) && i < |tr|
    requires t in tr[i].threads && Reading(tr[i].threads[t].pc).Some? && c in tr[i].l1
    ensures !Expired(tr[i].l1[c], Reading(tr[i].threads[t].pc).value)
  {
    var n := ReadingIsClock(tr, ls, i, t);
    hide Run, Reading;
  }

  /** A cell that nobody invalidates and whose entries outlast the clock is quiet. */
  lemma {:induction false} QuietIfNeverExpired(tr: seq<Sys>, ls: seq<Label>, c: Cell)
    requires Run(tr, ls) && NeverInvalidated(tr[0], c) && NeverExpires(tr, c)
    ensures Quiet(tr, c)
  {
    hide Next, Init, NeverExpires;
    forall i | 0 <= i < |tr|
      ensures NeverInvalidated(tr[i], c) && Unexpired(tr[i], c)
    {
      forall t | Is(tr[i], t, c)
        ensures !tr[i].threads[t].op.Invalidate?
      {
        SameOp(tr, ls, 0, i, t);
        assert Is(tr[0], t, c);
      }
      forall t | Is(tr[i], t, c) && tr[i].threads[t].pc.GetL1? && c in tr[i].l1
        ensures !Expired(tr[i].l1[c], tr[i].threads[t].pc.now)
      {
        NeverJudgedExpired(tr, ls, c, i, t);
      }
    }
  }
}
