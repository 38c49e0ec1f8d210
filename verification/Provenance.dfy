/**
  No value out of thin air: every value a Get or GetOrCompute returns, and every entry in
  L1 or in the store, was published for that very key by the L1 section of a Set or by a
  compute that returned success, or it is the value of a row that was in the store at the
  start. A compute's error is never cached.
 */
module Provenance {
  import opened Prelude
  import opened Protocol
  import opened SlotSafety
  import opened ExactlyOnce

  /** The value a thread is carrying, if any; that of a Set before its L1 section is its own affair. */
  function Carried(pc: PC): Option<string> {
    match pc
    case GetReclock(_, e) => Some(e.value)
    case GetPromote(_, e, _) => Some(e.value)
    case DropMu(v) => Some(v)
    case Supersede(_, _, v, _) => Some(v)
    case SetClock(w, v, _) => if w.WriteBack? then Some(v) else None
    case SetL1(w, e) => if w.WriteBack? then Some(e.value) else None
    case SetL2(_, e) => Some(e.value)
    case Unlock(out) => ValueIn(out)
    case Publish(out) => ValueIn(out)
    case Close(out) => ValueIn(out)
    case Release(out) => ValueIn(out)
    case Done(out, _) => ValueIn(out)
    case _ => None
  }

  function ValueIn(out: Outcome): Option<string> {
    if out.Value? then Some(out.v) else None
  }

  predicate Made(s: Sys, k: Key, v: Option<string>) { v.Some? ==> (k, v.value) in s.made }

  ghost predicate ThreadsMade(s: Sys) {
    forall t | t in s.threads :: Made(s, s.threads[t].op.k, Carried(s.threads[t].pc))
  }

  ghost predicate MadeInv(s: Sys) {
    && (forall c | c in s.l1 :: (c.k, s.l1[c].value) in s.made)
    && (forall k, e | (k, e) in s.store :: (k, e.value) in s.made)
    && ThreadsMade(s)
  }

  /** What a step carries on comes from what the thread carried, L1, the store, its leader, a Set or a compute. */
  predicate Source(s: Sys, t: Tid, a: Action, v: string)
    requires t in s.threads
  {
    var th := s.threads[t];
    || Carried(th.pc) == Some(v)
    || (th.Slot() in s.l1 && s.l1[th.Slot()].value == v)
    || (a.StoreReplies? && a.r.Found? && (th.op.k, a.r.e) in s.store && a.r.e.value == v)
    || (th.pc.Compute? && a.Computes? && a.v == v)
    || (th.pc.SetL1? && th.pc.w.OwnSet? && th.pc.e.value == v)
    || (th.pc.Wait? && Lookup(s.calls, th.pc.leader) == Some(Call(Some(Value(v)), true)))
  }

  lemma {:induction false} CarriedInGet(s: Sys, t: Tid, a: Action, pc': PC)
    requires Steps(s, t, a, pc') && IsGet(s.threads[t].pc)
    ensures Carried(pc').Some? ==> Source(s, t, a, Carried(pc').value)
  {
  }

  lemma {:induction false} CarriedInWork(s: Sys, t: Tid, a: Action, pc': PC)
    requires Steps(s, t, a, pc') && !IsGet(s.threads[t].pc)
    ensures Carried(pc').Some? ==> Source(s, t, a, Carried(pc').value)
  {
  }

  lemma {:induction false} SourceIsMade(s: Sys, t: Tid, a: Action, v: string)
    requires LockInv(s) && MadeInv(s) && t in s.threads && Source(s, t, a, v)
    ensures (s.threads[t].op.k, v) in MadeAfter(s, t, a)
  {
    var th := s.threads[t];
    if th.pc.Wait? {
      var o := th.pc.leader;
      assert LeaderOk(s, t);
      assert Lookup(s.calls, o) == Record(s.threads[o].pc);
      if Record(s.threads[o].pc) == Some(Call(Some(Value(v)), true)) {
        ClosedRecord(s, o, Value(v));
        assert Carried(s.threads[o].pc) == Some(v);
      }
    }
  }

  lemma {:induction false} DataIsMade(s: Sys, t: Tid, a: Action)
    requires MadeInv(s) && t in s.threads
    ensures s.made <= MadeAfter(s, t, a)
    ensures forall c | c in L1After(s, t) :: (c.k, L1After(s, t)[c].value) in MadeAfter(s, t, a)
    ensures forall k, e | (k, e) in StoreAfter(s, t, a) :: (k, e.value) in MadeAfter(s, t, a)
  {
    assert Made(s, s.threads[t].op.k, Carried(s.threads[t].pc));
  }

  lemma {:induction false} ThreadsStayMade(s: Sys, s': Sys, t: Tid, pc': PC)
    requires ThreadsMade(s) && Moves(s, s', t, pc')
    requires s.made <= s'.made && Made(s', s.threads[t].op.k, Carried(pc'))
    ensures ThreadsMade(s')
  {
    hide Carried;
    forall u | u in s'.threads
      ensures Made(s', s'.threads[u].op.k, Carried(s'.threads[u].pc))
    {
      if u != t { assert Made(s, s.threads[u].op.k, Carried(s.threads[u].pc)); }
    }
  }

  lemma {:induction false} ThreadMadeStep(s: Sys, t: Tid, a: Action, pc': PC)
    requires LockInv(s) && MadeInv(s) && Steps(s, t, a, pc') && Carried(pc').Some?
    ensures (s.threads[t].op.k, Carried(pc').value) in MadeAfter(s, t, a)
  {
    if IsGet(s.threads[t].pc) { CarriedInGet(s, t, a, pc'); } else { CarriedInWork(s, t, a, pc'); }
    hide Advance, MadeAfter, Source, Carried, LockInv;
    SourceIsMade(s, t, a, Carried(pc').value);
  }

  lemma {:induction false} ThreadsMadeStep(s: Sys, t: Tid, a: Action, pc': PC)
    requires LockInv(s) && MadeInv(s) && Steps(s, t, a, pc')
    ensures ThreadsMade(After(s, t, a))
  {
    Changes(s, t, a, pc');
    DataChanges(s, t, a, pc');
    hide Advance, After, L1After, StoreAfter, SfAfter, MuAfter, CallsAfter, XLockAfter, Carried, LockInv;
    DataIsMade(s, t, a);
    hide MadeAfter;
    if Carried(pc').Some? { ThreadMadeStep(s, t, a, pc'); }
    ThreadsStayMade(s, After(s, t, a), t, pc');
  }

  lemma {:induction false} MadeStep(s: Sys, t: Tid, a: Action, pc': PC)
    requires LockInv(s) && MadeInv(s) && Steps(s, t, a, pc')
    ensures MadeInv(After(s, t, a))
  {
    ThreadsMadeStep(s, t, a, pc');
    DataChanges(s, t, a, pc');
    DataIsMade(s, t, a);
    hide Advance, After, L1After, StoreAfter, MadeAfter, SfAfter, MuAfter, CallsAfter, XLockAfter, ThreadsMade, LockInv;
  }

  lemma {:induction false} MadeInvariant(tr: seq<Sys>, ls: seq<Label>, i: nat)
    requires Run(tr, ls) && i < |tr|
    ensures MadeInv(tr[i])
  {
    if i > 0 {
      MadeInvariant(tr, ls, i - 1);
      LockInvariant(tr, ls, i - 1);
      assert Next(tr[i - 1], ls[i - 1]) == Some(tr[i]);
      match ls[i - 1]
      case Tick(_) => hide LockInv, Carried;
      case Step(t, a) =>
        hide LockInv, MadeInv;
        MadeStep(tr[i - 1], t, a, Advance(tr[i - 1], t, a).value);
    }
  }

  /** A Set on its way to L1 carries the value it was called with. */
  predicate OwnValue(th: Thread) {
    match th.pc
    case SetClock(w, v, _) => w.OwnSet? ==> th.op.Set? && th.op.v == v
    case SetL1(w, e) => w.OwnSet? ==> th.op.Set? && th.op.v == e.value
    case _ => true
  }

  lemma {:induction false} OwnValueStep(s: Sys, t: Tid, a: Action, pc': PC)
    requires Steps(s, t, a, pc') && OwnValue(s.threads[t])
    ensures OwnValue(s.threads[t].(pc := pc'))
  {
  }

  lemma {:induction false} SetsOwnValue(tr: seq<Sys>, ls: seq<Label>, i: nat, t: Tid)
    requires Run(tr, ls) && i < |tr| && t in tr[i].threads
    ensures OwnValue(tr[i].threads[t])
  {
    if i > 0 {
      var l := ls[i - 1];
      assert Next(tr[i - 1], l) == Some(tr[i]);
      SameOp(tr, ls, i - 1, i, t);
      SetsOwnValue(tr, ls, i - 1, t);
      hide Next, Init, OwnValue;
      if l.Step? && l.t == t {
        OwnStep(tr[i - 1], l, t);
        OwnValueStep(tr[i - 1], t, l.a, tr[i].threads[t].pc);
        assert tr[i].threads[t] == tr[i - 1].threads[t].(pc := tr[i].threads[t].pc);
      } else {
        OtherThreadStays(tr[i - 1], l, t);
      }
    }
  }

  /** Label l publishes v for k: a compute for k returns v, or a Set(k, v) goes through its L1 section. */
  predicate Publishes(s: Sys, l: Label, k: Key, v: string) {
    && l.Step? && l.t in s.threads && s.threads[l.t].op.k == k
    && ((s.threads[l.t].pc.Compute? && l.a.Computes? && l.a.v == v)
        || (s.threads[l.t].pc.SetL1? && s.threads[l.t].op.Set? && s.threads[l.t].op.v == v))
  }

  /** The value v of key k is the value of a row at the start, or was published before state i. */
  ghost predicate HasOrigin(tr: seq<Sys>, ls: seq<Label>, i: nat, k: Key, v: string)
    requires i < |tr| == |ls| + 1
  {
    || (exists e :: (k, e) in tr[0].store && e.value == v)
    || (exists j :: 0 <= j < i && Publishes(tr[j], ls[j], k, v))
  }

  lemma {:induction false} MadeHasOrigin(tr: seq<Sys>, ls: seq<Label>, i: nat, k: Key, v: string)
    requires Run(tr, ls) && i < |tr| && (k, v) in tr[i].made
    ensures HasOrigin(tr, ls, i, k, v)
  {
    if i > 0 && (k, v) in tr[i - 1].made {
      MadeHasOrigin(tr, ls, i - 1, k, v);
    } else if i > 0 {
      assert Next(tr[i - 1], ls[i - 1]) == Some(tr[i]);
      NewlyMade(tr[i - 1], ls[i - 1], k, v);
      SetsOwnValue(tr, ls, i - 1, ls[i - 1].t);
      hide Run, Next;
      assert Publishes(tr[i - 1], ls[i - 1], k, v);
    }
  }

  lemma {:induction false} NewlyMade(s: Sys, l: Label, k: Key, v: string)
    requires Next(s, l).Some? && (k, v) in Next(s, l).value.made && (k, v) !in s.made
    ensures l.Step? && l.t in s.threads && s.threads[l.t].op.k == k
    ensures var pc := s.threads[l.t].pc;
      (pc.Compute? && l.a.Computes? && l.a.v == v) || (pc.SetL1? && pc.w.OwnSet? && pc.e.value == v)
  {
    hide Advance;
  }

  /**
    A value returned for k, by whichever way (from L1, from the store, by polling for another
    process's result, by computing or by following), was published for k before: by a compute
    that returned it or by a Set that had reached L1. Or it is the value of a starting row.
   */
  lemma {:induction false} ReturnedValuesHaveOrigin(tr: seq<Sys>, ls: seq<Label>, i: nat, t: Tid, v: string)
    requires Run(tr, ls) && i < |tr|
    requires t in tr[i].threads && tr[i].threads[t].pc.Done? && tr[i].threads[t].pc.out == Value(v)
    ensures HasOrigin(tr, ls, i, tr[i].threads[t].op.k, v)
  {
    MadeInvariant(tr, ls, i);
    assert Made(tr[i], tr[i].threads[t].op.k, Carried(tr[i].threads[t].pc));
    MadeHasOrigin(tr, ls, i, tr[i].threads[t].op.k, v);
  }

  /** So is every entry an L1 map ever holds: in particular no compute error is ever cached. */
  lemma {:induction false} CachedEntriesHaveOrigin(tr: seq<Sys>, ls: seq<Label>, i: nat, c: Cell)
    requires Run(tr, ls) && i < |tr| && c in tr[i].l1
    ensures HasOrigin(tr, ls, i, c.k, tr[i].l1[c].value)
  {
    MadeInvariant(tr, ls, i);
    MadeHasOrigin(tr, ls, i, c.k, tr[i].l1[c].value);
  }
}
