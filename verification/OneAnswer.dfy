/**
  What the stampede guard is for: all calls of a quiet cell that nobody Sets get the same
  answer, the one value that the one successful compute returned.
 */
module OneAnswer {
  import opened Prelude
  import opened Protocol
  import opened SlotSafety
  import opened ExactlyOnce
  import opened Provenance

  /** Past its compute, or finished without one. */
  predicate Past(pc: PC) {
    match pc
    case Supersede(_, _, _, _) => true
    case SetClock(_, _, _) => true
    case SetL1(_, _) => true
    case SetL2(_, _) => true
    case Unlock(_) => true
    case Publish(_) => true
    case Close(_) => true
    case Release(_) => true
    case Done(_, _) => true
    case _ => false
  }

  /** A call comes to its compute at most once: a step out of it leads past it, and there is no way back. */
  lemma {:induction false} PastRole(s: Sys, t: Tid, a: Action, pc': PC)
    requires Steps(s, t, a, pc')
    ensures Past(s.threads[t].pc) || s.threads[t].pc.Compute? ==> Past(pc')
  {
  }

  lemma {:induction false} PastStays(s: Sys, l: Label, t: Tid)
    requires Next(s, l).Some? && t in s.threads
    requires Past(s.threads[t].pc) || (l.Step? && l.t == t && s.threads[t].pc.Compute?)
    ensures t in Next(s, l).value.threads && Past(Next(s, l).value.threads[t].pc)
    ensures s.wins <= Next(s, l).value.wins
  {
    if l.Step? {
      Changes(s, l.t, l.a, Advance(s, l.t, l.a).value);
      DataChanges(s, l.t, l.a, Advance(s, l.t, l.a).value);
      hide Advance, Past;
      if l.t == t { PastRole(s, t, l.a, Advance(s, t, l.a).value); }
    }
  }

  lemma {:induction false} PastFor(tr: seq<Sys>, ls: seq<Label>, i: nat, j: nat, t: Tid)
    requires Run(tr, ls) && i < j < |tr| && ls[i].Step? && ls[i].t == t
    requires t in tr[i].threads && tr[i].threads[t].pc.Compute?
    ensures t in tr[j].threads && Past(tr[j].threads[t].pc)
  {
    if j > i + 1 { PastFor(tr, ls, i, j - 1, t); }
    assert Next(tr[j - 1], ls[j - 1]) == Some(tr[j]);
    hide Next, Past;
    PastStays(tr[j - 1], ls[j - 1], t);
  }

  lemma {:induction false} WinsGrow(tr: seq<Sys>, ls: seq<Label>, i: nat, j: nat)
    requires Run(tr, ls) && i <= j < |tr|
    ensures tr[i].wins <= tr[j].wins
  {
    if i < j {
      WinsGrow(tr, ls, i, j - 1);
      assert Next(tr[j - 1], ls[j - 1]) == Some(tr[j]);
      hide Advance;
    }
  }

  /** Label j is thread t's compute returning v for k. */
  predicate ComputesValue(s: Sys, l: Label, k: Key, v: string) {
    && l.Step? && l.t in s.threads && s.threads[l.t].op.k == k
    && s.threads[l.t].pc.Compute? && l.a.Computes? && l.a.v == v
  }

  /** Nothing but a compute of this cell can make a value for its key: no Set, no other process, no older row. */
  ghost predicate OnlyComputes(s: Sys, c: Cell) {
    && (forall t | t in s.threads && s.threads[t].op.k == c.k :: s.threads[t].p == c.p && !s.threads[t].op.Set?)
    && (forall e :: (c.k, e) !in s.store)
  }

  lemma {:induction false} WinnerOf(tr: seq<Sys>, ls: seq<Label>, c: Cell, j: nat, n: nat, v: string)
    requires Run(tr, ls) && j < |ls| && j < n < |tr| && ComputesValue(tr[j], ls[j], c.k, v)
    requires OnlyComputes(tr[0], c)
    ensures ls[j].t in tr[n].wins && Is(tr[n], ls[j].t, c)
  {
    var t := ls[j].t;
    assert Next(tr[j], ls[j]) == Some(tr[j + 1]);
    assert t in tr[j + 1].wins by { hide Advance; }
    hide Next, Init;
    WinsGrow(tr, ls, j + 1, n);
    SameOp(tr, ls, 0, j, t);
    SameOp(tr, ls, 0, n, t);
  }

  lemma {:induction false} ProducedByCompute(
      tr: seq<Sys>, ls: seq<Label>, c: Cell, n: nat, t: Tid, v: string) returns (j: nat)
    requires Run(tr, ls) && n < |tr| && OnlyComputes(tr[0], c)
    requires Is(tr[n], t, c) && tr[n].threads[t].pc.Done? && tr[n].threads[t].pc.out == Value(v)
    ensures j < n && ComputesValue(tr[j], ls[j], c.k, v)
  {
    ReturnedValuesHaveOrigin(tr, ls, n, t, v);
    hide Next, Init;
    j :| 0 <= j < n && Publishes(tr[j], ls[j], c.k, v);
    SameOp(tr, ls, 0, j, ls[j].t);
  }

  /**
    In any interleaving, two calls of a quiet cell that return values return the same value, when
    computes are the only source of values for the key. It is the value of the one successful
    compute, however many calls raced and whichever way each of them came by it.
   */
  lemma {:induction false} EveryoneGetsTheSame(
      tr: seq<Sys>, ls: seq<Label>, c: Cell, n: nat, t: Tid, u: Tid, v: string, w: string)
    requires Run(tr, ls) && n < |tr| && Quiet(tr, c) && OnlyComputes(tr[0], c)
    requires Is(tr[n], t, c) && tr[n].threads[t].pc.Done? && tr[n].threads[t].pc.out == Value(v)
    requires Is(tr[n], u, c) && tr[n].threads[u].pc.Done? && tr[n].threads[u].pc.out == Value(w)
    ensures v == w
  {
    var i := ProducedByCompute(tr, ls, c, n, t, v);
    var j := ProducedByCompute(tr, ls, c, n, u, w);
    WinnerOf(tr, ls, c, i, n, v);
    WinnerOf(tr, ls, c, j, n, w);
    AtMostOneCompute(tr, ls, c, n, ls[i].t, ls[j].t);
    hide Next, Init, Quiet, OnlyComputes;
    if i < j { PastFor(tr, ls, i, j, ls[i].t); }
    if j < i { PastFor(tr, ls, j, i, ls[j].t); }
  }
}
