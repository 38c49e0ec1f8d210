/** Runs put together step by step from a given state, and the runs of one call that moves alone. */
module Reachability {
  import opened Prelude
  import opened CacheEntry
  import opened Protocol

  function Exec(s: Sys, ls: seq<Label>): Option<Sys>
    decreases |ls|
  {
    if ls == [] then Some(s)
    else
      var n := Next(s, ls[0]);
      if n.Some? then Exec(n.value, ls[1..]) else None
  }

  lemma {:induction false} ExecConcat(s: Sys, a: seq<Label>, b: seq<Label>)
    requires Exec(s, a).Some?
    decreases |a|
    ensures Exec(s, a + b) == Exec(Exec(s, a).value, b)
  {
    if a == [] {
      assert a + b == b;
    } else {
      ExecConcat(Next(s, a[0]).value, a[1..], b);
      assert (a + b)[1..] == a[1..] + b;
    }
  }

  /** State `s'` is reached from state `s` by some run of labels. */
  ghost predicate Leads(s: Sys, s': Sys) { exists ls :: Exec(s, ls) == Some(s') }

  lemma {:induction false} LeadsRefl(s: Sys)
    ensures Leads(s, s)
  {
    assert Exec(s, []) == Some(s);
  }

  lemma {:induction false} LeadsOne(s: Sys, l: Label, s': Sys)
    requires Next(s, l) == Some(s')
    ensures Leads(s, s')
  {
    hide Next;
    assert [l][1..] == [];
    assert Exec(s', []) == Some(s');
    assert Exec(s, [l]) == Some(s');
  }

  lemma {:induction false} LeadsTrans(s0: Sys, s1: Sys, s2: Sys)
    requires Leads(s0, s1) && Leads(s1, s2)
    ensures Leads(s0, s2)
  {
    var a :| Exec(s0, a) == Some(s1);
    var b :| Exec(s1, b) == Some(s2);
    ExecConcat(s0, a, b);
  }

  predicate At(s: Sys, t: Tid, pc: PC) { t in s.threads && s.threads[t].pc == pc }

  /** Extends a run from s0 to s by the one step of t with action a, which must make s'. */
  lemma {:induction false} Then(s0: Sys, s: Sys, t: Tid, a: Action, s': Sys)
    requires Leads(s0, s) && Next(s, Step(t, a)) == Some(s')
    ensures Leads(s0, s')
  {
    LeadsOne(s, Step(t, a), s');
    LeadsTrans(s0, s, s');
  }

  lemma {:induction false} Later(s0: Sys, s: Sys, now: Time)
    requires Leads(s0, s)
    ensures Leads(s0, s.(clock := now))
  {
    LeadsOne(s, Tick(now), s.(clock := now));
    LeadsTrans(s0, s, s.(clock := now));
  }

  /** Extends a run by one step of t, and says what that step did. */
  lemma {:induction false} StepTo(s0: Sys, s: Sys, t: Tid, a: Action, pc: PC) returns (s': Sys)
    requires Leads(s0, s) && t in s.threads && Advance(s, t, a) == Some(pc)
    ensures Leads(s0, s') && s'.threads == s.threads[t := s.threads[t].(pc := pc)]
    ensures s'.l1 == L1After(s, t) && s'.tombs == TombsAfter(s, t) && s'.lastPrune == LastPruneAfter(s, t)
    ensures s'.store == StoreAfter(s, t, a) && s'.clock == s.clock && s'.tombTTL == s.tombTTL
    ensures s'.sf == SfAfter(s, t) && s'.sfMu == MuAfter(s, t) && s'.guarded == s.guarded
    ensures s'.wins == WinsAfter(s, t, a) && s'.xlock == XLockAfter(s, t, a)
  {
    s' := After(s, t, a);
    assert Next(s, Step(t, a)) == Some(s');
    hide Leads, Advance;
    Then(s0, s, t, a, s');
  }

  ghost predicate Waiting(s: Sys, t: Tid, p: Pid, op: Op) {
    t in s.threads && s.threads[t] == Thread(p, op, Start)
  }

  // ----- a whole Get -----

  /** A stretch of solo steps of t moves t to pc and no other thread. */
  predicate OnlyMoves(s: Sys, s': Sys, t: Tid, pc: PC) {
    t in s.threads && s'.threads == s.threads[t := s.threads[t].(pc := pc)] && s'.guarded == s.guarded
  }

  lemma {:induction false} OnlyMovesTwice(s: Sys, a: Sys, b: Sys, t: Tid, pc: PC, pc': PC)
    requires OnlyMoves(s, a, t, pc) && OnlyMoves(a, b, t, pc')
    ensures OnlyMoves(s, b, t, pc')
  {
  }

  lemma {:induction false} EndsMoves(s: Sys, s': Sys, t: Tid, pc: PC)
    requires Ends(s, s', t, pc)
    ensures OnlyMoves(s, s', t, pc)
  {
  }

  /** What such a stretch leaves alone when it ends outside the single-flight section. */
  predicate Ends(s: Sys, s': Sys, t: Tid, pc: PC) {
    && t in s.threads && s'.threads == s.threads[t := s.threads[t].(pc := pc)]
    && s'.tombTTL == s.tombTTL && s'.sf == s.sf && s'.sfMu == s.sfMu && s'.guarded == s.guarded
    && s'.xlock == s.xlock
  }

  lemma {:induction false} EndsTwice(s: Sys, a: Sys, b: Sys, t: Tid, pc: PC, pc': PC)
    requires Ends(s, a, t, pc) && Ends(a, b, t, pc')
    ensures Ends(s, b, t, pc') && t in a.threads && a.threads[t] == s.threads[t].(pc := pc)
  {
  }

  /** A call is about to read the clock for a Get of k. */
  ghost predicate AboutToGet(s: Sys, t: Tid, p: Pid, k: Key, g: Caller) {
    t in s.threads && s.threads[t].Slot() == Cell(p, k) && s.threads[t].pc == GetClock(g)
  }

  /** The Get runs up to and through its L1 section. */
  lemma {:induction false} RunProbe(s0: Sys, s: Sys, t: Tid, p: Pid, k: Key, g: Caller, now: Time) returns (s': Sys)
    requires Leads(s0, s) && AboutToGet(s, t, p, k, g)
    ensures Leads(s0, s') && Ends(s, s', t, AfterL1(s, Cell(p, k), g, now))
    ensures s'.l1 == if HitsL1(s, Cell(p, k), now) then s.l1 else s.l1 - {Cell(p, k)}
    ensures s'.tombs == s.tombs && s'.lastPrune == s.lastPrune && s'.store == s.store
  {
    hide Leads, HitsL1, AfterL1;
    Later(s0, s, now);
    var b := StepTo(s0, s.(clock := now), t, Go, GetL1(g, now));
    s' := JudgeL1(s0, b, t, p, k, g, now);
    SameJudgement(s, b, Cell(p, k), g, now);
  }

  lemma {:induction false} SameJudgement(s: Sys, b: Sys, c: Cell, g: Caller, now: Time)
    requires b.l1 == s.l1 && b.tombs == s.tombs
    ensures HitsL1(b, c, now) == HitsL1(s, c, now) && AfterL1(b, c, g, now) == AfterL1(s, c, g, now)
  {
  }

  lemma {:induction false} JudgeL1(s0: Sys, s: Sys, t: Tid, p: Pid, k: Key, g: Caller, now: Time) returns (s': Sys)
    requires Leads(s0, s) && t in s.threads && s.threads[t].Slot() == Cell(p, k) && s.threads[t].pc == GetL1(g, now)
    ensures Leads(s0, s') && Ends(s, s', t, AfterL1(s, Cell(p, k), g, now))
    ensures s'.l1 == if HitsL1(s, Cell(p, k), now) then s.l1 else s.l1 - {Cell(p, k)}
    ensures s'.tombs == s.tombs && s'.lastPrune == s.lastPrune && s'.store == s.store
  {
    hide Leads, HitsL1, AfterL1;
    s' := StepTo(s0, s, t, Go, AfterL1(s, Cell(p, k), g, now));
  }

  /** The store answers r, and the row, if there is one, is judged at `later`; L1 has nothing for the key. */
  lemma {:induction false} RunFetch(
      s0: Sys, s: Sys, t: Tid, p: Pid, k: Key, g: Caller, r: Reply, later: Time) returns (s': Sys)
    requires Leads(s0, s) && t in s.threads && s.threads[t].Slot() == Cell(p, k) && s.threads[t].pc == GetL2(g)
    requires Cell(p, k) !in s.l1 && (r.Found? ==> (k, r.e) in s.store)
    ensures var good := r.Found? && Servable(r.e, Lookup(s.tombs, Cell(p, k)), later);
      && Leads(s0, s')
      && Ends(s, s', t, AfterGet(g,
           if r.Unreadable? then Failed(StoreGet) else if good then Value(r.e.value) else NoValue))
      && s'.l1 == (if good then s.l1[Cell(p, k) := r.e] else s.l1)
      && s'.tombs == s.tombs && s'.lastPrune == s.lastPrune && s'.store == s.store
  {
    hide Leads, Servable, AfterGet;
    if r.Found? {
      var a := StepTo(s0, s, t, StoreReplies(r), GetReclock(g, r.e));
      Later(s0, a, later);
      var b := StepTo(s0, a.(clock := later), t, Go, GetPromote(g, r.e, later));
      s' := JudgeRow(s0, b, t, p, k, g, r.e, later);
    } else {
      s' := StepTo(s0, s, t, StoreReplies(r), AfterGet(g, if r.Unreadable? then Failed(StoreGet) else NoValue));
    }
  }

  lemma {:induction false} JudgeRow(
      s0: Sys, s: Sys, t: Tid, p: Pid, k: Key, g: Caller, e: Entry, later: Time) returns (s': Sys)
    requires Leads(s0, s) && t in s.threads && s.threads[t].Slot() == Cell(p, k) &&
      s.threads[t].pc == GetPromote(g, e, later)
    requires Cell(p, k) !in s.l1
    ensures var good := Servable(e, Lookup(s.tombs, Cell(p, k)), later);
      && Leads(s0, s') && Ends(s, s', t, AfterGet(g, if good then Value(e.value) else NoValue))
      && s'.l1 == (if good then s.l1[Cell(p, k) := e] else s.l1)
      && s'.tombs == s.tombs && s'.lastPrune == s.lastPrune && s'.store == s.store
  {
    hide Leads, Servable, AfterGet;
    s' := StepTo(s0, s, t, Go, AfterGet(g, Promoted(s, Cell(p, k), e, later)));
  }

  // ----- a whole Set -----

  lemma {:induction false} RunSet(
      s: Sys, t: Tid, p: Pid, k: Key, v: string, ttl: int, now: Time, kept: bool, failed: bool) returns (s': Sys)
    requires Waiting(s, t, p, Set(k, v, ttl)) && k != ""
    ensures var e := Stamped(v, ttl, now);
      && Leads(s, s') && Ends(s, s', t, Done(if failed then Failed(StoreSet) else NoValue, Direct))
      && s'.l1 == s.l1[Cell(p, k) := e] && s'.tombs == s.tombs - {Cell(p, k)} && s'.lastPrune == s.lastPrune
      && s'.store == s.store + if kept then {(k, Reread(e))} else {}
  {
    hide Leads, Reread, Stamped;
    LeadsRefl(s);
    Later(s, s, now);
    var e := Stamped(v, ttl, now);
    var a := StepTo(s, s.(clock := now), t, Go, SetClock(OwnSet, v, ttl));
    var b := StepTo(s, a, t, Go, SetL1(OwnSet, e));
    s' := RunWrite(s, b, t, p, k, OwnSet, e, kept, failed);
  }

  lemma {:induction false} RunWrite(
      s0: Sys, s: Sys, t: Tid, p: Pid, k: Key, w: Writer, e: Entry, kept: bool, failed: bool) returns (s': Sys)
    requires Leads(s0, s) && t in s.threads && s.threads[t].Slot() == Cell(p, k) && s.threads[t].pc == SetL1(w, e)
    ensures Leads(s0, s') && Ends(s, s', t, AfterSet(w, e, failed))
    ensures s'.l1 == s.l1[Cell(p, k) := e] && s'.tombs == s.tombs - {Cell(p, k)} && s'.lastPrune == s.lastPrune
    ensures s'.store == s.store + (if kept then {(k, Reread(e))} else {}) && s'.wins == s.wins
  {
    hide Leads, Reread, AfterSet;
    var c := StepTo(s0, s, t, Go, SetL2(w, e));
    s' := StepTo(s0, c, t, StoreWrites(kept, failed), AfterSet(w, e, failed));
  }

  // ----- a whole Invalidate -----

  lemma {:induction false} RunInvalidate(s: Sys, t: Tid, p: Pid, k: Key, now: Time, failed: bool) returns (s': Sys)
    requires Waiting(s, t, p, Invalidate(k)) && k != ""
    ensures Leads(s, s') && Ends(s, s', t, Done(if failed then Failed(StoreDelete) else NoValue, Direct))
    ensures s'.l1 == s.l1 - {Cell(p, k)} && s'.tombs == Unswept(s, s.tombs[Cell(p, k) := now], p, now)
    ensures s'.lastPrune == (if Sweeps(s, p, now) then s.lastPrune[p := now] else s.lastPrune) && s'.store == s.store
  {
    hide Leads, Unswept, Sweeps;
    LeadsRefl(s);
    Later(s, s, now);
    var a := StepTo(s, s.(clock := now), t, Go, InvClock);
    var b := StepTo(s, a, t, Go, InvLock(now));
    SweepSame(s, b, s.tombs[Cell(p, k) := now], p, now);
    s' := RunLocked(s, b, t, p, k, now, failed);
  }

  lemma {:induction false} SweepSame(s: Sys, b: Sys, tombs: map<Cell, Time>, p: Pid, now: Time)
    requires b.tombTTL == s.tombTTL && b.lastPrune == s.lastPrune
    ensures Sweeps(b, p, now) == Sweeps(s, p, now) && Unswept(b, tombs, p, now) == Unswept(s, tombs, p, now)
  {
  }

  lemma {:induction false} RunLocked(s0: Sys, s: Sys, t: Tid, p: Pid, k: Key, now: Time, failed: bool) returns (s': Sys)
    requires Leads(s0, s) && t in s.threads && s.threads[t] == Thread(p, Invalidate(k), InvLock(now))
    ensures Leads(s0, s') && Ends(s, s', t, Done(if failed then Failed(StoreDelete) else NoValue, Direct))
    ensures s'.l1 == s.l1 - {Cell(p, k)} && s'.tombs == Unswept(s, s.tombs[Cell(p, k) := now], p, now)
    ensures s'.lastPrune == (if Sweeps(s, p, now) then s.lastPrune[p := now] else s.lastPrune) && s'.store == s.store
  {
    hide Leads, Unswept, Sweeps;
    var c := StepTo(s0, s, t, Go, InvL2);
    s' := StepTo(s0, c, t, StoreDeletes(failed), Done(if failed then Failed(StoreDelete) else NoValue, Direct));
  }

  // ----- a GetOrCompute up to its slot -----

  /** Thread t has not begun and nothing it needs is taken. */
  predicate Unhindered(s: Sys, t: Tid, c: Cell) {
    && t in s.threads && s.threads[t].Slot() == c && c !in s.l1 && c !in s.tombs
    && c.p !in s.sfMu && c !in s.sf
  }

  /** A Get inside a GetOrCompute that finds nothing anywhere. */
  lemma {:induction false} MissEverywhere(s0: Sys, s: Sys, t: Tid, c: Cell, g: Caller) returns (s': Sys)
    requires Leads(s0, s) && AboutToGet(s, t, c.p, c.k, g) && c !in s.l1
    ensures Leads(s0, s') && Ends(s, s', t, AfterGet(g, NoValue))
    ensures s'.l1 == s.l1 && s'.tombs == s.tombs
  {
    hide Leads, AfterGet;
    var a := RunProbe(s0, s, t, c.p, c.k, g, s.clock);
    s' := RunFetch(s0, a, t, c.p, c.k, g, Missing, a.clock);
  }

  /** A GetOrCompute that finds nothing goes all the way to a slot of its own. */
  lemma {:induction false} BecomesOwner(s: Sys, t: Tid, c: Cell) returns (s': Sys)
    requires Unhindered(s, t, c) && At(s, t, Start) && s.threads[t].op.GetOrCompute? && c.k != ""
    ensures Leads(s, s') && s'.threads == s.threads[t := s.threads[t].(pc := Register)]
    ensures s'.tombTTL == s.tombTTL && s'.guarded == s.guarded && s'.tombs == s.tombs && s'.l1 == s.l1
    ensures s'.sfMu == s.sfMu[c.p := t] && s'.sf == s.sf && s'.xlock == s.xlock
  {
    hide Leads;
    LeadsRefl(s);
    var a := StepTo(s, s, t, Go, GetClock(Fast));
    var b := MissEverywhere(s, a, t, c, Fast);
    var d := StepTo(s, b, t, Go, GetClock(Recheck));
    s' := MissEverywhere(s, d, t, c, Recheck);
  }
}
