/**
  The class and the step system are the same cache: whatever a method of the class answers and
  does to its maps, the concurrent cache can answer and do when that call runs alone, with the
  same clock readings and the same behaviour of the store. So what is proved of every run of the
  step system holds of the class, and what the class does is possible there.
 */
module SoloRuns {
  import opened Prelude
  import opened CacheEntry
  import opened Protocol
  import opened Reachability
  import T = TtlCache

  /** Process p's part of the concurrent state is the class's state q; the shared store holds q's rows. */
  ghost predicate Mirrors(s: Sys, p: Pid, cfg: T.Config, q: T.State) {
    && (forall k :: Lookup(s.l1, Cell(p, k)) == Lookup(q.l1, k))
    && (forall k :: Lookup(s.tombs, Cell(p, k)) == Lookup(q.tombs, k))
    && Lookup(s.lastPrune, p) == q.lastPrune
    && cfg.tombTTL == (if p in s.tombTTL then s.tombTTL[p] else 0)
    && (forall k | k in q.rows :: (k, Decode(q.rows[k])) in s.store)
    && (!cfg.stored ==> q.rows == map[])
  }

  function ErrorOf(e: T.Error): Error {
    match e
    case EmptyKey => EmptyKey
    case StoreGet => StoreGet
    case StoreSet => StoreSet
    case StoreDelete => StoreDelete
    case ComputeError(code) => ComputeError(code)
  }

  function OutcomeOf(r: Result<Option<string>, T.Error>): Outcome {
    match r
    case Ok(Some(v)) => Value(v)
    case Ok(None) => NoValue
    case Err(e) => Failed(ErrorOf(e))
  }

  /** The call is over with its outcome, no other call has moved, and the single-flight section is as it was. */
  predicate Returned(s: Sys, s': Sys, t: Tid, out: Outcome) {
    && t in s'.threads && s'.threads[t].pc.Done? && s'.threads[t].pc.out == out
    && OnlyMoves(s, s', t, s'.threads[t].pc)
    && s'.sf == s.sf && s'.sfMu == s.sfMu
  }

  // ----- Get -----

  /** The store's side of a Get that misses L1. */
  function Reads(cfg: T.Config, q: T.State, k: Key, broken: bool): Reply {
    if !cfg.stored then Missing
    else if broken then Unreadable
    else if k in q.rows then Found(Decode(q.rows[k]))
    else Missing
  }

  lemma {:induction false} SameHit(s: Sys, p: Pid, cfg: T.Config, q: T.State, k: Key, now: Time)
    requires Mirrors(s, p, cfg, q)
    ensures HitsL1(s, Cell(p, k), now) <==> T.HeldInL1(q, k, now)
    ensures T.HeldInL1(q, k, now) ==> s.l1[Cell(p, k)] == q.l1[k]
  {
    assert Lookup(s.l1, Cell(p, k)) == Lookup(q.l1, k);
    assert Lookup(s.tombs, Cell(p, k)) == Lookup(q.tombs, k);
  }

  /** A change of one L1 cell on both sides keeps the mirror. */
  lemma {:induction false} MirrorsL1(s: Sys, s': Sys, p: Pid, cfg: T.Config, q: T.State, k: Key, e: Option<Entry>)
    requires Mirrors(s, p, cfg, q)
    requires s'.tombs == s.tombs && s'.lastPrune == s.lastPrune && s'.store == s.store && s'.tombTTL == s.tombTTL
    requires s'.l1 == if e.Some? then (s.l1 - {Cell(p, k)})[Cell(p, k) := e.value] else s.l1 - {Cell(p, k)}
    ensures Mirrors(s', p, cfg, q.(l1 := if e.Some? then q.l1[k := e.value] else q.l1 - {k}))
  {
    var q' := q.(l1 := if e.Some? then q.l1[k := e.value] else q.l1 - {k});
    forall j
      ensures Lookup(s'.l1, Cell(p, j)) == Lookup(q'.l1, j)
    {
      assert Lookup(s.l1, Cell(p, j)) == Lookup(q.l1, j);
    }
  }

  lemma {:induction false} ReplyIsThere(s: Sys, p: Pid, cfg: T.Config, q: T.State, k: Key, broken: bool)
    requires Mirrors(s, p, cfg, q)
    ensures var r := Reads(cfg, q, k, broken); r.Found? ==> (k, r.e) in s.store
    ensures Lookup(s.tombs, Cell(p, k)) == Lookup(q.tombs, k)
  {
  }

  /** A whole Get, whoever asked for it, is the class's Get. */
  lemma {:induction false} RunGet(
      s0: Sys, s: Sys, t: Tid, p: Pid, cfg: T.Config, q: T.State, k: Key, g: Caller, now: Time, later: Time,
        broken: bool) returns (s': Sys)
    requires Leads(s0, s) && Mirrors(s, p, cfg, q) && AboutToGet(s, t, p, k, g) && k != ""
    ensures Leads(s0, s') && Ends(s, s', t, AfterGet(g, OutcomeOf(T.GetResult(cfg, q, k, now, later, broken))))
    ensures Mirrors(s', p, cfg, T.Getting(cfg, q, k, now, later, broken))
  {
    SameHit(s, p, cfg, q, k, now);
    hide Leads, HitsL1, Servable, AfterGet, AboutToGet;
    if T.HeldInL1(q, k, now) {
      s' := RunProbe(s0, s, t, p, k, g, now);
    } else {
      hide T.HeldInL1;
      s' := RunMiss(s0, s, t, p, cfg, q, k, g, now, later, broken);
    }
  }

  lemma {:induction false} RunMiss(
      s0: Sys, s: Sys, t: Tid, p: Pid, cfg: T.Config, q: T.State, k: Key, g: Caller, now: Time, later: Time,
        broken: bool) returns (s': Sys)
    requires Leads(s0, s) && Mirrors(s, p, cfg, q) && AboutToGet(s, t, p, k, g) && k != ""
    requires !HitsL1(s, Cell(p, k), now) && !T.HeldInL1(q, k, now)
    ensures Leads(s0, s') && Ends(s, s', t, AfterGet(g, OutcomeOf(T.GetResult(cfg, q, k, now, later, broken))))
    ensures Mirrors(s', p, cfg, T.Getting(cfg, q, k, now, later, broken))
  {
    ReplyIsThere(s, p, cfg, q, k, broken);
    MissIs(cfg, q, k, now, later, broken);
    hide Leads, HitsL1, T.HeldInL1, Servable, AfterGet, Mirrors, Reads, T.GetResult, T.Getting;
    var a := RunProbe(s0, s, t, p, k, g, now);
    assert t in a.threads && a.threads[t] == s.threads[t].(pc := GetL2(g)) && a.tombTTL == s.tombTTL;
    hide Ends;
    var r := Reads(cfg, q, k, broken);
    s' := RunFetch(s0, a, t, p, k, g, r, later);
    EndsTwice(s, a, s', t, GetL2(g), s'.threads[t].pc);
    var good := r.Found? && Servable(r.e, Lookup(q.tombs, k), later);
    MirrorsL1(s, s', p, cfg, q, k, if good then Some(r.e) else None);
  }

  /** What a Get that misses L1 makes of the store's reply. */
  lemma {:induction false} MissIs(cfg: T.Config, q: T.State, k: Key, now: Time, later: Time, broken: bool)
    requires k != "" && !T.HeldInL1(q, k, now)
    ensures var r := Reads(cfg, q, k, broken);
      var good := r.Found? && Servable(r.e, Lookup(q.tombs, k), later);
      var q' := T.Getting(cfg, q, k, now, later, broken);
      && OutcomeOf(T.GetResult(cfg, q, k, now, later, broken)) ==
           (if r.Unreadable? then Failed(StoreGet) else if good then Value(r.e.value) else NoValue)
      && q' == q.(l1 := if good then q.l1[k := r.e] else q.l1 - {k})
  {
    hide Servable, T.HeldInL1;
  }

  lemma {:induction false} SoloGet(
      s: Sys, t: Tid, p: Pid, cfg: T.Config, q: T.State, k: Key, now: Time, later: Time, broken: bool) returns (s': Sys)
    requires Mirrors(s, p, cfg, q) && Waiting(s, t, p, Get(k))
    ensures Leads(s, s') && Returned(s, s', t, OutcomeOf(T.GetResult(cfg, q, k, now, later, broken)))
    ensures Mirrors(s', p, cfg, T.Getting(cfg, q, k, now, later, broken))
  {
    hide Leads, Servable, HitsL1;
    LeadsRefl(s);
    var a := StepTo(s, s, t, Go, Begin(Get(k)));
    if k == "" {
      s' := a;
    } else {
      hide T.GetResult, T.Getting;
      s' := RunGet(s, a, t, p, cfg, q, k, Plain, now, later, broken);
    }
  }

  // ----- Set -----

  /** What SetWithTTL returns. */
  function SetAnswer(cfg: T.Config, k: Key, broken: bool): Outcome {
    if k == "" then Failed(EmptyKey) else if cfg.stored && broken then Failed(StoreSet) else NoValue
  }

  lemma {:induction false} SoloSet(
      s: Sys, t: Tid, p: Pid, cfg: T.Config, q: T.State, k: Key, v: string, ttl: int, now: Time, broken: bool)
      returns (s': Sys)
    requires Mirrors(s, p, cfg, q) && Waiting(s, t, p, Set(k, v, ttl))
    ensures Leads(s, s') && Returned(s, s', t, SetAnswer(cfg, k, broken))
    ensures Mirrors(s', p, cfg, T.Setting(cfg, q, k, v, ttl, now, broken))
  {
    hide Leads, Stamped;
    if k == "" {
      LeadsRefl(s);
      s' := StepTo(s, s, t, Go, Done(Failed(EmptyKey), Direct));
    } else {
      s' := RunSet(s, t, p, k, v, ttl, now, cfg.stored && !broken, cfg.stored && broken);
      MirrorsSet(s, s', p, cfg, q, k, v, ttl, now, broken);
    }
  }

  lemma {:induction false} MirrorsSet(
      s: Sys, s': Sys, p: Pid, cfg: T.Config, q: T.State, k: Key, v: string, ttl: int, now: Time, broken: bool)
    requires Mirrors(s, p, cfg, q) && k != "" && s'.tombTTL == s.tombTTL
    requires var e := Stamped(v, ttl, now);
      && s'.l1 == s.l1[Cell(p, k) := e] && s'.tombs == s.tombs - {Cell(p, k)} && s'.lastPrune == s.lastPrune
      && s'.store == s.store + if cfg.stored && !broken then {(k, Reread(e))} else {}
    ensures Mirrors(s', p, cfg, T.Setting(cfg, q, k, v, ttl, now, broken))
  {
    hide Stamped, Encode, Decode;
    var q' := T.Setting(cfg, q, k, v, ttl, now, broken);
    forall j
      ensures Lookup(s'.l1, Cell(p, j)) == Lookup(q'.l1, j) && Lookup(s'.tombs, Cell(p, j)) == Lookup(q'.tombs, j)
    {
      assert Lookup(s.l1, Cell(p, j)) == Lookup(q.l1, j) && Lookup(s.tombs, Cell(p, j)) == Lookup(q.tombs, j);
    }
  }

  // ----- Invalidate -----

  /** What Invalidate returns. */
  function InvalidateAnswer(cfg: T.Config, k: Key, del: T.Deletion): Outcome {
    if k == "" then Failed(EmptyKey) else if cfg.stored && del.Refused? then Failed(StoreDelete) else NoValue
  }

  lemma {:induction false} SoloInvalidate(
      s: Sys, t: Tid, p: Pid, cfg: T.Config, q: T.State, k: Key, now: Time, del: T.Deletion) returns (s': Sys)
    requires Mirrors(s, p, cfg, q) && Waiting(s, t, p, Invalidate(k))
    ensures Leads(s, s') && Returned(s, s', t, InvalidateAnswer(cfg, k, del))
    ensures Mirrors(s', p, cfg, T.Invalidating(cfg, q, k, now, del))
  {
    hide Leads;
    if k == "" {
      LeadsRefl(s);
      s' := StepTo(s, s, t, Go, Done(Failed(EmptyKey), Direct));
    } else {
      s' := RunInvalidate(s, t, p, k, now, cfg.stored && del.Refused?);
      hide Mirrors, Unswept, Sweeps, T.Invalidating;
      MirrorsInvalidate(s, s', p, cfg, q, k, now, del);
    }
  }

  lemma {:induction false} MirrorsInvalidate(
      s: Sys, s': Sys, p: Pid, cfg: T.Config, q: T.State, k: Key, now: Time, del: T.Deletion)
    requires Mirrors(s, p, cfg, q) && k != "" && s'.tombTTL == s.tombTTL && s'.store == s.store
    requires s'.l1 == s.l1 - {Cell(p, k)} && s'.tombs == Unswept(s, s.tombs[Cell(p, k) := now], p, now)
    requires s'.lastPrune == (if Sweeps(s, p, now) then s.lastPrune[p := now] else s.lastPrune)
    ensures Mirrors(s', p, cfg, T.Invalidating(cfg, q, k, now, del))
  {
    SameSweep(s, p, cfg, q, k, now);
    hide Unswept, Sweeps, T.SweepDue, T.Swept;
    var q' := T.Invalidating(cfg, q, k, now, del);
    forall j
      ensures Lookup(s'.l1, Cell(p, j)) == Lookup(q'.l1, j) && Lookup(s'.tombs, Cell(p, j)) == Lookup(q'.tombs, j)
    {
      assert Lookup(s.l1, Cell(p, j)) == Lookup(q.l1, j);
    }
  }

  lemma {:induction false} SameSweep(s: Sys, p: Pid, cfg: T.Config, q: T.State, k: Key, now: Time)
    requires Mirrors(s, p, cfg, q)
    ensures Sweeps(s, p, now) <==> T.SweepDue(cfg.tombTTL, q.lastPrune, now)
    ensures var swept := T.Swept(cfg.tombTTL, q.tombs[k := now], q.lastPrune, now);
      forall j :: Lookup(Unswept(s, s.tombs[Cell(p, k) := now], p, now), Cell(p, j)) == Lookup(swept, j)
  {
    forall j
      ensures Lookup(s.tombs[Cell(p, k) := now], Cell(p, j)) == Lookup(q.tombs[k := now], j)
    {
      assert Lookup(s.tombs, Cell(p, j)) == Lookup(q.tombs, j);
    }
  }

  // ----- GetOrCompute -----

  function ComputeAnswer(r: Result<string, T.Error>): Outcome {
    if r.Ok? then Value(r.value) else Failed(ErrorOf(r.error))
  }


  /**
    A GetOrCompute that runs alone in a process without a cross-process lock, with nobody in the
    single-flight section of its key, is the class's GetOrCompute.
   */
  lemma {:induction false} SoloGetOrCompute(
      s: Sys, t: Tid, p: Pid, budget: nat, cfg: T.Config, q: T.State, k: Key, x: T.Ambience) returns (s': Sys)
    requires Mirrors(s, p, cfg, q) && Waiting(s, t, p, GetOrCompute(k, budget))
    requires p !in s.guarded && p !in s.sfMu && Cell(p, k) !in s.sf
    ensures Leads(s, s') && Returned(s, s', t, ComputeAnswer(T.ComputeResult(cfg, q, k, x)))
    ensures Mirrors(s', p, cfg, T.Computing(cfg, q, k, x))
  {
    hide Leads, T.GetResult, T.Getting, T.ComputeResult, T.Computing;
    LeadsRefl(s);
    var a := StepTo(s, s, t, Go, Begin(GetOrCompute(k, budget)));
    MirrorsSame(s, a, p, cfg, q);
    if k == "" {
      EmptyKeyIs(cfg, q, x);
      s' := a;
    } else {
      hide Mirrors;
      s' := FromFastGet(s, a, t, p, cfg, q, k, x);
      hide Returned, OnlyMoves;
      assert OnlyMoves(s, a, t, GetClock(Fast)) by { MovesBy(s, a, t, GetClock(Fast)); }
      ReturnedFrom(s, a, s', t, GetClock(Fast), ComputeAnswer(T.ComputeResult(cfg, q, k, x)));
    }
  }

  lemma {:induction false} MovesBy(s: Sys, s': Sys, t: Tid, pc: PC)
    requires t in s.threads && s'.threads == s.threads[t := s.threads[t].(pc := pc)] && s'.guarded == s.guarded
    ensures OnlyMoves(s, s', t, pc)
  {
  }

  lemma {:induction false} ReturnedFrom(s: Sys, a: Sys, s': Sys, t: Tid, pc: PC, out: Outcome)
    requires OnlyMoves(s, a, t, pc) && a.sf == s.sf && a.sfMu == s.sfMu && Returned(a, s', t, out)
    ensures Returned(s, s', t, out)
  {
  }

  lemma {:induction false} EmptyKeyIs(cfg: T.Config, q: T.State, x: T.Ambience)
    ensures T.ComputeResult(cfg, q, "", x) == Err(T.EmptyKey) && T.Computing(cfg, q, "", x) == q
  {
  }

  /** From the fast read on. */
  lemma {:induction false} FromFastGet(
      s0: Sys, s: Sys, t: Tid, p: Pid, cfg: T.Config, q: T.State, k: Key, x: T.Ambience) returns (s': Sys)
    requires Leads(s0, s) && Mirrors(s, p, cfg, q) && AboutToGet(s, t, p, k, Fast) && k != ""
    requires p !in s.guarded && p !in s.sfMu && Cell(p, k) !in s.sf
    ensures Leads(s0, s') && Returned(s, s', t, ComputeAnswer(T.ComputeResult(cfg, q, k, x)))
    ensures Mirrors(s', p, cfg, T.Computing(cfg, q, k, x))
  {
    hide Leads, Mirrors, T.GetResult, T.Getting, T.ComputeResult, T.Computing, T.FastAnswer, ComputeAnswer, AfterGet;
    var pc := AfterGet(Fast, OutcomeOf(T.FirstRead(cfg, q, k, x)));
    var b := FastGet(s0, s, t, p, cfg, q, k, x);
    EndsMoves(s, b, t, pc);
    var out := ComputeAnswer(T.ComputeResult(cfg, q, k, x));
    if T.FastAnswer(cfg, q, k, x) {
      s' := b;
      FastIs(cfg, q, k, x);
      MovedReturned(s, b, t, out, Direct);
    } else {
      SlowStart(cfg, q, k, x);
      MovedStands(s, b, t, p, k, WantMu);
      s' := RunSlow(s0, b, t, p, cfg, q, k, x);
      hide Returned, OnlyMoves;
      ReturnedFrom(s, b, s', t, WantMu, out);
    }
  }

  lemma {:induction false} FastGet(
      s0: Sys, s: Sys, t: Tid, p: Pid, cfg: T.Config, q: T.State, k: Key, x: T.Ambience) returns (s': Sys)
    requires Leads(s0, s) && Mirrors(s, p, cfg, q) && AboutToGet(s, t, p, k, Fast) && k != ""
    ensures Leads(s0, s') && Ends(s, s', t, AfterGet(Fast, OutcomeOf(T.FirstRead(cfg, q, k, x))))
    ensures Mirrors(s', p, cfg, T.ReadOnce(cfg, q, k, x))
  {
    hide Leads, T.GetResult, T.Getting, Mirrors, Ends, AboutToGet;
    s' := RunGet(s0, s, t, p, cfg, q, k, Fast, x.now, x.later, x.broken);
  }

  lemma {:induction false} FastIs(cfg: T.Config, q: T.State, k: Key, x: T.Ambience)
    requires T.FastAnswer(cfg, q, k, x)
    ensures AfterGet(Fast, OutcomeOf(T.FirstRead(cfg, q, k, x))) ==
      Done(ComputeAnswer(T.ComputeResult(cfg, q, k, x)), Direct)
    ensures T.Computing(cfg, q, k, x) == T.ReadOnce(cfg, q, k, x)
  {
    hide T.GetResult, T.Getting;
  }

  lemma {:induction false} SlowStart(cfg: T.Config, q: T.State, k: Key, x: T.Ambience)
    requires !T.FastAnswer(cfg, q, k, x)
    ensures AfterGet(Fast, OutcomeOf(T.FirstRead(cfg, q, k, x))) == WantMu
  {
    hide T.GetResult;
  }

  lemma {:induction false} MirrorsSame(s: Sys, s': Sys, p: Pid, cfg: T.Config, q: T.State)
    requires Mirrors(s, p, cfg, q) && s'.l1 == s.l1 && s'.tombs == s.tombs && s'.lastPrune == s.lastPrune
    requires s'.store == s.store && s'.tombTTL == s.tombTTL
    ensures Mirrors(s', p, cfg, q)
  {
  }

  /** Call t, of key k in process p, is at pc. */
  predicate StandsAt(s: Sys, t: Tid, p: Pid, k: Key, pc: PC) {
    t in s.threads && s.threads[t].Slot() == Cell(p, k) && s.threads[t].pc == pc
  }

  lemma {:induction false} MovedStands(s: Sys, s': Sys, t: Tid, p: Pid, k: Key, pc: PC)
    requires t in s.threads && s.threads[t].Slot() == Cell(p, k) && OnlyMoves(s, s', t, pc)
    ensures StandsAt(s', t, p, k, pc) && s'.guarded == s.guarded
  {
  }

  /** From the fast miss on: the re-check under sfMu, and the compute if that misses too. */
  lemma {:induction false} RunSlow(
      s0: Sys, s: Sys, t: Tid, p: Pid, cfg: T.Config, q: T.State, k: Key, x: T.Ambience) returns (s': Sys)
    requires Leads(s0, s) && Mirrors(s, p, cfg, T.ReadOnce(cfg, q, k, x)) && k != "" && !T.FastAnswer(cfg, q, k, x)
    requires StandsAt(s, t, p, k, WantMu) && p !in s.guarded && p !in s.sfMu && Cell(p, k) !in s.sf
    ensures Leads(s0, s') && Returned(s, s', t, ComputeAnswer(T.ComputeResult(cfg, q, k, x)))
    ensures Mirrors(s', p, cfg, T.Computing(cfg, q, k, x))
  {
    SlowIs(cfg, q, k, x);
    var q2 := T.ReadTwice(cfg, q, k, x);
    var second := T.SecondRead(cfg, q, k, x);
    var pc := AfterGet(Recheck, OutcomeOf(second));
    hide Leads, T.GetResult, T.Getting, Mirrors, T.ReadOnce, T.SecondRead, T.ComputeResult, T.Computing,
      T.FastAnswer, T.ReadTwice, T.ReachesCompute, T.Setting, AfterGet, ComputeAnswer, Returned, OnlyMoves;
    var b := ReadAgain(s0, s, t, p, cfg, q, k, x);
    MovedStands(s, b, t, p, k, pc);
    assert s.sfMu[p := t] - {p} == s.sfMu;
    var out := ComputeAnswer(T.ComputeResult(cfg, q, k, x));
    if T.ReachesCompute(cfg, q, k, x) {
      s' := RunCompute(s0, b, t, p, cfg, q2, k, x);
      OnlyMovesTwice(s, b, s', t, pc, Done(out, Led));
      MovedReturned(s, s', t, out, Led);
    } else {
      s' := LeaveMu(s0, b, t, p, cfg, q2, second.value.value);
      OnlyMovesTwice(s, b, s', t, pc, Done(out, Direct));
      MovedReturned(s, s', t, out, Direct);
    }
  }

  lemma {:induction false} MovedReturned(s: Sys, s': Sys, t: Tid, out: Outcome, via: Via)
    requires OnlyMoves(s, s', t, Done(out, via)) && s'.sf == s.sf && s'.sfMu == s.sfMu
    ensures Returned(s, s', t, out)
  {
  }

  /** Into the section, and the second read. */
  lemma {:induction false} ReadAgain(
      s0: Sys, s: Sys, t: Tid, p: Pid, cfg: T.Config, q: T.State, k: Key, x: T.Ambience) returns (s': Sys)
    requires Leads(s0, s) && Mirrors(s, p, cfg, T.ReadOnce(cfg, q, k, x)) && k != ""
    requires StandsAt(s, t, p, k, WantMu) && p !in s.sfMu && Cell(p, k) !in s.sf
    ensures Leads(s0, s') && Mirrors(s', p, cfg, T.ReadTwice(cfg, q, k, x))
    ensures OnlyMoves(s, s', t, AfterGet(Recheck, OutcomeOf(T.SecondRead(cfg, q, k, x))))
    ensures s'.sf == s.sf && s'.sfMu == s.sfMu[p := t]
  {
    hide Leads, T.GetResult, T.Getting, Mirrors, T.ReadOnce, AfterGet;
    var a := EnterMu(s0, s, t, p, cfg, T.ReadOnce(cfg, q, k, x), k);
    s' := RunGet(s0, a, t, p, cfg, T.ReadOnce(cfg, q, k, x), k, Recheck, x.now', x.later', x.broken');
    var pc := AfterGet(Recheck, OutcomeOf(T.SecondRead(cfg, q, k, x)));
    EndsMoves(a, s', t, pc);
    OnlyMovesTwice(s, a, s', t, GetClock(Recheck), pc);
  }

  /** What a GetOrCompute that missed the fast read comes to. */
  lemma {:induction false} SlowIs(cfg: T.Config, q: T.State, k: Key, x: T.Ambience)
    requires !T.FastAnswer(cfg, q, k, x)
    ensures var reaches, second := T.ReachesCompute(cfg, q, k, x), T.SecondRead(cfg, q, k, x);
      && second == T.GetResult(cfg, T.ReadOnce(cfg, q, k, x), k, x.now', x.later', x.broken')
      && T.ReadTwice(cfg, q, k, x) == T.Getting(cfg, T.ReadOnce(cfg, q, k, x), k, x.now', x.later', x.broken')
      && (!reaches ==> second.Ok? && second.value.Some?)
      && AfterGet(Recheck, OutcomeOf(second)) == (if reaches then Register else DropMu(second.value.value))
      && ComputeAnswer(T.ComputeResult(cfg, q, k, x)) == (
           if !reaches then Value(second.value.value)
           else if x.made.Ok? then Value(x.made.value.0) else Failed(ComputeError(x.made.error)))
      && T.Computing(cfg, q, k, x) == (
           if reaches && x.made.Ok?
           then T.Setting(cfg, T.ReadTwice(cfg, q, k, x), k, x.made.value.0, x.made.value.1, x.written, x.unwritten)
           else T.ReadTwice(cfg, q, k, x))
  {
    hide T.GetResult, T.Getting, T.Setting;
  }

  lemma {:induction false} EnterMu(s0: Sys, s: Sys, t: Tid, p: Pid, cfg: T.Config, q: T.State, k: Key) returns (s': Sys)
    requires Leads(s0, s) && Mirrors(s, p, cfg, q)
    requires t in s.threads && s.threads[t].Slot() == Cell(p, k) && s.threads[t].pc == WantMu
    requires p !in s.sfMu && Cell(p, k) !in s.sf
    ensures Leads(s0, s') && Mirrors(s', p, cfg, q) && AboutToGet(s', t, p, k, Recheck)
    ensures OnlyMoves(s, s', t, GetClock(Recheck)) && s'.sf == s.sf && s'.sfMu == s.sfMu[p := t]
  {
    hide Leads;
    s' := StepTo(s0, s, t, Go, GetClock(Recheck));
    MirrorsSame(s, s', p, cfg, q);
  }

  lemma {:induction false} LeaveMu(
      s0: Sys, s: Sys, t: Tid, p: Pid, cfg: T.Config, q: T.State, v: string) returns (s': Sys)
    requires Leads(s0, s) && Mirrors(s, p, cfg, q) && t in s.threads && s.threads[t].p == p &&
      s.threads[t].pc == DropMu(v)
    ensures Leads(s0, s') && Mirrors(s', p, cfg, q) && OnlyMoves(s, s', t, Done(Value(v), Direct))
    ensures s'.sf == s.sf && s'.sfMu == s.sfMu - {p}
  {
    hide Leads;
    s' := StepTo(s0, s, t, Go, Done(Value(v), Direct));
    MirrorsSame(s, s', p, cfg, q);
  }

  /** The owner registers, computes, writes back, publishes and releases its slot. */
  lemma {:induction false} RunCompute(
      s0: Sys, s: Sys, t: Tid, p: Pid, cfg: T.Config, q: T.State, k: Key, x: T.Ambience) returns (s': Sys)
    requires Leads(s0, s) && Mirrors(s, p, cfg, q) && k != ""
    requires t in s.threads && s.threads[t].Slot() == Cell(p, k) && s.threads[t].pc == Register
    requires p !in s.guarded && Cell(p, k) !in s.sf
    ensures Leads(s0, s')
    ensures OnlyMoves(s, s', t,
      Done(if x.made.Ok? then Value(x.made.value.0) else Failed(ComputeError(x.made.error)), Led))
    ensures s'.sf == s.sf && s'.sfMu == s.sfMu - {p}
    ensures Mirrors(s', p, cfg,
      if x.made.Ok? then T.Setting(cfg, q, k, x.made.value.0, x.made.value.1, x.written, x.unwritten) else q)
  {
    hide Leads, Mirrors, T.Setting;
    var b := ToCompute(s0, s, t, p, cfg, q, k);
    assert s.sf[Cell(p, k) := t] - {Cell(p, k)} == s.sf;
    var pc := b.threads[t].pc;
    if x.made.Ok? {
      s' := Succeeds(s0, b, t, p, cfg, q, k, x);
      OnlyMovesTwice(s, b, s', t, pc, Done(Value(x.made.value.0), Led));
    } else {
      s' := Fails(s0, b, t, p, cfg, q, k, x.made.error);
      OnlyMovesTwice(s, b, s', t, pc, Done(Failed(ComputeError(x.made.error)), Led));
    }
  }

  /** From a compute that returns a value to the end of the call. */
  lemma {:induction false} Succeeds(
      s0: Sys, s: Sys, t: Tid, p: Pid, cfg: T.Config, q: T.State, k: Key, x: T.Ambience) returns (s': Sys)
    requires Leads(s0, s) && Mirrors(s, p, cfg, q) && k != "" && x.made.Ok? && p !in s.sfMu
    requires AtOwnCompute(s, t, p, k)
    ensures Leads(s0, s') && OnlyMoves(s, s', t, Done(Value(x.made.value.0), Led))
    ensures s'.sf == s.sf - {Cell(p, k)} && s'.sfMu == s.sfMu
    ensures Mirrors(s', p, cfg, T.Setting(cfg, q, k, x.made.value.0, x.made.value.1, x.written, x.unwritten))
  {
    hide Leads, Mirrors, T.Setting;
    var v, ttl := x.made.value.0, x.made.value.1;
    var d := ToWriteBack(s0, s, t, p, cfg, q, k, v, ttl);
    EndsMoves(s, d, t, SetClock(WriteBack(Unguarded), v, ttl));
    MovedStands(s, d, t, p, k, SetClock(WriteBack(Unguarded), v, ttl));
    var e := RunWriteBack(s0, d, t, p, cfg, q, k, x);
    EndsMoves(d, e, t, Publish(Value(v)));
    hide OnlyMoves;
    OnlyMovesTwice(s, d, e, t, SetClock(WriteBack(Unguarded), v, ttl), Publish(Value(v)));
    MovedStands(s, e, t, p, k, Publish(Value(v)));
    s' := RunRelease(s0, e, t, p, k, Value(v));
    OnlyMovesTwice(s, e, s', t, Publish(Value(v)), Done(Value(v), Led));
    MirrorsSame(e, s', p, cfg, T.Setting(cfg, q, k, v, ttl, x.written, x.unwritten));
  }

  /** From a compute that returns an error to the end of the call. */
  lemma {:induction false} Fails(
      s0: Sys, s: Sys, t: Tid, p: Pid, cfg: T.Config, q: T.State, k: Key, code: int) returns (s': Sys)
    requires Leads(s0, s) && Mirrors(s, p, cfg, q) && p !in s.sfMu && AtOwnCompute(s, t, p, k)
    ensures Leads(s0, s') && OnlyMoves(s, s', t, Done(Failed(ComputeError(code)), Led))
    ensures s'.sf == s.sf - {Cell(p, k)} && s'.sfMu == s.sfMu && Mirrors(s', p, cfg, q)
  {
    hide Leads, Mirrors;
    var out := Failed(ComputeError(code));
    var c := ToFailure(s0, s, t, p, cfg, q, k, code);
    EndsMoves(s, c, t, Publish(out));
    MovedStands(s, c, t, p, k, Publish(out));
    s' := RunRelease(s0, c, t, p, k, out);
    hide OnlyMoves;
    OnlyMovesTwice(s, c, s', t, Publish(out), Done(out, Led));
    MirrorsSame(c, s', p, cfg, q);
  }

  /** The call is at its compute, with the current tombstone as its snapshot. */
  predicate AtOwnCompute(s: Sys, t: Tid, p: Pid, k: Key) {
    && t in s.threads && s.threads[t].Slot() == Cell(p, k)
    && s.threads[t].pc == Compute(Unguarded, Lookup(s.tombs, Cell(p, k)))
  }

  lemma {:induction false} ToCompute(
      s0: Sys, s: Sys, t: Tid, p: Pid, cfg: T.Config, q: T.State, k: Key) returns (s': Sys)
    requires Leads(s0, s) && Mirrors(s, p, cfg, q) && p !in s.guarded
    requires t in s.threads && s.threads[t].Slot() == Cell(p, k) && s.threads[t].pc == Register
    ensures Leads(s0, s') && Mirrors(s', p, cfg, q) && AtOwnCompute(s', t, p, k)
    ensures OnlyMoves(s, s', t, Compute(Unguarded, Lookup(s'.tombs, Cell(p, k))))
    ensures s'.sf == s.sf[Cell(p, k) := t] && s'.sfMu == s.sfMu - {p}
  {
    hide Leads, Mirrors;
    var a := StepTo(s0, s, t, Go, Snapshot(Unguarded));
    MirrorsSame(s, a, p, cfg, q);
    s' := Snapshots(s0, a, t, p, cfg, q, k);
    OnlyMovesTwice(s, a, s', t, Snapshot(Unguarded), s'.threads[t].pc);
  }

  lemma {:induction false} Snapshots(
      s0: Sys, s: Sys, t: Tid, p: Pid, cfg: T.Config, q: T.State, k: Key) returns (s': Sys)
    requires Leads(s0, s) && Mirrors(s, p, cfg, q) && StandsAt(s, t, p, k, Snapshot(Unguarded))
    ensures Leads(s0, s') && Mirrors(s', p, cfg, q) && AtOwnCompute(s', t, p, k)
    ensures OnlyMoves(s, s', t, Compute(Unguarded, Lookup(s'.tombs, Cell(p, k))))
    ensures s'.sf == s.sf && s'.sfMu == s.sfMu
  {
    hide Leads, Mirrors;
    s' := StepTo(s0, s, t, Go, Compute(Unguarded, Lookup(s.tombs, Cell(p, k))));
    MirrorsSame(s, s', p, cfg, q);
  }

  lemma {:induction false} ToWriteBack(
      s0: Sys, s: Sys, t: Tid, p: Pid, cfg: T.Config, q: T.State, k: Key, v: string, ttl: int) returns (s': Sys)
    requires Leads(s0, s) && Mirrors(s, p, cfg, q) && AtOwnCompute(s, t, p, k)
    ensures Leads(s0, s') && Mirrors(s', p, cfg, q)
    ensures Ends(s, s', t, SetClock(WriteBack(Unguarded), v, ttl))
  {
    hide Leads, Mirrors;
    var snap := Lookup(s.tombs, Cell(p, k));
    var c := StepTo(s0, s, t, Computes(v, ttl), Supersede(Unguarded, snap, v, ttl));
    s' := NotSuperseded(s0, c, t, p, k, v, ttl);
    MirrorsSame(s, s', p, cfg, q);
  }

  lemma {:induction false} NotSuperseded(s0: Sys, s: Sys, t: Tid, p: Pid, k: Key, v: string, ttl: int)
      returns (s': Sys)
    requires Leads(s0, s) && t in s.threads && s.threads[t].Slot() == Cell(p, k)
    requires s.threads[t].pc == Supersede(Unguarded, Lookup(s.tombs, Cell(p, k)), v, ttl)
    ensures Leads(s0, s') && Ends(s, s', t, SetClock(WriteBack(Unguarded), v, ttl))
    ensures s'.l1 == s.l1 && s'.tombs == s.tombs && s'.lastPrune == s.lastPrune && s'.store == s.store
  {
    hide Leads;
    s' := StepTo(s0, s, t, Go, SetClock(WriteBack(Unguarded), v, ttl));
  }

  lemma {:induction false} ToFailure(
      s0: Sys, s: Sys, t: Tid, p: Pid, cfg: T.Config, q: T.State, k: Key, code: int) returns (s': Sys)
    requires Leads(s0, s) && Mirrors(s, p, cfg, q) && AtOwnCompute(s, t, p, k)
    ensures Leads(s0, s') && Mirrors(s', p, cfg, q)
    ensures Ends(s, s', t, Publish(Failed(ComputeError(code))))
  {
    hide Leads;
    s' := StepTo(s0, s, t, ComputeFails(code), Publish(Failed(ComputeError(code))));
    MirrorsSame(s, s', p, cfg, q);
  }

  lemma {:induction false} RunWriteBack(
      s0: Sys, s: Sys, t: Tid, p: Pid, cfg: T.Config, q: T.State, k: Key, x: T.Ambience) returns (s': Sys)
    requires Leads(s0, s) && Mirrors(s, p, cfg, q) && k != "" && x.made.Ok?
    requires t in s.threads && s.threads[t].Slot() == Cell(p, k)
    requires s.threads[t].pc == SetClock(WriteBack(Unguarded), x.made.value.0, x.made.value.1)
    ensures Leads(s0, s') && Ends(s, s', t, Publish(Value(x.made.value.0)))
    ensures Mirrors(s', p, cfg, T.Setting(cfg, q, k, x.made.value.0, x.made.value.1, x.written, x.unwritten))
  {
    hide Leads, Mirrors, Stamped;
    Later(s0, s, x.written);
    var e := Stamped(x.made.value.0, x.made.value.1, x.written);
    assert e.value == x.made.value.0 by { StampedValue(x.made.value.0, x.made.value.1, x.written); }
    var a := StepTo(s0, s.(clock := x.written), t, Go, SetL1(WriteBack(Unguarded), e));
    s' := RunWrite(s0, a, t, p, k, WriteBack(Unguarded), e, cfg.stored && !x.unwritten, cfg.stored && x.unwritten);
    MirrorsSet(s, s', p, cfg, q, k, x.made.value.0, x.made.value.1, x.written, x.unwritten);
  }

  lemma {:induction false} StampedValue(v: string, ttl: int, now: Time)
    ensures Stamped(v, ttl, now).value == v
  {
  }

  lemma {:induction false} RunRelease(s0: Sys, s: Sys, t: Tid, p: Pid, k: Key, out: Outcome) returns (s': Sys)
    requires Leads(s0, s) && t in s.threads && s.threads[t].Slot() == Cell(p, k) && s.threads[t].pc == Publish(out)
    requires p !in s.sfMu
    ensures Leads(s0, s') && OnlyMoves(s, s', t, Done(out, Led))
    ensures s'.sf == s.sf - {Cell(p, k)} && s'.sfMu == s.sfMu
    ensures s'.l1 == s.l1 && s'.tombs == s.tombs && s'.lastPrune == s.lastPrune && s'.store == s.store &&
      s'.tombTTL == s.tombTTL
  {
    hide Leads;
    var a := StepTo(s0, s, t, Go, Close(out));
    var b := StepTo(s0, a, t, Go, Release(out));
    s' := StepTo(s0, b, t, Go, Done(out, Led));
  }

  // ----- any sequence of calls -----

  /** A call of the class with what its environment does. */
  datatype ClassCall =
    | Reading(k: Key, now: Time, later: Time, broken: bool)
    | Writing(k: Key, v: string, ttl: int, now: Time, broken: bool)
    | Dropping(k: Key, now: Time, del: T.Deletion)
    | Filling(k: Key, budget: nat, x: T.Ambience)

  function OpOf(call: ClassCall): Op {
    match call
    case Reading(k, _, _, _) => Get(k)
    case Writing(k, v, ttl, _, _) => Set(k, v, ttl)
    case Dropping(k, _, _) => Invalidate(k)
    case Filling(k, budget, _) => GetOrCompute(k, budget)
  }

  function ClassState(cfg: T.Config, q: T.State, call: ClassCall): T.State {
    match call
    case Reading(k, now, later, broken) => T.Getting(cfg, q, k, now, later, broken)
    case Writing(k, v, ttl, now, broken) => T.Setting(cfg, q, k, v, ttl, now, broken)
    case Dropping(k, now, del) => T.Invalidating(cfg, q, k, now, del)
    case Filling(k, _, x) => T.Computing(cfg, q, k, x)
  }

  function ClassAnswer(cfg: T.Config, q: T.State, call: ClassCall): Outcome {
    match call
    case Reading(k, now, later, broken) => OutcomeOf(T.GetResult(cfg, q, k, now, later, broken))
    case Writing(k, _, _, _, broken) => SetAnswer(cfg, k, broken)
    case Dropping(k, _, del) => InvalidateAnswer(cfg, k, del)
    case Filling(k, _, x) => ComputeAnswer(T.ComputeResult(cfg, q, k, x))
  }

  function ClassStates(cfg: T.Config, q: T.State, calls: seq<ClassCall>): T.State
    decreases |calls|
  {
    if calls == [] then q else ClassStates(cfg, ClassState(cfg, q, calls[0]), calls[1..])
  }

  function ClassAnswers(cfg: T.Config, q: T.State, calls: seq<ClassCall>): seq<Outcome>
    decreases |calls|
  {
    if calls == [] then []
    else [ClassAnswer(cfg, q, calls[0])] + ClassAnswers(cfg, ClassState(cfg, q, calls[0]), calls[1..])
  }

  /** Process p uses no cross-process lock and nobody is in its single-flight section. */
  ghost predicate Idle(s: Sys, p: Pid) {
    p !in s.guarded && p !in s.sfMu && forall k :: Cell(p, k) !in s.sf
  }

  /** The calls are waiting, each in a thread of its own. */
  ghost predicate Queued(s: Sys, p: Pid, ts: seq<Tid>, calls: seq<ClassCall>) {
    && |ts| == |calls|
    && (forall i, j | 0 <= i < j < |ts| :: ts[i] != ts[j])
    && forall i | 0 <= i < |ts| :: Waiting(s, ts[i], p, OpOf(calls[i]))
  }

  lemma {:induction false} SoloCall(
      s: Sys, t: Tid, p: Pid, cfg: T.Config, q: T.State, call: ClassCall) returns (s': Sys)
    requires Mirrors(s, p, cfg, q) && Waiting(s, t, p, OpOf(call)) && Idle(s, p)
    ensures Leads(s, s') && Returned(s, s', t, ClassAnswer(cfg, q, call)) && Idle(s', p)
    ensures Mirrors(s', p, cfg, ClassState(cfg, q, call))
  {
    hide Mirrors, Leads, T.GetResult, T.Getting, T.Setting, T.Invalidating, T.ComputeResult, T.Computing;
    match call
    case Reading(k, now, later, broken) => s' := SoloGet(s, t, p, cfg, q, k, now, later, broken);
    case Writing(k, v, ttl, now, broken) => s' := SoloSet(s, t, p, cfg, q, k, v, ttl, now, broken);
    case Dropping(k, now, del) => s' := SoloInvalidate(s, t, p, cfg, q, k, now, del);
    case Filling(k, budget, x) => s' := SoloGetOrCompute(s, t, p, budget, cfg, q, k, x);
  }

  /** Call t has returned `out`. */
  predicate HasReturned(s: Sys, t: Tid, out: Outcome) {
    t in s.threads && s.threads[t].pc.Done? && s.threads[t].pc.out == out
  }

  lemma {:induction false} StillQueued(
      s: Sys, s': Sys, p: Pid, ts: seq<Tid>, calls: seq<ClassCall>, out: Outcome)
    requires Queued(s, p, ts, calls) && ts != [] && Returned(s, s', ts[0], out)
    ensures Queued(s', p, ts[1..], calls[1..])
  {
    hide OpOf;
    forall i | 0 <= i < |ts[1..]|
      ensures Waiting(s', ts[1..][i], p, OpOf(calls[1..][i]))
    {
      assert Waiting(s, ts[i + 1], p, OpOf(calls[i + 1]));
    }
  }

  /**
    A class run by one caller is a run of the step system: for every sequence of calls there is a
    run in which they take place one after the other, each returns what the class returns, and
    the process ends up with the class's maps. Calls that are not in the sequence do not move.
   */
  lemma {:induction false} SequenceIsARun(
      s: Sys, p: Pid, cfg: T.Config, q: T.State, ts: seq<Tid>, calls: seq<ClassCall>) returns (s': Sys)
    requires Mirrors(s, p, cfg, q) && Queued(s, p, ts, calls) && Idle(s, p)
    ensures Leads(s, s') && Mirrors(s', p, cfg, ClassStates(cfg, q, calls)) && Idle(s', p)
    ensures |ClassAnswers(cfg, q, calls)| == |ts|
    ensures forall i | 0 <= i < |ts| :: HasReturned(s', ts[i], ClassAnswers(cfg, q, calls)[i])
    ensures forall t | t in s.threads && t !in ts :: t in s'.threads && s'.threads[t] == s.threads[t]
    decreases |calls|
  {
    hide Mirrors, Leads, Idle, ClassState, ClassAnswer, OpOf;
    if calls == [] {
      LeadsRefl(s);
      s' := s;
    } else {
      var out, q1 := ClassAnswer(cfg, q, calls[0]), ClassState(cfg, q, calls[0]);
      var s1 := SoloCall(s, ts[0], p, cfg, q, calls[0]);
      StillQueued(s, s1, p, ts, calls, out);
      assert HasReturned(s1, ts[0], out) && ts[0] !in ts[1..];
      s' := SequenceIsARun(s1, p, cfg, q1, ts[1..], calls[1..]);
      LeadsTrans(s, s1, s');
      var outs := ClassAnswers(cfg, q1, calls[1..]);
      assert ClassAnswers(cfg, q, calls) == [out] + outs;
      forall i | 0 <= i < |ts|
        ensures HasReturned(s', ts[i], ClassAnswers(cfg, q, calls)[i])
      {
        if i > 0 { assert HasReturned(s', ts[1..][i - 1], outs[i - 1]); }
      }
    }
  }
}
