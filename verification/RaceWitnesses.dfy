/**
  Where the hypotheses of the other modules cannot be dropped: concrete runs, for every key
  and value, in which an Invalidate that has returned does not stop a stale serve, or two
  guarded processes both compute although the first one's result was in the store.
 */
module RaceWitnesses {
  import opened Prelude
  import opened CacheEntry
  import opened Protocol
  import opened Reachability

  predicate ReturnedValue(s: Sys, t: Tid, v: string) { At(s, t, Done(Value(v), Direct)) }

  // ----- an Invalidate between the supersede check and the write-back -----

  function Trio(k: Key): Sys {
    Sys({}, map[], 0, map[], map[], map[], map[], map[], map[], map[], {},
      map[1 := Thread(0, GetOrCompute(k, 0), Start), 2 := Thread(0, Invalidate(k), Start),
          3 := Thread(0, Get(k), Start)],
      {}, {})
  }

  /** A fresh state with a GetOrCompute (1), an Invalidate (2) and a Get (3) of one cell waiting to begin. */
  ghost predicate ThreeCalls(s: Sys) {
    && Init(s) && s.guarded == {} && s.tombTTL == map[]
    && s.threads.Keys == {1, 2, 3}
    && s.threads[1].op.GetOrCompute? && s.threads[2].op.Invalidate? && s.threads[3].op.Get?
    && s.threads[1].op.k != ""
    && s.threads[2].Slot() == s.threads[1].Slot() == s.threads[3].Slot()
  }

  lemma {:induction false} ThreeCallsExist(k: Key)
    requires k != ""
    ensures ThreeCalls(Trio(k)) && Trio(k).threads[1].op.k == k
  {
  }

  /** It computes v, which never expires. */
  lemma {:induction false} OwnerComputes(s0: Sys, s: Sys, t: Tid, c: Cell, v: string) returns (s': Sys)
    requires Leads(s0, s) && At(s, t, Register) && s.threads[t].Slot() == c && c.p !in s.guarded && c !in s.tombs
    ensures Leads(s0, s') && s'.threads == s.threads[t := s.threads[t].(pc := Supersede(Unguarded, None, v, 0))]
    ensures s'.tombTTL == s.tombTTL && s'.tombs == s.tombs && t in s'.wins
  {
    hide Leads;
    var a := StepTo(s0, s, t, Go, Snapshot(Unguarded));
    var b := StepTo(s0, a, t, Go, Compute(Unguarded, None));
    s' := StepTo(s0, b, t, Computes(v, 0), Supersede(Unguarded, None, v, 0));
  }

  /** It passes the check, and then the whole Invalidate runs. */
  lemma {:induction false} LoseInvalidate(s: Sys, t: Tid, u: Tid, c: Cell, v: string) returns (s': Sys)
    requires At(s, t, Supersede(Unguarded, None, v, 0)) && At(s, u, Start) && t != u
    requires s.threads[t].Slot() == s.threads[u].Slot() == c && c !in s.tombs
    requires s.threads[u].op == Invalidate(c.k) && c.k != ""
    ensures Leads(s, s') && s'.threads ==
      s.threads[t := s.threads[t].(pc := SetClock(WriteBack(Unguarded), v, 0))]
        [u := s.threads[u].(pc := Done(NoValue, Direct))]
  {
    hide Leads;
    LeadsRefl(s);
    assert !Superseded(None, Lookup(s.tombs, c));
    var a := StepTo(s, s, t, Go, SetClock(WriteBack(Unguarded), v, 0));
    var b := RunInvalidate(a, u, c.p, c.k, a.clock, false);
    LeadsTrans(s, a, b);
    s' := b;
  }

  /** The write-back's L1 section, and a Get that finds what it wrote. */
  lemma {:induction false} WriteThenGet(s: Sys, t: Tid, u: Tid, c: Cell, v: string) returns (s': Sys)
    requires At(s, t, SetClock(WriteBack(Unguarded), v, 0)) && At(s, u, Start) && t != u
    requires s.threads[t].Slot() == s.threads[u].Slot() == c && s.threads[u].op == Get(c.k) && c.k != ""
    ensures Leads(s, s') && ReturnedValue(s', u, v)
  {
    hide Leads;
    LeadsRefl(s);
    var e := Entry(v, s.clock, None);
    var a := StepTo(s, s, t, Go, SetL1(WriteBack(Unguarded), e));
    var b := StepTo(s, a, t, Go, SetL2(WriteBack(Unguarded), e));
    var d := StepTo(s, b, u, Go, GetClock(Plain));
    assert d.l1 == s.l1[c := e] && d.tombs == s.tombs - {c};
    assert HitsL1(d, c, d.clock);
    s' := RunProbe(s, d, u, c.p, c.k, Plain, d.clock);
  }

  /**
    An Invalidate that lands between the supersede check and the write-back is lost: the
    compute returned v before the Invalidate began (s1), the Invalidate has returned before
    the Get begins (s2), and the Get still answers v (s3), because the write-back's Set
    deletes the tombstone.
   */
  lemma {:induction false} InvalidateLostBeforeWriteBack(s0: Sys, v: string) returns (s1: Sys, s2: Sys, s3: Sys)
    requires ThreeCalls(s0)
    ensures Leads(s0, s1) && Leads(s1, s2) && Leads(s2, s3)
    ensures 1 in s1.wins && At(s1, 2, Start) && At(s1, 3, Start)
    ensures At(s2, 2, Done(NoValue, Direct)) && At(s2, 3, Start)
    ensures ReturnedValue(s3, 3, v)
  {
    hide Leads;
    var c := s0.threads[1].Slot();
    s1 := UpToTheCheck(s0, c, v);
    hide ThreeCalls, Init;
    s2 := LoseInvalidate(s1, 1, 2, c, v);
    s3 := WriteThenGet(s2, 1, 3, c, v);
  }

  lemma {:induction false} UpToTheCheck(s0: Sys, c: Cell, v: string) returns (s1: Sys)
    requires ThreeCalls(s0) && s0.threads[1].Slot() == c
    ensures Leads(s0, s1) && 1 in s1.wins && c !in s1.tombs && c.k != ""
    ensures At(s1, 1, Supersede(Unguarded, None, v, 0)) && s1.threads[1].Slot() == c
    ensures 2 in s1.threads && s1.threads[2] == Thread(c.p, Invalidate(c.k), Start)
    ensures 3 in s1.threads && s1.threads[3] == Thread(c.p, Get(c.k), Start)
  {
    hide Leads;
    var a := BecomesOwner(s0, 1, c);
    s1 := OwnerComputes(s0, a, 1, c, v);
  }

  // ----- a Set that follows an Invalidate inside the compute window -----

  function SetTrio(k: Key, u: string): Sys {
    Sys({}, map[], 0, map[], map[], map[], map[], map[], map[], map[], {},
      map[1 := Thread(0, GetOrCompute(k, 0), Start), 2 := Thread(0, Invalidate(k), Start),
          3 := Thread(0, Set(k, u, 0), Start)],
      {}, {})
  }

  /** A fresh state with a GetOrCompute (1), an Invalidate (2) and a Set (3) of one cell waiting to begin. */
  ghost predicate CallsWithSet(s: Sys, u: string) {
    && Init(s) && s.guarded == {} && s.tombTTL == map[] && s.threads.Keys == {1, 2, 3}
    && s.threads[1].op.GetOrCompute? && s.threads[1].op.k != ""
    && s.threads[2].op.Invalidate? && s.threads[3].op == Set(s.threads[1].op.k, u, 0)
    && s.threads[2].Slot() == s.threads[1].Slot() == s.threads[3].Slot()
  }

  lemma {:induction false} CallsWithSetExist(k: Key, u: string)
    requires k != ""
    ensures CallsWithSet(SetTrio(k, u), u) && SetTrio(k, u).threads[1].op.k == k
  {
  }

  /** A GetOrCompute that finds nothing gets as far as its compute, with no tombstone in its snapshot. */
  lemma {:induction false} UpToTheCompute(s: Sys, t: Tid, c: Cell) returns (s': Sys)
    requires Unhindered(s, t, c) && At(s, t, Start) && s.threads[t].op.GetOrCompute? && c.k != "" && c.p !in s.guarded
    ensures Leads(s, s') && s'.threads == s.threads[t := s.threads[t].(pc := Compute(Unguarded, None))]
    ensures s'.tombTTL == s.tombTTL
  {
    hide Leads;
    var a := BecomesOwner(s, t, c);
    var b := StepTo(s, a, t, Go, Snapshot(Unguarded));
    s' := StepTo(s, b, t, Go, Compute(Unguarded, None));
  }

  /** A whole Invalidate, and then a whole Set, run beside a waiting compute. */
  lemma {:induction false} InvalidateThenSet(s: Sys, c: Cell, u: string) returns (s1: Sys, s2: Sys)
    requires At(s, 1, Compute(Unguarded, None)) && s.threads[1].Slot() == c && c.k != ""
    requires At(s, 2, Start) && s.threads[2] == Thread(c.p, Invalidate(c.k), Start)
    requires At(s, 3, Start) && s.threads[3] == Thread(c.p, Set(c.k, u, 0), Start)
    ensures Leads(s, s1) && Leads(s1, s2)
    ensures s1.threads == s.threads[2 := s.threads[2].(pc := Done(NoValue, Direct))]
    ensures s2.threads == s1.threads[3 := s1.threads[3].(pc := Done(NoValue, Direct))]
    ensures Lookup(s2.l1, c) == Some(Entry(u, s.clock, None)) && c !in s2.tombs
  {
    hide Leads;
    s1 := RunInvalidate(s, 2, c.p, c.k, s.clock, false);
    s2 := RunSet(s1, 3, c.p, c.k, u, 0, s.clock, true, false);
  }

  /** The compute returns v and is written back, over what the Set put into L1. */
  lemma {:induction false} WritesBackAfterAll(s: Sys, c: Cell, v: string) returns (s': Sys)
    requires At(s, 1, Compute(Unguarded, None)) && s.threads[1].Slot() == c && c !in s.tombs
    ensures Leads(s, s') && c in s'.l1 && s'.l1[c].value == v && c !in s'.tombs
  {
    hide Leads;
    LeadsRefl(s);
    var a := StepTo(s, s, 1, Computes(v, 0), Supersede(Unguarded, None, v, 0));
    assert !Superseded(None, Lookup(a.tombs, c));
    var b := StepTo(s, a, 1, Go, SetClock(WriteBack(Unguarded), v, 0));
    var d := StepTo(s, b, 1, Go, SetL1(WriteBack(Unguarded), Entry(v, b.clock, None)));
    s' := StepTo(s, d, 1, Go, SetL2(WriteBack(Unguarded), Entry(v, b.clock, None)));
  }

  /**
    An Invalidate during a compute is forgotten when a Set follows it before the check, because
    the Set deletes the tombstone. The compute has begun (s1) when the Invalidate begins and has
    not returned when the Invalidate (s2) and then the Set (s3) have; all the same its value v
    ends up in L1, and not the newer value u of the Set (s4).
   */
  lemma {:induction false} InvalidateForgottenAfterSet(s0: Sys, u: string, v: string)
      returns (s1: Sys, s2: Sys, s3: Sys, s4: Sys)
    requires CallsWithSet(s0, u)
    ensures Leads(s0, s1) && Leads(s1, s2) && Leads(s2, s3) && Leads(s3, s4)
    ensures At(s1, 1, Compute(Unguarded, None)) && At(s1, 2, Start)
    ensures At(s2, 2, Done(NoValue, Direct)) && At(s2, 3, Start)
    ensures At(s3, 3, Done(NoValue, Direct)) && At(s3, 1, Compute(Unguarded, None))
    ensures var c := s0.threads[1].Slot();
      c in s3.l1 && s3.l1[c].value == u && c in s4.l1 && s4.l1[c].value == v && c !in s4.tombs
  {
    hide Leads;
    var c := s0.threads[1].Slot();
    s1 := UpToTheCompute(s0, 1, c);
    hide Init;
    s2, s3 := InvalidateThenSet(s1, c, u);
    s4 := WritesBackAfterAll(s3, c, v);
  }

  // ----- two Invalidates that lock in the opposite order of their clock readings -----

  function Quartet(k: Key, v: string): Sys {
    Sys({}, map[], 0, map[], map[], map[], map[], map[], map[], map[], {},
      map[1 := Thread(0, Set(k, v, 0), Start), 2 := Thread(0, Invalidate(k), Start),
          3 := Thread(0, Invalidate(k), Start), 4 := Thread(0, Get(k), Start)],
      {}, {})
  }

  /** A fresh state with a Set (1), two Invalidates (2, 3) and a Get (4) of one cell waiting to begin. */
  ghost predicate FourCalls(s: Sys, v: string) {
    && Init(s) && s.tombTTL == map[] && s.threads.Keys == {1, 2, 3, 4}
    && s.threads[1].op.k != "" && s.threads[1].op == Set(s.threads[1].op.k, v, 0)
    && s.threads[2].op.Invalidate? && s.threads[3].op.Invalidate? && s.threads[4].op.Get?
    && s.threads[2].Slot() == s.threads[1].Slot() == s.threads[3].Slot() == s.threads[4].Slot()
  }

  lemma {:induction false} FourCallsExist(k: Key, v: string)
    requires k != ""
    ensures FourCalls(Quartet(k, v), v) && Quartet(k, v).threads[1].op.k == k
  {
  }

  /** An Invalidate reads the clock and stops in front of the lock; then a whole Set runs, later. */
  lemma {:induction false} SetBetween(s: Sys, c: Cell, v: string) returns (s': Sys)
    requires At(s, 1, Start) && s.threads[1] == Thread(c.p, Set(c.k, v, 0), Start)
    requires At(s, 2, Start) && s.threads[2] == Thread(c.p, Invalidate(c.k), Start) && c.k != ""
    ensures Leads(s, s')
    ensures s'.threads ==
      s.threads[2 := s.threads[2].(pc := InvLock(s.clock))][1 := s.threads[1].(pc := Done(NoValue, Direct))]
    ensures s'.tombTTL == s.tombTTL && (c.k, Entry(v, s.clock + 1, None)) in s'.store
  {
    hide Leads;
    LeadsRefl(s);
    var a := StepTo(s, s, 2, Go, InvClock);
    var b := StepTo(s, a, 2, Go, InvLock(s.clock));
    assert Stamped(v, 0, s.clock + 1) == Reread(Entry(v, s.clock + 1, None)) == Entry(v, s.clock + 1, None);
    hide Stamped, Reread;
    s' := RunSet(b, 1, c.p, c.k, v, 0, s.clock + 1, true, false);
    LeadsTrans(s, b, s');
  }

  /** The Invalidate with the older reading takes the lock last, and a Get is answered from the store. */
  lemma {:induction false} StaleServe(s: Sys, c: Cell, stamp: Time, e: Entry) returns (s': Sys)
    requires At(s, 2, InvLock(stamp)) && s.threads[2].Slot() == c && s.threads[2].op == Invalidate(c.k)
    requires At(s, 4, Start) && s.threads[4] == Thread(c.p, Get(c.k), Start) && c.k != "" && s.tombTTL == map[]
    requires (c.k, e) in s.store && stamp < e.storedAt && e.expiresAt.None?
    ensures Leads(s, s') && ReturnedValue(s', 4, e.value)
  {
    hide Leads;
    LeadsRefl(s);
    var a := LocksLate(s, c, stamp);
    var b := StepTo(s, a, 4, Go, GetClock(Plain));
    var d := RunProbe(s, b, 4, c.p, c.k, Plain, b.clock);
    assert Servable(e, Some(stamp), d.clock);
    hide Servable;
    s' := RunFetch(s, d, 4, c.p, c.k, Plain, Found(e), d.clock);
  }

  lemma {:induction false} LocksLate(s: Sys, c: Cell, stamp: Time) returns (s': Sys)
    requires At(s, 2, InvLock(stamp)) && s.threads[2].Slot() == c && s.threads[2].op == Invalidate(c.k)
    requires s.tombTTL == map[]
    ensures Leads(s, s') && s'.threads == s.threads[2 := s.threads[2].(pc := Done(NoValue, Direct))]
    ensures c !in s'.l1 && Lookup(s'.tombs, c) == Some(stamp) && s'.store == s.store
  {
    hide Leads;
    LeadsRefl(s);
    s' := RunLocked(s, s, 2, c.p, c.k, stamp, false);
  }

  /**
    Invalidate writes its own clock reading over whatever tombstone is there. So when Invalidate 2
    reads the clock before Set 1 and locks after Invalidate 3, it moves the tombstone back: the
    Set has returned before Invalidate 3 begins (s1), Invalidate 3, which reads a later clock, has
    returned before the Get begins (s2), and the Get answers the invalidated value out of a store
    that ignored the delete.
   */
  lemma {:induction false} LateInvalidateMovesTombstoneBack(s0: Sys, v: string) returns (s1: Sys, s2: Sys, s3: Sys)
    requires FourCalls(s0, v)
    ensures Leads(s0, s1) && Leads(s1, s2) && Leads(s2, s3)
    ensures At(s1, 1, Done(NoValue, Direct)) && At(s1, 3, Start) && At(s1, 4, Start)
    ensures At(s2, 3, Done(NoValue, Direct)) && At(s2, 4, Start)
    ensures Lookup(s2.tombs, s0.threads[1].Slot()) == Some(s0.clock + 2)
    ensures (s0.threads[1].op.k, Entry(v, s0.clock + 1, None)) in s1.store
    ensures ReturnedValue(s3, 4, v)
  {
    hide Leads;
    var c := s0.threads[1].Slot();
    s1 := UpToTheSet(s0, c, v);
    hide FourCalls, Init;
    s2 := NewerInvalidate(s1, c, s0.clock + 2);
    s3 := StaleServe(s2, c, s0.clock, Entry(v, s0.clock + 1, None));
  }

  lemma {:induction false} UpToTheSet(s0: Sys, c: Cell, v: string) returns (s1: Sys)
    requires FourCalls(s0, v) && s0.threads[1].Slot() == c
    ensures Leads(s0, s1) && c.k != "" && s1.tombTTL == map[] && (c.k, Entry(v, s0.clock + 1, None)) in s1.store
    ensures At(s1, 1, Done(NoValue, Direct))
    ensures 2 in s1.threads && s1.threads[2] == Thread(c.p, Invalidate(c.k), InvLock(s0.clock))
    ensures 3 in s1.threads && s1.threads[3] == Thread(c.p, Invalidate(c.k), Start)
    ensures 4 in s1.threads && s1.threads[4] == Thread(c.p, Get(c.k), Start)
  {
    hide Leads;
    s1 := SetBetween(s0, c, v);
  }

  lemma {:induction false} NewerInvalidate(s: Sys, c: Cell, now: Time) returns (s': Sys)
    requires 3 in s.threads && s.threads[3] == Thread(c.p, Invalidate(c.k), Start) && c.k != "" && s.tombTTL == map[]
    ensures Leads(s, s') && s'.threads == s.threads[3 := s.threads[3].(pc := Done(NoValue, Direct))]
    ensures s'.tombTTL == map[] && s'.store == s.store && Lookup(s'.tombs, c) == Some(now)
  {
    hide Leads;
    s' := RunInvalidate(s, 3, c.p, c.k, now, false);
  }

  // ----- two processes that compute one after the other -----

  function Duo(k: Key): Sys {
    Sys({0, 1}, map[], 0, map[], map[], map[], map[], map[], map[], map[], {},
      map[1 := Thread(0, GetOrCompute(k, 0), Start), 2 := Thread(1, GetOrCompute(k, 0), Start)], {}, {})
  }

  /** A fresh state with GetOrComputes (1, 2) of one key in two processes that use the cross-process lock. */
  ghost predicate TwoGuarded(s: Sys) {
    && Init(s) && s.threads.Keys == {1, 2}
    && s.threads[1].op.GetOrCompute? && s.threads[2].op.GetOrCompute? && s.threads[1].op.k == s.threads[2].op.k != ""
    && s.threads[1].p != s.threads[2].p && s.threads[1].p in s.guarded && s.threads[2].p in s.guarded
  }

  lemma {:induction false} TwoGuardedExist(k: Key)
    requires k != ""
    ensures TwoGuarded(Duo(k)) && Duo(k).threads[1].op.k == k
  {
  }

  /** A GetOrCompute of a guarded process that finds nothing gets as far as asking for the lock. */
  lemma {:induction false} UpToTheLock(s: Sys, t: Tid, c: Cell) returns (s': Sys)
    requires Unhindered(s, t, c) && At(s, t, Start) && s.threads[t].op.GetOrCompute? && c.k != "" && c.p in s.guarded
    ensures Leads(s, s') && s'.threads == s.threads[t := s.threads[t].(pc := TryLock)]
    ensures s'.l1 == s.l1 && s'.tombs == s.tombs && s'.guarded == s.guarded && s'.xlock == s.xlock
    ensures s'.sfMu == s.sfMu && s'.sf == s.sf[c := t]
  {
    hide Leads;
    var a := BecomesOwner(s, t, c);
    s' := StepTo(s, a, t, Go, TryLock);
    assert s.sfMu[c.p := t] - {c.p} == s.sfMu;
  }

  /** It is granted the lock and computes v. */
  lemma {:induction false} HoldsAndComputes(s0: Sys, s: Sys, t: Tid, c: Cell, v: string) returns (s': Sys)
    requires Leads(s0, s) && At(s, t, TryLock) && s.threads[t].Slot() == c && c.k !in s.xlock && c !in s.tombs
    ensures Leads(s0, s') && s'.threads == s.threads[t := s.threads[t].(pc := Supersede(Holding, None, v, 0))]
    ensures s'.xlock == s.xlock[c.k := t] && s'.tombs == s.tombs && s'.store == s.store && s'.wins == s.wins + {t}
  {
    hide Leads;
    var a := StepTo(s0, s, t, LockReplies(true), Snapshot(Holding));
    var b := StepTo(s0, a, t, Go, Compute(Holding, None));
    s' := StepTo(s0, b, t, Computes(v, 0), Supersede(Holding, None, v, 0));
  }

  /** It writes v to L1 and to the store and gives the lock back. */
  lemma {:induction false} FinishesHolding(s0: Sys, s: Sys, t: Tid, c: Cell, v: string) returns (s': Sys)
    requires Leads(s0, s) && At(s, t, Supersede(Holding, None, v, 0)) && s.threads[t].Slot() == c && c !in s.tombs
    ensures Leads(s0, s') && s'.threads == s.threads[t := s.threads[t].(pc := Publish(Value(v)))]
    ensures s'.xlock == s.xlock - {c.k} && s'.tombs == s.tombs - {c} && s'.wins == s.wins
    ensures (c.k, Entry(v, s.clock, None)) in s'.store
  {
    hide Leads;
    var b := PassesTheCheck(s0, s, t, c, v);
    s' := WritesAndUnlocks(s0, b, t, c, Entry(v, s.clock, None));
  }

  lemma {:induction false} PassesTheCheck(s0: Sys, s: Sys, t: Tid, c: Cell, v: string) returns (s': Sys)
    requires Leads(s0, s) && At(s, t, Supersede(Holding, None, v, 0)) && s.threads[t].Slot() == c && c !in s.tombs
    ensures Leads(s0, s')
    ensures s'.threads == s.threads[t := s.threads[t].(pc := SetL1(WriteBack(Holding), Entry(v, s.clock, None)))]
    ensures s'.xlock == s.xlock && s'.tombs == s.tombs && s'.wins == s.wins
  {
    hide Leads;
    assert !Superseded(None, Lookup(s.tombs, c));
    var a := StepTo(s0, s, t, Go, SetClock(WriteBack(Holding), v, 0));
    s' := StepTo(s0, a, t, Go, SetL1(WriteBack(Holding), Entry(v, s.clock, None)));
  }

  lemma {:induction false} WritesAndUnlocks(s0: Sys, s: Sys, t: Tid, c: Cell, e: Entry) returns (s': Sys)
    requires Leads(s0, s) && At(s, t, SetL1(WriteBack(Holding), e)) && s.threads[t].Slot() == c && e.expiresAt == None
    ensures Leads(s0, s') && s'.threads == s.threads[t := s.threads[t].(pc := Publish(Value(e.value)))]
    ensures s'.xlock == s.xlock - {c.k} && s'.tombs == s.tombs - {c} && s'.wins == s.wins
    ensures (c.k, e) in s'.store
  {
    assert Reread(e) == e;
    hide Leads, Reread;
    var d := RunWrite(s0, s, t, c.p, c.k, WriteBack(Holding), e, true, false);
    s' := StepTo(s0, d, t, Go, Publish(Value(e.value)));
  }

  /**
    There is no re-check after the cross-process lock is granted. So two guarded processes can both
    compute a key, one after the other, without a poll that times out and without an expiry:
    process 2's call misses before process 1 is done; then 1 computes v, puts it in the store
    for good and unlocks (s1); then 2 is granted the lock and computes all the same (s2).
   */
  lemma {:induction false} SecondProcessComputesAgain(s0: Sys, v: string, w: string) returns (s1: Sys, s2: Sys)
    requires TwoGuarded(s0)
    ensures Leads(s0, s1) && Leads(s1, s2)
    ensures 1 in s1.wins && s0.threads[1].op.k !in s1.xlock && At(s1, 2, TryLock)
    ensures exists e :: (s0.threads[1].op.k, e) in s1.store && e.value == v && e.expiresAt == None
    ensures 1 in s2.wins && 2 in s2.wins && At(s2, 2, Supersede(Holding, None, w, 0))
  {
    hide Leads;
    var c, d := s0.threads[1].Slot(), s0.threads[2].Slot();
    var a := BothAtTheLock(s0, c, d);
    hide TwoGuarded, Init;
    s1 := FirstComputes(s0, a, c, d, v);
    LeadsRefl(s1);
    s2 := HoldsAndComputes(s1, s1, 2, d, w);
  }

  lemma {:induction false} FirstComputes(s0: Sys, s: Sys, c: Cell, d: Cell, v: string) returns (s': Sys)
    requires Leads(s0, s) && s.xlock == map[] && s.tombs == map[] && c.k == d.k
    requires At(s, 1, TryLock) && At(s, 2, TryLock) && s.threads[1].Slot() == c && s.threads[2].Slot() == d
    ensures Leads(s0, s') && 1 in s'.wins && c.k !in s'.xlock && d !in s'.tombs
    ensures At(s', 2, TryLock) && s'.threads[2].Slot() == d
    ensures exists e :: (c.k, e) in s'.store && e.value == v && e.expiresAt == None
  {
    hide Leads;
    var b := HoldsAndComputes(s0, s, 1, c, v);
    s' := FinishesHolding(s0, b, 1, c, v);
  }

  lemma {:induction false} BothAtTheLock(s0: Sys, c: Cell, d: Cell) returns (s: Sys)
    requires TwoGuarded(s0) && c == s0.threads[1].Slot() && d == s0.threads[2].Slot()
    ensures Leads(s0, s) && s.xlock == map[] && s.tombs == map[] && c.k == d.k
    ensures At(s, 1, TryLock) && At(s, 2, TryLock) && s.threads[1].Slot() == c && s.threads[2].Slot() == d
  {
    hide Leads;
    var a := UpToTheLock(s0, 2, d);
    s := UpToTheLock(a, 1, c);
    LeadsTrans(s0, a, s);
  }
}
