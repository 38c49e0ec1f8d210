/**
  WithTombstoneTTL(d) cannot be observed under its documented contract: if every entry in the
  system expires within d of being stored, a cache that prunes tombstones older than d and one
  that keeps them for ever answer every operation sequence alike. No assumption is made about
  the store beyond that: its writes may fail, its deletes may be ignored, and rows may lag.
 */
module PruningInvisible {
  import opened Prelude
  import opened CacheEntry
  import opened TtlCache
  import opened TtlRefinement

  /** The lifetime contract: stored before it expires, and expired within d of being stored. */
  predicate Mortal(e: Entry, d: Time) {
    e.expiresAt.Some? && e.storedAt < e.expiresAt.value <= e.storedAt + d
  }

  predicate Contracted(op: Op, d: Time) {
    match op
    case Set(_, _, ttl, now, _) => 0 < ttl <= d && now + ttl != 0
    case Lag(_, row) => Mortal(Decode(row), d)
    case _ => true
  }

  ghost predicate AllMortal(s: State, d: Time) {
    && (forall k | k in s.l1 :: Mortal(s.l1[k], d))
    && (forall k | k in s.rows :: Mortal(Decode(s.rows[k]), d))
  }

  /** The pruning cache p and the keeping cache u differ only in tombstones that no longer matter. */
  ghost predicate Alike(p: State, u: State, clock: Time, d: Time) {
    && p.l1 == u.l1 && p.rows == u.rows && AllMortal(p, d)
    && (forall k | k in p.tombs :: k in u.tombs && u.tombs[k] == p.tombs[k])
    && (forall k | k in u.tombs && k !in p.tombs :: u.tombs[k] + d < clock)
  }

  /** The answer of a Get operation; other operations have nothing to compare. */
  function GetAnswer(cfg: Config, s: State, op: Op): Option<Result<Option<string>, Error>> {
    match op
    case Get(k, now, later, broken) => Some(GetResult(cfg, s, k, now, later, broken))
    case _ => None
  }

  lemma {:induction false} SameWithoutPruning(p: State, u: State, k: string, e: Entry, now: Time, clock: Time, d: Time)
    requires Alike(p, u, clock, d) && Mortal(e, d) && clock <= now
    ensures Servable(e, Lookup(p.tombs, k), now) == Servable(e, Lookup(u.tombs, k), now)
  {
  }

  lemma {:induction false} GetAlike(
      cp: Config, cu: Config, p: State, u: State, clock: Time, k: string, now: Time, later: Time, broken: bool)
    requires 0 < cp.tombTTL && cp.stored == cu.stored
    requires Alike(p, u, clock, cp.tombTTL) && clock <= now <= later
    ensures GetResult(cp, p, k, now, later, broken) == GetResult(cu, u, k, now, later, broken)
    ensures Alike(Getting(cp, p, k, now, later, broken), Getting(cu, u, k, now, later, broken), later, cp.tombTTL)
  {
    if k in p.l1 { SameWithoutPruning(p, u, k, p.l1[k], now, clock, cp.tombTTL); }
    if k in p.rows { SameWithoutPruning(p, u, k, Decode(p.rows[k]), later, clock, cp.tombTTL); }
    hide Servable;
  }

  lemma {:induction false} SetAlike(
      cp: Config, cu: Config, p: State, u: State, clock: Time, k: string, v: string, ttl: int, now: Time, broken: bool)
    requires cp.stored == cu.stored && Alike(p, u, clock, cp.tombTTL) && clock <= now
    requires 0 < ttl <= cp.tombTTL && now + ttl != 0
    ensures Alike(Setting(cp, p, k, v, ttl, now, broken), Setting(cu, u, k, v, ttl, now, broken), now, cp.tombTTL)
  {
    RereadExact(Stamped(v, ttl, now));
  }

  lemma {:induction false} InvalidateAlike(
      cp: Config, cu: Config, p: State, u: State, clock: Time, k: string, now: Time, del: Deletion)
    requires 0 < cp.tombTTL && cu.tombTTL <= 0 && cp.stored == cu.stored
    requires Alike(p, u, clock, cp.tombTTL) && clock <= now
    ensures Alike(Invalidating(cp, p, k, now, del), Invalidating(cu, u, k, now, del), now, cp.tombTTL)
  {
  }

  lemma {:induction false} AlikeStep(cp: Config, cu: Config, p: State, u: State, clock: Time, op: Op)
    requires 0 < cp.tombTTL && cu.tombTTL <= 0 && cp.stored == cu.stored
    requires Alike(p, u, clock, cp.tombTTL) && Onward(clock, op) && Contracted(op, cp.tombTTL)
    ensures GetAnswer(cp, p, op) == GetAnswer(cu, u, op)
    ensures Alike(Do(cp, p, op), Do(cu, u, op), Clock(clock, [op]), cp.tombTTL)
  {
    match op
    case Get(k, now, later, broken) => GetAlike(cp, cu, p, u, clock, k, now, later, broken);
    case Set(k, v, ttl, now, broken) => SetAlike(cp, cu, p, u, clock, k, v, ttl, now, broken);
    case Invalidate(k, now, del) => InvalidateAlike(cp, cu, p, u, clock, k, now, del);
    case Lag(k, row) => assert [op][..0] == [];
  }

  /** A run with an onward clock in which every operation keeps the lifetime contract. */
  ghost predicate ContractedRun(start: Time, ops: seq<Op>, d: Time) {
    forall i | 0 <= i < |ops| :: Onward(Clock(start, ops[..i]), ops[i]) && Contracted(ops[i], d)
  }

  lemma {:induction false} AlikeAfter(cp: Config, cu: Config, p: State, u: State, start: Time, ops: seq<Op>)
    requires 0 < cp.tombTTL && cu.tombTTL <= 0 && cp.stored == cu.stored
    requires Alike(p, u, start, cp.tombTTL) && ContractedRun(start, ops, cp.tombTTL)
    ensures Alike(DoAll(cp, p, ops), DoAll(cu, u, ops), Clock(start, ops), cp.tombTTL)
  {
    if ops != [] {
      var n := |ops| - 1;
      assert forall i | 0 <= i < n :: ops[..n][..i] == ops[..i];
      AlikeAfter(cp, cu, p, u, start, ops[..n]);
      AlikeStep(cp, cu, DoAll(cp, p, ops[..n]), DoAll(cu, u, ops[..n]), Clock(start, ops[..n]), ops[n]);
      assert [ops[n]][..0] == [];
    }
  }

  /** Every Get of every contracted run answers the same with pruning as without. */
  lemma {:induction false} PruningIsInvisible(
      cp: Config, cu: Config, s: State, start: Time, ops: seq<Op>, i: nat)
    requires 0 < cp.tombTTL && cu.tombTTL <= 0 && cp.stored == cu.stored
    requires AllMortal(s, cp.tombTTL) && ContractedRun(start, ops, cp.tombTTL) && i < |ops|
    ensures GetAnswer(cp, DoAll(cp, s, ops[..i]), ops[i]) == GetAnswer(cu, DoAll(cu, s, ops[..i]), ops[i])
  {
    assert forall j | 0 <= j < i :: ops[..i][..j] == ops[..j];
    AlikeAfter(cp, cu, s, s, start, ops[..i]);
    AlikeStep(cp, cu, DoAll(cp, s, ops[..i]), DoAll(cu, s, ops[..i]), Clock(start, ops[..i]), ops[i]);
  }

  // ----- the supersede decision of GetOrCompute -----

  /**
    During a compute that began at t0 in states p0, u0: a tombstone of the keeping cache is either
    from during the compute, and then the pruning cache has it too, or it was there before.
   */
  ghost predicate Window(p0: State, u0: State, p: State, u: State, t0: Time, k: string) {
    && (k in p.tombs ==> k in u.tombs && u.tombs[k] == p.tombs[k])
    && (k in u.tombs ==>
          || (k in p.tombs && t0 <= u.tombs[k])
          || (k in u0.tombs && u.tombs[k] == u0.tombs[k] && (k in p.tombs ==> k in p0.tombs)))
  }

  lemma {:induction false} WindowStep(
      cp: Config, cu: Config, p0: State, u0: State, p: State, u: State, t0: Time, k: string, clock: Time, op: Op)
    requires 0 < cp.tombTTL && cu.tombTTL <= 0 && Window(p0, u0, p, u, t0, k)
    requires t0 <= clock && Onward(clock, op) && Clock(clock, [op]) <= t0 + cp.tombTTL
    ensures Window(p0, u0, Do(cp, p, op), Do(cu, u, op), t0, k)
  {
    assert [op][..0] == [];
  }

  lemma {:induction false} WindowAfter(
      cp: Config, cu: Config, p: State, u: State, t0: Time, ops: seq<Op>, k: string)
    requires 0 < cp.tombTTL && cu.tombTTL <= 0 && cp.stored == cu.stored
    requires Alike(p, u, t0, cp.tombTTL) && ContractedRun(t0, ops, cp.tombTTL)
    requires Clock(t0, ops) <= t0 + cp.tombTTL
    ensures t0 <= Clock(t0, ops)
    ensures Window(p, u, DoAll(cp, p, ops), DoAll(cu, u, ops), t0, k)
  {
    if ops != [] {
      var n := |ops| - 1;
      assert forall i | 0 <= i < n :: ops[..n][..i] == ops[..i];
      assert Clock(t0, ops[..n]) <= Clock(t0, ops) by { assert Onward(Clock(t0, ops[..n]), ops[n]); }
      WindowAfter(cp, cu, p, u, t0, ops[..n], k);
      assert [ops[n]][..0] == [];
      WindowStep(cp, cu, p, u, DoAll(cp, p, ops[..n]), DoAll(cu, u, ops[..n]), t0, k, Clock(t0, ops[..n]), ops[n]);
    }
  }

  /**
    Whatever contracted operations come between the snapshot (at t0) and the check, if the compute
    takes at most d, the pruning cache decides to write back exactly when the keeping cache does.
   */
  lemma {:induction false} SupersedeDecisionsAgree(
      cp: Config, cu: Config, p: State, u: State, t0: Time, ops: seq<Op>, k: string)
    requires 0 < cp.tombTTL && cu.tombTTL <= 0 && cp.stored == cu.stored
    requires Alike(p, u, t0, cp.tombTTL) && ContractedRun(t0, ops, cp.tombTTL)
    requires Clock(t0, ops) <= t0 + cp.tombTTL
    ensures Superseded(Lookup(p.tombs, k), Lookup(DoAll(cp, p, ops).tombs, k))
         == Superseded(Lookup(u.tombs, k), Lookup(DoAll(cu, u, ops).tombs, k))
  {
    WindowAfter(cp, cu, p, u, t0, ops, k);
  }

  // ----- the contract is needed -----

  /** With an entry that never expires, one sweep is enough to serve an invalidated value again. */
  lemma {:induction false} ImmortalEntryOutlivesItsTombstone(k: string, j: string, v: string)
    requires k != "" && j != "" && k != j
    ensures var s := State(map[], map[], None, map[]);
      var ops := [Set(k, v, 0, 0, false), Invalidate(k, 1, Ignored), Invalidate(j, 9, Ignored)];
      && GetResult(Config(true, 5), DoAll(Config(true, 5), s, ops), k, 9, 9, false) == Ok(Some(v))
      && GetResult(Config(true, 0), DoAll(Config(true, 0), s, ops), k, 9, 9, false) == Ok(None)
  {
    var s := State(map[], map[], None, map[]);
    var ops := [Set(k, v, 0, 0, false), Invalidate(k, 1, Ignored), Invalidate(j, 9, Ignored)];
    assert ops[..2] == [ops[0], ops[1]] && ops[..2][..1] == [ops[0]] && ops[..2][..1][..0] == [];
    Replay(Config(true, 5), s, ops);
    Replay(Config(true, 0), s, ops);
  }

  lemma {:induction false} Replay(cfg: Config, s: State, ops: seq<Op>)
    requires |ops| == 3
    ensures DoAll(cfg, s, ops) == Do(cfg, Do(cfg, Do(cfg, s, ops[0]), ops[1]), ops[2])
  {
    hide Do;
    assert ops[..2][..1][..0] == [] && ops[..2][..1][0] == ops[0];
    assert DoAll(cfg, s, ops[..2][..1]) == Do(cfg, s, ops[0]);
    assert DoAll(cfg, s, ops[..2]) == Do(cfg, Do(cfg, s, ops[0]), ops[1]);
  }
}
