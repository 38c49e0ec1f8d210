/**
  The throttled sweep keeps the tombstone map small: right after any Invalidate, every
  tombstone of that process is younger than twice the retention time.
 */
module TombstoneAge {
  import opened Prelude
  import opened CacheEntry
  import opened Protocol
  import opened Freshness

  /** Label l is the lock section of an Invalidate of process p. */
  predicate InvalidatesIn(s: Sys, l: Label, p: Pid) {
    l.Step? && l.t in s.threads && s.threads[l.t].p == p && s.threads[l.t].pc.InvLock?
  }

  /** The Invalidates of process p before label m take the lock in the order of their clock readings. */
  ghost predicate InvalidatesInOrder(tr: seq<Sys>, ls: seq<Label>, p: Pid, m: nat)
    requires m <= |ls| <= |tr|
  {
    forall i, j | 0 <= i < j < m && InvalidatesIn(tr[i], ls[i], p) && InvalidatesIn(tr[j], ls[j], p) ::
      tr[i].threads[ls[i].t].pc.now <= tr[j].threads[ls[j].t].pc.now
  }

  /** Tombstones of p are at least as young as the last sweep's cutoff, and there are none before the first sweep. */
  ghost predicate SweptInv(s: Sys, p: Pid, d: Time) {
    && Lookup(s.tombTTL, p) == Some(d)
    && forall c | c in s.tombs && c.p == p :: p in s.lastPrune && s.lastPrune[p] - d <= s.tombs[c]
  }

  /** Every stamp and sweep so far is no later than `now`. */
  ghost predicate NoneAfter(s: Sys, p: Pid, now: Time) {
    && (p in s.lastPrune ==> s.lastPrune[p] <= now)
    && (forall c | c in s.tombs && c.p == p :: s.tombs[c] <= now)
  }

  lemma {:induction false} SweptStep(s: Sys, l: Label, p: Pid, d: Time)
    requires Next(s, l).Some? && SweptInv(s, p, d) && 0 < d
    requires InvalidatesIn(s, l, p) ==> NoneAfter(s, p, s.threads[l.t].pc.now)
    ensures SweptInv(Next(s, l).value, p, d)
  {
    hide Advance;
  }

  lemma {:induction false} LatestStep(s: Sys, l: Label, p: Pid, now: Time)
    requires Next(s, l).Some? && NoneAfter(s, p, now)
    requires InvalidatesIn(s, l, p) ==> s.threads[l.t].pc.now <= now
    ensures NoneAfter(Next(s, l).value, p, now)
  {
    hide Advance;
  }

  lemma {:induction false} Latest(tr: seq<Sys>, ls: seq<Label>, p: Pid, i: nat, m: nat)
    requires Run(tr, ls) && i <= m < |ls| && InvalidatesInOrder(tr, ls, p, m + 1) && InvalidatesIn(tr[m], ls[m], p)
    ensures NoneAfter(tr[i], p, tr[m].threads[ls[m].t].pc.now)
  {
    if i > 0 {
      Latest(tr, ls, p, i - 1, m);
      assert Next(tr[i - 1], ls[i - 1]) == Some(tr[i]);
      LatestStep(tr[i - 1], ls[i - 1], p, tr[m].threads[ls[m].t].pc.now);
    }
  }

  lemma {:induction false} SweptInvariant(tr: seq<Sys>, ls: seq<Label>, p: Pid, d: Time, i: nat)
    requires Run(tr, ls) && i < |tr| && InvalidatesInOrder(tr, ls, p, i)
    requires Lookup(tr[0].tombTTL, p) == Some(d) && 0 < d
    ensures SweptInv(tr[i], p, d)
  {
    if i > 0 {
      SweptInvariant(tr, ls, p, d, i - 1);
      assert Next(tr[i - 1], ls[i - 1]) == Some(tr[i]);
      if InvalidatesIn(tr[i - 1], ls[i - 1], p) { Latest(tr, ls, p, i - 1, i - 1); }
      SweptStep(tr[i - 1], ls[i - 1], p, d);
    }
  }

  lemma {:induction false} FreshAfterInvalidate(s: Sys, l: Label, p: Pid, d: Time)
    requires Next(s, l).Some? && SweptInv(s, p, d) && 0 < d && InvalidatesIn(s, l, p)
    requires NoneAfter(s, p, s.threads[l.t].pc.now)
    ensures var s', now := Next(s, l).value, s.threads[l.t].pc.now;
      forall c | c in s'.tombs && c.p == p :: now - 2 * d < s'.tombs[c] <= now
  {
    hide Advance;
  }

  /**
    With a positive retention time d, and Invalidates that lock in clock order, right after an
    Invalidate at `now` every tombstone of its process carries a stamp in (now - 2d, now].
   */
  lemma {:induction false} TombstonesAreYoung(tr: seq<Sys>, ls: seq<Label>, p: Pid, d: Time, m: nat)
    requires Run(tr, ls) && m < |ls| && InvalidatesInOrder(tr, ls, p, m + 1)
    requires Lookup(tr[0].tombTTL, p) == Some(d) && 0 < d
    requires InvalidatesIn(tr[m], ls[m], p)
    ensures var now := tr[m].threads[ls[m].t].pc.now;
      forall c | c in tr[m + 1].tombs && c.p == p :: now - 2 * d < tr[m + 1].tombs[c] <= now
  {
    SweptInvariant(tr, ls, p, d, m);
    Latest(tr, ls, p, m, m);
    assert Next(tr[m], ls[m]) == Some(tr[m + 1]);
    FreshAfterInvalidate(tr[m], ls[m], p, d);
  }

  // ----- how often the map is swept -----

  /** Label l is an Invalidate of process p that sweeps its tombstones. */
  predicate SweepsIn(s: Sys, l: Label, p: Pid) {
    InvalidatesIn(s, l, p) && Sweeps(s, p, s.threads[l.t].pc.now)
  }

  lemma {:induction false} SweepRecorded(s: Sys, l: Label, p: Pid)
    requires Next(s, l).Some?
    ensures var s' := Next(s, l).value;
      && s'.tombTTL == s.tombTTL
      && Lookup(s'.lastPrune, p) == if SweepsIn(s, l, p) then Some(s.threads[l.t].pc.now) else Lookup(s.lastPrune, p)
  {
    hide Advance;
  }

  lemma {:induction false} LastSweepStays(tr: seq<Sys>, ls: seq<Label>, p: Pid, i: nat, j: nat)
    requires Run(tr, ls) && i < j < |tr| && SweepsIn(tr[i], ls[i], p)
    ensures p in tr[j].lastPrune && Stamp(tr[i], ls[i]) <= tr[j].lastPrune[p] && tr[j].tombTTL == tr[i].tombTTL
    decreases j - i
  {
    var s, l := tr[j - 1], ls[j - 1];
    assert Next(s, l) == Some(tr[j]);
    if i < j - 1 { LastSweepStays(tr, ls, p, i, j - 1); }
    SweepRecorded(s, l, p);
    assert SweepsIn(s, l, p) && i < j - 1 ==> s.lastPrune[p] <= s.threads[l.t].pc.now;
    hide Run, Next;
  }

  /** Two sweeps of one process are at least the retention time apart. */
  lemma {:induction false} SweepsAreApart(tr: seq<Sys>, ls: seq<Label>, p: Pid, i: nat, j: nat)
    requires Run(tr, ls) && i < j < |ls| && SweepsIn(tr[i], ls[i], p) && SweepsIn(tr[j], ls[j], p)
    ensures p in tr[i].tombTTL && tr[i].tombTTL[p] <= Stamp(tr[j], ls[j]) - Stamp(tr[i], ls[i])
  {
    LastSweepStays(tr, ls, p, i, j);
    hide Run;
  }

  // ----- how many there are -----

  /** Every tombstone is the stamp of an Invalidate of its cell. */
  lemma {:induction false} TombHasInvalidate(tr: seq<Sys>, ls: seq<Label>, c: Cell, i: nat) returns (j: nat)
    requires Run(tr, ls) && i < |tr| && c in tr[i].tombs
    ensures j < i && InvalidatesCell(tr[j], ls[j], c) && Stamp(tr[j], ls[j]) == tr[i].tombs[c]
  {
    assert i > 0;
    var s, l := tr[i - 1], ls[i - 1];
    assert Next(s, l) == Some(tr[i]);
    hide Run, Next;
    if InvalidatesCell(s, l, c) {
      InvalidateStamps(s, l, c);
      j := i - 1;
    } else {
      if Touches(s, l, c) { TouchClears(s, l, c); }
      UntouchedTomb(s, l, c);
      j := TombHasInvalidate(tr, ls, c, i - 1);
    }
  }

  /** Label j invalidates a cell of process p and carries a stamp in (now - 2d, now]. */
  predicate RecentlyInvalidated(s: Sys, l: Label, c: Cell, p: Pid, now: Time, d: Time) {
    c.p == p && InvalidatesCell(s, l, c) && now - 2 * d < Stamp(s, l) <= now
  }

  /**
    The tombstone map cannot outgrow the recent past: right after an Invalidate at `now`, every
    tombstoned cell of its process was invalidated at an instant in (now - 2d, now], so there
    are at most as many of them as cells that were.
   */
  lemma {:induction false} TombstonesAreRecentKeys(
      tr: seq<Sys>, ls: seq<Label>, p: Pid, d: Time, m: nat, recent: set<Cell>)
    requires Run(tr, ls) && m < |ls| && InvalidatesInOrder(tr, ls, p, m + 1)
    requires Lookup(tr[0].tombTTL, p) == Some(d) && 0 < d
    requires InvalidatesIn(tr[m], ls[m], p)
    requires forall j, c | 0 <= j <= m && RecentlyInvalidated(tr[j], ls[j], c, p, Stamp(tr[m], ls[m]), d) :: c in recent
    ensures var tombed := set c | c in tr[m + 1].tombs && c.p == p;
      tombed <= recent && |tombed| <= |recent|
  {
    TombstonesAreYoung(tr, ls, p, d, m);
    var now := Stamp(tr[m], ls[m]);
    var tombed := set c | c in tr[m + 1].tombs && c.p == p;
    forall c | c in tombed
      ensures c in recent
    {
      var j := TombHasInvalidate(tr, ls, c, m + 1);
      assert RecentlyInvalidated(tr[j], ls[j], c, p, now, d);
    }
    hide Run, InvalidatesInOrder;
    Included(tombed, recent);
  }

  lemma {:induction false} Included(a: set<Cell>, b: set<Cell>)
    requires a <= b
    ensures |a| <= |b|
  {
    assert b == a + (b - a);
  }
}
