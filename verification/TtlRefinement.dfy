/**
  The cache is a TTL map: over any sequence of calls by one caller, Get answers the last Set
  since the last Invalidate as long as that is unexpired, and nothing else, through L1, L2,
  promotion, lazy eviction and serialisation, even when the store never honours a delete
  and a lagging writer puts invalidated rows back.
 */
module TtlRefinement {
  import opened Prelude
  import opened CacheEntry
  import opened TtlCache

  /** `Lag` is not a call: the store restores some earlier row of an invalidated key. */
  datatype Op =
    | Get(k: string, now: Time, later: Time, broken: bool)
    | Set(k: string, v: string, ttl: int, now: Time, broken: bool)
    | Invalidate(k: string, now: Time, del: Deletion)
    | Lag(k: string, row: Row)

  function Do(cfg: Config, s: State, op: Op): State {
    match op
    case Get(k, now, later, broken) => Getting(cfg, s, k, now, later, broken)
    case Set(k, v, ttl, now, broken) => Setting(cfg, s, k, v, ttl, now, broken)
    case Invalidate(k, now, del) => Invalidating(cfg, s, k, now, del)
    case Lag(k, row) => s.(rows := s.rows[k := row])
  }

  function DoAll(cfg: Config, s: State, ops: seq<Op>): State {
    if ops == [] then s else Do(cfg, DoAll(cfg, s, ops[..|ops| - 1]), ops[|ops| - 1])
  }

  /** The latest clock reading so far, starting from `start`. */
  function Clock(start: Time, ops: seq<Op>): Time {
    if ops == [] then start
    else match ops[|ops| - 1]
      case Get(_, _, later, _) => later
      case Set(_, _, _, now, _) => now
      case Invalidate(_, now, _) => now
      case Lag(_, _) => Clock(start, ops[..|ops| - 1])
  }

  /** The readings of one operation do not go back. */
  predicate Onward(clock: Time, op: Op) {
    match op
    case Get(_, now, later, _) => clock <= now <= later
    case Set(_, _, _, now, _) => clock <= now
    case Invalidate(_, now, _) => clock <= now
    case Lag(_, _) => true
  }

  /** Expiry at the epoch instant is the one expiry the store cannot represent. */
  predicate Representable(op: Op) { op.Set? && 0 < op.ttl ==> op.now + op.ttl != 0 }

  /**
    What the refinement needs of an operation in state s: an onward clock, a store whose writes
    succeed, and rows put back only for an invalidated key and not newer than its tombstone.
   */
  predicate Orderly(cfg: Config, s: State, clock: Time, op: Op) {
    && Onward(clock, op) && Representable(op)
    && (op.Set? ==> !op.broken)
    && (op.Lag? ==> cfg.stored && op.k in s.tombs && op.row.s <= s.tombs[op.k])
  }

  ghost predicate OrderlyRun(cfg: Config, s: State, start: Time, ops: seq<Op>) {
    forall i | 0 <= i < |ops| :: Orderly(cfg, DoAll(cfg, s, ops[..i]), Clock(start, ops[..i]), ops[i])
  }

  /** A fresh cache over the rows of a store, all written no later than `start`. */
  ghost predicate Begins(cfg: Config, s: State, start: Time) {
    && s.l1 == map[] && s.tombs == map[] && s.lastPrune == None
    && (!cfg.stored ==> s.rows == map[])
    && forall k | k in s.rows :: s.rows[k].s <= start
  }

  /** The abstract TTL map, read off the history: the last Set of k since its last Invalidate. */
  function LastWrite(rows: map<string, Row>, ops: seq<Op>, k: string): Option<Entry> {
    if ops == [] then if k in rows then Some(Decode(rows[k])) else None
    else
      var op := ops[|ops| - 1];
      if op.Set? && op.k == k then Some(Stamped(op.v, op.ttl, op.now))
      else if op.Invalidate? && op.k == k then None
      else LastWrite(rows, ops[..|ops| - 1], k)
  }

  /** How the concrete maps hold one key whose abstract entry is `w`. */
  predicate Holds(cfg: Config, s: State, k: string, w: Option<Entry>, clock: Time) {
    match w
    case None =>
      && k !in s.l1
      && (k in s.tombs ==> s.tombs[k] <= clock)
      && (cfg.stored && k in s.rows ==> k in s.tombs && s.rows[k].s <= s.tombs[k])
    case Some(e) =>
      && k !in s.tombs && e.storedAt <= clock && Reread(e) == e
      && (k in s.l1 ==> s.l1[k] == e)
      && (cfg.stored ==> k in s.rows && Decode(s.rows[k]) == e)
      && (!cfg.stored && k !in s.l1 ==> Expired(e, clock))
  }

  lemma {:induction false} HoldsStep(cfg: Config, s: State, op: Op, k: string, w: Option<Entry>, clock: Time)
    requires k != "" && cfg.tombTTL <= 0 && Holds(cfg, s, k, w, clock) && Orderly(cfg, s, clock, op)
    ensures var w' := if op.Set? && op.k == k then Some(Stamped(op.v, op.ttl, op.now))
                      else if op.Invalidate? && op.k == k then None else w;
      Holds(cfg, Do(cfg, s, op), k, w', Clock(clock, [op]))
  {
    match op
    case Get(k', now, later, broken) =>
      if k' == k && w.Some? { HeldEntryIsJudged(cfg, s, k, w.value, now, later, broken, clock); }
    case Set(k', v, ttl, now, broken) => RereadExact(Stamped(v, ttl, now));
    case Invalidate(k', now, del) =>
    case Lag(k', row) =>
  }

  lemma {:induction false} HeldEntryIsJudged(
      cfg: Config, s: State, k: string, e: Entry, now: Time, later: Time, broken: bool, clock: Time)
    requires Holds(cfg, s, k, Some(e), clock) && clock <= now <= later
    ensures HeldInL1(s, k, now) <==> k in s.l1 && !Expired(e, now)
    ensures ServedFromStore(cfg, s, k, now, later, broken) <==>
      cfg.stored && !HeldInL1(s, k, now) && !broken && !Expired(e, later)
  {
  }

  lemma {:induction false} HeldAfter(cfg: Config, s: State, start: Time, ops: seq<Op>, k: string)
    requires k != "" && cfg.tombTTL <= 0 && Begins(cfg, s, start) && OrderlyRun(cfg, s, start, ops)
    ensures Holds(cfg, DoAll(cfg, s, ops), k, LastWrite(s.rows, ops, k), Clock(start, ops))
  {
    if ops == [] {
      if k in s.rows { RereadExact(Decode(s.rows[k])); }
    } else {
      var front, op := ops[..|ops| - 1], ops[|ops| - 1];
      assert forall i | 0 <= i < |front| :: front[..i] == ops[..i];
      HeldAfter(cfg, s, start, front, k);
      HoldsStep(cfg, DoAll(cfg, s, front), op, k, LastWrite(s.rows, front, k), Clock(start, front));
      assert [op][..0] == [];
    }
  }

  /**
    A Get that follows any orderly run and whose store read works hits with value v if and only if v is
    the value of the last Set since the last Invalidate and that entry is unexpired at the reading
    that decides: the first one when L1 holds the key, the second one when the store is asked.
   */
  lemma {:induction false} GetIsTtlMapLookup(
      cfg: Config, s: State, start: Time, ops: seq<Op>, k: string, now: Time, later: Time, v: string)
    requires k != "" && cfg.tombTTL <= 0 && Begins(cfg, s, start) && OrderlyRun(cfg, s, start, ops)
    requires Clock(start, ops) <= now <= later
    ensures var w, c := LastWrite(s.rows, ops, k), DoAll(cfg, s, ops);
      var decides := if k in c.l1 then now else later;
      GetResult(cfg, c, k, now, later, false) == Ok(Some(v)) <==>
        w.Some? && w.value.value == v && !Expired(w.value, decides)
  {
    HeldAfter(cfg, s, start, ops, k);
    var c := DoAll(cfg, s, ops);
    var w := LastWrite(s.rows, ops, k);
    if w.Some? { HeldEntryIsJudged(cfg, c, k, w.value, now, later, false, Clock(start, ops)); }
  }

  /** Even a failing store read never turns into a wrong answer: it is a right hit or a reported error. */
  lemma {:induction false} FailingReadIsReported(
      cfg: Config, s: State, start: Time, ops: seq<Op>, k: string, now: Time, later: Time)
    requires k != "" && cfg.tombTTL <= 0 && Begins(cfg, s, start) && OrderlyRun(cfg, s, start, ops)
    requires Clock(start, ops) <= now <= later && cfg.stored
    ensures var w, r := LastWrite(s.rows, ops, k), GetResult(cfg, DoAll(cfg, s, ops), k, now, later, true);
      r == Err(StoreGet) || (w.Some? && !Expired(w.value, now) && r == Ok(Some(w.value.value)))
  {
    HeldAfter(cfg, s, start, ops, k);
    var w := LastWrite(s.rows, ops, k);
    if w.Some? { HeldEntryIsJudged(cfg, DoAll(cfg, s, ops), k, w.value, now, later, true, Clock(start, ops)); }
  }

  /** Set at `at` with a positive ttl, a key is served strictly before `at + ttl`; with any other ttl for ever. */
  lemma {:induction false} ServedExactlyForItsTtl(
      cfg: Config, s: State, start: Time, ops: seq<Op>, k: string, v: string, ttl: int, at: Time, rest: seq<Op>,
      now: Time)
    requires k != "" && cfg.tombTTL <= 0 && Begins(cfg, s, start)
    requires var all := ops + [Set(k, v, ttl, at, false)] + rest;
      OrderlyRun(cfg, s, start, all) && Clock(start, all) <= now
    requires forall op | op in rest :: Elsewhere(k, op)
    ensures var all := ops + [Set(k, v, ttl, at, false)] + rest;
      GetResult(cfg, DoAll(cfg, s, all), k, now, now, false) ==
        Ok(if ttl <= 0 || now < at + ttl then Some(v) else None)
  {
    var all := ops + [Set(k, v, ttl, at, false)] + rest;
    LastWriteKept(s.rows, ops, k, v, ttl, at, rest);
    HeldAfter(cfg, s, start, all, k);
    var c, e := DoAll(cfg, s, all), Stamped(v, ttl, at);
    HeldEntryIsJudged(cfg, c, k, e, now, now, false, Clock(start, all));
    hide OrderlyRun, DoAll, LastWrite, Clock;
  }

  lemma {:induction false} LastWriteKept(
      rows: map<string, Row>, ops: seq<Op>, k: string, v: string, ttl: int, at: Time, rest: seq<Op>)
    requires forall op | op in rest :: Elsewhere(k, op)
    ensures LastWrite(rows, ops + [Set(k, v, ttl, at, false)] + rest, k) == Some(Stamped(v, ttl, at))
    decreases |rest|
  {
    var set' := ops + [Set(k, v, ttl, at, false)];
    if rest == [] {
      assert set' + rest == set';
    } else {
      var n := |rest| - 1;
      assert (set' + rest)[..|set' + rest| - 1] == set' + rest[..n];
      assert rest[n] in rest && forall op | op in rest[..n] :: op in rest;
      LastWriteKept(rows, ops, k, v, ttl, at, rest[..n]);
    }
  }

  /** What a Get leaves in L1: the value it answered, judged fit at its last reading, or nothing for the key. */
  lemma {:induction false} GetLeavesItsAnswer(
      cfg: Config, s: State, k: string, now: Time, later: Time, broken: bool)
    requires k != ""
    ensures var r, s' := GetResult(cfg, s, k, now, later, broken), Getting(cfg, s, k, now, later, broken);
      match r
      case Ok(Some(v)) => k in s'.l1 && s'.l1[k].value == v && (HeldInL1(s', k, now) || HeldInL1(s', k, later))
      case _ => k !in s'.l1
    ensures var s' := Getting(cfg, s, k, now, later, broken); s' == s.(l1 := s'.l1)
    ensures forall j | j != k :: Lookup(Getting(cfg, s, k, now, later, broken).l1, j) == Lookup(s.l1, j)
  {
  }

  /** A cache that starts over the same store: its maps are empty. */
  function Restarted(s: State): State { State(map[], map[], None, s.rows) }

  /**
    Tombstones die with the process. After a restart an invalidated key is gone for good if the
    store honoured the delete; if it did not, the old row is served as long as it is unexpired.
   */
  lemma {:induction false} RestartAfterInvalidate(
      cfg: Config, s: State, k: string, now: Time, del: Deletion, again: Time)
    requires k != "" && cfg.stored
    ensures var row := Lookup(s.rows, k);
      GetResult(cfg, Restarted(Invalidating(cfg, s, k, now, del)), k, again, again, false) ==
        if del.Honoured? || row.None? || Expired(Decode(row.value), again) then Ok(None) else Ok(Some(row.value.v))
  {
  }

  // ----- GetOrCompute -----

  /**
    What the refinement needs of the environment of one GetOrCompute: clock readings go on,
    reads and the write work.
   */
  predicate Calm(clock: Time, x: Ambience) {
    && clock <= x.now <= x.later <= x.now' <= x.later' <= x.written
    && !x.broken && !x.broken' && !x.unwritten
  }

  /** The calls a GetOrCompute amounts to. */
  function Amounts(k: string, x: Ambience): seq<Op> {
    [Get(k, x.now, x.later, x.broken), Get(k, x.now', x.later', x.broken')]
      + if x.made.Ok? then [Set(k, x.made.value.0, x.made.value.1, x.written, x.unwritten)] else []
  }

  lemma {:induction false} MissesAgain(cfg: Config, s: State, k: string, w: Option<Entry>, x: Ambience, clock: Time)
    requires k != "" && Holds(cfg, s, k, w, clock) && Calm(clock, x)
    ensures FirstRead(cfg, s, k, x) == Ok(None) ==> SecondRead(cfg, s, k, x) == Ok(None)
    ensures ReachesCompute(cfg, s, k, x) <==> FirstRead(cfg, s, k, x) == Ok(None)
  {
    if w.Some? {
      HeldEntryIsJudged(cfg, s, k, w.value, x.now, x.later, false, clock);
      HoldsAcrossGet(cfg, s, k, w.value, x, clock);
      HeldEntryIsJudged(cfg, ReadOnce(cfg, s, k, x), k, w.value, x.now', x.later', false, x.later);
      ExpiryLasts(w.value, x.now, x.later, x.now', x.later');
      hide Expired, Holds;
    }
  }

  lemma ExpiryLasts(e: Entry, a: Time, b: Time, c: Time, d: Time)
    requires a <= b <= c <= d
    ensures Expired(e, a) ==> Expired(e, b)
    ensures Expired(e, b) ==> Expired(e, c) && Expired(e, d)
  {
  }

  lemma {:induction false} HoldsAcrossGet(cfg: Config, s: State, k: string, e: Entry, x: Ambience, clock: Time)
    requires k != "" && Holds(cfg, s, k, Some(e), clock) && Calm(clock, x)
    ensures Holds(cfg, ReadOnce(cfg, s, k, x), k, Some(e), x.later)
  {
    HeldEntryIsJudged(cfg, s, k, e, x.now, x.later, false, clock);
  }

  /**
    GetOrCompute after any orderly run: it answers the last Set since the last Invalidate if that is
    unexpired and runs nothing; otherwise it runs compute once, and hands on and remembers
    what compute returned, unless that is an error, which it does not remember.
   */
  lemma {:induction false} GetOrComputeIsLookupOrCompute(
      cfg: Config, s: State, start: Time, ops: seq<Op>, k: string, x: Ambience)
    requires k != "" && cfg.tombTTL <= 0 && Begins(cfg, s, start) && OrderlyRun(cfg, s, start, ops)
    requires Calm(Clock(start, ops), x)
    ensures var w, c := LastWrite(s.rows, ops, k), DoAll(cfg, s, ops);
      var live := w.Some? && !Expired(w.value, if k in c.l1 then x.now else x.later);
      && ReachesCompute(cfg, c, k, x) == !live
      && ComputeResult(cfg, c, k, x) ==
           (if live then Ok(w.value.value) else if x.made.Ok? then Ok(x.made.value.0)
             else Err(ComputeError(x.made.error)))
      && Computing(cfg, c, k, x) == DoAll(cfg, s, ops + if live then Amounts(k, x)[..1] else Amounts(k, x))
      && LastWrite(s.rows, ops + (if live then Amounts(k, x)[..1] else Amounts(k, x)), k) ==
           if !live && x.made.Ok? then Some(Stamped(x.made.value.0, x.made.value.1, x.written)) else w
  {
    HeldAfter(cfg, s, start, ops, k);
    var c := DoAll(cfg, s, ops);
    var w := LastWrite(s.rows, ops, k);
    MissesAgain(cfg, c, k, w, x, Clock(start, ops));
    if w.Some? { HeldEntryIsJudged(cfg, c, k, w.value, x.now, x.later, false, Clock(start, ops)); }
    Appended(cfg, s, ops, k, x);
  }

  /** Going through the calls one by one. */
  lemma {:induction false} Appended(cfg: Config, s: State, ops: seq<Op>, k: string, x: Ambience)
    ensures var c := DoAll(cfg, s, ops);
      && DoAll(cfg, s, ops + Amounts(k, x)[..1]) == ReadOnce(cfg, c, k, x)
      && DoAll(cfg, s, ops + Amounts(k, x)) ==
           (if x.made.Ok?
            then Setting(cfg, ReadTwice(cfg, c, k, x), k, x.made.value.0, x.made.value.1, x.written, x.unwritten)
            else ReadTwice(cfg, c, k, x))
    ensures LastWrite(s.rows, ops + Amounts(k, x)[..1], k) == LastWrite(s.rows, ops, k)
    ensures LastWrite(s.rows, ops + Amounts(k, x), k) ==
      if x.made.Ok? then Some(Stamped(x.made.value.0, x.made.value.1, x.written)) else LastWrite(s.rows, ops, k)
  {
    var a := Amounts(k, x);
    assert ops + a[..1] == ops + [a[0]];
    Snoc(cfg, s, ops, a[0], k);
    assert ops + a[..2] == (ops + [a[0]]) + [a[1]];
    Snoc(cfg, s, ops + [a[0]], a[1], k);
    if x.made.Ok? {
      assert ops + a == (ops + a[..2]) + [a[2]];
      Snoc(cfg, s, ops + a[..2], a[2], k);
    } else {
      assert a == a[..2];
    }
    hide Getting, Setting, DoAll, LastWrite;
  }

  lemma {:induction false} Snoc(cfg: Config, s: State, ops: seq<Op>, op: Op, k: string)
    ensures DoAll(cfg, s, ops + [op]) == Do(cfg, DoAll(cfg, s, ops), op)
    ensures LastWrite(s.rows, ops + [op], k) ==
      if op.Set? && op.k == k then Some(Stamped(op.v, op.ttl, op.now))
      else if op.Invalidate? && op.k == k then None else LastWrite(s.rows, ops, k)
  {
    assert (ops + [op])[..|ops|] == ops;
    hide Do;
  }

  // ----- the store write has to succeed -----

  /** An operation that does not write k: any Get, and anything done to other keys. */
  predicate Elsewhere(k: string, op: Op) { op.Get? || op.k != k }

  ghost predicate ElsewhereRun(k: string, start: Time, ops: seq<Op>) {
    forall i | 0 <= i < |ops| :: Onward(Clock(start, ops[..i]), ops[i]) && Elsewhere(k, ops[i])
  }

  /** What is left of k after a Set of `e` whose store write failed over the row `left`. */
  predicate Leftover(s: State, k: string, e: Entry, left: Option<Row>, clock: Time) {
    && k !in s.tombs && Lookup(s.rows, k) == left
    && (k in s.l1 ==> s.l1[k] == e || (left.Some? && s.l1[k] == Decode(left.value) && Expired(e, clock)))
    && (k !in s.l1 ==> Expired(e, clock))
  }

  lemma {:induction false} LeftoverStep(
      cfg: Config, s: State, op: Op, k: string, e: Entry, left: Option<Row>, clock: Time)
    requires Leftover(s, k, e, left, clock) && Onward(clock, op) && Elsewhere(k, op)
    ensures Leftover(Do(cfg, s, op), k, e, left, Clock(clock, [op])) && clock <= Clock(clock, [op])
  {
    assert [op][..0] == [];
  }

  lemma {:induction false} LeftoverAfter(
      cfg: Config, s: State, start: Time, ops: seq<Op>, k: string, e: Entry, left: Option<Row>)
    requires Leftover(s, k, e, left, start) && ElsewhereRun(k, start, ops)
    ensures Leftover(DoAll(cfg, s, ops), k, e, left, Clock(start, ops))
  {
    if ops != [] {
      var front, op := ops[..|ops| - 1], ops[|ops| - 1];
      assert forall i | 0 <= i < |front| :: front[..i] == ops[..i];
      LeftoverAfter(cfg, s, start, front, k, e, left);
      LeftoverStep(cfg, DoAll(cfg, s, front), op, k, e, left, Clock(start, front));
      assert [op][..0] == [];
      hide Leftover, Do;
    }
  }

  /** The reading against which the leftover row is judged: the first if it was promoted before, else the second. */
  function Judges(s: State, k: string, left: Row, now: Time, later: Time): Time {
    if k in s.l1 && s.l1[k] == Decode(left) then now else later
  }

  lemma {:induction false} LeftoverAnswer(
      cfg: Config, s: State, k: string, e: Entry, left: Option<Row>, clock: Time, now: Time, later: Time)
    requires k != "" && cfg.stored && Leftover(s, k, e, left, clock) && clock <= now <= later
    ensures GetResult(cfg, s, k, now, later, false) ==
      if !Expired(e, now) then Ok(Some(e.value))
      else if left.Some? && !Expired(Decode(left.value), Judges(s, k, left.value, now, later))
      then Ok(Some(left.value.v))
      else Ok(None)
  {
  }

  /**
    A Set clears the tombstone before it writes the store. This is exactly what comes of a Set of
    k whose store write fails, after any orderly run and with anything but writes of k after it:
    Get answers as the TTL map does if and only if it is not the case that the new entry has
    expired and a row that was left in the store has not. The row it answers with then is
    what the failing Set found: if the key had been invalidated, an invalidated one.
   */
  lemma {:induction false} FailedWriteExact(
      cfg: Config, s: State, start: Time, ops: seq<Op>, k: string, v: string, ttl: int, at: Time,
      rest: seq<Op>, now: Time, later: Time)
    requires k != "" && cfg.stored && cfg.tombTTL <= 0 && Begins(cfg, s, start) && OrderlyRun(cfg, s, start, ops)
    requires ElsewhereRun(k, at, rest) && Clock(at, rest) <= now <= later
    ensures var before, e := DoAll(cfg, s, ops), Stamped(v, ttl, at);
      var after := DoAll(cfg, Setting(cfg, before, k, v, ttl, at, true), rest);
      var answer, left := GetResult(cfg, after, k, now, later, false), Lookup(before.rows, k);
      var revived := left.Some? && Expired(e, now) &&
        !Expired(Decode(left.value), Judges(after, k, left.value, now, later));
      && (answer == Ok(if Expired(e, now) then None else Some(v)) <==> !revived)
      && (revived ==> answer == Ok(Some(left.value.v)))
      && (left.Some? && LastWrite(s.rows, ops, k).None? ==> k in before.tombs && left.value.s <= before.tombs[k])
  {
    HeldAfter(cfg, s, start, ops, k);
    var before, e := DoAll(cfg, s, ops), Stamped(v, ttl, at);
    var failed := Setting(cfg, before, k, v, ttl, at, true);
    var left := Lookup(before.rows, k);
    assert Leftover(failed, k, e, left, at);
    LeftoverAfter(cfg, failed, at, rest, k, e, left);
    LeftoverAnswer(cfg, DoAll(cfg, failed, rest), k, e, left, Clock(at, rest), now, later);
    hide Leftover, GetResult, Setting, OrderlyRun, DoAll;
  }

  function Revival(k: string, older: string, newer: string): seq<Op> {
    [Set(k, older, 0, 1, false), Invalidate(k, 2, Ignored), Set(k, newer, 1, 3, true)]
  }

  /**
    A Set clears the tombstone before it writes the store. When that write fails and the newer
    entry then expires, a Get brings back the value that was invalidated before the Set.
   */
  lemma {:induction false} FailedWriteRevivesInvalidatedValue(k: string, older: string, newer: string)
    requires k != ""
    ensures var cfg, s := Config(true, 0), State(map[], map[], None, map[]);
      var ops := Revival(k, older, newer);
      && Begins(cfg, s, 0)
      && LastWrite(s.rows, ops, k) == Some(Entry(newer, 3, Some(4)))
      && GetResult(cfg, DoAll(cfg, s, ops), k, 5, 5, false) == Ok(Some(older))
  {
    var cfg, s := Config(true, 0), State(map[], map[], None, map[]);
    var ops := Revival(k, older, newer);
    assert ops[..2] == [ops[0], ops[1]] && ops[..2][..1] == [ops[0]] && ops[..2][..1][..0] == [];
    var s1 := Do(cfg, s, ops[0]);
    assert s1.rows == map[k := Row(older, 1, 0)];
    var s2 := Do(cfg, s1, ops[1]);
    assert s2.rows == s1.rows && s2.l1 == map[];
    var s3 := Do(cfg, s2, ops[2]);
    assert s3.rows == s1.rows && s3.tombs == map[] && s3.l1 == map[k := Entry(newer, 3, Some(4))];
    assert DoAll(cfg, s, ops[..2][..1]) == s1;
    assert DoAll(cfg, s, ops[..2]) == s2;
    assert DoAll(cfg, s, ops) == s3;
  }
}
