/**
  The cache used by one caller at a time: the class of pkg/cache/cache.go and invalidate.go
  over an injected store, and the value functions its methods are proved against.
  Clock readings and the store's behaviour are parameters.
 */
module TtlCache {
  import opened Prelude
  import opened CacheEntry

  datatype Error = EmptyKey | StoreGet | StoreSet | StoreDelete | ComputeError(code: int)

  /** What the store does with a delete: honours it, silently ignores it, or reports an error. */
  datatype Deletion = Honoured | Ignored | Refused

  datatype State = State(
    l1: map<string, Entry>, tombs: map<string, Time>, lastPrune: Option<Time>, rows: map<string, Row>)

  /** `stored`: a store is injected; `tombTTL`: how long tombstones are kept, forever if not positive. */
  datatype Config = Config(stored: bool, tombTTL: Time)

  // ----- the operations on values -----

  predicate HeldInL1(s: State, k: string, now: Time) {
    k in s.l1 && Servable(s.l1[k], Lookup(s.tombs, k), now)
  }

  /** The row a Get that missed L1 judges at `later`, if the store has one and L1 nothing newer. */
  predicate ServedFromStore(cfg: Config, s: State, k: string, now: Time, later: Time, broken: bool) {
    && cfg.stored && !HeldInL1(s, k, now) && !broken && k in s.rows
    && Servable(Decode(s.rows[k]), Lookup(s.tombs, k), later)
  }

  function GetResult(
      cfg: Config, s: State, k: string, now: Time, later: Time, broken: bool): Result<Option<string>, Error> {
    if k == "" then Err(EmptyKey)
    else if HeldInL1(s, k, now) then Ok(Some(s.l1[k].value))
    else if cfg.stored && broken then Err(StoreGet)
    else if ServedFromStore(cfg, s, k, now, later, broken) then Ok(Some(Decode(s.rows[k]).value))
    else Ok(None)
  }

  function GetL1(cfg: Config, s: State, k: string, now: Time, later: Time, broken: bool): map<string, Entry> {
    if k == "" || HeldInL1(s, k, now) then s.l1
    else if ServedFromStore(cfg, s, k, now, later, broken) then s.l1[k := Decode(s.rows[k])]
    else s.l1 - {k}
  }

  function Getting(cfg: Config, s: State, k: string, now: Time, later: Time, broken: bool): State {
    s.(l1 := GetL1(cfg, s, k, now, later, broken))
  }

  /** A failing store write leaves the store as it was. */
  function Setting(cfg: Config, s: State, k: string, v: string, ttl: int, now: Time, broken: bool): State {
    var e := Stamped(v, ttl, now);
    s.(l1 := if k == "" then s.l1 else s.l1[k := e],
       tombs := if k == "" then s.tombs else s.tombs - {k},
       rows := if k == "" || !cfg.stored || broken then s.rows else s.rows[k := Encode(e)])
  }

  predicate SweepDue(d: Time, lastPrune: Option<Time>, now: Time) {
    0 < d && (lastPrune.Some? ==> d <= now - lastPrune.value)
  }

  function Swept(d: Time, tombs: map<string, Time>, lastPrune: Option<Time>, now: Time): map<string, Time> {
    if SweepDue(d, lastPrune, now) then map k | k in tombs && now - d <= tombs[k] :: tombs[k] else tombs
  }

  function Invalidating(cfg: Config, s: State, k: string, now: Time, del: Deletion): State {
    s.(l1 := if k == "" then s.l1 else s.l1 - {k},
       tombs := if k == "" then s.tombs else Swept(cfg.tombTTL, s.tombs[k := now], s.lastPrune, now),
       lastPrune := if k != "" && SweepDue(cfg.tombTTL, s.lastPrune, now) then Some(now) else s.lastPrune,
       rows := if k != "" && cfg.stored && del.Honoured? then s.rows - {k} else s.rows)
  }

  /**
    What the environment does during one GetOrCompute: clock readings and store failures of the
    two reads and the write, and what compute returns (a value and its ttl, or an error).
   */
  datatype Ambience = Ambience(
    now: Time, later: Time, broken: bool, now': Time, later': Time, broken': bool,
    made: Result<(string, int), int>, written: Time, unwritten: bool)

  /** The state after the fast read, and after the re-check. */
  function ReadOnce(cfg: Config, s: State, k: string, x: Ambience): State {
    Getting(cfg, s, k, x.now, x.later, x.broken)
  }

  function ReadTwice(cfg: Config, s: State, k: string, x: Ambience): State {
    Getting(cfg, ReadOnce(cfg, s, k, x), k, x.now', x.later', x.broken')
  }

  function FirstRead(cfg: Config, s: State, k: string, x: Ambience): Result<Option<string>, Error> {
    GetResult(cfg, s, k, x.now, x.later, x.broken)
  }

  function SecondRead(cfg: Config, s: State, k: string, x: Ambience): Result<Option<string>, Error> {
    GetResult(cfg, ReadOnce(cfg, s, k, x), k, x.now', x.later', x.broken')
  }

  predicate FastAnswer(cfg: Config, s: State, k: string, x: Ambience) { FirstRead(cfg, s, k, x) != Ok(None) }

  /** A failing re-check counts as a miss. */
  predicate ReachesCompute(cfg: Config, s: State, k: string, x: Ambience) {
    !FastAnswer(cfg, s, k, x) && !(SecondRead(cfg, s, k, x).Ok? && SecondRead(cfg, s, k, x).value.Some?)
  }

  function ComputeResult(cfg: Config, s: State, k: string, x: Ambience): Result<string, Error> {
    match FirstRead(cfg, s, k, x)
    case Err(e) => Err(e)
    case Ok(Some(v)) => Ok(v)
    case Ok(None) =>
      if !ReachesCompute(cfg, s, k, x) then Ok(SecondRead(cfg, s, k, x).value.value)
      else if x.made.Ok? then Ok(x.made.value.0)
      else Err(ComputeError(x.made.error))
  }

  function Computing(cfg: Config, s: State, k: string, x: Ambience): State {
    if FastAnswer(cfg, s, k, x) then ReadOnce(cfg, s, k, x)
    else if ReachesCompute(cfg, s, k, x) && x.made.Ok? then
      Setting(cfg, ReadTwice(cfg, s, k, x), k, x.made.value.0, x.made.value.1, x.written, x.unwritten)
    else ReadTwice(cfg, s, k, x)
  }

  // ----- the classes -----

  /** The injected byte store. */
  class Store {
    var rows: map<string, Row>

    constructor (rows: map<string, Row>)
      ensures this.rows == rows
    {
      this.rows := rows;
    }

    method Get(key: string, broken: bool) returns (r: Result<Option<Row>, Error>)
      ensures r == if broken then Err(StoreGet) else Ok(Lookup(rows, key))
    {
      if broken { return Err(StoreGet); }
      if key in rows { return Ok(Some(rows[key])); }
      return Ok(None);
    }

    method Set(key: string, row: Row, broken: bool) returns (failed: bool)
      modifies this
      ensures failed == broken
      ensures rows == if broken then old(rows) else old(rows)[key := row]
    {
      if !broken { rows := rows[key := row]; }
      failed := broken;
    }

    method Delete(key: string, del: Deletion) returns (failed: bool)
      modifies this
      ensures failed == del.Refused?
      ensures rows == if del.Honoured? then old(rows) - {key} else old(rows)
    {
      if del.Honoured? { rows := rows - {key}; }
      failed := del.Refused?;
    }
  }

  class Cache {
    const store: Store?
    const tombTTL: Time
    var l1: map<string, Entry>
    var tombs: map<string, Time>
    var lastPrune: Option<Time>
    /** The keys with a call in flight. */
    var sf: set<string>

    ghost function Cfg(): Config { Config(store != null, tombTTL) }

    ghost function Value(): State
      reads this, store
    {
      State(l1, tombs, lastPrune, if store == null then map[] else store.rows)
    }

    constructor (store: Store?, tombTTL: Time)
      ensures this.store == store && this.tombTTL == tombTTL
      ensures Value() == State(map[], map[], None, if store == null then map[] else store.rows) && sf == {}
    {
      this.store := store;
      this.tombTTL := tombTTL;
      l1, tombs, lastPrune, sf := map[], map[], None, {};
    }

    method Valid(key: string, e: Entry, now: Time) returns (ok: bool)
      ensures ok == Servable(e, Lookup(tombs, key), now)
    {
      if e.expiresAt.Some? && e.expiresAt.value <= now { return false; }
      if key in tombs && e.storedAt <= tombs[key] { return false; }
      return true;
    }

    /** The first section of Get: serve a valid L1 entry, evict a stale one. */
    method Probe(key: string, now: Time) returns (hit: Option<string>)
      modifies this`l1
      ensures hit == if HeldInL1(old(Value()), key, now) then Some(old(l1)[key].value) else None
      ensures l1 == if hit.Some? then old(l1) else old(l1) - {key}
    {
      if key in l1 {
        var ok := Valid(key, l1[key], now);
        if ok { return Some(l1[key].value); }
      }
      l1 := l1 - {key};
      return None;
    }

    /** The last section of Get: keep a newer-or-equal valid L1 entry, else promote a valid row. */
    method Promote(key: string, e: Entry, later: Time) returns (hit: Option<string>)
      modifies this`l1
      ensures var keep := HeldInL1(old(Value()), key, later) && e.storedAt <= old(l1)[key].storedAt;
        var valid := Servable(e, Lookup(tombs, key), later);
        && hit == (if keep then Some(old(l1)[key].value) else if valid then Some(e.value) else None)
        && l1 == if !keep && valid then old(l1)[key := e] else old(l1)
    {
      if key in l1 && e.storedAt <= l1[key].storedAt {
        var keep := Valid(key, l1[key], later);
        if keep { return Some(l1[key].value); }
      }
      var ok := Valid(key, e, later);
      if !ok { return None; }
      l1 := l1[key := e];
      return Some(e.value);
    }

    /** Reads the clock at `now`, and again at `later` once the store has answered. */
    method Get(key: string, now: Time, later: Time, broken: bool) returns (r: Result<Option<string>, Error>)
      modifies this`l1
      ensures r == GetResult(Cfg(), old(Value()), key, now, later, broken)
      ensures Value() == Getting(Cfg(), old(Value()), key, now, later, broken)
    {
      if key == "" { return Err(EmptyKey); }
      var hit := Probe(key, now);
      if hit.Some? { return Ok(hit); }
      if store == null { return Ok(None); }
      var found := store.Get(key, broken);
      if found.Err? { return Err(found.error); }
      if found.value.None? { return Ok(None); }
      hit := Promote(key, Decode(found.value.value), later);
      return Ok(hit);
    }

    method SetWithTTL(key: string, value: string, ttl: int, now: Time, broken: bool) returns (r: Result<(), Error>)
      modifies this`l1, this`tombs, store
      ensures Value() == Setting(Cfg(), old(Value()), key, value, ttl, now, broken)
      ensures r == (if key == "" then Err(EmptyKey) else if store != null && broken then Err(StoreSet) else Ok(()))
    {
      if key == "" { return Err(EmptyKey); }
      var e := Stamped(value, ttl, now);
      l1 := l1[key := e];
      tombs := tombs - {key};
      if store != null {
        var failed := store.Set(key, Encode(e), broken);
        if failed { return Err(StoreSet); }
      }
      return Ok(());
    }

    /** Walks the tombstones in any order and drops those older than the retention time. */
    method PruneTombstones(now: Time)
      modifies this`tombs, this`lastPrune
      ensures tombs == Swept(tombTTL, old(tombs), old(lastPrune), now)
      ensures lastPrune == if SweepDue(tombTTL, old(lastPrune), now) then Some(now) else old(lastPrune)
    {
      if tombTTL <= 0 || (lastPrune.Some? && now - lastPrune.value < tombTTL) { return; }
      lastPrune := Some(now);
      var cutoff := now - tombTTL;
      var left := tombs.Keys;
      while left != {}
        invariant lastPrune == Some(now) && left <= old(tombs).Keys
        invariant tombs == map k | k in old(tombs) && (k in left || cutoff <= old(tombs)[k]) :: old(tombs)[k]
        decreases |left|
      {
        var k :| k in left;
        if tombs[k] < cutoff { tombs := tombs - {k}; }
        left := left - {k};
      }
      assert forall k :: k in tombs <==> k in old(tombs) && now - tombTTL <= old(tombs)[k];
      assert tombs == map k | k in old(tombs) && now - tombTTL <= old(tombs)[k] :: old(tombs)[k];
    }

    method Invalidate(key: string, now: Time, del: Deletion) returns (r: Result<(), Error>)
      modifies this`l1, this`tombs, this`lastPrune, store
      ensures Value() == Invalidating(Cfg(), old(Value()), key, now, del)
      ensures r ==
        (if key == "" then Err(EmptyKey) else if store != null && del.Refused? then Err(StoreDelete) else Ok(()))
    {
      if key == "" { return Err(EmptyKey); }
      l1 := l1 - {key};
      tombs := tombs[key := now];
      PruneTombstones(now);
      if store != null {
        var failed := store.Delete(key, del);
        if failed { return Err(StoreDelete); }
      }
      return Ok(());
    }

    /**
      One caller's GetOrCompute: nobody else has a call in flight for the key. `ran` says whether
      compute was run; a failed write-back is nobody's error.
     */
    method GetOrCompute(key: string, x: Ambience) returns (r: Result<string, Error>, ran: bool)
      requires key !in sf
      modifies this`l1, this`tombs, this`sf, store
      ensures r == ComputeResult(Cfg(), old(Value()), key, x) && sf == old(sf)
      ensures Value() == Computing(Cfg(), old(Value()), key, x)
      ensures ran == ReachesCompute(Cfg(), old(Value()), key, x)
    {
      if key == "" { return Err(EmptyKey), false; }
      var first := Get(key, x.now, x.later, x.broken);
      if first.Err? { return Err(first.error), false; }
      if first.value.Some? { return Ok(first.value.value), false; }
      var again := Get(key, x.now', x.later', x.broken');
      if again.Ok? && again.value.Some? { return Ok(again.value.value), false; }
      sf := sf + {key};
      r := RunComputeAndWriteBack(key, x);
      sf := sf - {key};
      ran := true;
    }

    method RunComputeAndWriteBack(key: string, x: Ambience) returns (r: Result<string, Error>)
      requires key != ""
      modifies this`l1, this`tombs, store
      ensures r == if x.made.Ok? then Ok(x.made.value.0) else Err(ComputeError(x.made.error))
      ensures Value() == if x.made.Ok?
        then Setting(Cfg(), old(Value()), key, x.made.value.0, x.made.value.1, x.written, x.unwritten)
        else old(Value())
    {
      var snap := if key in tombs then Some(tombs[key]) else None;
      if x.made.Err? { return Err(ComputeError(x.made.error)); }
      var tomb := if key in tombs then Some(tombs[key]) else None;
      if !Superseded(snap, tomb) {
        var _ := SetWithTTL(key, x.made.value.0, x.made.value.1, x.written, x.unwritten);
      }
      return Ok(x.made.value.0);
    }
  }
}
