/**
  Cache entries, their expiry, the tombstone test and the L2 serialisation
  (pkg/cache/cache.go). An instant is a number of nanoseconds; `None` is the zero
  time, which means "never expires".
 */
module CacheEntry {
  import opened Prelude

  type Time = int

  datatype Entry = Entry(value: string, storedAt: Time, expiresAt: Option<Time>)

  /** The record an entry is serialised to: `e == 0` stands for "no expiry". */
  datatype Row = Row(v: string, s: int, e: int)

  function Encode(e: Entry): Row {
    Row(e.value, e.storedAt, if e.expiresAt.Some? then e.expiresAt.value else 0)
  }

  function Decode(r: Row): Entry {
    Entry(r.v, r.s, if r.e != 0 then Some(r.e) else None)
  }

  /** What a reader gets back from the store after `e` was written to it. */
  function Reread(e: Entry): Entry { Decode(Encode(e)) }

  /** The entry written at `now`; a non-positive ttl never expires. */
  function Stamped(v: string, ttl: int, now: Time): Entry {
    Entry(v, now, if ttl > 0 then Some(now + ttl) else None)
  }

  predicate Expired(e: Entry, now: Time) {
    e.expiresAt.Some? && e.expiresAt.value <= now
  }

  /** The validity test: unexpired, and stored strictly after the tombstone if there is one. */
  predicate Servable(e: Entry, tomb: Option<Time>, now: Time) {
    !Expired(e, now) && (tomb.Some? ==> tomb.value < e.storedAt)
  }

  /**
    The write-back test of GetOrCompute: is there a tombstone now where the snapshot had none, or
    one strictly later than the snapshot's?
   */
  predicate Superseded(snap: Option<Time>, tomb: Option<Time>) {
    tomb.Some? && (snap.None? || snap.value < tomb.value)
  }

  /** Serialisation loses exactly one thing: an expiry at the Unix epoch. */
  lemma RereadExact(e: Entry)
    ensures Reread(e) == e <==> e.expiresAt != Some(0)
    ensures Reread(Reread(e)) == Reread(e)
  {
    match e.expiresAt
    case None =>
    case Some(x) =>
  }

  /** An entry whose expiry is the epoch comes back from the store as one that never expires. */
  lemma EpochExpiryBecomesImmortal(v: string, at: Time, now: Time)
    requires 0 <= now
    ensures var e := Entry(v, at, Some(0)); Expired(e, now) && !Expired(Reread(e), now)
  {
  }
}
