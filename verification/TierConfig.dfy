/** The tier registry of pkg/config/config.go: tiers, fallback topology and the downgrade floor. */
module TierConfig {
  import opened Prelude
  import opened Ordering

  datatype Tier = Tier(
    name: string, endpoint: string, priority: int, priceIn: real, priceOut: real, deterministic: bool)
  {
    function CombinedPrice(): real { priceIn + priceOut }
  }

  /** Whether moving a request from the first tier to the second is forbidden. */
  type Floor = (Tier, Tier, bool) -> bool

  datatype Error =
    | EmptyTierName | DuplicateTier(name: string) | NegativePrice(name: string)
    | UnknownTier(name: string) | SelfAlternative(name: string)

  function DefaultNeverDowngrade(current: Tier, candidate: Tier, loadBearing: bool): bool {
    loadBearing && candidate.CombinedPrice() < current.CombinedPrice()
  }

  /** The registry's contents. */
  datatype Registry = Registry(tiers: map<string, Tier>, alts: map<string, seq<string>>, floor: Floor)

  function Fallbacks(c: Registry, primary: string): seq<string> {
    if primary in c.alts then c.alts[primary] else []
  }

  predicate Distinct(names: seq<string>) {
    forall i, j | 0 <= i < j < |names| :: names[i] != names[j]
  }

  /**
    What every registration keeps: names are keys, prices are not negative, fallbacks are
    registered, distinct and never self.
   */
  ghost predicate Sound(c: Registry) {
    && (forall n | n in c.tiers ::
          n != "" && c.tiers[n].name == n && 0.0 <= c.tiers[n].priceIn && 0.0 <= c.tiers[n].priceOut)
    && (forall p | p in c.alts :: p in c.tiers && Distinct(c.alts[p]))
    && (forall p, a | p in c.alts && a in c.alts[p] :: a in c.tiers && a != p)
  }

  // ----- the cheapest-first order -----

  /** The order of Tiers: priority, then name. */
  predicate Before(a: Tier, b: Tier) {
    a.priority < b.priority || (a.priority == b.priority && a.name != b.name && NameLe(a.name, b.name))
  }

  predicate Registered(tiers: map<string, Tier>, t: Tier) { t.name in tiers && tiers[t.name] == t }

  /** `l` is every registered tier once, cheapest first. */
  ghost predicate IsLadder(tiers: map<string, Tier>, l: seq<Tier>) {
    && (forall i, j | 0 <= i < j < |l| :: Before(l[i], l[j]))
    && (forall t :: t in l <==> Registered(tiers, t))
  }

  lemma {:induction false} BeforeIsStrict(a: Tier, b: Tier, c: Tier)
    ensures !Before(a, a)
    ensures Before(a, b) ==> !Before(b, a)
    ensures Before(a, b) && Before(b, c) ==> Before(a, c)
    ensures a.name != b.name ==> Before(a, b) || Before(b, a)
  {
    NameLeIsTotalOrder();
    hide NameLe;
  }

  /** Down the ladder priorities never fall, and tiers of one priority are in the order of their names. */
  lemma {:induction false} LadderAscends(tiers: map<string, Tier>, l: seq<Tier>, i: nat, j: nat)
    requires IsLadder(tiers, l) && i < j < |l|
    ensures l[i].priority <= l[j].priority
    ensures l[i].priority == l[j].priority ==>
      l[i].name != l[j].name && ComesFirst(l[i].name, l[j].name, (x: char, y: char) => x < y)
  {
    NameLeMeaning(l[i].name, l[j].name);
    assert Before(l[i], l[j]);
    hide NameLe, ComesFirst;
  }

  /** The ladder is determined by the set of tiers: registration order cannot be seen in it. */
  lemma {:induction false} LadderUnique(tiers: map<string, Tier>, l: seq<Tier>, m: seq<Tier>)
    requires IsLadder(tiers, l) && IsLadder(tiers, m)
    ensures l == m
  {
    hide Before;
    SameStrictListing(l, m);
  }

  lemma {:induction false} SameStrictListing(l: seq<Tier>, m: seq<Tier>)
    requires forall i, j | 0 <= i < j < |l| :: Before(l[i], l[j])
    requires forall i, j | 0 <= i < j < |m| :: Before(m[i], m[j])
    requires forall t :: t in l <==> t in m
    ensures l == m
  {
    hide Before;
    assert m == [] || m[0] in m;
    if l != [] {
      assert l[0] in m;
      assert m[0] in l;
      var i :| 0 <= i < |m| && m[i] == l[0];
      var j :| 0 <= j < |l| && l[j] == m[0];
      BeforeIsStrict(l[0], m[0], l[0]);
      assert l[0] == m[0];
      forall t
        ensures t in l[1..] <==> t in m[1..]
      {
        TailMembers(l, t);
        TailMembers(m, t);
      }
      SameStrictListing(l[1..], m[1..]);
      assert l == [l[0]] + l[1..] && m == [m[0]] + m[1..];
    }
  }

  lemma {:induction false} TailMembers(l: seq<Tier>, t: Tier)
    requires l != [] && forall i, j | 0 <= i < j < |l| :: Before(l[i], l[j])
    ensures t in l[1..] <==> t in l && t != l[0]
  {
    BeforeIsStrict(l[0], l[0], l[0]);
    hide Before;
    assert l == [l[0]] + l[1..];
    if t in l[1..] {
      var i :| 0 <= i < |l[1..]| && l[1..][i] == t;
      assert Before(l[0], l[i + 1]);
    }
  }

  function PriorityOf(tiers: map<string, Tier>, n: string): int {
    if n in tiers then tiers[n].priority else 0
  }

  /** The order of the ladder, on names. */
  function RankLe(tiers: map<string, Tier>): (string, string) -> bool {
    (a, b) =>
      || PriorityOf(tiers, a) < PriorityOf(tiers, b)
      || (PriorityOf(tiers, a) == PriorityOf(tiers, b) && NameLe(a, b))
  }

  lemma {:induction false} RankLeIsTotalOrder(tiers: map<string, Tier>)
    ensures TotalOrder(RankLe(tiers))
  {
    NameLeIsTotalOrder();
    hide NameLe, PriorityOf;
  }

  function TiersOf(tiers: map<string, Tier>, names: seq<string>): seq<Tier>
    requires forall n | n in names :: n in tiers
  {
    seq(|names|, i requires 0 <= i < |names| => tiers[names[i]])
  }

  lemma {:induction false} ListingMembers(names: seq<string>, keys: set<string>)
    requires multiset(names) == multiset(keys)
    ensures |names| == |keys| && forall n :: n in names <==> n in keys
  {
    assert |multiset(names)| == |multiset(keys)|;
    assert forall n :: n in names <==> n in multiset(names);
  }

  lemma {:induction false} RankedIsBefore(tiers: map<string, Tier>, a: string, b: string)
    requires a in tiers && b in tiers && tiers[a].name == a && tiers[b].name == b && a != b && RankLe(tiers)(a, b)
    ensures Before(tiers[a], tiers[b])
  {
    hide NameLe;
    assert PriorityOf(tiers, a) == tiers[a].priority && PriorityOf(tiers, b) == tiers[b].priority;
  }

  /** The tiers of a sorted listing of the names are the ladder. */
  lemma {:induction false} SortedNamesMakeLadder(tiers: map<string, Tier>, names: seq<string>)
    requires forall n | n in tiers :: tiers[n].name == n
    requires multiset(names) == multiset(tiers.Keys) && Sorted(RankLe(tiers), names)
    requires forall n | n in names :: n in tiers
    ensures IsLadder(tiers, TiersOf(tiers, names)) && |names| == |tiers|
  {
    hide RankLe, Before;
    ListingMembers(names, tiers.Keys);
    var out := TiersOf(tiers, names);
    forall i, j | 0 <= i < j < |out|
      ensures Before(out[i], out[j])
    {
      DistinctListing(names, tiers.Keys, i, j);
      RankedIsBefore(tiers, names[i], names[j]);
    }
    forall t
      ensures t in out <==> Registered(tiers, t)
    {
      if t in out {
        var i :| 0 <= i < |out| && out[i] == t;
        assert names[i] in names;
      }
      if Registered(tiers, t) {
        var i :| 0 <= i < |names| && names[i] == t.name;
        assert out[i] == t;
      }
    }
  }

  lemma {:induction false} DistinctListing(names: seq<string>, keys: set<string>, i: nat, j: nat)
    requires multiset(names) == multiset(keys) && i < j < |names|
    ensures names[i] != names[j]
  {
    CountedTwice(names, i, j);
  }

  // ----- registering fallbacks -----

  /** The names of `alts` that are new, in order of first appearance, or the first offending one. */
  function Screened(c: Registry, primary: string, picked: seq<string>, alts: seq<string>): Result<seq<string>, Error>
    decreases |alts|
  {
    if alts == [] then Ok(picked)
    else if alts[0] == primary then Err(SelfAlternative(primary))
    else if alts[0] !in c.tiers then Err(UnknownTier(alts[0]))
    else if alts[0] in Fallbacks(c, primary) || alts[0] in picked then Screened(c, primary, picked, alts[1..])
    else Screened(c, primary, picked + [alts[0]], alts[1..])
  }

  lemma {:induction false} ScreenedIsFresh(c: Registry, primary: string, picked: seq<string>, alts: seq<string>)
    requires Distinct(picked) && forall a | a in picked :: a in c.tiers && a != primary && a !in Fallbacks(c, primary)
    ensures var r := Screened(c, primary, picked, alts);
      r.Ok? ==>
        && Distinct(r.value)
        && (forall a | a in r.value :: a in c.tiers && a != primary && a !in Fallbacks(c, primary))
        && (forall a | a in alts :: a in Fallbacks(c, primary) || a in r.value)
        && picked <= r.value
    decreases |alts|
  {
    if alts != [] && alts[0] != primary && alts[0] in c.tiers {
      assert alts == [alts[0]] + alts[1..];
      if alts[0] in Fallbacks(c, primary) || alts[0] in picked {
        ScreenedIsFresh(c, primary, picked, alts[1..]);
      } else {
        ScreenedIsFresh(c, primary, picked + [alts[0]], alts[1..]);
        assert (picked + [alts[0]])[|picked|] == alts[0];
      }
    }
  }

  predicate BadName(c: Registry, primary: string, name: string) { name == primary || name !in c.tiers }

  /** A registration is refused exactly when it names the primary or an unknown tier, and for the first such name. */
  lemma {:induction false} ScreenedFails(c: Registry, primary: string, picked: seq<string>, alts: seq<string>)
    ensures var r := Screened(c, primary, picked, alts);
      && (r.Err? <==> exists a :: a in alts && BadName(c, primary, a))
      && (r.Err? ==> exists i: nat ::
            && i < |alts| && BadName(c, primary, alts[i]) && (forall k | 0 <= k < i :: !BadName(c, primary, alts[k]))
            && r.error == if alts[i] == primary then SelfAlternative(primary) else UnknownTier(alts[i]))
    decreases |alts|
  {
    if alts != [] {
      assert alts == [alts[0]] + alts[1..];
      if !BadName(c, primary, alts[0]) {
        var picked' := if alts[0] in Fallbacks(c, primary) || alts[0] in picked then picked else picked + [alts[0]];
        ScreenedFails(c, primary, picked', alts[1..]);
        var r := Screened(c, primary, picked', alts[1..]);
        if r.Err? {
          var i: nat :| i < |alts[1..]| && BadName(c, primary, alts[1..][i]) &&
            (forall k | 0 <= k < i :: !BadName(c, primary, alts[1..][k]))
            && r.error == if alts[1..][i] == primary then SelfAlternative(primary) else UnknownTier(alts[1..][i]);
          assert alts[i + 1] == alts[1..][i];
          assert forall k | 0 < k < i + 1 :: alts[k] == alts[1..][k - 1];
        }
      }
    }
  }

  /** Where a name first appears. */
  function FirstAt(names: seq<string>, x: string): nat {
    if names == [] || names[0] == x then 0 else 1 + FirstAt(names[1..], x)
  }

  lemma {:induction false} FirstAtSplit(a: seq<string>, b: seq<string>, x: string)
    ensures x in a ==> FirstAt(a + b, x) < |a|
    ensures x !in a && b != [] && b[0] == x ==> FirstAt(a + b, x) == |a|
  {
    if a == [] {
      assert a + b == b;
    } else {
      assert (a + b)[1..] == a[1..] + b;
      assert a == [a[0]] + a[1..];
      FirstAtSplit(a[1..], b, x);
    }
  }

  /** New fallbacks are appended in the order in which they were first named. */
  lemma {:induction false} ScreenedInOrder(
      c: Registry, primary: string, picked: seq<string>, alts: seq<string>, seen: seq<string>, rest: seq<string>)
    requires alts == seen + rest
    requires forall a | a in picked :: a in seen
    requires forall a | a in seen :: a in Fallbacks(c, primary) || a in picked
    requires ByFirstMention(alts, picked)
    ensures var r := Screened(c, primary, picked, rest); r.Ok? ==> ByFirstMention(alts, r.value)
    decreases |rest|
  {
    if rest != [] && !BadName(c, primary, rest[0]) {
      var a := rest[0];
      assert alts == (seen + [a]) + rest[1..];
      if a in Fallbacks(c, primary) || a in picked {
        ScreenedInOrder(c, primary, picked, alts, seen + [a], rest[1..]);
      } else {
        FirstAtSplit(seen, rest, a);
        forall x | x in picked
          ensures FirstAt(alts, x) < FirstAt(alts, a)
        {
          FirstAtSplit(seen, rest, x);
        }
        ByFirstMentionSnoc(alts, picked, a);
        ScreenedInOrder(c, primary, picked + [a], alts, seen + [a], rest[1..]);
      }
      hide ByFirstMention, Fallbacks;
    }
  }

  /** The names are listed in the order of their first appearance. */
  ghost predicate ByFirstMention(alts: seq<string>, names: seq<string>) {
    forall i, j | 0 <= i < j < |names| :: FirstAt(alts, names[i]) < FirstAt(alts, names[j])
  }

  lemma {:induction false} ByFirstMentionSnoc(alts: seq<string>, names: seq<string>, a: string)
    requires ByFirstMention(alts, names) && forall x | x in names :: FirstAt(alts, x) < FirstAt(alts, a)
    ensures ByFirstMention(alts, names + [a])
  {
    hide FirstAt;
  }

  lemma {:induction false} DistinctConcat(a: seq<string>, b: seq<string>)
    requires Distinct(a) && Distinct(b) && forall x | x in b :: x !in a
    ensures Distinct(a + b)
  {
    forall i, j | 0 <= i < j < |a + b|
      ensures (a + b)[i] != (a + b)[j]
    {
      if |a| <= j { assert (a + b)[j] in b; }
      if i < |a| { assert (a + b)[i] in a; }
    }
  }

  class Config {
    var tiers: map<string, Tier>
    var alternatives: map<string, seq<string>>
    var neverDown: Floor

    ghost function Contents(): Registry
      reads this
    {
      Registry(tiers, alternatives, neverDown)
    }

    constructor ()
      ensures Contents() == Registry(map[], map[], DefaultNeverDowngrade) && Sound(Contents())
    {
      tiers, alternatives, neverDown := map[], map[], DefaultNeverDowngrade;
    }

    method RegisterTier(t: Tier) returns (r: Result<(), Error>)
      requires Sound(Contents())
      modifies this`tiers
      ensures Sound(Contents())
      ensures r == if t.name == "" then Err(EmptyTierName)
                   else if t.priceIn < 0.0 || t.priceOut < 0.0 then Err(NegativePrice(t.name))
                   else if t.name in old(tiers) then Err(DuplicateTier(t.name)) else Ok(())
      ensures tiers == if r.Ok? then old(tiers)[t.name := t] else old(tiers)
    {
      if t.name == "" { return Err(EmptyTierName); }
      if t.priceIn < 0.0 || t.priceOut < 0.0 { return Err(NegativePrice(t.name)); }
      if t.name in tiers { return Err(DuplicateTier(t.name)); }
      tiers := tiers[t.name := t];
      return Ok(());
    }

    /** All or nothing: on any bad name the registry is left untouched. */
    method RegisterAlternative(primary: string, alts: seq<string>) returns (r: Result<(), Error>)
      requires Sound(Contents())
      modifies this`alternatives
      ensures Sound(Contents())
      ensures primary !in tiers ==> r == Err(UnknownTier(primary))
      ensures primary in tiers ==>
        var screened := Screened(old(Contents()), primary, [], alts);
        && (r.Ok? <==> screened.Ok?) && (r.Err? ==> r == Err(screened.error))
      ensures alternatives == if r.Err? then old(alternatives) else
        var kept, added := Fallbacks(old(Contents()), primary), Screened(old(Contents()), primary, [], alts).value;
        old(alternatives)[primary := kept + added]
    {
      if primary !in tiers { return Err(UnknownTier(primary)); }
      var existing := if primary in alternatives then alternatives[primary] else [];
      var toAppend := [];
      for i := 0 to |alts|
        invariant Screened(Contents(), primary, toAppend, alts[i..]) == Screened(Contents(), primary, [], alts)
        invariant alternatives == old(alternatives)
      {
        assert alts[i..][1..] == alts[i + 1..];
        if alts[i] == primary { return Err(SelfAlternative(primary)); }
        if alts[i] !in tiers { return Err(UnknownTier(alts[i])); }
        if alts[i] !in existing && alts[i] !in toAppend { toAppend := toAppend + [alts[i]]; }
      }
      ScreenedIsFresh(Contents(), primary, [], alts);
      DistinctConcat(existing, toAppend);
      alternatives := alternatives[primary := existing + toAppend];
      return Ok(());
    }

    method Alternatives(primary: string) returns (names: seq<string>)
      ensures names == Fallbacks(Contents(), primary)
    {
      names := if primary in alternatives then alternatives[primary] else [];
    }

    method SetNeverDowngrade(fn: Option<Floor>)
      modifies this`neverDown
      ensures neverDown == if fn.Some? then fn.value else DefaultNeverDowngrade
    {
      if fn.Some? { neverDown := fn.value; } else { neverDown := DefaultNeverDowngrade; }
    }

    method IsForbiddenDowngrade(current: Tier, candidate: Tier, loadBearing: bool) returns (b: bool)
      ensures b == Contents().floor(current, candidate, loadBearing)
    {
      b := neverDown(current, candidate, loadBearing);
    }

    /** The names in the map's iteration order, which is arbitrary. */
    method Names() returns (names: seq<string>)
      ensures multiset(names) == multiset(tiers.Keys)
    {
      names := [];
      var left := tiers.Keys;
      while left != {}
        invariant left <= tiers.Keys && multiset(names) == multiset(tiers.Keys - left)
        decreases |left|
      {
        var n :| n in left;
        names := names + [n];
        assert tiers.Keys - (left - {n}) == (tiers.Keys - left) + {n};
        left := left - {n};
      }
      assert tiers.Keys - left == tiers.Keys;
    }

    /** Fills a slice from the map in any order, then sorts it by priority and name. */
    method Tiers() returns (out: seq<Tier>)
      requires Sound(Contents())
      ensures IsLadder(tiers, out) && |out| == |tiers|
    {
      var names := Names();
      RankLeIsTotalOrder(tiers);
      SortSorts(RankLe(tiers), names);
      names := Sort(RankLe(tiers), names);
      hide Sort, RankLe, Sorted, TotalOrder, IsLadder;
      ListingMembers(names, tiers.Keys);
      SortedNamesMakeLadder(tiers, names);
      out := TiersOf(tiers, names);
    }
  }
}
