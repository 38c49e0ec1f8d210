/**
  What Select guarantees a load-bearing request (pkg/router/loadbearing.go and the contract
  of Select): when it cannot fail, and exactly when it pins the request to the strongest tier.
 */
module LoadBearing {
  import opened Prelude
  import opened Ordering
  import opened TierConfig
  import opened Router

  // ----- a ladder exists -----

  lemma {:induction false} Listing(names: set<string>) returns (l: seq<string>)
    ensures multiset(l) == multiset(names)
    decreases |names|
  {
    if names == {} {
      l := [];
    } else {
      var n :| n in names;
      var rest := Listing(names - {n});
      l := [n] + rest;
      assert multiset(names) == multiset(names - {n}) + multiset{n};
    }
  }

  lemma {:induction false} LadderExists(c: Registry) returns (l: seq<Tier>)
    requires Sound(c)
    ensures IsLadder(c.tiers, l) && |l| == |c.tiers|
  {
    var names := Listing(c.tiers.Keys);
    RankLeIsTotalOrder(c.tiers);
    SortSorts(RankLe(c.tiers), names);
    var sorted := Sort(RankLe(c.tiers), names);
    hide Sort, RankLe, Sorted, TotalOrder, IsLadder;
    ListingMembers(sorted, c.tiers.Keys);
    SortedNamesMakeLadder(c.tiers, sorted);
    l := TiersOf(c.tiers, sorted);
  }

  /** A non-empty registry has a strongest tier, which is at or above every minimum. */
  lemma {:induction false} StrongestExists(c: Registry) returns (s: Tier)
    requires Sound(c) && c.tiers != map[]
    ensures Strongest(c, s)
  {
    var l := LadderExists(c);
    assert |c.tiers| > 0 by {
      var n :| n in c.tiers;
      assert c.tiers.Keys != {} && |c.tiers.Keys| == |c.tiers|;
    }
    LadderEnds(c, l);
    s := l[|l| - 1];
  }

  lemma {:induction false} MinimumIsRegistered(c: Registry, req: Request, m: Tier)
    requires Sound(c) && IsMinimum(c, req, m)
    ensures Registered(c.tiers, m)
  {
  }

  lemma {:induction false} StrongestIsUnique(c: Registry, s: Tier, t: Tier)
    requires Strongest(c, s) && Strongest(c, t)
    ensures s == t
  {
    BeforeIsStrict(s, t, s);
    hide Before;
  }

  /** The strongest tier is at or above the minimum, and for an implicit floor it is the floor. */
  lemma {:induction false} StrongestQualifies(c: Registry, req: Request, s: Tier)
    requires Sound(c) && Strongest(c, s)
    requires req.loadBearing && req.floorTier == "" && !c.floor(s, s, true)
    ensures Eligible(c, req, s)
  {
    hide Before;
    forall m | IsMinimum(c, req, m)
      ensures s == m || Before(m, s)
    {
      MinimumIsRegistered(c, req, m);
    }
    forall f | IsFloor(c, req, f)
      ensures f == s
    {
      StrongestIsUnique(c, s, f);
    }
  }

  /**
    A load-bearing request without an explicit floor is always served: on a non-empty registry,
    with a registered or empty minimum, and a predicate that never forbids staying put.
   */
  lemma {:induction false} LoadBearingNeverFails(c: Registry, req: Request, r: Result<Decision, RouteError>)
    requires Sound(c) && c.tiers != map[] && Selects(c, req, r)
    requires req.loadBearing && req.floorTier == "" && (req.minTier == "" || req.minTier in c.tiers)
    requires forall t :: !c.floor(t, t, true)
    ensures r.Ok?
  {
    var s := StrongestExists(c);
    hide Strongest, Eligible, IsMinimum, IsFloor;
    StrongestQualifies(c, req, s);
  }

  /** The default predicate is one of those. */
  lemma DefaultPermitsStaying(t: Tier, loadBearing: bool)
    ensures !DefaultNeverDowngrade(t, t, loadBearing)
  {
  }

  /** So the engine's own floor always serves it. */
  lemma {:induction false} DefaultNeverFails(c: Registry, req: Request, r: Result<Decision, RouteError>)
    requires Sound(c) && c.tiers != map[] && Selects(c, req, r) && c.floor == DefaultNeverDowngrade
    requires req.loadBearing && req.floorTier == "" && (req.minTier == "" || req.minTier in c.tiers)
    ensures r.Ok?
  {
    forall t
      ensures !c.floor(t, t, true)
    {
      DefaultPermitsStaying(t, true);
    }
    hide Selects, Sound;
    LoadBearingNeverFails(c, req, r);
  }

  // ----- pinned to the strongest tier? -----

  ghost predicate AtOrAboveMinimum(c: Registry, req: Request, t: Tier) {
    Registered(c.tiers, t) && forall m | IsMinimum(c, req, m) :: t == m || Before(m, t)
  }

  /**
    The contract says the default predicate pins every load-bearing request to the strongest
    tier. It does exactly when every other tier at or above the minimum is strictly cheaper
    than the strongest: the floor compares prices, the ladder compares priorities.
   */
  lemma {:induction false} PinnedToStrongest(c: Registry, req: Request, d: Decision, s: Tier)
    requires Sound(c) && c.floor == DefaultNeverDowngrade && Strongest(c, s)
    requires req.loadBearing && req.floorTier == "" && Selects(c, req, Ok(d))
    ensures d.tier == s <==>
      forall t | AtOrAboveMinimum(c, req, t) && t != s :: t.priceIn + t.priceOut < s.priceIn + s.priceOut
  {
    hide Before, IsMinimum;
    assert IsFloor(c, req, s);
    assert Eligible(c, req, d.tier) && AtOrAboveMinimum(c, req, d.tier);
    assert !c.floor(s, d.tier, true);
    if d.tier == s {
      forall t | AtOrAboveMinimum(c, req, t) && t != s
        ensures t.priceIn + t.priceOut < s.priceIn + s.priceOut
      {
        if s.priceIn + s.priceOut <= t.priceIn + t.priceOut {
          forall f | IsFloor(c, req, f)
            ensures f == s
          {
            StrongestIsUnique(c, s, f);
          }
          assert Eligible(c, req, t);
          BeforeIsStrict(s, t, s);
        }
      }
    }
  }

  const Local8B := Tier("local-8b", "http://a", 1, 0.0, 0.0, false)
  const Local70B := Tier("local-70b", "http://b", 2, 0.0, 0.0, false)

  function FreeTiers(): Registry {
    Registry(map["local-8b" := Local8B, "local-70b" := Local70B], map[], DefaultNeverDowngrade)
  }

  lemma {:induction false} FreeTiersAre(u: Tier)
    ensures Registered(FreeTiers().tiers, u) <==> u == Local8B || u == Local70B
    ensures Before(Local8B, Local70B) && !Before(Local70B, Local8B)
  {
  }

  lemma {:induction false} FreeTiersEnds(m: Tier)
    ensures Sound(FreeTiers()) && Strongest(FreeTiers(), Local70B)
    ensures IsMinimum(FreeTiers(), Request("", "", true), m) ==> m == Local8B
  {
    FreeTiersAre(Local8B);
    FreeTiersAre(m);
    hide Before, Registered;
    forall u
      ensures Registered(FreeTiers().tiers, u) <==> u == Local8B || u == Local70B
    {
      FreeTiersAre(u);
    }
  }

  lemma {:induction false} FreeTiersMinimum()
    ensures AtOrAboveMinimum(FreeTiers(), Request("", "", true), Local8B)
  {
    FreeTiersAre(Local8B);
    hide Before, IsMinimum, Registered;
    forall m | IsMinimum(FreeTiers(), Request("", "", true), m)
      ensures m == Local8B
    {
      FreeTiersEnds(m);
    }
  }

  lemma {:induction false} SelectedIsRegistered(c: Registry, req: Request, d: Decision)
    requires Selects(c, req, Ok(d))
    ensures Registered(c.tiers, d.tier)
  {
  }

  /** With two free local tiers a load-bearing request goes to the weaker one. */
  lemma {:induction false} FreeTiersAreNotPinned(d: Decision)
    requires Selects(FreeTiers(), Request("", "", true), Ok(d))
    ensures d.tier == Local8B && Strongest(FreeTiers(), Local70B)
  {
    var c, req := FreeTiers(), Request("", "", true);
    assert c.floor == DefaultNeverDowngrade && Local8B != Local70B &&
      Local8B.CombinedPrice() == Local70B.CombinedPrice();
    hide Selects, FreeTiers, Strongest, AtOrAboveMinimum, Registered, Sound;
    FreeTiersEnds(Local8B);
    FreeTiersMinimum();
    SelectedIsRegistered(c, req, d);
    FreeTiersAre(d.tier);
    PinnedToStrongest(c, req, d, Local70B);
  }
}
