/**
  Tier selection and liveness failover (pkg/router): the cheapest-first walk under the
  never-downgrade floor, and what it computes said without reference to the walk.
 */
module Router {
  import opened Prelude
  import opened TierConfig

  datatype Request = Request(minTier: string, floorTier: string, loadBearing: bool)

  datatype RouteError =
    | NoTiers | UnknownMinTier(name: string) | UnknownFloorTier(name: string) | NoSelectableTier
    | NilLiveness | UnknownPrimary(name: string) | NoLiveTier

  datatype Reason = MinAdequacy | NeverDowngradeFloor

  datatype Decision = Decision(tier: Tier, reason: Reason, loadBearing: bool, floored: bool)

  // ----- what Select promises, in terms of the order of tiers alone -----

  /** `t` is registered and no registered tier comes before it. */
  ghost predicate Cheapest(c: Registry, t: Tier) {
    Registered(c.tiers, t) && forall u | Registered(c.tiers, u) :: u == t || Before(t, u)
  }

  /** `t` is registered and no registered tier comes after it. */
  ghost predicate Strongest(c: Registry, t: Tier) {
    Registered(c.tiers, t) && forall u | Registered(c.tiers, u) :: u == t || Before(u, t)
  }

  /** The request's minimum-adequacy tier. */
  ghost predicate IsMinimum(c: Registry, req: Request, t: Tier) {
    if req.minTier == "" then Cheapest(c, t) else req.minTier in c.tiers && t == c.tiers[req.minTier]
  }

  /** The tier the request must not fall below, if it has one. */
  ghost predicate IsFloor(c: Registry, req: Request, t: Tier) {
    if req.floorTier != "" then req.floorTier in c.tiers && t == c.tiers[req.floorTier]
    else req.loadBearing && Strongest(c, t)
  }

  /** At or above the minimum, and not a forbidden downgrade from the floor. */
  ghost predicate Eligible(c: Registry, req: Request, t: Tier) {
    && Registered(c.tiers, t)
    && (forall m | IsMinimum(c, req, m) :: t == m || Before(m, t))
    && (forall f | IsFloor(c, req, f) :: !c.floor(f, t, req.loadBearing))
  }

  ghost predicate NamesKnown(c: Registry, req: Request) {
    && c.tiers != map[]
    && (req.minTier != "" ==> req.minTier in c.tiers)
    && (req.floorTier != "" ==> req.floorTier in c.tiers)
  }

  /** Select's answer: the least eligible tier, or the honest error. */
  ghost predicate Selects(c: Registry, req: Request, r: Result<Decision, RouteError>) {
    match r
    case Ok(d) =>
      && NamesKnown(c, req) && Eligible(c, req, d.tier)
      && (forall t | Eligible(c, req, t) :: t == d.tier || Before(d.tier, t))
      && d.loadBearing == req.loadBearing
      && (d.floored <==> !IsMinimum(c, req, d.tier))
      && d.reason == if d.floored then NeverDowngradeFloor else MinAdequacy
    case Err(e) =>
      if c.tiers == map[] then e == NoTiers
      else if req.minTier != "" && req.minTier !in c.tiers then e == UnknownMinTier(req.minTier)
      else if req.floorTier != "" && req.floorTier !in c.tiers then e == UnknownFloorTier(req.floorTier)
      else e == NoSelectableTier && forall t :: !Eligible(c, req, t)
  }

  /** The promise pins the answer down: Select is a function of the registry's contents and the request. */
  lemma {:induction false} SelectsUnique(
      c: Registry, req: Request, r: Result<Decision, RouteError>, q: Result<Decision, RouteError>)
    requires Selects(c, req, r) && Selects(c, req, q)
    ensures r == q
  {
    hide Eligible, IsMinimum, Before;
    if r.Ok? && q.Ok? { BeforeIsStrict(r.value.tier, q.value.tier, r.value.tier); }
  }

  // ----- the ladder's ends -----

  lemma {:induction false} LadderEnds(c: Registry, l: seq<Tier>)
    requires IsLadder(c.tiers, l) && l != []
    ensures Cheapest(c, l[0]) && Strongest(c, l[|l| - 1])
    ensures forall t :: Cheapest(c, t) ==> t == l[0]
    ensures forall t :: Strongest(c, t) ==> t == l[|l| - 1]
  {
    assert l[0] in l && l[|l| - 1] in l;
    BeforeIsStrict(l[0], l[0], l[0]);
    hide Before;
    forall u | Registered(c.tiers, u)
      ensures u == l[0] || Before(l[0], u)
      ensures u == l[|l| - 1] || Before(u, l[|l| - 1])
    {
      assert u in l;
    }
    forall t
      ensures Cheapest(c, t) ==> t == l[0]
      ensures Strongest(c, t) ==> t == l[|l| - 1]
    {
      BeforeIsStrict(t, l[0], t);
      BeforeIsStrict(t, l[|l| - 1], t);
    }
  }

  /** Position in the ladder is the order. */
  lemma {:induction false} LadderOrder(tiers: map<string, Tier>, l: seq<Tier>, i: nat, j: nat)
    requires IsLadder(tiers, l) && i < |l| && j < |l|
    ensures i <= j <==> l[i] == l[j] || Before(l[i], l[j])
  {
    BeforeIsStrict(l[i], l[j], l[i]);
    hide Before;
  }

  // ----- the walk -----

  /** `index` maps every tier name to its position in the first n rungs of the ladder. */
  ghost predicate Indexes(index: map<string, nat>, l: seq<Tier>, n: nat)
    requires n <= |l|
  {
    && (forall k | 0 <= k < n :: l[k].name in index && index[l[k].name] == k)
    && (forall x | x in index :: index[x] < n && l[index[x]].name == x)
  }

  lemma {:induction false} LadderNames(tiers: map<string, Tier>, l: seq<Tier>, i: nat, j: nat)
    requires IsLadder(tiers, l) && i < j < |l|
    ensures l[i].name != l[j].name
  {
    assert l[i] in l && l[j] in l;
    BeforeIsStrict(l[i], l[j], l[i]);
    assert Before(l[i], l[j]);
  }

  lemma {:induction false} FullIndex(tiers: map<string, Tier>, l: seq<Tier>, index: map<string, nat>, name: string)
    requires (forall n | n in tiers :: tiers[n].name == n) && IsLadder(tiers, l) && Indexes(index, l, |l|)
    ensures name in index <==> name in tiers
    ensures name in index ==> l[index[name]] == tiers[name]
  {
    hide Before;
    if name in tiers {
      assert tiers[name] in l;
      var k :| 0 <= k < |l| && l[k] == tiers[name];
    }
    if name in index {
      assert l[index[name]] in l;
    }
  }

  lemma {:induction false} MinimumIsUnique(c: Registry, req: Request, l: seq<Tier>, i: nat, t: Tier)
    requires IsLadder(c.tiers, l) && i < |l| && IsMinimum(c, req, l[i]) && IsMinimum(c, req, t)
    ensures t == l[i]
  {
    LadderEnds(c, l);
    hide Before, IsLadder, Cheapest, Strongest;
  }

  lemma {:induction false} FloorIsUnique(c: Registry, req: Request, l: seq<Tier>, f: Tier, g: Tier)
    requires IsLadder(c.tiers, l) && l != [] && IsFloor(c, req, f) && IsFloor(c, req, g)
    ensures f == g
  {
    LadderEnds(c, l);
    hide Before, IsLadder, Cheapest, Strongest;
  }

  /** The floor Select works with is the request's floor. */
  ghost predicate FloorFound(c: Registry, req: Request, floor: Option<Tier>) {
    match floor
    case Some(f) => IsFloor(c, req, f)
    case None => req.floorTier == "" && !req.loadBearing
  }

  predicate Barred(c: Registry, req: Request, floor: Option<Tier>, t: Tier) {
    floor.Some? && c.floor(floor.value, t, req.loadBearing)
  }

  /** On the ladder, eligibility is a position and a floor test. */
  lemma {:induction false} EligibleAt(c: Registry, req: Request, l: seq<Tier>, minIdx: nat, floor: Option<Tier>, k: nat)
    requires IsLadder(c.tiers, l) && minIdx < |l| && k < |l|
    requires IsMinimum(c, req, l[minIdx]) && FloorFound(c, req, floor)
    ensures Eligible(c, req, l[k]) <==> minIdx <= k && !Barred(c, req, floor, l[k])
  {
    hide Before, IsMinimum, IsFloor;
    assert l[k] in l;
    forall m | IsMinimum(c, req, m)
      ensures m == l[minIdx]
    {
      MinimumIsUnique(c, req, l, minIdx, m);
    }
    LadderOrder(c.tiers, l, minIdx, k);
    FloorTest(c, req, l, floor, l[k]);
  }

  lemma {:induction false} FloorTest(c: Registry, req: Request, l: seq<Tier>, floor: Option<Tier>, t: Tier)
    requires IsLadder(c.tiers, l) && l != [] && FloorFound(c, req, floor)
    ensures (forall f | IsFloor(c, req, f) :: !c.floor(f, t, req.loadBearing)) <==> !Barred(c, req, floor, t)
  {
    hide Before, IsLadder;
    if floor.Some? {
      hide IsFloor;
      forall f | IsFloor(c, req, f)
        ensures f == floor.value
      {
        FloorIsUnique(c, req, l, f, floor.value);
      }
    }
  }

  /** The first rung from minIdx that is not barred is the answer. */
  lemma {:induction false} FirstUnbarredIsSelected(
      c: Registry, req: Request, l: seq<Tier>, minIdx: nat, floor: Option<Tier>, i: nat, d: Decision)
    requires NamesKnown(c, req) && IsLadder(c.tiers, l) && minIdx <= i < |l|
    requires IsMinimum(c, req, l[minIdx]) && FloorFound(c, req, floor)
    requires !Barred(c, req, floor, l[i]) && forall k | minIdx <= k < i :: Barred(c, req, floor, l[k])
    requires d == Decision(l[i], if minIdx < i then NeverDowngradeFloor else MinAdequacy, req.loadBearing, minIdx < i)
    ensures Selects(c, req, Ok(d))
  {
    hide Before, IsMinimum, IsFloor, Eligible, NamesKnown;
    EligibleAt(c, req, l, minIdx, floor, i);
    forall t | Eligible(c, req, t)
      ensures t == l[i] || Before(l[i], t)
    {
      assert Registered(c.tiers, t) by { EligibleIsRegistered(c, req, t); }
      assert t in l;
      var k :| 0 <= k < |l| && l[k] == t;
      EligibleAt(c, req, l, minIdx, floor, k);
      LadderOrder(c.tiers, l, i, k);
    }
    if IsMinimum(c, req, l[i]) { MinimumIsUnique(c, req, l, minIdx, l[i]); }
    if minIdx < i { LadderNames(c.tiers, l, minIdx, i); }
  }

  lemma {:induction false} EligibleIsRegistered(c: Registry, req: Request, t: Tier)
    requires Eligible(c, req, t)
    ensures Registered(c.tiers, t)
  {
  }

  lemma {:induction false} AllBarredMeansNone(
      c: Registry, req: Request, l: seq<Tier>, minIdx: nat, floor: Option<Tier>)
    requires NamesKnown(c, req) && IsLadder(c.tiers, l) && minIdx < |l|
    requires IsMinimum(c, req, l[minIdx]) && FloorFound(c, req, floor)
    requires forall k | minIdx <= k < |l| :: Barred(c, req, floor, l[k])
    ensures Selects(c, req, Err(NoSelectableTier))
  {
    hide Before, IsMinimum, IsFloor, Eligible;
    forall t
      ensures !Eligible(c, req, t)
    {
      if Eligible(c, req, t) {
        EligibleIsRegistered(c, req, t);
        var k :| 0 <= k < |l| && l[k] == t;
        EligibleAt(c, req, l, minIdx, floor, k);
      }
    }
  }

  // ----- failover by liveness -----

  /** The first name in the chain that is registered and live. */
  function FirstLive(c: Registry, names: seq<string>, live: string -> bool): Option<Tier>
    decreases |names|
  {
    if names == [] then None
    else if names[0] in c.tiers && live(names[0]) then Some(c.tiers[names[0]])
    else FirstLive(c, names[1..], live)
  }

  datatype FailoverReason = PrimaryLive | FailoverAlternative

  function FailedOver(c: Registry, primary: string, live: string -> bool): Result<(Tier, FailoverReason), RouteError> {
    if primary !in c.tiers then Err(UnknownPrimary(primary))
    else if live(primary) then Ok((c.tiers[primary], PrimaryLive))
    else
      var first := FirstLive(c, Fallbacks(c, primary), live);
      if first.Some? then Ok((first.value, FailoverAlternative)) else Err(NoLiveTier)
  }

  class Router {
    const cfg: Config

    constructor (cfg: Config)
      ensures this.cfg == cfg
    {
      this.cfg := cfg;
    }

    /** An explicit floor tier, or the last rung for a load-bearing request, or none. */
    method ResolveFloor(
        req: Request, tiers: seq<Tier>, index: map<string, nat>) returns (r: Result<Option<Tier>, RouteError>)
      requires Sound(cfg.Contents()) && IsLadder(cfg.tiers, tiers) && tiers != [] && Indexes(index, tiers, |tiers|)
      ensures r.Err? <==> req.floorTier != "" && req.floorTier !in cfg.tiers
      ensures match r
        case Ok(floor) => FloorFound(cfg.Contents(), req, floor)
        case Err(e) => e == UnknownFloorTier(req.floorTier)
    {
      FullIndex(cfg.tiers, tiers, index, req.floorTier);
      LadderEnds(cfg.Contents(), tiers);
      hide Before, IsLadder;
      if req.floorTier != "" {
        if req.floorTier !in index { return Err(UnknownFloorTier(req.floorTier)); }
        return Ok(Some(tiers[index[req.floorTier]]));
      }
      if req.loadBearing { return Ok(Some(tiers[|tiers| - 1])); }
      return Ok(None);
    }

    method Index(tiers: seq<Tier>) returns (index: map<string, nat>)
      requires IsLadder(cfg.tiers, tiers)
      ensures Indexes(index, tiers, |tiers|)
    {
      index := map[];
      for i := 0 to |tiers|
        invariant Indexes(index, tiers, i)
      {
        forall k | 0 <= k < i
          ensures tiers[k].name != tiers[i].name
        {
          LadderNames(cfg.tiers, tiers, k, i);
        }
        index := index[tiers[i].name := i];
      }
    }

    method Select(req: Request) returns (r: Result<Decision, RouteError>)
      requires Sound(cfg.Contents())
      ensures Selects(cfg.Contents(), req, r)
    {
      var tiers := cfg.Tiers();
      if |tiers| == 0 { return Err(NoTiers); }
      var index := Index(tiers);
      ghost var c := cfg.Contents();
      FullIndex(c.tiers, tiers, index, req.minTier);
      LadderEnds(c, tiers);
      hide Before, IsLadder, IsFloor;
      var minIdx := 0;
      if req.minTier != "" {
        if req.minTier !in index { return Err(UnknownMinTier(req.minTier)); }
        minIdx := index[req.minTier];
      }
      assert IsMinimum(c, req, tiers[minIdx]);
      var floor := ResolveFloor(req, tiers, index);
      if floor.Err? { return Err(floor.error); }
      r := Walk(req, tiers, minIdx, floor.value);
    }

    /** From the minimum upward, the first rung the floor does not forbid. */
    method Walk(
        req: Request, tiers: seq<Tier>, minIdx: nat, floor: Option<Tier>) returns (r: Result<Decision, RouteError>)
      requires NamesKnown(cfg.Contents(), req) && IsLadder(cfg.tiers, tiers) && minIdx < |tiers|
      requires IsMinimum(cfg.Contents(), req, tiers[minIdx]) && FloorFound(cfg.Contents(), req, floor)
      ensures Selects(cfg.Contents(), req, r)
    {
      hide Before, IsLadder, IsFloor, IsMinimum, Eligible, NamesKnown, Selects;
      for i := minIdx to |tiers|
        invariant forall k | minIdx <= k < i :: Barred(cfg.Contents(), req, floor, tiers[k])
      {
        var forbidden := false;
        if floor.Some? { forbidden := cfg.IsForbiddenDowngrade(floor.value, tiers[i], req.loadBearing); }
        if !forbidden {
          var d := Decision(tiers[i], if minIdx < i then NeverDowngradeFloor else MinAdequacy, req.loadBearing,
            minIdx < i);
          FirstUnbarredIsSelected(cfg.Contents(), req, tiers, minIdx, floor, i, d);
          return Ok(d);
        }
      }
      AllBarredMeansNone(cfg.Contents(), req, tiers, minIdx, floor);
      return Err(NoSelectableTier);
    }

    method Failover(
        primary: string, live: Option<string -> bool>) returns (r: Result<(Tier, FailoverReason), RouteError>)
      ensures r == if live.None? then Err(NilLiveness) else FailedOver(cfg.Contents(), primary, live.value)
    {
      if live.None? { return Err(NilLiveness); }
      if primary !in cfg.tiers { return Err(UnknownPrimary(primary)); }
      if live.value(primary) { return Ok((cfg.tiers[primary], PrimaryLive)); }
      var alts := cfg.Alternatives(primary);
      for i := 0 to |alts|
        invariant FirstLive(cfg.Contents(), alts[i..], live.value) == FirstLive(cfg.Contents(), alts, live.value)
      {
        assert alts[i..][1..] == alts[i + 1..];
        if alts[i] in cfg.tiers && live.value(alts[i]) {
          return Ok((cfg.tiers[alts[i]], FailoverAlternative));
        }
      }
      return Err(NoLiveTier);
    }
  }
}
