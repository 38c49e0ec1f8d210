/**
  The request path of pkg/pipeline/pipeline.go: select a tier, fail over without crossing the
  floor, and record what the decision saved.
 */
module Pipeline {
  import opened Prelude
  import opened TierConfig
  import Router
  import Savings

  /** A routing request with what the savings ledger needs to know about it. */
  datatype Ask = Ask(
    route: Router.Request, cost: real, baselineCost: real, autoBaseline: bool,
    inputTokens: int, outputTokens: int, at: int)

  datatype Error =
    | NilLiveness
    | Routing(error: Router.RouteError)
    | NoFloorSafeLiveTier(selected: string)
    | NoBaselineTier
    | Recording(failure: Savings.Error)

  datatype Reason = Selected | FailoverPreservedFloor

  datatype Decision = Decision(
    tier: Tier, selectedTier: Tier, reason: Reason, loadBearing: bool, floored: bool, failedOver: bool)

  type Liveness = string -> bool

  // ----- what Optimize decides -----

  /** The floor lets a request on `from` move to the named tier. */
  predicate Permitted(c: Registry, from: Tier, loadBearing: bool, name: string) {
    name in c.tiers && !c.floor(from, c.tiers[name], loadBearing)
  }

  predicate Usable(c: Registry, from: Tier, loadBearing: bool, live: Liveness, name: string) {
    Permitted(c, from, loadBearing, name) && live(name)
  }

  /** Fallback i is the first one that is both live and permitted. */
  predicate FirstUsable(c: Registry, from: Tier, loadBearing: bool, live: Liveness, i: nat) {
    var alts := Fallbacks(c, from.name);
    && i < |alts| && Usable(c, from, loadBearing, live, alts[i])
    && forall k | 0 <= k < i :: !Usable(c, from, loadBearing, live, alts[k])
  }

  predicate NoneUsable(c: Registry, from: Tier, loadBearing: bool, live: Liveness) {
    forall a | a in Fallbacks(c, from.name) :: !Usable(c, from, loadBearing, live, a)
  }

  /** The decision that follows from what Select chose. */
  ghost predicate Follows(c: Registry, sel: Router.Decision, live: Liveness, d: Decision) {
    && d.selectedTier == sel.tier && d.loadBearing == sel.loadBearing && d.floored == sel.floored
    && d.failedOver == !live(sel.tier.name)
    && if d.failedOver then
         && d.reason == FailoverPreservedFloor
         && exists i: nat ::
           && FirstUsable(c, sel.tier, sel.loadBearing, live, i)
           && d.tier == c.tiers[Fallbacks(c, sel.tier.name)[i]]
       else d.tier == sel.tier && d.reason == Selected
  }

  /** No decision follows: the selected tier is down and nothing it may fall back to is both live and permitted. */
  ghost predicate Stranded(c: Registry, sel: Router.Decision, live: Liveness) {
    !live(sel.tier.name) && NoneUsable(c, sel.tier, sel.loadBearing, live)
  }

  ghost predicate Routes(c: Registry, req: Router.Request, live: Liveness, r: Result<Decision, Error>) {
    match r
    case Ok(d) => exists sel :: Router.Selects(c, req, Ok(sel)) && Follows(c, sel, live, d)
    case Err(Routing(e)) => Router.Selects(c, req, Err(e))
    case Err(NoFloorSafeLiveTier(name)) =>
      exists sel :: Router.Selects(c, req, Ok(sel)) && Stranded(c, sel, live) && name == sel.tier.name
    case Err(_) => false
  }

  lemma {:induction false} FollowsUnique(c: Registry, sel: Router.Decision, live: Liveness, d: Decision, e: Decision)
    requires Follows(c, sel, live, d) && Follows(c, sel, live, e)
    ensures d == e
  {
    if d.failedOver {
      var i: nat :| FirstUsable(c, sel.tier, sel.loadBearing, live, i) &&
        d.tier == c.tiers[Fallbacks(c, sel.tier.name)[i]];
      var j: nat :| FirstUsable(c, sel.tier, sel.loadBearing, live, j) &&
        e.tier == c.tiers[Fallbacks(c, sel.tier.name)[j]];
      hide Usable;
    }
  }

  lemma {:induction false} FollowsIsNotStranded(c: Registry, sel: Router.Decision, live: Liveness, d: Decision)
    requires Follows(c, sel, live, d)
    ensures !Stranded(c, sel, live)
  {
    if d.failedOver {
      var i: nat :| FirstUsable(c, sel.tier, sel.loadBearing, live, i);
      hide Usable;
      assert Fallbacks(c, sel.tier.name)[i] in Fallbacks(c, sel.tier.name);
    }
  }

  /** Optimize is a function of the registry's contents, the request and the liveness of tiers. */
  lemma {:induction false} RoutesUnique(
      c: Registry, req: Router.Request, live: Liveness, r: Result<Decision, Error>, q: Result<Decision, Error>)
    requires Routes(c, req, live, r) && Routes(c, req, live, q)
    ensures r == q
  {
    hide Router.Selects, Follows, Stranded;
    var s, t := Source(c, req, live, r), Source(c, req, live, q);
    Router.SelectsUnique(c, req, s, t);
    if s.Ok? {
      if r.Ok? { FollowsIsNotStranded(c, s.value, live, r.value); }
      if q.Ok? { FollowsIsNotStranded(c, s.value, live, q.value); }
      if r.Ok? && q.Ok? { FollowsUnique(c, s.value, live, r.value, q.value); }
    }
  }

  /** What Select said, given what Optimize made of it. */
  ghost function Source(
      c: Registry, req: Router.Request, live: Liveness, r: Result<Decision, Error>)
      : (s: Result<Router.Decision, Router.RouteError>)
    requires Routes(c, req, live, r)
    ensures Router.Selects(c, req, s)
    ensures match r
      case Ok(d) => s.Ok? && Follows(c, s.value, live, d)
      case Err(Routing(e)) => s == Err(e)
      case Err(NoFloorSafeLiveTier(name)) => s.Ok? && Stranded(c, s.value, live) && name == s.value.tier.name
      case Err(_) => false
  {
    match r
    case Ok(d) => var sel :| Router.Selects(c, req, Ok(sel)) && Follows(c, sel, live, d); Ok(sel)
    case Err(Routing(e)) => Err(e)
    case Err(NoFloorSafeLiveTier(name)) =>
      var sel :| Router.Selects(c, req, Ok(sel)) && Stranded(c, sel, live) && name == sel.tier.name; Ok(sel)
  }

  /** Once Select succeeds, the only failure is a selected tier that is down with no usable fallback. */
  lemma {:induction false} FailsOnlyWhenStranded(
      c: Registry, req: Router.Request, live: Liveness, sel: Router.Decision, r: Result<Decision, Error>)
    requires Router.Selects(c, req, Ok(sel)) && Routes(c, req, live, r)
    ensures r == Err(NoFloorSafeLiveTier(sel.tier.name)) <==>
      && !live(sel.tier.name)
      && forall a | a in Fallbacks(c, sel.tier.name) ::
           a !in c.tiers || c.floor(sel.tier, c.tiers[a], sel.loadBearing) || !live(a)
    ensures r.Ok? <==> r != Err(NoFloorSafeLiveTier(sel.tier.name))
  {
    hide Router.Selects, Follows;
    Router.SelectsUnique(c, req, Source(c, req, live, r), Ok(sel));
    if r.Ok? { FollowsIsNotStranded(c, sel, live, r.value); }
  }

  // ----- never downgrade -----

  /** The floor permits the move from registered tier x to registered tier y. */
  predicate MayMove(tiers: map<string, Tier>, floor: Floor, loadBearing: bool, x: string, y: string) {
    x in tiers && y in tiers && !floor(tiers[x], tiers[y], loadBearing)
  }

  /** What the floor permits in two moves between registered tiers it permits in one. */
  ghost predicate PermittedTransitive(tiers: map<string, Tier>, floor: Floor, loadBearing: bool) {
    forall x, y, z | MayMove(tiers, floor, loadBearing, x, y) && MayMove(tiers, floor, loadBearing, y, z) ::
      MayMove(tiers, floor, loadBearing, x, z)
  }

  lemma {:induction false} FloorIsRegistered(c: Registry, req: Router.Request, f: Tier)
    requires Sound(c) && Router.IsFloor(c, req, f)
    ensures f.name in c.tiers && c.tiers[f.name] == f
  {
  }

  lemma {:induction false} SelectedRespectsFloor(c: Registry, req: Router.Request, sel: Router.Decision, f: Tier)
    requires Router.Selects(c, req, Ok(sel)) && Router.IsFloor(c, req, f)
    ensures sel.tier.name in c.tiers && c.tiers[sel.tier.name] == sel.tier
    ensures !c.floor(f, sel.tier, req.loadBearing) && sel.loadBearing == req.loadBearing
  {
    hide Router.IsFloor, Router.IsMinimum, Before;
  }

  /** Where a followed decision ends up is registered, and permitted from the selected tier if it moved. */
  lemma {:induction false} FollowedIsPermitted(c: Registry, sel: Router.Decision, live: Liveness, d: Decision)
    requires Sound(c) && Follows(c, sel, live, d) && sel.tier.name in c.tiers && c.tiers[sel.tier.name] == sel.tier
    ensures d.tier.name in c.tiers && c.tiers[d.tier.name] == d.tier
    ensures d.tier == sel.tier || !c.floor(sel.tier, d.tier, sel.loadBearing)
  {
  }

  /**
    Never downgrade, end to end: whatever the topology and whoever is down, the tier a request
    is sent to is permitted relative to the request's own floor.
   */
  lemma {:induction false} NeverDowngrade(c: Registry, req: Router.Request, live: Liveness, d: Decision, f: Tier)
    requires Sound(c) && Routes(c, req, live, Ok(d)) && Router.IsFloor(c, req, f)
    requires PermittedTransitive(c.tiers, c.floor, req.loadBearing)
    ensures !c.floor(f, d.tier, req.loadBearing)
  {
    var sel := Source(c, req, live, Ok(d)).value;
    hide Router.Selects, Router.IsFloor, Follows, Sound, Routes;
    FloorIsRegistered(c, req, f);
    SelectedRespectsFloor(c, req, sel, f);
    FollowedIsPermitted(c, sel, live, d);
    assert MayMove(c.tiers, c.floor, req.loadBearing, f.name, sel.tier.name);
    assert d.tier == sel.tier || MayMove(c.tiers, c.floor, req.loadBearing, sel.tier.name, d.tier.name);
  }

  /** Under the default predicate: a load-bearing request is never sent to a tier cheaper than its floor. */
  lemma {:induction false} NeverCheaperThanFloor(c: Registry, req: Router.Request, live: Liveness, d: Decision, f: Tier)
    requires Sound(c) && Routes(c, req, live, Ok(d)) && Router.IsFloor(c, req, f)
    requires c.floor == DefaultNeverDowngrade && req.loadBearing
    ensures f.priceIn + f.priceOut <= d.tier.priceIn + d.tier.priceOut
  {
    hide Routes, Router.IsFloor, Sound;
    NeverDowngrade(c, req, live, d, f);
  }

  /**
    What the default predicate compares: it forbids a move exactly when the request is load-bearing
    and a million input and a million output tokens together cost strictly less at the candidate.
   */
  lemma {:induction false} DefaultForbidsExactly(current: Tier, candidate: Tier, loadBearing: bool)
    ensures DefaultNeverDowngrade(current, candidate, loadBearing) <==>
      && loadBearing
      && Savings.ComputeCost(1000000, 1000000, candidate.priceIn, candidate.priceOut) <
           Savings.ComputeCost(1000000, 1000000, current.priceIn, current.priceOut)
  {
    Savings.CostInMillions(1000000, 1000000, candidate.priceIn, candidate.priceOut);
    Savings.CostInMillions(1000000, 1000000, current.priceIn, current.priceOut);
  }

  /** Never-downgrade for one registry of tiers and one predicate, over all topologies, requests and outages. */
  ghost predicate FloorHolds(tiers: map<string, Tier>, floor: Floor, loadBearing: bool) {
    forall alts: map<string, seq<string>>, req: Router.Request, live: Liveness, d: Decision, f: Tier |
      && Sound(Registry(tiers, alts, floor)) && req.loadBearing == loadBearing
      && Routes(Registry(tiers, alts, floor), req, live, Ok(d))
      && Router.IsFloor(Registry(tiers, alts, floor), req, f) ::
      !floor(f, d.tier, loadBearing)
  }

  /** Transitivity is exactly what the guarantee needs of a predicate. */
  lemma {:induction false} NeverDowngradeExact(tiers: map<string, Tier>, floor: Floor, loadBearing: bool)
    requires Sound(Registry(tiers, map[], floor))
    ensures FloorHolds(tiers, floor, loadBearing) <==> PermittedTransitive(tiers, floor, loadBearing)
  {
    hide Routes, Router.IsFloor, Sound, PermittedTransitive;
    if PermittedTransitive(tiers, floor, loadBearing) {
      forall alts: map<string, seq<string>>, req: Router.Request, live: Liveness, d: Decision, f: Tier |
        && Sound(Registry(tiers, alts, floor)) && req.loadBearing == loadBearing
        && Routes(Registry(tiers, alts, floor), req, live, Ok(d))
        && Router.IsFloor(Registry(tiers, alts, floor), req, f)
        ensures !floor(f, d.tier, loadBearing)
      {
        NeverDowngrade(Registry(tiers, alts, floor), req, live, d, f);
      }
    } else {
      TwoMovesBreakTheFloor(tiers, floor, loadBearing);
    }
  }

  lemma {:induction false} TwoMovesBreakTheFloor(tiers: map<string, Tier>, floor: Floor, loadBearing: bool)
    requires Sound(Registry(tiers, map[], floor)) && !PermittedTransitive(tiers, floor, loadBearing)
    ensures !FloorHolds(tiers, floor, loadBearing)
  {
    hide Routes, Sound, Router.IsFloor, PermittedTransitive;
    var x, y, z := ForbiddenTwoMoves(tiers, floor, loadBearing);
    var live: Liveness := (name: string) => name == z;
    var alts: map<string, seq<string>> := map[y := [z]];
    var c, req := Registry(tiers, alts, floor), Router.Request(y, x, loadBearing);
    var d := Decision(tiers[z], tiers[y], FailoverPreservedFloor, loadBearing, false, true);
    OneFallback(tiers, floor, req, x, y, z);
    TwoMoves(c, req, live, d, x, y, z);
    hide Fallbacks;
    assert req.loadBearing == loadBearing && floor(tiers[x], d.tier, loadBearing);
  }

  lemma {:induction false} ForbiddenTwoMoves(
      tiers: map<string, Tier>, floor: Floor, loadBearing: bool) returns (x: string, y: string, z: string)
    requires !PermittedTransitive(tiers, floor, loadBearing)
    ensures x in tiers && y in tiers && z in tiers && y != z && floor(tiers[x], tiers[z], loadBearing)
    ensures !floor(tiers[x], tiers[y], loadBearing) && !floor(tiers[y], tiers[z], loadBearing)
  {
    x, y, z :| MayMove(tiers, floor, loadBearing, x, y) && MayMove(tiers, floor, loadBearing, y, z)
      && !MayMove(tiers, floor, loadBearing, x, z);
  }

  lemma {:induction false} OneFallback(
      tiers: map<string, Tier>, floor: Floor, req: Router.Request, x: string, y: string, z: string)
    requires Sound(Registry(tiers, map[], floor)) && x in tiers && y in tiers && z in tiers && y != z &&
      req.floorTier == x
    ensures var c := Registry(tiers, map[y := [z]], floor); Sound(c) && Router.IsFloor(c, req, tiers[x])
  {
  }

  /** Floor x, minimum y, and y is down with z as its live alternative. */
  lemma {:induction false} TwoMoves(
      c: Registry, req: Router.Request, live: Liveness, d: Decision, x: string, y: string, z: string)
    requires Sound(c) && x in c.tiers && y in c.tiers && z in c.tiers && y != z
    requires !c.floor(c.tiers[x], c.tiers[y], req.loadBearing) && !c.floor(c.tiers[y], c.tiers[z], req.loadBearing)
    requires req.floorTier == x && req.minTier == y && Fallbacks(c, y) == [z] && live(z) && !live(y)
    requires d == Decision(c.tiers[z], c.tiers[y], FailoverPreservedFloor, req.loadBearing, false, true)
    ensures Routes(c, req, live, Ok(d))
  {
    var sel := Router.Decision(c.tiers[y], Router.MinAdequacy, req.loadBearing, false);
    MinimumIsSelected(c, req, sel);
    hide Router.Selects;
    assert c.tiers[y].name == y;
    assert FirstUsable(c, c.tiers[y], req.loadBearing, live, 0);
    assert Follows(c, sel, live, d);
  }

  /** A minimum tier the floor permits is what Select picks. */
  lemma {:induction false} MinimumIsSelected(c: Registry, req: Router.Request, sel: Router.Decision)
    requires Sound(c) && req.minTier in c.tiers
    requires if req.floorTier == "" then !req.loadBearing
      else req.floorTier in c.tiers && !c.floor(c.tiers[req.floorTier], c.tiers[req.minTier], req.loadBearing)
    requires sel == Router.Decision(c.tiers[req.minTier], Router.MinAdequacy, req.loadBearing, false)
    ensures Router.Selects(c, req, Ok(sel))
  {
    hide Before;
    assert req.minTier != "";
    assert Router.IsMinimum(c, req, sel.tier);
    assert Router.Eligible(c, req, sel.tier);
  }

  // ----- agreement with the liveness-only walk -----

  /** Liveness narrowed to what the floor permits from the selected tier, and to that tier itself. */
  function Narrowed(c: Registry, sel: Router.Decision, live: Liveness): Liveness {
    name => live(name) && (name == sel.tier.name || Permitted(c, sel.tier, sel.loadBearing, name))
  }

  lemma {:induction false} FirstLiveIs(c: Registry, names: seq<string>, live: Liveness, i: nat)
    requires i < |names| && names[i] in c.tiers && live(names[i])
    requires forall k | 0 <= k < i :: names[k] !in c.tiers || !live(names[k])
    ensures Router.FirstLive(c, names, live) == Some(c.tiers[names[i]])
    decreases i
  {
    if i > 0 { FirstLiveIs(c, names[1..], live, i - 1); }
  }

  lemma {:induction false} NoFirstLive(c: Registry, names: seq<string>, live: Liveness)
    requires forall a | a in names :: a !in c.tiers || !live(a)
    ensures Router.FirstLive(c, names, live) == None
    decreases |names|
  {
    if names != [] {
      assert names[0] in names && forall a | a in names[1..] :: a in names;
      NoFirstLive(c, names[1..], live);
    }
  }

  /** Optimize is Failover from the selected tier with forbidden tiers counted as down. */
  lemma {:induction false} AgreesWithFailover(
      c: Registry, req: Router.Request, live: Liveness, sel: Router.Decision, r: Result<Decision, Error>)
    requires Sound(c) && Router.Selects(c, req, Ok(sel)) && Routes(c, req, live, r)
    ensures var w := Router.FailedOver(c, sel.tier.name, Narrowed(c, sel, live));
      match r
      case Ok(d) => w == Ok((d.tier, if d.failedOver then Router.FailoverAlternative else Router.PrimaryLive))
      case Err(_) => w == Err(Router.NoLiveTier)
  {
    SelectedIsRegistered(c, req, sel);
    Router.SelectsUnique(c, req, Source(c, req, live, r), Ok(sel));
    hide Router.Selects;
    if !live(sel.tier.name) {
      var alts, narrowed := Fallbacks(c, sel.tier.name), Narrowed(c, sel, live);
      assert forall a | a in alts :: a != sel.tier.name;
      assert forall a | a in alts :: a in c.tiers && narrowed(a) <==> Usable(c, sel.tier, sel.loadBearing, live, a);
      hide Usable, Narrowed, Sound;
      if r.Ok? {
        var i: nat :| FirstUsable(c, sel.tier, sel.loadBearing, live, i) && r.value.tier == c.tiers[alts[i]];
        assert forall k | 0 <= k <= i :: alts[k] in alts;
        FirstLiveIs(c, alts, narrowed, i);
      } else {
        NoFirstLive(c, alts, narrowed);
      }
    }
  }

  lemma {:induction false} SelectedIsRegistered(c: Registry, req: Router.Request, sel: Router.Decision)
    requires Router.Selects(c, req, Ok(sel))
    ensures sel.tier.name in c.tiers && c.tiers[sel.tier.name] == sel.tier && sel.loadBearing == req.loadBearing
  {
    hide Router.IsFloor, Router.IsMinimum, Before;
  }

  // ----- the baseline -----

  /** The cost a request is compared with: the caller's, or its tokens priced at the strongest tier. */
  ghost predicate IsBaseline(c: Registry, ask: Ask, b: Result<real, Error>) {
    if !ask.autoBaseline then b == Ok(ask.baselineCost)
    else if c.tiers == map[] then b == Err(NoBaselineTier)
    else exists s ::
      && Router.Strongest(c, s)
      && b == Ok(Savings.ComputeCost(ask.inputTokens, ask.outputTokens, s.priceIn, s.priceOut))
  }

  /** A request has one baseline. */
  lemma {:induction false} BaselineUnique(c: Registry, ask: Ask, b: Result<real, Error>, b': Result<real, Error>)
    requires IsBaseline(c, ask, b) && IsBaseline(c, ask, b')
    ensures b == b'
  {
    hide Savings.ComputeCost;
    if ask.autoBaseline && c.tiers != map[] {
      var s :| Router.Strongest(c, s)
        && b == Ok(Savings.ComputeCost(ask.inputTokens, ask.outputTokens, s.priceIn, s.priceOut));
      var s' :| Router.Strongest(c, s')
        && b' == Ok(Savings.ComputeCost(ask.inputTokens, ask.outputTokens, s'.priceIn, s'.priceOut));
      BeforeIsStrict(s, s', s);
      hide Before;
    }
  }

  /** Optimize's own routing never lacks a baseline: where Select succeeds there is a tier to price. */
  lemma {:induction false} RoutedHasBaseline(c: Registry, ask: Ask, live: Liveness, d: Decision, b: Result<real, Error>)
    requires Routes(c, ask.route, live, Ok(d)) && IsBaseline(c, ask, b)
    ensures b.Ok?
  {
    SelectedIsRegistered(c, ask.route, Source(c, ask.route, live, Ok(d)).value);
  }

  /** The engine's own baseline is a price that a record accepts: it exists and is not negative. */
  lemma {:induction false} AutoBaselineIsAPrice(
      c: Registry, ask: Ask, live: Liveness, d: Decision, b: Result<real, Error>)
    requires Sound(c) && Routes(c, ask.route, live, Ok(d)) && IsBaseline(c, ask, b)
    requires ask.autoBaseline && 0 <= ask.inputTokens && 0 <= ask.outputTokens
    ensures b.Ok? && 0.0 <= b.value
  {
    RoutedHasBaseline(c, ask, live, d, b);
    var s :| Router.Strongest(c, s)
      && b == Ok(Savings.ComputeCost(ask.inputTokens, ask.outputTokens, s.priceIn, s.priceOut));
    assert c.tiers[s.name] == s;
    hide Routes, IsBaseline, Savings.ComputeCost;
    Savings.CostIsNotNegative(ask.inputTokens, ask.outputTokens, s.priceIn, s.priceOut);
  }

  /** The record of a decision billed to `tag`. */
  function RecordFor(ask: Ask, tag: string, baseline: real, cost: real): Savings.SavingsRecord {
    Savings.SavingsRecord(tag, ask.inputTokens, ask.outputTokens, baseline, cost, ask.at)
  }

  /** What recording one decision does to the log, given the baseline; `refused` says the sink turns the line down. */
  predicate RecordedAt(
      ask: Ask, tag: string, cost: real, refused: bool, b: Result<real, Error>,
      before: seq<Savings.SavingsRecord>, after: seq<Savings.SavingsRecord>, r: Result<(), Error>)
  {
    match b
    case Err(e) => r == Err(e) && after == before
    case Ok(baseline) =>
      if baseline < 0.0 || cost < 0.0 then r == Err(Recording(Savings.NegativeCost(tag))) && after == before
      else
        && after == before + [RecordFor(ask, tag, baseline, cost)]
        && r == if refused then Err(Recording(Savings.SinkFailed)) else Ok(())
  }

  ghost predicate Recorded(
      c: Registry, ask: Ask, tag: string, cost: real, refused: bool,
      before: seq<Savings.SavingsRecord>, after: seq<Savings.SavingsRecord>, r: Result<(), Error>)
  {
    exists b :: IsBaseline(c, ask, b) && RecordedAt(ask, tag, cost, refused, b, before, after, r)
  }

  /** What Optimize hands back for a routing result: a decision can come with the error of recording it. */
  predicate HandsBack(
      r: Result<Decision, Error>, recorded: Result<(), Error>, d: Option<Decision>, error: Option<Error>) {
    match r
    case Ok(decision) => d == Some(decision) && error == if recorded.Ok? then None else Some(recorded.error)
    case Err(e) => d == None && error == Some(e)
  }

  class Optimizer {
    const cfg: Config
    const router: Router.Router
    var savings: Savings.SavingsRecorder?

    constructor (cfg: Config)
      ensures this.cfg == cfg && router.cfg == cfg && savings == null
    {
      this.cfg := cfg;
      router := new Router.Router(cfg);
      savings := null;
    }

    method SetSavingsRecorder(rec: Savings.SavingsRecorder?)
      modifies this`savings
      ensures savings == rec
    {
      savings := rec;
    }

    method ResolveBaselineCost(ask: Ask) returns (b: Result<real, Error>)
      requires Sound(cfg.Contents())
      ensures IsBaseline(cfg.Contents(), ask, b)
    {
      if !ask.autoBaseline { return Ok(ask.baselineCost); }
      var tiers := cfg.Tiers();
      if |tiers| == 0 { return Err(NoBaselineTier); }
      Router.LadderEnds(cfg.Contents(), tiers);
      hide Router.Strongest, IsLadder;
      var strongest := tiers[|tiers| - 1];
      return Ok(Savings.ComputeCost(ask.inputTokens, ask.outputTokens, strongest.priceIn, strongest.priceOut));
    }

    /** Records one decision, if a recorder is installed. `written` is the answer of the recorder's sink. */
    method RecordSavings(ask: Ask, tag: string, cost: real, written: bool) returns (r: Result<(), Error>)
      requires Sound(cfg.Contents())
      modifies savings
      ensures savings == null ==> r == Ok(())
      ensures savings != null ==>
        var refused := savings.emitted.Some? && !written;
        Recorded(cfg.Contents(), ask, tag, cost, refused, old(savings.log), savings.log, r)
    {
      if savings == null { return Ok(()); }
      var b := ResolveBaselineCost(ask);
      hide IsBaseline;
      if b.Err? { return Err(b.error); }
      var out := savings.Record(RecordFor(ask, tag, b.value, cost), written);
      r := if out.Err? then Err(Recording(out.error)) else Ok(());
      assert RecordedAt(ask, tag, cost, savings.emitted.Some? && !written, b, old(savings.log), savings.log, r);
    }

    /** The routing part: the selected tier if it is live, else its first usable fallback. */
    method Route(req: Router.Request, live: Liveness) returns (r: Result<Decision, Error>)
      requires Sound(cfg.Contents()) && router.cfg == cfg
      ensures Routes(cfg.Contents(), req, live, r)
    {
      var selected := router.Select(req);
      if selected.Err? { return Err(Routing(selected.error)); }
      var sel := selected.value;
      SelectedIsRegistered(cfg.Contents(), req, sel);
      hide Router.Selects;
      if live(sel.tier.name) {
        var d := Decision(sel.tier, sel.tier, Selected, req.loadBearing, sel.floored, false);
        assert Follows(cfg.Contents(), sel, live, d);
        return Ok(d);
      }
      var alts := cfg.Alternatives(sel.tier.name);
      for i := 0 to |alts|
        invariant forall k | 0 <= k < i :: !Usable(cfg.Contents(), sel.tier, sel.loadBearing, live, alts[k])
      {
        if alts[i] in cfg.tiers {
          var forbidden := cfg.IsForbiddenDowngrade(sel.tier, cfg.tiers[alts[i]], req.loadBearing);
          if !forbidden && live(alts[i]) {
            var d := Decision(cfg.tiers[alts[i]], sel.tier, FailoverPreservedFloor, req.loadBearing, sel.floored, true);
            assert FirstUsable(cfg.Contents(), sel.tier, sel.loadBearing, live, i);
            assert Follows(cfg.Contents(), sel, live, d);
            return Ok(d);
          }
        }
      }
      assert Stranded(cfg.Contents(), sel, live);
      return Err(NoFloorSafeLiveTier(sel.tier.name));
    }

    /** `written` is the answer of the savings recorder's sink, if it has one. */
    method Optimize(ask: Ask, live: Option<Liveness>, written: bool) returns (d: Option<Decision>, error: Option<Error>)
      requires Sound(cfg.Contents()) && router.cfg == cfg
      modifies savings
      ensures live.None? ==> d == None && error == Some(NilLiveness)
      ensures live.Some? ==>
        exists r, recorded :: Routes(cfg.Contents(), ask.route, live.value, r) && HandsBack(r, recorded, d, error)
      ensures d.None? && savings != null ==> savings.log == old(savings.log)
      ensures d.Some? && savings == null ==> error == None
      ensures d.Some? && savings != null ==>
        var refused, recorded := savings.emitted.Some? && !written, if error.None? then Ok(()) else Err(error.value);
        Recorded(cfg.Contents(), ask, d.value.tier.name, ask.cost, refused, old(savings.log), savings.log, recorded)
    {
      if live.None? { return None, Some(NilLiveness); }
      var r := Route(ask.route, live.value);
      if r.Err? {
        assert HandsBack(r, Ok(()), None, Some(r.error));
        return None, Some(r.error);
      }
      hide Routes, Recorded, Sound;
      var recorded := RecordSavings(ask, r.value.tier.name, ask.cost, written);
      d := Some(r.value);
      error := if recorded.Ok? then None else Some(recorded.error);
      assert HandsBack(r, recorded, d, error);
    }
  }
}
