/**
  The savings ledger of OptimizeCached (pkg/pipeline/cache.go) under concurrency: every
  interleaving of cached calls, layered on the step system of the cache. A cached call is a
  GetOrCompute whose compute is "Optimize, then execute"; Optimize records the bill itself,
  and a call that never entered its compute records a cache hit when it returns.
 */
module Ledger {
  import opened Prelude
  import opened Protocol
  import opened SlotSafety
  import ExactlyOnce
  import opened OneAnswer
  import TierConfig
  import Router
  import opened Pipeline
  import opened Savings
  import Statistics

  datatype Line = Line(t: Tid, rec: SavingsRecord)

  /**
    `entered` holds the calls whose closure has started (its `computed` flag), `inflight` those
    that have Optimize behind them and execute ahead, `billed` the decisions of the calls whose
    Optimize succeeded, and `returned` whether a finished call came back without an error.
   */
  datatype Book = Book(
    sys: Sys, asks: map<Tid, Ask>, entered: set<Tid>, inflight: set<Tid>, billed: map<Tid, Pipeline.Decision>,
    returned: map<Tid, bool>, log: seq<Line>)

  datatype BookLabel =
    | CacheStep(l: Label)
    | OptimizeFails(t: Tid, live: Liveness, code: int)
    | Bill(t: Tid, live: Liveness, d: Pipeline.Decision, baseline: real)
    | Execute(t: Tid, a: Action)
    | Return(t: Tid, b: Result<real, Pipeline.Error>)

  const HitTag := "cache_hit"

  predicate AtCompute(s: Book, t: Tid) {
    t in s.asks && t in s.sys.threads && s.sys.threads[t].pc.Compute?
  }

  /** Optimize returns an error: routing failed, or its record was refused. */
  ghost predicate CannotOptimize(c: TierConfig.Registry, ask: Ask, live: Liveness) {
    || (exists e :: Routes(c, ask.route, live, Err(e)))
    || (exists d, b :: Routes(c, ask.route, live, Ok(d)) && IsBaseline(c, ask, b) && !Recordable(b, ask.cost))
  }

  predicate Recordable(b: Result<real, Pipeline.Error>, cost: real) {
    b.Ok? && 0.0 <= b.value && 0.0 <= cost
  }

  /** With the engine's own baseline, measured tokens and a cost, recording never fails: only routing can. */
  lemma {:induction false} AutoBaselineFailsOnlyInRouting(c: TierConfig.Registry, ask: Ask, live: Liveness)
    requires TierConfig.Sound(c) && ask.autoBaseline
    requires 0 <= ask.inputTokens && 0 <= ask.outputTokens && 0.0 <= ask.cost
    ensures CannotOptimize(c, ask, live) <==> exists e :: Routes(c, ask.route, live, Err(e))
  {
    hide Routes, IsBaseline, TierConfig.Sound;
    forall d, b | Routes(c, ask.route, live, Ok(d)) && IsBaseline(c, ask, b)
      ensures Recordable(b, ask.cost)
    {
      AutoBaselineIsAPrice(c, ask, live, d, b);
    }
  }

  ghost predicate BookNext(c: TierConfig.Registry, s: Book, l: BookLabel, s': Book) {
    match l
    case CacheStep(pl) =>
      && !(pl.Step? && AtCompute(s, pl.t))
      && Next(s.sys, pl) == Some(s'.sys) && s' == s.(sys := s'.sys)
    case OptimizeFails(t, live, code) =>
      && AtCompute(s, t) && t !in s.inflight && CannotOptimize(c, s.asks[t], live)
      && Next(s.sys, Step(t, ComputeFails(code))) == Some(s'.sys)
      && s' == s.(sys := s'.sys, entered := s.entered + {t})
    case Bill(t, live, d, baseline) =>
      && AtCompute(s, t) && t !in s.inflight && Routes(c, s.asks[t].route, live, Ok(d))
      && IsBaseline(c, s.asks[t], Ok(baseline)) && Recordable(Ok(baseline), s.asks[t].cost)
      && s' == s.(
        entered := s.entered + {t}, inflight := s.inflight + {t}, billed := s.billed[t := d],
        log := s.log + [Line(t, RecordFor(s.asks[t], d.tier.name, baseline, s.asks[t].cost))])
    case Execute(t, a) =>
      && AtCompute(s, t) && t in s.inflight && (a.Computes? || a.ComputeFails?)
      && Next(s.sys, Step(t, a)) == Some(s'.sys) && s' == s.(sys := s'.sys, inflight := s.inflight - {t})
    case Return(t, b) =>
      && t in s.asks && t in s.sys.threads && s.sys.threads[t].pc.Done? && t !in s.returned
      && if s.sys.threads[t].pc.out.Failed? then s' == s.(returned := s.returned[t := false])
         else if t in s.entered then s' == s.(returned := s.returned[t := true])
         else
           && IsBaseline(c, s.asks[t], b)
           && s' == if !Recordable(b, 0.0) then s.(returned := s.returned[t := false]) else s.(
             returned := s.returned[t := true],
             log := s.log + [Line(t, RecordFor(s.asks[t], HitTag, b.value, 0.0))])
  }

  ghost predicate BookInit(s: Book) {
    && Init(s.sys) && s.entered == {} && s.inflight == {} && s.billed == map[] && s.returned == map[] && s.log == []
    && forall t | t in s.asks :: t in s.sys.threads && s.sys.threads[t].op.GetOrCompute?
  }

  ghost predicate BookRun(c: TierConfig.Registry, tr: seq<Book>, ls: seq<BookLabel>) {
    && |tr| == |ls| + 1 && BookInit(tr[0])
    && forall i | 0 <= i < |ls| :: BookNext(c, tr[i], ls[i], tr[i + 1])
  }

  // ----- where a call stands -----

  /** On the way to returning an error. */
  predicate Failing(pc: PC) {
    match pc
    case Unlock(out) => out.Failed?
    case Publish(out) => out.Failed?
    case Close(out) => out.Failed?
    case Release(out) => out.Failed?
    case Done(out, _) => out.Failed?
    case _ => false
  }

  lemma {:induction false} FailingRole(s: Sys, t: Tid, a: Action, pc': PC)
    requires Steps(s, t, a, pc')
    ensures s.threads[t].pc.Compute? && a.ComputeFails? ==> Failing(pc')
    ensures Failing(s.threads[t].pc) ==> Failing(pc')
    ensures !s.threads[t].pc.Done?
  {
  }

  lemma {:induction false} StandingRole(s: Sys, t: Tid, a: Action, pc': PC)
    requires Steps(s, t, a, pc')
    ensures Past(s.threads[t].pc) || s.threads[t].pc.Compute? ==> Past(pc')
    ensures s.threads[t].pc.Compute? && a.ComputeFails? ==> Failing(pc')
    ensures Failing(s.threads[t].pc) ==> Failing(pc')
    ensures !s.threads[t].pc.Done?
  {
    PastRole(s, t, a, pc');
    FailingRole(s, t, a, pc');
    hide Past, Failing, Advance;
  }

  /** A call is billed at most once because it never comes back to its compute. */
  predicate CallOk(s: Book, t: Tid) {
    t in s.sys.threads &&
    var pc := s.sys.threads[t].pc;
    && (t in s.inflight ==> pc.Compute? && t in s.entered && t in s.billed)
    && (t in s.entered && t !in s.inflight ==> Past(pc) && (Failing(pc) || (t in s.sys.wins && t in s.billed)))
    && (t in s.billed ==> t in s.entered)
    && (t in s.returned ==> pc.Done? && (s.returned[t] ==> !pc.out.Failed?))
  }

  ghost predicate CallsOk(s: Book) { forall t | t in s.asks :: CallOk(s, t) }

  ghost predicate OnlyAsked(s: Book) {
    s.entered <= s.asks.Keys && s.inflight <= s.asks.Keys && s.billed.Keys <= s.asks.Keys &&
      s.returned.Keys <= s.asks.Keys
  }

  lemma {:induction false} SysStep(s: Sys, t: Tid, a: Action)
    requires Next(s, Step(t, a)).Some?
    ensures t in s.threads && Advance(s, t, a).Some?
    ensures var s' := Next(s, Step(t, a)).value;
      Moves(s, s', t, Advance(s, t, a).value) && s'.wins == WinsAfter(s, t, a)
  {
    Changes(s, t, a, Advance(s, t, a).value);
    hide Advance;
  }

  lemma {:induction false} CallStep(s: Book, s': Book, u: Tid, t: Tid, a: Action)
    requires CallOk(s, u) && Next(s.sys, Step(t, a)) == Some(s'.sys)
    requires s'.asks == s.asks && s'.returned == s.returned && s'.billed == s.billed
    requires s'.entered == s.entered && s'.inflight == s.inflight && !(u == t && s.sys.threads[t].pc.Compute?)
    ensures CallOk(s', u)
  {
    SysStep(s.sys, t, a);
    StandingRole(s.sys, t, a, Advance(s.sys, t, a).value);
    hide Advance, Past, Failing, Next;
  }

  lemma {:induction false} CallTick(s: Book, s': Book, u: Tid)
    requires CallOk(s, u) && s'.sys.threads == s.sys.threads && s'.sys.wins == s.sys.wins
    requires u in s'.entered <==> u in s.entered
    requires u in s'.inflight <==> u in s.inflight
    requires Lookup(s'.billed, u) == Lookup(s.billed, u)
    requires Lookup(s'.returned, u) == Lookup(s.returned, u)
    ensures CallOk(s', u)
  {
  }

  lemma {:induction false} FailStep(s: Book, s': Book, t: Tid, code: int)
    requires CallOk(s, t) && s.sys.threads[t].pc.Compute? && t !in s.inflight
    requires Next(s.sys, Step(t, ComputeFails(code))) == Some(s'.sys)
    requires s' == s.(sys := s'.sys, entered := s.entered + {t})
    ensures CallOk(s', t)
  {
    SysStep(s.sys, t, ComputeFails(code));
    StandingRole(s.sys, t, ComputeFails(code), Advance(s.sys, t, ComputeFails(code)).value);
    hide Advance, Failing, Next;
  }

  lemma {:induction false} ExecuteStep(s: Book, s': Book, t: Tid, a: Action)
    requires CallOk(s, t) && s.sys.threads[t].pc.Compute? && t in s.inflight && (a.Computes? || a.ComputeFails?)
    requires Next(s.sys, Step(t, a)) == Some(s'.sys)
    requires s' == s.(sys := s'.sys, inflight := s.inflight - {t})
    ensures CallOk(s', t)
  {
    SysStep(s.sys, t, a);
    StandingRole(s.sys, t, a, Advance(s.sys, t, a).value);
    hide Advance, Failing, Next;
  }

  lemma {:induction false} OthersStay(s: Book, s': Book, t: Tid, a: Action, u: Tid)
    requires CallOk(s, u) && u != t && Next(s.sys, Step(t, a)) == Some(s'.sys)
    requires u in s'.entered <==> u in s.entered
    requires u in s'.inflight <==> u in s.inflight
    requires s'.billed == s.billed && s'.returned == s.returned
    ensures CallOk(s', u)
  {
    SysStep(s.sys, t, a);
    hide Advance, Past, Failing, Next;
  }

  lemma {:induction false} CallsStep(c: TierConfig.Registry, s: Book, l: BookLabel, s': Book)
    requires CallsOk(s) && OnlyAsked(s) && BookNext(c, s, l, s')
    ensures CallsOk(s') && OnlyAsked(s')
  {
    hide Routes, IsBaseline, Recordable, CannotOptimize, CallOk, Next;
    forall u | u in s'.asks
      ensures CallOk(s', u)
    {
      assert CallOk(s, u);
      CallStays(c, s, l, s', u);
    }
  }

  lemma {:induction false} CallStays(c: TierConfig.Registry, s: Book, l: BookLabel, s': Book, u: Tid)
    requires CallOk(s, u) && u in s.asks && BookNext(c, s, l, s')
    ensures CallOk(s', u)
  {
    hide Routes, IsBaseline, Recordable, CannotOptimize, Past, Failing, Next;
    match l
    case CacheStep(pl) =>
      match pl {
        case Tick(now) => TickStays(s.sys, now); CallTick(s, s', u);
        case Step(t, a) => CallStep(s, s', u, t, a);
      }
    case OptimizeFails(t, _, code) =>
      if u == t { FailStep(s, s', t, code); } else { OthersStay(s, s', t, ComputeFails(code), u); }
    case Execute(t, a) =>
      if u == t { ExecuteStep(s, s', t, a); } else { OthersStay(s, s', t, a, u); }
    case Bill(t, _, _, _) =>
    case Return(t, _) =>
  }

  lemma {:induction false} TickStays(s: Sys, now: int)
    ensures Next(s, Tick(now)).Some?
    ensures Next(s, Tick(now)).value.threads == s.threads && Next(s, Tick(now)).value.wins == s.wins
    ensures Next(s, Tick(s.clock)) == Some(s)
  {
  }

  // ----- the log -----

  /** A call whose hit was recorded: it returned without an error and never entered its compute. */
  predicate IsHit(s: Book, t: Tid) {
    t in s.returned && s.returned[t] && t !in s.entered
  }

  ghost function Hits(s: Book): set<Tid> { set t | t in s.returned && IsHit(s, t) }

  /** A line says what its call owes: the billed tier at its cost, or a hit at no cost. */
  ghost predicate LineOk(c: TierConfig.Registry, s: Book, line: Line) {
    line.t in s.asks &&
    exists b :: IsBaseline(c, s.asks[line.t], Ok(b)) &&
      if line.t in s.billed
      then line.rec == RecordFor(s.asks[line.t], s.billed[line.t].tier.name, b, s.asks[line.t].cost)
      else line.rec == RecordFor(s.asks[line.t], HitTag, b, 0.0)
  }

  function Callers(log: seq<Line>): set<Tid> { set i | 0 <= i < |log| :: log[i].t }

  /** No call has two lines, and the calls that have one are the billed ones and the hits. */
  ghost predicate LogOk(c: TierConfig.Registry, s: Book) {
    && (forall i, j | 0 <= i < j < |s.log| :: s.log[i].t != s.log[j].t)
    && Callers(s.log) == s.billed.Keys + Hits(s)
    && (forall i | 0 <= i < |s.log| :: LineOk(c, s, s.log[i]))
  }

  /** Billed decisions are what Optimize decided for that call's request. */
  ghost predicate BillsOk(c: TierConfig.Registry, s: Book) {
    forall t | t in s.billed && t in s.asks :: exists live :: Routes(c, s.asks[t].route, live, Ok(s.billed[t]))
  }

  lemma {:induction false} CallersSnoc(log: seq<Line>, line: Line)
    ensures Callers(log + [line]) == Callers(log) + {line.t}
  {
    var log' := log + [line];
    forall t | t in Callers(log) + {line.t}
      ensures t in Callers(log')
    {
      if t == line.t { assert log'[|log|].t == t; }
      else {
        var i :| 0 <= i < |log| && log[i].t == t;
        assert log'[i].t == t;
      }
    }
  }

  lemma {:induction false} LinesStay(c: TierConfig.Registry, s: Book, s': Book)
    requires LogOk(c, s) && s'.log == s.log && s'.asks == s.asks && s'.billed == s.billed && Hits(s') == Hits(s)
    ensures LogOk(c, s')
  {
    hide IsBaseline, Hits, Callers;
    forall i | 0 <= i < |s'.log|
      ensures LineOk(c, s', s'.log[i])
    {
      assert LineOk(c, s, s.log[i]);
    }
  }

  lemma {:induction false} LinesGrow(c: TierConfig.Registry, s: Book, s': Book, line: Line)
    requires LogOk(c, s) && s'.log == s.log + [line] && s'.asks == s.asks && line.t !in Callers(s.log)
    requires s'.billed.Keys + Hits(s') == s.billed.Keys + Hits(s) + {line.t}
    requires forall t | t != line.t :: Lookup(s'.billed, t) == Lookup(s.billed, t)
    requires LineOk(c, s', line)
    ensures LogOk(c, s')
  {
    CallersSnoc(s.log, line);
    forall i | 0 <= i < |s.log|
      ensures s.log[i].t != line.t
    {
      assert s.log[i].t in Callers(s.log);
    }
    hide IsBaseline, Hits, Callers;
    forall i | 0 <= i < |s'.log|
      ensures LineOk(c, s', s'.log[i])
    {
      if i < |s.log| {
        assert LineOk(c, s, s.log[i]);
        assert Lookup(s'.billed, s.log[i].t) == Lookup(s.billed, s.log[i].t);
      }
    }
  }

  lemma {:induction false} HitsStay(s: Book, s': Book)
    requires forall t :: IsHit(s', t) == IsHit(s, t)
    ensures Hits(s') == Hits(s)
  {
    hide IsHit;
    forall t
      ensures t in Hits(s') <==> t in Hits(s)
    {
      HitMember(s, t);
      HitMember(s', t);
    }
  }

  lemma {:induction false} HitMember(s: Book, t: Tid)
    ensures t in Hits(s) <==> IsHit(s, t)
  {
  }

  /** A call at its compute with nothing in flight has no line yet. */
  lemma {:induction false} UnbilledAtCompute(c: TierConfig.Registry, s: Book, t: Tid)
    requires CallOk(s, t) && LogOk(c, s) && AtCompute(s, t) && t !in s.inflight
    ensures t !in s.billed && t !in s.returned && t !in s.entered && t !in Callers(s.log)
  {
    HitMember(s, t);
    hide Callers, Hits;
  }

  lemma {:induction false} BillStep(c: TierConfig.Registry, s: Book, l: BookLabel, s': Book)
    requires l.Bill? && CallOk(s, l.t) && LogOk(c, s) && BookNext(c, s, l, s')
    ensures LogOk(c, s')
  {
    var t := l.t;
    UnbilledAtCompute(c, s, t);
    hide LogOk, CallOk, Routes, Callers, IsBaseline;
    HitsStay(s, s');
    var line := Line(t, RecordFor(s.asks[t], l.d.tier.name, l.baseline, s.asks[t].cost));
    LinesGrow(c, s, s', line);
  }

  lemma {:induction false} ReturnStep(c: TierConfig.Registry, s: Book, l: BookLabel, s': Book)
    requires l.Return? && CallOk(s, l.t) && LogOk(c, s) && BookNext(c, s, l, s')
    ensures LogOk(c, s')
  {
    hide IsBaseline, LogOk, CallOk;
    if IsHit(s', l.t) {
      HitStep(c, s, l, s');
    } else {
      HitsStay(s, s');
      hide Hits;
      LinesStay(c, s, s');
    }
  }

  lemma {:induction false} HitStep(c: TierConfig.Registry, s: Book, l: BookLabel, s': Book)
    requires l.Return? && CallOk(s, l.t) && LogOk(c, s) && BookNext(c, s, l, s') && IsHit(s', l.t)
    ensures LogOk(c, s')
  {
    var t := l.t;
    assert t !in s.billed && t !in Callers(s.log) by { HitMember(s, t); hide Callers, Hits; }
    hide LogOk, CallOk, Callers, IsBaseline;
    forall u
      ensures u in Hits(s') <==> u in Hits(s) || u == t
    {
      HitMember(s, u);
      HitMember(s', u);
    }
    hide Hits;
    assert l.b.Ok? && l.b == Ok(l.b.value);
    LinesGrow(c, s, s', Line(t, RecordFor(s.asks[t], HitTag, l.b.value, 0.0)));
  }

  lemma {:induction false} LogStep(c: TierConfig.Registry, s: Book, l: BookLabel, s': Book)
    requires CallsOk(s) && LogOk(c, s) && BookNext(c, s, l, s')
    ensures LogOk(c, s')
  {
    hide Routes, CannotOptimize, IsBaseline, LogOk, Next;
    match l
    case Bill(t, _, _, _) => assert CallOk(s, t); BillStep(c, s, l, s');
    case Return(t, _) => assert CallOk(s, t); ReturnStep(c, s, l, s');
    case OptimizeFails(t, _, _) =>
      assert CallOk(s, t);
      UnbilledAtCompute(c, s, t);
      HitsStay(s, s');
      LinesStay(c, s, s');
    case CacheStep(_) =>
      HitsStay(s, s');
      LinesStay(c, s, s');
    case Execute(_, _) =>
      HitsStay(s, s');
      LinesStay(c, s, s');
  }

  lemma {:induction false} BillsStep(c: TierConfig.Registry, s: Book, l: BookLabel, s': Book)
    requires BillsOk(c, s) && BookNext(c, s, l, s')
    ensures BillsOk(c, s')
  {
    hide Routes, CannotOptimize, IsBaseline, Next;
    forall t | t in s'.billed && t in s'.asks
      ensures exists live :: Routes(c, s'.asks[t].route, live, Ok(s'.billed[t]))
    {
      if l.Bill? && l.t == t { assert Routes(c, s'.asks[t].route, l.live, Ok(s'.billed[t])); }
    }
  }

  lemma {:induction false} BookInvariant(c: TierConfig.Registry, tr: seq<Book>, ls: seq<BookLabel>, i: nat)
    requires BookRun(c, tr, ls) && i < |tr|
    ensures CallsOk(tr[i]) && OnlyAsked(tr[i]) && LogOk(c, tr[i]) && BillsOk(c, tr[i])
  {
    hide BookNext, Init, Routes, IsBaseline;
    if i > 0 {
      BookInvariant(c, tr, ls, i - 1);
      assert BookNext(c, tr[i - 1], ls[i - 1], tr[i]);
      hide CallsOk, OnlyAsked, LogOk, BillsOk;
      CallsStep(c, tr[i - 1], ls[i - 1], tr[i]);
      LogStep(c, tr[i - 1], ls[i - 1], tr[i]);
      BillsStep(c, tr[i - 1], ls[i - 1], tr[i]);
    }
  }

  // ----- main results -----

  predicate HasOneLine(log: seq<Line>, t: Tid, i: nat) {
    i < |log| && log[i].t == t && forall j | 0 <= j < |log| && j != i :: log[j].t != t
  }

  /**
    A cached call that returned without an error has exactly one line in the ledger: a cache hit
    at no cost if its compute never ran, else the tier Optimize billed it to, at its own cost.
   */
  lemma {:induction false} OneLinePerCall(
      c: TierConfig.Registry, tr: seq<Book>, ls: seq<BookLabel>, n: nat, t: Tid) returns (i: nat)
    requires BookRun(c, tr, ls) && n < |tr| && t in tr[n].returned && tr[n].returned[t]
    ensures t in tr[n].asks && HasOneLine(tr[n].log, t, i)
    ensures t !in tr[n].entered ==> tr[n].log[i].rec.tag == "cache_hit" && tr[n].log[i].rec.optimizedCost == 0.0
    ensures t in tr[n].entered ==>
      && t in tr[n].billed && tr[n].log[i].rec.tag == tr[n].billed[t].tier.name
      && tr[n].log[i].rec.optimizedCost == tr[n].asks[t].cost
      && exists live :: Routes(c, tr[n].asks[t].route, live, Ok(tr[n].billed[t]))
    ensures IsBaseline(c, tr[n].asks[t], Ok(tr[n].log[i].rec.baselineCost))
    ensures var rec, ask := tr[n].log[i].rec, tr[n].asks[t];
      rec.inputTokens == ask.inputTokens && rec.outputTokens == ask.outputTokens && rec.at == ask.at
  {
    BookInvariant(c, tr, ls, n);
    var s := tr[n];
    hide BookRun, Routes, IsBaseline;
    assert CallOk(s, t);
    HitMember(s, t);
    assert t in Callers(s.log);
    i :| 0 <= i < |s.log| && s.log[i].t == t;
    assert LineOk(c, s, s.log[i]);
  }

  /** A call that came back with an error has a line exactly if its Optimize succeeded; no call ever has two. */
  lemma {:induction false} ErrorsAreBilledOnlyIfRouted(
      c: TierConfig.Registry, tr: seq<Book>, ls: seq<BookLabel>, n: nat, t: Tid)
    requires BookRun(c, tr, ls) && n < |tr| && t in tr[n].returned && !tr[n].returned[t]
    ensures (exists i :: HasOneLine(tr[n].log, t, i)) <==> t in tr[n].billed
    ensures t in Callers(tr[n].log) <==> t in tr[n].billed
  {
    BookInvariant(c, tr, ls, n);
    var s := tr[n];
    hide BookRun, BillsOk, LineOk;
    HitMember(s, t);
    assert t in Callers(s.log) <==> t in s.billed;
    if t in s.billed {
      var i :| 0 <= i < |s.log| && s.log[i].t == t;
      assert HasOneLine(s.log, t, i);
    }
  }

  lemma {:induction false} DistinctCallers(log: seq<Line>)
    requires forall i, j | 0 <= i < j < |log| :: log[i].t != log[j].t
    ensures |Callers(log)| == |log|
  {
    if log == [] {
      assert Callers(log) == {};
    } else {
      var init, last := log[..|log| - 1], log[|log| - 1];
      DistinctCallers(init);
      CallersSnoc(init, last);
      assert log == init + [last];
      assert last.t !in Callers(init);
    }
  }

  function Records(log: seq<Line>): seq<SavingsRecord> { seq(|log|, i requires 0 <= i < |log| => log[i].rec) }

  /**
    Nothing is lost and nothing is counted twice: the ledger holds one record per successful
    Optimize and one per hit.
   */
  lemma {:induction false} LedgerConserved(c: TierConfig.Registry, tr: seq<Book>, ls: seq<BookLabel>, n: nat)
    requires BookRun(c, tr, ls) && n < |tr|
    ensures |tr[n].log| == |tr[n].billed| + |Hits(tr[n])|
  {
    BookInvariant(c, tr, ls, n);
    var s := tr[n];
    hide BookRun, BillsOk, LineOk;
    DistinctCallers(s.log);
    forall t
      ensures !(t in s.billed && t in Hits(s))
    {
      HitMember(s, t);
      if t in s.billed { assert t in s.asks && CallOk(s, t); }
    }
    hide Callers, Hits;
    assert s.billed.Keys !! Hits(s);
    assert |s.billed.Keys + Hits(s)| == |s.billed.Keys| + |Hits(s)|;
    assert |s.billed.Keys| == |s.billed|;
  }

  /** The aggregated total counts exactly the successful Optimizes and the hits. */
  lemma {:induction false} ReportCountsCalls(
      c: TierConfig.Registry, tr: seq<Book>, ls: seq<BookLabel>, n: nat, known: set<string>, rep: Savings.Report)
    requires BookRun(c, tr, ls) && n < |tr| && IsReport(known, Records(tr[n].log), rep)
    ensures rep.total.count == |tr[n].billed| + |Hits(tr[n])|
  {
    LedgerConserved(c, tr, ls, n);
    assert IsStats(Records(tr[n].log), rep.total);
    hide BookRun, Statistics.Spread, Statistics.Sum;
  }

  /** The hit tag tells hits from bills exactly when no registered tier carries it as its name. */
  lemma {:induction false} HitTagMarksHits(c: TierConfig.Registry, tr: seq<Book>, ls: seq<BookLabel>, n: nat, i: nat)
    requires TierConfig.Sound(c) && HitTag !in c.tiers
    requires BookRun(c, tr, ls) && n < |tr| && i < |tr[n].log|
    ensures tr[n].log[i].rec.tag == HitTag <==> tr[n].log[i].t in Hits(tr[n])
  {
    BookInvariant(c, tr, ls, n);
    var s := tr[n];
    var t := s.log[i].t;
    hide BookRun;
    assert LineOk(c, s, s.log[i]);
    HitMember(s, t);
    assert t in Callers(s.log);
    if t in s.billed {
      assert CallOk(s, t);
      var live :| Routes(c, s.asks[t].route, live, Ok(s.billed[t]));
      BilledIsRegistered(c, s.asks[t].route, live, s.billed[t]);
    }
  }

  lemma {:induction false} BilledIsRegistered(
      c: TierConfig.Registry, req: Router.Request, live: Liveness, d: Pipeline.Decision)
    requires TierConfig.Sound(c) && Routes(c, req, live, Ok(d))
    ensures d.tier.name in c.tiers
  {
    var sel := Source(c, req, live, Ok(d)).value;
    hide Router.Selects, Follows, TierConfig.Sound, Routes;
    SelectedIsRegistered(c, req, sel);
    FollowedIsPermitted(c, sel, live, d);
  }

  /** What a call cost, if it was billed. */
  function BilledCost(s: Book): Tid -> real {
    t => if t in s.billed && t in s.asks then s.asks[t].cost else 0.0
  }

  function Tids(log: seq<Line>): seq<Tid> { seq(|log|, i requires 0 <= i < |log| => log[i].t) }

  lemma {:induction false} LinesCostTheBilled(c: TierConfig.Registry, s: Book, log: seq<Line>)
    requires forall i | 0 <= i < |log| :: LineOk(c, s, log[i])
    ensures Statistics.Sum(OptimizedOf, Records(log)) == Statistics.Sum(BilledCost(s), Tids(log))
  {
    if log != [] {
      assert Records(log) == [log[0].rec] + Records(log[1..]);
      assert Tids(log) == [log[0].t] + Tids(log[1..]);
      assert LineOk(c, s, log[0]);
      LinesCostTheBilled(c, s, log[1..]);
    }
  }

  /** A sum over distinct calls is the sum over the billed ones among them. */
  lemma {:induction false} OnlyBilledCost(s: Book, ts: seq<Tid>)
    ensures var isBilled := (t: Tid) => t in s.billed;
      Statistics.Sum(BilledCost(s), ts) == Statistics.Sum(BilledCost(s), Statistics.Filter(isBilled, ts))
  {
    if ts != [] { OnlyBilledCost(s, ts[1..]); }
  }

  lemma {:induction false} DistinctListing(ts: seq<Tid>, keys: set<Tid>, billed: Tid -> bool)
    requires forall i, j | 0 <= i < j < |ts| :: ts[i] != ts[j]
    requires forall t :: t in keys <==> t in ts && billed(t)
    ensures multiset(Statistics.Filter(billed, ts)) == multiset(keys)
  {
    if ts == [] {
      assert keys == {};
    } else {
      var rest := keys - {ts[0]};
      assert forall t | t in ts[1..] :: t != ts[0];
      assert ts == [ts[0]] + ts[1..];
      DistinctListing(ts[1..], rest, billed);
      assert ts[0] in keys <==> billed(ts[0]);
    }
  }

  /**
    The optimized spend in the ledger is the cost of the billed calls, each once, in any listing:
    hits add nothing to it, and no call is paid for twice.
   */
  lemma {:induction false} SpendIsTheBilledCost(
      c: TierConfig.Registry, tr: seq<Book>, ls: seq<BookLabel>, n: nat, billed: seq<Tid>, known: set<string>,
        rep: Savings.Report)
    requires BookRun(c, tr, ls) && n < |tr| && multiset(billed) == multiset(tr[n].billed.Keys)
    requires IsReport(known, Records(tr[n].log), rep)
    ensures rep.total.sumOptimized == Statistics.Sum(BilledCost(tr[n]), billed)
  {
    BookInvariant(c, tr, ls, n);
    var s := tr[n];
    assert IsStats(Records(s.log), rep.total);
    hide BookRun, BookInit, Statistics.Spread, Statistics.Sum, Statistics.Times, LineOk, IsReport, Hits;
    LinesCostTheBilled(c, s, s.log);
    OnlyBilledCost(s, Tids(s.log));
    var isBilled := (t: Tid) => t in s.billed;
    forall t
      ensures t in s.billed.Keys <==> t in Tids(s.log) && isBilled(t)
    {
      if t in s.billed {
        assert t in Callers(s.log);
        var i :| 0 <= i < |s.log| && s.log[i].t == t;
        assert Tids(s.log)[i] == t;
      }
    }
    DistinctListing(Tids(s.log), s.billed.Keys, isBilled);
    Statistics.SumOrderFree(BilledCost(s), billed, Statistics.Filter(isBilled, Tids(s.log)));
  }

  // ----- the stampede is billed once -----

  function CacheLabel(s: Book, l: BookLabel): Label {
    match l
    case CacheStep(pl) => pl
    case OptimizeFails(t, _, code) => Step(t, ComputeFails(code))
    case Execute(t, a) => Step(t, a)
    case Bill(_, _, _, _) => Tick(s.sys.clock)
    case Return(_, _) => Tick(s.sys.clock)
  }

  function Caches(tr: seq<Book>): seq<Sys> { seq(|tr|, i requires 0 <= i < |tr| => tr[i].sys) }

  function CacheLabels(tr: seq<Book>, ls: seq<BookLabel>): seq<Label>
    requires |ls| <= |tr|
  {
    seq(|ls|, i requires 0 <= i < |ls| => CacheLabel(tr[i], ls[i]))
  }

  /** Billing aside, the run is a run of the cache. */
  lemma {:induction false} ProjectedRun(c: TierConfig.Registry, tr: seq<Book>, ls: seq<BookLabel>)
    requires BookRun(c, tr, ls)
    ensures Run(Caches(tr), CacheLabels(tr, ls))
  {
    hide Init, Routes, CannotOptimize, IsBaseline, Recordable;
    forall i | 0 <= i < |ls|
      ensures Next(tr[i].sys, CacheLabel(tr[i], ls[i])) == Some(tr[i + 1].sys)
    {
      assert BookNext(c, tr[i], ls[i], tr[i + 1]);
      ProjectedStep(c, tr[i], ls[i], tr[i + 1]);
    }
    hide BookNext, CacheLabel;
  }

  lemma {:induction false} ProjectedStep(c: TierConfig.Registry, s: Book, l: BookLabel, s': Book)
    requires BookNext(c, s, l, s')
    ensures Next(s.sys, CacheLabel(s, l)) == Some(s'.sys)
  {
    TickStays(s.sys, s.sys.clock);
    hide Next, Routes, CannotOptimize, IsBaseline, Recordable;
  }

  /**
    However many identical calls race on a cell that is not invalidated and does not expire, at
    most one of those that return without an error is billed to a tier: every other is a hit.
   */
  lemma {:induction false} StampedeIsBilledOnce(
      c: TierConfig.Registry, tr: seq<Book>, ls: seq<BookLabel>, n: nat, cell: Cell, t: Tid, u: Tid)
    requires BookRun(c, tr, ls) && n < |tr| && ExactlyOnce.Quiet(Caches(tr), cell)
    requires Is(tr[n].sys, t, cell) && Is(tr[n].sys, u, cell) && t != u
    requires t in tr[n].returned && tr[n].returned[t] && u in tr[n].returned && tr[n].returned[u]
    ensures IsHit(tr[n], t) || IsHit(tr[n], u)
  {
    BookInvariant(c, tr, ls, n);
    ProjectedRun(c, tr, ls);
    var s := tr[n];
    hide BookRun, Run, LogOk, BillsOk;
    assert CallOk(s, t) && CallOk(s, u);
    assert Caches(tr)[n] == s.sys;
    if t in s.entered && u in s.entered {
      ExactlyOnce.AtMostOneCompute(Caches(tr), CacheLabels(tr, ls), cell, n, t, u);
    }
  }
}
