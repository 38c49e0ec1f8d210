/**
  What the savings recorder accepts, seen from the cached calls: which calls its refusal of a
  negative cost makes fail, and what therefore never gets into the ledger.
 */
module Accepted {
  import opened Prelude
  import opened Protocol
  import opened SlotSafety
  import TierConfig
  import opened Pipeline
  import opened Ledger

  /** Optimize can succeed for call t, with some decision and baseline. */
  ghost predicate CanBill(c: TierConfig.Registry, s: Book, t: Tid, live: Liveness) {
    exists d, x, s' :: BookNext(c, s, Bill(t, live, d, x), s')
  }

  /** Optimize can fail for call t. */
  ghost predicate CanFail(c: TierConfig.Registry, s: Book, t: Tid, live: Liveness) {
    exists code, s' :: BookNext(c, s, OptimizeFails(t, live, code), s')
  }

  lemma {:induction false} BillIsEnabled(
      c: TierConfig.Registry, s: Book, t: Tid, live: Liveness, d: Pipeline.Decision, x: real)
    requires AtCompute(s, t) && t !in s.inflight
    requires Routes(c, s.asks[t].route, live, Ok(d)) && IsBaseline(c, s.asks[t], Ok(x))
    requires 0.0 <= x && 0.0 <= s.asks[t].cost
    ensures CanBill(c, s, t, live)
  {
    hide Routes, IsBaseline;
    var s' := s.(
      entered := s.entered + {t}, inflight := s.inflight + {t}, billed := s.billed[t := d],
      log := s.log + [Line(t, RecordFor(s.asks[t], d.tier.name, x, s.asks[t].cost))]);
    assert BookNext(c, s, Bill(t, live, d, x), s');
  }

  lemma {:induction false} FailureIsEnabled(c: TierConfig.Registry, s: Book, t: Tid, live: Liveness)
    requires AtCompute(s, t) && t !in s.inflight && CannotOptimize(c, s.asks[t], live)
    ensures CanFail(c, s, t, live)
  {
    hide CannotOptimize;
    var s' := s.(sys := Next(s.sys, Step(t, ComputeFails(0))).value, entered := s.entered + {t});
    assert BookNext(c, s, OptimizeFails(t, live, 0), s');
  }

  /**
    Optimize succeeds for a cached call exactly when routing decides, the request has a baseline, and
    neither the baseline nor the request's own cost is negative; otherwise it fails. Whatever is up
    or down, it never may do either.
   */
  lemma {:induction false} BillsExactly(
      c: TierConfig.Registry, s: Book, t: Tid, live: Liveness,
      r: Result<Pipeline.Decision, Pipeline.Error>, b: Result<real, Pipeline.Error>)
    requires AtCompute(s, t) && t !in s.inflight
    requires Routes(c, s.asks[t].route, live, r) && IsBaseline(c, s.asks[t], b)
    ensures CanBill(c, s, t, live) <==> r.Ok? && b.Ok? && 0.0 <= b.value && 0.0 <= s.asks[t].cost
    ensures CanFail(c, s, t, live) <==> !CanBill(c, s, t, live)
  {
    var ask := s.asks[t];
    var succeeds := r.Ok? && b.Ok? && 0.0 <= b.value && 0.0 <= ask.cost;
    hide Routes, IsBaseline, Next;
    if succeeds { BillIsEnabled(c, s, t, live, r.value, b.value); }
    if !succeeds { FailureIsEnabled(c, s, t, live); }
    if d, x, s' :| BookNext(c, s, Bill(t, live, d, x), s') {
      RoutesUnique(c, ask.route, live, r, Ok(d));
      BaselineUnique(c, ask, b, Ok(x));
    }
    if CannotOptimize(c, ask, live) { OptimizeRefused(c, ask, live, r, b); }
  }

  lemma {:induction false} OptimizeRefused(
      c: TierConfig.Registry, ask: Ask, live: Liveness,
      r: Result<Pipeline.Decision, Pipeline.Error>, b: Result<real, Pipeline.Error>)
    requires Routes(c, ask.route, live, r) && IsBaseline(c, ask, b) && CannotOptimize(c, ask, live)
    ensures !(r.Ok? && b.Ok? && 0.0 <= b.value && 0.0 <= ask.cost)
  {
    hide Routes, IsBaseline;
    if e :| Routes(c, ask.route, live, Err(e)) {
      RoutesUnique(c, ask.route, live, r, Err(e));
    } else {
      var d, x :| Routes(c, ask.route, live, Ok(d)) && IsBaseline(c, ask, x) && !Recordable(x, ask.cost);
      BaselineUnique(c, ask, b, x);
    }
  }

  // ----- over whole runs -----

  /** No negative cost gets into the ledger, whatever the callers asked for. */
  lemma {:induction false} NothingNegative(c: TierConfig.Registry, tr: seq<Book>, ls: seq<BookLabel>, n: nat, i: nat)
    requires BookRun(c, tr, ls) && n < |tr| && i < |tr[n].log|
    ensures 0.0 <= tr[n].log[i].rec.baselineCost && 0.0 <= tr[n].log[i].rec.optimizedCost
  {
    hide BookNext, Init;
    if n > 0 {
      assert BookNext(c, tr[n - 1], ls[n - 1], tr[n]);
      if i < |tr[n - 1].log| { NothingNegative(c, tr, ls, n - 1, i); }
      LogGrows(c, tr[n - 1], ls[n - 1], tr[n]);
    }
  }

  lemma {:induction false} LogGrows(c: TierConfig.Registry, s: Book, l: BookLabel, s': Book)
    requires BookNext(c, s, l, s')
    ensures s'.log == s.log || exists line ::
      && s'.log == s.log + [line]
      && 0.0 <= line.rec.baselineCost && 0.0 <= line.rec.optimizedCost
  {
    hide Routes, IsBaseline, CannotOptimize, Next;
  }

  /** Call t is back, and succeeded exactly if its cache call did and its hit, if it is one, was recorded. */
  ghost predicate Judged(c: TierConfig.Registry, s: Book, t: Tid) {
    && t in s.asks && t in s.sys.threads && s.sys.threads[t].pc.Done? && t in s.returned
    && forall b | IsBaseline(c, s.asks[t], b) ::
         s.returned[t] <==>
           && !s.sys.threads[t].pc.out.Failed?
           && (t in s.entered || (b.Ok? && 0.0 <= b.value))
  }

  /** A call that is back stays as it is. */
  lemma {:induction false} JudgedStays(c: TierConfig.Registry, s: Book, l: BookLabel, s': Book, t: Tid)
    requires BookNext(c, s, l, s') && Judged(c, s, t)
    ensures Judged(c, s', t)
  {
    hide Routes, IsBaseline, CannotOptimize, Recordable;
    match l
    case CacheStep(pl) => DoneStays(s.sys, pl, t);
    case OptimizeFails(u, _, code) => DoneStays(s.sys, Step(u, ComputeFails(code)), t);
    case Execute(u, a) => DoneStays(s.sys, Step(u, a), t);
    case _ =>
  }

  lemma {:induction false} DoneStays(s: Sys, l: Label, t: Tid)
    requires Next(s, l).Some? && t in s.threads && s.threads[t].pc.Done?
    ensures t in Next(s, l).value.threads && Next(s, l).value.threads[t] == s.threads[t]
  {
    OtherThreadStays(s, l, t);
  }

  lemma {:induction false} JudgedReturn(
      c: TierConfig.Registry, s: Book, s': Book, t: Tid, x: Result<real, Pipeline.Error>)
    requires BookNext(c, s, Return(t, x), s')
    ensures Judged(c, s', t)
  {
    forall b | IsBaseline(c, s.asks[t], b) && IsBaseline(c, s.asks[t], x)
      ensures b == x
    {
      BaselineUnique(c, s.asks[t], b, x);
    }
    hide IsBaseline;
  }

  /**
    When a cached call succeeds: its cache call returned no error and, if its compute never ran, the
    hit could be recorded: the request has a baseline, and it is not negative.
   */
  lemma {:induction false} SucceedsExactly(
      c: TierConfig.Registry, tr: seq<Book>, ls: seq<BookLabel>, n: nat, t: Tid, b: Result<real, Pipeline.Error>)
    requires BookRun(c, tr, ls) && n < |tr| && t in tr[n].returned
    requires t in tr[n].asks && IsBaseline(c, tr[n].asks[t], b)
    ensures t in tr[n].sys.threads && tr[n].sys.threads[t].pc.Done?
    ensures tr[n].returned[t] <==>
      && !tr[n].sys.threads[t].pc.out.Failed?
      && (t in tr[n].entered || (b.Ok? && 0.0 <= b.value))
  {
    JudgedAlways(c, tr, ls, n, t);
    hide BookRun, IsBaseline;
  }

  lemma {:induction false} JudgedAlways(c: TierConfig.Registry, tr: seq<Book>, ls: seq<BookLabel>, n: nat, t: Tid)
    requires BookRun(c, tr, ls) && n < |tr| && t in tr[n].returned
    ensures Judged(c, tr[n], t)
  {
    hide Init, Judged;
    var s, l := tr[n - 1], ls[n - 1];
    assert BookNext(c, s, l, tr[n]);
    if t in s.returned {
      JudgedAlways(c, tr, ls, n - 1, t);
      JudgedStays(c, s, l, tr[n], t);
    } else {
      OnlyReturnReturns(c, s, l, tr[n], t);
      JudgedReturn(c, s, tr[n], t, l.b);
    }
  }

  lemma {:induction false} OnlyReturnReturns(c: TierConfig.Registry, s: Book, l: BookLabel, s': Book, t: Tid)
    requires BookNext(c, s, l, s') && t !in s.returned && t in s'.returned
    ensures l.Return? && l.t == t
  {
    hide Routes, IsBaseline, CannotOptimize, Recordable, Next;
  }
}
