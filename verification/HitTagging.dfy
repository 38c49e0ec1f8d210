/**
  The tag of a cache hit is a tier name like any other to the ledger. It tells hits from bills
  in every run exactly when no tier is registered under it.
 */
module HitTagging {
  import opened Prelude
  import opened Protocol
  import opened Reachability
  import opened OneAnswer
  import TierConfig
  import Router
  import opened Pipeline
  import opened Ledger

  /** In every state of every run a line carries the hit tag if and only if its call is a hit. */
  ghost predicate TagMarksHits(c: TierConfig.Registry) {
    forall tr: seq<Book>, ls: seq<BookLabel>, n: nat, i: nat | BookRun(c, tr, ls) && n < |tr| && i < |tr[n].log| ::
      tr[n].log[i].rec.tag == HitTag <==> tr[n].log[i].t in Hits(tr[n])
  }

  lemma {:induction false} TagMarksHitsExactly(c: TierConfig.Registry)
    requires TierConfig.Sound(c)
    ensures TagMarksHits(c) <==> HitTag !in c.tiers
  {
    hide BookRun, TierConfig.Sound, Hits;
    if HitTag !in c.tiers {
      forall tr: seq<Book>, ls: seq<BookLabel>, n: nat, i: nat | BookRun(c, tr, ls) && n < |tr| && i < |tr[n].log|
        ensures tr[n].log[i].rec.tag == HitTag <==> tr[n].log[i].t in Hits(tr[n])
      {
        HitTagMarksHits(c, tr, ls, n, i);
      }
    } else {
      var tr, ls := MistakenRun(c);
      assert !(tr[|ls|].log[0].rec.tag == HitTag <==> tr[|ls|].log[0].t in Hits(tr[|ls|]));
    }
  }

  // ----- the run of the cache -----

  /** The labels and states behind a reachable state. */
  lemma {:induction false} RunOf(s: Sys, ls: seq<Label>, s': Sys) returns (tr: seq<Sys>)
    requires Exec(s, ls) == Some(s')
    ensures |tr| == |ls| + 1 && tr[0] == s && tr[|ls|] == s'
    ensures forall i | 0 <= i < |ls| :: Next(tr[i], ls[i]) == Some(tr[i + 1])
    decreases |ls|
  {
    hide Next;
    if ls == [] {
      tr := [s];
    } else {
      var rest := RunOf(Next(s, ls[0]).value, ls[1..], s');
      tr := [s] + rest;
      forall i | 0 <= i < |ls|
        ensures Next(tr[i], ls[i]) == Some(tr[i + 1])
      {
        if i > 0 { assert rest[i - 1] == tr[i] && ls[1..][i - 1] == ls[i]; }
      }
    }
  }

  const OneCell := Cell(0, "k")

  const OneCall := Sys({}, map[], 0, map[], map[], map[], map[], map[], map[], map[], {},
    map[1 := Thread(0, GetOrCompute("k", 0), Start)], {}, {})

  lemma {:induction false} OneCallComputes() returns (s: Sys)
    ensures Init(OneCall) && Leads(OneCall, s) && At(s, 1, Compute(Unguarded, None))
  {
    hide Leads;
    assert Unhindered(OneCall, 1, OneCell);
    var a := BecomesOwner(OneCall, 1, OneCell);
    var b := StepTo(OneCall, a, 1, Go, Snapshot(Unguarded));
    s := StepTo(OneCall, b, 1, Go, Compute(Unguarded, None));
  }

  // ----- the run of the ledger -----

  /** A request for the tier named like the hit tag, at no cost. */
  const Mistaken := Ask(Router.Request(HitTag, "", false), 0.0, 0.0, false, 0, 0, 0)

  /** Before anything is billed. */
  function Unbilled(s: Sys): Book { Book(s, map[1 := Mistaken], {}, {}, map[], map[], []) }

  lemma {:induction false} MistakenRoutes(c: TierConfig.Registry, d: Pipeline.Decision)
    requires TierConfig.Sound(c) && HitTag in c.tiers
    requires d == Pipeline.Decision(c.tiers[HitTag], c.tiers[HitTag], Selected, false, false, false)
    ensures Routes(c, Mistaken.route, (name: string) => true, Ok(d)) && d.tier.name == HitTag
  {
    var sel := Router.Decision(c.tiers[HitTag], Router.MinAdequacy, false, false);
    MinimumIsSelected(c, Mistaken.route, sel);
    hide Router.Selects;
    assert Follows(c, sel, (name: string) => true, d);
  }

  /** As long as the call has not been at its compute, cache steps are steps of the ledger. */
  lemma {:induction false} LiftedRun(
      c: TierConfig.Registry, tr: seq<Sys>, ls: seq<Label>) returns (bs: seq<Book>, bls: seq<BookLabel>)
    requires Run(tr, ls) && tr[0] == OneCall && At(tr[|ls|], 1, Compute(Unguarded, None))
    ensures BookRun(c, bs, bls) && |bs| == |tr| && bs[|ls|] == Unbilled(tr[|ls|])
  {
    bs := seq(|tr|, i requires 0 <= i < |tr| => Unbilled(tr[i]));
    bls := seq(|ls|, i requires 0 <= i < |ls| => CacheStep(ls[i]));
    hide Next, Init;
    forall i | 0 <= i < |ls|
      ensures BookNext(c, bs[i], bls[i], bs[i + 1])
    {
      assert Next(tr[i], ls[i]) == Some(tr[i + 1]);
      if ls[i].Step? && AtCompute(Unbilled(tr[i]), ls[i].t) { PastFor(tr, ls, i, |ls|, 1); }
      hide Run, AtCompute;
    }
    hide BookNext;
  }

  /** The one call, at its compute, is billed to the tier named like the hit tag. */
  lemma {:induction false} MistakenBill(c: TierConfig.Registry, s: Sys) returns (l: BookLabel, b: Book)
    requires TierConfig.Sound(c) && HitTag in c.tiers && At(s, 1, Compute(Unguarded, None))
    ensures BookNext(c, Unbilled(s), l, b)
    ensures b.log == [Line(1, RecordFor(Mistaken, HitTag, 0.0, 0.0))] && b.returned == map[]
  {
    var d := Pipeline.Decision(c.tiers[HitTag], c.tiers[HitTag], Selected, false, false, false);
    MistakenRoutes(c, d);
    hide Routes, TierConfig.Sound;
    l := Bill(1, (name: string) => true, d, 0.0);
    b := Unbilled(s).(entered := {1}, inflight := {1}, billed := map[1 := d],
      log := [Line(1, RecordFor(Mistaken, HitTag, 0.0, 0.0))]);
  }

  lemma {:induction false} RunSnoc(c: TierConfig.Registry, tr: seq<Book>, ls: seq<BookLabel>, l: BookLabel, b: Book)
    requires BookRun(c, tr, ls) && BookNext(c, tr[|ls|], l, b)
    ensures BookRun(c, tr + [b], ls + [l])
  {
    hide BookNext, BookInit;
    var tr', ls' := tr + [b], ls + [l];
    forall i | 0 <= i < |ls'|
      ensures BookNext(c, tr'[i], ls'[i], tr'[i + 1])
    {
      if i < |ls| { assert tr'[i] == tr[i] && tr'[i + 1] == tr[i + 1]; }
    }
  }

  /** A run whose one line carries the hit tag although its call was billed and is no hit. */
  lemma {:induction false} MistakenRun(c: TierConfig.Registry) returns (tr: seq<Book>, ls: seq<BookLabel>)
    requires TierConfig.Sound(c) && HitTag in c.tiers
    ensures BookRun(c, tr, ls) && |ls| < |tr| && |tr[|ls|].log| == 1
    ensures tr[|ls|].log[0].rec.tag == HitTag && tr[|ls|].log[0].t !in Hits(tr[|ls|])
  {
    var s := OneCallComputes();
    var cls :| Exec(OneCall, cls) == Some(s);
    var ctr := RunOf(OneCall, cls, s);
    hide Next, Init, Exec, BookNext, BookInit, TierConfig.Sound, OneCall;
    var bs, bls := LiftedRun(c, ctr, cls);
    var l, b := MistakenBill(c, s);
    RunSnoc(c, bs, bls, l, b);
    hide BookRun;
    tr, ls := bs + [b], bls + [l];
    assert tr[|ls|] == b && |ls| < |tr|;
  }
}
