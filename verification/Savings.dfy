/**
  The savings ledger of pkg/telemetry/savings.go: an append-only log of priced requests
  and its aggregation.
 */
module Savings {
  import opened Prelude
  import opened Statistics

  datatype SavingsRecord = SavingsRecord(
    tag: string, inputTokens: int, outputTokens: int, baselineCost: real, optimizedCost: real, at: int)

  datatype Error = NegativeCost(tag: string) | SinkFailed

  /** The price of a measured request at per-million-token rates. */
  function ComputeCost(inputTokens: int, outputTokens: int, priceIn: real, priceOut: real): real {
    inputTokens as real / 1000000.0 * priceIn + outputTokens as real / 1000000.0 * priceOut
  }

  /**
    What a request costs: its input tokens at the input price and its output tokens at the output
    price, both per million. So a million input tokens alone cost the input price, and a million
    output tokens alone the output price.
   */
  lemma {:induction false} CostInMillions(i: int, o: int, priceIn: real, priceOut: real)
    ensures 1000000.0 * ComputeCost(i, o, priceIn, priceOut) == i as real * priceIn + o as real * priceOut
    ensures ComputeCost(1000000, 0, priceIn, priceOut) == priceIn
    ensures ComputeCost(0, 1000000, priceIn, priceOut) == priceOut
  {
    PerMillion(i as real, priceIn);
    PerMillion(o as real, priceOut);
  }

  lemma PerMillion(n: real, price: real)
    ensures 1000000.0 * (n / 1000000.0 * price) == n * price
  {
  }

  /** Pricing is linear in the tokens: a request priced whole or in parts costs the same. */
  lemma {:induction false} CostIsAdditive(i: int, o: int, i': int, o': int, priceIn: real, priceOut: real)
    ensures ComputeCost(i + i', o + o', priceIn, priceOut)
      == ComputeCost(i, o, priceIn, priceOut) + ComputeCost(i', o', priceIn, priceOut)
  {
    Distributes(i as real / 1000000.0, i' as real / 1000000.0, priceIn);
    Distributes(o as real / 1000000.0, o' as real / 1000000.0, priceOut);
  }

  lemma Distributes(a: real, b: real, c: real)
    ensures (a + b) * c == a * c + b * c
  {
  }

  /** The tokens of one part of a request. */
  datatype Part = Part(inputTokens: int, outputTokens: int)

  function Whole(parts: seq<Part>): Part {
    if parts == [] then Part(0, 0)
    else
      var rest := Whole(parts[1..]);
      Part(parts[0].inputTokens + rest.inputTokens, parts[0].outputTokens + rest.outputTokens)
  }

  function PartCost(priceIn: real, priceOut: real): Part -> real {
    (p: Part) => ComputeCost(p.inputTokens, p.outputTokens, priceIn, priceOut)
  }

  /** However a request is cut into parts, its parts priced one by one cost what the whole costs. */
  lemma {:induction false} PartsCostTheWhole(parts: seq<Part>, priceIn: real, priceOut: real)
    ensures Sum(PartCost(priceIn, priceOut), parts) == PartCost(priceIn, priceOut)(Whole(parts))
  {
    if parts != [] {
      var rest := Whole(parts[1..]);
      PartsCostTheWhole(parts[1..], priceIn, priceOut);
      CostIsAdditive(
        parts[0].inputTokens, parts[0].outputTokens, rest.inputTokens, rest.outputTokens, priceIn, priceOut);
      hide ComputeCost;
    }
  }

  /** A free tier costs nothing, and non-negative tokens and prices never give a negative cost. */
  lemma {:induction false} CostIsNotNegative(i: int, o: int, priceIn: real, priceOut: real)
    requires 0 <= i && 0 <= o && 0.0 <= priceIn && 0.0 <= priceOut
    ensures 0.0 <= ComputeCost(i, o, priceIn, priceOut)
    ensures priceIn == 0.0 && priceOut == 0.0 ==> ComputeCost(i, o, priceIn, priceOut) == 0.0
  {
    Grows(i as real / 1000000.0, 0.0, priceIn);
    Grows(o as real / 1000000.0, 0.0, priceOut);
  }

  // ----- one bucket's statistics -----

  const TagOf: SavingsRecord -> string := (r: SavingsRecord) => r.tag
  const Itself: SavingsRecord -> SavingsRecord := r => r
  const BaselineOf: SavingsRecord -> real := (r: SavingsRecord) => r.baselineCost
  const OptimizedOf: SavingsRecord -> real := (r: SavingsRecord) => r.optimizedCost
  const SavingsOf: SavingsRecord -> real := (r: SavingsRecord) => r.baselineCost - r.optimizedCost

  datatype Stats = Stats(
    count: nat, sumBaseline: real, sumOptimized: real, sumSavings: real,
    minSavings: real, maxSavings: real, meanSavings: real, p95Savings: real)

  const NoStats := Stats(0, 0.0, 0.0, 0.0, 0.0, 0.0, 0.0, 0.0)

  ghost predicate IsStats(recs: seq<SavingsRecord>, st: Stats) {
    && st.count == |recs|
    && st.sumBaseline == Sum(BaselineOf, recs)
    && st.sumOptimized == Sum(OptimizedOf, recs)
    && st.sumSavings == Sum(SavingsOf, recs)
    && if recs == [] then st == NoStats else
      && Times(st.meanSavings, |recs|) == st.sumSavings
      && Spread(Mapped(SavingsOf, recs), st.minSavings, st.maxSavings, st.p95Savings)
  }

  /** Equal bags of records have equal statistics. */
  lemma {:induction false} StatsOrderFree(recs: seq<SavingsRecord>, recs': seq<SavingsRecord>, st: Stats, st': Stats)
    requires multiset(recs) == multiset(recs') && IsStats(recs, st) && IsStats(recs', st')
    ensures st == st'
  {
    assert |multiset(recs)| == |multiset(recs')|;
    SumOrderFree(BaselineOf, recs, recs');
    SumOrderFree(OptimizedOf, recs, recs');
    SumOrderFree(SavingsOf, recs, recs');
    MappedOrderFree(SavingsOf, recs, recs');
    hide Sum, Times, Spread, Mapped;
    if recs != [] {
      SpreadUnique(Mapped(SavingsOf, recs), Mapped(SavingsOf, recs'),
        st.minSavings, st.maxSavings, st.p95Savings, st'.minSavings, st'.maxSavings, st'.p95Savings);
      if st.meanSavings < st'.meanSavings { TimesGrows(|recs|, st.meanSavings, st'.meanSavings); }
      if st'.meanSavings < st.meanSavings { TimesGrows(|recs|, st'.meanSavings, st.meanSavings); }
    }
  }

  lemma {:induction false} SavingsSum(recs: seq<SavingsRecord>)
    ensures Sum(SavingsOf, recs) == Sum(BaselineOf, recs) - Sum(OptimizedOf, recs)
  {
    if recs != [] { SavingsSum(recs[1..]); }
  }

  /**
    What the statistics say: saved is spent less than the baseline, every saving lies between
    min and max, which are attained, as do mean and p95, and of all the records but one more than
    95% saved at most the p95 and 5% at least that.
   */
  lemma {:induction false} StatsMeaning(recs: seq<SavingsRecord>, st: Stats)
    requires recs != [] && IsStats(recs, st)
    ensures st.sumSavings == st.sumBaseline - st.sumOptimized
    ensures var values := Mapped(SavingsOf, recs);
      && st.minSavings in values && st.maxSavings in values
      && (forall x | x in values :: st.minSavings <= x <= st.maxSavings)
      && (|recs| - 1) as real * 95.0 / 100.0 < |Filter(AtMost(st.p95Savings), values)| as real
      && (|recs| - 1) as real * 5.0 / 100.0 <= |Filter(AtLeast(st.p95Savings), values)| as real
    ensures st.meanSavings * st.count as real == st.sumSavings
    ensures st.minSavings <= st.meanSavings <= st.maxSavings
    ensures st.minSavings <= st.p95Savings <= st.maxSavings
  {
    SavingsSum(recs);
    var values := Mapped(SavingsOf, recs);
    SumMapped(SavingsOf, recs);
    assert |values| == |recs|;
    assert Times(st.meanSavings, |recs|) == st.meanSavings * st.count as real;
    hide Mapped, Spread, Sum, Times, Filter;
    SpreadMeaning(values, st.minSavings, st.maxSavings, st.p95Savings);
    MeanBounds(values, st.minSavings, st.meanSavings, st.maxSavings);
  }

  /** One record's statistics, in the record's own fields. */
  lemma {:induction false} StatsOfOne(r: SavingsRecord, st: Stats)
    requires IsStats([r], st)
    ensures st.count == 1 && st.sumBaseline == r.baselineCost && st.sumOptimized == r.optimizedCost
    ensures var saved := r.baselineCost - r.optimizedCost;
      && st.sumSavings == saved && st.minSavings == saved && st.maxSavings == saved
      && st.meanSavings == saved && st.p95Savings == saved
  {
    var saved := r.baselineCost - r.optimizedCost;
    SumOfOne(BaselineOf, r);
    SumOfOne(OptimizedOf, r);
    SumOfOne(SavingsOf, r);
    assert Mapped(SavingsOf, [r]) == [saved];
    StatsMeaning([r], st);
    hide Spread;
    assert st.minSavings in [saved] && st.maxSavings in [saved];
  }

  /** Two logs in a row: their counts and sums add up. */
  lemma {:induction false} StatsOfBoth(a: seq<SavingsRecord>, b: seq<SavingsRecord>, s: Stats, t: Stats, both: Stats)
    requires IsStats(a, s) && IsStats(b, t) && IsStats(a + b, both)
    ensures both.count == s.count + t.count
    ensures both.sumBaseline == s.sumBaseline + t.sumBaseline
    ensures both.sumOptimized == s.sumOptimized + t.sumOptimized
    ensures both.sumSavings == s.sumSavings + t.sumSavings
  {
    SumConcat(BaselineOf, a, b);
    SumConcat(OptimizedOf, a, b);
    SumConcat(SavingsOf, a, b);
    hide Sum, Spread, Times, Mapped;
  }

  method SavingsStatsOf(recs: seq<SavingsRecord>) returns (st: Stats)
    ensures IsStats(recs, st)
  {
    if |recs| == 0 { return NoStats; }
    var savings, sumBaseline, sumOptimized, sumSavings := [], 0.0, 0.0, 0.0;
    for i := 0 to |recs|
      invariant savings == Mapped(SavingsOf, recs[..i])
      invariant sumBaseline == Sum(BaselineOf, recs[..i])
      invariant sumOptimized == Sum(OptimizedOf, recs[..i])
      invariant sumSavings == Sum(SavingsOf, recs[..i])
    {
      var s := SavingsOf(recs[i]);
      savings := savings + [s];
      sumBaseline := sumBaseline + recs[i].baselineCost;
      sumOptimized := sumOptimized + recs[i].optimizedCost;
      sumSavings := sumSavings + s;
      SumStep(BaselineOf, recs, i);
      SumStep(OptimizedOf, recs, i);
      SumStep(SavingsOf, recs, i);
      AllStep(SavingsOf, recs, i);
      hide Sum, Mapped;
    }
    assert recs[..|recs|] == recs;
    st := Summary(recs, savings, sumBaseline, sumOptimized, sumSavings);
  }

  method Summary(recs: seq<SavingsRecord>, savings: seq<real>, sumBaseline: real, sumOptimized: real, sumSavings: real)
      returns (st: Stats)
    requires recs != [] && |savings| == |recs| && savings == Mapped(SavingsOf, recs)
    requires sumBaseline == Sum(BaselineOf, recs) && sumOptimized == Sum(OptimizedOf, recs) &&
      sumSavings == Sum(SavingsOf, recs)
    ensures IsStats(recs, st)
  {
    var lo, hi, p95 := OrderStatistics(savings);
    hide Sum, Mapped, Spread;
    assert |savings| == |recs|;
    st := Stats(|recs|, sumBaseline, sumOptimized, sumSavings, lo, hi, sumSavings / |recs| as real, p95);
    assert Times(st.meanSavings, |recs|) == sumSavings;
  }

  // ----- the report -----

  datatype Report = Report(tags: map<string, Stats>, unaccounted: Stats, total: Stats)

  ghost predicate IsReport(known: set<string>, log: seq<SavingsRecord>, rep: Report) {
    && rep.tags.Keys == TagsSeen(known, TagOf, log)
    && (forall n | n in rep.tags :: IsStats(Filter(TagIs(TagOf, n), log), rep.tags[n]))
    && IsStats(Filter(Unattributed(known, TagOf), log), rep.unaccounted)
    && IsStats(log, rep.total)
  }

  /** The report depends on the bag of records, not on the order in which they were recorded. */
  lemma {:induction false} ReportOrderFree(
      known: set<string>, log: seq<SavingsRecord>, log': seq<SavingsRecord>, rep: Report, rep': Report)
    requires multiset(log) == multiset(log') && IsReport(known, log, rep) && IsReport(known, log', rep')
    ensures rep == rep'
  {
    SeenOrderFree(known, TagOf, log, log');
    SeenOrderFree(known, TagOf, log', log);
    assert rep.tags == rep'.tags by { TagsOrderFree(known, log, log', rep, rep'); }
    hide IsStats, Filter, TagsSeen;
    BucketOrderFree(Unattributed(known, TagOf), log, log', rep.unaccounted, rep'.unaccounted);
    StatsOrderFree(log, log', rep.total, rep'.total);
  }

  lemma {:induction false} TagsOrderFree(
      known: set<string>, log: seq<SavingsRecord>, log': seq<SavingsRecord>, rep: Report, rep': Report)
    requires multiset(log) == multiset(log') && IsReport(known, log, rep) && IsReport(known, log', rep')
    requires rep.tags.Keys == rep'.tags.Keys
    ensures rep.tags == rep'.tags
  {
    hide IsStats, Filter, TagsSeen;
    forall n | n in rep.tags
      ensures rep.tags[n] == rep'.tags[n]
    {
      BucketOrderFree(TagIs(TagOf, n), log, log', rep.tags[n], rep'.tags[n]);
    }
  }

  lemma {:induction false} BucketOrderFree(
      p: SavingsRecord -> bool, log: seq<SavingsRecord>, log': seq<SavingsRecord>, st: Stats, st': Stats)
    requires multiset(log) == multiset(log') && IsStats(Filter(p, log), st) && IsStats(Filter(p, log'), st')
    ensures st == st'
  {
    hide IsStats, Filter;
    FilterOrderFree(p, log, log');
    StatsOrderFree(Filter(p, log), Filter(p, log'), st, st');
  }

  const CountOf: Stats -> real := (st: Stats) => st.count as real
  const SumBaselineOf: Stats -> real := (st: Stats) => st.sumBaseline
  const SumOptimizedOf: Stats -> real := (st: Stats) => st.sumOptimized
  const SumSavingsOf: Stats -> real := (st: Stats) => st.sumSavings

  /** Every total is the sum of the accounted tags' figures, listed in any order, plus the unaccounted one. */
  lemma {:induction false} ReportReconciles(
      known: set<string>, log: seq<SavingsRecord>, rep: Report, names: seq<string>)
    requires IsReport(known, log, rep) && multiset(names) == multiset(rep.tags.Keys)
    ensures Sum(Figure(rep.tags, CountOf), names) + rep.unaccounted.count as real == rep.total.count as real
    ensures Sum(Figure(rep.tags, SumBaselineOf), names) + rep.unaccounted.sumBaseline == rep.total.sumBaseline
    ensures Sum(Figure(rep.tags, SumOptimizedOf), names) + rep.unaccounted.sumOptimized == rep.total.sumOptimized
    ensures Sum(Figure(rep.tags, SumSavingsOf), names) + rep.unaccounted.sumSavings == rep.total.sumSavings
  {
    SumOfOnes(Filter(Unattributed(known, TagOf), log));
    SumOfOnes(log);
    forall n | n in rep.tags
      ensures CountOf(rep.tags[n]) == Sum(One(), Filter(TagIs(TagOf, n), log))
    {
      SumOfOnes(Filter(TagIs(TagOf, n), log));
    }
    hide Sum, Figure, Filter, TagsSeen, Spread, Times, One;
    FiguresAddUp(known, TagOf, log, rep.tags, names, CountOf, One());
    FiguresAddUp(known, TagOf, log, rep.tags, names, SumBaselineOf, BaselineOf);
    FiguresAddUp(known, TagOf, log, rep.tags, names, SumOptimizedOf, OptimizedOf);
    FiguresAddUp(known, TagOf, log, rep.tags, names, SumSavingsOf, SavingsOf);
  }

  /**
    Where one record goes: to its tag's bucket, unless the tag is empty or not among the registered
    tags, when there are any; then to the unaccounted one.
   */
  lemma {:induction false} ReportOfOne(known: set<string>, r: SavingsRecord, rep: Report)
    requires IsReport(known, [r], rep)
    ensures rep.total.count == 1
    ensures if r.tag == "" || (known != {} && r.tag !in known)
      then rep.tags == map[] && rep.unaccounted == rep.total
      else rep.tags == map[r.tag := rep.total] && rep.unaccounted.count == 0
  {
    var accounted := Accounted(known, r.tag);
    assert TagsSeen(known, TagOf, [r]) == if accounted then {r.tag} else {} by {
      assert TagOf([r][0]) == r.tag;
    }
    assert [r][1..] == [];
    FilterOne(Unattributed(known, TagOf), r);
    FilterOne(TagIs(TagOf, r.tag), r);
    hide IsStats, TagsSeen, Filter;
    if accounted {
      StatsOrderFree([r], [r], rep.tags[r.tag], rep.total);
      EmptyStats(rep.unaccounted);
    } else {
      StatsOrderFree([r], [r], rep.unaccounted, rep.total);
    }
    StatsCount([r], rep.total);
  }

  lemma EmptyStats(st: Stats)
    requires IsStats([], st)
    ensures st.count == 0
  {
  }

  lemma StatsCount(recs: seq<SavingsRecord>, st: Stats)
    requires IsStats(recs, st)
    ensures st.count == |recs|
  {
  }

  class SavingsRecorder {
    var log: seq<SavingsRecord>
    /** The lines the sink accepted, if a sink is installed. */
    var emitted: Option<seq<SavingsRecord>>
    const known: set<string>

    constructor (sink: bool, tags: seq<string>)
      ensures log == [] && emitted == (if sink then Some([]) else None)
      ensures known == (set t | t in tags && t != "")
    {
      log, emitted := [], if sink then Some([]) else None;
      known := set t | t in tags && t != "";
    }

    /** `written` is the sink's answer. A refused line does not undo the accounting. */
    method Record(rec: SavingsRecord, written: bool) returns (r: Result<(), Error>)
      modifies this
      ensures rec.baselineCost < 0.0 || rec.optimizedCost < 0.0 ==>
        r == Err(NegativeCost(rec.tag)) && log == old(log) && emitted == old(emitted)
      ensures 0.0 <= rec.baselineCost && 0.0 <= rec.optimizedCost ==>
        && log == old(log) + [rec]
        && r == (if emitted.None? || written then Ok(()) else Err(SinkFailed))
        && emitted == if old(emitted).Some? && written then Some(old(emitted).value + [rec]) else old(emitted)
    {
      if rec.baselineCost < 0.0 || rec.optimizedCost < 0.0 { return Err(NegativeCost(rec.tag)); }
      log := log + [rec];
      if emitted.Some? {
        if !written { return Err(SinkFailed); }
        emitted := Some(emitted.value + [rec]);
      }
      return Ok(());
    }

    method Aggregate() returns (rep: Report)
      ensures IsReport(known, log, rep)
    {
      var perTag, unaccounted, all := Bucket(known, TagOf, Itself, log);
      hide IsStats, Column;
      var tags := SavingsPerTag(perTag);
      var un := SavingsStatsOf(unaccounted);
      var total := SavingsStatsOf(all);
      rep := Report(tags, un, total);
      BucketsMakeReport(known, log, perTag, rep);
    }
  }

  method SavingsPerTag(perTag: map<string, seq<SavingsRecord>>) returns (tags: map<string, Stats>)
    ensures tags.Keys == perTag.Keys && forall n | n in perTag :: IsStats(perTag[n], tags[n])
  {
    hide IsStats;
    tags := map[];
    var left := perTag.Keys;
    while left != {}
      invariant tags.Keys == perTag.Keys - left && left <= perTag.Keys
      invariant forall n | n in tags :: IsStats(perTag[n], tags[n])
      decreases |left|
    {
      var n :| n in left;
      var st := SavingsStatsOf(perTag[n]);
      tags := tags[n := st];
      left := left - {n};
    }
  }

  lemma {:induction false} BucketsMakeReport(
      known: set<string>, log: seq<SavingsRecord>, perTag: map<string, seq<SavingsRecord>>, rep: Report)
    requires Filed(known, TagOf, Itself, log, perTag) && rep.tags.Keys == perTag.Keys
    requires forall n | n in perTag :: IsStats(perTag[n], rep.tags[n])
    requires IsStats(Column(Unattributed(known, TagOf), Itself, log), rep.unaccounted)
    requires IsStats(Mapped(Itself, log), rep.total)
    ensures IsReport(known, log, rep)
  {
    hide IsStats, TagsSeen, Filter, Mapped;
    forall n | n in perTag
      ensures IsStats(Filter(TagIs(TagOf, n), log), rep.tags[n])
    {
      SameRecords(Filter(TagIs(TagOf, n), log));
    }
    SameRecords(Filter(Unattributed(known, TagOf), log));
    SameRecords(log);
  }

  lemma SameRecords(recs: seq<SavingsRecord>)
    ensures Mapped(Itself, recs) == recs
  {
  }
}
