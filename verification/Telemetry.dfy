/** The token ledger of pkg/telemetry/telemetry.go: usage records and their distribution by tag. */
module Telemetry {
  import opened Prelude
  import opened Ordering
  import opened Statistics

  datatype Record = Record(tag: string, inputTokens: int, outputTokens: int, at: int)

  datatype Error = NegativeTokens(tag: string) | SinkFailed

  const TagOf: Record -> string := (r: Record) => r.tag
  const TotalTokens: Record -> int := (r: Record) => r.inputTokens + r.outputTokens
  const AsReal: int -> real := (n: int) => n as real
  const TokensOf: Record -> real := (r: Record) => (r.inputTokens + r.outputTokens) as real

  datatype TagStats = TagStats(
    count: nat, sumTokens: int, minTokens: int, maxTokens: int, meanTokens: real, p95Tokens: real)

  const NoStats := TagStats(0, 0, 0, 0, 0.0, 0.0)

  ghost predicate IsStats(vals: seq<int>, st: TagStats) {
    && st.count == |vals|
    && st.sumTokens as real == Sum(AsReal, vals)
    && if vals == [] then st == NoStats else
      && Times(st.meanTokens, |vals|) == st.sumTokens as real
      && Spread(Mapped(AsReal, vals), st.minTokens as real, st.maxTokens as real, st.p95Tokens)
  }

  /** Equal bags of token counts have equal statistics. */
  lemma {:induction false} StatsOrderFree(vals: seq<int>, vals': seq<int>, st: TagStats, st': TagStats)
    requires multiset(vals) == multiset(vals') && IsStats(vals, st) && IsStats(vals', st')
    ensures st == st'
  {
    assert |multiset(vals)| == |multiset(vals')|;
    SumOrderFree(AsReal, vals, vals');
    MappedOrderFree(AsReal, vals, vals');
    hide Sum, Times, Spread, Mapped;
    if vals != [] {
      SpreadUnique(Mapped(AsReal, vals), Mapped(AsReal, vals'),
        st.minTokens as real, st.maxTokens as real, st.p95Tokens, st'.minTokens as real, st'.maxTokens as real,
          st'.p95Tokens);
      if st.meanTokens < st'.meanTokens { TimesGrows(|vals|, st.meanTokens, st'.meanTokens); }
      if st'.meanTokens < st.meanTokens { TimesGrows(|vals|, st'.meanTokens, st.meanTokens); }
    }
  }

  /** Min and max are attained and bound every count; mean and p95 lie between; the p95 covers its share. */
  lemma {:induction false} StatsMeaning(vals: seq<int>, st: TagStats)
    requires vals != [] && IsStats(vals, st)
    ensures st.minTokens in vals && st.maxTokens in vals
    ensures forall v | v in vals :: st.minTokens <= v <= st.maxTokens
    ensures st.minTokens as real <= st.meanTokens <= st.maxTokens as real
    ensures st.minTokens as real <= st.p95Tokens <= st.maxTokens as real
    ensures (|vals| - 1) as real * 95.0 / 100.0 < |Filter(AtMost(st.p95Tokens), Mapped(AsReal, vals))| as real
    ensures (|vals| - 1) as real * 5.0 / 100.0 <= |Filter(AtLeast(st.p95Tokens), Mapped(AsReal, vals))| as real
    ensures st.meanTokens * st.count as real == st.sumTokens as real
  {
    var values := Mapped(AsReal, vals);
    SumMapped(AsReal, vals);
    assert |values| == |vals| && Times(st.meanTokens, |vals|) == st.meanTokens * st.count as real;
    hide Spread, Sum, Times, Filter;
    SpreadMeaning(values, st.minTokens as real, st.maxTokens as real, st.p95Tokens);
    MeanBounds(values, st.minTokens as real, st.meanTokens, st.maxTokens as real);
    forall v | v in vals
      ensures v as real in values
    {
      var i :| 0 <= i < |vals| && vals[i] == v;
      assert values[i] == v as real;
    }
    forall v: int | v as real in values
      ensures v in vals
    {
      var i :| 0 <= i < |values| && values[i] == v as real;
      assert vals[i] == v;
    }
  }

  function IntLe(): (int, int) -> bool { (a, b) => a <= b }

  /** Sorts the counts and reads the statistics off. */
  method StatsOf(vals: seq<int>) returns (st: TagStats)
    ensures IsStats(vals, st)
  {
    if |vals| == 0 { return NoStats; }
    SortedCounts(vals);
    hide Percentile, Sort, Sum, Sorted, Arranges, Times, Spread, Mapped;
    var sorted := Sort(IntLe(), vals);
    var sum := Total(sorted);
    var p95 := Percentile(Mapped(AsReal, sorted), 95.0);
    SortedSpread(sorted, vals);
    MeanTimes(sum as real, |vals|);
    st := TagStats(|vals|, sum, sorted[0], sorted[|sorted| - 1], sum as real / |vals| as real, p95);
  }

  method Total(vals: seq<int>) returns (sum: int)
    ensures sum as real == Sum(AsReal, vals)
  {
    sum := 0;
    for i := 0 to |vals|
      invariant sum as real == Sum(AsReal, vals[..i])
    {
      SumStep(AsReal, vals, i);
      hide Sum;
      sum := sum + vals[i];
    }
    assert vals[..|vals|] == vals;
  }

  lemma MeanTimes(sum: real, n: nat)
    requires 0 < n
    ensures Times(sum / n as real, n) == sum
  {
  }

  lemma {:induction false} SortedSpread(sorted: seq<int>, vals: seq<int>)
    requires sorted != [] && Arranges(Mapped(AsReal, sorted), Mapped(AsReal, vals))
    ensures Spread(Mapped(AsReal, vals), sorted[0] as real, sorted[|sorted| - 1] as real,
      Percentile(Mapped(AsReal, sorted), 95.0))
  {
    hide Percentile, Arranges;
    var p95 := Percentile(Mapped(AsReal, sorted), 95.0);
    assert ReadsOff(Mapped(AsReal, sorted), sorted[0] as real, sorted[|sorted| - 1] as real, p95);
  }

  lemma {:induction false} SortedCounts(vals: seq<int>)
    ensures var sorted := Sort(IntLe(), vals);
      && |sorted| == |vals| && Sum(AsReal, sorted) == Sum(AsReal, vals)
      && Arranges(Mapped(AsReal, sorted), Mapped(AsReal, vals))
  {
    var sorted := Sort(IntLe(), vals);
    assert TotalOrder(IntLe());
    SortSorts(IntLe(), vals);
    SumOrderFree(AsReal, sorted, vals);
    MappedOrderFree(AsReal, sorted, vals);
    hide Sort, Sum, TotalOrder;
    var values := Mapped(AsReal, sorted);
    forall i, j | 0 <= i <= j < |values|
      ensures values[i] <= values[j]
    {
      if i < j { assert IntLe()(sorted[i], sorted[j]); }
    }
  }

  // ----- the report -----

  datatype Report = Report(tags: map<string, TagStats>, unaccounted: TagStats, total: TagStats)

  ghost predicate IsReport(known: set<string>, log: seq<Record>, rep: Report) {
    && rep.tags.Keys == TagsSeen(known, TagOf, log)
    && (forall n | n in rep.tags :: IsStats(Column(TagIs(TagOf, n), TotalTokens, log), rep.tags[n]))
    && IsStats(Column(Unattributed(known, TagOf), TotalTokens, log), rep.unaccounted)
    && IsStats(Mapped(TotalTokens, log), rep.total)
  }

  lemma {:induction false} ColumnOrderFree(p: Record -> bool, log: seq<Record>, log': seq<Record>)
    requires multiset(log) == multiset(log')
    ensures multiset(Column(p, TotalTokens, log)) == multiset(Column(p, TotalTokens, log'))
  {
    FilterOrderFree(p, log, log');
    MappedOrderFree(TotalTokens, Filter(p, log), Filter(p, log'));
  }

  /** The same records in any order of arrival give the same report. */
  lemma {:induction false} ReportOrderFree(
      known: set<string>, log: seq<Record>, log': seq<Record>, rep: Report, rep': Report)
    requires multiset(log) == multiset(log') && IsReport(known, log, rep) && IsReport(known, log', rep')
    ensures rep == rep'
  {
    SeenOrderFree(known, TagOf, log, log');
    SeenOrderFree(known, TagOf, log', log);
    assert rep.tags == rep'.tags by { TagsOrderFree(known, log, log', rep, rep'); }
    MappedOrderFree(TotalTokens, log, log');
    hide IsStats, Column, Mapped, TagsSeen;
    BucketOrderFree(Unattributed(known, TagOf), log, log', rep.unaccounted, rep'.unaccounted);
    StatsOrderFree(Mapped(TotalTokens, log), Mapped(TotalTokens, log'), rep.total, rep'.total);
  }

  lemma {:induction false} TagsOrderFree(
      known: set<string>, log: seq<Record>, log': seq<Record>, rep: Report, rep': Report)
    requires multiset(log) == multiset(log') && IsReport(known, log, rep) && IsReport(known, log', rep')
    requires rep.tags.Keys == rep'.tags.Keys
    ensures rep.tags == rep'.tags
  {
    hide IsStats, Filter, TagsSeen;
    forall n | n in rep.tags
      ensures rep.tags[n] == rep'.tags[n]
    {
      BucketOrderFree(TagIs(TagOf, n), log, log', rep.tags[n], rep'.tags[n]);
    }
  }

  lemma {:induction false} BucketOrderFree(
      p: Record -> bool, log: seq<Record>, log': seq<Record>, st: TagStats, st': TagStats)
    requires multiset(log) == multiset(log')
    requires IsStats(Column(p, TotalTokens, log), st) && IsStats(Column(p, TotalTokens, log'), st')
    ensures st == st'
  {
    hide IsStats, Column;
    ColumnOrderFree(p, log, log');
    StatsOrderFree(Column(p, TotalTokens, log), Column(p, TotalTokens, log'), st, st');
  }

  const CountOf: TagStats -> real := (st: TagStats) => st.count as real
  const SumTokensOf: TagStats -> real := (st: TagStats) => st.sumTokens as real

  lemma {:induction false} ColumnSum(p: Record -> bool, log: seq<Record>)
    ensures Sum(AsReal, Column(p, TotalTokens, log)) == Sum(TokensOf, Filter(p, log))
    ensures |Column(p, TotalTokens, log)| as real == Sum(One(), Filter(p, log))
  {
    TokenSum(Filter(p, log));
    SumOfOnes(Filter(p, log));
  }

  lemma {:induction false} TokenSum(recs: seq<Record>)
    ensures Sum(AsReal, Mapped(TotalTokens, recs)) == Sum(TokensOf, recs)
  {
    if recs != [] {
      TokenSum(recs[1..]);
      assert Mapped(TotalTokens, recs) == [TotalTokens(recs[0])] + Mapped(TotalTokens, recs[1..]);
    }
  }

  /** Counts and token sums over the accounted tags, listed in any order, and the unaccounted make the total. */
  lemma {:induction false} ReportReconciles(known: set<string>, log: seq<Record>, rep: Report, names: seq<string>)
    requires IsReport(known, log, rep) && multiset(names) == multiset(rep.tags.Keys)
    ensures Sum(Figure(rep.tags, CountOf), names) + rep.unaccounted.count as real == rep.total.count as real
    ensures Sum(Figure(rep.tags, SumTokensOf), names) + rep.unaccounted.sumTokens as real == rep.total.sumTokens as real
  {
    forall n | n in rep.tags
      ensures CountOf(rep.tags[n]) == Sum(One(), Filter(TagIs(TagOf, n), log))
      ensures SumTokensOf(rep.tags[n]) == Sum(TokensOf, Filter(TagIs(TagOf, n), log))
    {
      ColumnSum(TagIs(TagOf, n), log);
    }
    ColumnSum(Unattributed(known, TagOf), log);
    TokenSum(log);
    SumOfOnes(log);
    hide Sum, Figure, Filter, TagsSeen, Spread, Times, One;
    FiguresAddUp(known, TagOf, log, rep.tags, names, CountOf, One());
    FiguresAddUp(known, TagOf, log, rep.tags, names, SumTokensOf, TokensOf);
  }

  /** One record's report, in the record's own fields: its tokens, under its tag or unaccounted. */
  lemma {:induction false} ReportOfOne(known: set<string>, r: Record, rep: Report)
    requires IsReport(known, [r], rep)
    ensures rep.total.count == 1 && rep.total.sumTokens == r.inputTokens + r.outputTokens
    ensures rep.total.minTokens == rep.total.maxTokens == r.inputTokens + r.outputTokens
    ensures if r.tag == "" || (known != {} && r.tag !in known)
      then rep.tags == map[] && rep.unaccounted == rep.total
      else rep.tags == map[r.tag := rep.total] && rep.unaccounted == NoStats
  {
    var accounted, n := Accounted(known, r.tag), r.inputTokens + r.outputTokens;
    assert TagsSeen(known, TagOf, [r]) == if accounted then {r.tag} else {} by {
      assert TagOf([r][0]) == r.tag;
    }
    assert [r][1..] == [] && Mapped(TotalTokens, [r]) == [n];
    FilterOne(Unattributed(known, TagOf), r);
    FilterOne(TagIs(TagOf, r.tag), r);
    assert Mapped(TotalTokens, []) == [];
    assert Column(Unattributed(known, TagOf), TotalTokens, [r]) == if accounted then [] else [n];
    assert Column(TagIs(TagOf, r.tag), TotalTokens, [r]) == [n];
    StatsOfOne(n, rep.total);
    hide IsStats, TagsSeen, Column, Mapped;
    if accounted {
      StatsOrderFree([n], [n], rep.tags[r.tag], rep.total);
      EmptyStats(rep.unaccounted);
    } else {
      StatsOrderFree([n], [n], rep.unaccounted, rep.total);
    }
  }

  lemma {:induction false} StatsOfOne(n: int, st: TagStats)
    requires IsStats([n], st)
    ensures st == TagStats(1, n, n, n, n as real, n as real)
  {
    assert [n][1..] == [] && Mapped(AsReal, [n]) == [n as real];
    StatsMeaning([n], st);
    hide Spread;
  }

  lemma EmptyStats(st: TagStats)
    requires IsStats([], st)
    ensures st == NoStats
  {
  }

  /** Two logs in a row: their counts and token sums add up. */
  lemma {:induction false} StatsOfBoth(a: seq<int>, b: seq<int>, s: TagStats, t: TagStats, both: TagStats)
    requires IsStats(a, s) && IsStats(b, t) && IsStats(a + b, both)
    ensures both.count == s.count + t.count && both.sumTokens == s.sumTokens + t.sumTokens
  {
    SumConcat(AsReal, a, b);
    hide Sum, Spread, Times, Mapped;
  }

  class Recorder {
    var log: seq<Record>
    /** The lines the sink accepted, if a sink is installed. */
    var emitted: Option<seq<Record>>
    const known: set<string>

    constructor (sink: bool, tags: seq<string>)
      ensures log == [] && emitted == (if sink then Some([]) else None)
      ensures known == (set t | t in tags && t != "")
    {
      log, emitted := [], if sink then Some([]) else None;
      known := set t | t in tags && t != "";
    }

    /** `written` is the sink's answer. A refused line does not undo the accounting. */
    method Record(rec: Record, written: bool) returns (r: Result<(), Error>)
      modifies this
      ensures rec.inputTokens < 0 || rec.outputTokens < 0 ==>
        r == Err(NegativeTokens(rec.tag)) && log == old(log) && emitted == old(emitted)
      ensures 0 <= rec.inputTokens && 0 <= rec.outputTokens ==>
        && log == old(log) + [rec]
        && r == (if emitted.None? || written then Ok(()) else Err(SinkFailed))
        && emitted == if old(emitted).Some? && written then Some(old(emitted).value + [rec]) else old(emitted)
    {
      if rec.inputTokens < 0 || rec.outputTokens < 0 { return Err(NegativeTokens(rec.tag)); }
      log := log + [rec];
      if emitted.Some? {
        if !written { return Err(SinkFailed); }
        emitted := Some(emitted.value + [rec]);
      }
      return Ok(());
    }

    method Aggregate() returns (rep: Report)
      ensures IsReport(known, log, rep)
    {
      var perTag, unaccounted, all := Bucket(known, TagOf, TotalTokens, log);
      hide IsStats, Column, Mapped, TagsSeen;
      var tags := TokensPerTag(perTag);
      var un := StatsOf(unaccounted);
      var total := StatsOf(all);
      rep := Report(tags, un, total);
    }
  }

  method TokensPerTag(perTag: map<string, seq<int>>) returns (tags: map<string, TagStats>)
    ensures tags.Keys == perTag.Keys && forall n | n in perTag :: IsStats(perTag[n], tags[n])
  {
    hide IsStats;
    tags := map[];
    var left := perTag.Keys;
    while left != {}
      invariant tags.Keys == perTag.Keys - left && left <= perTag.Keys
      invariant forall n | n in tags :: IsStats(perTag[n], tags[n])
      decreases |left|
    {
      var n :| n in left;
      var st := StatsOf(perTag[n]);
      tags := tags[n := st];
      left := left - {n};
    }
  }
}
