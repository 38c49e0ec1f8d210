/**
  Sums, filters and the interpolated percentile that both aggregators of pkg/telemetry rest
  on. Amounts are real numbers: rounding is not modelled.
 */
module Statistics {
  import opened Ordering

  // ----- sums over a log -----

  function Sum<T>(f: T -> real, s: seq<T>): real {
    if s == [] then 0.0 else f(s[0]) + Sum(f, s[1..])
  }

  function Filter<T>(p: T -> bool, s: seq<T>): seq<T> {
    if s == [] then []
    else if p(s[0]) then [s[0]] + Filter(p, s[1..])
    else Filter(p, s[1..])
  }

  function Mapped<T, U>(f: T -> U, s: seq<T>): seq<U> {
    seq(|s|, i requires 0 <= i < |s| => f(s[i]))
  }

  lemma {:induction false} SumConcat<T>(f: T -> real, s: seq<T>, t: seq<T>)
    ensures Sum(f, s + t) == Sum(f, s) + Sum(f, t)
  {
    if s == [] {
      assert s + t == t;
    } else {
      assert (s + t)[1..] == s[1..] + t;
      SumConcat(f, s[1..], t);
    }
  }

  lemma {:induction false} SumOfOne<T>(f: T -> real, x: T)
    ensures Sum(f, [x]) == f(x)
  {
    assert [x][1..] == [];
  }

  lemma {:induction false} SumStep<T>(f: T -> real, s: seq<T>, i: nat)
    requires i < |s|
    ensures Sum(f, s[..i + 1]) == Sum(f, s[..i]) + f(s[i])
  {
    assert s[..i + 1] == s[..i] + [s[i]];
    SumConcat(f, s[..i], [s[i]]);
  }

  lemma {:induction false} FilterConcat<T>(p: T -> bool, s: seq<T>, t: seq<T>)
    ensures Filter(p, s + t) == Filter(p, s) + Filter(p, t)
  {
    if s == [] {
      assert s + t == t;
    } else {
      assert (s + t)[1..] == s[1..] + t;
      FilterConcat(p, s[1..], t);
    }
  }

  /** A sum does not depend on the order of its terms. */
  lemma {:induction false} SumOrderFree<T>(f: T -> real, s: seq<T>, t: seq<T>)
    requires multiset(s) == multiset(t)
    ensures Sum(f, s) == Sum(f, t)
  {
    SameLength(s, t);
    if s != [] {
      var i := TakenOut(s, t);
      SumOrderFree(f, s[1..], t[..i] + t[i + 1..]);
      SumConcat(f, t[..i], t[i + 1..]);
      SumConcat(f, t[..i] + [s[0]], t[i + 1..]);
      SumConcat(f, t[..i], [s[0]]);
    }
  }

  /** Neither does the bag of elements a filter lets through. */
  lemma {:induction false} FilterOrderFree<T>(p: T -> bool, s: seq<T>, t: seq<T>)
    requires multiset(s) == multiset(t)
    ensures multiset(Filter(p, s)) == multiset(Filter(p, t))
  {
    SameLength(s, t);
    if s != [] {
      var i := TakenOut(s, t);
      FilterOrderFree(p, s[1..], t[..i] + t[i + 1..]);
      FilterConcat(p, [s[0]], s[1..]);
      FilterConcat(p, t[..i], t[i + 1..]);
      FilterConcat(p, t[..i] + [s[0]], t[i + 1..]);
      FilterConcat(p, t[..i], [s[0]]);
      hide Filter;
    }
  }

  lemma {:induction false} MappedConcat<T, U>(f: T -> U, s: seq<T>, t: seq<T>)
    ensures Mapped(f, s + t) == Mapped(f, s) + Mapped(f, t)
  {
  }

  lemma {:induction false} MappedOrderFree<T, U>(f: T -> U, s: seq<T>, t: seq<T>)
    requires multiset(s) == multiset(t)
    ensures multiset(Mapped(f, s)) == multiset(Mapped(f, t))
  {
    SameLength(s, t);
    if s != [] {
      var i := TakenOut(s, t);
      MappedOrderFree(f, s[1..], t[..i] + t[i + 1..]);
      MappedConcat(f, [s[0]], s[1..]);
      MappedConcat(f, t[..i], t[i + 1..]);
      MappedConcat(f, t[..i] + [s[0]], t[i + 1..]);
      MappedConcat(f, t[..i], [s[0]]);
      hide Mapped;
    }
  }

  /** Two classes that never overlap add up to their union. */
  lemma {:induction false} SumSplits<T>(f: T -> real, p: T -> bool, q: T -> bool, u: T -> bool, s: seq<T>)
    requires forall x | x in s :: (u(x) <==> p(x) || q(x)) && !(p(x) && q(x))
    ensures Sum(f, Filter(u, s)) == Sum(f, Filter(p, s)) + Sum(f, Filter(q, s))
    ensures |Filter(u, s)| == |Filter(p, s)| + |Filter(q, s)|
  {
    if s != [] {
      assert s[0] in s && forall x | x in s[1..] :: x in s;
      SumSplits(f, p, q, u, s[1..]);
    }
  }

  lemma {:induction false} FilterNone<T>(p: T -> bool, s: seq<T>)
    requires forall x | x in s :: !p(x)
    ensures Filter(p, s) == []
  {
    if s != [] {
      assert s[0] in s && forall x | x in s[1..] :: x in s;
      FilterNone(p, s[1..]);
    }
  }

  lemma {:induction false} FilterOne<T>(p: T -> bool, x: T)
    ensures Filter(p, [x]) == if p(x) then [x] else []
  {
    assert [x][1..] == [];
  }

  lemma {:induction false} FilterAll<T>(p: T -> bool, s: seq<T>)
    requires forall x | x in s :: p(x)
    ensures Filter(p, s) == s
  {
    if s != [] {
      assert s[0] in s && forall x | x in s[1..] :: x in s;
      FilterAll(p, s[1..]);
    }
  }

  // ----- buckets -----

  /** An empty tag is never attributable; a non-empty one is if no tags were registered or it was. */
  predicate Accounted(known: set<string>, tag: string) {
    tag != "" && (known == {} || tag in known)
  }

  function TagIs<T>(tag: T -> string, name: string): T -> bool { x => tag(x) == name }

  function TagIn<T>(tag: T -> string, names: seq<string>): T -> bool { x => tag(x) in names }

  function Unattributed<T>(known: set<string>, tag: T -> string): T -> bool { x => !Accounted(known, tag(x)) }

  /** The accounted tags that occur in the log. */
  function TagsSeen<T>(known: set<string>, tag: T -> string, log: seq<T>): set<string> {
    set i | 0 <= i < |log| && Accounted(known, tag(log[i])) :: tag(log[i])
  }

  /** What is summed for the records in one class. */
  function Column<T, V>(p: T -> bool, item: T -> V, log: seq<T>): seq<V> { Mapped(item, Filter(p, log)) }

  /** Every accounted tag has its column and there are no others. */
  ghost predicate Filed<T, V>(
      known: set<string>, tag: T -> string, item: T -> V, log: seq<T>, perTag: map<string, seq<V>>) {
    && perTag.Keys == TagsSeen(known, tag, log)
    && forall n | n in perTag :: perTag[n] == Column(TagIs(tag, n), item, log)
  }

  function Append<V>(perTag: map<string, seq<V>>, name: string, v: V): map<string, seq<V>> {
    perTag[name := (if name in perTag then perTag[name] else []) + [v]]
  }

  /** One record more: the column of its own tag grows, the others stay. */
  lemma {:induction false} TagColumnStep<T, V>(tag: T -> string, item: T -> V, log: seq<T>, i: nat, n: string)
    requires i < |log|
    ensures Column(TagIs(tag, n), item, log[..i + 1]) ==
      Column(TagIs(tag, n), item, log[..i]) + if n == tag(log[i]) then [item(log[i])] else []
  {
    ColumnStep(TagIs(tag, n), item, log, i);
    hide Column;
  }

  lemma {:induction false} UnseenColumn<T, V>(
      known: set<string>, tag: T -> string, item: T -> V, log: seq<T>, n: string)
    requires Accounted(known, n) && n !in TagsSeen(known, tag, log)
    ensures Column(TagIs(tag, n), item, log) == []
  {
    forall x | x in log
      ensures !TagIs(tag, n)(x)
    {
      var i :| 0 <= i < |log| && log[i] == x;
    }
    FilterNone(TagIs(tag, n), log);
  }

  lemma {:induction false} FiledStep<T, V>(
      known: set<string>, tag: T -> string, item: T -> V, log: seq<T>, perTag: map<string, seq<V>>, i: nat)
    requires i < |log| && Filed(known, tag, item, log[..i], perTag)
    ensures var name := tag(log[i]);
      var perTag' := if Accounted(known, name) then Append(perTag, name, item(log[i])) else perTag;
      Filed(known, tag, item, log[..i + 1], perTag')
  {
    var name := tag(log[i]);
    assert Accounted(known, name) && name !in perTag ==> Column(TagIs(tag, name), item, log[..i]) == [] by {
      if Accounted(known, name) && name !in perTag { UnseenColumn(known, tag, item, log[..i], name); }
    }
    SeenStep(known, tag, log, i);
    assert forall n | n in TagsSeen(known, tag, log[..i]) :: Accounted(known, n);
    hide Column, TagsSeen, Accounted, TagIs;
    forall n
      ensures Column(TagIs(tag, n), item, log[..i + 1]) ==
        Column(TagIs(tag, n), item, log[..i]) + if n == name then [item(log[i])] else []
    {
      TagColumnStep(tag, item, log, i, n);
    }
    assert !Accounted(known, name) ==> name !in perTag;
  }

  /** Files what is summed of each record under its tag, or among the unaccounted. */
  method Bucket<T, V>(known: set<string>, tag: T -> string, item: T -> V, log: seq<T>)
      returns (perTag: map<string, seq<V>>, unaccounted: seq<V>, all: seq<V>)
    ensures Filed(known, tag, item, log, perTag)
    ensures unaccounted == Column(Unattributed(known, tag), item, log)
    ensures all == Mapped(item, log)
  {
    perTag, unaccounted, all := map[], [], [];
    for i := 0 to |log|
      invariant Filed(known, tag, item, log[..i], perTag)
      invariant unaccounted == Column(Unattributed(known, tag), item, log[..i])
      invariant all == Mapped(item, log[..i])
    {
      FiledStep(known, tag, item, log, perTag, i);
      AllStep(item, log, i);
      ColumnStep(Unattributed(known, tag), item, log, i);
      hide Column, Filed, Mapped;
      all := all + [item(log[i])];
      if Accounted(known, tag(log[i])) {
        perTag := Append(perTag, tag(log[i]), item(log[i]));
      } else {
        unaccounted := unaccounted + [item(log[i])];
      }
    }
    assert log[..|log|] == log;
  }

  lemma {:induction false} SeenStep<T>(known: set<string>, tag: T -> string, log: seq<T>, i: nat)
    requires i < |log|
    ensures TagsSeen(known, tag, log[..i + 1]) ==
      TagsSeen(known, tag, log[..i]) + if Accounted(known, tag(log[i])) then {tag(log[i])} else {}
    ensures Accounted(known, tag(log[i])) && tag(log[i]) !in TagsSeen(known, tag, log[..i]) ==>
      forall x | x in log[..i] :: !TagIs(tag, tag(log[i]))(x)
  {
    assert log[..i + 1] == log[..i] + [log[i]];
  }

  lemma {:induction false} AllStep<T, V>(item: T -> V, log: seq<T>, i: nat)
    requires i < |log|
    ensures Mapped(item, log[..i + 1]) == Mapped(item, log[..i]) + [item(log[i])]
  {
  }

  lemma {:induction false} ColumnStep<T, V>(p: T -> bool, item: T -> V, log: seq<T>, i: nat)
    requires i < |log|
    ensures Column(p, item, log[..i + 1]) == Column(p, item, log[..i]) + if p(log[i]) then [item(log[i])] else []
    ensures (forall x | x in log[..i] :: !p(x)) ==> Column(p, item, log[..i]) == []
  {
    assert log[..i + 1] == log[..i] + [log[i]];
    FilterConcat(p, log[..i], [log[i]]);
    if forall x | x in log[..i] :: !p(x) { FilterNone(p, log[..i]); }
  }

  lemma {:induction false} SumAgrees<T>(f: T -> real, g: T -> real, s: seq<T>)
    requires forall x | x in s :: f(x) == g(x)
    ensures Sum(f, s) == Sum(g, s)
  {
    if s != [] {
      assert s[0] in s && forall x | x in s[1..] :: x in s;
      SumAgrees(f, g, s[1..]);
    }
  }

  function BucketSum<T>(f: T -> real, tag: T -> string, log: seq<T>): string -> real {
    n => Sum(f, Filter(TagIs(tag, n), log))
  }

  /** Over distinct names, the buckets' sums add up to the sum over the records filed under any of them. */
  lemma {:induction false} BucketsAddUp<T>(f: T -> real, tag: T -> string, names: seq<string>, log: seq<T>)
    requires forall i, j | 0 <= i < j < |names| :: names[i] != names[j]
    ensures Sum(BucketSum(f, tag, log), names) == Sum(f, Filter(TagIn(tag, names), log))
  {
    if names == [] {
      FilterNone(TagIn(tag, names), log);
    } else {
      BucketsAddUp(f, tag, names[1..], log);
      assert names == [names[0]] + names[1..];
      assert forall n | n in names[1..] :: n != names[0];
      SumSplits(f, TagIs(tag, names[0]), TagIn(tag, names[1..]), TagIn(tag, names), log);
    }
  }

  /** Nothing is dropped: accounted buckets and the unaccounted one add up to the whole log. */
  lemma {:induction false} NothingDropped<T>(
      f: T -> real, known: set<string>, tag: T -> string, names: seq<string>, log: seq<T>)
    requires multiset(names) == multiset(TagsSeen(known, tag, log))
    ensures Sum(BucketSum(f, tag, log), names) + Sum(f, Filter(Unattributed(known, tag), log)) == Sum(f, log)
  {
    var seen := TagsSeen(known, tag, log);
    forall i, j | 0 <= i < j < |names|
      ensures names[i] != names[j]
    {
      CountedTwice(names, i, j);
    }
    BucketsAddUp(f, tag, names, log);
    forall x | x in log
      ensures tag(x) in names <==> Accounted(known, tag(x))
    {
      assert tag(x) in names <==> tag(x) in multiset(names);
    }
    var everything: T -> bool := x => true;
    FilterAll(everything, log);
    SumSplits(f, TagIn(tag, names), Unattributed(known, tag), everything, log);
  }

  lemma {:induction false} SeenOrderFree<T>(known: set<string>, tag: T -> string, s: seq<T>, t: seq<T>)
    requires multiset(s) == multiset(t)
    ensures TagsSeen(known, tag, s) <= TagsSeen(known, tag, t)
  {
    forall n | n in TagsSeen(known, tag, s)
      ensures n in TagsSeen(known, tag, t)
    {
      var i :| 0 <= i < |s| && Accounted(known, tag(s[i])) && tag(s[i]) == n;
      assert s[i] in multiset(t);
      var j :| 0 <= j < |t| && t[j] == s[i];
    }
  }

  /** A figure of the per-tag statistics, by tag. */
  function Figure<S>(tags: map<string, S>, g: S -> real): string -> real {
    n => if n in tags then g(tags[n]) else 0.0
  }

  /** When each tag's figure is a sum over its bucket, the figures reconcile with the whole log. */
  lemma {:induction false} FiguresAddUp<T, S>(
      known: set<string>, tag: T -> string, log: seq<T>, tags: map<string, S>, names: seq<string>,
      g: S -> real, f: T -> real)
    requires tags.Keys == TagsSeen(known, tag, log) && multiset(names) == multiset(tags.Keys)
    requires forall n | n in tags :: g(tags[n]) == Sum(f, Filter(TagIs(tag, n), log))
    ensures Sum(Figure(tags, g), names) + Sum(f, Filter(Unattributed(known, tag), log)) == Sum(f, log)
  {
    hide Sum, Filter, TagsSeen;
    forall n | n in names
      ensures Figure(tags, g)(n) == BucketSum(f, tag, log)(n)
    {
      assert n in multiset(names);
    }
    SumAgrees(Figure(tags, g), BucketSum(f, tag, log), names);
    NothingDropped(f, known, tag, names, log);
  }

  function One<T>(): T -> real { x => 1.0 }

  lemma {:induction false} SumOfOnes<T>(s: seq<T>)
    ensures Sum(One(), s) == |s| as real
  {
    if s != [] { SumOfOnes(s[1..]); }
  }

  // ----- the percentile -----

  function RealLe(): (real, real) -> bool { (a, b) => a <= b }

  lemma RealLeIsTotalOrder()
    ensures TotalOrder(RealLe())
  {
  }

  ghost predicate Ascending(s: seq<real>) {
    forall i, j | 0 <= i <= j < |s| :: s[i] <= s[j]
  }

  /** The p-th percentile's position among n samples, counted from 0. */
  function Position(n: nat, p: real): real { (n - 1) as real * (p / 100.0) }

  /** Linear interpolation between the two samples around the position. */
  function Percentile(sorted: seq<real>, p: real): real
    requires 0.0 <= p <= 100.0
  {
    var n := |sorted|;
    if n == 0 then 0.0
    else if n == 1 then sorted[0]
    else
      PositionInRange(n, p);
      var k := Position(n, p);
      var f := k.Floor;
      var c := if f + 1 > n - 1 then n - 1 else f + 1;
      if f == c then sorted[f] else Interpolated(sorted[f], sorted[c], k - f as real)
  }

  /** The point at share w of the way from a to b. */
  function Interpolated(a: real, b: real, w: real): real { a + (b - a) * w }

  lemma {:induction false} PositionInRange(n: nat, p: real)
    requires 0 < n && 0.0 <= p <= 100.0
    ensures 0.0 <= Position(n, p) <= (n - 1) as real
    ensures 0 <= Position(n, p).Floor <= n - 1
  {
    Grows((n - 1) as real, 0.0, p / 100.0);
    Grows((n - 1) as real, p / 100.0, 1.0);
  }

  lemma Grows(a: real, x: real, y: real)
    requires 0.0 <= a && x <= y
    ensures a * x <= a * y
  {
  }

  lemma {:induction false} Between(a: real, b: real, w: real)
    requires a <= b && 0.0 <= w <= 1.0
    ensures a <= Interpolated(a, b, w) <= b
  {
    Grows(b - a, 0.0, w);
    Grows(b - a, w, 1.0);
  }

  /** The result lies between the samples just below and just above the position. */
  lemma {:induction false} PercentileBrackets(sorted: seq<real>, p: real)
    requires Ascending(sorted) && sorted != [] && 0.0 <= p <= 100.0
    ensures 0 <= Position(|sorted|, p).Floor < |sorted|
    ensures var f := Position(|sorted|, p).Floor;
      && sorted[f] <= Percentile(sorted, p)
      && (f + 1 < |sorted| ==> Percentile(sorted, p) <= sorted[f + 1])
      && (f + 1 == |sorted| ==> Percentile(sorted, p) == sorted[f])
  {
    PositionInRange(|sorted|, p);
    var k := Position(|sorted|, p);
    if |sorted| > 1 && k.Floor + 1 < |sorted| {
      Between(sorted[k.Floor], sorted[k.Floor + 1], k - k.Floor as real);
    }
  }

  lemma {:induction false} PercentileWithin(sorted: seq<real>, p: real)
    requires Ascending(sorted) && sorted != [] && 0.0 <= p <= 100.0
    ensures sorted[0] <= Percentile(sorted, p) <= sorted[|sorted| - 1]
  {
    PercentileBrackets(sorted, p);
    hide Percentile;
  }

  /** The ends are the extreme samples, and zero if there are none. */
  lemma {:induction false} PercentileEnds(sorted: seq<real>)
    ensures sorted != [] ==>
      Percentile(sorted, 0.0) == sorted[0] && Percentile(sorted, 100.0) == sorted[|sorted| - 1]
    ensures sorted == [] ==> forall p | 0.0 <= p <= 100.0 :: Percentile(sorted, p) == 0.0
  {
    if sorted != [] {
      assert Position(|sorted|, 0.0) == 0.0;
      assert Position(|sorted|, 100.0) == (|sorted| - 1) as real;
    }
  }

  // ----- what the percentile is between two samples -----

  /** p lies the share w of the way from sample i to sample i + 1 among n samples. */
  predicate LiesAt(n: nat, p: real, i: nat, w: real) {
    i + 1 < n && 0.0 <= w <= 1.0 && 0.0 <= p <= 100.0 && p * (n - 1) as real == 100.0 * (i as real + w)
  }

  lemma {:induction false} PositionOf(n: nat, p: real, i: nat, w: real)
    requires LiesAt(n, p, i, w)
    ensures Position(n, p) == i as real + w
  {
    Hundredth((n - 1) as real, p);
  }

  /** Between two neighbouring samples, both included, the percentile is their weighted mean. */
  lemma {:induction false} PercentileBetween(sorted: seq<real>, p: real, i: nat, w: real)
    requires LiesAt(|sorted|, p, i, w)
    ensures Percentile(sorted, p) == (1.0 - w) * sorted[i] + w * sorted[i + 1]
  {
    PositionOf(|sorted|, p, i, w);
    hide Position, Percentile, Interpolated;
    if w < 1.0 {
      PercentileInside(sorted, p, i, w);
      WeightedMean(sorted[i], sorted[i + 1], w);
    } else if i + 2 < |sorted| {
      PercentileInside(sorted, p, i + 1, 0.0);
      WeightedMean(sorted[i + 1], sorted[i + 2], 0.0);
    } else {
      PercentileAtTheTop(sorted, p);
    }
  }

  lemma {:induction false} PercentileInside(sorted: seq<real>, p: real, f: nat, u: real)
    requires 0.0 <= p <= 100.0 && f + 1 < |sorted| && 0.0 <= u < 1.0 && Position(|sorted|, p) == f as real + u
    ensures Percentile(sorted, p) == Interpolated(sorted[f], sorted[f + 1], u)
  {
    hide Position, Interpolated;
  }

  lemma {:induction false} PercentileAtTheTop(sorted: seq<real>, p: real)
    requires 0.0 <= p <= 100.0 && 1 < |sorted| && Position(|sorted|, p) == (|sorted| - 1) as real
    ensures Percentile(sorted, p) == sorted[|sorted| - 1]
  {
    hide Position, Interpolated;
  }

  lemma WeightedMean(a: real, b: real, w: real)
    ensures Interpolated(a, b, w) == (1.0 - w) * a + w * b
  {
    assert (b - a) * w == b * w - a * w;
    assert (1.0 - w) * a == a - w * a;
  }

  /** At an integer position the percentile is that sample. */
  lemma {:induction false} PercentileAtSample(sorted: seq<real>, p: real, i: nat)
    requires i < |sorted| && 0.0 <= p <= 100.0 && p * (|sorted| - 1) as real == 100.0 * i as real
    ensures Percentile(sorted, p) == sorted[i]
  {
    if i + 1 < |sorted| {
      PercentileBetween(sorted, p, i, 0.0);
    } else if 0 < i {
      PercentileBetween(sorted, p, i - 1, 1.0);
    }
  }

  /**
    On the segment from one sample to the next, both ends included, the percentile is affine in p:
    a weighted mean of two percentages has the weighted mean of their percentiles.
   */
  lemma {:induction false} PercentileIsAffine(
      sorted: seq<real>, i: nat, p: real, v: real, q: real, w: real, share: real)
    requires LiesAt(|sorted|, p, i, v) && LiesAt(|sorted|, q, i, w) && 0.0 <= share <= 1.0
    ensures var r := (1.0 - share) * p + share * q;
      && 0.0 <= r <= 100.0
      && Percentile(sorted, r) == (1.0 - share) * Percentile(sorted, p) + share * Percentile(sorted, q)
  {
    PercentileOfBlend(sorted, i, p, v, q, w, share);
    hide Percentile, LiesAt;
  }

  lemma {:induction false} PercentileOfBlend(
      sorted: seq<real>, i: nat, p: real, v: real, q: real, w: real, share: real)
    requires LiesAt(|sorted|, p, i, v) && LiesAt(|sorted|, q, i, w) && 0.0 <= share <= 1.0
    ensures 0.0 <= Blend(p, q, share) <= 100.0
    ensures Percentile(sorted, Blend(p, q, share)) == Blend(Percentile(sorted, p), Percentile(sorted, q), share)
  {
    hide Percentile, Blend;
    var r, u := Blend(p, q, share), Blend(v, w, share);
    BlendLies(|sorted|, i, p, v, q, w, share);
    PercentileBlends(sorted, p, i, v);
    PercentileBlends(sorted, q, i, w);
    PercentileBlends(sorted, r, i, u);
    BlendOfBlends(sorted[i], sorted[i + 1], v, w, share);
  }

  /** The weighted mean of two numbers. */
  function Blend(a: real, b: real, w: real): real { (1.0 - w) * a + w * b }

  lemma {:induction false} PercentileBlends(sorted: seq<real>, p: real, i: nat, w: real)
    requires LiesAt(|sorted|, p, i, w)
    ensures Percentile(sorted, p) == Blend(sorted[i], sorted[i + 1], w)
  {
    PercentileBetween(sorted, p, i, w);
    hide Percentile;
  }

  lemma {:induction false} BlendLies(n: nat, i: nat, p: real, v: real, q: real, w: real, share: real)
    requires LiesAt(n, p, i, v) && LiesAt(n, q, i, w) && 0.0 <= share <= 1.0
    ensures LiesAt(n, Blend(p, q, share), i, Blend(v, w, share))
  {
    BlendBounds(p, q, share, 0.0, 100.0);
    BlendBounds(v, w, share, 0.0, 1.0);
    BlendScales(p, q, share, (n - 1) as real);
    BlendScales(i as real + v, i as real + w, share, 100.0);
    BlendShifts(v, w, share, i as real);
    hide Blend;
    assert p * (n - 1) as real == (i as real + v) * 100.0 && q * (n - 1) as real == (i as real + w) * 100.0;
  }

  lemma BlendBounds(a: real, b: real, share: real, lo: real, hi: real)
    requires lo <= a <= hi && lo <= b <= hi && 0.0 <= share <= 1.0
    ensures lo <= Blend(a, b, share) <= hi
  {
    if a <= b {
      Between(a, b, share);
      WeightedMean(a, b, share);
    } else {
      Between(b, a, 1.0 - share);
      WeightedMean(b, a, 1.0 - share);
    }
    hide Interpolated;
  }

  lemma BlendScales(a: real, b: real, share: real, m: real)
    ensures Blend(a, b, share) * m == Blend(a * m, b * m, share)
  {
    assert ((1.0 - share) * a) * m == (1.0 - share) * (a * m);
    assert (share * b) * m == share * (b * m);
  }

  lemma BlendShifts(a: real, b: real, share: real, c: real)
    ensures Blend(c + a, c + b, share) == c + Blend(a, b, share)
  {
    assert (1.0 - share) * (c + a) == (1.0 - share) * c + (1.0 - share) * a;
    assert share * (c + b) == share * c + share * b;
  }

  lemma BlendOfBlends(a: real, b: real, v: real, w: real, share: real)
    ensures Blend(a, b, Blend(v, w, share)) == Blend(Blend(a, b, v), Blend(a, b, w), share)
  {
    var d := b - a;
    BlendFrom(a, b, v);
    BlendFrom(a, b, w);
    BlendFrom(a, b, Blend(v, w, share));
    BlendScales(v, w, share, d);
    BlendShifts(v * d, w * d, share, a);
    hide Blend;
    assert Blend(a, b, v) == a + v * d && Blend(a, b, w) == a + w * d;
    assert Blend(a, b, Blend(v, w, share)) == a + Blend(v, w, share) * d;
  }

  lemma BlendFrom(a: real, b: real, w: real)
    ensures Blend(a, b, w) == a + w * (b - a)
  {
  }

  /** Of evenly spaced samples a, a + d, a + 2d and so on the percentile is exactly proportional. */
  lemma {:induction false} PercentileOfEven(sorted: seq<real>, a: real, d: real, p: real)
    requires sorted != [] && 0.0 <= p <= 100.0
    requires forall i | 0 <= i < |sorted| :: sorted[i] == a + i as real * d
    ensures Percentile(sorted, p) == a + (|sorted| - 1) as real * p / 100.0 * d
  {
    var n := |sorted|;
    var m := (n - 1) as real;
    Hundredth(m, p);
    PositionInRange(n, p);
    if n > 1 {
      var x := Position(n, p);
      var i: nat := if x.Floor == n - 1 then n - 2 else x.Floor;
      var w := x - i as real;
      assert LiesAt(n, p, i, w);
      PercentileBetween(sorted, p, i, w);
      EvenMean(a, d, i as real, w);
    }
  }

  lemma EvenMean(a: real, d: real, i: real, w: real)
    ensures (1.0 - w) * (a + i * d) + w * (a + (i + 1.0) * d) == a + (i + w) * d
  {
    var x := a + i * d;
    assert (i + 1.0) * d == i * d + d;
    assert (1.0 - w) * x + w * (x + d) == x + w * d;
    assert (i + w) * d == i * d + w * d;
  }

  /** A larger p never gives a smaller percentile, also across sample boundaries. */
  lemma {:induction false} PercentileMonotone(sorted: seq<real>, p: real, q: real)
    requires Ascending(sorted) && 0.0 <= p <= q <= 100.0
    ensures Percentile(sorted, p) <= Percentile(sorted, q)
  {
    if |sorted| > 1 {
      PositionGrows(|sorted|, p, q);
      PercentileBrackets(sorted, p);
      PercentileBrackets(sorted, q);
      if Position(|sorted|, p).Floor == Position(|sorted|, q).Floor {
        PercentileOnSegment(sorted, p, q);
      }
      hide Percentile, Position;
    }
  }

  lemma {:induction false} PositionGrows(n: nat, p: real, q: real)
    requires 0 < n && p <= q
    ensures Position(n, p) <= Position(n, q)
  {
    Grows((n - 1) as real, p / 100.0, q / 100.0);
  }

  lemma {:induction false} PercentileOnSegment(sorted: seq<real>, p: real, q: real)
    requires Ascending(sorted) && 1 < |sorted| && 0.0 <= p <= 100.0 && 0.0 <= q <= 100.0
    requires Position(|sorted|, p) <= Position(|sorted|, q)
    requires Position(|sorted|, p).Floor == Position(|sorted|, q).Floor
    ensures Percentile(sorted, p) <= Percentile(sorted, q)
  {
    PositionInRange(|sorted|, p);
    var f := Position(|sorted|, p).Floor;
    if f + 1 < |sorted| {
      InterpolatedGrows(sorted[f], sorted[f + 1], Position(|sorted|, p) - f as real, Position(|sorted|, q) - f as real);
    }
    hide Position, Interpolated;
  }

  lemma {:induction false} InterpolatedGrows(a: real, b: real, v: real, w: real)
    requires a <= b && v <= w
    ensures Interpolated(a, b, v) <= Interpolated(a, b, w)
  {
    Grows(b - a, v, w);
  }

  function AtMost(r: real): real -> bool { x => x <= r }

  function AtLeast(r: real): real -> bool { x => r <= x }

  /**
    What a percentile promises: more than (n-1)p/100 samples are at or below it, and at
    least (n-1)(100-p)/100 are at or above it.
   */
  lemma {:induction false} PercentileCovers(sorted: seq<real>, p: real)
    requires Ascending(sorted) && sorted != [] && 0.0 <= p <= 100.0
    ensures (|sorted| - 1) as real * p / 100.0 < |Filter(AtMost(Percentile(sorted, p)), sorted)| as real
    ensures (|sorted| - 1) as real * (100.0 - p) / 100.0 <= |Filter(AtLeast(Percentile(sorted, p)), sorted)| as real
  {
    PercentileBrackets(sorted, p);
    var r := Percentile(sorted, p);
    var n, k := |sorted|, Position(|sorted|, p);
    hide Percentile;
    var f := k.Floor;
    assert forall i | 0 <= i < f + 1 :: sorted[i] <= sorted[f] <= r;
    PrefixCounts(AtMost(r), sorted, f + 1);
    var m := if f + 1 < n then f + 1 else f;
    assert forall i | m <= i < n :: r <= sorted[m] <= sorted[i];
    SuffixCounts(AtLeast(r), sorted, m);
    Remainder((n - 1) as real, p);
    Hundredth((n - 1) as real, p);
  }

  lemma Remainder(a: real, p: real)
    ensures a * (100.0 - p) / 100.0 == a - a * (p / 100.0)
  {
    assert a * (100.0 - p) == a * 100.0 - a * p;
    Hundredth(a, p);
  }

  lemma Hundredth(a: real, p: real)
    ensures a * p / 100.0 == a * (p / 100.0)
  {
  }

  lemma {:induction false} PrefixCounts<T>(p: T -> bool, s: seq<T>, m: nat)
    requires m <= |s| && forall i | 0 <= i < m :: p(s[i])
    ensures m <= |Filter(p, s)|
  {
    FilterConcat(p, s[..m], s[m..]);
    FilterAll(p, s[..m]);
    assert s == s[..m] + s[m..];
  }

  lemma {:induction false} SuffixCounts<T>(p: T -> bool, s: seq<T>, m: nat)
    requires m <= |s| && forall i | m <= i < |s| :: p(s[i])
    ensures |s| - m <= |Filter(p, s)|
  {
    FilterConcat(p, s[..m], s[m..]);
    FilterAll(p, s[m..]);
    assert s == s[..m] + s[m..];
  }

  // ----- order statistics of a bucket -----

  /** `sorted` is the values in ascending order. */
  ghost predicate Arranges(sorted: seq<real>, values: seq<real>) {
    Ascending(sorted) && multiset(sorted) == multiset(values)
  }

  ghost predicate ReadsOff(sorted: seq<real>, lo: real, hi: real, p95: real) {
    && sorted != []
    && lo == sorted[0] && hi == sorted[|sorted| - 1] && p95 == Percentile(sorted, 95.0)
  }

  /** Minimum, maximum and 95th percentile of a non-empty bag of values. */
  ghost predicate Spread(values: seq<real>, lo: real, hi: real, p95: real) {
    exists sorted :: Arranges(sorted, values) && ReadsOff(sorted, lo, hi, p95)
  }

  lemma {:induction false} AscendingIsSorted(s: seq<real>)
    ensures Ascending(s) <==> Sorted(RealLe(), s)
  {
    if Sorted(RealLe(), s) {
      forall i, j | 0 <= i <= j < |s|
        ensures s[i] <= s[j]
      {
        if i < j { assert RealLe()(s[i], s[j]); }
      }
    }
  }

  lemma {:induction false} ArrangementUnique(
      sorted: seq<real>, sorted': seq<real>, values: seq<real>, values': seq<real>)
    requires Arranges(sorted, values) && Arranges(sorted', values') && multiset(values) == multiset(values')
    ensures sorted == sorted'
  {
    AscendingIsSorted(sorted);
    AscendingIsSorted(sorted');
    RealLeIsTotalOrder();
    hide RealLe, Sorted, Ascending, TotalOrder;
    SortedUnique(RealLe(), sorted, sorted');
  }

  /** The spread depends on the bag of values only. */
  lemma {:induction false} SpreadUnique(
      values: seq<real>, values': seq<real>, lo: real, hi: real, p95: real, lo': real, hi': real, p95': real)
    requires Spread(values, lo, hi, p95) && Spread(values', lo', hi', p95') && multiset(values) == multiset(values')
    ensures lo == lo' && hi == hi' && p95 == p95'
  {
    var sorted :| Arranges(sorted, values) && ReadsOff(sorted, lo, hi, p95);
    var sorted' :| Arranges(sorted', values') && ReadsOff(sorted', lo', hi', p95');
    hide Percentile, Arranges;
    ArrangementUnique(sorted, sorted', values, values');
  }

  /** Both ends are attained and bound every value, and the percentile lies between and covers its share. */
  lemma {:induction false} SpreadMeaning(values: seq<real>, lo: real, hi: real, p95: real)
    requires Spread(values, lo, hi, p95)
    ensures lo in values && hi in values && forall x | x in values :: lo <= x <= hi
    ensures lo <= p95 <= hi
    ensures (|values| - 1) as real * 95.0 / 100.0 < |Filter(AtMost(p95), values)| as real
    ensures (|values| - 1) as real * 5.0 / 100.0 <= |Filter(AtLeast(p95), values)| as real
  {
    var sorted :| Arranges(sorted, values) && ReadsOff(sorted, lo, hi, p95);
    PercentileWithin(sorted, 95.0);
    PercentileCovers(sorted, 95.0);
    hide Percentile;
    FilterOrderFree(AtMost(p95), sorted, values);
    FilterOrderFree(AtLeast(p95), sorted, values);
    SameLength(Filter(AtMost(p95), sorted), Filter(AtMost(p95), values));
    SameLength(Filter(AtLeast(p95), sorted), Filter(AtLeast(p95), values));
    assert |multiset(sorted)| == |multiset(values)|;
    hide Filter;
    assert sorted[0] in multiset(values) && sorted[|sorted| - 1] in multiset(values);
    forall x | x in values
      ensures lo <= x <= hi
    {
      assert x in multiset(sorted);
      var i :| 0 <= i < |sorted| && sorted[i] == x;
    }
  }

  /** Of evenly spaced values, in any order, the spread is the first, the last, and 95% of the way between. */
  lemma {:induction false} SpreadOfEven(
      values: seq<real>, even: seq<real>, a: real, d: real, lo: real, hi: real, p95: real)
    requires Spread(values, lo, hi, p95) && multiset(values) == multiset(even)
    requires 0.0 <= d && forall i | 0 <= i < |even| :: even[i] == a + i as real * d
    ensures even != [] && lo == even[0] && hi == even[|even| - 1]
    ensures p95 == a + (|even| - 1) as real * 95.0 / 100.0 * d
  {
    hide Spread, Percentile, Ascending;
    EvenAscends(even, a, d);
    SpreadOfArrangement(values, even, lo, hi, p95);
    PercentileOfEven(even, a, d, 95.0);
  }

  lemma {:induction false} SpreadOfArrangement(values: seq<real>, sorted: seq<real>, lo: real, hi: real, p95: real)
    requires Spread(values, lo, hi, p95) && Ascending(sorted) && multiset(values) == multiset(sorted)
    ensures ReadsOff(sorted, lo, hi, p95)
  {
    var other :| Arranges(other, values) && ReadsOff(other, lo, hi, p95);
    hide Percentile, Ascending;
    ArrangementUnique(sorted, other, values, values);
  }

  lemma {:induction false} EvenAscends(even: seq<real>, a: real, d: real)
    requires 0.0 <= d && forall i | 0 <= i < |even| :: even[i] == a + i as real * d
    ensures Ascending(even)
  {
    forall i, j | 0 <= i <= j < |even|
      ensures even[i] <= even[j]
    {
      Grows(d, i as real, j as real);
      assert i as real * d == d * i as real && j as real * d == d * j as real;
    }
  }

  /** Sorts the values and reads the order statistics off. */
  method OrderStatistics(values: seq<real>) returns (lo: real, hi: real, p95: real)
    requires values != []
    ensures Spread(values, lo, hi, p95)
  {
    RealLeIsTotalOrder();
    SortSorts(RealLe(), values);
    var sorted := Sort(RealLe(), values);
    AscendingIsSorted(sorted);
    hide Sort, Percentile, Sorted, Ascending;
    lo, hi, p95 := sorted[0], sorted[|sorted| - 1], Percentile(sorted, 95.0);
    assert Arranges(sorted, values) && ReadsOff(sorted, lo, hi, p95);
  }

  function Times(a: real, n: nat): real { a * n as real }

  lemma TimesNext(a: real, n: nat)
    ensures Times(a, 0) == 0.0 && Times(a, n + 1) == Times(a, n) + a
  {
  }

  const Same: real -> real := (x: real) => x

  lemma {:induction false} SumBounds(s: seq<real>, lo: real, hi: real)
    requires forall i | 0 <= i < |s| :: lo <= s[i] <= hi
    ensures Times(lo, |s|) <= Sum(Same, s) <= Times(hi, |s|)
  {
    hide Times;
    TimesNext(lo, 0);
    TimesNext(hi, 0);
    if s != [] {
      SumBounds(s[1..], lo, hi);
      var n := |s| - 1;
      TimesNext(lo, n);
      TimesNext(hi, n);
      assert |s[1..]| == n && |s| == n + 1;
    }
  }

  /** A mean lies between the bounds of what it is the mean of. */
  lemma {:induction false} MeanBounds(s: seq<real>, lo: real, mean: real, hi: real)
    requires s != [] && forall x | x in s :: lo <= x <= hi
    requires Times(mean, |s|) == Sum(Same, s)
    ensures lo <= mean <= hi
  {
    forall i | 0 <= i < |s|
      ensures lo <= s[i] <= hi
    {
      assert s[i] in s;
    }
    SumBounds(s, lo, hi);
    hide Sum, Times;
    if mean < lo { TimesGrows(|s|, mean, lo); }
    if hi < mean { TimesGrows(|s|, hi, mean); }
  }

  lemma TimesGrows(n: nat, a: real, b: real)
    requires 0 < n && a < b
    ensures Times(a, n) < Times(b, n)
  {
    var r := n as real;
    assert 0.0 < (b - a) * r;
    assert (b - a) * r == b * r - a * r;
  }

  lemma {:induction false} SumMapped<T>(f: T -> real, s: seq<T>)
    ensures Sum(Same, Mapped(f, s)) == Sum(f, s)
  {
    if s != [] {
      assert Mapped(f, s) == [f(s[0])] + Mapped(f, s[1..]);
      SumMapped(f, s[1..]);
    }
  }
}
