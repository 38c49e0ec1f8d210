/**
  The smallest-lossless choice that pkg/transport and pkg/wire share: of all codecs, keep
  those whose output decodes back to the value, and take the least by size, then name.
  A codec is an arbitrary deterministic pair of partial functions.
 */
module Selection {
  import opened Prelude
  import opened Ordering

  type Bytes = seq<bv8>

  type Fault = int

  /** `decode` is given the value for its type only: the type decides what is decoded into. */
  datatype Codec<!V> = Codec(
    name: string, encode: V -> Result<Bytes, Fault>, decode: (V, Bytes) -> Result<V, Fault>)

  datatype Candidate = Candidate(name: string, size: nat, lossless: bool, err: Option<Fault>)

  datatype NameError = NoCodecs | EmptyName | DuplicateName(name: string)

  // ----- one codec -----

  /** Decoding what the codec made of v gives v back. */
  predicate RoundTrips<V>(same: (V, V) -> bool, c: Codec<V>, v: V) {
    c.encode(v).Ok? &&
    var back := c.decode(v, c.encode(v).value);
    back.Ok? && same(back.value, v)
  }

  function Output<V>(c: Codec<V>, v: V): Bytes {
    if c.encode(v).Ok? then c.encode(v).value else []
  }

  /** What is reported about the codec, whether it wins or not. */
  function Verdict<V>(same: (V, V) -> bool, c: Codec<V>, v: V): Candidate {
    var encoded := c.encode(v);
    if encoded.Err? then Candidate(c.name, 0, false, Some(encoded.error))
    else
      var back := c.decode(v, encoded.value);
      if back.Err? then Candidate(c.name, |encoded.value|, false, Some(back.error))
      else Candidate(c.name, |encoded.value|, same(back.value, v), None)
  }

  /** A verdict says whether the codec round-trips, how much it made, and which of its two halves failed. */
  lemma {:induction false} VerdictMeaning<V>(same: (V, V) -> bool, c: Codec<V>, v: V)
    ensures var d, encoded := Verdict(same, c, v), c.encode(v);
      && d.name == c.name
      && (d.lossless <==> encoded.Ok? && c.decode(v, encoded.value).Ok? && same(c.decode(v, encoded.value).value, v))
      && d.size == (if encoded.Ok? then |encoded.value| else 0)
      && d.err == if encoded.Err? then Some(encoded.error)
                  else if c.decode(v, encoded.value).Err? then Some(c.decode(v, encoded.value).error) else None
  {
  }

  // ----- what a choice is -----

  /** The winner's name and output, if there is one, and every codec's verdict. */
  datatype Choice = Choice(winner: Option<(string, Bytes)>, candidates: seq<Candidate>)

  /** w is lossless, and least by (size, name) among the lossless codecs. */
  ghost predicate Wins<V(!new)>(same: (V, V) -> bool, codecs: seq<Codec<V>>, v: V, w: Codec<V>) {
    && w in codecs && RoundTrips(same, w, v)
    && forall c | c in codecs && RoundTrips(same, c, v) ::
         || |Output(w, v)| < |Output(c, v)|
         || (|Output(w, v)| == |Output(c, v)| && NameLe(w.name, c.name))
  }

  predicate NameBefore(a: string, b: string) { a != b && NameLe(a, b) }

  /** Verdicts in ascending order of name, one for every codec and no others. */
  ghost predicate Reports<V(!new)>(same: (V, V) -> bool, codecs: seq<Codec<V>>, v: V, candidates: seq<Candidate>) {
    && (forall i, j | 0 <= i < j < |candidates| :: NameBefore(candidates[i].name, candidates[j].name))
    && (forall c | c in codecs :: Verdict(same, c, v) in candidates)
    && (forall d | d in candidates :: exists c | c in codecs :: d == Verdict(same, c, v))
  }

  ghost predicate Chooses<V(!new)>(same: (V, V) -> bool, codecs: seq<Codec<V>>, v: V, out: Choice) {
    && Reports(same, codecs, v, out.candidates)
    && match out.winner
       case None => forall c | c in codecs :: !RoundTrips(same, c, v)
       case Some((name, bytes)) => exists w :: Wins(same, codecs, v, w) && w.name == name && Output(w, v) == bytes
  }

  ghost predicate DistinctNames<V>(codecs: seq<Codec<V>>) {
    forall i, j | 0 <= i < j < |codecs| :: codecs[i].name != codecs[j].name
  }

  lemma {:induction false} ByName<V>(codecs: seq<Codec<V>>, c: Codec<V>, d: Codec<V>)
    requires DistinctNames(codecs) && c in codecs && d in codecs && c.name == d.name
    ensures c == d
  {
    var i :| 0 <= i < |codecs| && codecs[i] == c;
    var j :| 0 <= j < |codecs| && codecs[j] == d;
  }

  lemma {:induction false} NamesAreOrdered(a: string, b: string, c: string)
    ensures !NameBefore(a, a)
    ensures a != b ==> NameBefore(a, b) || NameBefore(b, a)
    ensures NameBefore(a, b) ==> !NameBefore(b, a)
    ensures NameBefore(a, b) && NameBefore(b, c) ==> NameBefore(a, c)
    ensures NameLe(a, b) && NameLe(b, a) ==> a == b
  {
    NameLeIsTotalOrder();
    hide NameLe;
  }

  lemma {:induction false} SameReport(s: seq<Candidate>, t: seq<Candidate>)
    requires forall i, j | 0 <= i < j < |s| :: NameBefore(s[i].name, s[j].name)
    requires forall i, j | 0 <= i < j < |t| :: NameBefore(t[i].name, t[j].name)
    requires forall d :: d in s <==> d in t
    ensures s == t
  {
    hide NameBefore;
    assert t == [] || t[0] in t;
    if s != [] {
      assert s[0] in t;
      assert t[0] in s;
      var i :| 0 <= i < |t| && t[i] == s[0];
      var j :| 0 <= j < |s| && s[j] == t[0];
      NamesAreOrdered(s[0].name, t[0].name, s[0].name);
      assert s[0] == t[0];
      forall d
        ensures d in s[1..] <==> d in t[1..]
      {
        TailOf(s, d);
        TailOf(t, d);
      }
      SameReport(s[1..], t[1..]);
      assert s == [s[0]] + s[1..] && t == [t[0]] + t[1..];
    }
  }

  lemma {:induction false} TailOf(s: seq<Candidate>, d: Candidate)
    requires s != [] && forall i, j | 0 <= i < j < |s| :: NameBefore(s[i].name, s[j].name)
    ensures d in s[1..] <==> d in s && d != s[0]
  {
    assert s == [s[0]] + s[1..];
    NamesAreOrdered(s[0].name, s[0].name, s[0].name);
    hide NameBefore;
    if d in s[1..] {
      var i :| 0 <= i < |s[1..]| && s[1..][i] == d;
      assert NameBefore(s[0].name, s[i + 1].name);
    }
  }

  /** The choice is determined by the set of codecs: neither registration order nor repetition of a call can be seen. */
  lemma {:induction false} ChoiceIsUnique<V(!new)>(
      same: (V, V) -> bool, codecs: seq<Codec<V>>, codecs': seq<Codec<V>>, v: V, out: Choice, out': Choice)
    requires DistinctNames(codecs) && (forall c :: c in codecs <==> c in codecs')
    requires Chooses(same, codecs, v, out) && Chooses(same, codecs', v, out')
    ensures out == out'
  {
    hide NameBefore, NameLe, RoundTrips, Verdict;
    forall d
      ensures d in out.candidates <==> d in out'.candidates
    {
    }
    SameReport(out.candidates, out'.candidates);
    if out.winner.Some? && out'.winner.Some? {
      var w :| Wins(same, codecs, v, w) && w.name == out.winner.value.0 && Output(w, v) == out.winner.value.1;
      var x :| Wins(same, codecs', v, x) && x.name == out'.winner.value.0 && Output(x, v) == out'.winner.value.1;
      NamesAreOrdered(w.name, x.name, w.name);
      ByName(codecs, w, x);
    }
  }

  // ----- the loop -----

  ghost predicate NamesAscend<V>(codecs: seq<Codec<V>>) {
    forall i, j | 0 <= i < j < |codecs| :: NameBefore(codecs[i].name, codecs[j].name)
  }

  /** Codec `win` is the winner among the first n. */
  ghost predicate IsBest<V(!new)>(same: (V, V) -> bool, codecs: seq<Codec<V>>, v: V, n: nat, win: Option<nat>)
    requires n <= |codecs|
  {
    match win
    case None => forall k | 0 <= k < n :: !RoundTrips(same, codecs[k], v)
    case Some(i) => i < n && Wins(same, codecs[..n], v, codecs[i])
  }

  lemma {:induction false} BestStep<V(!new)>(
      same: (V, V) -> bool, codecs: seq<Codec<V>>, v: V, n: nat, win: Option<nat>)
    requires n < |codecs| && NamesAscend(codecs) && IsBest(same, codecs, v, n, win)
    ensures var lossless := RoundTrips(same, codecs[n], v);
      var better := win.None? || |Output(codecs[n], v)| < |Output(codecs[win.value], v)|;
      IsBest(same, codecs, v, n + 1, if lossless && better then Some(n) else win)
  {
    assert codecs[..n + 1] == codecs[..n] + [codecs[n]];
    NamesAreOrdered(codecs[n].name, codecs[n].name, codecs[n].name);
    NameLeIsTotalOrder();
    hide RoundTrips, Output, NameLe;
    forall k | 0 <= k < n
      ensures codecs[k] in codecs[..n] && NameLe(codecs[k].name, codecs[n].name)
    {
      assert codecs[..n][k] == codecs[k];
      assert NameBefore(codecs[k].name, codecs[n].name);
    }
    assert codecs[n] in codecs[..n + 1];
  }

  /** Over codecs sorted by name, replacing the lead only on a strict decrease picks the winner. */
  method Smallest<V(!new)>(same: (V, V) -> bool, codecs: seq<Codec<V>>, v: V) returns (out: Choice)
    requires NamesAscend(codecs)
    ensures Chooses(same, codecs, v, out)
  {
    var candidates: seq<Candidate> := [];
    var win: Option<nat>, winSize, winBytes := None, 0, [];
    for i := 0 to |codecs|
      invariant |candidates| == i && forall k | 0 <= k < i :: candidates[k] == Verdict(same, codecs[k], v)
      invariant IsBest(same, codecs, v, i, win)
      invariant win.Some? ==> win.value < i && winBytes == Output(codecs[win.value], v) && winSize == |winBytes|
    {
      BestStep(same, codecs, v, i, win);
      hide IsBest, NamesAscend;
      var c := codecs[i];
      var encoded := c.encode(v);
      if encoded.Err? {
        candidates := candidates + [Candidate(c.name, 0, false, Some(encoded.error))];
        continue;
      }
      var back := c.decode(v, encoded.value);
      if back.Err? {
        candidates := candidates + [Candidate(c.name, |encoded.value|, false, Some(back.error))];
        continue;
      }
      candidates := candidates + [Candidate(c.name, |encoded.value|, same(back.value, v), None)];
      if !same(back.value, v) { continue; }
      if win.None? || |encoded.value| < winSize {
        win, winSize, winBytes := Some(i), |encoded.value|, encoded.value;
      }
    }
    VerdictsReport(same, codecs, v, candidates);
    out := Choice(if win.Some? then Some((codecs[win.value].name, winBytes)) else None, candidates);
    assert codecs[..|codecs|] == codecs;
    hide RoundTrips, Reports, Wins;
  }

  lemma {:induction false} VerdictsReport<V(!new)>(
      same: (V, V) -> bool, codecs: seq<Codec<V>>, v: V, candidates: seq<Candidate>)
    requires NamesAscend(codecs) && |candidates| == |codecs|
    requires forall k | 0 <= k < |codecs| :: candidates[k] == Verdict(same, codecs[k], v)
    ensures Reports(same, codecs, v, candidates)
  {
    hide NameBefore;
    forall k | 0 <= k < |codecs|
      ensures candidates[k].name == codecs[k].name
    {
    }
    hide Verdict;
    forall d | d in candidates
      ensures exists c | c in codecs :: d == Verdict(same, c, v)
    {
      var k :| 0 <= k < |candidates| && candidates[k] == d;
      assert codecs[k] in codecs;
    }
  }

  // ----- registration -----

  function Names<V>(codecs: seq<Codec<V>>): seq<string> {
    seq(|codecs|, i requires 0 <= i < |codecs| => codecs[i].name)
  }

  /** The first codec whose name is empty or already taken. */
  ghost predicate FirstBad<V>(codecs: seq<Codec<V>>, i: nat) {
    && i < |codecs| && BadName(Names(codecs), i)
    && forall k | 0 <= k < i :: !BadName(Names(codecs), k)
  }

  predicate BadName(names: seq<string>, i: nat)
    requires i < |names|
  {
    names[i] == "" || names[i] in names[..i]
  }

  /** Why a list of codecs is refused, if it is. */
  ghost predicate Refused<V>(codecs: seq<Codec<V>>, e: NameError) {
    if codecs == [] then e == NoCodecs
    else exists i: nat ::
      && FirstBad(codecs, i)
      && e == if codecs[i].name == "" then EmptyName else DuplicateName(codecs[i].name)
  }

  /** The codecs, found by name and listed by name. */
  ghost predicate Indexed<V>(sorted: seq<Codec<V>>, byName: map<string, Codec<V>>) {
    && NamesAscend(sorted)
    && (forall n | n in byName :: byName[n] in sorted && byName[n].name == n)
    && (forall c | c in sorted :: c.name in byName && byName[c.name] == c)
  }

  lemma {:induction false} AscendingNamesDiffer<V>(codecs: seq<Codec<V>>)
    requires NamesAscend(codecs)
    ensures DistinctNames(codecs)
  {
    forall i, j | 0 <= i < j < |codecs|
      ensures codecs[i].name != codecs[j].name
    {
      assert NameBefore(codecs[i].name, codecs[j].name);
    }
  }

  method Register<V(!new)>(codecs: seq<Codec<V>>) returns (r: Result<(seq<Codec<V>>, map<string, Codec<V>>), NameError>)
    ensures match r
      case Err(e) => Refused(codecs, e)
      case Ok((sorted, byName)) =>
        && codecs != [] && DistinctNames(codecs) && (forall c | c in codecs :: c.name != "")
        && (forall c :: c in sorted <==> c in codecs) && Indexed(sorted, byName)
  {
    if |codecs| == 0 { return Err(NoCodecs); }
    var byName: map<string, Codec<V>> := map[];
    var names: seq<string> := [];
    for i := 0 to |codecs|
      invariant names == Names(codecs)[..i]
      invariant forall k | 0 <= k < i :: !BadName(Names(codecs), k)
      invariant byName.Keys == (set n | n in names)
      invariant forall k | 0 <= k < i :: codecs[k].name in byName && byName[codecs[k].name] == codecs[k]
    {
      var name := codecs[i].name;
      if name == "" {
        assert FirstBad(codecs, i);
        return Err(EmptyName);
      }
      if name in byName {
        assert FirstBad(codecs, i);
        return Err(DuplicateName(name));
      }
      names := names + [name];
      byName := byName[name := codecs[i]];
    }
    assert names == Names(codecs);
    GoodNames(codecs, byName);
    hide BadName, FirstBad;
    var sorted := InNameOrder(codecs, names, byName);
    return Ok((sorted, byName));
  }

  method InNameOrder<V(!new)>(
      codecs: seq<Codec<V>>, names: seq<string>, byName: map<string, Codec<V>>) returns (sorted: seq<Codec<V>>)
    requires DistinctNames(codecs) && names == Names(codecs) && byName.Keys == set n | n in names
    requires forall n | n in byName :: byName[n] in codecs && byName[n].name == n
    requires forall c | c in codecs :: c.name in byName && byName[c.name] == c
    ensures (forall c :: c in sorted <==> c in codecs) && Indexed(sorted, byName)
  {
    NameLeIsTotalOrder();
    SortSorts(NameLe, names);
    var inOrder := Sort(NameLe, names);
    SameMembers(inOrder, names);
    hide Sort, NameLe, Sorted, TotalOrder;
    sorted := seq(|inOrder|, i requires 0 <= i < |inOrder| => byName[inOrder[i]]);
    SortedIsIndexed(codecs, inOrder, sorted, byName);
  }

  lemma {:induction false} SameMembers(s: seq<string>, t: seq<string>)
    requires multiset(s) == multiset(t)
    ensures forall n :: n in s <==> n in t
  {
    assert forall n :: n in s <==> n in multiset(s);
    assert forall n :: n in t <==> n in multiset(t);
  }

  lemma {:induction false} GoodNames<V>(codecs: seq<Codec<V>>, byName: map<string, Codec<V>>)
    requires forall k | 0 <= k < |codecs| :: !BadName(Names(codecs), k)
    requires forall k | 0 <= k < |codecs| :: codecs[k].name in byName && byName[codecs[k].name] == codecs[k]
    requires byName.Keys == set n | n in Names(codecs)
    ensures DistinctNames(codecs) && forall c | c in codecs :: c.name != ""
    ensures forall n | n in byName :: byName[n] in codecs && byName[n].name == n
    ensures forall c | c in codecs :: c.name in byName && byName[c.name] == c
  {
    var names := Names(codecs);
    forall i, j | 0 <= i < j < |codecs|
      ensures codecs[i].name != codecs[j].name
    {
      assert names[..j][i] == names[i];
      assert !BadName(names, j);
    }
    forall c | c in codecs
      ensures c.name != "" && c.name in byName && byName[c.name] == c
    {
      var k :| 0 <= k < |codecs| && codecs[k] == c;
      assert !BadName(names, k);
    }
    forall n | n in byName
      ensures byName[n] in codecs && byName[n].name == n
    {
      var k :| 0 <= k < |names| && names[k] == n;
      assert codecs[k].name == n;
    }
  }

  lemma {:induction false} SortedIsIndexed<V(!new)>(
      codecs: seq<Codec<V>>, inOrder: seq<string>, sorted: seq<Codec<V>>, byName: map<string, Codec<V>>)
    requires DistinctNames(codecs) && Sorted(NameLe, inOrder) && multiset(inOrder) == multiset(Names(codecs))
    requires forall n :: n in inOrder <==> n in byName
    requires forall n | n in byName :: byName[n] in codecs && byName[n].name == n
    requires forall c | c in codecs :: c.name in byName && byName[c.name] == c
    requires |sorted| == |inOrder| && forall i | 0 <= i < |sorted| :: sorted[i] == byName[inOrder[i]]
    ensures (forall c :: c in sorted <==> c in codecs) && Indexed(sorted, byName)
  {
    hide NameLe;
    forall i, j | 0 <= i < j < |sorted|
      ensures NameBefore(sorted[i].name, sorted[j].name)
    {
      NoRepeats(codecs, inOrder, i, j);
      assert NameLe(inOrder[i], inOrder[j]);
    }
    forall c
      ensures c in sorted <==> c in codecs
    {
      if c in codecs {
        var i :| 0 <= i < |inOrder| && inOrder[i] == c.name;
        assert sorted[i] == c;
      }
      if c in sorted {
        var i :| 0 <= i < |sorted| && sorted[i] == c;
        assert inOrder[i] in inOrder;
      }
    }
  }

  lemma {:induction false} NoRepeats<V>(codecs: seq<Codec<V>>, inOrder: seq<string>, i: nat, j: nat)
    requires DistinctNames(codecs) && multiset(inOrder) == multiset(Names(codecs)) && i < j < |inOrder|
    ensures inOrder[i] != inOrder[j]
  {
    CountedTwice(inOrder, i, j);
    var names := Names(codecs);
    assert inOrder[j] in multiset(names);
    var k :| 0 <= k < |names| && names[k] == inOrder[j];
    CountedOnce(names, k);
  }
}
