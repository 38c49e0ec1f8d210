/**
  The byte stream that pkg/cache/artifact.go feeds to its hash, for a tool invocation and for
  a web resource. The hash itself is opaque: keys are compared as streams.
 */
module ArtifactKey {
  import opened Prelude
  import opened Ordering

  type Byte = n: int | 0 <= n < 256
  type Bytes = seq<Byte>

  const TWO64: nat := 0x1_0000_0000_0000_0000

  /** A Go string: its length fits the 64-bit prefix. */
  type Text = s: Bytes | |s| < TWO64 witness []

  datatype Invocation = Invocation(tool: Text, argv: seq<Text>, gitHead: Text, inputs: map<Text, Text>)

  /** The counts that are written as 64-bit numbers fit. */
  predicate Fits(v: Invocation) { |v.argv| < TWO64 && |v.inputs| < TWO64 }

  // ----- the encoding -----

  function Pow256(w: nat): (r: nat)
    ensures 0 < r
  {
    if w == 0 then 1 else 256 * Pow256(w - 1)
  }

  /** n in w big-endian bytes, keeping the low-order part. */
  function BigEndian(n: nat, w: nat): Bytes {
    if w == 0 then [] else BigEndian(n / 256, w - 1) + [n % 256]
  }

  function Number(n: nat): Bytes { BigEndian(n, 8) }

  function Field(b: Text): Bytes { Number(|b|) + b }

  function Fields(bs: seq<Text>): Bytes {
    if bs == [] then [] else Field(bs[0]) + Fields(bs[1..])
  }

  function Pairs(paths: seq<Text>, inputs: map<Text, Text>): Bytes
    requires forall p | p in paths :: p in inputs
  {
    if paths == [] then [] else Field(paths[0]) + Field(inputs[paths[0]]) + Pairs(paths[1..], inputs)
  }

  // ----- the listing of the input paths -----

  predicate TextLe(a: Text, b: Text) { LexLe(a, b) }

  lemma {:induction false} TextLeIsTotalOrder()
    ensures TotalOrder(TextLe)
  {
    LexIsTotalOrder();
  }

  /** `paths` names each key once, in some order. */
  ghost predicate Lists(paths: seq<Text>, keys: set<Text>) { multiset(paths) == multiset(keys) }

  ghost function AnyListing(keys: set<Text>): seq<Text> {
    if keys == {} then []
    else
      var p :| p in keys;
      AnyListing(keys - {p}) + [p]
  }

  lemma {:induction false} AnyListingLists(keys: set<Text>)
    ensures Lists(AnyListing(keys), keys)
  {
    if keys != {} {
      var p :| p in keys && AnyListing(keys) == AnyListing(keys - {p}) + [p];
      AnyListingLists(keys - {p});
      assert multiset(keys) == multiset(keys - {p}) + multiset{p};
    }
  }

  /** The keys in ascending order. */
  ghost function SortedKeys(keys: set<Text>): (paths: seq<Text>)
    ensures forall p | p in paths :: p in keys
  {
    AnyListingLists(keys);
    TextLeIsTotalOrder();
    SortSorts(TextLe, AnyListing(keys));
    assert forall p | p in Sort(TextLe, AnyListing(keys)) :: p in multiset(keys);
    Sort(TextLe, AnyListing(keys))
  }

  /** Whatever order a listing of the keys comes in, sorting it gives the same sequence. */
  lemma {:induction false} SortedListingIsCanonical(paths: seq<Text>, keys: set<Text>)
    requires Lists(paths, keys)
    ensures Sort(TextLe, paths) == SortedKeys(keys) && Lists(SortedKeys(keys), keys) && |SortedKeys(keys)| == |keys|
  {
    TextLeIsTotalOrder();
    AnyListingLists(keys);
    SortCanonical(TextLe, paths, AnyListing(keys));
    SortSorts(TextLe, AnyListing(keys));
    assert |multiset(SortedKeys(keys))| == |multiset(keys)|;
  }

  /** The paths are fed in ascending order of their bytes, a prefix first. */
  lemma {:induction false} PathsAscend(keys: set<Text>, i: nat, j: nat)
    requires i < j < |SortedKeys(keys)|
    ensures ComesFirst<int>(SortedKeys(keys)[i], SortedKeys(keys)[j], (x: int, y: int) => x < y)
  {
    TextLeIsTotalOrder();
    SortSorts(TextLe, AnyListing(keys));
    var a, b := SortedKeys(keys)[i], SortedKeys(keys)[j];
    assert TextLe(a, b);
    LexLeMeaning(a, b);
    hide LexLe, ComesFirst;
  }

  // ----- the streams -----

  ghost function Stream(v: Invocation): Bytes {
    Field(v.tool) + Number(|v.argv|) + Fields(v.argv) + Field(v.gitHead) + Number(|v.inputs|)
      + Pairs(SortedKeys(v.inputs.Keys), v.inputs)
  }

  function WebStream(url: Text, etag: Text): Bytes { Field(url) + Field(etag) }

  // ----- what the code does: writes into a running hash -----

  /** A running hash: everything fed to it so far. */
  class Hash {
    var fed: Bytes

    constructor ()
      ensures fed == []
    {
      fed := [];
    }

    method Write(b: Bytes)
      modifies this
      ensures fed == old(fed) + b
    {
      fed := fed + b;
    }

    method WriteUint64(n: nat)
      modifies this
      ensures fed == old(fed) + Number(n)
    {
      Write(Number(n));
    }

    method WriteField(b: Text)
      modifies this
      ensures fed == old(fed) + Field(b)
    {
      WriteUint64(|b|);
      Write(b);
    }
  }

  lemma {:induction false} Concat(a: Bytes, b: Bytes, c: Bytes)
    ensures (a + b) + c == a + (b + c)
  {
  }

  lemma {:induction false} FieldsSnoc(bs: seq<Text>, b: Text)
    ensures Fields(bs + [b]) == Fields(bs) + Field(b)
  {
    if bs == [] {
      assert [b][1..] == [];
    } else {
      FieldsSnoc(bs[1..], b);
      assert (bs + [b])[1..] == bs[1..] + [b];
      hide Field;
      Concat(Field(bs[0]), Fields(bs[1..]), Field(b));
    }
  }

  lemma {:induction false} PairsSnoc(ps: seq<Text>, p: Text, inputs: map<Text, Text>)
    requires p in inputs && forall q | q in ps :: q in inputs
    ensures Pairs(ps + [p], inputs) == Pairs(ps, inputs) + (Field(p) + Field(inputs[p]))
  {
    if ps == [] {
      assert [p][1..] == [];
    } else {
      PairsSnoc(ps[1..], p, inputs);
      assert (ps + [p])[1..] == ps[1..] + [p];
      hide Field;
      Concat(Field(ps[0]) + Field(inputs[ps[0]]), Pairs(ps[1..], inputs), Field(p) + Field(inputs[p]));
    }
  }

  /** Collects the keys of the map; the iteration order is arbitrary. */
  method Paths(inputs: map<Text, Text>) returns (paths: seq<Text>)
    ensures Lists(paths, inputs.Keys)
  {
    paths := [];
    var left := inputs.Keys;
    while left != {}
      invariant left <= inputs.Keys
      invariant multiset(paths) == multiset(inputs.Keys - left)
      decreases |left|
    {
      var p :| p in left;
      paths := paths + [p];
      assert inputs.Keys - (left - {p}) == (inputs.Keys - left) + {p};
      left := left - {p};
    }
    assert inputs.Keys - left == inputs.Keys;
  }

  method FeedFields(h: Hash, bs: seq<Text>)
    modifies h
    ensures h.fed == old(h.fed) + Fields(bs)
  {
    for i := 0 to |bs|
      invariant h.fed == old(h.fed) + Fields(bs[..i])
    {
      assert bs[..i + 1] == bs[..i] + [bs[i]];
      FieldsSnoc(bs[..i], bs[i]);
      h.WriteField(bs[i]);
    }
    assert bs[..|bs|] == bs;
  }

  method FeedPairs(h: Hash, paths: seq<Text>, inputs: map<Text, Text>)
    requires forall p | p in paths :: p in inputs
    modifies h
    ensures h.fed == old(h.fed) + Pairs(paths, inputs)
  {
    hide Field, Pairs;
    assert Pairs([], inputs) == [] by { EmptyPairs(inputs); }
    for i := 0 to |paths|
      invariant h.fed == old(h.fed) + Pairs(paths[..i], inputs)
    {
      assert paths[..i + 1] == paths[..i] + [paths[i]];
      PairsSnoc(paths[..i], paths[i], inputs);
      ghost var before := h.fed;
      h.WriteField(paths[i]);
      h.WriteField(inputs[paths[i]]);
      Concat(before, Field(paths[i]), Field(inputs[paths[i]]));
      Concat(old(h.fed), Pairs(paths[..i], inputs), Field(paths[i]) + Field(inputs[paths[i]]));
    }
    assert paths[..|paths|] == paths;
  }

  lemma {:induction false} EmptyPairs(inputs: map<Text, Text>)
    ensures Pairs([], inputs) == []
  {
  }

  /** ArtifactKey up to the hash: the map's iteration order cannot be seen in what is fed. */
  method FeedArtifact(v: Invocation) returns (fed: Bytes)
    ensures fed == Stream(v)
  {
    hide Field, Fields, Pairs, Number, SortedKeys, Lists;
    var h := new Hash();
    h.WriteField(v.tool);
    assert h.fed == Field(v.tool);
    h.WriteUint64(|v.argv|);
    FeedFields(h, v.argv);
    h.WriteField(v.gitHead);
    var paths := Paths(v.inputs);
    SortedListingIsCanonical(paths, v.inputs.Keys);
    paths := Sort(TextLe, paths);
    h.WriteUint64(|paths|);
    FeedPairs(h, paths, v.inputs);
    fed := h.fed;
  }

  method FeedWeb(url: Text, etag: Text) returns (fed: Bytes)
    ensures fed == WebStream(url, etag)
  {
    var h := new Hash();
    h.WriteField(url);
    h.WriteField(etag);
    fed := h.fed;
  }

  // ----- a parser that undoes the encoding -----

  function FromBigEndian(b: Bytes): nat {
    if b == [] then 0 else 256 * FromBigEndian(b[..|b| - 1]) + b[|b| - 1]
  }

  function ParseNumber(s: Bytes): Option<(nat, Bytes)> {
    if |s| < 8 then None else Some((FromBigEndian(s[..8]), s[8..]))
  }

  function ParseField(s: Bytes): Option<(Text, Bytes)> {
    var n := ParseNumber(s);
    if n.None? || |n.value.1| < n.value.0 || TWO64 <= n.value.0 then None
    else Some((n.value.1[..n.value.0], n.value.1[n.value.0..]))
  }

  function ParseFields(n: nat, s: Bytes): Option<(seq<Text>, Bytes)> {
    if n == 0 then Some(([], s))
    else
      var f := ParseField(s);
      if f.None? then None
      else
        var fs := ParseFields(n - 1, f.value.1);
        if fs.None? then None else Some(([f.value.0] + fs.value.0, fs.value.1))
  }

  /** The inputs are n path-hash pairs, which is 2n fields. */
  function Paired(fs: seq<Text>): map<Text, Text>
    decreases |fs|
  {
    if |fs| < 2 then map[] else Paired(fs[2..])[fs[0] := fs[1]]
  }

  function Parse(s: Bytes): Option<Invocation> {
    var tool := ParseField(s);
    if tool.None? then None
    else
      var argc := ParseNumber(tool.value.1);
      if argc.None? then None
      else
        var argv := ParseFields(argc.value.0, argc.value.1);
        if argv.None? then None
        else
          var git := ParseField(argv.value.1);
          if git.None? then None
          else
            var n := ParseNumber(git.value.1);
            if n.None? then None
            else
              var inputs := ParseFields(2 * n.value.0, n.value.1);
              if inputs.None? || inputs.value.1 != [] then None
              else Some(Invocation(tool.value.0, argv.value.0, git.value.0, Paired(inputs.value.0)))
  }

  lemma {:induction false} BigEndianRoundTrip(n: nat, w: nat)
    requires n < Pow256(w)
    ensures |BigEndian(n, w)| == w && FromBigEndian(BigEndian(n, w)) == n
  {
    if w > 0 {
      assert n / 256 < Pow256(w - 1);
      BigEndianRoundTrip(n / 256, w - 1);
      var b := BigEndian(n, w);
      assert b[..|b| - 1] == BigEndian(n / 256, w - 1);
    }
  }

  /** The number's bytes, most significant first: byte i counts 256 to the power of 7 - i. */
  lemma {:induction false} NumberBytes(n: nat, i: nat)
    requires i < 8
    ensures |Number(n)| == 8 && Number(n)[i] == n / Pow256(7 - i) % 256
  {
    BigEndianBytes(n, 8, i);
  }

  lemma {:induction false} BigEndianBytes(n: nat, w: nat, i: nat)
    requires i < w
    ensures |BigEndian(n, w)| == w && BigEndian(n, w)[i] == n / Pow256(w - 1 - i) % 256
  {
    BigEndianLength(n / 256, w - 1);
    if i + 1 < w {
      BigEndianBytes(n / 256, w - 1, i);
      DividedTwice(n, Pow256(w - 2 - i));
    }
  }

  lemma {:induction false} BigEndianLength(n: nat, w: nat)
    ensures |BigEndian(n, w)| == w
  {
    if w > 0 { BigEndianLength(n / 256, w - 1); }
  }

  lemma DividedTwice(n: nat, d: nat)
    requires 0 < d
    ensures n / 256 / d == n / (256 * d)
  {
    var x := n / 256;
    var q := x / d;
    var r := x - q * d;
    assert n == 256 * x + n % 256 && x == q * d + r && 0 <= r < d;
    Quotient(n, 256 * d, q, 256 * r + n % 256);
  }

  lemma Quotient(n: nat, d: nat, q: nat, r: nat)
    requires r < d && n == q * d + r
    ensures n / d == q
  {
    var p, s := n / d, n % d;
    Apart(p, q, r, s, d);
    Apart(q, p, s, r, d);
  }

  /** Two representations by quotient and remainder cannot have different quotients. */
  lemma Apart(p: int, q: int, r: int, s: int, d: int)
    requires p * d + s == q * d + r && 0 <= r < d && 0 <= s < d
    ensures q <= p
  {
    if p < q { Grown(q - p, d); }
  }

  lemma Grown(x: int, d: int)
    requires 1 <= x && 0 <= d
    ensures d <= x * d
  {
  }

  lemma {:induction false} NumberRoundTrip(n: nat, rest: Bytes)
    requires n < TWO64
    ensures |Number(n)| == 8 && ParseNumber(Number(n) + rest) == Some((n, rest))
  {
    assert Pow256(8) == TWO64 by {
      assert Pow256(2) == 65536;
      assert Pow256(4) == 65536 * 65536;
      assert Pow256(6) == 65536 * 65536 * 65536;
    }
    BigEndianRoundTrip(n, 8);
    assert (Number(n) + rest)[..8] == Number(n) && (Number(n) + rest)[8..] == rest;
  }

  lemma {:induction false} FieldRoundTrip(b: Text, rest: Bytes)
    ensures ParseField(Field(b) + rest) == Some((b, rest)) && |Field(b)| == 8 + |b|
  {
    NumberRoundTrip(|b|, b + rest);
    assert Field(b) + rest == Number(|b|) + (b + rest);
    assert (b + rest)[..|b|] == b && (b + rest)[|b|..] == rest;
  }

  lemma {:induction false} FieldsLong(bs: seq<Text>)
    ensures 8 * |bs| <= |Fields(bs)|
  {
    if bs != [] {
      FieldRoundTrip(bs[0], []);
      FieldsLong(bs[1..]);
    }
  }

  lemma {:induction false} ParseFieldsCons(n: nat, s: Bytes, b: Text, after: Bytes, bs: seq<Text>, rest: Bytes)
    requires ParseField(s) == Some((b, after)) && ParseFields(n, after) == Some((bs, rest))
    ensures ParseFields(n + 1, s) == Some(([b] + bs, rest))
  {
    hide ParseField;
  }

  lemma {:induction false} FieldsRoundTrip(bs: seq<Text>, rest: Bytes)
    ensures ParseFields(|bs|, Fields(bs) + rest) == Some((bs, rest))
  {
    if bs == [] {
      assert Fields(bs) + rest == rest;
    } else {
      FieldsRoundTrip(bs[1..], rest);
      FieldsStep(bs, rest);
    }
  }

  lemma {:induction false} FieldsStep(bs: seq<Text>, rest: Bytes)
    requires bs != [] && ParseFields(|bs[1..]|, Fields(bs[1..]) + rest) == Some((bs[1..], rest))
    ensures ParseFields(|bs|, Fields(bs) + rest) == Some((bs, rest))
  {
    var after := Fields(bs[1..]) + rest;
    Concat(Field(bs[0]), Fields(bs[1..]), rest);
    assert Fields(bs) + rest == Field(bs[0]) + after;
    hide ParseField, Field, ParseFields, Fields;
    FieldRoundTrip(bs[0], after);
    ParseFieldsCons(|bs| - 1, Fields(bs) + rest, bs[0], after, bs[1..], rest);
    assert bs == [bs[0]] + bs[1..];
  }

  /** The pairs section is the fields path, hash, path, hash, ... */
  function Flat(paths: seq<Text>, inputs: map<Text, Text>): seq<Text>
    requires forall p | p in paths :: p in inputs
  {
    if paths == [] then [] else [paths[0], inputs[paths[0]]] + Flat(paths[1..], inputs)
  }

  lemma {:induction false} PairsAreFields(paths: seq<Text>, inputs: map<Text, Text>)
    requires forall p | p in paths :: p in inputs
    ensures Pairs(paths, inputs) == Fields(Flat(paths, inputs)) && |Flat(paths, inputs)| == 2 * |paths|
  {
    if paths != [] {
      PairsAreFields(paths[1..], inputs);
      var rest := Flat(paths[1..], inputs);
      var all := [paths[0], inputs[paths[0]]] + rest;
      assert all[1..] == [inputs[paths[0]]] + rest && all[1..][1..] == rest;
      assert Fields(all) == Field(paths[0]) + (Field(inputs[paths[0]]) + Fields(rest));
    }
  }

  lemma {:induction false} PairedIsTheMap(paths: seq<Text>, inputs: map<Text, Text>)
    requires forall p | p in paths :: p in inputs
    ensures Paired(Flat(paths, inputs)) == map p | p in paths :: inputs[p]
  {
    if paths != [] {
      PairedIsTheMap(paths[1..], inputs);
      var fs := Flat(paths, inputs);
      assert fs[2..] == Flat(paths[1..], inputs);
      assert forall p :: p in paths <==> p == paths[0] || p in paths[1..];
    }
  }

  // ----- main results -----

  /** What is left to parse after the tool, and after the arguments. */
  ghost function AfterArgv(v: Invocation): Bytes {
    Field(v.gitHead) + (Number(|v.inputs|) + Pairs(SortedKeys(v.inputs.Keys), v.inputs))
  }

  ghost function AfterTool(v: Invocation): Bytes {
    Number(|v.argv|) + (Fields(v.argv) + AfterArgv(v))
  }

  lemma {:induction false} StreamSplits(v: Invocation)
    ensures Stream(v) == Field(v.tool) + AfterTool(v)
  {
    hide Field, Number, Fields, Pairs, SortedKeys;
    var a, b, c := Field(v.tool), Number(|v.argv|), Fields(v.argv);
    var d, e, f := Field(v.gitHead), Number(|v.inputs|), Pairs(SortedKeys(v.inputs.Keys), v.inputs);
    assert a + b + c + d + e + f == a + (b + (c + (d + (e + f))));
  }

  /** The parser recovers every invocation from its stream. */
  lemma {:induction false} StreamRoundTrip(v: Invocation)
    requires Fits(v)
    ensures Parse(Stream(v)) == Some(v)
  {
    hide ParseField, ParseNumber, ParseFields, Field, Number, Fields, Pairs, SortedKeys, Flat, Paired;
    var paths := SortedKeys(v.inputs.Keys);
    AnyListingLists(v.inputs.Keys);
    SortedListingIsCanonical(AnyListing(v.inputs.Keys), v.inputs.Keys);
    StreamSplits(v);
    FieldRoundTrip(v.tool, AfterTool(v));
    NumberRoundTrip(|v.argv|, Fields(v.argv) + AfterArgv(v));
    FieldsRoundTrip(v.argv, AfterArgv(v));
    FieldRoundTrip(v.gitHead, Number(|v.inputs|) + Pairs(paths, v.inputs));
    NumberRoundTrip(|v.inputs|, Pairs(paths, v.inputs));
    PairsRoundTrip(paths, v.inputs);
  }

  lemma {:induction false} PairsRoundTrip(paths: seq<Text>, inputs: map<Text, Text>)
    requires Lists(paths, inputs.Keys) && forall p | p in paths :: p in inputs
    ensures |paths| == |inputs|
    ensures ParseFields(2 * |inputs|, Pairs(paths, inputs)) == Some((Flat(paths, inputs), []))
    ensures Paired(Flat(paths, inputs)) == inputs
  {
    PairsAreFields(paths, inputs);
    PairedIsTheMap(paths, inputs);
    FieldsRoundTrip(Flat(paths, inputs), []);
    assert Pairs(paths, inputs) + [] == Pairs(paths, inputs);
    assert |multiset(paths)| == |multiset(inputs.Keys)| == |inputs.Keys|;
    forall p
      ensures p in paths <==> p in inputs
    {
      assert p in paths <==> p in multiset(paths);
    }
  }

  /** Equal streams come from equal invocations: no change to any field can go unnoticed. */
  lemma {:induction false} StreamInjective(v: Invocation, w: Invocation)
    requires Fits(v) && Fits(w) && Stream(v) == Stream(w)
    ensures v == w
  {
    StreamRoundTrip(v);
    StreamRoundTrip(w);
  }

  lemma {:induction false} WebStreamInjective(url: Text, etag: Text, url': Text, etag': Text)
    requires WebStream(url, etag) == WebStream(url', etag')
    ensures url == url' && etag == etag'
  {
    FieldRoundTrip(url, Field(etag));
    FieldRoundTrip(url', Field(etag'));
    FieldRoundTrip(etag, []);
    FieldRoundTrip(etag', []);
    assert Field(etag) + [] == Field(etag) && Field(etag') + [] == Field(etag');
  }

  /** A web stream is never an artifact stream, so the two kinds of key never share a pre-image. */
  lemma {:induction false} DomainsAreSeparate(v: Invocation, url: Text, etag: Text)
    requires Fits(v)
    ensures Stream(v) != WebStream(url, etag)
  {
    hide Field, Number, Fields, Pairs, SortedKeys, ParseField, ParseNumber, Stream;
    if Stream(v) == WebStream(url, etag) {
      StreamSplits(v);
      FieldRoundTrip(v.tool, AfterTool(v));
      FieldRoundTrip(url, Field(etag));
      assert AfterTool(v) == Field(etag);
      TailsDiffer(v, etag);
    }
  }

  /** Read as the web etag's length, the argument count n would have to be at least 8n + 8. */
  lemma {:induction false} TailsDiffer(v: Invocation, etag: Text)
    requires Fits(v)
    ensures AfterTool(v) != Field(etag)
  {
    NumberRoundTrip(|v.argv|, Fields(v.argv) + AfterArgv(v));
    NumberRoundTrip(|etag|, etag);
    FieldsLong(v.argv);
    FieldRoundTrip(v.gitHead, []);
    hide Number, Fields, Pairs, SortedKeys, ParseNumber;
    assert AfterTool(v) == Field(etag) ==> Fields(v.argv) + AfterArgv(v) == etag && |v.argv| == |etag|;
  }
}
