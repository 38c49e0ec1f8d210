/**
  Content-coding negotiation (pkg/transport/negotiate.go): compress with the smallest lossless
  compressor, declare it in the Content-Encoding header, and undo it under that header.
 */
module Transport {
  import opened Prelude
  import opened Ordering
  import opened Selection

  /** A compressor is a codec of bodies; its name is its content-coding token. */
  type Compressor = Codec<Bytes>

  const Identity := "identity"

  const SameBytes: (Bytes, Bytes) -> bool := (a: Bytes, b: Bytes) => a == b

  datatype Error = NoLosslessCompressor | UnknownEncoding(token: string) | Corrupt(fault: Fault)

  /** The outcome of Compress; the winner's fields are empty when there is none. */
  datatype Encoded = Encoded(encoding: string, body: Bytes, size: nat, candidates: seq<Candidate>)

  /** The header value to send, or None to omit the header (section 3.1.2.2 of RFC 7231). */
  function ContentEncoding(encoding: string): Option<string> {
    if encoding == "" || encoding == Identity then None else Some(encoding)
  }

  /** The header is omitted for the identity coding and for none, and names any other coding. */
  lemma {:induction false} HeaderNamesTheCoding(encoding: string)
    ensures ContentEncoding(encoding) == None <==> encoding == "" || encoding == "identity"
    ensures ContentEncoding(encoding).Some? ==> ContentEncoding(encoding).value == encoding
  {
  }

  ghost predicate CompressesTo(codecs: seq<Compressor>, body: Bytes, e: Encoded, error: Option<Error>) {
    exists out :: Chooses(SameBytes, codecs, body, out) && EncodedFrom(out, e, error)
  }

  predicate EncodedFrom(out: Choice, e: Encoded, error: Option<Error>) {
    match out.winner
    case None => e == Encoded("", [], 0, out.candidates) && error == Some(NoLosslessCompressor)
    case Some((name, bytes)) => e == Encoded(name, bytes, |bytes|, out.candidates) && error == None
  }

  ghost predicate DecompressesTo(codecs: seq<Compressor>, token: string, body: Bytes, r: Result<Bytes, Error>) {
    var coding := if token == "" then Identity else token;
    if exists c :: c in codecs && c.name == coding then
      exists c :: c in codecs && c.name == coding && r == Decoded(c.decode([], body))
    else if coding == Identity then r == Ok(body)
    else r == Err(UnknownEncoding(coding))
  }

  function Decoded(d: Result<Bytes, Fault>): Result<Bytes, Error> {
    if d.Ok? then Ok(d.value) else Err(Corrupt(d.error))
  }

  /** Decoding a body needs no value to say what type to decode into. */
  ghost predicate Bodies(codecs: seq<Compressor>) {
    forall c, v, w, b | c in codecs :: c.decode(v, b) == c.decode(w, b)
  }

  /**
    The header tells the truth: a body decoded under the header that Compress's result declares
    (or under no header, if it declares none) is the original body.
   */
  lemma {:induction false} HeaderRoundTrip(codecs: seq<Compressor>, body: Bytes, e: Encoded, r: Result<Bytes, Error>)
    requires NamesAscend(codecs) && Bodies(codecs) && forall c | c in codecs :: c.name != ""
    requires CompressesTo(codecs, body, e, None)
    requires var header := ContentEncoding(e.encoding);
      DecompressesTo(codecs, if header.Some? then header.value else "", e.body, r)
    ensures r == Ok(body)
  {
    var out :| Chooses(SameBytes, codecs, body, out) && EncodedFrom(out, e, None);
    var w :| Wins(SameBytes, codecs, body, w) && w.name == e.encoding && Output(w, body) == e.body;
    var coding := if e.encoding == "" then Identity else e.encoding;
    AscendingNamesDiffer(codecs);
    hide Chooses, NamesAscend, NameLe;
    assert w in codecs && w.name == coding;
    var c :| c in codecs && c.name == coding && r == Decoded(c.decode([], e.body));
    ByName(codecs, c, w);
    assert w.decode(body, e.body) == Ok(body);
    assert w.decode([], e.body) == w.decode(body, e.body);
  }

  /** With the identity compressor registered nothing fails and nothing grows. */
  lemma {:induction false} IdentityNeverFails(
      codecs: seq<Compressor>, body: Bytes, e: Encoded, error: Option<Error>, identity: Compressor)
    requires identity in codecs && identity.encode(body) == Ok(body) && identity.decode(body, body) == Ok(body)
    requires CompressesTo(codecs, body, e, error)
    ensures error == None && |e.body| <= |body|
  {
    var out :| Chooses(SameBytes, codecs, body, out) && EncodedFrom(out, e, error);
    assert RoundTrips(SameBytes, identity, body) && Output(identity, body) == body;
    if out.winner.Some? {
      var w :| Wins(SameBytes, codecs, body, w) && w.name == e.encoding && Output(w, body) == e.body;
    }
  }

  /** Registration order cannot be seen: the same compressors in any order give the same result. */
  lemma {:induction false} CompressIsOrderFree(
      codecs: seq<Compressor>, codecs': seq<Compressor>, body: Bytes, e: Encoded, e': Encoded, error: Option<Error>,
        error': Option<Error>)
    requires DistinctNames(codecs) && forall c :: c in codecs <==> c in codecs'
    requires CompressesTo(codecs, body, e, error) && CompressesTo(codecs', body, e', error')
    ensures e == e' && error == error'
  {
    var out :| Chooses(SameBytes, codecs, body, out) && EncodedFrom(out, e, error);
    var out' :| Chooses(SameBytes, codecs', body, out') && EncodedFrom(out', e', error');
    ChoiceIsUnique(SameBytes, codecs, codecs', body, out, out');
    hide Chooses;
  }

  class Negotiator {
    const encoders: seq<Compressor>
    const byEncoding: map<string, Compressor>

    ghost predicate Valid() {
      Indexed(encoders, byEncoding)
    }

    constructor (encoders: seq<Compressor>, byEncoding: map<string, Compressor>)
      requires Indexed(encoders, byEncoding)
      ensures Valid() && this.encoders == encoders && this.byEncoding == byEncoding
    {
      this.encoders, this.byEncoding := encoders, byEncoding;
    }

    method Compress(body: Bytes) returns (e: Encoded, error: Option<Error>)
      requires Valid()
      ensures CompressesTo(encoders, body, e, error)
    {
      var out := Smallest(SameBytes, encoders, body);
      match out.winner
      case None => e, error := Encoded("", [], 0, out.candidates), Some(NoLosslessCompressor);
      case Some((name, bytes)) => e, error := Encoded(name, bytes, |bytes|, out.candidates), None;
    }

    method Decompress(token: string, body: Bytes) returns (r: Result<Bytes, Error>)
      requires Valid()
      ensures DecompressesTo(encoders, token, body, r)
    {
      var coding := if token == "" then Identity else token;
      if coding in byEncoding { return Decoded(byEncoding[coding].decode([], body)); }
      if coding == Identity { return Ok(body); }
      return Err(UnknownEncoding(coding));
    }
  }

  /** A negotiator holds the given compressors and no others; they have distinct, non-empty tokens. */
  method NewNegotiator(codecs: seq<Compressor>) returns (r: Result<Negotiator, NameError>)
    ensures match r
      case Err(e) => Refused(codecs, e)
      case Ok(n) =>
        && n.Valid() && (forall c :: c in n.encoders <==> c in codecs)
        && codecs != [] && DistinctNames(codecs) && forall c | c in codecs :: c.name != ""
  {
    var registered := Register(codecs);
    if registered.Err? { return Err(registered.error); }
    var n := new Negotiator(registered.value.0, registered.value.1);
    return Ok(n);
  }
}
