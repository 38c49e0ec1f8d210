/** Encoding selection for request bodies (pkg/wire/select.go). */
module Wire {
  import opened Prelude
  import opened Ordering
  import opened Selection

  datatype Error = NilValue | NoLosslessEncoder

  datatype Selected = Selected(encoder: string, bytes: Bytes, size: nat, candidates: seq<Candidate>)

  ghost predicate SelectsAs<V(!new)>(
      same: (V, V) -> bool, codecs: seq<Codec<V>>, v: Option<V>, s: Selected, error: Option<Error>) {
    match v
    case None => s == Selected("", [], 0, []) && error == Some(NilValue)
    case Some(value) => exists out :: Chooses(same, codecs, value, out) && SelectedFrom(out, s, error)
  }

  predicate SelectedFrom(out: Choice, s: Selected, error: Option<Error>) {
    match out.winner
    case None => s == Selected("", [], 0, out.candidates) && error == Some(NoLosslessEncoder)
    case Some((name, bytes)) => s == Selected(name, bytes, |bytes|, out.candidates) && error == None
  }

  /** The selected bytes decode back to the value, and no lossless encoder's output is smaller. */
  lemma {:induction false} SelectedIsLossless<V(!new)>(
      same: (V, V) -> bool, codecs: seq<Codec<V>>, v: V, s: Selected, c: Codec<V>)
    requires DistinctNames(codecs) && SelectsAs(same, codecs, Some(v), s, None) && c in codecs
    ensures c.name == s.encoder ==> c.decode(v, s.bytes).Ok? && same(c.decode(v, s.bytes).value, v)
    ensures RoundTrips(same, c, v) ==>
      || s.size < |Output(c, v)|
      || (s.size == |Output(c, v)| && NameLe(s.encoder, c.name))
  {
    var out :| Chooses(same, codecs, v, out) && SelectedFrom(out, s, None);
    var w :| Wins(same, codecs, v, w) && w.name == s.encoder && Output(w, v) == s.bytes;
    hide Chooses, NameLe;
    if c.name == s.encoder { ByName(codecs, c, w); }
  }

  /** The selection fails exactly when no encoder is lossless for the value. */
  lemma {:induction false} FailsIffNoneLossless<V(!new)>(
      same: (V, V) -> bool, codecs: seq<Codec<V>>, v: V, s: Selected, error: Option<Error>)
    requires SelectsAs(same, codecs, Some(v), s, error)
    ensures error == Some(NoLosslessEncoder) <==> forall c | c in codecs :: !RoundTrips(same, c, v)
    ensures error == None <==> exists c :: c in codecs && RoundTrips(same, c, v)
  {
    var out :| Chooses(same, codecs, v, out) && SelectedFrom(out, s, error);
    hide RoundTrips;
  }

  lemma {:induction false} SelectionIsOrderFree<V(!new)>(
      same: (V, V) -> bool, codecs: seq<Codec<V>>, codecs': seq<Codec<V>>, v: Option<V>,
      s: Selected, s': Selected, error: Option<Error>, error': Option<Error>)
    requires DistinctNames(codecs) && forall c :: c in codecs <==> c in codecs'
    requires SelectsAs(same, codecs, v, s, error) && SelectsAs(same, codecs', v, s', error')
    ensures s == s' && error == error'
  {
    if v.Some? {
      var out :| Chooses(same, codecs, v.value, out) && SelectedFrom(out, s, error);
      var out' :| Chooses(same, codecs', v.value, out') && SelectedFrom(out', s', error');
      ChoiceIsUnique(same, codecs, codecs', v.value, out, out');
      hide Chooses;
    }
  }

  /** `same` is the comparison of decoded and original value; it need not be reflexive (a NaN never equals itself). */
  class Selector<V(!new)> {
    const encoders: seq<Codec<V>>
    const same: (V, V) -> bool

    ghost predicate Valid() { NamesAscend(encoders) }

    constructor (same: (V, V) -> bool, encoders: seq<Codec<V>>)
      requires NamesAscend(encoders)
      ensures Valid() && this.same == same && this.encoders == encoders
    {
      this.same, this.encoders := same, encoders;
    }

    method Select(v: Option<V>) returns (s: Selected, error: Option<Error>)
      requires Valid()
      ensures SelectsAs(same, encoders, v, s, error)
    {
      if v.None? { return Selected("", [], 0, []), Some(NilValue); }
      var out := Smallest(same, encoders, v.value);
      match out.winner
      case None => s, error := Selected("", [], 0, out.candidates), Some(NoLosslessEncoder);
      case Some((name, bytes)) => s, error := Selected(name, bytes, |bytes|, out.candidates), None;
    }
  }

  /** A selector holds the given encoders and no others; they have distinct, non-empty names. */
  method NewSelector<V(!new)>(same: (V, V) -> bool, codecs: seq<Codec<V>>) returns (r: Result<Selector<V>, NameError>)
    ensures match r
      case Err(e) => Refused(codecs, e)
      case Ok(s) =>
        && s.Valid() && s.same == same && (forall c :: c in s.encoders <==> c in codecs)
        && codecs != [] && DistinctNames(codecs) && forall c | c in codecs :: c.name != ""
  {
    var registered := Register(codecs);
    if registered.Err? { return Err(registered.error); }
    var s := new Selector(same, registered.value.0);
    return Ok(s);
  }
}
