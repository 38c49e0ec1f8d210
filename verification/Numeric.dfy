/** Numeric normalisation of JSON-shaped values (pkg/wire/numeric.go). */
module Numeric {
  import opened Prelude

  datatype Float = Finite(r: real) | NaN | Infinite(negative: bool)

  /** Any value handed to the normaliser; `Other` is every kind it passes through unchanged. */
  datatype Value =
    | Nil
    | Object(fields: map<string, Value>)
    | Array(items: seq<Value>)
    | Signed(n: int)
    | Unsigned(u: nat)
    | Floating(f: Float, double: bool)
    | Other(id: int)

  datatype Error = NotRepresentable

  const MaxExactInt := 0x20_0000_0000_0000

  function Scalar(v: Value): Result<Value, Error>
    requires !v.Object? && !v.Array?
  {
    match v
    case Signed(n) =>
      if n > MaxExactInt || n < -MaxExactInt then Err(NotRepresentable) else Ok(Floating(Finite(n as real), true))
    case Unsigned(u) =>
      if u > MaxExactInt then Err(NotRepresentable) else Ok(Floating(Finite(u as real), true))
    case Floating(f, _) => if f.Finite? then Ok(Floating(f, true)) else Err(NotRepresentable)
    case _ => Ok(v)
  }

  /** The error carries no path: which offending field a map's iteration meets first is not determined. */
  function Normalize(v: Value): Result<Value, Error> {
    match v
    case Object(fields) =>
      if forall k | k in fields :: Normalize(fields[k]).Ok? then
        Ok(Object(map k | k in fields :: Normalize(fields[k]).value))
      else Err(NotRepresentable)
    case Array(items) =>
      if forall i | 0 <= i < |items| :: Normalize(items[i]).Ok? then
        Ok(Array(seq(|items|, i requires 0 <= i < |items| => Normalize(items[i]).value)))
      else Err(NotRepresentable)
    case _ => Scalar(v)
  }

  // ----- positions in a value -----

  datatype Hop = Field(k: string) | Item(i: nat)

  /** What sits at the end of a path, if the path exists in v. */
  function At(v: Value, path: seq<Hop>): Option<Value>
    decreases |path|
  {
    if path == [] then Some(v)
    else match path[0]
      case Field(k) => if v.Object? && k in v.fields then At(v.fields[k], path[1..]) else None
      case Item(i) => if v.Array? && i < |v.items| then At(v.items[i], path[1..]) else None
  }

  /** A number that no JSON number carries exactly (or that lies outside the range where all integers do). */
  predicate Unrepresentable(v: Value) {
    match v
    case Signed(n) => n > MaxExactInt || n < -MaxExactInt
    case Unsigned(u) => u > MaxExactInt
    case Floating(f, _) => !f.Finite?
    case _ => false
  }

  predicate Offends(v: Value, path: seq<Hop>) {
    At(v, path).Some? && Unrepresentable(At(v, path).value)
  }

  lemma {:induction false} AtField(v: Value, k: string, path: seq<Hop>)
    requires v.Object? && k in v.fields
    ensures At(v, [Field(k)] + path) == At(v.fields[k], path)
  {
  }

  lemma {:induction false} AtItem(v: Value, i: nat, path: seq<Hop>)
    requires v.Array? && i < |v.items|
    ensures At(v, [Item(i)] + path) == At(v.items[i], path)
  {
  }

  /** Every failure has a position to point at. */
  lemma {:induction false} FailureHasCulprit(v: Value) returns (path: seq<Hop>)
    requires Normalize(v).Err?
    ensures Offends(v, path)
  {
    match v
    case Object(fields) =>
      var k :| k in fields && Normalize(fields[k]).Err?;
      var rest := FailureHasCulprit(fields[k]);
      path := [Field(k)] + rest;
      AtField(v, k, rest);
    case Array(items) =>
      var i :| 0 <= i < |items| && Normalize(items[i]).Err?;
      var rest := FailureHasCulprit(items[i]);
      path := [Item(i)] + rest;
      AtItem(v, i, rest);
    case _ => path := [];
  }

  lemma {:induction false} CulpritFails(v: Value, path: seq<Hop>)
    requires Offends(v, path)
    ensures Normalize(v).Err?
    decreases |path|
  {
    if path != [] {
      match path[0]
      case Field(k) => CulpritFails(v.fields[k], path[1..]);
      case Item(i) => CulpritFails(v.items[i], path[1..]);
    }
  }

  /** Normalisation fails exactly when some reachable number is not representable. */
  lemma {:induction false} FailsExactly(v: Value)
    ensures Normalize(v).Err? <==> exists path :: Offends(v, path)
  {
    if Normalize(v).Err? { var path := FailureHasCulprit(v); }
    forall path | Offends(v, path)
      ensures Normalize(v).Err?
    {
      CulpritFails(v, path);
    }
  }

  // ----- what success preserves -----

  /** The number a leaf stands for. */
  function Number(v: Value): Option<real> {
    match v
    case Signed(n) => Some(n as real)
    case Unsigned(u) => Some(u as real)
    case Floating(f, _) => if f.Finite? then Some(f.r) else None
    case _ => None
  }

  /** Same kind of container with the same keys or length, same number as a double, or untouched. */
  predicate Corresponds(x: Value, y: Value) {
    match x
    case Object(fields) => y.Object? && y.fields.Keys == fields.Keys
    case Array(items) => y.Array? && |y.items| == |items|
    case Nil => y == x
    case Other(_) => y == x
    case _ => y.Floating? && y.double && y.f.Finite? && Number(y) == Number(x)
  }

  /** On success every position exists in the result exactly if it did before, and means the same there. */
  lemma {:induction false} PreservesMeaning(v: Value, path: seq<Hop>)
    requires Normalize(v).Ok?
    ensures var w := Normalize(v).value;
      && (At(v, path).None? <==> At(w, path).None?)
      && (At(v, path).Some? ==> Corresponds(At(v, path).value, At(w, path).value))
    decreases |path|
  {
    if path != [] {
      match path[0]
      case Field(k) => if v.Object? && k in v.fields { PreservesMeaning(v.fields[k], path[1..]); }
      case Item(i) => if v.Array? && i < |v.items| { PreservesMeaning(v.items[i], path[1..]); }
    }
  }

  /** No integer is left anywhere the normaliser looks. */
  lemma {:induction false} NoIntegerLeft(v: Value, path: seq<Hop>)
    requires Normalize(v).Ok? && At(Normalize(v).value, path).Some?
    ensures var x := At(Normalize(v).value, path).value; !x.Signed? && !x.Unsigned? && !Unrepresentable(x)
  {
    PreservesMeaning(v, path);
    hide Normalize, At;
  }

  /** Normalising twice is normalising once. */
  lemma {:induction false} Idempotent(v: Value)
    requires Normalize(v).Ok?
    ensures Normalize(Normalize(v).value) == Normalize(v)
  {
    var w := Normalize(v).value;
    match v
    case Object(fields) =>
      forall k | k in fields
        ensures Normalize(w.fields[k]) == Ok(w.fields[k])
      {
        Idempotent(fields[k]);
      }
      assert Normalize(w).Ok? && Normalize(w).value.fields == w.fields;
    case Array(items) =>
      forall i | 0 <= i < |items|
        ensures Normalize(w.items[i]) == Ok(w.items[i])
      {
        Idempotent(items[i]);
      }
      assert Normalize(w).Ok? && Normalize(w).value.items == w.items;
    case _ =>
  }

  // ----- why 2^53 -----

  function Pow2(e: nat): (r: int)
    ensures 0 < r
  {
    if e == 0 then 1 else 2 * Pow2(e - 1)
  }

  function Scaled(m: int, e: nat): int { m * Pow2(e) }

  /** n is a 53-bit significand times a power of two (binary64, section 3.3 of IEEE 754-2019). */
  ghost predicate IsBinary64(n: int) {
    exists m: int, e: nat :: -Pow2(53) < m < Pow2(53) && n == Scaled(m, e)
  }

  /** The integer a leaf of either kind carries. */
  function IntegerOf(v: Value): Option<int> {
    match v
    case Signed(n) => Some(n)
    case Unsigned(u) => Some(u)
    case _ => None
  }

  lemma {:induction false} BoundIsPow53()
    ensures MaxExactInt == Pow2(53)
  {
    PowersAdd(26, 26);
    PowersAdd(13, 13);
    assert Pow2(13) == 8192;
    assert Pow2(53) == 2 * Pow2(52);
  }

  lemma {:induction false} PowersAdd(a: nat, b: nat)
    ensures Pow2(a + b) == Pow2(a) * Pow2(b)
  {
    if a > 0 {
      PowersAdd(a - 1, b);
      EvenMultiple(Pow2(b), Pow2(a - 1));
    }
  }

  /** Exactly the integers up to 2^53 in magnitude and the finite floats are accepted. */
  lemma {:induction false} AcceptsExactly(v: Value)
    ensures IntegerOf(v).Some? ==> (Normalize(v).Ok? <==> -Pow2(53) <= IntegerOf(v).value <= Pow2(53))
    ensures v.Floating? ==> (Normalize(v).Ok? <==> v.f.Finite?)
  {
    BoundIsPow53();
  }

  /** Every integer the normaliser accepts, signed or unsigned, is represented exactly. */
  lemma {:induction false} AcceptedIsExact(v: Value)
    requires IntegerOf(v).Some? && Normalize(v).Ok?
    ensures IsBinary64(IntegerOf(v).value)
  {
    var n := IntegerOf(v).value;
    BoundIsPow53();
    hide Pow2;
    HalfAndQuarter();
    if -MaxExactInt < n < MaxExactInt {
      assert n == Scaled(n, 0);
    } else if n == MaxExactInt {
      assert n == Scaled(0x10_0000_0000_0000, 1);
    } else {
      assert n == Scaled(-0x10_0000_0000_0000, 1);
    }
  }

  /**
    The bound cannot be moved, and refusing beyond it is conservative: up to twice the bound
    exactly the even integers are representable, and the normaliser refuses every one.
   */
  lemma {:induction false} BeyondTheBound(v: Value)
    requires IntegerOf(v).Some?
    requires var n := IntegerOf(v).value; Pow2(53) < n <= Pow2(54) || -Pow2(54) <= n < -Pow2(53)
    ensures IsBinary64(IntegerOf(v).value) <==> IntegerOf(v).value % 2 == 0
    ensures Normalize(v).Err?
  {
    var n := IntegerOf(v).value;
    assert Pow2(54) == 2 * Pow2(53);
    BoundIsPow53();
    HalfAndQuarter();
    if n % 2 == 0 {
      var half := n / 2;
      assert n == Scaled(half, 1);
      if half == MaxExactInt { assert n == Scaled(0x10_0000_0000_0000, 2); }
      if half == -MaxExactInt { assert n == Scaled(-0x10_0000_0000_0000, 2); }
    } else {
      OddIsItsOwnSignificand(n);
    }
  }

  lemma {:induction false} HalfAndQuarter()
    ensures forall m :: Scaled(m, 0) == m && Scaled(m, 1) == 2 * m && Scaled(m, 2) == 4 * m
  {
  }

  /** An odd integer beyond the bound is no multiple of a power of two with a small enough factor. */
  lemma {:induction false} OddIsItsOwnSignificand(n: int)
    requires n % 2 == 1 && (n >= Pow2(53) || n <= -Pow2(53))
    ensures !IsBinary64(n)
  {
    forall m: int, e: nat | -Pow2(53) < m < Pow2(53)
      ensures n != Scaled(m, e)
    {
      if e > 0 { EvenMultiple(m, Pow2(e - 1)); }
    }
  }

  lemma EvenMultiple(m: int, p: nat)
    ensures m * (2 * p) == 2 * (m * p)
  {
  }

  /** In particular 2^53 + 1 has no representation, and 2^53 + 2 is refused although it has one. */
  lemma {:induction false} NextIsNotExact()
    ensures !IsBinary64(MaxExactInt + 1) && Normalize(Signed(MaxExactInt + 1)).Err?
    ensures IsBinary64(MaxExactInt + 2) && Normalize(Signed(MaxExactInt + 2)).Err?
  {
    BoundIsPow53();
    assert Pow2(54) == 2 * Pow2(53);
    BeyondTheBound(Signed(MaxExactInt + 1));
    BeyondTheBound(Signed(MaxExactInt + 2));
    hide IsBinary64;
  }
}
