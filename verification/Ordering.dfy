/** Lexicographic order and sorting: the stand-in for Go's `sort` package and string comparison. */
module Ordering {

  // ----- total orders and sorting -----

  ghost predicate TotalOrder<T(!new)>(le: (T, T) -> bool) {
    && (forall x, y :: le(x, y) || le(y, x))
    && (forall x, y :: le(x, y) && le(y, x) ==> x == y)
    && (forall x, y, z :: le(x, y) && le(y, z) ==> le(x, z))
  }

  ghost predicate Sorted<T>(le: (T, T) -> bool, s: seq<T>) {
    forall i, j | 0 <= i < j < |s| :: le(s[i], s[j])
  }

  function Insert<T>(le: (T, T) -> bool, x: T, s: seq<T>): seq<T> {
    if s == [] then [x]
    else if le(x, s[0]) then [x] + s
    else [s[0]] + Insert(le, x, s[1..])
  }

  function Sort<T>(le: (T, T) -> bool, s: seq<T>): seq<T> {
    if s == [] then [] else Insert(le, s[0], Sort(le, s[1..]))
  }

  lemma {:induction false} InsertKeeps<T>(le: (T, T) -> bool, x: T, s: seq<T>)
    ensures multiset(Insert(le, x, s)) == multiset(s) + multiset{x}
  {
    if s != [] && !le(x, s[0]) {
      var tail := Insert(le, x, s[1..]);
      InsertKeeps(le, x, s[1..]);
      hide Insert;
      assert s == [s[0]] + s[1..];
      assert multiset([s[0]] + tail) == multiset{s[0]} + multiset(tail);
    }
  }

  lemma {:induction false} InsertSorts<T(!new)>(le: (T, T) -> bool, x: T, s: seq<T>)
    requires TotalOrder(le) && Sorted(le, s)
    ensures Sorted(le, Insert(le, x, s))
  {
    if s == [] || le(x, s[0]) {
    } else {
      InsertSorts(le, x, s[1..]);
      InsertKeeps(le, x, s[1..]);
      var r := Insert(le, x, s[1..]);
      forall i | 0 <= i < |r|
        ensures le(s[0], r[i])
      {
        assert r[i] in multiset(r);
        assert r[i] in multiset(s[1..]) || r[i] == x;
      }
    }
  }

  /** Sorting yields a sorted permutation. */
  lemma {:induction false} SortSorts<T(!new)>(le: (T, T) -> bool, s: seq<T>)
    requires TotalOrder(le)
    ensures Sorted(le, Sort(le, s)) && multiset(Sort(le, s)) == multiset(s) && |Sort(le, s)| == |s|
  {
    if s == [] {
    } else {
      SortSorts(le, s[1..]);
      InsertSorts(le, s[0], Sort(le, s[1..]));
      InsertKeeps(le, s[0], Sort(le, s[1..]));
      assert s == [s[0]] + s[1..];
      assert |multiset(Sort(le, s))| == |multiset(s)|;
    }
  }

  lemma {:induction false} SameHead<T(!new)>(le: (T, T) -> bool, s: seq<T>, t: seq<T>)
    requires TotalOrder(le) && Sorted(le, s) && Sorted(le, t) && multiset(s) == multiset(t) && s != [] && t != []
    ensures s[0] == t[0]
  {
    assert s[0] in multiset(t) && t[0] in multiset(s);
    var i :| 0 <= i < |t| && t[i] == s[0];
    var j :| 0 <= j < |s| && s[j] == t[0];
    assert le(t[0], t[i]) && le(s[0], s[j]);
  }

  /** A sorted arrangement of given elements is unique. */
  lemma {:induction false} SortedUnique<T(!new)>(le: (T, T) -> bool, s: seq<T>, t: seq<T>)
    requires TotalOrder(le) && Sorted(le, s) && Sorted(le, t) && multiset(s) == multiset(t)
    ensures s == t
  {
    assert |multiset(s)| == |multiset(t)|;
    if s != [] {
      SameHead(le, s, t);
      SortedTail(le, s);
      SortedTail(le, t);
      hide Sorted, TotalOrder;
      SortedUnique(le, s[1..], t[1..]);
    }
  }

  lemma {:induction false} SortedTail<T(!new)>(le: (T, T) -> bool, s: seq<T>)
    requires Sorted(le, s) && s != []
    ensures Sorted(le, s[1..]) && multiset(s[1..]) == multiset(s) - multiset{s[0]}
    ensures s == [s[0]] + s[1..]
  {
    assert s == [s[0]] + s[1..];
  }

  /** Two arrangements of the same elements sort to the same sequence. */
  lemma {:induction false} SortCanonical<T(!new)>(le: (T, T) -> bool, s: seq<T>, t: seq<T>)
    requires TotalOrder(le) && multiset(s) == multiset(t)
    ensures Sort(le, s) == Sort(le, t)
  {
    SortSorts(le, s);
    SortSorts(le, t);
    SortedUnique(le, Sort(le, s), Sort(le, t));
  }

  /** An element at two places is counted at least twice. */
  lemma {:induction false} CountedTwice<T>(s: seq<T>, i: nat, j: nat)
    requires i < j < |s|
    ensures s[i] == s[j] ==> multiset(s)[s[j]] >= 2
  {
    assert s == s[..j] + [s[j]] + s[j + 1..];
    assert s[i] in s[..j];
  }

  /** In a sequence without repetitions every element is counted once. */
  lemma {:induction false} CountedOnce<T>(s: seq<T>, k: nat)
    requires k < |s| && forall i, j | 0 <= i < j < |s| :: s[i] != s[j]
    ensures multiset(s)[s[k]] == 1
  {
    assert s == s[..k] + [s[k]] + s[k + 1..];
    assert s[k] !in s[..k] && s[k] !in s[k + 1..];
  }

  /** The first element of one arrangement, found and taken out of another. */
  lemma {:induction false} TakenOut<T>(s: seq<T>, t: seq<T>) returns (i: nat)
    requires s != [] && multiset(s) == multiset(t)
    ensures i < |t| && t[i] == s[0]
    ensures s == [s[0]] + s[1..] && t == t[..i] + [s[0]] + t[i + 1..]
    ensures multiset(s[1..]) == multiset(t[..i] + t[i + 1..])
  {
    assert s[0] in multiset(t);
    i :| 0 <= i < |t| && t[i] == s[0];
    var head := multiset{s[0]};
    Around(t, i);
    assert s == [s[0]] + s[1..];
    assert multiset(s[1..]) == multiset(s) - head;
    assert multiset(t[..i] + t[i + 1..]) == multiset(t) - head;
  }

  lemma {:induction false} Around<T>(t: seq<T>, i: nat)
    requires i < |t|
    ensures t == t[..i] + [t[i]] + t[i + 1..]
    ensures multiset(t) == multiset(t[..i] + t[i + 1..]) + multiset{t[i]}
  {
    assert t == t[..i] + [t[i]] + t[i + 1..];
  }

  lemma {:induction false} SameLength<T>(s: seq<T>, t: seq<T>)
    requires multiset(s) == multiset(t)
    ensures |s| == |t|
  {
    assert |multiset(s)| == |multiset(t)|;
  }

  // ----- lexicographic order -----

  predicate LexLe(a: seq<int>, b: seq<int>) {
    if a == [] then true
    else if b == [] then false
    else if a[0] != b[0] then a[0] < b[0]
    else LexLe(a[1..], b[1..])
  }

  lemma {:induction false} LexTotal(a: seq<int>, b: seq<int>)
    ensures LexLe(a, b) || LexLe(b, a)
    ensures LexLe(a, b) && LexLe(b, a) ==> a == b
  {
    if a != [] && b != [] && a[0] == b[0] {
      LexTotal(a[1..], b[1..]);
      assert a == [a[0]] + a[1..] && b == [b[0]] + b[1..];
    }
  }

  lemma {:induction false} LexTransitive(a: seq<int>, b: seq<int>, c: seq<int>)
    requires LexLe(a, b) && LexLe(b, c)
    ensures LexLe(a, c)
  {
    if a != [] && b != [] && c != [] && a[0] == b[0] == c[0] {
      LexTransitive(a[1..], b[1..], c[1..]);
    }
  }

  lemma {:induction false} LexIsTotalOrder()
    ensures TotalOrder(LexLe)
  {
    forall a, b
      ensures (LexLe(a, b) || LexLe(b, a)) && (LexLe(a, b) && LexLe(b, a) ==> a == b)
    {
      LexTotal(a, b);
    }
    forall a, b, c | LexLe(a, b) && LexLe(b, c)
      ensures LexLe(a, c)
    {
      LexTransitive(a, b, c);
    }
  }

  /** a comes first: it is a prefix of b, or smaller at the first place where they differ. */
  ghost predicate ComesFirst<T>(a: seq<T>, b: seq<T>, less: (T, T) -> bool) {
    a <= b || exists i: nat :: DiffersFirst(a, b, i) && less(a[i], b[i])
  }

  ghost predicate DiffersFirst<T>(a: seq<T>, b: seq<T>, i: nat) {
    i < |a| && i < |b| && a[..i] == b[..i] && a[i] != b[i]
  }

  lemma {:induction false} LexLeMeaning(a: seq<int>, b: seq<int>)
    ensures LexLe(a, b) <==> ComesFirst(a, b, (x: int, y: int) => x < y)
  {
    if a != [] && b != [] {
      assert a == [a[0]] + a[1..] && b == [b[0]] + b[1..];
      if a[0] != b[0] {
        assert DiffersFirst(a, b, 0);
        assert forall i: nat | DiffersFirst(a, b, i) :: i == 0 by { OnlyFirst(a, b); }
      } else {
        LexLeMeaning(a[1..], b[1..]);
        ComesFirstTail(a, b);
      }
    }
  }

  lemma {:induction false} OnlyFirst(a: seq<int>, b: seq<int>)
    requires a != [] && b != [] && a[0] != b[0]
    ensures forall i: nat | DiffersFirst(a, b, i) :: i == 0
  {
    forall i: nat | 0 < i <= |a| && i <= |b|
      ensures a[..i] != b[..i]
    {
      assert a[..i][0] == a[0] && b[..i][0] == b[0];
    }
  }

  lemma {:induction false} ComesFirstTail(a: seq<int>, b: seq<int>)
    requires a != [] && b != [] && a[0] == b[0]
    ensures var less := (x: int, y: int) => x < y; ComesFirst(a, b, less) <==> ComesFirst(a[1..], b[1..], less)
  {
    assert a == [a[0]] + a[1..] && b == [b[0]] + b[1..];
    forall i: nat
      ensures DiffersFirst(a, b, i + 1) <==> DiffersFirst(a[1..], b[1..], i)
    {
      if i < |a[1..]| && i < |b[1..]| {
        assert a[..i + 1] == [a[0]] + a[1..][..i] && b[..i + 1] == [b[0]] + b[1..][..i];
      }
    }
    forall i: nat | DiffersFirst(a, b, i)
      ensures i > 0 && DiffersFirst(a[1..], b[1..], i - 1) && a[i] == a[1..][i - 1] && b[i] == b[1..][i - 1]
    {
      assert i > 0;
      var j: nat := i - 1;
      assert DiffersFirst(a, b, j + 1);
    }
  }

  function Codes(s: string): seq<int> { seq(|s|, i requires 0 <= i < |s| => s[i] as int) }

  /** Comparison of names. */
  predicate NameLe(a: string, b: string) { LexLe(Codes(a), Codes(b)) }

  /** Names are compared character by character, a prefix coming first. */
  lemma {:induction false} NameLeMeaning(a: string, b: string)
    ensures NameLe(a, b) <==> ComesFirst(a, b, (x: char, y: char) => x < y)
  {
    LexLeMeaning(Codes(a), Codes(b));
    hide LexLe;
    forall i: nat | i <= |a| && i <= |b|
      ensures a[..i] == b[..i] <==> Codes(a)[..i] == Codes(b)[..i]
    {
      CodesPrefix(a, b, i);
    }
    forall i: nat
      ensures DiffersFirst(a, b, i) <==> DiffersFirst(Codes(a), Codes(b), i)
    {
    }
    if |a| <= |b| { assert a == a[..|a|] && Codes(a) == Codes(a)[..|a|]; }
  }

  lemma {:induction false} CodesPrefix(a: string, b: string, i: nat)
    requires i <= |a| && i <= |b|
    ensures a[..i] == b[..i] <==> Codes(a)[..i] == Codes(b)[..i]
  {
    if Codes(a)[..i] == Codes(b)[..i] {
      forall j | 0 <= j < i
        ensures a[j] == b[j]
      {
        assert Codes(a)[..i][j] == a[j] as int && Codes(b)[..i][j] == b[j] as int;
      }
    }
    if a[..i] == b[..i] {
      forall j | 0 <= j < i
        ensures Codes(a)[j] == Codes(b)[j]
      {
        assert a[..i][j] == b[..i][j];
      }
    }
  }

  lemma {:induction false} CodesInjective(a: string, b: string)
    requires Codes(a) == Codes(b)
    ensures a == b
  {
    assert |Codes(a)| == |a| && |Codes(b)| == |b|;
    forall i | 0 <= i < |a|
      ensures a[i] == b[i]
    {
      assert Codes(a)[i] == a[i] as int && Codes(b)[i] == b[i] as int;
    }
  }

  lemma {:induction false} NameLeIsTotalOrder()
    ensures TotalOrder(NameLe)
  {
    forall a, b
      ensures (NameLe(a, b) || NameLe(b, a)) && (NameLe(a, b) && NameLe(b, a) ==> a == b)
    {
      LexTotal(Codes(a), Codes(b));
      if Codes(a) == Codes(b) { CodesInjective(a, b); }
    }
    forall a, b, c | NameLe(a, b) && NameLe(b, c)
      ensures NameLe(a, c)
    {
      LexTransitive(Codes(a), Codes(b), Codes(c));
    }
  }
}
