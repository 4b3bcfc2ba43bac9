/** Results a reader expects from the standard library calls the sources make:
    an optional value, a stable sort, and binary search in a sorted sequence. */
module Basics {
  datatype Option<+T> = None | Some(value: T)

  function Max(a: real, b: real): real {
    if a >= b then a else b
  }

  function Min(a: real, b: real): real {
    if a <= b then a else b
  }

  function Abs(a: real): real {
    if a >= 0.0 then a else -a
  }
}

/** Products and quotients under names, with their laws one operation at a time. */
module Products {
  function Mul(a: real, b: real): real {
    a * b
  }

  function Div(a: real, c: real): real
    requires c != 0.0
  {
    a / c
  }

  lemma DivMul(a: real, c: real)
    requires c != 0.0
    ensures Mul(Div(a, c), c) == a
  {
  }

  lemma MulCancels(a: real, b: real, c: real)
    requires c != 0.0 && Mul(a, c) == Mul(b, c)
    ensures a == b
  {
    assert a * c / c == a && b * c / c == b;
  }

  // The quotient is the one factor that gives the dividend back.
  lemma DivIs(a: real, c: real, q: real)
    requires c != 0.0 && Mul(q, c) == a
    ensures Div(a, c) == q
  {
    hide Mul, Div;
    DivMul(a, c);
    MulCancels(Div(a, c), q, c);
  }

  lemma MulSwaps(a: real, b: real)
    ensures Mul(a, b) == Mul(b, a)
  {
  }

  lemma MulAssociates(a: real, b: real, c: real)
    ensures Mul(Mul(a, b), c) == Mul(a, Mul(b, c))
  {
  }

  lemma MulAdds(a: real, b: real, c: real)
    ensures Mul(a + b, c) == Mul(a, c) + Mul(b, c) && Mul(a - b, c) == Mul(a, c) - Mul(b, c)
  {
  }

  lemma MulUnits(a: real)
    ensures Mul(1.0, a) == a && Mul(0.0, a) == 0.0
  {
  }

  lemma MulSign(a: real, b: real)
    requires a >= 0.0 && b >= 0.0
    ensures Mul(a, b) >= 0.0
  {
  }

  lemma MulMonotone(a: real, b: real, c: real)
    requires a <= b && c >= 0.0
    ensures Mul(a, c) <= Mul(b, c)
  {
    hide Mul;
    MulSign(b - a, c);
    MulAdds(b, a, c);
  }

  lemma MulStrict(a: real, b: real, c: real)
    requires Mul(a, c) < Mul(b, c) && c > 0.0
    ensures a < b
  {
    if b <= a { MulMonotone(b, a, c); }
  }

  // A share of a whole lies between nothing and the whole.
  lemma ShareWithin(x: real, y: real)
    requires 0.0 <= x <= 1.0 && 0.0 <= y
    ensures 0.0 <= Mul(x, y) <= y
  {
    hide Mul;
    MulMonotone(0.0, x, y);
    MulMonotone(x, 1.0, y);
    MulUnits(y);
  }

  lemma DivWithin(a: real, c: real)
    requires 0.0 <= a <= c && 0.0 < c
    ensures 0.0 <= Div(a, c) <= 1.0
  {
    hide Mul, Div;
    var q := Div(a, c);
    DivMul(a, c);
    MulUnits(c);
    if q < 0.0 { BelowZero(q, c); }
    if q > 1.0 { AboveOne(q, c); }
  }

  lemma DivMonotone(a: real, b: real, c: real)
    requires a <= b && 0.0 < c
    ensures Div(a, c) <= Div(b, c)
  {
    hide Mul, Div;
    DivMul(a, c);
    DivMul(b, c);
    MulReflects(Div(a, c), Div(b, c), c);
  }

  lemma MulReflects(a: real, b: real, c: real)
    requires Mul(a, c) <= Mul(b, c) && c > 0.0
    ensures a <= b
  {
    assert (b - a) * c >= 0.0;
  }

  lemma BelowZero(q: real, c: real)
    requires q < 0.0 && c > 0.0
    ensures Mul(q, c) < 0.0
  {
  }

  lemma AboveOne(q: real, c: real)
    requires q > 1.0 && c > 0.0
    ensures Mul(q, c) > c
  {
  }
}

module Sorting {
  ghost predicate TotalPreorder<T(!new)>(le: (T, T) -> bool) {
    && (forall x, y :: le(x, y) || le(y, x))
    && (forall x, y, z :: le(x, y) && le(y, z) ==> le(x, z))
  }

  ghost predicate SortedBy<T>(le: (T, T) -> bool, xs: seq<T>) {
    forall i, j | 0 <= i < j < |xs| :: le(xs[i], xs[j])
  }

  function Insert<T>(x: T, xs: seq<T>, le: (T, T) -> bool): (r: seq<T>)
    ensures multiset(r) == multiset(xs) + multiset{x}
    ensures |r| == |xs| + 1
  {
    if xs == [] || le(x, xs[0]) then [x] + xs
    else
      assert xs == [xs[0]] + xs[1..];
      [xs[0]] + Insert(x, xs[1..], le)
  }

  // A stable sort: an element stays before the later elements it ties with.
  function Sort<T>(xs: seq<T>, le: (T, T) -> bool): (r: seq<T>)
    ensures multiset(r) == multiset(xs)
    ensures |r| == |xs|
  {
    if xs == [] then []
    else
      assert xs == [xs[0]] + xs[1..];
      Insert(xs[0], Sort(xs[1..], le), le)
  }

  lemma {:induction false} InsertSorted<T(!new)>(x: T, xs: seq<T>, le: (T, T) -> bool)
    requires TotalPreorder(le) && SortedBy(le, xs)
    ensures SortedBy(le, Insert(x, xs, le))
  {
    if xs == [] || le(x, xs[0]) {
    } else {
      var rest := Insert(x, xs[1..], le);
      InsertSorted(x, xs[1..], le);
      forall j | 0 <= j < |rest| ensures le(xs[0], rest[j]) {
        assert rest[j] in multiset(rest);
        assert rest[j] == x || rest[j] in xs[1..];
      }
    }
  }

  lemma {:induction false} SortSorted<T(!new)>(xs: seq<T>, le: (T, T) -> bool)
    requires TotalPreorder(le)
    ensures SortedBy(le, Sort(xs, le))
  {
    if xs != [] {
      SortSorted(xs[1..], le);
      InsertSorted(xs[0], Sort(xs[1..], le), le);
    }
  }

  lemma SortMembers<T>(xs: seq<T>, le: (T, T) -> bool)
    ensures forall x :: x in Sort(xs, le) <==> x in xs
  {
    forall x ensures x in Sort(xs, le) <==> x in xs {
      assert x in Sort(xs, le) <==> x in multiset(Sort(xs, le));
      assert x in xs <==> x in multiset(xs);
    }
  }
}

/** Python's bisect on a nondecreasing list. */
module Bisect {
  ghost predicate Sorted(s: seq<real>) {
    forall i, j | 0 <= i < j < |s| :: s[i] <= s[j]
  }

  function Left(s: seq<real>, t: real): (k: nat)
    requires Sorted(s)
    ensures k <= |s|
    ensures forall i | 0 <= i < k :: s[i] < t
    ensures forall i | k <= i < |s| :: t <= s[i]
  {
    if s == [] then 0
    else if s[|s| - 1] < t then |s|
    else Left(s[..|s| - 1], t)
  }

  function Right(s: seq<real>, t: real): (k: nat)
    requires Sorted(s)
    ensures k <= |s|
    ensures forall i | 0 <= i < k :: s[i] <= t
    ensures forall i | k <= i < |s| :: t < s[i]
  {
    if s == [] then 0
    else if s[|s| - 1] <= t then |s|
    else Right(s[..|s| - 1], t)
  }

  // The same for whole stamps.
  ghost predicate Ascending(s: seq<int>) {
    forall i, j | 0 <= i < j < |s| :: s[i] <= s[j]
  }

  function Reals(s: seq<int>): (r: seq<real>)
    ensures |r| == |s| && forall k | 0 <= k < |s| :: r[k] == s[k] as real
  {
    seq(|s|, k requires 0 <= k < |s| => s[k] as real)
  }

  // The stamps of records.
  function Stamps<T>(s: seq<T>, of: T -> int): (t: seq<int>)
    ensures |t| == |s| && forall k | 0 <= k < |t| :: t[k] == of(s[k])
  {
    seq(|s|, k requires 0 <= k < |s| => of(s[k]))
  }

  function LeftOf(s: seq<int>, t: int): (k: nat)
    requires Ascending(s)
    ensures k <= |s|
    ensures forall i | 0 <= i < k :: s[i] < t
    ensures forall i | k <= i < |s| :: t <= s[i]
  {
    var r := Reals(s);
    var k := Left(r, t as real);
    assert forall i | 0 <= i < |s| :: r[i] == s[i] as real;
    k
  }

  function RightOf(s: seq<int>, t: int): (k: nat)
    requires Ascending(s)
    ensures k <= |s|
    ensures forall i | 0 <= i < k :: s[i] <= t
    ensures forall i | k <= i < |s| :: t < s[i]
  {
    var r := Reals(s);
    var k := Right(r, t as real);
    assert forall i | 0 <= i < |s| :: r[i] == s[i] as real;
    k
  }
}
