/** apps/ident/ident_common.hpp: `LsAccum`, the normal equations of a weighted least-squares fit
    to offset, drift, sine and cosine, and their solution by pivoted elimination. */
module LinearSystem {
  import opened Basics

  // One equation in four unknowns.
  datatype Row = Row(c0: real, c1: real, c2: real, c3: real, rhs: real) {
    function At(j: nat): real
      requires j < 5
    {
      if j == 0 then c0 else if j == 1 then c1 else if j == 2 then c2 else if j == 3 then c3 else rhs
    }
  }

  datatype Vec = Vec(v0: real, v1: real, v2: real, v3: real)

  function Dot(r: Row, v: Vec): real {
    r.c0 * v.v0 + r.c1 * v.v1 + r.c2 * v.v2 + r.c3 * v.v3
  }

  predicate Satisfies(r: Row, v: Vec) {
    Dot(r, v) == r.rhs
  }

  // Four equations.
  datatype System = System(e0: Row, e1: Row, e2: Row, e3: Row) {
    function At(i: nat): Row
      requires i < 4
    {
      if i == 0 then e0 else if i == 1 then e1 else if i == 2 then e2 else e3
    }
  }

  predicate Solves(s: System, v: Vec) {
    Satisfies(s.e0, v) && Satisfies(s.e1, v) && Satisfies(s.e2, v) && Satisfies(s.e3, v)
  }

  ghost predicate Equivalent(s: System, s': System) {
    forall v :: Solves(s, v) <==> Solves(s', v)
  }

  // Row r less f times row p.
  function Minus(r: Row, f: real, p: Row): Row {
    Row(Less(r.c0, f, p.c0), Less(r.c1, f, p.c1), Less(r.c2, f, p.c2), Less(r.c3, f, p.c3), Less(r.rhs, f, p.rhs))
  }

  function Less(a: real, f: real, b: real): real {
    a - f * b
  }

  lemma Distribute(a: real, f: real, b: real, v: real)
    ensures Less(a, f, b) * v == a * v - f * (b * v)
  {
  }

  lemma FactorOut(f: real, a: real, b: real, c: real, d: real)
    ensures f * (a + b + c + d) == f * a + f * b + f * c + f * d
  {
  }

  lemma MinusSatisfied(r: Row, f: real, p: Row, v: Vec)
    requires Satisfies(p, v)
    ensures Satisfies(Minus(r, f, p), v) <==> Satisfies(r, v)
  {
    Distribute(r.c0, f, p.c0, v.v0);
    Distribute(r.c1, f, p.c1, v.v1);
    Distribute(r.c2, f, p.c2, v.v2);
    Distribute(r.c3, f, p.c3, v.v3);
    FactorOut(f, p.c0 * v.v0, p.c1 * v.v1, p.c2 * v.v2, p.c3 * v.v3);
    assert Dot(Minus(r, f, p), v) == Less(Dot(r, v), f, p.rhs);
  }

  ghost function With(s: System, i: nat, r: Row): System
    requires i < 4
  {
    if i == 0 then s.(e0 := r) else if i == 1 then s.(e1 := r) else if i == 2 then s.(e2 := r) else s.(e3 := r)
  }

  // Subtracting a multiple of one equation from another keeps exactly the same solutions.
  lemma EliminationKeepsSolutions(s: System, r: nat, p: nat, f: real)
    requires r < 4 && p < 4 && r != p
    ensures Equivalent(s, With(s, r, Minus(s.At(r), f, s.At(p))))
  {
    forall v ensures Solves(s, v) <==> Solves(With(s, r, Minus(s.At(r), f, s.At(p))), v) {
      if Satisfies(s.At(p), v) { MinusSatisfied(s.At(r), f, s.At(p), v); }
    }
  }

  lemma SwapKeepsSolutions(s: System, i: nat, j: nat)
    requires i < 4 && j < 4
    ensures Equivalent(s, With(With(s, i, s.At(j)), j, s.At(i)))
  {
  }

  // The entries below the diagonal in the first `cols` columns are gone, and the pivots are not.
  ghost predicate Cleared(s: System, cols: nat) {
    && (forall c, r | 0 <= c < cols && c < r < 4 :: s.At(r).At(c) == 0.0)
    && (forall c | 0 <= c < cols && c < 4 :: s.At(c).At(c) != 0.0)
  }

  // The back-substituted values of a triangular system.
  function BackSubstitute(s: System): Vec
    requires s.e0.c0 != 0.0 && s.e1.c1 != 0.0 && s.e2.c2 != 0.0 && s.e3.c3 != 0.0
  {
    var x3 := s.e3.rhs / s.e3.c3;
    var x2 := (s.e2.rhs - s.e2.c3 * x3) / s.e2.c2;
    var x1 := (s.e1.rhs - s.e1.c2 * x2 - s.e1.c3 * x3) / s.e1.c1;
    var x0 := (s.e0.rhs - s.e0.c1 * x1 - s.e0.c2 * x2 - s.e0.c3 * x3) / s.e0.c0;
    Vec(x0, x1, x2, x3)
  }

  lemma DivideExactly(a: real, b: real, x: real)
    requires b != 0.0
    ensures b * x == a <==> x == a / b
  {
  }

  // A triangular system has its back-substituted values as its only solution.
  lemma TriangularUnique(s: System, v: Vec)
    requires Cleared(s, 4)
    ensures s.e0.c0 != 0.0 && s.e1.c1 != 0.0 && s.e2.c2 != 0.0 && s.e3.c3 != 0.0
    ensures Solves(s, v) <==> v == BackSubstitute(s)
  {
    assert s.At(0).At(0) != 0.0 && s.At(1).At(1) != 0.0 && s.At(2).At(2) != 0.0 && s.At(3).At(3) != 0.0;
    assert s.At(1).At(0) == 0.0 && s.At(2).At(0) == 0.0 && s.At(3).At(0) == 0.0;
    assert s.At(2).At(1) == 0.0 && s.At(3).At(1) == 0.0 && s.At(3).At(2) == 0.0;
    var x := BackSubstitute(s);
    DivideExactly(s.e3.rhs, s.e3.c3, v.v3);
    DivideExactly(s.e2.rhs - s.e2.c3 * v.v3, s.e2.c2, v.v2);
    DivideExactly(s.e1.rhs - s.e1.c2 * v.v2 - s.e1.c3 * v.v3, s.e1.c1, v.v1);
    DivideExactly(s.e0.rhs - s.e0.c1 * v.v1 - s.e0.c2 * v.v2 - s.e0.c3 * v.v3, s.e0.c0, v.v0);
  }

  // ----- How nearly a system annihilates a vector -----

  predicate Within(x: real, e: real) {
    -e < x < e
  }

  // Every equation's left-hand side is within e of zero.
  ghost predicate Small(s: System, v: Vec, e: real) {
    forall i | 0 <= i < 4 :: Within(Dot(s.At(i), v), e)
  }

  // A one, with nothing after it.
  ghost predicate EndsInOne(v: Vec) {
    || v.v3 == 1.0
    || (v.v3 == 0.0 && v.v2 == 1.0)
    || (v.v3 == 0.0 && v.v2 == 0.0 && v.v1 == 1.0)
    || (v.v3 == 0.0 && v.v2 == 0.0 && v.v1 == 0.0 && v.v0 == 1.0)
  }

  // The first equations annihilate v and the others nearly do.
  ghost predicate SmallFrom(s: System, col: nat, v: Vec, e: real) {
    && (forall i | 0 <= i < col && i < 4 :: Dot(s.At(i), v) == 0.0)
    && (forall i | col <= i < 4 :: Within(Dot(s.At(i), v), e))
  }

  // Elimination up to a column, looking back: a vector small from there on is small at first.
  ghost predicate SmallAtFirst(first: System, s: System, col: nat) {
    forall v, e | e > 0.0 && SmallFrom(s, col, v, e) :: Small(first, v, e)
  }

  // How much the left-hand side of equation i may have grown once columns before col are cleared.
  function Growth(i: nat, col: nat): real {
    var k := if i < col then i else col;
    if k == 0 then 1.0 else if k == 1 then 2.0 else if k == 2 then 4.0 else 8.0
  }

  // Looking forward: a vector small at first has grown by no more than that.
  ghost predicate GrownAtMost(first: System, s: System, col: nat) {
    forall v, e, i | Small(first, v, e) && 0 <= i < 4 :: Within(Dot(s.At(i), v), Growth(i, col) * e)
  }

  lemma DotMinus(r: Row, f: real, p: Row, v: Vec)
    ensures Dot(Minus(r, f, p), v) == Less(Dot(r, v), f, Dot(p, v))
  {
    Distribute(r.c0, f, p.c0, v.v0);
    Distribute(r.c1, f, p.c1, v.v1);
    Distribute(r.c2, f, p.c2, v.v2);
    Distribute(r.c3, f, p.c3, v.v3);
    FactorOut(f, p.c0 * v.v0, p.c1 * v.v1, p.c2 * v.v2, p.c3 * v.v3);
  }

  // At most one in magnitude times something within a bound is within it.
  lemma FactorWithin(f: real, y: real, e: real)
    requires Within(y, e) && -1.0 <= f <= 1.0
    ensures Within(f * y, e)
  {
    NonNegative(1.0 - f, if y >= 0.0 then y else -y);
    NonNegative(1.0 + f, if y >= 0.0 then y else -y);
  }

  lemma NonNegative(a: real, b: real)
    requires a >= 0.0 && b >= 0.0
    ensures a * b >= 0.0
  {
  }

  lemma LessWithin(x: real, f: real, y: real, e: real)
    requires Within(x, e) && Within(y, e) && -1.0 <= f <= 1.0
    ensures Within(Less(x, f, y), 2.0 * e)
  {
    FactorWithin(f, y, e);
  }

  // Row r less a multiple of row p, of at most one in magnitude.
  ghost predicate Reduced(r: Row, p: Row, r': Row) {
    exists f {:trigger Minus(r, f, p)} :: -1.0 <= f <= 1.0 && r' == Minus(r, f, p)
  }

  lemma ReducedMeans(r: Row, p: Row, r': Row, v: Vec, e: real)
    requires Reduced(r, p, r')
    ensures Dot(p, v) == 0.0 ==> Dot(r', v) == Dot(r, v)
    ensures Within(Dot(r, v), e) && Within(Dot(p, v), e) ==> Within(Dot(r', v), 2.0 * e)
  {
    hide Dot, Less, Minus;
    var f :| -1.0 <= f <= 1.0 && r' == Minus(r, f, p);
    DotMinus(r, f, p, v);
    LessOfZero(Dot(r, v), f);
    if Within(Dot(r, v), e) && Within(Dot(p, v), e) { LessWithin(Dot(r, v), f, Dot(p, v), e); }
  }

  lemma LessOfZero(x: real, f: real)
    ensures Less(x, f, 0.0) == x
  {
  }

  // Column col eliminated: the rows up to col stay and each later one is reduced by row col.
  ghost predicate EliminatedBelow(s: System, s': System, col: nat)
    requires col < 4
  {
    && (forall i | 0 <= i <= col :: s'.At(i) == s.At(i))
    && (forall r | col < r < 4 :: Reduced(s.At(r), s.At(col), s'.At(r)))
  }

  lemma {:induction false} SmallLooksBack(first: System, s: System, s': System, col: nat)
    requires col < 4 && SmallAtFirst(first, s, col) && EliminatedBelow(s, s', col)
    ensures SmallAtFirst(first, s', col + 1)
  {
    hide Dot, Reduced, Small;
    forall v, e | e > 0.0 && SmallFrom(s', col + 1, v, e) ensures Small(first, v, e) {
      assert Dot(s'.At(col), v) == 0.0;
      forall r | col < r < 4 ensures Dot(s.At(r), v) == Dot(s'.At(r), v) { ReducedMeans(s.At(r), s.At(col), s'.At(r), v, e); }
      assert SmallFrom(s, col, v, e);
    }
  }

  lemma {:induction false} GrowthStep(first: System, s: System, s': System, col: nat)
    requires col < 4 && GrownAtMost(first, s, col) && EliminatedBelow(s, s', col)
    ensures GrownAtMost(first, s', col + 1)
  {
    hide Dot, Reduced, Small, Within;
    forall v, e, i | Small(first, v, e) && 0 <= i < 4 ensures Within(Dot(s'.At(i), v), Growth(i, col + 1) * e) {
      assert Within(Dot(s.At(i), v), Growth(i, col) * e) && Within(Dot(s.At(col), v), Growth(col, col) * e);
      if i > col {
        ReducedMeans(s.At(i), s.At(col), s'.At(i), v, Growth(i, col) * e);
        GrowthDoubles(i, col, e);
      }
    }
  }

  lemma GrowthDoubles(i: nat, col: nat, e: real)
    requires col < i < 4
    ensures Growth(col, col) == Growth(i, col) && 2.0 * (Growth(i, col) * e) == Growth(i, col + 1) * e
  {
  }

  // Swapping two rows from col on keeps both bounds.
  lemma {:induction false} SwapKeepsBounds(first: System, s: System, col: nat, piv: nat)
    requires col <= piv < 4 && SmallAtFirst(first, s, col) && GrownAtMost(first, s, col)
    ensures var s' := With(With(s, col, s.At(piv)), piv, s.At(col)); SmallAtFirst(first, s', col) && GrownAtMost(first, s', col)
  {
    hide Dot, Small, Within;
    var s' := With(With(s, col, s.At(piv)), piv, s.At(col));
    assert forall i | 0 <= i < 4 :: s'.At(i) == s.At(if i == col then piv else if i == piv then col else i);
    forall v, e | e > 0.0 && SmallFrom(s', col, v, e) ensures Small(first, v, e) {
      forall i | 0 <= i < 4
        ensures (i < col ==> Dot(s.At(i), v) == 0.0) && (col <= i ==> Within(Dot(s.At(i), v), e))
      {
        var k := if i == col then piv else if i == piv then col else i;
        assert s.At(i) == s'.At(k) && 0 <= k < 4;
      }
      assert SmallFrom(s, col, v, e);
    }
    forall v, e, i | Small(first, v, e) && 0 <= i < 4 ensures Within(Dot(s'.At(i), v), Growth(i, col) * e) {
      var k := if i == col then piv else if i == piv then col else i;
      assert Within(Dot(s.At(k), v), Growth(k, col) * e) && Growth(k, col) == Growth(i, col);
    }
  }

  // The first col equations with the unknowns from col on fixed to a one and zeros.
  ghost function Fixed(s: System, col: nat): System
    requires col < 4
  {
    System(FixedRow(s.e0, 0, col), FixedRow(s.e1, 1, col), FixedRow(s.e2, 2, col), FixedRow(s.e3, 3, col))
  }

  ghost function FixedRow(r: Row, i: nat, col: nat): Row
    requires i < 4 && col < 4
  {
    if i < col then r.(rhs := 0.0)
    else Row(if i == 0 then 1.0 else 0.0, if i == 1 then 1.0 else 0.0, if i == 2 then 1.0 else 0.0,
             if i == 3 then 1.0 else 0.0, if i == col then 1.0 else 0.0)
  }

  lemma FixedCleared(s: System, col: nat)
    requires col < 4 && Cleared(s, col)
    ensures Cleared(Fixed(s, col), 4)
  {
    var t := Fixed(s, col);
    forall i | 0 <= i < 4 ensures t.At(i) == FixedRow(s.At(i), i, col) { }
    forall c, r | 0 <= c < 4 && c < r < 4 ensures t.At(r).At(c) == 0.0 {
      if r < col { assert s.At(r).At(c) == 0.0; }
    }
    forall c | 0 <= c < 4 ensures t.At(c).At(c) != 0.0 {
      if c < col { assert s.At(c).At(c) != 0.0; }
    }
  }

  // With no pivot left of e or more in column col, some vector with a last entry of one is small.
  lemma NoPivotLeft(s: System, col: nat, e: real) returns (v: Vec)
    requires col < 4 && Cleared(s, col) && forall q | col <= q < 4 :: Within(s.At(q).At(col), e)
    ensures EndsInOne(v) && SmallFrom(s, col, v, e)
  {
    hide Solves, BackSubstitute;
    var t := Fixed(s, col);
    FixedCleared(s, col);
    TriangularUnique(t, Vec(0.0, 0.0, 0.0, 0.0));
    v := BackSubstitute(t);
    TriangularUnique(t, v);
    FixedSolution(s, col, v, e);
  }

  lemma FixedSolution(s: System, col: nat, v: Vec, e: real)
    requires col < 4 && Cleared(s, col) && Solves(Fixed(s, col), v) && forall q | col <= q < 4 :: Within(s.At(q).At(col), e)
    ensures EndsInOne(v) && SmallFrom(s, col, v, e)
  {
    hide Cleared, Dot, Solves, Fixed;
    FixedEntries(s, col, v);
    forall i | 0 <= i < 4 ensures if i < col then Dot(s.At(i), v) == 0.0 else Within(Dot(s.At(i), v), e) {
      if i >= col {
        ClearedRow(s, col, i);
        DotInColumn(s.At(i), col, v);
        assert Within(s.At(i).At(col), e);
      }
    }
  }

  lemma FixedEntries(s: System, col: nat, v: Vec)
    requires col < 4 && Solves(Fixed(s, col), v)
    ensures v.v3 == (if col == 3 then 1.0 else 0.0) && (col <= 2 ==> v.v2 == if col == 2 then 1.0 else 0.0)
    ensures (col <= 1 ==> v.v1 == if col == 1 then 1.0 else 0.0) && (col == 0 ==> v.v0 == 1.0)
    ensures forall i | 0 <= i < col :: Dot(s.At(i), v) == 0.0
  {
  }

  lemma ClearedRow(s: System, col: nat, i: nat)
    requires col <= i < 4 && Cleared(s, col)
    ensures forall c | 0 <= c < col :: s.At(i).At(c) == 0.0
  {
  }

  lemma DotInColumn(r: Row, col: nat, v: Vec)
    requires col < 4 && forall c | 0 <= c < col :: r.At(c) == 0.0
    requires v.v3 == (if col == 3 then 1.0 else 0.0) && (col <= 2 ==> v.v2 == if col == 2 then 1.0 else 0.0)
    requires (col <= 1 ==> v.v1 == if col == 1 then 1.0 else 0.0) && (col == 0 ==> v.v0 == 1.0)
    ensures Dot(r, v) == r.At(col)
  {
    assert col > 0 ==> r.At(0) == r.c0 == 0.0;
    assert col > 1 ==> r.At(1) == r.c1 == 0.0;
    assert col > 2 ==> r.At(2) == r.c2 == 0.0;
  }

  // Triangular, with a vector ending in one within e at first: some pivot is within 8 e.
  lemma SmallPivot(first: System, s: System, v: Vec, e: real)
    requires Cleared(s, 4) && GrownAtMost(first, s, 4) && EndsInOne(v) && Small(first, v, e)
    ensures exists c :: 0 <= c < 4 && Within(s.At(c).At(c), 8.0 * e)
  {
    hide Dot;
    var k := if v.v3 == 1.0 then 3 else if v.v2 == 1.0 && v.v3 == 0.0 then 2 else if v.v1 == 1.0 && v.v2 == 0.0 && v.v3 == 0.0 then 1 else 0;
    assert Within(Dot(first.At(0), v), e);
    assert Cleared(s, k);
    ClearedRow(s, k, k);
    DotInColumn(s.At(k), k, v);
    assert Within(Dot(s.At(k), v), Growth(k, 4) * e);
    GrowthAtMost(k, 4, e);
  }

  lemma GrowthAtMost(i: nat, col: nat, e: real)
    requires e > 0.0
    ensures Growth(i, col) * e <= 8.0 * e
  {
  }
}

module LeastSquares {
  import opened Basics
  import opened LinearSystem

  // One sample: its window time, the sine and cosine of its phase, its weight and its value.
  datatype Sample = Sample(t: real, sine: real, cosine: real, dt: real, y: real)

  function Regressor(s: Sample, i: nat): real
    requires i < 4
  {
    if i == 0 then 1.0 else if i == 1 then s.t else if i == 2 then s.sine else s.cosine
  }

  function Weighted(a: real, b: real, dt: real): real {
    a * b * dt
  }

  function Moment(samples: seq<Sample>, i: nat, j: nat): real
    requires i < 4 && j < 4
  {
    if samples == [] then 0.0
    else
      var s := samples[|samples| - 1];
      Moment(samples[..|samples| - 1], i, j) + Weighted(Regressor(s, i), Regressor(s, j), s.dt)
  }

  function Projection(samples: seq<Sample>, i: nat): real
    requires i < 4
  {
    if samples == [] then 0.0
    else
      var s := samples[|samples| - 1];
      Projection(samples[..|samples| - 1], i) + Weighted(Regressor(s, i), s.y, s.dt)
  }

  function NormalRow(samples: seq<Sample>, i: nat): Row
    requires i < 4
  {
    Row(if i == 0 then Moment(samples, 0, 0) else Moment(samples, 0, i),
        if i <= 1 then Moment(samples, i, 1) else Moment(samples, 1, i),
        if i <= 2 then Moment(samples, i, 2) else Moment(samples, 2, i),
        Moment(samples, i, 3), Projection(samples, i))
  }

  // The normal equations, their lower triangle mirrored from the accumulated upper one.
  function NormalEquations(samples: seq<Sample>): System {
    System(NormalRow(samples, 0), NormalRow(samples, 1), NormalRow(samples, 2), NormalRow(samples, 3))
  }

  function Predicted(s: Sample, v: Vec): real {
    v.v0 + v.v1 * s.t + v.v2 * s.sine + v.v3 * s.cosine
  }

  // The samples are exactly offset, drift, sine and cosine in the given amounts.
  ghost predicate OnModel(samples: seq<Sample>, v: Vec) {
    forall k | 0 <= k < |samples| :: samples[k].y == Predicted(samples[k], v)
  }

  lemma Reorder(a: real, b: real, w: real)
    ensures Weighted(a, b, w) == (a * w) * b == Weighted(b, a, w)
  {
  }

  lemma {:induction false} MomentSymmetric(samples: seq<Sample>, i: nat, j: nat)
    requires i < 4 && j < 4
    ensures Moment(samples, i, j) == Moment(samples, j, i)
  {
    if samples != [] {
      var s := samples[|samples| - 1];
      MomentSymmetric(samples[..|samples| - 1], i, j);
      Reorder(Regressor(s, i), Regressor(s, j), s.dt);
    }
  }

  function FullRow(samples: seq<Sample>, i: nat): Row
    requires i < 4
  {
    Row(Moment(samples, i, 0), Moment(samples, i, 1), Moment(samples, i, 2), Moment(samples, i, 3), Projection(samples, i))
  }

  // What one sample adds to row i.
  function SampleRow(s: Sample, i: nat): Row
    requires i < 4
  {
    var r := Regressor(s, i);
    Row(Weighted(r, 1.0, s.dt), Weighted(r, s.t, s.dt), Weighted(r, s.sine, s.dt), Weighted(r, s.cosine, s.dt),
        Weighted(r, s.y, s.dt))
  }

  lemma WeightedSum(w: real, v0: real, t: real, v1: real, sine: real, v2: real, cosine: real, v3: real)
    ensures w * v0 + w * t * v1 + w * sine * v2 + w * cosine * v3 == w * (v0 + v1 * t + v2 * sine + v3 * cosine)
  {
  }

  lemma SampleRowSatisfied(s: Sample, i: nat, v: Vec)
    requires i < 4 && s.y == Predicted(s, v)
    ensures Satisfies(SampleRow(s, i), v)
  {
    var r := Regressor(s, i);
    Reorder(r, s.t, s.dt);
    Reorder(r, s.sine, s.dt);
    Reorder(r, s.cosine, s.dt);
    Reorder(r, s.y, s.dt);
    WeightedSum(r * s.dt, v.v0, s.t, v.v1, s.sine, v.v2, s.cosine, v.v3);
  }

  function Sum(a: Row, b: Row): Row {
    Row(a.c0 + b.c0, a.c1 + b.c1, a.c2 + b.c2, a.c3 + b.c3, a.rhs + b.rhs)
  }

  lemma SumSatisfied(a: Row, b: Row, v: Vec)
    requires Satisfies(a, v) && Satisfies(b, v)
    ensures Satisfies(Sum(a, b), v)
  {
  }

  lemma FullRowOneMore(samples: seq<Sample>, s: Sample, i: nat)
    requires i < 4
    ensures FullRow(samples + [s], i) == Sum(FullRow(samples, i), SampleRow(s, i))
  {
    hide Weighted;
    assert (samples + [s])[..|samples|] == samples;
  }

  lemma {:induction false} ModelSatisfiesRow(samples: seq<Sample>, i: nat, v: Vec)
    requires i < 4 && OnModel(samples, v)
    ensures Satisfies(FullRow(samples, i), v)
  {
    if samples != [] {
      hide Satisfies, FullRow, Predicted;
      var init, s := samples[..|samples| - 1], samples[|samples| - 1];
      assert samples == init + [s];
      ModelSatisfiesRow(init, i, v);
      SampleRowSatisfied(s, i, v);
      FullRowOneMore(init, s, i);
      SumSatisfied(FullRow(init, i), SampleRow(s, i), v);
    }
  }

  /** Whatever the weights, samples on the model satisfy the normal equations with its amounts. */
  lemma ModelSolvesNormalEquations(samples: seq<Sample>, v: Vec)
    requires OnModel(samples, v)
    ensures Solves(NormalEquations(samples), v)
  {
    ModelSatisfiesRow(samples, 0, v);
    ModelSatisfiesRow(samples, 1, v);
    ModelSatisfiesRow(samples, 2, v);
    ModelSatisfiesRow(samples, 3, v);
    MomentSymmetric(samples, 0, 1);
    MomentSymmetric(samples, 0, 2);
    MomentSymmetric(samples, 0, 3);
    MomentSymmetric(samples, 1, 2);
    MomentSymmetric(samples, 1, 3);
    MomentSymmetric(samples, 2, 3);
  }

  ghost function RowOf(a: array2<real>, i: nat): Row
    requires a.Length0 == 4 && a.Length1 == 5 && i < 4
    reads a
  {
    Row(a[i, 0], a[i, 1], a[i, 2], a[i, 3], a[i, 4])
  }

  ghost function SystemOf(a: array2<real>): System
    requires a.Length0 == 4 && a.Length1 == 5
    reads a
  {
    System(RowOf(a, 0), RowOf(a, 1), RowOf(a, 2), RowOf(a, 3))
  }

  // The first row at or below col with the largest entry in that column.
  method FindPivot(a: array2<real>, col: nat) returns (piv: nat)
    requires a.Length0 == 4 && a.Length1 == 5 && col < 4
    ensures col <= piv < 4 && forall r | col <= r < 4 :: Abs(a[r, col]) <= Abs(a[piv, col])
    ensures forall r | col <= r < piv :: Abs(a[r, col]) < Abs(a[piv, col])
  {
    piv := col;
    var r := col + 1;
    while r < 4
      invariant col < r <= 4 && col <= piv < r
      invariant forall q | col <= q < r :: Abs(a[q, col]) <= Abs(a[piv, col])
      invariant forall q | col <= q < piv :: Abs(a[q, col]) < Abs(a[piv, col])
    {
      if Abs(a[r, col]) > Abs(a[piv, col]) { piv := r; }
      r := r + 1;
    }
  }

  method SwapRows(a: array2<real>, i: nat, k: nat)
    requires a.Length0 == 4 && a.Length1 == 5 && i < 4 && k < 4
    modifies a
    ensures SystemOf(a) == With(With(old(SystemOf(a)), i, old(RowOf(a, k))), k, old(RowOf(a, i)))
  {
    var j := 0;
    while j < 5
      invariant 0 <= j <= 5
      invariant forall r, q | 0 <= r < 4 && 0 <= q < 5 ::
                  a[r, q] == if q >= j then old(a[r, q]) else if r == k then old(a[i, q]) else if r == i then old(a[k, q]) else old(a[r, q])
    {
      a[i, j], a[k, j] := a[k, j], a[i, j];
      j := j + 1;
    }
  }

  lemma LessZero(f: real)
    ensures forall x :: Less(x, f, 0.0) == x
  {
  }

  // Subtracts f times row p from row r, from column p on: before it both rows are zero.
  method SubtractRow(a: array2<real>, r: nat, p: nat, f: real)
    requires a.Length0 == 4 && a.Length1 == 5 && p < r < 4 && Cleared(SystemOf(a), p)
    modifies a
    ensures SystemOf(a) == With(old(SystemOf(a)), r, Minus(old(RowOf(a, r)), f, old(RowOf(a, p))))
  {
    hide Less;
    assert forall c | 0 <= c < p :: a[p, c] == SystemOf(a).At(p).At(c) == 0.0;
    LessZero(f);
    var j := p;
    while j < 5
      invariant p <= j <= 5
      invariant forall q, c | 0 <= q < 4 && 0 <= c < 5 ::
                  a[q, c] == if q == r && p <= c < j then Less(old(a[q, c]), f, old(a[p, c])) else old(a[q, c])
    {
      a[r, j] := Less(a[r, j], f, a[p, j]);
      j := j + 1;
    }
  }

  ghost predicate Shape(a: array2<real>) {
    a.Length0 == 4 && a.Length1 == 5
  }

  // Elimination of column col from s, at row r.
  ghost predicate Halfway(s: System, t: System, col: nat, r: nat)
    requires col < 4
  {
    && Equivalent(s, t) && Cleared(t, col)
    && (forall i | 0 <= i < 4 && !(col < i < r) :: t.At(i) == s.At(i))
    && (forall q | col < q < r && q < 4 :: Reduced(s.At(q), s.At(col), t.At(q)) && t.At(q).At(col) == 0.0)
  }

  // Clears column col below its pivot, the largest entry from there on, which must not be zero.
  method EliminateBelow(a: array2<real>, col: nat)
    requires Shape(a) && col < 4 && a[col, col] != 0.0 && Cleared(SystemOf(a), col)
    requires forall r | col <= r < 4 :: Abs(a[r, col]) <= Abs(a[col, col])
    modifies a
    ensures Equivalent(old(SystemOf(a)), SystemOf(a)) && Cleared(SystemOf(a), col + 1)
    ensures EliminatedBelow(old(SystemOf(a)), SystemOf(a), col)
  {
    hide Halfway, Minus, With, Cleared, Equivalent, EliminatedBelow;
    ghost var s := SystemOf(a);
    assert forall i | 0 <= i < 4 :: s.At(i) == RowOf(a, i);
    NoneEliminated(s, col);
    var r := col + 1;
    while r < 4
      invariant col < r <= 4 && Halfway(s, SystemOf(a), col, r)
    {
      ghost var before := SystemOf(a);
      HalfwayRows(s, before, col, r);
      assert before.At(r) == RowOf(a, r) && before.At(col) == RowOf(a, col);
      var f := a[r, col] / a[col, col];
      SubtractRow(a, r, col, f);
      OneMoreRow(s, before, col, r, f);
      r := r + 1;
    }
    AllEliminated(s, SystemOf(a), col);
  }

  lemma NoneEliminated(s: System, col: nat)
    requires col < 4 && Cleared(s, col)
    ensures Halfway(s, s, col, col + 1)
  {
  }

  lemma HalfwayRows(s: System, t: System, col: nat, r: nat)
    requires col < r < 4 && Halfway(s, t, col, r)
    ensures t.At(r) == s.At(r) && t.At(col) == s.At(col) && Cleared(t, col)
  {
  }

  lemma OneMoreRow(s: System, t: System, col: nat, r: nat, f: real)
    requires col < r < 4 && Halfway(s, t, col, r) && s.At(col).At(col) != 0.0
    requires Abs(s.At(r).At(col)) <= Abs(s.At(col).At(col)) && f == s.At(r).At(col) / s.At(col).At(col)
    ensures Halfway(s, With(t, r, Minus(t.At(r), f, t.At(col))), col, r + 1)
  {
    hide Cleared, Equivalent, Reduced, Minus;
    var t' := With(t, r, Minus(t.At(r), f, t.At(col)));
    assert t.At(r) == s.At(r) && t.At(col) == s.At(col);
    EliminationKeepsSolutions(t, r, col, f);
    EquivalentJoins(s, t, t');
    ClearedKept(t, r, col, f);
    AtMostOne(s.At(r).At(col), s.At(col).At(col));
    ReducedBy(s.At(r), s.At(col), f);
    forall i | 0 <= i < 4 ensures t'.At(i) == if i == r then Minus(t.At(r), f, t.At(col)) else t.At(i) { }
  }

  lemma AllEliminated(s: System, t: System, col: nat)
    requires col < 4 && Halfway(s, t, col, 4) && s.At(col).At(col) != 0.0
    ensures Equivalent(s, t) && Cleared(t, col + 1) && EliminatedBelow(s, t, col)
  {
    hide Equivalent, Reduced;
    forall c, q | 0 <= c < col + 1 && c < q < 4 ensures t.At(q).At(c) == 0.0 { }
  }

  lemma EquivalentJoins(s: System, t: System, u: System)
    requires Equivalent(s, t) && Equivalent(t, u)
    ensures Equivalent(s, u)
  {
    hide Solves;
  }

  lemma AtMostOne(x: real, y: real)
    requires y != 0.0 && Abs(x) <= Abs(y)
    ensures -1.0 <= x / y <= 1.0
  {
  }

  lemma ReducedBy(r: Row, p: Row, f: real)
    requires -1.0 <= f <= 1.0
    ensures Reduced(r, p, Minus(r, f, p))
  {
  }

  lemma LessClears(x: real, y: real, f: real)
    requires y != 0.0 && f == x / y
    ensures Less(x, f, y) == 0.0
  {
    DivideExactly(x, y, f);
  }

  // Row r now has no entry in column p, and the columns before p stay cleared.
  lemma ClearedKept(s: System, r: nat, p: nat, f: real)
    requires p < r < 4 && Cleared(s, p) && s.At(p).At(p) != 0.0 && f == s.At(r).At(p) / s.At(p).At(p)
    ensures var s' := With(s, r, Minus(s.At(r), f, s.At(p))); Cleared(s', p) && s'.At(r).At(p) == 0.0
  {
    hide Less;
    var row := Minus(s.At(r), f, s.At(p));
    var s' := With(s, r, row);
    LessClears(s.At(r).At(p), s.At(p).At(p), f);
    LessZero(f);
    forall j | 0 <= j < 4 ensures row.At(j) == Less(s.At(r).At(j), f, s.At(p).At(j)) { }
    forall c, q | 0 <= c < p && c < q < 4 ensures s'.At(q).At(c) == 0.0 {
      assert s.At(q).At(c) == 0.0 && s.At(p).At(c) == 0.0;
    }
    forall c | 0 <= c < p ensures s'.At(c).At(c) != 0.0 {
      assert s.At(c).At(c) != 0.0 && s'.At(c) == s.At(c);
    }
  }

  const PIVOT_MIN := 0.000000000000001

  // The pivots so far are not below the least allowed.
  ghost predicate PivotsKept(s: System, col: nat) {
    forall c | 0 <= c < col && c < 4 :: !Within(s.At(c).At(c), 0.000000000000001)
  }

  // Gaussian elimination with partial pivoting, in place; fails on a pivot too near zero. It fails
  // only where a vector ending in one leaves every left-hand side within 1e-15 of zero, and
  // succeeds only where none leaves them all within an eighth of that.
  method Triangularize(a: array2<real>) returns (ok: bool)
    requires Shape(a)
    modifies a
    ensures ok ==> Equivalent(old(SystemOf(a)), SystemOf(a)) && Cleared(SystemOf(a), 4)
    ensures ok ==> forall v | EndsInOne(v) :: !Small(old(SystemOf(a)), v, 0.000000000000000125)
    ensures !ok ==> exists v :: EndsInOne(v) && Small(old(SystemOf(a)), v, 0.000000000000001)
  {
    hide Small, SmallFrom, EliminatedBelow, SmallAtFirst, GrownAtMost, EndsInOne, Equivalent, PivotsKept, With;
    NoPivotsYet(SystemOf(a));
    ghost var first := SystemOf(a);
    AtFirst(first);
    var col := 0;
    while col < 4
      invariant 0 <= col <= 4 && Cleared(SystemOf(a), col) && PivotsKept(SystemOf(a), col)
      invariant Equivalent(first, SystemOf(a)) && SmallAtFirst(first, SystemOf(a), col) && GrownAtMost(first, SystemOf(a), col)
    {
      var piv := FindPivot(a, col);
      ghost var before := SystemOf(a);
      assert forall i | 0 <= i < 4 :: before.At(i) == RowOf(a, i);
      if Abs(a[piv, col]) < PIVOT_MIN {
        PivotTooSmall(first, before, col);
        return false;
      }
      SwapRows(a, col, piv);
      SwapKeepsSolutions(before, col, piv);
      SwapKeepsCleared(before, col, piv);
      SwapKeepsBounds(first, before, col, piv);
      ghost var swapped := SystemOf(a);
      SwapKeepsPivots(before, col, piv);
      assert forall i | 0 <= i < 4 :: swapped.At(i) == RowOf(a, i);
      EliminateBelow(a, col);
      Joined(first, before, swapped, SystemOf(a), col);
      col := col + 1;
    }
    NoneNearlyAnnihilated(first, SystemOf(a));
    return true;
  }

  lemma NoneNearlyAnnihilated(first: System, s: System)
    requires Cleared(s, 4) && GrownAtMost(first, s, 4) && PivotsKept(s, 4)
    ensures forall v | EndsInOne(v) :: !Small(first, v, 0.000000000000000125)
  {
    hide Cleared, GrownAtMost, Small, EndsInOne;
    forall v | EndsInOne(v) ensures !Small(first, v, 0.000000000000000125) {
      if Small(first, v, 0.000000000000000125) { SmallPivot(first, s, v, 0.000000000000000125); }
    }
  }

  lemma NoPivotsYet(s: System)
    ensures PivotsKept(s, 0)
  {
  }

  // The largest entry brought to the diagonal is a pivot that is large enough.
  lemma SwapKeepsPivots(s: System, col: nat, piv: nat)
    requires col <= piv < 4 && PivotsKept(s, col) && Abs(s.At(piv).At(col)) >= 0.000000000000001
    requires forall q | col <= q < 4 :: Abs(s.At(q).At(col)) <= Abs(s.At(piv).At(col))
    ensures var s' := With(With(s, col, s.At(piv)), piv, s.At(col));
            && PivotsKept(s', col + 1) && s'.At(col).At(col) != 0.0
            && forall q | col <= q < 4 :: Abs(s'.At(q).At(col)) <= Abs(s'.At(col).At(col))
  {
    var s' := With(With(s, col, s.At(piv)), piv, s.At(col));
    assert forall i | 0 <= i < 4 :: s'.At(i) == s.At(if i == col then piv else if i == piv then col else i);
    forall c | 0 <= c < col ensures !Within(s'.At(c).At(c), 0.000000000000001) {
      assert s'.At(c) == s.At(c) && !Within(s.At(c).At(c), 0.000000000000001);
    }
  }

  lemma AtFirst(s: System)
    ensures Equivalent(s, s) && SmallAtFirst(s, s, 0) && GrownAtMost(s, s, 0)
  {
    hide Dot;
  }

  lemma PivotTooSmall(first: System, s: System, col: nat)
    requires col < 4 && Cleared(s, col) && SmallAtFirst(first, s, col)
    requires forall q | col <= q < 4 :: Within(s.At(q).At(col), 0.000000000000001)
    ensures exists v :: EndsInOne(v) && Small(first, v, 0.000000000000001)
  {
    hide Small, SmallFrom, EndsInOne;
    var v := NoPivotLeft(s, col, 0.000000000000001);
  }

  // One column's swap and elimination.
  lemma Joined(first: System, before: System, swapped: System, s: System, col: nat)
    requires col < 4 && Equivalent(first, before) && Equivalent(before, swapped) && Equivalent(swapped, s)
    requires SmallAtFirst(first, swapped, col) && GrownAtMost(first, swapped, col) && EliminatedBelow(swapped, s, col)
    requires PivotsKept(swapped, col + 1)
    ensures Equivalent(first, s) && SmallAtFirst(first, s, col + 1) && GrownAtMost(first, s, col + 1) && PivotsKept(s, col + 1)
  {
    hide SmallAtFirst, GrownAtMost, Solves, Reduced;
    SmallLooksBack(first, swapped, s, col);
    GrowthStep(first, swapped, s, col);
  }

  lemma SwapKeepsCleared(s: System, col: nat, piv: nat)
    requires col <= piv < 4 && Cleared(s, col)
    ensures Cleared(With(With(s, col, s.At(piv)), piv, s.At(col)), col)
  {
    var s' := With(With(s, col, s.At(piv)), piv, s.At(col));
    forall c, q | 0 <= c < col && c < q < 4 ensures s'.At(q).At(c) == 0.0 {
      assert s.At(q).At(c) == 0.0 && s.At(piv).At(c) == 0.0 && s.At(col).At(c) == 0.0;
    }
    forall c | 0 <= c < col ensures s'.At(c).At(c) != 0.0 {
      assert s.At(c).At(c) != 0.0;
    }
  }

  // The sum of row i's entries from column j on, times x.
  ghost function TailDot(r: Row, x: seq<real>, j: nat): real
    requires |x| == 4 && j <= 4
    decreases 4 - j
  {
    if j == 4 then 0.0 else r.At(j) * x[j] + TailDot(r, x, j + 1)
  }

  ghost predicate BackSolved(r: Row, x: seq<real>, k: nat)
    requires |x| == 4 && k < 4
  {
    r.At(k) * x[k] + TailDot(r, x, k + 1) == r.rhs
  }

  lemma BackSolvedBy(r: Row, x: seq<real>, k: nat, sum: real)
    requires |x| == 4 && k < 4 && r.At(k) != 0.0 && sum + TailDot(r, x, k + 1) == r.rhs
    ensures BackSolved(r, x[k := sum / r.At(k)], k)
  {
    DivideExactly(sum, r.At(k), sum / r.At(k));
    TailUnchanged(r, x, x[k := sum / r.At(k)], k, k + 1);
  }

  lemma BackSolvedKept(r: Row, x: seq<real>, x': seq<real>, i: nat, k: nat)
    requires |x| == 4 && |x'| == 4 && i < k < 4 && BackSolved(r, x, k) && forall j | i < j < 4 :: x[j] == x'[j]
    ensures BackSolved(r, x', k)
  {
    TailUnchanged(r, x, x', i, k + 1);
  }

  // Row i's right-hand side less its entries past the diagonal times the values found.
  method Remainder(a: array2<real>, i: nat, x: array<real>) returns (sum: real)
    requires Shape(a) && i < 4 && x.Length == 4
    ensures sum + TailDot(RowOf(a, i), x[..], i + 1) == a[i, 4]
  {
    sum := a[i, 4];
    var j := i + 1;
    while j < 4
      invariant i < j <= 4 && sum + TailDot(RowOf(a, i), x[..], i + 1) == a[i, 4] + TailDot(RowOf(a, i), x[..], j)
    {
      assert RowOf(a, i).At(j) == a[i, j];
      sum := sum - a[i, j] * x[j];
      j := j + 1;
    }
  }

  method SubstituteBack(a: array2<real>) returns (x: seq<real>)
    requires Shape(a) && Cleared(SystemOf(a), 4)
    ensures |x| == 4 && forall v :: Solves(SystemOf(a), v) <==> v == Vec(x[0], x[1], x[2], x[3])
  {
    hide TailDot, Satisfies, BackSolved;
    ghost var s := SystemOf(a);
    assert forall i | 0 <= i < 4 :: s.At(i).At(i) != 0.0 && s.At(i) == RowOf(a, i);
    var out := new real[4](_ => 0.0);
    var i := 3;
    while i >= 0
      invariant -1 <= i <= 3
      invariant forall k | i < k < 4 :: BackSolved(s.At(k), out[..], k)
    {
      var sum := Remainder(a, i, out);
      ghost var before := out[..];
      assert s.At(i).At(i) == a[i, i];
      out[i] := sum / a[i, i];
      BackSolvedBy(s.At(i), before, i, sum);
      assert out[..] == before[i := sum / a[i, i]];
      forall k | i < k < 4 ensures BackSolved(s.At(k), out[..], k) { BackSolvedKept(s.At(k), before, out[..], i, k); }
      i := i - 1;
    }
    x := out[..];
    TailsSolve(s, x);
    forall v ensures Solves(s, v) <==> v == Vec(x[0], x[1], x[2], x[3]) {
      TriangularUnique(s, v);
      TriangularUnique(s, Vec(x[0], x[1], x[2], x[3]));
    }
  }

  lemma {:induction false} TailUnchanged(r: Row, x: seq<real>, x': seq<real>, i: nat, j: nat)
    requires |x| == 4 && |x'| == 4 && i < j <= 4 && forall k | i < k < 4 :: x[k] == x'[k]
    ensures TailDot(r, x, j) == TailDot(r, x', j)
    decreases 4 - j
  {
    if j < 4 { TailUnchanged(r, x, x', i, j + 1); }
  }

  lemma TailUnfolds(r: Row, x: seq<real>)
    requires |x| == 4
    ensures TailDot(r, x, 4) == 0.0 && TailDot(r, x, 3) == r.c3 * x[3]
    ensures TailDot(r, x, 2) == r.c2 * x[2] + r.c3 * x[3]
    ensures TailDot(r, x, 1) == r.c1 * x[1] + r.c2 * x[2] + r.c3 * x[3]
  {
    assert TailDot(r, x, 4) == 0.0;
    assert TailDot(r, x, 3) == r.At(3) * x[3];
    assert TailDot(r, x, 2) == r.At(2) * x[2] + TailDot(r, x, 3);
  }

  // Row k of a triangular system, its value in column k found, is satisfied.
  lemma TailSatisfied(r: Row, x: seq<real>, k: nat)
    requires |x| == 4 && k < 4 && BackSolved(r, x, k) && forall c | 0 <= c < k :: r.At(c) == 0.0
    ensures Satisfies(r, Vec(x[0], x[1], x[2], x[3]))
  {
    TailUnfolds(r, x);
    assert k > 0 ==> r.At(0) == r.c0 == 0.0;
    assert k > 1 ==> r.At(1) == r.c1 == 0.0;
    assert k > 2 ==> r.At(2) == r.c2 == 0.0;
  }

  lemma TailsSolve(s: System, x: seq<real>)
    requires Cleared(s, 4) && |x| == 4
    requires forall k | 0 <= k < 4 :: BackSolved(s.At(k), x, k)
    ensures Solves(s, Vec(x[0], x[1], x[2], x[3]))
  {
    hide BackSolved, Satisfies;
    TailSatisfied(s.At(0), x, 0);
    TailSatisfied(s.At(1), x, 1);
    TailSatisfied(s.At(2), x, 2);
    TailSatisfied(s.At(3), x, 3);
  }

  datatype BlockEstimate = BlockEstimate(re: real, im: real)

  /** The accumulator: the upper triangle of the moments, the projections, and a sample count. */
  class LsAccum {
    const m: array2<real>
    const b: array<real>
    var n: nat
    ghost var samples: seq<Sample>

    ghost predicate Valid()
      reads this, m, b
    {
      && m.Length0 == 4 && m.Length1 == 4 && b.Length == 4 && n == |samples|
      && (forall i, j | 0 <= i <= j < 4 :: m[i, j] == Moment(samples, i, j))
      && (forall i | 0 <= i < 4 :: b[i] == Projection(samples, i))
    }

    constructor ()
      ensures Valid() && samples == [] && fresh(m) && fresh(b)
    {
      m := new real[4, 4]((i, j) => 0.0);
      b := new real[4](_ => 0.0);
      n, samples := 0, [];
    }

    method Add(s: Sample)
      requires Valid()
      modifies this, m, b
      ensures Valid() && samples == old(samples) + [s]
    {
      hide Weighted;
      var r := [1.0, s.t, s.sine, s.cosine];
      assert (samples + [s])[..|samples|] == samples;
      var i := 0;
      while i < 4
        invariant 0 <= i <= 4 && n == |samples| && samples == old(samples)
        invariant forall p, q | 0 <= p <= q < 4 ::
                    m[p, q] == if p < i then Moment(samples + [s], p, q) else Moment(samples, p, q)
        invariant forall p | 0 <= p < 4 :: b[p] == if p < i then Projection(samples + [s], p) else Projection(samples, p)
      {
        var j := i;
        while j < 4
          invariant i <= j <= 4 && n == |samples| && samples == old(samples)
          invariant forall p, q | 0 <= p <= q < 4 ::
                      m[p, q] == if p < i || (p == i && q < j) then Moment(samples + [s], p, q) else Moment(samples, p, q)
          invariant forall p | 0 <= p < 4 :: b[p] == if p < i then Projection(samples + [s], p) else Projection(samples, p)
        {
          m[i, j] := m[i, j] + Weighted(r[i], r[j], s.dt);
          j := j + 1;
        }
        b[i] := b[i] + Weighted(r[i], s.y, s.dt);
        i := i + 1;
      }
      n := n + 1;
      samples := samples + [s];
    }

    // The normal equations, the lower triangle mirrored from the upper one.
    method Equations() returns (a: array2<real>)
      requires Valid()
      ensures fresh(a) && Shape(a) && SystemOf(a) == NormalEquations(samples)
    {
      a := new real[4, 5]((i, j) => 0.0);
      var i := 0;
      while i < 4
        invariant 0 <= i <= 4 && Valid()
        invariant forall p | 0 <= p < i :: RowOf(a, p) == NormalRow(samples, p)
      {
        a[i, 0], a[i, 1] := m[0, i], if i <= 1 then m[i, 1] else m[1, i];
        a[i, 2], a[i, 3] := if i <= 2 then m[i, 2] else m[2, i], m[i, 3];
        a[i, 4] := b[i];
        i := i + 1;
      }
    }

    /** When it succeeds, the mirrored normal equations have exactly one solution, and the
        estimate is its sine and cosine amounts: samples on the model give them back exactly,
        whatever their weights, offset and drift. It fails only where some nonzero vector, its
        last nonzero entry one, is nearly annihilated by the equations, and where one is annihilated
        eight times as nearly it does fail. */
    method Solve() returns (ok: bool, z: BlockEstimate)
      requires Valid()
      ensures ok ==> exists x: Vec {:trigger Solves(NormalEquations(samples), x)} ::
                && (forall v :: Solves(NormalEquations(samples), v) <==> v == x)
                && z == BlockEstimate(x.v2, x.v3)
      ensures ok ==> forall v | OnModel(samples, v) :: z == BlockEstimate(v.v2, v.v3)
      ensures ok ==> forall v | EndsInOne(v) :: !Small(NormalEquations(samples), v, 0.000000000000000125)
      ensures !ok ==> exists v :: EndsInOne(v) && Small(NormalEquations(samples), v, 0.000000000000001)
    {
      hide Satisfies, NormalEquations, Small, EndsInOne;
      z := BlockEstimate(0.0, 0.0);
      var a := Equations();
      ghost var equations := NormalEquations(samples);
      ok := Triangularize(a);
      if !ok { return; }
      var x := SubstituteBack(a);
      z := BlockEstimate(x[2], x[3]);
      ghost var solution := Vec(x[0], x[1], x[2], x[3]);
      ghost var triangular := SystemOf(a);
      forall v ensures Solves(equations, v) <==> v == solution {
        assert Solves(equations, v) <==> Solves(triangular, v);
      }
      assert Solves(equations, solution);
      forall v | OnModel(samples, v) ensures z == BlockEstimate(v.v2, v.v3) {
        ModelSolvesNormalEquations(samples, v);
      }
    }
  }
}
