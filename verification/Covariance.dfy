/** The covariance matrix of n points in space (Hw2/src/child.c), over the reals. */
module Covariance {
  import opened Common

  // ---------- vectors ----------

  type Vector = seq<real>

  function Times(x: real, y: real): real {
    x * y
  }

  /** The sum of the first k products of two vectors. */
  function InnerTo(p: Vector, q: Vector, k: nat): real
    requires k <= |p| && k <= |q|
  {
    if k == 0 then 0.0 else InnerTo(p, q, k - 1) + Times(p[k - 1], q[k - 1])
  }

  function Inner(p: Vector, q: Vector): real
    requires |p| == |q|
  {
    InnerTo(p, q, |p|)
  }

  function Scaled(c: real, p: Vector): (r: Vector)
    ensures |r| == |p|
  {
    seq(|p|, i requires 0 <= i < |p| => c * p[i])
  }

  function Added(p: Vector, q: Vector): (r: Vector)
    requires |p| == |q|
    ensures |r| == |p|
  {
    seq(|p|, i requires 0 <= i < |p| => p[i] + q[i])
  }

  lemma {:induction false} InnerSymmetric(p: Vector, q: Vector, k: nat)
    requires k <= |p| && k <= |q|
    ensures InnerTo(p, q, k) == InnerTo(q, p, k)
  {
    if k > 0 {
      InnerSymmetric(p, q, k - 1);
    }
  }

  lemma InnerNext(p: Vector, q: Vector, k: nat, x: real, y: real)
    requires k < |p| && k < |q| && x == p[k] && y == q[k]
    ensures InnerTo(p, q, k + 1) == InnerTo(p, q, k) + x * y
  {
    assert Times(p[k], q[k]) == Times(x, y);
  }

  lemma Distributes(c: real, x: real, y: real)
    ensures c * (x + y) == c * x + c * y
  {
  }

  lemma Associates(c: real, x: real, y: real)
    ensures (c * x) * y == c * (x * y)
  {
  }

  lemma {:induction false} InnerScaled(c: real, p: Vector, q: Vector, k: nat)
    requires k <= |p| && k <= |q|
    ensures InnerTo(Scaled(c, p), q, k) == c * InnerTo(p, q, k)
  {
    if k > 0 {
      InnerScaled(c, p, q, k - 1);
      Associates(c, p[k - 1], q[k - 1]);
      Distributes(c, InnerTo(p, q, k - 1), p[k - 1] * q[k - 1]);
    }
  }

  lemma {:induction false} InnerAdded(p: Vector, q: Vector, r: Vector, k: nat)
    requires |p| == |q| && k <= |p| && k <= |r|
    ensures InnerTo(Added(p, q), r, k) == InnerTo(p, r, k) + InnerTo(q, r, k)
  {
    if k > 0 {
      InnerAdded(p, q, r, k - 1);
      Distributes(r[k - 1], p[k - 1], q[k - 1]);
    }
  }

  lemma {:induction false} InnerNonNegative(p: Vector, k: nat)
    requires k <= |p|
    ensures InnerTo(p, p, k) >= 0.0
  {
    if k > 0 {
      InnerNonNegative(p, k - 1);
    }
  }

  // ---------- the covariance of n points ----------

  /** The buffer holds at least n points of three coordinates each. */
  predicate Holds(xs: seq<real>, n: nat) {
    3 * n <= |xs|
  }

  /** Coordinate a of the n points. */
  function Coords(xs: seq<real>, n: nat, a: nat): (p: Vector)
    requires Holds(xs, n) && a < 3
    ensures |p| == n
  {
    seq(n, i requires 0 <= i < n => xs[i * 3 + a])
  }

  function Total(p: Vector, k: nat): real
    requires k <= |p|
  {
    if k == 0 then 0.0 else Total(p, k - 1) + p[k - 1]
  }

  function Mean(p: Vector): real
    requires |p| > 0
  {
    Total(p, |p|) / |p| as real
  }

  /** How far each entry is from the mean. */
  function Deviations(p: Vector): (d: Vector)
    requires |p| > 0
    ensures |d| == |p|
  {
    var m := Mean(p);
    seq(|p|, i requires 0 <= i < |p| => p[i] - m)
  }

  function Cov(xs: seq<real>, n: nat, a: nat, b: nat): real
    requires Holds(xs, n) && a < 3 && b < 3 && n > 0
  {
    Inner(Deviations(Coords(xs, n, a)), Deviations(Coords(xs, n, b))) / n as real
  }

  // ---------- the program ----------

  method Means(xs: seq<real>, n: nat) returns (xMean: real, yMean: real, zMean: real)
    requires Holds(xs, n) && n > 0
    ensures xMean == Mean(Coords(xs, n, 0)) && yMean == Mean(Coords(xs, n, 1)) && zMean == Mean(Coords(xs, n, 2))
  {
    ghost var p, q, r := Coords(xs, n, 0), Coords(xs, n, 1), Coords(xs, n, 2);
    var xSum, ySum, zSum := 0.0, 0.0, 0.0;
    for i := 0 to n
      invariant xSum == Total(p, i) && ySum == Total(q, i) && zSum == Total(r, i)
    {
      xSum := xSum + xs[i * 3];
      ySum := ySum + xs[i * 3 + 1];
      zSum := zSum + xs[i * 3 + 2];
    }
    return xSum / n as real, ySum / n as real, zSum / n as real;
  }

  method Variances(xs: seq<real>, n: nat, xMean: real, yMean: real, zMean: real)
    returns (xVar: real, yVar: real, zVar: real)
    requires Holds(xs, n) && n > 0
    requires xMean == Mean(Coords(xs, n, 0)) && yMean == Mean(Coords(xs, n, 1)) && zMean == Mean(Coords(xs, n, 2))
    ensures xVar == Cov(xs, n, 0, 0) && yVar == Cov(xs, n, 1, 1) && zVar == Cov(xs, n, 2, 2)
  {
    ghost var dx, dy, dz :=
      Deviations(Coords(xs, n, 0)), Deviations(Coords(xs, n, 1)), Deviations(Coords(xs, n, 2));
    xVar, yVar, zVar := 0.0, 0.0, 0.0;
    for i := 0 to n
      invariant xVar == InnerTo(dx, dx, i) && yVar == InnerTo(dy, dy, i) && zVar == InnerTo(dz, dz, i)
    {
      var x, y, z := xs[i * 3] - xMean, xs[i * 3 + 1] - yMean, xs[i * 3 + 2] - zMean;
      InnerNext(dx, dx, i, x, x);
      InnerNext(dy, dy, i, y, y);
      InnerNext(dz, dz, i, z, z);
      xVar := xVar + x * x;
      yVar := yVar + y * y;
      zVar := zVar + z * z;
    }
    xVar, yVar, zVar := xVar / n as real, yVar / n as real, zVar / n as real;
  }

  method Covariances(xs: seq<real>, n: nat, xMean: real, yMean: real, zMean: real)
    returns (covXY: real, covXZ: real, covYZ: real)
    requires Holds(xs, n) && n > 0
    requires xMean == Mean(Coords(xs, n, 0)) && yMean == Mean(Coords(xs, n, 1)) && zMean == Mean(Coords(xs, n, 2))
    ensures covXY == Cov(xs, n, 0, 1) && covXZ == Cov(xs, n, 0, 2) && covYZ == Cov(xs, n, 1, 2)
  {
    ghost var dx, dy, dz :=
      Deviations(Coords(xs, n, 0)), Deviations(Coords(xs, n, 1)), Deviations(Coords(xs, n, 2));
    covXY, covXZ, covYZ := 0.0, 0.0, 0.0;
    for i := 0 to n
      invariant covXY == InnerTo(dx, dy, i) && covXZ == InnerTo(dx, dz, i) && covYZ == InnerTo(dy, dz, i)
    {
      var x, y, z := xs[i * 3] - xMean, xs[i * 3 + 1] - yMean, xs[i * 3 + 2] - zMean;
      InnerNext(dx, dy, i, x, y);
      InnerNext(dx, dz, i, x, z);
      InnerNext(dy, dz, i, y, z);
      covXY := covXY + x * y;
      covXZ := covXZ + x * z;
      covYZ := covYZ + y * z;
    }
    covXY, covXZ, covYZ := covXY / n as real, covXZ / n as real, covYZ / n as real;
  }

  lemma CovSymmetric(xs: seq<real>, n: nat, a: nat, b: nat)
    requires Holds(xs, n) && a < 3 && b < 3 && n > 0
    ensures Cov(xs, n, a, b) == Cov(xs, n, b, a)
  {
    InnerSymmetric(Deviations(Coords(xs, n, a)), Deviations(Coords(xs, n, b)), n);
  }

  /** The nine cells, row by row. */
  method CalculateCovariance(xs: seq<real>, n: nat) returns (cov: array<real>)
    requires Holds(xs, n) && n > 0
    ensures cov.Length == 9
    ensures forall a: nat, b: nat :: a < 3 && b < 3 ==> cov[3 * a + b] == Cov(xs, n, a, b)
  {
    var xMean, yMean, zMean := Means(xs, n);
    var xVar, yVar, zVar := Variances(xs, n, xMean, yMean, zMean);
    var covXY, covXZ, covYZ := Covariances(xs, n, xMean, yMean, zMean);
    cov := new real[] [xVar, covXY, covXZ, covXY, yVar, covYZ, covXZ, covYZ, zVar];
    CovSymmetric(xs, n, 0, 1);
    CovSymmetric(xs, n, 0, 2);
    CovSymmetric(xs, n, 1, 2);
  }

  // ---------- positive semidefinite ----------

  /** The vector u p + v q + w r. */
  function Combined(u: real, p: Vector, v: real, q: Vector, w: real, r: Vector): (d: Vector)
    requires |p| == |q| == |r|
    ensures |d| == |p|
  {
    Added(Added(Scaled(u, p), Scaled(v, q)), Scaled(w, r))
  }

  /** One row of a matrix times the vector (u, v, w). */
  function Row(x: real, y: real, z: real, u: real, v: real, w: real): real {
    u * x + v * y + w * z
  }

  lemma InnerCombined(u: real, p: Vector, v: real, q: Vector, w: real, r: Vector, s: Vector)
    requires |p| == |q| == |r| == |s|
    ensures Inner(Combined(u, p, v, q, w, r), s) == Row(Inner(p, s), Inner(q, s), Inner(r, s), u, v, w)
  {
    InnerAdded(Added(Scaled(u, p), Scaled(v, q)), Scaled(w, r), s, |s|);
    InnerAdded(Scaled(u, p), Scaled(v, q), s, |s|);
    InnerScaled(u, p, s, |s|);
    InnerScaled(v, q, s, |s|);
    InnerScaled(w, r, s, |s|);
  }

  lemma InnerOfCombined(u: real, p: Vector, v: real, q: Vector, w: real, r: Vector, s: Vector)
    requires |p| == |q| == |r| == |s|
    ensures Inner(s, Combined(u, p, v, q, w, r)) == Row(Inner(s, p), Inner(s, q), Inner(s, r), u, v, w)
  {
    InnerCombined(u, p, v, q, w, r, s);
    InnerSymmetric(s, Combined(u, p, v, q, w, r), |s|);
    InnerSymmetric(s, p, |s|);
    InnerSymmetric(s, q, |s|);
    InnerSymmetric(s, r, |s|);
  }

  /** The quadratic form of the covariance matrix: (u, v, w) times the matrix times (u, v, w). */
  function CovForm(xs: seq<real>, n: nat, u: real, v: real, w: real): real
    requires Holds(xs, n) && n > 0
  {
    Row(Row(Cov(xs, n, 0, 0), Cov(xs, n, 0, 1), Cov(xs, n, 0, 2), u, v, w),
        Row(Cov(xs, n, 1, 0), Cov(xs, n, 1, 1), Cov(xs, n, 1, 2), u, v, w),
        Row(Cov(xs, n, 2, 0), Cov(xs, n, 2, 1), Cov(xs, n, 2, 2), u, v, w), u, v, w)
  }

  /** The deviations of the points in the direction (u, v, w). */
  function Along(xs: seq<real>, n: nat, u: real, v: real, w: real): (d: Vector)
    requires Holds(xs, n) && n > 0
    ensures |d| == n
  {
    Combined(u, Deviations(Coords(xs, n, 0)), v, Deviations(Coords(xs, n, 1)), w, Deviations(Coords(xs, n, 2)))
  }

  lemma Quotient(c: real, x: real, m: real)
    requires m > 0.0
    ensures c * (x / m) == (c * x) / m
  {
  }

  lemma SumOver(x: real, y: real, z: real, m: real)
    requires m > 0.0
    ensures x / m + y / m + z / m == (x + y + z) / m
  {
  }

  lemma RowOver(x: real, y: real, z: real, u: real, v: real, w: real, m: real)
    requires m > 0.0
    ensures Row(x / m, y / m, z / m, u, v, w) == Row(x, y, z, u, v, w) / m
  {
    Quotient(u, x, m);
    Quotient(v, y, m);
    Quotient(w, z, m);
    SumOver(u * x, v * y, w * z, m);
  }

  lemma NonNegativeOver(x: real, m: real)
    requires m > 0.0 && x >= 0.0
    ensures x / m >= 0.0
  {
  }

  /** A row of the covariance matrix times a direction is a covariance with the deviations in that direction. */
  lemma RowIsInner(xs: seq<real>, n: nat, a: nat, u: real, v: real, w: real)
    requires Holds(xs, n) && n > 0 && a < 3
    ensures Row(Cov(xs, n, a, 0), Cov(xs, n, a, 1), Cov(xs, n, a, 2), u, v, w)
         == Inner(Deviations(Coords(xs, n, a)), Along(xs, n, u, v, w)) / n as real
  {
    var d, x, y, z :=
      Deviations(Coords(xs, n, a)), Deviations(Coords(xs, n, 0)),
      Deviations(Coords(xs, n, 1)), Deviations(Coords(xs, n, 2));
    InnerOfCombined(u, x, v, y, w, z, d);
    RowOver(Inner(d, x), Inner(d, y), Inner(d, z), u, v, w, n as real);
  }

  /** In every direction the form is the mean square of the deviations in it, so it is never negative. */
  lemma PositiveSemidefinite(xs: seq<real>, n: nat, u: real, v: real, w: real)
    requires Holds(xs, n) && n > 0
    ensures CovForm(xs, n, u, v, w) == Inner(Along(xs, n, u, v, w), Along(xs, n, u, v, w)) / n as real
    ensures CovForm(xs, n, u, v, w) >= 0.0
  {
    var d, x, y, z :=
      Along(xs, n, u, v, w), Deviations(Coords(xs, n, 0)), Deviations(Coords(xs, n, 1)), Deviations(Coords(xs, n, 2));
    RowIsInner(xs, n, 0, u, v, w);
    RowIsInner(xs, n, 1, u, v, w);
    RowIsInner(xs, n, 2, u, v, w);
    RowOver(Inner(x, d), Inner(y, d), Inner(z, d), u, v, w, n as real);
    InnerCombined(u, x, v, y, w, z, d);
    InnerNonNegative(d, n);
    NonNegativeOver(Inner(d, d), n as real);
  }

  // ---------- the Cauchy-Schwarz inequality ----------

  /** Without length the second vector would give some combination a negative square, unless they are orthogonal. */
  lemma SteepDirection(xx: real, xy: real) returns (v: real)
    requires xy != 0.0
    ensures xx + 2.0 * (v * xy) < 0.0
  {
    v := -(xx + 1.0) / (2.0 * xy);
    assert v * (2.0 * xy) == -(xx + 1.0);
  }

  lemma SignOfProduct(y: real, d: real)
    requires y > 0.0
    ensures d < 0.0 ==> y * d < 0.0
  {
  }

  /** The square of u p + v q. */
  lemma PlaneForm(p: Vector, q: Vector, u: real, v: real)
    requires |p| == |q|
    ensures var pq := Inner(p, q); var qq := Inner(q, q);
      Row(Row(Inner(p, p), pq, pq, u, v, 0.0), Row(pq, qq, qq, u, v, 0.0), Row(pq, qq, qq, u, v, 0.0), u, v, 0.0) >= 0.0
  {
    var d := Combined(u, p, v, q, 0.0, q);
    InnerCombined(u, p, v, q, 0.0, q, d);
    InnerOfCombined(u, p, v, q, 0.0, q, p);
    InnerOfCombined(u, p, v, q, 0.0, q, q);
    InnerSymmetric(p, q, |p|);
    InnerNonNegative(d, |p|);
  }

  /** With u = yy and v = -xy the square is yy times what is to be shown non-negative. */
  lemma ChosenDirection(xx: real, xy: real, yy: real)
    ensures Row(Row(xx, xy, xy, yy, -xy, 0.0), Row(xy, yy, yy, yy, -xy, 0.0),
                Row(xy, yy, yy, yy, -xy, 0.0), yy, -xy, 0.0)
         == yy * (xx * yy - xy * xy)
  {
    var d := xx * yy - xy * xy;
    assert Row(xx, xy, xy, yy, -xy, 0.0) == d;
    assert Row(xy, yy, yy, yy, -xy, 0.0) == 0.0;
    assert Row(d, 0.0, 0.0, yy, -xy, 0.0) == yy * d;
  }

  lemma FlatDirection(xx: real, xy: real, v: real)
    ensures Row(Row(xx, xy, xy, 1.0, v, 0.0), Row(xy, 0.0, 0.0, 1.0, v, 0.0),
                Row(xy, 0.0, 0.0, 1.0, v, 0.0), 1.0, v, 0.0)
         == xx + 2.0 * (v * xy)
  {
    assert Row(xx, xy, xy, 1.0, v, 0.0) == xx + v * xy;
    assert Row(xy, 0.0, 0.0, 1.0, v, 0.0) == xy;
  }

  lemma InnerCauchySchwarz(p: Vector, q: Vector)
    requires |p| == |q|
    ensures Times(Inner(p, q), Inner(p, q)) <= Times(Inner(p, p), Inner(q, q))
  {
    var xx, xy, yy := Inner(p, p), Inner(p, q), Inner(q, q);
    InnerNonNegative(q, |q|);
    if yy > 0.0 {
      PlaneForm(p, q, yy, -xy);
      ChosenDirection(xx, xy, yy);
      SignOfProduct(yy, xx * yy - xy * xy);
    } else if xy != 0.0 {
      var v := SteepDirection(xx, xy);
      PlaneForm(p, q, 1.0, v);
      FlatDirection(xx, xy, v);
    }
  }

  lemma FourFactors(a: real, b: real, m: real)
    ensures Times(Times(a, m), Times(b, m)) == Times(Times(a, b), Times(m, m))
  {
    Associates(a, m, b * m);
    assert m * (b * m) == b * (m * m);
    Associates(a, b, m * m);
  }

  lemma PositiveProduct(x: real, y: real)
    requires x > 0.0 && y > 0.0
    ensures Times(x, y) > 0.0
  {
  }

  lemma ProductAt(a: real, b: real, x: real, y: real, m: real)
    requires m > 0.0 && Times(a, m) == x && Times(b, m) == y
    ensures Times(m, m) > 0.0 && Times(a, b) == Times(x, y) / Times(m, m)
  {
    PositiveProduct(m, m);
    FourFactors(a, b, m);
    assert Times(Times(a, m), Times(b, m)) == Times(x, y);
    DivisionUnique(Times(a, b), Times(x, y), Times(m, m));
  }

  lemma OrderOver(x: real, y: real, m: real)
    requires m > 0.0 && x <= y
    ensures x / m <= y / m
  {
  }

  lemma DivideBack(x: real, m: real)
    requires m > 0.0
    ensures Times(x / m, m) == x
  {
  }

  lemma SquareOver(x: real, y: real, z: real, m: real)
    requires m > 0.0 && Times(x, x) <= Times(y, z)
    ensures Times(x / m, x / m) <= Times(y / m, z / m)
  {
    DivideBack(x, m);
    DivideBack(y, m);
    DivideBack(z, m);
    ProductAt(x / m, x / m, x, x, m);
    ProductAt(y / m, z / m, y, z, m);
    OrderOver(Times(x, x), Times(y, z), Times(m, m));
  }

  /** No covariance is larger than the variances of its two axes allow. */
  lemma CauchySchwarz(xs: seq<real>, n: nat, a: nat, b: nat)
    requires Holds(xs, n) && n > 0 && a < 3 && b < 3
    ensures Times(Cov(xs, n, a, b), Cov(xs, n, a, b)) <= Times(Cov(xs, n, a, a), Cov(xs, n, b, b))
  {
    var p, q := Deviations(Coords(xs, n, a)), Deviations(Coords(xs, n, b));
    InnerCauchySchwarz(p, q);
    SquareOver(Inner(p, q), Inner(p, p), Inner(q, q), n as real);
  }

  // ---------- translation ----------

  /** Every point moved by the same distance along each axis. */
  function Moved(xs: seq<real>, d: seq<real>): (r: seq<real>)
    requires |d| == 3
    ensures |r| == |xs|
  {
    seq(|xs|, i requires 0 <= i < |xs| => xs[i] + d[i % 3])
  }

  function Plus(p: Vector, x: real): (r: Vector)
    ensures |r| == |p|
  {
    seq(|p|, i requires 0 <= i < |p| => p[i] + x)
  }

  lemma CoordsMoved(xs: seq<real>, n: nat, d: seq<real>, a: nat)
    requires Holds(xs, n) && |d| == 3 && a < 3
    ensures Coords(Moved(xs, d), n, a) == Plus(Coords(xs, n, a), d[a])
  {
    forall i: nat | i < n
      ensures Coords(Moved(xs, d), n, a)[i] == Plus(Coords(xs, n, a), d[a])[i]
    {
      assert (i * 3 + a) % 3 == a;
    }
  }

  lemma OneMore(k: nat, x: real)
    requires k > 0
    ensures k as real * x == (k - 1) as real * x + x
  {
    assert k as real == (k - 1) as real + 1.0;
  }

  lemma {:induction false} TotalPlus(p: Vector, x: real, k: nat)
    requires k <= |p|
    ensures Total(Plus(p, x), k) == Total(p, k) + k as real * x
  {
    if k > 0 {
      TotalPlus(p, x, k - 1);
      OneMore(k, x);
    }
  }

  lemma MeanOfSum(t: real, x: real, m: real)
    requires m > 0.0
    ensures (t + m * x) / m == t / m + x
  {
  }

  lemma DeviationsPlus(p: Vector, x: real)
    requires |p| > 0
    ensures Deviations(Plus(p, x)) == Deviations(p)
  {
    TotalPlus(p, x, |p|);
    MeanOfSum(Total(p, |p|), x, |p| as real);
    assert Mean(Plus(p, x)) == Mean(p) + x;
  }

  /** Moving all points alike changes no covariance. */
  lemma TranslationInvariant(xs: seq<real>, n: nat, d: seq<real>, a: nat, b: nat)
    requires Holds(xs, n) && n > 0 && |d| == 3 && a < 3 && b < 3
    ensures Cov(Moved(xs, d), n, a, b) == Cov(xs, n, a, b)
  {
    CoordsMoved(xs, n, d, a);
    CoordsMoved(xs, n, d, b);
    DeviationsPlus(Coords(xs, n, a), d[a]);
    DeviationsPlus(Coords(xs, n, b), d[b]);
  }

  // ---------- its value ----------

  lemma DeviationsAsSum(p: Vector)
    requires |p| > 0
    ensures Deviations(p) == Plus(p, -Mean(p))
  {
  }

  /** The deviations are from the mean and no other point: they add up to 0. */
  lemma DeviationsCancel(p: Vector)
    requires |p| > 0
    ensures Total(Deviations(p), |p|) == 0.0
    ensures forall i, j :: 0 <= i < |p| && 0 <= j < |p| ==> Deviations(p)[i] - Deviations(p)[j] == p[i] - p[j]
  {
    var m := |p| as real;
    DeviationsAsSum(p);
    TotalPlus(p, -Mean(p), |p|);
    assert m * Mean(p) == Total(p, |p|);
    assert m * -Mean(p) == -(m * Mean(p));
  }

  lemma ShiftProduct(a: real, x: real, b: real, y: real)
    ensures Times(a + x, b + y) == Times(a, b) + Times(x, b) + Times(y, a) + Times(x, y)
  {
  }

  lemma AddsTimes(x: real, s: real, b: real)
    ensures Times(x, s + b) == Times(x, s) + Times(x, b)
  {
  }

  lemma {:induction false} InnerShifted(p: Vector, x: real, q: Vector, y: real, k: nat)
    requires k <= |p| == |q|
    ensures InnerTo(Plus(p, x), Plus(q, y), k)
         == InnerTo(p, q, k) + Times(x, Total(q, k)) + Times(y, Total(p, k)) + Times(Times(x, y), k as real)
  {
    if k > 0 {
      InnerShifted(p, x, q, y, k - 1);
      ShiftProduct(p[k - 1], x, q[k - 1], y);
      AddsTimes(Times(x, y), (k - 1) as real, 1.0);
      AddsTimes(x, Total(q, k - 1), q[k - 1]);
      AddsTimes(y, Total(p, k - 1), p[k - 1]);
    }
  }

  lemma MeansOut(s: real, a: real, t: real, b: real, u: real, m: real)
    requires m > 0.0 && t == m * a && u == m * b
    ensures s + Times(-a, u) + Times(-b, t) + Times(Times(-a, -b), m) == s - m * (a * b)
  {
    assert Times(-a, u) == -(m * (a * b)) && Times(-b, t) == -(m * (a * b));
    assert Times(Times(-a, -b), m) == m * (a * b);
  }

  lemma TakesOut(x: real, s: real, c: real, m: real)
    requires m > 0.0 && x == s - m * c
    ensures x / m == s / m - c
  {
    assert s / m * m == s;
    assert (s / m - c) * m == x;
    DivisionUnique(s / m - c, x, m);
  }

  lemma TotalIsMeans(p: Vector)
    requires |p| > 0
    ensures Total(p, |p|) == |p| as real * Mean(p)
  {
  }

  lemma InnerOfDeviations(p: Vector, q: Vector)
    requires |p| == |q| > 0
    ensures Inner(Deviations(p), Deviations(q)) == Inner(p, q) - |p| as real * (Mean(p) * Mean(q))
  {
    var n := |p|;
    DeviationsAsSum(p);
    DeviationsAsSum(q);
    InnerShifted(p, -Mean(p), q, -Mean(q), n);
    TotalIsMeans(p);
    TotalIsMeans(q);
    MeansOut(Inner(p, q), Mean(p), Total(p, n), Mean(q), Total(q, n), n as real);
  }

  /** The covariance is the mean of the products less the product of the means. */
  lemma CovIsMeanOfProducts(xs: seq<real>, n: nat, a: nat, b: nat)
    requires Holds(xs, n) && n > 0 && a < 3 && b < 3
    ensures Cov(xs, n, a, b)
         == Inner(Coords(xs, n, a), Coords(xs, n, b)) / n as real - Mean(Coords(xs, n, a)) * Mean(Coords(xs, n, b))
  {
    var p, q := Coords(xs, n, a), Coords(xs, n, b);
    InnerOfDeviations(p, q);
    TakesOut(Inner(Deviations(p), Deviations(q)), Inner(p, q), Mean(p) * Mean(q), n as real);
  }

  lemma DeviationsOfTwo(p: Vector)
    requires |p| == 2
    ensures var d := (p[1] - p[0]) / 2.0; Deviations(p)[0] == -d && Deviations(p)[1] == d
  {
    assert Total(p, 2) == Total(p, 1) + p[1] && Total(p, 1) == Total(p, 0) + p[0];
    assert Mean(p) == (p[0] + p[1]) / 2.0;
  }

  lemma HalvesTimes(x: real, y: real)
    ensures (x / 2.0) * (y / 2.0) == x * y / 4.0 && -(x / 2.0) * -(y / 2.0) == x * y / 4.0
  {
  }

  /** Of two points it is the product of their distances along the two axes, divided by 4. */
  lemma CovOfTwoPoints(xs: seq<real>, a: nat, b: nat)
    requires |xs| >= 6 && a < 3 && b < 3
    ensures Cov(xs, 2, a, b) == (xs[3 + a] - xs[a]) * (xs[3 + b] - xs[b]) / 4.0
  {
    var p, q := Coords(xs, 2, a), Coords(xs, 2, b);
    DeviationsOfTwo(p);
    DeviationsOfTwo(q);
    var d, f := Deviations(p), Deviations(q);
    InnerNext(d, f, 0, d[0], f[0]);
    InnerNext(d, f, 1, d[1], f[1]);
    HalvesTimes(p[1] - p[0], q[1] - q[0]);
  }
}
