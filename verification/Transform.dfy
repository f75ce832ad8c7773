/**
 The matrix product and the two-dimensional transform (Hw5/src/main.c) as one thread computes them on
 its range of rows, over the reals, with sine and cosine left open.
 */
module Transform {
  import opened Common

  const PI: real := 3.14159265358979323846

  type Grid = seq<seq<real>>

  /** Size of the matrices, the two factors, and the two functions of the mathematics library. */
  datatype Env = Env(n: nat, a: Grid, b: Grid, cos: real -> real, sin: real -> real)

  predicate Valid(e: Env) {
    IsGrid(e.a, e.n, e.n) && IsGrid(e.b, e.n, e.n)
  }

  /** The first t products of row i of a and column j of b. */
  function Dot(e: Env, i: nat, j: nat, t: nat): real
    requires Valid(e) && i < e.n && j < e.n && t <= e.n
  {
    if t == 0 then 0.0 else Dot(e, i, j, t - 1) + e.a[i][t - 1] * e.b[t - 1][j]
  }

  function Product(e: Env, i: nat, j: nat): real
    requires Valid(e) && i < e.n && j < e.n
  {
    Dot(e, i, j, e.n)
  }

  function Angle(n: nat, row: nat, col: nat, i: nat, j: nat): real
    requires n > 0
  {
    2.0 * PI * ((row as real / n as real) * i as real + (col as real / n as real) * j as real)
  }

  /** Real part, or else imaginary part, of what cell (i, j) adds to cell (row, col) of the transform. */
  function Summand(e: Env, x: real, re: bool, row: nat, col: nat, i: nat, j: nat): real
    requires e.n > 0
  {
    var power := Angle(e.n, row, col, i, j);
    x * if re then e.cos(power) else -e.sin(power)
  }

  /** The transform of c at (row, col), summed over the first i rows and the first j cells of row i. */
  function Partial(e: Env, c: Grid, re: bool, row: nat, col: nat, i: nat, j: nat): real
    requires e.n > 0 && IsGrid(c, e.n, e.n) && i <= e.n && j <= e.n && (j > 0 ==> i < e.n)
    decreases i, j
  {
    if j > 0 then Partial(e, c, re, row, col, i, j - 1) + Summand(e, c[i][j - 1], re, row, col, i, j - 1)
    else if i > 0 then Partial(e, c, re, row, col, i - 1, e.n)
    else 0.0
  }

  function Products(e: Env): (c: Grid)
    requires Valid(e)
    ensures IsGrid(c, e.n, e.n)
    ensures forall i: nat, j: nat :: i < e.n && j < e.n ==> c[i][j] == Product(e, i, j)
  {
    seq(e.n, (i: nat) requires i < e.n => seq(e.n, (j: nat) requires j < e.n => Product(e, i, j)))
  }

  /** The sequential answer: transform of the product. */
  function Answer(e: Env, re: bool, row: nat, col: nat): real
    requires Valid(e) && e.n > 0
  {
    Partial(e, Products(e), re, row, col, e.n, 0)
  }

  // ---------- one thread's loops ----------

  method MultiplyRowColumn(e: Env, i: nat, j: nat) returns (sum: real)
    requires Valid(e) && i < e.n && j < e.n
    ensures sum == Product(e, i, j)
  {
    sum := 0.0;
    for k := 0 to e.n
      invariant sum == Dot(e, i, j, k)
    {
      sum := sum + e.a[i][k] * e.b[k][j];
    }
  }

  /** Fills rows s .. end of the product and touches no other row. */
  method MultiplyMatrix(e: Env, c: array2<real>, s: nat, end: nat)
    requires Valid(e) && s <= end <= e.n && c.Length0 == e.n && c.Length1 == e.n
    modifies c
    ensures forall i: nat, j: nat :: i < e.n && j < e.n ==>
      c[i, j] == if s <= i < end then Product(e, i, j) else old(c[i, j])
  {
    for i := s to end
      invariant forall x: nat, y: nat :: x < e.n && y < e.n ==>
        c[x, y] == if s <= x < i then Product(e, x, y) else old(c[x, y])
    {
      for j := 0 to e.n
        invariant forall x: nat, y: nat :: x < e.n && y < e.n ==>
          c[x, y] == if s <= x < i || (x == i && y < j) then Product(e, x, y) else old(c[x, y])
      {
        var sum := MultiplyRowColumn(e, i, j);
        c[i, j] := sum;
      }
    }
  }

  ghost function Cells(c: array2<real>): (g: Grid)
    reads c
    ensures IsGrid(g, c.Length0, c.Length1)
    ensures forall i: nat, j: nat :: i < c.Length0 && j < c.Length1 ==> g[i][j] == c[i, j]
  {
    seq(c.Length0, (i: nat) requires i < c.Length0 reads c =>
      seq(c.Length1, (j: nat) requires j < c.Length1 reads c => c[i, j]))
  }

  method IterOverMatrix(e: Env, c: array2<real>, row: nat, col: nat) returns (realPart: real, imag: real)
    requires e.n > 0 && c.Length0 == e.n && c.Length1 == e.n
    ensures realPart == Partial(e, Cells(c), true, row, col, e.n, 0)
    ensures imag == Partial(e, Cells(c), false, row, col, e.n, 0)
  {
    realPart, imag := 0.0, 0.0;
    for i := 0 to e.n
      invariant realPart == Partial(e, Cells(c), true, row, col, i, 0)
      invariant imag == Partial(e, Cells(c), false, row, col, i, 0)
    {
      for j := 0 to e.n
        invariant realPart == Partial(e, Cells(c), true, row, col, i, j)
        invariant imag == Partial(e, Cells(c), false, row, col, i, j)
      {
        var power := Angle(e.n, row, col, i, j);
        realPart := realPart + c[i, j] * e.cos(power);
        imag := imag + c[i, j] * -e.sin(power);
      }
    }
  }

  /** The transform of rows s .. end, into response buffers that start at row 0. */
  method DiscreteTransform(e: Env, c: array2<real>, respRe: array2<real>, respIm: array2<real>, s: nat, end: nat)
    requires e.n > 0 && s <= end <= e.n && c.Length0 == e.n && c.Length1 == e.n
    requires respRe != respIm && respRe != c && respIm != c
    requires respRe.Length0 == respIm.Length0 == end - s && respRe.Length1 == respIm.Length1 == e.n
    modifies respRe, respIm
    ensures forall r: nat, k: nat :: r < end - s && k < e.n ==>
      && respRe[r, k] == Partial(e, Cells(c), true, r + s, k, e.n, 0)
      && respIm[r, k] == Partial(e, Cells(c), false, r + s, k, e.n, 0)
  {
    for r := 0 to end - s
      invariant forall x: nat, y: nat :: x < r && y < e.n ==>
        && respRe[x, y] == Partial(e, Cells(c), true, x + s, y, e.n, 0)
        && respIm[x, y] == Partial(e, Cells(c), false, x + s, y, e.n, 0)
    {
      for k := 0 to e.n
        invariant forall x: nat, y: nat :: x < end - s && y < e.n && (x < r || (x == r && y < k)) ==>
          && respRe[x, y] == Partial(e, Cells(c), true, x + s, y, e.n, 0)
          && respIm[x, y] == Partial(e, Cells(c), false, x + s, y, e.n, 0)
      {
        var re, im := IterOverMatrix(e, c, r + s, k);
        respRe[r, k] := re;
        respIm[r, k] := im;
      }
    }
  }

  // ---------- filling a matrix ----------

  /** Reads the matrix row by row from the bytes of the input file. */
  method PlaceTheMatrix(matrix: array2<real>, n: nat, content: seq<int>)
    requires matrix.Length0 == matrix.Length1 == n && n * n <= |content|
    modifies matrix
    ensures forall i: nat, j: nat :: i < n && j < n ==> (InRow(n, i, j); matrix[i, j] == content[i * n + j] as real)
  {
    for i := 0 to n
      invariant forall x: nat, y: nat :: x < i && y < n ==> (InRow(n, x, y); matrix[x, y] == content[x * n + y] as real)
    {
      for j := 0 to n
        invariant forall x: nat, y: nat :: x < n && y < n && (x < i || (x == i && y < j)) ==>
          (InRow(n, x, y); matrix[x, y] == content[x * n + y] as real)
      {
        InRow(n, i, j);
        matrix[i, j] := content[i * n + j] as real;
      }
    }
  }

  // ---------- laws of the transform ----------

  function Mix(a: real, x: real, b: real, y: real): real {
    a * x + b * y
  }

  lemma MixTimes(a: real, x: real, b: real, y: real, t: real)
    ensures Mix(a, x, b, y) * t == Mix(a, x * t, b, y * t)
  {
  }

  lemma MixAdds(a: real, p: real, x: real, b: real, q: real, y: real)
    ensures Mix(a, p, b, q) + Mix(a, x, b, y) == Mix(a, p + x, b, q + y)
  {
  }

  lemma SummandLinear(e: Env, x: real, y: real, a: real, b: real, re: bool, row: nat, col: nat, i: nat, j: nat)
    requires e.n > 0
    ensures Summand(e, Mix(a, x, b, y), re, row, col, i, j)
         == Mix(a, Summand(e, x, re, row, col, i, j), b, Summand(e, y, re, row, col, i, j))
  {
    var power := Angle(e.n, row, col, i, j);
    MixTimes(a, x, b, y, if re then e.cos(power) else -e.sin(power));
  }

  /** The transform of a combination of two matrices is the combination of their transforms. */
  lemma {:induction false} TransformLinear(e: Env, c: Grid, d: Grid, g: Grid, a: real, b: real,
                                           re: bool, row: nat, col: nat, i: nat, j: nat)
    requires e.n > 0 && IsGrid(c, e.n, e.n) && IsGrid(d, e.n, e.n) && IsGrid(g, e.n, e.n)
    requires forall x: nat, y: nat :: x < e.n && y < e.n ==> g[x][y] == Mix(a, c[x][y], b, d[x][y])
    requires i <= e.n && j <= e.n && (j > 0 ==> i < e.n)
    ensures Partial(e, g, re, row, col, i, j)
         == Mix(a, Partial(e, c, re, row, col, i, j), b, Partial(e, d, re, row, col, i, j))
    decreases i, j
  {
    if j > 0 {
      TransformLinear(e, c, d, g, a, b, re, row, col, i, j - 1);
      SummandLinear(e, c[i][j - 1], d[i][j - 1], a, b, re, row, col, i, j - 1);
      MixAdds(a, Partial(e, c, re, row, col, i, j - 1), Summand(e, c[i][j - 1], re, row, col, i, j - 1),
              b, Partial(e, d, re, row, col, i, j - 1), Summand(e, d[i][j - 1], re, row, col, i, j - 1));
    } else if i > 0 {
      TransformLinear(e, c, d, g, a, b, re, row, col, i - 1, e.n);
    } else {
      MixAdds(a, 0.0, 0.0, b, 0.0, 0.0);
    }
  }

  function FullTurns(k: nat): real {
    2.0 * PI * k as real
  }

  /** What the two functions do under reflection at a multiple of half a turn, as cosine and sine do. */
  ghost predicate Reflects(e: Env) {
    forall k: nat, x: real :: e.cos(FullTurns(k) - x) == e.cos(x) && e.sin(FullTurns(k) - x) == -e.sin(x)
  }

  lemma OtherShare(r: real, m: real)
    requires m > 0.0
    ensures (m - r) / m == 1.0 - r / m
  {
    var f := r / m;
    assert f * m == r;
    assert (1.0 - f) * m == m - f * m;
    DivisionUnique(1.0 - f, m - r, m);
  }

  lemma MirrorFraction(n: nat, row: nat, i: nat)
    requires 0 < n && row <= n
    ensures ((n - row) as real / n as real) * i as real == i as real - (row as real / n as real) * i as real
  {
    var f := row as real / n as real;
    OtherShare(row as real, n as real);
    assert (n - row) as real == n as real - row as real;
    assert (1.0 - f) * i as real == i as real - f * i as real;
  }

  lemma MirrorAngle(n: nat, row: nat, col: nat, i: nat, j: nat)
    requires 0 < n && row <= n && col <= n
    ensures Angle(n, n - row, n - col, i, j) == FullTurns(i + j) - Angle(n, row, col, i, j)
  {
    MirrorFraction(n, row, i);
    MirrorFraction(n, col, j);
    assert (i + j) as real == i as real + j as real;
  }

  lemma MirrorSummand(e: Env, x: real, row: nat, col: nat, i: nat, j: nat)
    requires e.n > 0 && row <= e.n && col <= e.n && Reflects(e)
    ensures Summand(e, x, true, e.n - row, e.n - col, i, j) == Summand(e, x, true, row, col, i, j)
    ensures Summand(e, x, false, e.n - row, e.n - col, i, j) == -Summand(e, x, false, row, col, i, j)
  {
    MirrorAngle(e.n, row, col, i, j);
    var power := Angle(e.n, row, col, i, j);
    assert e.cos(FullTurns(i + j) - power) == e.cos(power);
    assert e.sin(FullTurns(i + j) - power) == -e.sin(power);
  }

  /** The transform of a real matrix is conjugate symmetric: equal real parts, opposite imaginary parts. */
  lemma {:induction false} ConjugateSymmetric(e: Env, c: Grid, row: nat, col: nat, i: nat, j: nat)
    requires e.n > 0 && IsGrid(c, e.n, e.n) && row <= e.n && col <= e.n && Reflects(e)
    requires i <= e.n && j <= e.n && (j > 0 ==> i < e.n)
    ensures Partial(e, c, true, e.n - row, e.n - col, i, j) == Partial(e, c, true, row, col, i, j)
    ensures Partial(e, c, false, e.n - row, e.n - col, i, j) == -Partial(e, c, false, row, col, i, j)
    decreases i, j
  {
    if j > 0 {
      ConjugateSymmetric(e, c, row, col, i, j - 1);
      MirrorSummand(e, c[i][j - 1], row, col, i, j - 1);
    } else if i > 0 {
      ConjugateSymmetric(e, c, row, col, i - 1, e.n);
    }
  }

  // ---------- what the transform does to one impulse ----------

  /** A matrix with a single 1, in cell (p, q). */
  ghost predicate IsImpulse(c: Grid, n: nat, p: nat, q: nat) {
    IsGrid(c, n, n) && p < n && q < n
    && forall i: nat, j: nat :: i < n && j < n ==> c[i][j] == if i == p && j == q then 1.0 else 0.0
  }

  lemma {:induction false} PartialOfImpulse(e: Env, c: Grid, re: bool, row: nat, col: nat, p: nat, q: nat,
                                            i: nat, j: nat)
    requires e.n > 0 && IsImpulse(c, e.n, p, q) && i <= e.n && j <= e.n && (j > 0 ==> i < e.n)
    ensures Partial(e, c, re, row, col, i, j)
         == if i > p || (i == p && j > q) then Summand(e, 1.0, re, row, col, p, q) else 0.0
    decreases i, j
  {
    if j > 0 {
      PartialOfImpulse(e, c, re, row, col, p, q, i, j - 1);
    } else if i > 0 {
      PartialOfImpulse(e, c, re, row, col, p, q, i - 1, e.n);
    }
  }

  /** Its transform at (row, col) is the point on the circle at this angle. */
  lemma ImpulseResponse(e: Env, c: Grid, row: nat, col: nat, p: nat, q: nat)
    requires e.n > 0 && IsImpulse(c, e.n, p, q)
    ensures var x := 2.0 * 3.14159265358979323846
                     * ((row as real / e.n as real) * p as real + (col as real / e.n as real) * q as real);
      && Partial(e, c, true, row, col, e.n, 0) == e.cos(x)
      && Partial(e, c, false, row, col, e.n, 0) == -e.sin(x)
  {
    PartialOfImpulse(e, c, true, row, col, p, q, e.n, 0);
    PartialOfImpulse(e, c, false, row, col, p, q, e.n, 0);
    var turns := (row as real / e.n as real) * p as real + (col as real / e.n as real) * q as real;
    assert Angle(e.n, row, col, p, q) == 2.0 * 3.14159265358979323846 * turns;
  }

  // ---------- what the product does to two impulses ----------

  lemma {:induction false} DotOfImpulses(e: Env, p: nat, q: nat, r: nat, s: nat, i: nat, j: nat, t: nat)
    requires IsImpulse(e.a, e.n, p, q) && IsImpulse(e.b, e.n, r, s) && i < e.n && j < e.n && t <= e.n
    ensures Dot(e, i, j, t) == if i == p && j == s && q == r && q < t then 1.0 else 0.0
  {
    if t > 0 {
      DotOfImpulses(e, p, q, r, s, i, j, t - 1);
      assert e.a[i][t - 1] == if i == p && t - 1 == q then 1.0 else 0.0;
      assert e.b[t - 1][j] == if t - 1 == r && j == s then 1.0 else 0.0;
    }
  }

  /** A 1 in (p, q) times a 1 in (r, s) is a 1 in (p, s) if q is r, and else nothing. */
  lemma ProductOfImpulses(e: Env, p: nat, q: nat, r: nat, s: nat, i: nat, j: nat)
    requires IsImpulse(e.a, e.n, p, q) && IsImpulse(e.b, e.n, r, s) && i < e.n && j < e.n
    ensures Product(e, i, j) == if i == p && j == s && q == r then 1.0 else 0.0
  {
    DotOfImpulses(e, p, q, r, s, i, j, e.n);
  }

  lemma TimesMix(t: real, a: real, x: real, b: real, y: real)
    ensures t * Mix(a, x, b, y) == Mix(a, t * x, b, t * y)
  {
  }

  ghost predicate IsMix(n: nat, g: Grid, a: real, c: Grid, b: real, d: Grid) {
    IsGrid(g, n, n) && IsGrid(c, n, n) && IsGrid(d, n, n)
    && forall x: nat, y: nat :: x < n && y < n ==> g[x][y] == Mix(a, c[x][y], b, d[x][y])
  }

  lemma {:induction false} DotLinearLeft(e: Env, c: Grid, d: Grid, a: real, b: real, i: nat, j: nat, t: nat)
    requires Valid(e) && IsMix(e.n, e.a, a, c, b, d) && i < e.n && j < e.n && t <= e.n
    ensures Dot(e, i, j, t) == Mix(a, Dot(e.(a := c), i, j, t), b, Dot(e.(a := d), i, j, t))
  {
    if t > 0 {
      DotLinearLeft(e, c, d, a, b, i, j, t - 1);
      MixTimes(a, c[i][t - 1], b, d[i][t - 1], e.b[t - 1][j]);
      MixAdds(a, Dot(e.(a := c), i, j, t - 1), c[i][t - 1] * e.b[t - 1][j],
              b, Dot(e.(a := d), i, j, t - 1), d[i][t - 1] * e.b[t - 1][j]);
    } else {
      MixAdds(a, 0.0, 0.0, b, 0.0, 0.0);
    }
  }

  lemma {:induction false} DotLinearRight(e: Env, c: Grid, d: Grid, a: real, b: real, i: nat, j: nat, t: nat)
    requires Valid(e) && IsMix(e.n, e.b, a, c, b, d) && i < e.n && j < e.n && t <= e.n
    ensures Dot(e, i, j, t) == Mix(a, Dot(e.(b := c), i, j, t), b, Dot(e.(b := d), i, j, t))
  {
    if t > 0 {
      DotLinearRight(e, c, d, a, b, i, j, t - 1);
      TimesMix(e.a[i][t - 1], a, c[t - 1][j], b, d[t - 1][j]);
      MixAdds(a, Dot(e.(b := c), i, j, t - 1), e.a[i][t - 1] * c[t - 1][j],
              b, Dot(e.(b := d), i, j, t - 1), e.a[i][t - 1] * d[t - 1][j]);
    } else {
      MixAdds(a, 0.0, 0.0, b, 0.0, 0.0);
    }
  }

  /** The product is linear in each factor. */
  lemma ProductLinear(e: Env, c: Grid, d: Grid, a: real, b: real, i: nat, j: nat)
    requires Valid(e) && i < e.n && j < e.n
    ensures IsMix(e.n, e.a, a, c, b, d) ==>
      Product(e, i, j) == a * Product(e.(a := c), i, j) + b * Product(e.(a := d), i, j)
    ensures IsMix(e.n, e.b, a, c, b, d) ==>
      Product(e, i, j) == a * Product(e.(b := c), i, j) + b * Product(e.(b := d), i, j)
  {
    if IsMix(e.n, e.a, a, c, b, d) {
      DotLinearLeft(e, c, d, a, b, i, j, e.n);
    }
    if IsMix(e.n, e.b, a, c, b, d) {
      DotLinearRight(e, c, d, a, b, i, j, e.n);
    }
  }
}
