/**
 What a non-zero determinant means: the rows are linearly independent over the integers, and the
 matrix has an inverse up to a non-zero integer factor (that is, an inverse over the rationals).
 */
module Invertibility {
  import opened Common
  import opened Sums
  import opened Laplace

  /** Column j of the combination of the first k rows with the weights c. */
  function Weighted(c: seq<int>, m: Matrix, k: nat, j: nat): int
    requires k <= |c| && k <= |m| && forall i :: 0 <= i < k ==> j < |m[i]|
  {
    if k == 0 then 0 else Weighted(c, m, k - 1, j) + c[k - 1] * m[k - 1][j]
  }

  /** The weights c are not all zero, and combine the k rows of width w to the zero row. */
  ghost predicate Vanishes(c: seq<int>, m: Matrix, k: nat, w: nat)
    requires IsGrid(m, k, w)
  {
    && |c| == k
    && (exists i :: 0 <= i < k && c[i] != 0)
    && (forall j: nat :: j < w ==> Weighted(c, m, k, j) == 0)
  }

  ghost predicate Dependent(m: Matrix, k: nat, w: nat)
    requires IsGrid(m, k, w)
  {
    exists c :: Vanishes(c, m, k, w)
  }

  // ---------- dependent rows have determinant zero ----------

  function Zeros(n: nat): (r: seq<int>)
    ensures |r| == n && forall i :: 0 <= i < n ==> r[i] == 0
  {
    seq(n, _ => 0)
  }

  /** The combination of the first t rows, as a row. */
  function Combination(c: seq<int>, m: Matrix, n: nat, t: nat): (r: seq<int>)
    requires IsSquare(m, n) && |c| == n && t <= n
    ensures |r| == n
  {
    if t == 0 then Zeros(n) else Combine(1, Combination(c, m, n, t - 1), c[t - 1], m[t - 1])
  }

  lemma {:induction false} CombinationIsWeighted(c: seq<int>, m: Matrix, n: nat, t: nat, j: nat)
    requires IsSquare(m, n) && |c| == n && t <= n && j < n
    ensures Combination(c, m, n, t)[j] == Weighted(c, m, t, j)
  {
    if t > 0 {
      CombinationIsWeighted(c, m, n, t - 1, j);
    }
  }

  lemma DetZeroRow(m: Matrix, n: nat, k: nat)
    requires IsSquare(m, n) && k < n && m[k] == Zeros(n)
    ensures Det(m, n) == 0
  {
    DetRowLinear(m, n, k, 0, m[k], 0, m[k]);
    assert Combine(0, m[k], 0, m[k]) == m[k];
    assert m[k := m[k]] == m;
  }

  /** Only the k-th row itself contributes when row k is replaced by a combination of all rows. */
  lemma {:induction false} DetOfCombination(c: seq<int>, m: Matrix, n: nat, k: nat, t: nat)
    requires IsSquare(m, n) && |c| == n && k < n && t <= n
    ensures Det(m[k := Combination(c, m, n, t)], n) == if k < t then c[k] * Det(m, n) else 0
  {
    if t == 0 {
      DetZeroRow(m[k := Zeros(n)], n, k);
    } else {
      DetOfCombination(c, m, n, k, t - 1);
      DetRowLinear(m, n, k, 1, Combination(c, m, n, t - 1), c[t - 1], m[t - 1]);
      if t - 1 == k {
        assert m[k := m[k]] == m;
      } else {
        DetEqualRows(m[k := m[t - 1]], n, k, t - 1);
      }
    }
  }

  lemma DependentHasZeroDet(m: Matrix, n: nat)
    requires IsSquare(m, n) && Dependent(m, n, n)
    ensures Det(m, n) == 0
  {
    var c :| Vanishes(c, m, n, n);
    var k: nat :| k < n && c[k] != 0;
    forall j: nat | j < n
      ensures Combination(c, m, n, n)[j] == 0
    {
      CombinationIsWeighted(c, m, n, n, j);
    }
    assert Combination(c, m, n, n) == Zeros(n);
    DetOfCombination(c, m, n, k, n);
    DetZeroRow(m[k := Zeros(n)], n, k);
  }

  // ---------- determinant zero makes the rows dependent ----------

  /** Row i + 1 with its first entry cleared by the pivot row 0, and that entry dropped. */
  function Reduced(m: Matrix, k: nat, w: nat): (r: Matrix)
    requires k > 0 && w > 0 && IsGrid(m, k, w)
    ensures IsGrid(r, k - 1, w - 1)
  {
    seq(k - 1, i requires 0 <= i < k - 1 => DropAt(Combine(m[0][0], m[i + 1], -m[i + 1][0], m[0]), 0))
  }

  lemma {:induction false} WeightedFront(x: int, c: seq<int>, m: Matrix, k: nat, w: nat, j: nat)
    requires IsGrid(m, |c| + 1, w) && j < w && k <= |c|
    ensures Weighted([x] + c, m, k + 1, j) == x * m[0][j] + Weighted(c, m[1..], k, j)
  {
    var d := [x] + c;
    if k == 0 {
      assert Weighted(d, m, 1, j) == Weighted(d, m, 0, j) + d[0] * m[0][j];
    } else {
      WeightedFront(x, c, m, k - 1, w, j);
      assert d[k] == c[k - 1] && m[1..][k - 1] == m[k];
    }
  }

  function Scaled(a: int, c: seq<int>): (r: seq<int>)
    ensures |r| == |c| && forall i :: 0 <= i < |c| ==> r[i] == a * c[i]
  {
    seq(|c|, i requires 0 <= i < |c| => a * c[i])
  }

  lemma EliminationStep(s: int, a: int, v: int, x: int, p: int, y: int, z: int)
    ensures s + (a * v) * x - (p + v * y) * z == (s - p * z) + v * (a * x + (-y) * z)
  {
    assert (p + v * y) * z == p * z + v * (y * z);
    assert v * (a * x + (-y) * z) == v * (a * x) - v * (y * z);
    assert (a * v) * x == v * (a * x);
  }

  lemma CancelPivot(a: int, y: int, v: int)
    ensures a * y + (-y) * a == 0 && v * (a * y + (-y) * a) == 0
  {
    assert a * y + (-y) * a == 0;
  }

  /** Column j of the combination of reduced rows, in terms of the rows they came from. */
  lemma {:induction false} WeightedReduced(c: seq<int>, m: Matrix, k: nat, w: nat, t: nat, j: nat)
    requires w > 0 && IsGrid(m, k + 1, w) && |c| == k && t <= k && j < w
    ensures Weighted(Scaled(m[0][0], c), m[1..], t, j) - Weighted(c, m[1..], t, 0) * m[0][j]
         == if j == 0 then 0 else Weighted(c, Reduced(m, k + 1, w), t, j - 1)
  {
    if t > 0 {
      WeightedReduced(c, m, k, w, t - 1, j);
      var row := m[1..][t - 1];
      EliminationStep(Weighted(Scaled(m[0][0], c), m[1..], t - 1, j), m[0][0], c[t - 1], row[j],
                      Weighted(c, m[1..], t - 1, 0), row[0], m[0][j]);
      if j == 0 {
        CancelPivot(m[0][0], row[0], c[t - 1]);
      } else {
        assert Reduced(m, k + 1, w)[t - 1][j - 1] == m[0][0] * row[j] + (-row[0]) * m[0][j];
      }
    }
  }

  lemma MinusTimes(p: int, z: int)
    ensures (-p) * z == -(p * z)
  {
  }

  lemma LiftedTail(c: seq<int>, m: Matrix, k: nat, w: nat, j: nat)
    requires w > 0 && IsGrid(m, k + 1, w) && |c| == k && j < w
    requires j > 0 ==> Weighted(c, Reduced(m, k + 1, w), k, j - 1) == 0
    ensures Weighted(Scaled(m[0][0], c), m[1..], k, j) == Weighted(c, m[1..], k, 0) * m[0][j]
  {
    WeightedReduced(c, m, k, w, k, j);
  }

  lemma LiftedColumn(c: seq<int>, m: Matrix, k: nat, w: nat, j: nat)
    requires w > 0 && IsGrid(m, k + 1, w) && |c| == k && j < w
    requires j > 0 ==> Weighted(c, Reduced(m, k + 1, w), k, j - 1) == 0
    ensures Weighted([-Weighted(c, m[1..], k, 0)] + Scaled(m[0][0], c), m, k + 1, j) == 0
  {
    var p := Weighted(c, m[1..], k, 0);
    LiftedTail(c, m, k, w, j);
    WeightedFront(-p, Scaled(m[0][0], c), m, k, w, j);
    MinusTimes(p, m[0][j]);
  }

  /** A dependence between the reduced rows lifts to one between the rows. */
  lemma LiftDependence(m: Matrix, k: nat, w: nat)
    requires k > 0 && w > 0 && IsGrid(m, k, w) && m[0][0] != 0
    requires Dependent(Reduced(m, k, w), k - 1, w - 1)
    ensures Dependent(m, k, w)
  {
    var c :| Vanishes(c, Reduced(m, k, w), k - 1, w - 1);
    var d := [-Weighted(c, m[1..], k - 1, 0)] + Scaled(m[0][0], c);
    var i :| 0 <= i < k - 1 && c[i] != 0;
    assert d[i + 1] == m[0][0] * c[i] != 0;
    forall j: nat | j < w
      ensures Weighted(d, m, k, j) == 0
    {
      LiftedColumn(c, m, k - 1, w, j);
    }
    assert Vanishes(d, m, k, w);
  }

  lemma {:induction false} WeightedSame(c: seq<int>, m: Matrix, t: nat, j: nat, c': seq<int>, m': Matrix, j': nat)
    requires t <= |c| && t <= |m| && t <= |c'| && t <= |m'|
    requires forall i :: 0 <= i < t ==> j < |m[i]| && j' < |m'[i]| && c[i] == c'[i] && m[i][j] == m'[i][j']
    ensures Weighted(c, m, t, j) == Weighted(c', m', t, j')
  {
    if t > 0 {
      WeightedSame(c, m, t - 1, j, c', m', j');
    }
  }

  lemma {:induction false} WeightedExchange(c: seq<int>, m: Matrix, k: nat, r: nat, t: nat, j: nat)
    requires |c| == k && |m| == k && 0 < r < k && t <= k && forall i :: 0 <= i < k ==> j < |m[i]|
    ensures Weighted(c[0 := c[r]][r := c[0]], SwapRows(m, 0, r), t, j)
         == Weighted(c, m, t, j)
          + (if 0 < t <= r then c[r] * m[r][j] - c[0] * m[0][j] else 0)
  {
    if t > 0 {
      WeightedExchange(c, m, k, r, t - 1, j);
    }
  }

  lemma DependentExchange(m: Matrix, k: nat, w: nat, r: nat)
    requires IsGrid(m, k, w) && 0 < r < k
    requires Dependent(SwapRows(m, 0, r), k, w)
    ensures Dependent(m, k, w)
  {
    var s := SwapRows(m, 0, r);
    var c :| Vanishes(c, s, k, w);
    var d := c[0 := c[r]][r := c[0]];
    var i :| 0 <= i < k && c[i] != 0;
    assert d[if i == 0 then r else if i == r then 0 else i] != 0;
    assert SwapRows(s, 0, r) == m;
    forall j: nat | j < w
      ensures Weighted(d, m, k, j) == 0
    {
      WeightedExchange(c, s, k, r, k, j);
    }
    assert Vanishes(d, m, k, w);
  }

  function DropColumn(m: Matrix, k: nat, w: nat): (r: Matrix)
    requires w > 0 && IsGrid(m, k, w)
    ensures IsGrid(r, k, w - 1)
  {
    seq(k, i requires 0 <= i < k => DropAt(m[i], 0))
  }

  lemma {:induction false} ZeroColumnVanishes(c: seq<int>, m: Matrix, t: nat)
    requires t <= |c| && t <= |m| && forall i :: 0 <= i < t ==> |m[i]| > 0 && m[i][0] == 0
    ensures Weighted(c, m, t, 0) == 0
  {
    if t > 0 {
      ZeroColumnVanishes(c, m, t - 1);
    }
  }

  lemma DependentWithoutColumn(m: Matrix, k: nat, w: nat)
    requires w > 0 && IsGrid(m, k, w) && forall i :: 0 <= i < k ==> m[i][0] == 0
    requires Dependent(DropColumn(m, k, w), k, w - 1)
    ensures Dependent(m, k, w)
  {
    var d := DropColumn(m, k, w);
    var c :| Vanishes(c, d, k, w - 1);
    forall j: nat | j < w
      ensures Weighted(c, m, k, j) == 0
    {
      if j == 0 {
        ZeroColumnVanishes(c, m, k);
      } else {
        WeightedSame(c, m, k, j, c, d, j - 1);
      }
    }
    assert Vanishes(c, m, k, w);
  }

  /** More rows than columns are always dependent. */
  lemma {:induction false} TooManyRows(m: Matrix, k: nat, w: nat)
    requires IsGrid(m, k, w) && k > w
    ensures Dependent(m, k, w)
    decreases w, 1
  {
    if w == 0 {
      var c := [1] + Zeros(k - 1);
      assert c[0] != 0;
      assert Vanishes(c, m, k, 0);
    } else if r: nat :| r < k && m[r][0] != 0 {
      if r == 0 {
        TooManyRowsPivot(m, k, w);
      } else {
        TooManyRowsPivot(SwapRows(m, 0, r), k, w);
        DependentExchange(m, k, w, r);
      }
    } else {
      TooManyRows(DropColumn(m, k, w), k, w - 1);
      DependentWithoutColumn(m, k, w);
    }
  }

  lemma {:induction false} TooManyRowsPivot(m: Matrix, k: nat, w: nat)
    requires w > 0 && IsGrid(m, k, w) && k > w && m[0][0] != 0
    ensures Dependent(m, k, w)
    decreases w, 0
  {
    TooManyRows(Reduced(m, k, w), k - 1, w - 1);
    LiftDependence(m, k, w);
  }

  function Power(a: int, t: nat): int {
    if t == 0 then 1 else a * Power(a, t - 1)
  }

  /** The matrix with the first entry of rows 1 .. t cleared by row 0. */
  function Cleared(m: Matrix, n: nat, t: nat): (r: Matrix)
    requires IsSquare(m, n) && t < n
    ensures IsSquare(r, n)
    ensures forall i :: 0 <= i < n ==>
      r[i] == if 0 < i <= t then Combine(m[0][0], m[i], -m[i][0], m[0]) else m[i]
  {
    seq(n, i requires 0 <= i < n => if 0 < i <= t then Combine(m[0][0], m[i], -m[i][0], m[0]) else m[i])
  }

  lemma PowerStep(a: int, t: nat, x: int, y: int, d: int)
    requires t > 0 && d == a * (Power(a, t - 1) * x) + y * 0
    ensures d == Power(a, t) * x
  {
    assert (a * Power(a, t - 1)) * x == a * (Power(a, t - 1) * x);
  }

  /** Clearing row t multiplies the determinant by the pivot. */
  lemma DetClearsRow(p: Matrix, n: nat, t: nat, a: int, b: int)
    requires IsSquare(p, n) && 0 < t < n
    ensures Det(p[t := Combine(a, p[t], b, p[0])], n) == a * Det(p, n) + b * 0
  {
    DetRowLinear(p, n, t, a, p[t], b, p[0]);
    assert p[t := p[t]] == p;
    DetEqualRows(p[t := p[0]], n, 0, t);
  }

  lemma ClearedNext(m: Matrix, n: nat, t: nat)
    requires IsSquare(m, n) && 0 < t < n
    ensures var p := Cleared(m, n, t - 1); Cleared(m, n, t) == p[t := Combine(m[0][0], p[t], -m[t][0], p[0])]
  {
  }

  lemma {:induction false} DetCleared(m: Matrix, n: nat, t: nat)
    requires IsSquare(m, n) && t < n
    ensures Det(Cleared(m, n, t), n) == Power(m[0][0], t) * Det(m, n)
  {
    if t == 0 {
      assert Cleared(m, n, 0) == m;
    } else {
      DetCleared(m, n, t - 1);
      ClearedNext(m, n, t);
      DetClearsRow(Cleared(m, n, t - 1), n, t, m[0][0], -m[t][0]);
      PowerStep(m[0][0], t, Det(m, n), -m[t][0], Det(Cleared(m, n, t), n));
    }
  }

  lemma {:induction false} DetZeroColumn(m: Matrix, n: nat)
    requires n > 0 && IsSquare(m, n) && forall i :: 0 <= i < n ==> m[i][0] == 0
    ensures Det(m, n) == 0
    decreases n
  {
    DetIsExpansion(m, n);
    forall f: nat | f < n
      ensures Term(m, n, f) == 0
    {
      if f > 0 {
        var d := Minor(m, n, 0, f);
        assert forall i: nat :: i < n - 1 ==> d[i][0] == m[Skip(0, i)][Skip(f, 0)];
        DetZeroColumn(d, n - 1);
      }
    }
    var z := (f: nat) => 0;
    ExpandIsSum(m, n, n, z);
    SumSingle(n, z, n);
  }

  /** With only the pivot in the first column, the determinant is the pivot times its minor. */
  lemma DetOfPivot(m: Matrix, n: nat)
    requires n > 0 && IsSquare(m, n) && forall i :: 0 < i < n ==> m[i][0] == 0
    ensures Det(m, n) == m[0][0] * Det(Minor(m, n, 0, 0), n - 1)
  {
    DetIsExpansion(m, n);
    var t := (f: nat) => if f == 0 then Term(m, n, 0) else 0;
    forall f: nat | f < n
      ensures Term(m, n, f) == t(f)
    {
      if f > 0 {
        var d := Minor(m, n, 0, f);
        assert forall i: nat :: i < n - 1 ==> d[i][0] == m[Skip(0, i)][Skip(f, 0)];
        DetZeroColumn(d, n - 1);
      }
    }
    ExpandIsSum(m, n, n, t);
    SumSingle(n, t, 0);
  }

  lemma MinorRow(m: Matrix, n: nat, i: nat)
    requires IsSquare(m, n) && i < n - 1
    ensures Minor(m, n, 0, 0)[i] == DropAt(m[i + 1], 0)
  {
  }

  lemma ReducedAt(m: Matrix, k: nat, w: nat, i: nat)
    requires k > 0 && w > 0 && IsGrid(m, k, w) && i < k - 1
    ensures Reduced(m, k, w)[i] == DropAt(Combine(m[0][0], m[i + 1], -m[i + 1][0], m[0]), 0)
  {
  }

  lemma ClearedAt(m: Matrix, n: nat, i: nat)
    requires IsSquare(m, n) && 0 < i < n
    ensures Cleared(m, n, n - 1)[i] == Combine(m[0][0], m[i], -m[i][0], m[0])
  {
  }

  lemma ReducedRow(m: Matrix, n: nat, i: nat)
    requires IsSquare(m, n) && i < n - 1
    ensures Reduced(m, n, n)[i] == DropAt(Cleared(m, n, n - 1)[i + 1], 0)
  {
    ReducedAt(m, n, n, i);
    ClearedAt(m, n, i + 1);
  }

  lemma ClearedMinor(m: Matrix, n: nat)
    requires n > 0 && IsSquare(m, n)
    ensures Minor(Cleared(m, n, n - 1), n, 0, 0) == Reduced(m, n, n)
  {
    var p := Cleared(m, n, n - 1);
    var x, y := Minor(p, n, 0, 0), Reduced(m, n, n);
    forall i: nat | i < n - 1
      ensures x[i] == y[i]
    {
      MinorRow(p, n, i);
      ReducedRow(m, n, i);
    }
  }

  lemma ClearedColumn(m: Matrix, n: nat, i: nat)
    requires IsSquare(m, n) && 0 < i < n
    ensures Cleared(m, n, n - 1)[i][0] == 0
  {
    CancelPivot(m[0][0], m[i][0], 1);
  }

  lemma DetReduced(m: Matrix, n: nat)
    requires n > 0 && IsSquare(m, n) && m[0][0] != 0 && Det(m, n) == 0
    ensures Det(Reduced(m, n, n), n - 1) == 0
  {
    var p := Cleared(m, n, n - 1);
    DetCleared(m, n, n - 1);
    forall i | 0 < i < n
      ensures p[i][0] == 0
    {
      ClearedColumn(m, n, i);
    }
    DetOfPivot(p, n);
    ClearedMinor(m, n);
  }

  lemma {:induction false} ZeroDetIsDependent(m: Matrix, n: nat)
    requires n > 0 && IsSquare(m, n) && Det(m, n) == 0
    ensures Dependent(m, n, n)
    decreases n, 1
  {
    if r: nat :| r < n && m[r][0] != 0 {
      if r == 0 {
        ZeroDetPivot(m, n);
      } else {
        DetSwap(m, n, 0, r);
        ZeroDetPivot(SwapRows(m, 0, r), n);
        DependentExchange(m, n, n, r);
      }
    } else {
      TooManyRows(DropColumn(m, n, n), n, n - 1);
      DependentWithoutColumn(m, n, n);
    }
  }

  lemma {:induction false} ZeroDetPivot(m: Matrix, n: nat)
    requires n > 0 && IsSquare(m, n) && Det(m, n) == 0 && m[0][0] != 0
    ensures Dependent(m, n, n)
    decreases n, 0
  {
    DetReduced(m, n);
    if n > 1 {
      ZeroDetIsDependent(Reduced(m, n, n), n - 1);
      LiftDependence(m, n, n);
    }
  }

  /** The determinant is zero exactly when some non-zero combination of the rows is the zero row. */
  lemma ZeroDetIffDependent(m: Matrix, n: nat)
    requires n > 0 && IsSquare(m, n)
    ensures Det(m, n) == 0 <==> Dependent(m, n, n)
  {
    if Det(m, n) == 0 {
      ZeroDetIsDependent(m, n);
    } else if Dependent(m, n, n) {
      DependentHasZeroDet(m, n);
    }
  }

  // ---------- inverse up to a factor ----------

  /** Entry (i, j) of the product of m and b. */
  function ProductEntry(m: Matrix, b: Matrix, n: nat, i: nat, j: nat): int
    requires IsSquare(m, n) && IsSquare(b, n) && i < n && j < n
  {
    Sum(n, (k: nat) => if k < n then m[i][k] * b[k][j] else 0)
  }

  /** The product of m and b is d times the identity. */
  ghost predicate InverseUpTo(m: Matrix, b: Matrix, n: nat, d: int)
    requires IsSquare(m, n)
  {
    && IsSquare(b, n)
    && forall i: nat, j: nat :: i < n && j < n ==> ProductEntry(m, b, n, i, j) == if i == j then d else 0
  }

  ghost predicate Invertible(m: Matrix, n: nat)
    requires IsSquare(m, n)
  {
    exists b, d :: d != 0 && InverseUpTo(m, b, n, d)
  }

  function Unit(n: nat, k: nat): (r: seq<int>)
    ensures |r| == n && forall i :: 0 <= i < n ==> r[i] == if i == k then 1 else 0
  {
    seq(n, i => if i == k then 1 else 0)
  }

  function Adjugate(m: Matrix, n: nat): (r: Matrix)
    requires IsSquare(m, n)
    ensures IsSquare(r, n)
    ensures forall k: nat, j: nat :: k < n && j < n ==> r[k][j] == Det(m[j := Unit(n, k)], n)
  {
    seq(n, (k: nat) requires k < n => seq(n, (j: nat) requires j < n => Det(m[j := Unit(n, k)], n)))
  }

  function Prefix(v: seq<int>, t: nat): (r: seq<int>)
    requires t <= |v|
    ensures |r| == |v| && forall i :: 0 <= i < |v| ==> r[i] == if i < t then v[i] else 0
  {
    seq(|v|, i requires 0 <= i < |v| => if i < t then v[i] else 0)
  }

  /** Linearity over the unit rows. */
  lemma {:induction false} DetByUnits(m: Matrix, n: nat, j: nat, v: seq<int>, t: nat, f: nat -> int)
    requires IsSquare(m, n) && j < n && |v| == n && t <= n
    requires forall k: nat :: k < n ==> f(k) == v[k] * Det(m[j := Unit(n, k)], n)
    ensures Det(m[j := Prefix(v, t)], n) == Sum(t, f)
  {
    if t == 0 {
      assert Prefix(v, 0) == Zeros(n);
      DetZeroRow(m[j := Zeros(n)], n, j);
    } else {
      DetByUnits(m, n, j, v, t - 1, f);
      DetRowLinear(m, n, j, 1, Prefix(v, t - 1), v[t - 1], Unit(n, t - 1));
      assert Prefix(v, t) == Combine(1, Prefix(v, t - 1), v[t - 1], Unit(n, t - 1));
    }
  }

  /** A matrix times its adjugate is its determinant times the identity. */
  lemma AdjugateInverts(m: Matrix, n: nat)
    requires IsSquare(m, n)
    ensures InverseUpTo(m, Adjugate(m, n), n, Det(m, n))
  {
    var b := Adjugate(m, n);
    forall i: nat, j: nat | i < n && j < n
      ensures ProductEntry(m, b, n, i, j) == if i == j then Det(m, n) else 0
    {
      var f := (k: nat) => if k < n then m[i][k] * b[k][j] else 0;
      SumEqual(n, f, (k: nat) => if k < n then m[i][k] * b[k][j] else 0);
      DetByUnits(m, n, j, m[i], n, f);
      assert Prefix(m[i], n) == m[i];
      if i == j {
        assert m[j := m[i]] == m;
      } else {
        DetEqualRows(m[j := m[i]], n, i, j);
      }
    }
  }

  lemma {:induction false} WeightedIsColSum(c: seq<int>, m: Matrix, n: nat, t: nat, k: nat, x: int,
                                            F: (nat, nat) -> int)
    requires IsSquare(m, n) && |c| == n && t <= n && k < n
    requires forall i: nat :: i < n ==> F(i, k) == c[i] * (m[i][k] * x)
    ensures ColSum(t, F, k) == Weighted(c, m, t, k) * x
  {
    if t > 0 {
      WeightedIsColSum(c, m, n, t - 1, k, x, F);
      var p, q, r := Weighted(c, m, t - 1, k), c[t - 1], m[t - 1][k];
      assert (p + q * r) * x == p * x + q * (r * x);
    }
  }

  lemma RowOfProduct(m: Matrix, b: Matrix, n: nat, i: nat, j: nat, c: seq<int>, F: (nat, nat) -> int)
    requires IsSquare(m, n) && IsSquare(b, n) && |c| == n && i < n && j < n
    requires forall k: nat :: k < n ==> F(i, k) == c[i] * (m[i][k] * b[k][j])
    ensures RowSum(n, F, i) == c[i] * ProductEntry(m, b, n, i, j)
  {
    var g := (k: nat) => if k < n then m[i][k] * b[k][j] else 0;
    var h := (k: nat) => F(i, k);
    RowSumIsSum(n, F, i, h);
    SumLinear(n, h, c[i], g, 0, g);
    SumEqual(n, g, (k: nat) => if k < n then m[i][k] * b[k][j] else 0);
  }

  /** Weights that vanish on m vanish on every product with m, so an inverse up to d forces them to be zero. */
  lemma InverseForbidsDependence(m: Matrix, n: nat, b: Matrix, d: int, c: seq<int>)
    requires IsSquare(m, n) && d != 0 && InverseUpTo(m, b, n, d)
    ensures !Vanishes(c, m, n, n)
  {
    if Vanishes(c, m, n, n) {
      var j: nat :| j < n && c[j] != 0;
      assert c[j] * d != 0;
      var F := (i: nat, k: nat) => if i < n && k < n then c[i] * (m[i][k] * b[k][j]) else 0;
      var z := (k: nat) => 0;
      forall k: nat | k < n
        ensures z(k) == ColSum(n, F, k)
      {
        WeightedIsColSum(c, m, n, n, k, b[k][j], F);
      }
      ByColsIsSum(n, n, F, z);
      SumSingle(n, z, n);
      var r := (i: nat) => if i == j then c[j] * d else 0;
      forall i: nat | i < n
        ensures r(i) == RowSum(n, F, i)
      {
        RowOfProduct(m, b, n, i, j, c, F);
      }
      ByRowsIsSum(n, n, F, r);
      SumSingle(n, r, j);
      ByRowsIsByCols(n, n, F);
    }
  }

  /** The determinant is non-zero exactly when the matrix has an inverse over the rationals. */
  lemma NonZeroDetIffInvertible(m: Matrix, n: nat)
    requires n > 0 && IsSquare(m, n)
    ensures Det(m, n) != 0 <==> Invertible(m, n)
  {
    if Det(m, n) != 0 {
      AdjugateInverts(m, n);
    }
    if Invertible(m, n) {
      var b, d :| d != 0 && InverseUpTo(m, b, n, d);
      if Det(m, n) == 0 {
        ZeroDetIsDependent(m, n);
        var c :| Vanishes(c, m, n, n);
        InverseForbidsDependence(m, n, b, d, c);
      }
    }
  }
}
