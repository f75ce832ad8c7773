/**
 The determinant as the server computes it, by Laplace expansion along the first row, and the two
 facts that make it a determinant: it is linear in every row, and it changes sign when two rows are
 exchanged.
 */
module Laplace {
  import opened Common
  import opened Sums

  type Matrix = seq<seq<int>>

  predicate IsSquare(m: Matrix, n: nat) {
    IsGrid(m, n, n)
  }

  /** The index that the k-th kept row (or column) has when row (or column) p is left out. */
  function Skip(p: nat, k: nat): nat {
    if k < p then k else k + 1
  }

  function DropAt(row: seq<int>, q: nat): (r: seq<int>)
    requires q < |row|
    ensures |r| == |row| - 1
    ensures forall k: nat :: k < |r| ==> r[k] == row[Skip(q, k)]
  {
    row[..q] + row[q + 1..]
  }

  /** The matrix without row p and column q. */
  function Minor(m: Matrix, n: nat, p: nat, q: nat): (r: Matrix)
    requires IsSquare(m, n) && p < n && q < n
    ensures IsSquare(r, n - 1)
    ensures forall i: nat, j: nat :: i < n - 1 && j < n - 1 ==> r[i][j] == m[Skip(p, i)][Skip(q, j)]
  {
    seq(n - 1, (i: nat) requires i < n - 1 => DropAt(m[Skip(p, i)], q))
  }

  function Sign(f: nat): int {
    if f % 2 == 0 then 1 else -1
  }

  function Det(m: Matrix, n: nat): int
    requires IsSquare(m, n)
    decreases n, 1, 0
  {
    if n == 0 then 1 else if n == 1 then m[0][0] else Expand(m, n, n)
  }

  /** The first k terms of the expansion along the first row. */
  function Expand(m: Matrix, n: nat, k: nat): int
    requires IsSquare(m, n) && k <= n
    decreases n, 0, k
  {
    if k == 0 then 0 else Expand(m, n, k - 1) + Term(m, n, k - 1)
  }

  function Term(m: Matrix, n: nat, f: nat): int
    requires IsSquare(m, n) && f < n
    decreases n, 0, f
  {
    Sign(f) * m[0][f] * Det(Minor(m, n, 0, f), n - 1)
  }

  lemma DetIsExpansion(m: Matrix, n: nat)
    requires n > 0 && IsSquare(m, n)
    ensures Det(m, n) == Expand(m, n, n)
  {
    if n == 1 {
      assert Expand(m, 1, 1) == Expand(m, 1, 0) + Term(m, 1, 0);
    }
  }

  lemma {:induction false} ExpandIsSum(m: Matrix, n: nat, k: nat, g: nat -> int)
    requires IsSquare(m, n) && k <= n
    requires forall f: nat :: f < k ==> Term(m, n, f) == g(f)
    ensures Expand(m, n, k) == Sum(k, g)
  {
    if k > 0 {
      ExpandIsSum(m, n, k - 1, g);
    }
  }

  // ---------- linearity in each row ----------

  function Combine(a: int, u: seq<int>, b: int, v: seq<int>): (r: seq<int>)
    requires |u| == |v|
    ensures |r| == |u|
    ensures forall j :: 0 <= j < |u| ==> r[j] == a * u[j] + b * v[j]
  {
    seq(|u|, j requires 0 <= j < |u| => a * u[j] + b * v[j])
  }

  lemma MinorOfUpdate(m: Matrix, n: nat, k: nat, u: seq<int>, f: nat)
    requires IsSquare(m, n) && 0 < k < n && |u| == n && f < n
    ensures Minor(m[k := u], n, 0, f) == Minor(m, n, 0, f)[k - 1 := DropAt(u, f)]
  {
    var x, y := Minor(m[k := u], n, 0, f), Minor(m, n, 0, f)[k - 1 := DropAt(u, f)];
    forall i: nat | i < n - 1
      ensures x[i] == y[i]
    {
    }
    assert x == y;
  }

  /** Replacing a row by a combination of two rows combines the two determinants. */
  lemma {:induction false} DetRowLinear(m: Matrix, n: nat, k: nat, a: int, u: seq<int>, b: int, v: seq<int>)
    requires IsSquare(m, n) && k < n && |u| == n && |v| == n
    ensures Det(m[k := Combine(a, u, b, v)], n) == a * Det(m[k := u], n) + b * Det(m[k := v], n)
    decreases n, 1
  {
    var w := Combine(a, u, b, v);
    DetIsExpansion(m[k := w], n);
    DetIsExpansion(m[k := u], n);
    DetIsExpansion(m[k := v], n);
    ExpandRowLinear(m, n, k, a, u, b, v, n);
  }

  lemma CombinationsAdd(a: int, b: int, p: int, q: int, x: int, y: int)
    ensures (a * p + b * q) + (a * x + b * y) == a * (p + x) + b * (q + y)
  {
    assert a * (p + x) == a * p + a * x;
    assert b * (q + y) == b * q + b * y;
  }

  lemma {:induction false} ExpandRowLinear(m: Matrix, n: nat, k: nat, a: int, u: seq<int>, b: int, v: seq<int>, t: nat)
    requires IsSquare(m, n) && k < n && |u| == n && |v| == n && t <= n
    ensures Expand(m[k := Combine(a, u, b, v)], n, t)
         == a * Expand(m[k := u], n, t) + b * Expand(m[k := v], n, t)
    decreases n, 0, t
  {
    if t > 0 {
      ExpandRowLinear(m, n, k, a, u, b, v, t - 1);
      TermRowLinear(m, n, k, a, u, b, v, t - 1);
      CombinationsAdd(a, b, Expand(m[k := u], n, t - 1), Expand(m[k := v], n, t - 1),
                      Term(m[k := u], n, t - 1), Term(m[k := v], n, t - 1));
    }
  }

  lemma Distribute(s: int, a: int, x: int, b: int, y: int, d: int)
    ensures s * (a * x + b * y) * d == a * (s * x * d) + b * (s * y * d)
  {
    assert s * (a * x + b * y) == a * (s * x) + b * (s * y);
    assert (a * (s * x) + b * (s * y)) * d == a * (s * x) * d + b * (s * y) * d;
  }

  lemma TermIs(m: Matrix, n: nat, f: nat, x: int, d: Matrix)
    requires IsSquare(m, n) && f < n && m[0][f] == x && Minor(m, n, 0, f) == d
    ensures Term(m, n, f) == Sign(f) * x * Det(d, n - 1)
  {
  }

  lemma TermFirstRowLinear(m: Matrix, n: nat, a: int, u: seq<int>, b: int, v: seq<int>, f: nat)
    requires IsSquare(m, n) && f < n && |u| == n && |v| == n
    ensures Term(m[0 := Combine(a, u, b, v)], n, f) == a * Term(m[0 := u], n, f) + b * Term(m[0 := v], n, f)
  {
    var w, d := Combine(a, u, b, v), Minor(m, n, 0, f);
    assert Minor(m[0 := w], n, 0, f) == d && Minor(m[0 := u], n, 0, f) == d && Minor(m[0 := v], n, 0, f) == d;
    TermIs(m[0 := w], n, f, a * u[f] + b * v[f], d);
    TermIs(m[0 := u], n, f, u[f], d);
    TermIs(m[0 := v], n, f, v[f], d);
    Distribute(Sign(f), a, u[f], b, v[f], Det(d, n - 1));
  }

  lemma MinorsOfCombination(m: Matrix, n: nat, k: nat, a: int, u: seq<int>, b: int, v: seq<int>, f: nat)
    requires IsSquare(m, n) && 0 < k < n && f < n && |u| == n && |v| == n
    ensures Minor(m[k := Combine(a, u, b, v)], n, 0, f)
         == Minor(m, n, 0, f)[k - 1 := Combine(a, DropAt(u, f), b, DropAt(v, f))]
  {
    MinorOfUpdate(m, n, k, Combine(a, u, b, v), f);
    assert DropAt(Combine(a, u, b, v), f) == Combine(a, DropAt(u, f), b, DropAt(v, f));
  }

  lemma DistributeOver(s: int, a: int, x: int, b: int, y: int)
    ensures s * (a * x + b * y) == a * (s * x) + b * (s * y)
  {
    assert s * (a * x) == a * (s * x);
    assert s * (b * y) == b * (s * y);
  }

  lemma {:induction false} TermRowLinear(m: Matrix, n: nat, k: nat, a: int, u: seq<int>, b: int, v: seq<int>, f: nat)
    requires IsSquare(m, n) && k < n && |u| == n && |v| == n && f < n
    ensures Term(m[k := Combine(a, u, b, v)], n, f) == a * Term(m[k := u], n, f) + b * Term(m[k := v], n, f)
    decreases n, 0, f
  {
    if k == 0 {
      TermFirstRowLinear(m, n, a, u, b, v, f);
    } else {
      var d, x, y := Minor(m, n, 0, f), DropAt(u, f), DropAt(v, f);
      MinorsOfCombination(m, n, k, a, u, b, v, f);
      MinorOfUpdate(m, n, k, u, f);
      MinorOfUpdate(m, n, k, v, f);
      TermIs(m[k := Combine(a, u, b, v)], n, f, m[0][f], d[k - 1 := Combine(a, x, b, y)]);
      TermIs(m[k := u], n, f, m[0][f], d[k - 1 := x]);
      TermIs(m[k := v], n, f, m[0][f], d[k - 1 := y]);
      DetRowLinear(d, n - 1, k - 1, a, x, b, y);
      DistributeOver(Sign(f) * m[0][f], a, Det(d[k - 1 := x], n - 1), b, Det(d[k - 1 := y], n - 1));
    }
  }

  // ---------- exchanging two rows ----------

  function SwapRows(m: Matrix, i: nat, j: nat): Matrix
    requires i < |m| && j < |m|
  {
    m[i := m[j]][j := m[i]]
  }

  lemma MinorOfSwap(m: Matrix, n: nat, i: nat, j: nat, f: nat)
    requires IsSquare(m, n) && 0 < i < n && 0 < j < n && f < n
    ensures Minor(SwapRows(m, i, j), n, 0, f) == SwapRows(Minor(m, n, 0, f), i - 1, j - 1)
  {
    var x, y := Minor(SwapRows(m, i, j), n, 0, f), SwapRows(Minor(m, n, 0, f), i - 1, j - 1);
    forall r: nat | r < n - 1
      ensures x[r] == y[r]
    {
    }
    assert x == y;
  }

  /** The position that column g has once column f is left out. */
  function Unskip(f: nat, g: nat): nat
    requires f != g
  {
    if g < f then g else g - 1
  }

  /** The matrix without its first two rows and without columns f and g. */
  function TwoRowMinor(m: Matrix, n: nat, f: nat, g: nat): (r: Matrix)
    requires IsSquare(m, n) && f < n && g < n && f != g
    ensures IsSquare(r, n - 2)
  {
    Minor(Minor(m, n, 0, f), n - 1, 0, Unskip(f, g))
  }

  lemma SkipTwo(f: nat, g: nat, j: nat)
    requires f != g
    ensures Skip(f, Skip(Unskip(f, g), j)) == Skip(g, Skip(Unskip(g, f), j))
  {
  }

  lemma TwoRowEntry(m: Matrix, n: nat, f: nat, g: nat, i: nat, j: nat)
    requires IsSquare(m, n) && f < n && g < n && f != g && i < n - 2 && j < n - 2
    ensures Skip(f, Skip(Unskip(f, g), j)) < n
    ensures TwoRowMinor(m, n, f, g)[i][j] == m[i + 2][Skip(f, Skip(Unskip(f, g), j))]
  {
    var h := Skip(Unskip(f, g), j);
    assert TwoRowMinor(m, n, f, g)[i][j] == Minor(m, n, 0, f)[i + 1][h];
  }

  lemma {:induction false} SameEntries(x: Matrix, y: Matrix, n: nat)
    requires IsSquare(x, n) && IsSquare(y, n)
    requires forall i: nat, j: nat :: i < n && j < n ==> x[i][j] == y[i][j]
    ensures x == y
  {
    forall i: nat | i < n
      ensures x[i] == y[i]
    {
    }
  }

  lemma TwoRowMinorSymmetric(m: Matrix, n: nat, f: nat, g: nat)
    requires IsSquare(m, n) && f < n && g < n && f != g
    ensures TwoRowMinor(m, n, f, g) == TwoRowMinor(m, n, g, f)
  {
    var x, y := TwoRowMinor(m, n, f, g), TwoRowMinor(m, n, g, f);
    forall i: nat, j: nat | i < n - 2 && j < n - 2
      ensures x[i][j] == y[i][j]
    {
      TwoRowEntry(m, n, f, g, i, j);
      TwoRowEntry(m, n, g, f, i, j);
      SkipTwo(f, g, j);
    }
    SameEntries(x, y, n - 2);
  }

  lemma TwoRowMinorOfSwap(m: Matrix, n: nat, f: nat, g: nat)
    requires IsSquare(m, n) && f < n && g < n && f != g
    ensures TwoRowMinor(SwapRows(m, 0, 1), n, f, g) == TwoRowMinor(m, n, f, g)
  {
    var s := SwapRows(m, 0, 1);
    var x, y := TwoRowMinor(m, n, f, g), TwoRowMinor(s, n, f, g);
    forall i: nat, j: nat | i < n - 2 && j < n - 2
      ensures x[i][j] == y[i][j]
    {
      TwoRowEntry(m, n, f, g, i, j);
      TwoRowEntry(s, n, f, g, i, j);
    }
    SameEntries(x, y, n - 2);
  }

  /** The part of the double expansion that takes column f from row 0 and column g from row 1. */
  function Pair(m: Matrix, n: nat, f: nat, g: nat): int
    requires IsSquare(m, n) && n >= 2
  {
    if f < n && g < n && f != g then
      Sign(f) * m[0][f] * (Sign(Unskip(f, g)) * m[1][g] * Det(TwoRowMinor(m, n, f, g), n - 2))
    else 0
  }

  lemma SignsOpposed(f: nat, g: nat)
    requires f != g
    ensures Sign(f) * Sign(Unskip(f, g)) == -(Sign(g) * Sign(Unskip(g, f)))
  {
  }

  lemma Regroup(s: int, x: int, t: int, y: int, d: int)
    ensures s * x * (t * y * d) == (s * t) * (x * y * d)
  {
    assert s * x * (t * y * d) == s * (x * (t * (y * d)));
    assert x * (t * (y * d)) == t * (x * (y * d));
  }

  lemma Opposed(s: int, t: int, s': int, t': int, x: int, y: int, d: int)
    requires s * t == -(s' * t')
    ensures s * x * (t * y * d) == -(s' * y * (t' * x * d))
  {
    Regroup(s, x, t, y, d);
    Regroup(s', y, t', x, d);
    var e := x * y * d;
    assert y * x * d == e;
    assert -(s' * t') * e == -((s' * t') * e);
  }

  lemma PairAntisymmetric(m: Matrix, n: nat, f: nat, g: nat)
    requires IsSquare(m, n) && n >= 2
    ensures Pair(SwapRows(m, 0, 1), n, f, g) == -Pair(m, n, g, f)
  {
    if f < n && g < n && f != g {
      TwoRowMinorSymmetric(m, n, f, g);
      TwoRowMinorOfSwap(m, n, f, g);
      SignsOpposed(f, g);
      Opposed(Sign(f), Sign(Unskip(f, g)), Sign(g), Sign(Unskip(g, f)), m[1][f], m[0][g],
              Det(TwoRowMinor(m, n, f, g), n - 2));
    }
  }

  /** One column of the inner expansion, as a term of the expansion of the minor. */
  lemma PairIsInnerTerm(m: Matrix, n: nat, f: nat, g: nat)
    requires IsSquare(m, n) && n >= 2 && f < n && g < n && f != g
    ensures Pair(m, n, f, g) == Sign(f) * m[0][f] * Term(Minor(m, n, 0, f), n - 1, Unskip(f, g))
  {
    var h := Unskip(f, g);
    assert Minor(m, n, 0, f)[0][h] == m[1][Skip(f, h)] == m[1][g];
  }

  lemma {:induction false} SkippedSum(k: nat, f: nat, s: int, t: nat -> int, F: (nat, nat) -> int)
    requires F(f, f) == 0
    requires forall g: nat :: g < k && g != f ==> F(f, g) == s * t(Unskip(f, g))
    ensures RowSum(k, F, f) == s * Sum(if k <= f then k else k - 1, t)
  {
    if k == 0 {
      assert s * 0 == 0;
    } else {
      SkippedSum(k - 1, f, s, t, F);
      if k - 1 != f {
        var h := Unskip(f, k - 1);
        assert s * (Sum(h, t) + t(h)) == s * Sum(h, t) + s * t(h);
      }
    }
  }

  /** The terms of the expansion of d, by position. */
  function Terms(d: Matrix, n: nat): nat -> int
    requires IsSquare(d, n)
  {
    (h: nat) => if h < n then Term(d, n, h) else 0
  }

  lemma DetIsSumOfTerms(d: Matrix, n: nat)
    requires n > 0 && IsSquare(d, n)
    ensures Det(d, n) == Sum(n, Terms(d, n))
  {
    DetIsExpansion(d, n);
    ExpandIsSum(d, n, n, Terms(d, n));
  }

  lemma InnerExpansion(m: Matrix, n: nat, f: nat, F: (nat, nat) -> int)
    requires IsSquare(m, n) && n >= 2 && f < n
    requires forall j: nat :: F(f, j) == Pair(m, n, f, j)
    ensures RowSum(n, F, f) == Term(m, n, f)
  {
    var d := Minor(m, n, 0, f);
    var s, t := Sign(f) * m[0][f], Terms(d, n - 1);
    forall g: nat | g < n && g != f
      ensures F(f, g) == s * t(Unskip(f, g))
    {
      PairIsInnerTerm(m, n, f, g);
    }
    SkippedSum(n, f, s, t, F);
    DetIsSumOfTerms(d, n - 1);
  }

  /** Expanding along the first two rows at once. */
  lemma DoubleExpansion(m: Matrix, n: nat, F: (nat, nat) -> int)
    requires IsSquare(m, n) && n >= 2
    requires forall i: nat, j: nat :: F(i, j) == Pair(m, n, i, j)
    ensures Det(m, n) == ByRows(n, n, F)
  {
    var t := (f: nat) => if f < n then Term(m, n, f) else 0;
    forall f: nat | f < n
      ensures t(f) == RowSum(n, F, f)
    {
      InnerExpansion(m, n, f, F);
    }
    ByRowsIsSum(n, n, F, t);
    ExpandIsSum(m, n, n, t);
    DetIsExpansion(m, n);
  }

  lemma {:induction false} NegatedLine(n: nat, i: nat, F: (nat, nat) -> int, G: (nat, nat) -> int)
    requires forall i: nat, j: nat :: G(i, j) == -F(j, i)
    ensures RowSum(n, G, i) == -ColSum(n, F, i)
  {
    if n > 0 {
      NegatedLine(n - 1, i, F, G);
    }
  }

  lemma {:induction false} NegatedTranspose(n: nat, k: nat, F: (nat, nat) -> int, G: (nat, nat) -> int)
    requires k <= n && forall i: nat, j: nat :: G(i, j) == -F(j, i)
    ensures ByRows(k, n, G) == -ByCols(n, k, F)
  {
    if k > 0 {
      NegatedTranspose(n, k - 1, F, G);
      NegatedLine(n, k - 1, F, G);
    }
  }

  lemma DetSwapFirstTwo(m: Matrix, n: nat)
    requires IsSquare(m, n) && n >= 2
    ensures Det(SwapRows(m, 0, 1), n) == -Det(m, n)
  {
    var s := SwapRows(m, 0, 1);
    var F := (i: nat, j: nat) => Pair(m, n, i, j);
    var G := (i: nat, j: nat) => Pair(s, n, i, j);
    DoubleExpansion(m, n, F);
    DoubleExpansion(s, n, G);
    forall i: nat, j: nat
      ensures G(i, j) == -F(j, i)
    {
      PairAntisymmetric(m, n, i, j);
    }
    NegatedTranspose(n, n, F, G);
    ByRowsIsByCols(n, n, F);
  }

  /** Exchanging any two different rows negates the determinant. */
  lemma {:induction false} DetSwap(m: Matrix, n: nat, i: nat, j: nat)
    requires IsSquare(m, n) && i < j < n
    ensures Det(SwapRows(m, i, j), n) == -Det(m, n)
    decreases n, if i == 0 then 2 else 1, j
  {
    if i > 0 {
      ExpandSwap(m, n, i, j, n);
    } else if j == 1 {
      DetSwapFirstTwo(m, n);
    } else {
      var a := SwapRows(m, 0, 1);
      var b := SwapRows(a, 1, j);
      DetSwapFirstTwo(m, n);
      DetSwap(a, n, 1, j);
      DetSwapFirstTwo(b, n);
      assert SwapRows(b, 0, 1) == SwapRows(m, 0, j);
    }
  }

  lemma {:induction false} ExpandSwap(m: Matrix, n: nat, i: nat, j: nat, k: nat)
    requires IsSquare(m, n) && 0 < i < j < n && k <= n
    ensures Expand(SwapRows(m, i, j), n, k) == -Expand(m, n, k)
    decreases n, 0, k
  {
    if k > 0 {
      ExpandSwap(m, n, i, j, k - 1);
      TermSwap(m, n, i, j, k - 1);
    }
  }

  lemma MinusOut(s: int, d: int)
    ensures s * -d == -(s * d)
  {
  }

  lemma TermNegated(m: Matrix, a: Matrix, n: nat, f: nat)
    requires IsSquare(m, n) && IsSquare(a, n) && f < n && a[0] == m[0]
    requires Det(Minor(a, n, 0, f), n - 1) == -Det(Minor(m, n, 0, f), n - 1)
    ensures Term(a, n, f) == -Term(m, n, f)
  {
    MinusOut(Sign(f) * m[0][f], Det(Minor(m, n, 0, f), n - 1));
  }

  lemma {:induction false} TermSwap(m: Matrix, n: nat, i: nat, j: nat, f: nat)
    requires IsSquare(m, n) && 0 < i < j < n && f < n
    ensures Term(SwapRows(m, i, j), n, f) == -Term(m, n, f)
    decreases n, 0, f
  {
    var a := SwapRows(m, i, j);
    assert Det(Minor(a, n, 0, f), n - 1) == -Det(Minor(m, n, 0, f), n - 1) by {
      MinorOfSwap(m, n, i, j, f);
      DetSwap(Minor(m, n, 0, f), n - 1, i - 1, j - 1);
    }
    TermNegated(m, a, n, f);
  }

  /** A matrix with two equal rows has determinant 0. */
  lemma DetEqualRows(m: Matrix, n: nat, i: nat, j: nat)
    requires IsSquare(m, n) && i < n && j < n && i != j && m[i] == m[j]
    ensures Det(m, n) == 0
  {
    var (lo, hi) := if i < j then (i, j) else (j, i);
    DetSwap(m, n, lo, hi);
    assert SwapRows(m, lo, hi) == m;
  }

  /** Adding a multiple of one row to another changes nothing. */
  lemma DetAddMultiple(m: Matrix, n: nat, k: nat, c: int, i: nat)
    requires IsSquare(m, n) && k < n && i < n && i != k
    ensures Det(m[k := Combine(1, m[k], c, m[i])], n) == Det(m, n)
  {
    DetRowLinear(m, n, k, 1, m[k], c, m[i]);
    assert m[k := m[k]] == m;
    DetEqualRows(m[k := m[i]], n, k, i);
  }

  // ---------- its value ----------

  lemma {:induction false} OnlyFirstTerm(m: Matrix, n: nat, k: nat)
    requires IsSquare(m, n) && k <= n && forall f :: 0 < f < n ==> m[0][f] == 0
    ensures Expand(m, n, k) == if k == 0 then 0 else m[0][0] * Det(Minor(m, n, 0, 0), n - 1)
  {
    if k > 1 {
      OnlyFirstTerm(m, n, k - 1);
      assert Sign(k - 1) * m[0][k - 1] == 0;
    } else if k == 1 {
      assert Expand(m, n, 1) == Expand(m, n, 0) + Term(m, n, 0);
    }
  }

  /** The product of the cells of the diagonal from row i on. */
  function Diagonal(m: Matrix, n: nat, i: nat): int
    requires IsSquare(m, n) && i <= n
    decreases n - i
  {
    if i == n then 1 else m[i][i] * Diagonal(m, n, i + 1)
  }

  lemma {:induction false} DiagonalOfMinor(m: Matrix, n: nat, i: nat)
    requires n > 0 && IsSquare(m, n) && i < n
    ensures Diagonal(Minor(m, n, 0, 0), n - 1, i) == Diagonal(m, n, i + 1)
    decreases n - i
  {
    if i < n - 1 {
      DiagonalOfMinor(m, n, i + 1);
    }
  }

  /** The determinant of a triangular matrix is the product of its diagonal. */
  lemma {:induction false} TriangularDet(m: Matrix, n: nat)
    requires IsSquare(m, n) && forall i, j :: 0 <= i < j < n ==> m[i][j] == 0
    ensures Det(m, n) == Diagonal(m, n, 0)
    decreases n
  {
    if n > 0 {
      DetIsExpansion(m, n);
      OnlyFirstTerm(m, n, n);
      TriangularDet(Minor(m, n, 0, 0), n - 1);
      DiagonalOfMinor(m, n, 0);
    }
  }

  function Identity(n: nat): (m: Matrix)
    ensures IsSquare(m, n) && forall i, j :: 0 <= i < n && 0 <= j < n ==> m[i][j] == if i == j then 1 else 0
  {
    seq(n, (i: nat) => seq(n, (j: nat) => if i == j then 1 else 0))
  }

  lemma {:induction false} DiagonalOfOnes(m: Matrix, n: nat, i: nat)
    requires IsSquare(m, n) && i <= n && forall k :: 0 <= k < n ==> m[k][k] == 1
    ensures Diagonal(m, n, i) == 1
    decreases n - i
  {
    if i < n {
      DiagonalOfOnes(m, n, i + 1);
    }
  }

  /** That of the identity is 1, which with linearity and the change of sign fixes the determinant. */
  lemma IdentityDet(n: nat)
    ensures Det(Identity(n), n) == 1
  {
    TriangularDet(Identity(n), n);
    DiagonalOfOnes(Identity(n), n, 0);
  }

  lemma TwoByTwo(a: int, b: int, c: int, d: int)
    ensures Det([[a, b], [c, d]], 2) == a * d - b * c
  {
    var m := [[a, b], [c, d]];
    assert Minor(m, 2, 0, 0)[0][0] == d && Minor(m, 2, 0, 1)[0][0] == c;
    assert Expand(m, 2, 2) == Expand(m, 2, 1) + Term(m, 2, 1);
    assert Expand(m, 2, 1) == Expand(m, 2, 0) + Term(m, 2, 0);
  }
}
