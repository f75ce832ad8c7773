/**
 The matrix routines of the two servers (Midterm/src/matrix_math.h), on mutable buffers, proved
 against the Laplace determinant.
 */
module MatrixMath {
  import opened Common
  import opened Laplace
  import opened Invertibility

  /** The n x n matrix in the top left corner of a buffer. */
  ghost function Corner(a: array2<int>, n: nat): (r: Matrix)
    requires n <= a.Length0 && n <= a.Length1
    reads a
    ensures IsSquare(r, n)
    ensures forall i: nat, j: nat :: i < n && j < n ==> r[i][j] == a[i, j]
  {
    seq(n, (i: nat) requires i < n reads a => seq(n, (j: nat) requires j < n reads a => a[i, j]))
  }

  /** How many of the first k indices are kept when index p is left out. */
  function Kept(p: nat, k: nat): nat {
    if k <= p then k else k - 1
  }

  /** Fills mat2 with mat, without row p and column q, using two running indices. */
  method FindCoFactor(mat: array2<int>, mat2: array2<int>, p: nat, q: nat, n: nat)
    requires p < n && q < n && mat != mat2
    requires n <= mat.Length0 && n <= mat.Length1 && n <= mat2.Length0 + 1 && n <= mat2.Length1 + 1
    modifies mat2
    ensures Corner(mat2, n - 1) == Minor(Corner(mat, n), n, p, q)
  {
    var i, j := 0, 0;
    for row := 0 to n
      invariant i == Kept(p, row) && j == 0
      invariant forall a: nat, b: nat :: a < i && b < n - 1 ==> mat2[a, b] == mat[Skip(p, a), Skip(q, b)]
    {
      for col := 0 to n
        invariant row == p ==> i == Kept(p, row) && j == 0
        invariant row != p && Kept(q, col) < n - 1 ==> i == Kept(p, row) && j == Kept(q, col)
        invariant row != p && Kept(q, col) == n - 1 ==> i == Kept(p, row) + 1 && j == 0
        invariant forall a: nat, b: nat :: a < n - 1 && b < n - 1 && (a < i || (a == i && b < j)) ==>
          mat2[a, b] == mat[Skip(p, a), Skip(q, b)]
      {
        if row != p && col != q {
          mat2[i, j] := mat[row, col];
          j := j + 1;
          if j == n - 1 {
            j := 0;
            i := i + 1;
          }
        }
      }
    }
    SameEntries(Corner(mat2, n - 1), Minor(Corner(mat, n), n, p, q), n - 1);
  }

  /** Laplace expansion along the first row, through a buffer that every term refills; of nothing, it is 0. */
  method GetDeterminant(mat: array2<int>, n: nat) returns (determinant: int)
    requires n <= mat.Length0 && n <= mat.Length1
    ensures determinant == if n == 0 then 0 else Det(Corner(mat, n), n)
    decreases n
  {
    determinant := 0;
    if n == 1 {
      return mat[0, 0];
    }
    var temp := new int[n, n];
    var sign := 1;
    for f := 0 to n
      invariant sign == Sign(f)
      invariant determinant == Expand(Corner(mat, n), n, f)
    {
      FindCoFactor(mat, temp, 0, f, n);
      var d := GetDeterminant(temp, n - 1);
      determinant := determinant + sign * mat[0, f] * d;
      sign := -sign;
    }
  }

  /** The matrix that a row-major buffer of n * n entries holds. */
  function Rows(s: seq<int>, n: nat): (r: Matrix)
    requires n * n <= |s|
    ensures IsSquare(r, n)
    ensures forall i: nat, j: nat :: i < n && j < n ==> (InRow(n, i, j); r[i][j] == s[i * n + j])
  {
    seq(n, (i: nat) requires i < n => seq(n, (j: nat) requires j < n => InRow(n, i, j); s[i * n + j]))
  }

  method IsMatrixInvertible(mat: array2<int>, n: nat) returns (r: int)
    requires n <= mat.Length0 && n <= mat.Length1
    ensures r == 1 || r == 0
    ensures r == 1 <==> n > 0 && Invertible(Corner(mat, n), n)
    ensures r == 0 <==> n == 0 || Dependent(Corner(mat, n), n, n)
  {
    var d := GetDeterminant(mat, n);
    r := if d != 0 then 1 else 0;
    if n > 0 {
      NonZeroDetIffInvertible(Corner(mat, n), n);
      ZeroDetIffDependent(Corner(mat, n), n);
    }
  }

  /** The answer the workers send: 1 for an invertible row-major matrix, 0 for any other. */
  method IsMatrixInvert(arr: array<int>, size: nat) returns (r: int)
    requires size * size <= arr.Length
    ensures r == 1 || r == 0
    ensures r == 1 <==> size > 0 && Invertible(Rows(arr[..], size), size)
  {
    var a := new int[size, size];
    for i := 0 to size
      invariant forall x: nat, y: nat :: x < i && y < size ==> a[x, y] == Rows(arr[..], size)[x][y]
    {
      for j := 0 to size
        invariant forall x: nat, y: nat :: x < size && y < size && (x < i || (x == i && y < j)) ==>
          a[x, y] == Rows(arr[..], size)[x][y]
      {
        InRow(size, i, j);
        a[i, j] := arr[i * size + j];
        assert Rows(arr[..], size)[i][j] == arr[..][i * size + j];
      }
    }
    SameEntries(Corner(a, size), Rows(arr[..], size), size);
    r := IsMatrixInvertible(a, size);
  }
}
