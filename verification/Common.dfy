/** What several of the models share. */
module Common {
  datatype Option<T> = None | Some(value: T)

  /** A table of so many rows of so many cells. */
  predicate IsGrid<T>(g: seq<seq<T>>, rows: nat, cols: nat) {
    |g| == rows && forall i :: 0 <= i < rows ==> |g[i]| == cols
  }

  /** Cell (i, j) of a row-major buffer is inside it. */
  lemma InRow(n: nat, i: nat, j: nat)
    requires i < n && j < n
    ensures 0 <= i * n + j < n * n
  {
    assert i * n + j < (i + 1) * n;
    assert (i + 1) * n <= n * n;
  }

  lemma DivisionUnique(q: real, x: real, d: real)
    requires d > 0.0 && q * d == x
    ensures q == x / d
  {
  }

  lemma ScaleReal(x: real, y: real, m: real)
    requires m > 0.0
    ensures (x <= y <==> x * m <= y * m) && (x < y <==> x * m < y * m)
  {
  }
}
