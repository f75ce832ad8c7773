/** Finite sums over integers, and the exchange of the two orders of a double sum. */
module Sums {
  function Sum(n: nat, f: nat -> int): int {
    if n == 0 then 0 else Sum(n - 1, f) + f(n - 1)
  }

  lemma {:induction false} SumLinear(n: nat, h: nat -> int, a: int, f: nat -> int, b: int, g: nat -> int)
    requires forall i: nat :: i < n ==> h(i) == a * f(i) + b * g(i)
    ensures Sum(n, h) == a * Sum(n, f) + b * Sum(n, g)
  {
    if n > 0 {
      SumLinear(n - 1, h, a, f, b, g);
      assert h(n - 1) == a * f(n - 1) + b * g(n - 1);
    }
  }

  lemma {:induction false} SumEqual(n: nat, f: nat -> int, g: nat -> int)
    requires forall i: nat :: i < n ==> f(i) == g(i)
    ensures Sum(n, f) == Sum(n, g)
  {
    if n > 0 {
      SumEqual(n - 1, f, g);
    }
  }

  /** A sum whose only non-zero summand is the one at k. */
  lemma {:induction false} SumSingle(n: nat, f: nat -> int, k: nat)
    requires forall i: nat :: i < n && i != k ==> f(i) == 0
    ensures Sum(n, f) == if k < n then f(k) else 0
  {
    if n > 0 {
      SumSingle(n - 1, f, k);
    }
  }

  /** The sum of row i of the table F, up to column m. */
  function RowSum(m: nat, F: (nat, nat) -> int, i: nat): int {
    if m == 0 then 0 else RowSum(m - 1, F, i) + F(i, m - 1)
  }

  function ColSum(n: nat, F: (nat, nat) -> int, j: nat): int {
    if n == 0 then 0 else ColSum(n - 1, F, j) + F(n - 1, j)
  }

  function ByRows(n: nat, m: nat, F: (nat, nat) -> int): int {
    if n == 0 then 0 else ByRows(n - 1, m, F) + RowSum(m, F, n - 1)
  }

  function ByCols(n: nat, m: nat, F: (nat, nat) -> int): int {
    if m == 0 then 0 else ByCols(n, m - 1, F) + ColSum(n, F, m - 1)
  }

  lemma {:induction false} ByColsAddRow(n: nat, m: nat, F: (nat, nat) -> int)
    ensures ByCols(n + 1, m, F) == ByCols(n, m, F) + RowSum(m, F, n)
  {
    if m > 0 {
      ByColsAddRow(n, m - 1, F);
    }
  }

  lemma {:induction false} ByColsEmpty(m: nat, F: (nat, nat) -> int)
    ensures ByCols(0, m, F) == 0
  {
    if m > 0 {
      ByColsEmpty(m - 1, F);
    }
  }

  /** The order in which a table is summed does not matter. */
  lemma {:induction false} ByRowsIsByCols(n: nat, m: nat, F: (nat, nat) -> int)
    ensures ByRows(n, m, F) == ByCols(n, m, F)
  {
    if n == 0 {
      ByColsEmpty(m, F);
    } else {
      ByRowsIsByCols(n - 1, m, F);
      ByColsAddRow(n - 1, m, F);
    }
  }

  lemma {:induction false} RowSumIsSum(m: nat, F: (nat, nat) -> int, i: nat, f: nat -> int)
    requires forall j: nat :: j < m ==> f(j) == F(i, j)
    ensures RowSum(m, F, i) == Sum(m, f)
  {
    if m > 0 {
      RowSumIsSum(m - 1, F, i, f);
    }
  }

  lemma {:induction false} ByRowsIsSum(n: nat, m: nat, F: (nat, nat) -> int, f: nat -> int)
    requires forall i: nat :: i < n ==> f(i) == RowSum(m, F, i)
    ensures ByRows(n, m, F) == Sum(n, f)
  {
    if n > 0 {
      ByRowsIsSum(n - 1, m, F, f);
    }
  }

  lemma {:induction false} ByColsIsSum(n: nat, m: nat, F: (nat, nat) -> int, f: nat -> int)
    requires forall j: nat :: j < m ==> f(j) == ColSum(n, F, j)
    ensures ByCols(n, m, F) == Sum(m, f)
  {
    if m > 0 {
      ByColsIsSum(n, m - 1, F, f);
    }
  }
}
