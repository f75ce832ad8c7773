/**
 The determinant in 32-bit arithmetic that wraps around: how far it agrees with the exact one, and a
 bound on the entries under which no intermediate value leaves the 32-bit range.
 */
module MachineInts {
  import opened Laplace
  import opened Invertibility

  predicate InRange(x: int) {
    -0x8000_0000 <= x < 0x8000_0000
  }

  function Wrap(x: int): (r: int)
    ensures InRange(r)
  {
    (x + 0x8000_0000) % 0x1_0000_0000 - 0x8000_0000
  }

  lemma WrapShift(x: int, k: int)
    ensures Wrap(x + k * 0x1_0000_0000) == Wrap(x)
  {
  }

  lemma WrapIsZero(x: int)
    ensures Wrap(x) == 0 <==> x % 0x1_0000_0000 == 0
  {
  }

  /** The number of 32 bits that differs by a multiple of 2^32. */
  lemma WrapIs(x: int)
    ensures -2147483648 <= Wrap(x) <= 2147483647 && (x - Wrap(x)) % 4294967296 == 0
  {
  }

  /** How many times 2^32 was taken off. */
  function Carry(x: int): (k: int)
    ensures x == Wrap(x) + k * 0x1_0000_0000
  {
    (x + 0x8000_0000) / 0x1_0000_0000
  }

  lemma WrapSum(x: int, y: int)
    ensures Wrap(Wrap(x) + Wrap(y)) == Wrap(x + y)
  {
    WrapShift(Wrap(x) + Wrap(y), Carry(x) + Carry(y));
  }

  lemma WrapProduct(x: int, y: int)
    ensures Wrap(Wrap(x) * Wrap(y)) == Wrap(x * y)
  {
    var a, b, k, l := Wrap(x), Wrap(y), Carry(x), Carry(y);
    assert x * y == a * b + (a * l + k * b + k * l * 0x1_0000_0000) * 0x1_0000_0000;
    WrapShift(a * b, a * l + k * b + k * l * 0x1_0000_0000);
  }

  predicate Entries32(m: Matrix, n: nat)
    requires IsSquare(m, n)
  {
    forall i, j :: 0 <= i < n && 0 <= j < n ==> InRange(m[i][j])
  }

  /** The determinant with every operation wrapped to 32 bits. */
  function WordDet(m: Matrix, n: nat): int
    requires IsSquare(m, n)
    decreases n, 1, 0
  {
    if n == 0 then 1 else if n == 1 then m[0][0] else WordExpand(m, n, n)
  }

  function WordExpand(m: Matrix, n: nat, k: nat): int
    requires IsSquare(m, n) && k <= n
    decreases n, 0, k
  {
    if k == 0 then 0 else Wrap(WordExpand(m, n, k - 1) + WordTerm(m, n, k - 1))
  }

  function WordTerm(m: Matrix, n: nat, f: nat): int
    requires IsSquare(m, n) && f < n
    decreases n, 0, f
  {
    Wrap(Wrap(Sign(f) * m[0][f]) * WordDet(Minor(m, n, 0, f), n - 1))
  }

  /** Wrapping every operation gives the exact determinant, wrapped once. */
  lemma {:induction false} WordDetIsWrapped(m: Matrix, n: nat)
    requires IsSquare(m, n) && Entries32(m, n)
    ensures WordDet(m, n) == Wrap(Det(m, n))
    decreases n, 1, 0
  {
    if n > 1 {
      WordExpandIsWrapped(m, n, n);
    }
  }

  lemma {:induction false} WordExpandIsWrapped(m: Matrix, n: nat, k: nat)
    requires IsSquare(m, n) && Entries32(m, n) && k <= n
    ensures WordExpand(m, n, k) == Wrap(Expand(m, n, k))
    decreases n, 0, k
  {
    if k > 0 {
      WordExpandIsWrapped(m, n, k - 1);
      WordTermIsWrapped(m, n, k - 1);
      WrapSum(Expand(m, n, k - 1), Term(m, n, k - 1));
    }
  }

  lemma {:induction false} WordTermIsWrapped(m: Matrix, n: nat, f: nat)
    requires IsSquare(m, n) && Entries32(m, n) && f < n
    ensures WordTerm(m, n, f) == Wrap(Term(m, n, f))
    decreases n, 0, f
  {
    var d := Minor(m, n, 0, f);
    WordDetIsWrapped(d, n - 1);
    WrapProduct(Sign(f) * m[0][f], Det(d, n - 1));
  }

  /**
   In wrapping arithmetic the answer "determinant is not zero" is right exactly when the determinant
   is zero or is no multiple of 2^32.
   */
  lemma WordAnswerIsRight(m: Matrix, n: nat)
    requires n > 0 && IsSquare(m, n) && Entries32(m, n)
    ensures (WordDet(m, n) != 0 <==> Invertible(m, n)) <==> (Det(m, n) == 0 || Det(m, n) % 0x1_0000_0000 != 0)
  {
    WordDetIsWrapped(m, n);
    NonZeroDetIffInvertible(m, n);
    WrapIsZero(Det(m, n));
  }

  /** It can be wrong: an invertible matrix of two small entries whose determinant is 2^32. */
  lemma WordAnswerCanBeWrong(m: Matrix)
    requires m == [[0x1_0000, 0], [0, 0x1_0000]]
    ensures IsSquare(m, 2) && Entries32(m, 2)
    ensures Invertible(m, 2) && WordDet(m, 2) == 0
  {
    assert Minor(m, 2, 0, 0)[0][0] == m[1][1];
    assert Minor(m, 2, 0, 1)[0][0] == m[1][0];
    assert Expand(m, 2, 2) == Expand(m, 2, 1) + Term(m, 2, 1);
    assert Expand(m, 2, 1) == Expand(m, 2, 0) + Term(m, 2, 0);
    assert Det(m, 2) == 0x1_0000_0000;
    WordDetIsWrapped(m, 2);
    NonZeroDetIffInvertible(m, 2);
  }

  // ---------- when nothing overflows ----------

  function Factorial(n: nat): nat {
    if n == 0 then 1 else n * Factorial(n - 1)
  }

  function Abs(x: int): nat {
    if x < 0 then -x else x
  }

  /** The bound n! * b^n. */
  function Bound(n: nat, b: nat): nat {
    if n == 0 then 1 else n * (b * Bound(n - 1, b))
  }

  lemma Exchange(b: int, x: int, y: int)
    ensures b * (x * y) == x * (b * y)
  {
  }

  lemma Associate(n: int, x: int, z: int)
    ensures (n * x) * z == n * (x * z)
  {
  }

  lemma Rearrange(n: int, b: int, x: int, y: int)
    ensures n * (b * (x * y)) == (n * x) * (b * y)
  {
    Exchange(b, x, y);
    Associate(n, x, b * y);
  }

  lemma {:induction false} BoundIsFactorialPower(n: nat, b: nat)
    ensures Bound(n, b) == Factorial(n) * Power(b, n)
  {
    if n > 0 {
      BoundIsFactorialPower(n - 1, b);
      Rearrange(n, b, Factorial(n - 1), Power(b, n - 1));
    }
  }

  predicate EntriesWithin(m: Matrix, n: nat, b: nat)
    requires IsSquare(m, n)
  {
    forall i, j :: 0 <= i < n && 0 <= j < n ==> Abs(m[i][j]) <= b
  }

  lemma SignsOut(y: int, d: int)
    ensures y * d == -y * -d && -y * d == -(y * d) && y * -d == -(y * d)
  {
  }

  lemma ProductGrows(u: nat, b: nat, v: nat)
    requires u <= b
    ensures u * v <= b * v && v * u <= v * b
  {
  }

  lemma AbsOfProduct(y: int, d: int)
    ensures Abs(y * d) == Abs(y) * Abs(d)
  {
    SignsOut(y, d);
    ProductGrows(0, Abs(y), Abs(d));
  }

  lemma AbsProduct(y: int, d: int, b: nat, c: nat)
    requires Abs(y) <= b && Abs(d) <= c
    ensures Abs(y * d) <= b * c
  {
    AbsOfProduct(y, d);
    ProductGrows(Abs(y), b, Abs(d));
    ProductGrows(Abs(d), c, b);
  }

  lemma ProductWithin(s: int, x: int, d: int, b: nat, c: nat)
    requires (s == 1 || s == -1) && Abs(x) <= b && Abs(d) <= c
    ensures Abs(s * x) <= b && Abs(s * x * d) <= b * c
  {
    assert s * x == x || s * x == -x;
    AbsProduct(s * x, d, b, c);
  }

  lemma OneTermMore(e: int, x: int, k: nat, t: nat)
    requires k > 0 && Abs(e) <= (k - 1) * t && Abs(x) <= t
    ensures Abs(e + x) <= k * t
  {
    assert k * t == (k - 1) * t + t;
  }

  lemma {:induction false} DetWithin(m: Matrix, n: nat, b: nat)
    requires IsSquare(m, n) && EntriesWithin(m, n, b)
    ensures Abs(Det(m, n)) <= Bound(n, b)
    decreases n, 1, 0
  {
    if n == 1 {
      assert Bound(1, b) == 1 * (b * Bound(0, b));
    } else if n > 1 {
      ExpandWithin(m, n, n, b);
    }
  }

  /** Every partial sum of the expansion is bounded by as many terms as it has. */
  lemma {:induction false} ExpandWithin(m: Matrix, n: nat, k: nat, b: nat)
    requires n > 0 && IsSquare(m, n) && EntriesWithin(m, n, b) && k <= n
    ensures Abs(Expand(m, n, k)) <= k * (b * Bound(n - 1, b)) <= Bound(n, b)
    decreases n, 0, k
  {
    ProductGrows(k, n, b * Bound(n - 1, b));
    if k > 0 {
      ExpandWithin(m, n, k - 1, b);
      DetWithin(Minor(m, n, 0, k - 1), n - 1, b);
      ProductWithin(Sign(k - 1), m[0][k - 1], Det(Minor(m, n, 0, k - 1), n - 1), b, Bound(n - 1, b));
      OneTermMore(Expand(m, n, k - 1), Term(m, n, k - 1), k, b * Bound(n - 1, b));
    }
  }

  /** No value computed anywhere in the recursion leaves the 32-bit range. */
  ghost predicate NoOverflow(m: Matrix, n: nat)
    requires IsSquare(m, n)
    decreases n
  {
    n > 1 ==> forall f: nat :: f < n ==>
      && InRange(Sign(f) * m[0][f])
      && InRange(Term(m, n, f))
      && InRange(Expand(m, n, f + 1))
      && InRange(Det(Minor(m, n, 0, f), n - 1))
      && NoOverflow(Minor(m, n, 0, f), n - 1)
  }

  lemma TimesAtLeast(x: nat, y: nat)
    requires x > 0
    ensures x * y >= y && x * y == y * x
  {
  }

  lemma {:induction false} BoundPositive(n: nat, b: nat)
    requires b > 0
    ensures Bound(n, b) > 0
  {
    if n > 0 {
      BoundPositive(n - 1, b);
      assert b * Bound(n - 1, b) > 0;
      assert n * (b * Bound(n - 1, b)) > 0;
    }
  }

  lemma BoundShrinks(n: nat, b: nat)
    requires n > 1 && Bound(n, b) < 0x8000_0000
    ensures b * Bound(n - 1, b) < 0x8000_0000 && Bound(n - 1, b) < 0x8000_0000 && b < 0x8000_0000
  {
    var t := Bound(n - 1, b);
    TimesAtLeast(n, b * t);
    if b == 0 {
      assert Bound(n - 1, 0) == (n - 1) * (0 * Bound(n - 2, 0)) == (n - 1) * 0;
    } else {
      BoundPositive(n - 1, b);
      TimesAtLeast(b, t);
      TimesAtLeast(t, b);
    }
  }

  lemma AtMost(x: int, b: nat)
    requires Abs(x) <= b < 0x8000_0000
    ensures InRange(x)
  {
  }

  lemma TermStaysInRange(m: Matrix, n: nat, f: nat, b: nat)
    requires n > 1 && f < n && IsSquare(m, n) && EntriesWithin(m, n, b) && Bound(n, b) < 0x8000_0000
    ensures InRange(Sign(f) * m[0][f]) && InRange(Term(m, n, f)) && InRange(Det(Minor(m, n, 0, f), n - 1))
  {
    var d, t := Det(Minor(m, n, 0, f), n - 1), Bound(n - 1, b);
    BoundShrinks(n, b);
    DetWithin(Minor(m, n, 0, f), n - 1, b);
    ProductWithin(Sign(f), m[0][f], d, b, t);
    AtMost(Sign(f) * m[0][f], b);
    AtMost(Sign(f) * m[0][f] * d, b * t);
    AtMost(d, t);
  }

  lemma {:induction false} BoundedNeverOverflows(m: Matrix, n: nat, b: nat)
    requires IsSquare(m, n) && EntriesWithin(m, n, b) && Bound(n, b) < 0x8000_0000
    ensures NoOverflow(m, n)
    decreases n
  {
    if n > 1 {
      BoundShrinks(n, b);
      forall f: nat | f < n
        ensures InRange(Sign(f) * m[0][f]) && InRange(Term(m, n, f)) && InRange(Expand(m, n, f + 1))
        ensures InRange(Det(Minor(m, n, 0, f), n - 1)) && NoOverflow(Minor(m, n, 0, f), n - 1)
      {
        TermStaysInRange(m, n, f, b);
        ExpandWithin(m, n, f + 1, b);
        AtMost(Expand(m, n, f + 1), Bound(n, b));
        BoundedNeverOverflows(Minor(m, n, 0, f), n - 1, b);
      }
    }
  }

  /** With entries of magnitude at most b and n! * b^n below 2^31, nothing overflows. */
  lemma SmallEntriesNeverOverflow(m: Matrix, n: nat, b: nat)
    requires IsSquare(m, n) && EntriesWithin(m, n, b)
    requires Factorial(n) * Power(b, n) < 0x8000_0000
    ensures NoOverflow(m, n) && InRange(Det(m, n))
  {
    BoundIsFactorialPower(n, b);
    DetWithin(m, n, b);
    AtMost(Det(m, n), Bound(n, b));
    BoundedNeverOverflows(m, n, b);
  }

  /** So the wrapped computation is exact, and its test against zero decides invertibility. */
  lemma SmallEntriesExact(m: Matrix, n: nat, b: nat)
    requires n > 0 && IsSquare(m, n) && Entries32(m, n) && EntriesWithin(m, n, b)
    requires Factorial(n) * Power(b, n) < 0x8000_0000
    ensures WordDet(m, n) == Det(m, n)
    ensures WordDet(m, n) != 0 <==> Invertible(m, n)
  {
    SmallEntriesNeverOverflow(m, n, b);
    WordDetIsWrapped(m, n);
    NonZeroDetIffInvertible(m, n);
  }

  /** For example 3 x 3 with entries up to 709, and 4 x 4 with entries up to 97. */
  lemma SmallSizes(m: Matrix, n: nat)
    requires n == 3 || n == 4
    requires IsSquare(m, n)
    requires forall i, j :: 0 <= i < n && 0 <= j < n ==> if n == 3 then -709 <= m[i][j] <= 709 else -97 <= m[i][j] <= 97
    ensures WordDet(m, n) != 0 <==> Invertible(m, n)
  {
    var b := if n == 3 then 709 else 97;
    BoundIsFactorialPower(n, b);
    assert Bound(3, 709) == 3 * (709 * (2 * (709 * (1 * (709 * 1)))));
    assert Bound(4, 97) == 4 * (97 * (3 * (97 * (2 * (97 * (1 * (97 * 1)))))));
    SmallEntriesExact(m, n, b);
  }
}
