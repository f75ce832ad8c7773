/**
 The ranges of rows that the m threads of Hw5 get, in the double arithmetic of the program, for a matrix
 of 2^n rows: whether they hold every row depends on m only, and on when m / m of rounded parts is 1.
 */
module RowRanges {
  import opened Common
  import opened Doubles

  function Quotient(size: nat, m: nat): real
    requires m > 0
  {
    Double(size as real / m as real)
  }

  function Multiple(i: nat, x: real): real {
    i as real * x
  }

  /** The first row of thread i, and the row at which thread i - 1 ends. */
  function Start(i: nat, size: nat, m: nat): int
    requires m > 0
  {
    Double(Multiple(i, Quotient(size, m))).Floor
  }

  /** Row x is in one of the first k ranges. */
  ghost predicate InSomeRange(x: nat, k: nat, size: nat, m: nat)
    requires m > 0
  {
    exists i: nat :: i < k && Start(i, size, m) <= x < Start(i + 1, size, m)
  }

  // ---------- the ranges follow one another ----------

  lemma QuotientNatural(size: nat, m: nat)
    requires m > 0
    ensures Quotient(size, m) >= 0.0
  {
    assert size as real / m as real >= 0.0;
    DoubleNatural(size as real / m as real);
  }

  lemma NextMultiple(i: nat, q: real)
    requires q >= 0.0
    ensures Multiple(i, q) <= Multiple(i + 1, q)
  {
    assert (i + 1) as real * q == i as real * q + q;
  }

  lemma FloorOrder(x: real, y: real)
    requires x <= y
    ensures x.Floor <= y.Floor
  {
  }

  lemma StartGrows(i: nat, size: nat, m: nat)
    requires m > 0
    ensures Start(i, size, m) <= Start(i + 1, size, m)
  {
    var q := Quotient(size, m);
    QuotientNatural(size, m);
    NextMultiple(i, q);
    DoubleOrder(Multiple(i, q), Multiple(i + 1, q));
    FloorOrder(Double(Multiple(i, q)), Double(Multiple(i + 1, q)));
  }

  lemma FirstStart(size: nat, m: nat)
    requires m > 0
    ensures Start(0, size, m) == 0
  {
    assert Multiple(0, Quotient(size, m)) == 0.0;
  }

  lemma {:induction false} StartsAscend(i: nat, j: nat, size: nat, m: nat)
    requires m > 0 && i <= j
    ensures 0 <= Start(i, size, m) <= Start(j, size, m)
  {
    if i < j {
      StartsAscend(i, j - 1, size, m);
      StartGrows(j - 1, size, m);
    } else if i > 0 {
      StartsAscend(i - 1, i - 1, size, m);
      StartGrows(i - 1, size, m);
    } else {
      FirstStart(size, m);
    }
  }

  lemma {:induction false} RangesCover(x: nat, k: nat, size: nat, m: nat)
    requires m > 0
    ensures InSomeRange(x, k, size, m) <==> x < Start(k, size, m)
  {
    FirstStart(size, m);
    if k > 0 {
      RangesCover(x, k - 1, size, m);
      StartGrows(k - 1, size, m);
      if InSomeRange(x, k, size, m) {
        var i: nat :| i < k && Start(i, size, m) <= x < Start(i + 1, size, m);
        if i < k - 1 {
          assert InSomeRange(x, k - 1, size, m);
        }
      }
      if InSomeRange(x, k - 1, size, m) {
        var i: nat :| i < k - 1 && Start(i, size, m) <= x < Start(i + 1, size, m);
        assert i < k;
      } else if x < Start(k, size, m) {
        assert Start(k - 1, size, m) <= x < Start(k - 1 + 1, size, m);
      }
    }
  }

  // ---------- where the last range ends ----------

  /** m times the m-th part of 1: 1, but for rounding. */
  function Whole(m: nat): real
    requires m > 0
  {
    Double(Multiple(m, Double(1.0 / m as real)))
  }

  lemma Regroup(a: nat, b: nat, x: real)
    ensures Multiple(a * b, x) == Multiple(a, Multiple(b, x))
  {
    assert (a * b) as real == a as real * b as real;
  }

  lemma {:induction false} DoubleScaled(x: real, k: nat)
    ensures Double(Multiple(Pow2(k), x)) == Multiple(Pow2(k), Double(x))
  {
    if k > 0 {
      DoubleScaled(x, k - 1);
      Regroup(2, Pow2(k - 1), x);
      DoubleOfDouble(Multiple(Pow2(k - 1), x));
      Regroup(2, Pow2(k - 1), Double(x));
    }
  }

  lemma Share(p: nat, m: nat)
    requires m > 0
    ensures p as real / m as real == Multiple(p, 1.0 / m as real)
    ensures p == m ==> Multiple(p, 1.0 / m as real) == 1.0
  {
    var part := 1.0 / m as real;
    assert part * m as real == 1.0;
    assert (p as real * part) * m as real == p as real * (part * m as real);
    DivisionUnique(p as real * part, p as real, m as real);
  }

  lemma Swap(p: nat, m: nat, x: real)
    ensures Multiple(m, Multiple(p, x)) == Multiple(p, Multiple(m, x))
  {
    Regroup(p, m, x);
    Regroup(m, p, x);
  }

  /** The last range ends at 2^n times that. */
  lemma LastEnd(n: nat, m: nat)
    requires m > 0
    ensures Start(m, Pow2(n), m) == Multiple(Pow2(n), Whole(m)).Floor
  {
    var part := 1.0 / m as real;
    Share(Pow2(n), m);
    DoubleScaled(part, n);
    Swap(Pow2(n), m, Double(part));
    DoubleScaled(Multiple(m, Double(part)), n);
  }

  // ---------- when that is 1 ----------

  function Log2(m: nat): (k: nat)
    requires m > 0
    ensures Pow2(k) <= m < 2 * Pow2(k)
  {
    if m == 1 then 0 else Log2(m / 2) + 1
  }

  /** 2^53 p, where p is the largest power of two up to m, leaves a remainder of more than p / 2 and less than m / 2. */
  predicate RoundsBelow(p: nat, m: nat)
    requires m > 0
  {
    p < 2 * (p * (2 * UNIT) % m) < m
  }

  predicate LosesLastRow(m: nat)
    requires m > 0
  {
    RoundsBelow(Pow2(Log2(m)), m)
  }

  lemma {:induction false} Pow2Adds(a: nat, b: nat)
    ensures Pow2(a + b) == Pow2(a) * Pow2(b)
  {
    if a > 0 {
      Pow2Adds(a - 1, b);
      assert Pow2(a) * Pow2(b) == 2 * (Pow2(a - 1) * Pow2(b));
    }
  }

  lemma UnitIsPow2()
    ensures Pow2(52) == UNIT
  {
    assert Pow2(13) == 8192;
    Pow2Adds(13, 13);
    Pow2Adds(26, 26);
  }

  lemma OddTimes(a: nat, d: nat, t: nat)
    requires a * d == 2 * t && d % 2 == 1
    ensures a % 2 == 0 && (a / 2) * d == t
  {
    var h := a / 2;
    var e := d / 2;
    assert (2 * h + 1) * (2 * e + 1) == 2 * (2 * h * e + h + e) + 1;
    if a % 2 == 0 {
      assert (2 * h) * d == 2 * (h * d);
    }
  }

  lemma {:induction false} OddDivisor(a: nat, d: nat, j: nat)
    requires a * d == Pow2(j) && d % 2 == 1
    ensures d == 1
  {
    if j == 0 {
      assert a > 0 && d > 0;
      assert a * d >= d;
    } else {
      OddTimes(a, d, Pow2(j - 1));
      OddDivisor(a / 2, d, j - 1);
    }
  }

  /** Half of m is no remainder of a power of two, unless the power is less than m. */
  lemma NoTie(m: nat, j: nat)
    requires 0 < m <= Pow2(j)
    ensures 2 * (Pow2(j) % m) != m
  {
    var quotient := Pow2(j) / m;
    if 2 * (Pow2(j) % m) == m {
      assert Pow2(j) == m * quotient + Pow2(j) % m;
      assert m * (2 * quotient + 1) == Pow2(j + 1);
      OddDivisor(m, 2 * quotient + 1, j + 1);
    }
  }

  /** Comparing a quotient y of a and m with c. */
  lemma Compare(y: real, a: real, c: real, m: real)
    requires m > 0.0 && y * m == a
    ensures (y < c <==> a < c * m) && (y <= c <==> a <= c * m)
  {
    ScaleReal(y, c, m);
  }

  lemma Between(f: real, rest: nat, m: nat)
    requires rest < m && f * m as real == rest as real
    ensures 0.0 <= f < 1.0 && (f < 0.5 <==> 2 * rest < m) && (f == 0.5 <==> 2 * rest == m)
  {
    Compare(f, rest as real, 0.0, m as real);
    Compare(f, rest as real, 1.0, m as real);
    Compare(f, rest as real, 0.5, m as real);
  }

  lemma SplitQuotient(x: real, quotient: nat, rest: nat, m: nat)
    requires x * m as real == (m * quotient + rest) as real
    ensures (x - quotient as real) * m as real == rest as real
  {
    assert (m * quotient) as real == m as real * quotient as real;
  }

  lemma NearestOf(x: real, quotient: nat, rest: nat, m: nat)
    requires rest < m && 2 * rest != m && x * m as real == (m * quotient + rest) as real
    ensures NearestEven(x) == quotient + if 2 * rest < m then 0 else 1
  {
    SplitQuotient(x, quotient, rest, m);
    Between(x - quotient as real, rest, m);
  }

  lemma Division(total: nat, m: nat)
    requires m > 0
    ensures total == m * (total / m) + total % m
    ensures m * (total / m + 1) == m * (total / m) + m
  {
  }

  /** The quotient of two integers, rounded, times the divisor. */
  lemma NearestQuotient(total: nat, m: nat)
    requires m > 0 && 2 * (total % m) != m
    ensures m * NearestEven(total as real / m as real)
         == total - total % m + if 2 * (total % m) < m then 0 else m
  {
    var x := total as real / m as real;
    assert x * m as real == total as real;
    Division(total, m);
    NearestOf(x, total / m, total % m, m);
  }

  /** 2^(k + 53), where 2^k is the largest power of two up to m. */
  function Scale(m: nat): (total: nat)
    requires m > 0
  {
    Pow2(Log2(m)) * (2 * UNIT)
  }

  lemma ScaleIsPow2(m: nat)
    requires m > 0
    ensures Scale(m) == Pow2(Log2(m) + 53)
  {
    UnitIsPow2();
    Pow2Adds(Log2(m), 53);
  }

  lemma TimesUnit(y: real, total: nat, p: nat, m: nat)
    requires m > 0 && y == (2 * p) as real / m as real && total == p * (2 * UNIT)
    ensures y * UNIT as real == total as real / m as real
  {
    assert y * m as real == (2 * p) as real;
    assert (y * UNIT as real) * m as real == (y * m as real) * UNIT as real;
    DivisionUnique(y * UNIT as real, total as real, m as real);
  }

  lemma FromOneToTwo(y: real, p: nat, m: nat)
    requires p < m < 2 * p && y == (2 * p) as real / m as real
    ensures 1.0 < y < 2.0
  {
    assert y * m as real == (2 * p) as real;
    Compare(y, (2 * p) as real, 1.0, m as real);
    Compare(y, (2 * p) as real, 2.0, m as real);
  }

  /** The rounded m-th part of 1, unless m is a power of two. */
  lemma PartOfOne(m: nat)
    requires m > 0 && Pow2(Log2(m)) < m
    ensures Multiple(Scale(m), Double(1.0 / m as real)) == NearestEven(Scale(m) as real / m as real) as real
  {
    var p, part := Pow2(Log2(m)), 1.0 / m as real;
    var y := (2 * p) as real / m as real;
    Share(2 * p, m);
    DoubleScaled(part, Log2(m) + 1);
    assert Double(y) == Multiple(2 * p, Double(part));
    FromOneToTwo(y, p, m);
    TimesUnit(y, Scale(m), p, m);
    assert Double(y) * UNIT as real == NearestEven(y * UNIT as real) as real;
    Regroup(UNIT, 2 * p, Double(part));
  }

  /** Above 1 by d / total, in units of the last bit. */
  lemma ExcessInUnits(z: real, p: nat, d: int)
    requires Multiple(p * (2 * UNIT), z) == (p * (2 * UNIT) + d) as real
    ensures (z * UNIT as real - UNIT as real) * (2 * p) as real == d as real
  {
    var q := p as real;
    assert (p * (2 * UNIT)) as real == q * (2 * UNIT) as real;
    assert (q * (2 * UNIT) as real) * z == (z * UNIT as real) * (2.0 * q);
    assert (z * UNIT as real - UNIT as real) * (2.0 * q) == (z * UNIT as real) * (2.0 * q) - UNIT as real * (2.0 * q);
  }

  lemma NearestAbove(f: real)
    requires 0.0 <= f < 0.5
    ensures NearestEven(f + UNIT as real) == UNIT
  {
    assert (f + UNIT as real).Floor == UNIT;
  }

  lemma OneOf(z: real)
    requires z >= 1.0 && z < 2.0 && NearestEven(z * UNIT as real) == UNIT
    ensures Double(z) == 1.0
  {
  }

  /** A number a little above 1 is rounded to it. */
  lemma RoundsDown(z: real, p: nat, d: nat)
    requires d < p && Multiple(p * (2 * UNIT), z) == (p * (2 * UNIT) + d) as real
    ensures Double(z) == 1.0
  {
    var f := z * UNIT as real - UNIT as real;
    ExcessInUnits(z, p, d);
    Compare(f, d as real, 0.0, (2 * p) as real);
    Compare(f, d as real, 0.5, (2 * p) as real);
    NearestAbove(f);
    OneOf(z);
  }

  lemma NearestBelow(f: real)
    requires 0.0 < f < 1.0
    ensures NearestEven((2 * UNIT) as real - f) == 2 * UNIT - if f > 0.5 then 1 else 0
  {
    assert ((2 * UNIT) as real - f).Floor == 2 * UNIT - 1;
  }

  lemma HalfOf(z: real, k: int)
    requires 0.5 <= z < 1.0 && NearestEven((2.0 * z) * UNIT as real) == k
    ensures Double(z) == k as real / (2 * UNIT) as real
  {
  }

  lemma Negated(e: real, p: nat, d: int)
    requires e * (2 * p) as real == -(d as real)
    ensures (-2.0 * e) * p as real == d as real
  {
    assert (2 * p) as real == 2.0 * p as real;
  }

  /** A number a little below 1 is rounded to it or to the one before it. */
  lemma RoundsUp(z: real, p: nat, d: int)
    requires 0 < d < p && Multiple(p * (2 * UNIT), z) == (p * (2 * UNIT) - d) as real
    ensures Double(z) == if p < 2 * d then (2 * UNIT - 1) as real / (2 * UNIT) as real else 1.0
  {
    var f := -2.0 * (z * UNIT as real - UNIT as real);
    ExcessInUnits(z, p, -d);
    Negated(z * UNIT as real - UNIT as real, p, d);
    Compare(f, d as real, 0.0, p as real);
    Compare(f, d as real, 1.0, p as real);
    Compare(f, d as real, 0.5, p as real);
    NearestBelow(f);
    HalfOf(z, 2 * UNIT - if f > 0.5 then 1 else 0);
  }

  lemma KeepsOrder(a: int, b: int, m: nat)
    ensures a <= b ==> m * a <= m * b
  {
  }

  lemma RestIsZero(a: nat, b: nat, quotient: nat, rest: nat)
    requires a * b == a * quotient + rest && rest < a
    ensures rest == 0
  {
    KeepsOrder(quotient + 1, b, a);
    KeepsOrder(b, quotient, a);
  }

  lemma NoRest(a: nat, b: nat)
    requires a > 0
    ensures a * b % a == 0
  {
    Division(a * b, a);
    RestIsZero(a, b, a * b / a, a * b % a);
  }

  lemma OneIsDouble()
    ensures Double(1.0) == 1.0
  {
    NearestEvenExact(UNIT);
    OneOf(1.0);
  }

  lemma WholeOfPow2(m: nat)
    requires m > 0 && Pow2(Log2(m)) == m
    ensures Whole(m) == 1.0 && !LosesLastRow(m)
  {
    OneIsDouble();
    Share(m, m);
    DoubleScaled(1.0 / m as real, Log2(m));
    NoRest(m, 2 * UNIT);
  }

  lemma MultipleOfInt(m: nat, k: int)
    ensures Multiple(m, k as real) == (m * k) as real
  {
  }

  lemma EnoughPow2(k: nat)
    ensures 2 * Pow2(k) <= Pow2(k + 53)
  {
    UnitIsPow2();
    Pow2Adds(k, 53);
  }

  /** m times the rounded m-th part of 1, in units of 1 / Scale(m). */
  lemma TimesPart(m: nat)
    requires m > 0 && Pow2(Log2(m)) < m
    ensures 2 * (Scale(m) % m) != m
    ensures Multiple(Scale(m), Multiple(m, Double(1.0 / m as real)))
         == (Scale(m) - Scale(m) % m + if 2 * (Scale(m) % m) < m then 0 else m) as real
  {
    ScaleIsPow2(m);
    EnoughPow2(Log2(m));
    NoTie(m, Log2(m) + 53);
    NearestQuotient(Scale(m), m);
    PartOfOne(m);
    Swap(Scale(m), m, Double(1.0 / m as real));
    MultipleOfInt(m, NearestEven(Scale(m) as real / m as real));
  }

  /** Where the m-th part of 1 is rounded down too far, m times that is the number just before 1, and else 1. */
  lemma WholeIs(m: nat)
    requires m > 0
    ensures Whole(m) == if LosesLastRow(m) then (2 * UNIT - 1) as real / (2 * UNIT) as real else 1.0
  {
    var p, z := Pow2(Log2(m)), Multiple(m, Double(1.0 / m as real));
    if p == m {
      WholeOfPow2(m);
    } else {
      var rest := Scale(m) % m;
      TimesPart(m);
      if 2 * rest >= m {
        RoundsDown(z, p, m - rest);
      } else if rest > 0 {
        RoundsUp(z, p, rest);
      } else {
        RoundsDown(z, p, 0);
      }
    }
  }

  // ---------- when the ranges hold every row ----------

  lemma LastFloor(size: nat)
    requires size > 0
    ensures Multiple(size, 1.0).Floor == size
    ensures Multiple(size, (2 * UNIT - 1) as real / (2 * UNIT) as real).Floor < size
    ensures size <= 2 * UNIT ==> Multiple(size, (2 * UNIT - 1) as real / (2 * UNIT) as real).Floor == size - 1
  {
  }

  /** The m ranges hold exactly the rows of the matrix. */
  ghost predicate HoldAllRows(size: nat, m: nat)
    requires m > 0
  {
    forall x: nat :: InSomeRange(x, m, size, m) <==> x < size
  }

  /** In doubles, m ranges hold exactly the 2^n rows if and only if m does not satisfy the condition. */
  lemma RangesTileIff(n: nat, m: nat)
    requires m > 0
    ensures HoldAllRows(Pow2(n), m) <==> !LosesLastRow(m)
  {
    var size := Pow2(n);
    LastEnd(n, m);
    WholeIs(m);
    LastFloor(size);
    forall x: nat
      ensures InSomeRange(x, m, size, m) <==> x < Start(m, size, m)
    {
      RangesCover(x, m, size, m);
    }
    if LosesLastRow(m) {
      assert size - 1 < size && !InSomeRange(size - 1, m, size, m);
    }
  }

  lemma Pow2Below(n: nat)
    requires n <= 53
    ensures Pow2(n) <= 2 * UNIT
  {
    UnitIsPow2();
    Pow2Adds(n, 53 - n);
    assert Pow2(53) == 2 * UNIT;
    assert Pow2(n) * Pow2(53 - n) >= Pow2(n) * 1;
  }

  /** If it does, the last row is in no range, whatever the size, and it is the only one. */
  lemma OnlyLastIsLost(n: nat, m: nat, x: nat)
    requires n <= 53 && m > 0 && LosesLastRow(m)
    ensures InSomeRange(x, m, Pow2(n), m) <==> x < Pow2(n) - 1
  {
    LastEnd(n, m);
    WholeIs(m);
    Pow2Below(n);
    LastFloor(Pow2(n));
    RangesCover(x, m, Pow2(n), m);
  }

  lemma {:induction false} Log2OfPow2(k: nat)
    ensures Log2(Pow2(k)) == k
  {
    if k > 0 {
      Log2OfPow2(k - 1);
    }
  }

  lemma PowersOfTwoTile(k: nat)
    ensures !LosesLastRow(Pow2(k))
  {
    Log2OfPow2(k);
    WholeOfPow2(Pow2(k));
  }

  /** None of lo, lo + 2, and so on below hi does. */
  predicate NoneRoundsBelow(p: nat, lo: nat, hi: nat)
    requires lo > 0
    decreases hi - lo
  {
    lo >= hi || (!RoundsBelow(p, lo) && NoneRoundsBelow(p, lo + 2, hi))
  }

  lemma {:induction false} NoneIsNone(p: nat, lo: nat, hi: nat, m: nat)
    requires 0 < lo <= m < hi && (m - lo) % 2 == 0 && NoneRoundsBelow(p, lo, hi)
    ensures !RoundsBelow(p, m)
    decreases hi - lo
  {
    if lo < m {
      NoneIsNone(p, lo + 2, hi, m);
    }
  }

  lemma EvenBelow16(m: nat)
    requires 2 <= m < 16 && m % 2 == 0
    ensures !RoundsBelow(if m < 4 then 2 else if m < 8 then 4 else 8, m)
  {
    assert NoneRoundsBelow(2, 2, 4) && NoneRoundsBelow(4, 4, 8) && NoneRoundsBelow(8, 8, 16);
    if m < 4 {
      NoneIsNone(2, 2, 4, m);
    } else if m < 8 {
      NoneIsNone(4, 4, 8, m);
    } else {
      NoneIsNone(8, 8, 16, m);
    }
  }

  lemma EvenFrom16(m: nat)
    requires 16 <= m < 32 && m % 2 == 0
    ensures !RoundsBelow(16, m)
  {
    assert NoneRoundsBelow(16, 16, 32);
    NoneIsNone(16, 16, 32, m);
  }

  lemma EvenFrom32(m: nat)
    requires 32 <= m < 48 && m % 2 == 0
    ensures !RoundsBelow(32, m)
  {
    assert NoneRoundsBelow(32, 32, 48);
    NoneIsNone(32, 32, 48, m);
  }

  lemma EvenFrom48(m: nat)
    requires 48 <= m < 64 && m % 2 == 0
    ensures !RoundsBelow(32, m)
  {
    assert NoneRoundsBelow(32, 48, 64);
    NoneIsNone(32, 48, 64, m);
  }

  lemma EvenFrom64(m: nat)
    requires 64 <= m < 80 && m % 2 == 0
    ensures !RoundsBelow(64, m)
  {
    assert NoneRoundsBelow(64, 64, 80);
    NoneIsNone(64, 64, 80, m);
  }

  lemma EvenFrom80(m: nat)
    requires 80 <= m < 90 && m % 2 == 0
    ensures !RoundsBelow(64, m)
  {
    assert NoneRoundsBelow(64, 80, 90);
    NoneIsNone(64, 80, 90, m);
  }

  lemma EvenFrom90(m: nat)
    requires 90 <= m < 98 && m % 2 == 0
    ensures !RoundsBelow(64, m)
  {
    assert NoneRoundsBelow(64, 90, 98);
    NoneIsNone(64, 90, 98, m);
  }

  lemma SmallLog2(m: nat)
    requires 2 <= m < 128
    ensures Pow2(Log2(m)) == if m < 4 then 2 else if m < 8 then 4 else if m < 16 then 8
      else if m < 32 then 16 else if m < 64 then 32 else 64
  {
    assert Pow2(0) == 1 && Pow2(1) == 2 && Pow2(2) == 4 && Pow2(3) == 8;
    assert Pow2(4) == 16 && Pow2(5) == 32 && Pow2(6) == 64 && Pow2(7) == 128;
    var k := Log2(m);
    if k >= 7 {
      Pow2Adds(7, k - 7);
    }
  }

  lemma EvenBelow98(m: nat)
    requires 0 < m < 98 && m % 2 == 0
    ensures !LosesLastRow(m)
  {
    SmallLog2(m);
    if m < 16 {
      EvenBelow16(m);
    } else if m < 32 {
      EvenFrom16(m);
    } else if m < 48 {
      EvenFrom32(m);
    } else if m < 64 {
      EvenFrom48(m);
    } else if m < 80 {
      EvenFrom64(m);
    } else if m < 90 {
      EvenFrom80(m);
    } else {
      EvenFrom90(m);
    }
  }

  lemma NinetyEightRoundsBelow()
    ensures RoundsBelow(64, 98)
  {
  }

  lemma NinetyEightLose(m: nat)
    requires m == 98
    ensures LosesLastRow(m)
  {
    SmallLog2(m);
    NinetyEightRoundsBelow();
  }

  /**
   98 is the least even number of threads with which the program leaves out a row: the last one, for a
   matrix of any size.
   */
  lemma NinetyEightIsTheFirst(n: nat)
    requires 2 <= n <= 53
    ensures LosesLastRow(98) && !InSomeRange(Pow2(n) - 1, 98, Pow2(n), 98)
    ensures forall m: nat :: 0 < m < 98 && m % 2 == 0 ==> !LosesLastRow(m)
  {
    NinetyEightLose(98);
    OnlyLastIsLost(n, 98, Pow2(n) - 1);
    forall m: nat | 0 < m < 98 && m % 2 == 0
      ensures !LosesLastRow(m)
    {
      EvenBelow98(m);
    }
  }

  // ---------- where the other ranges begin ----------

  lemma WithinMultiple(i: nat, x: real, rounded: real)
    requires Within(x, rounded)
    ensures Within(Multiple(i, x), Multiple(i, rounded))
  {
    var c := i as real;
    assert (c * rounded - c * x) * (2 * UNIT) as real == c * ((rounded - x) * (2 * UNIT) as real);
    assert c * ((rounded - x) * (2 * UNIT) as real) <= c * x;
    assert c * -x <= c * ((rounded - x) * (2 * UNIT) as real);
  }

  /** What is left after two roundings. */
  predicate NearlyWithin(x: real, z: real) {
    -3.0 * x <= (z - x) * (2 * UNIT) as real <= 3.0 * x
  }

  lemma WithinTwoRoundings(x: real, y: real, z: real)
    requires x >= 0.0 && Within(x, y) && Within(y, z)
    ensures NearlyWithin(x, z)
  {
  }

  lemma ErrorTimes(x: real, z: real, m: real)
    requires m > 0.0 && NearlyWithin(x, z)
    ensures NearlyWithin(x * m, z * m)
  {
    ScaleReal(-3.0 * x, (z - x) * (2 * UNIT) as real, m);
    ScaleReal((z - x) * (2 * UNIT) as real, 3.0 * x, m);
    assert ((z - x) * (2 * UNIT) as real) * m == (z * m - x * m) * (2 * UNIT) as real;
  }

  lemma LessThanOne(a: real, b: real)
    requires a <= (UNIT / 2) as real && NearlyWithin(a, b)
    ensures -1.0 < b - a < 1.0
  {
    ScaleReal(-1.0, b - a, (2 * UNIT) as real);
    ScaleReal(b - a, 1.0, (2 * UNIT) as real);
  }

  lemma IntTimes(k: int, m: nat)
    ensures k as real * m as real == (k * m) as real
  {
  }

  lemma IntBelow(k: int, z: real, m: nat, a: int)
    requires m > 0 && k as real <= z && z * m as real < (a + 1) as real
    ensures k * m <= a
  {
    ScaleReal(k as real, z, m as real);
    IntTimes(k, m);
    assert (k * m) as real < (a + 1) as real;
  }

  lemma IntAbove(k: int, z: real, m: nat, a: int)
    requires m > 0 && z <= k as real && (a - 1) as real < z * m as real
    ensures a <= k * m
  {
    ScaleReal(z, k as real, m as real);
    IntTimes(k, m);
    assert (a - 1) as real < (k * m) as real;
  }

  lemma FloorTimes(z: real, m: nat, a: int)
    requires m > 0 && -1.0 < z * m as real - a as real < 1.0
    ensures z.Floor * m <= a <= (z.Floor + 1) * m
  {
    IntBelow(z.Floor, z, m, a);
    IntAbove(z.Floor + 1, z, m, a);
  }

  lemma SmallError(x: real, z: real, m: nat, a: nat)
    requires m > 0 && x * m as real == a as real && a <= UNIT / 2 && NearlyWithin(x, z)
    ensures z.Floor * m <= a <= (z.Floor + 1) * m
  {
    ErrorTimes(x, z, m as real);
    LessThanOne(a as real, z * m as real);
    FloorTimes(z, m, a);
  }

  lemma ShareTimes(i: nat, size: nat, m: nat)
    requires m > 0
    ensures Multiple(i, size as real / m as real) * m as real == (i * size) as real
  {
    var part := size as real / m as real;
    assert part * m as real == size as real;
    assert (i as real * part) * m as real == i as real * (part * m as real);
  }

  lemma ShareNatural(size: nat, m: nat)
    requires m > 0
    ensures size as real / m as real >= 0.0
  {
  }

  lemma RoundedTwice(i: nat, size: nat, m: nat)
    requires m > 0
    ensures NearlyWithin(Multiple(i, size as real / m as real), Double(Multiple(i, Quotient(size, m))))
  {
    var part, q := size as real / m as real, Quotient(size, m);
    ShareNatural(size, m);
    DoubleIsClose(part);
    WithinMultiple(i, part, q);
    QuotientNatural(size, m);
    DoubleIsClose(Multiple(i, q));
    WithinTwoRoundings(Multiple(i, part), Multiple(i, q), Double(Multiple(i, q)));
  }

  lemma StartNear(i: nat, size: nat, m: nat, a: nat)
    requires 0 < m && a <= UNIT / 2 && Multiple(i, size as real / m as real) * m as real == a as real
    ensures Start(i, size, m) * m <= a <= (Start(i, size, m) + 1) * m
  {
    RoundedTwice(i, size, m);
    SmallError(Multiple(i, size as real / m as real), Double(Multiple(i, Quotient(size, m))), m, a);
  }

  /**
   A range begins where the exact quotient says, or, where i * size is a multiple of m, perhaps one row
   earlier: rounding costs no more as long as size * m is small enough.
   */
  lemma StartBounds(i: nat, size: nat, m: nat)
    requires 0 < m && i <= m && size * m <= UNIT / 2
    ensures Start(i, size, m) * m <= i * size <= (Start(i, size, m) + 1) * m
  {
    var a := i * size;
    assert a <= UNIT / 2 by {
      KeepsOrder(i, m, size);
    }
    ShareTimes(i, size, m);
    StartNear(i, size, m, a);
  }
}
