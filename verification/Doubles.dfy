/**
 Double precision: the rounding of a real to 53 significant bits, to the nearest and in a tie to the even
 one (IEEE 754-2019, sections 3.3 and 4.3.1). The range of exponents has no limit here.
 */
module Doubles {
  import opened Common

  function Pow2(k: nat): (p: nat)
    ensures p > 0
  {
    if k == 0 then 1 else 2 * Pow2(k - 1)
  }

  /** The integers from UNIT to 2 UNIT have 53 bits. */
  const UNIT: nat := 0x10_0000_0000_0000

  /** The nearest integer, in a tie the even one. */
  function NearestEven(x: real): int {
    var below := x.Floor;
    var rest := x - below as real;
    if rest < 0.5 || (rest == 0.5 && below % 2 == 0) then below else below + 1
  }

  lemma HalfFloor(x: real)
    requires x >= 2.0
    ensures 0 <= (x / 2.0).Floor < x.Floor
  {
  }

  lemma HalfInverse(x: real)
    requires 0.0 < x < 1.0
    ensures 2.0 * x < 1.0 ==> 0 <= (1.0 / (2.0 * x)).Floor < (1.0 / x).Floor
  {
    if 2.0 * x < 1.0 {
      var y := 1.0 / x;
      assert y * x == 1.0;
      assert y > 2.0;
      DivisionUnique(y / 2.0, 1.0, 2.0 * x);
      HalfFloor(y);
    }
  }

  /** A number from 1 to 2 to the nearest multiple of 1 / UNIT; any other is scaled there and back. */
  function Double(x: real): real
    decreases x < 0.0, x < 1.0, if x >= 1.0 then x.Floor else if x > 0.0 then (1.0 / x).Floor else 0
  {
    if x < 0.0 then -Double(-x)
    else if x == 0.0 then 0.0
    else if x < 1.0 then (HalfInverse(x); Double(2.0 * x) / 2.0)
    else if x < 2.0 then NearestEven(x * UNIT as real) as real / UNIT as real
    else (HalfFloor(x); 2.0 * Double(x / 2.0))
  }

  // ---------- it doubles and it keeps the order ----------

  lemma DoubleOfPositive(x: real)
    requires x > 0.0
    ensures Double(2.0 * x) == 2.0 * Double(x)
  {
    if x >= 1.0 {
      assert 2.0 * x / 2.0 == x;
    }
  }

  lemma DoubleOfDouble(x: real)
    ensures Double(2.0 * x) == 2.0 * Double(x)
  {
    if x < 0.0 {
      DoubleOfPositive(-x);
      assert 2.0 * x == -(2.0 * -x);
    } else if x > 0.0 {
      DoubleOfPositive(x);
    }
  }

  lemma NearestEvenNear(x: real)
    ensures x - 0.5 <= NearestEven(x) as real <= x + 0.5
  {
  }

  lemma NearestEvenOrder(x: real, y: real)
    requires x <= y
    ensures NearestEven(x) <= NearestEven(y)
  {
  }

  lemma NearestEvenExact(k: int)
    ensures NearestEven(k as real) == k
  {
  }

  lemma OverUnit(a: int, b: int)
    requires a <= b
    ensures a as real / UNIT as real <= b as real / UNIT as real
  {
  }

  /** A number from 1 to 2 stays there. */
  lemma DoubleFromOne(x: real)
    requires 1.0 <= x < 2.0
    ensures 1.0 <= Double(x) <= 2.0
  {
    NearestEvenOrder(UNIT as real, x * UNIT as real);
    NearestEvenOrder(x * UNIT as real, (2 * UNIT) as real);
    NearestEvenExact(UNIT);
    NearestEvenExact(2 * UNIT);
    OverUnit(UNIT, NearestEven(x * UNIT as real));
    OverUnit(NearestEven(x * UNIT as real), 2 * UNIT);
  }

  lemma {:induction false} DoubleBelowOne(x: real)
    requires 0.0 <= x < 1.0
    ensures 0.0 <= Double(x) <= 1.0
    decreases if x > 0.0 then (1.0 / x).Floor else 0
  {
    if x > 0.0 {
      if 2.0 * x < 1.0 {
        HalfInverse(x);
        DoubleBelowOne(2.0 * x);
      } else {
        DoubleFromOne(2.0 * x);
      }
    }
  }

  lemma {:induction false} DoubleAboveTwo(x: real)
    requires x >= 2.0
    ensures Double(x) >= 2.0
    decreases x.Floor
  {
    HalfFloor(x);
    if x / 2.0 < 2.0 {
      DoubleFromOne(x / 2.0);
    } else {
      DoubleAboveTwo(x / 2.0);
    }
  }

  lemma DoubleNatural(x: real)
    requires x >= 0.0
    ensures Double(x) >= 0.0
  {
    if x < 1.0 {
      DoubleBelowOne(x);
    } else if x < 2.0 {
      DoubleFromOne(x);
    } else {
      DoubleAboveTwo(x);
    }
  }

  lemma DoubleOrderNear(x: real, y: real)
    requires 1.0 <= x <= y < 2.0
    ensures Double(x) <= Double(y)
  {
    NearestEvenOrder(x * UNIT as real, y * UNIT as real);
    OverUnit(NearestEven(x * UNIT as real), NearestEven(y * UNIT as real));
  }

  lemma {:induction false} DoubleOrderSmall(x: real, y: real)
    requires 0.0 < x <= y < 1.0
    ensures Double(x) <= Double(y)
    decreases (1.0 / x).Floor
  {
    if 2.0 * y < 1.0 {
      HalfInverse(x);
      DoubleOrderSmall(2.0 * x, 2.0 * y);
    } else if 2.0 * x < 1.0 {
      DoubleBelowOne(2.0 * x);
      DoubleFromOne(2.0 * y);
    } else {
      DoubleOrderNear(2.0 * x, 2.0 * y);
    }
  }

  lemma {:induction false} DoubleOrderLarge(x: real, y: real)
    requires 1.0 <= x <= y
    ensures Double(x) <= Double(y)
    decreases y.Floor
  {
    if y < 2.0 {
      DoubleOrderNear(x, y);
    } else if x < 2.0 {
      DoubleFromOne(x);
      DoubleAboveTwo(y);
    } else {
      HalfFloor(y);
      DoubleOrderLarge(x / 2.0, y / 2.0);
    }
  }

  lemma DoubleOrderPositive(x: real, y: real)
    requires 0.0 <= x <= y
    ensures Double(x) <= Double(y)
  {
    if x == 0.0 {
      DoubleNatural(y);
    } else if y < 1.0 {
      DoubleOrderSmall(x, y);
    } else if x < 1.0 {
      DoubleBelowOne(x);
      DoubleOrderLarge(1.0, y);
      NearestEvenExact(UNIT);
    } else {
      DoubleOrderLarge(x, y);
    }
  }

  lemma DoubleOrder(x: real, y: real)
    requires x <= y
    ensures Double(x) <= Double(y)
  {
    if x >= 0.0 {
      DoubleOrderPositive(x, y);
    } else if y >= 0.0 {
      DoubleNatural(-x);
      DoubleNatural(y);
    } else {
      DoubleOrderPositive(-y, -x);
    }
  }

  // ---------- how far it is off ----------

  /** The rounded number is off by at most the 2 UNIT-th part. */
  predicate Within(x: real, rounded: real) {
    -x <= (rounded - x) * (2 * UNIT) as real <= x
  }

  lemma WithinTwice(x: real, rounded: real)
    ensures Within(2.0 * x, 2.0 * rounded) <==> Within(x, rounded)
  {
    assert (2.0 * rounded - 2.0 * x) * (2 * UNIT) as real == 2.0 * ((rounded - x) * (2 * UNIT) as real);
  }

  lemma CloseFromOne(x: real)
    requires 1.0 <= x < 2.0
    ensures Within(x, Double(x))
  {
    var k := NearestEven(x * UNIT as real);
    NearestEvenNear(x * UNIT as real);
    assert Double(x) * UNIT as real == k as real;
  }

  lemma {:induction false} CloseSmall(x: real)
    requires 0.0 < x < 1.0
    ensures Within(x, Double(x))
    decreases (1.0 / x).Floor
  {
    if 2.0 * x < 1.0 {
      HalfInverse(x);
      CloseSmall(2.0 * x);
    } else {
      CloseFromOne(2.0 * x);
    }
    WithinTwice(x, Double(x));
  }

  lemma {:induction false} CloseLarge(x: real)
    requires x >= 1.0
    ensures Within(x, Double(x))
    decreases x.Floor
  {
    if x < 2.0 {
      CloseFromOne(x);
    } else {
      HalfFloor(x);
      CloseLarge(x / 2.0);
      WithinTwice(x / 2.0, Double(x / 2.0));
    }
  }

  lemma DoubleIsClose(x: real)
    requires x >= 0.0
    ensures Within(x, Double(x))
  {
    if 0.0 < x < 1.0 {
      CloseSmall(x);
    } else if x >= 1.0 {
      CloseLarge(x);
    }
  }

  // ---------- which number it is ----------

  /** NearestEven is the integer at most a half away, of two such the even one. */
  lemma NearestEvenIff(x: real, k: int)
    ensures NearestEven(x) == k
       <==> (-0.5 < x - k as real < 0.5) || ((x - k as real == 0.5 || x - k as real == -0.5) && k % 2 == 0)
  {
  }

  /** From 1 to 2: the nearest multiple of 2^-52, in a tie the even one. */
  lemma DoubleIff(x: real, k: int)
    requires 1.0 <= x < 2.0
    ensures var rest := x * 4503599627370496.0 - k as real;
      Double(x) * 4503599627370496.0 == k as real
      <==> (-0.5 < rest < 0.5) || ((rest == 0.5 || rest == -0.5) && k % 2 == 0)
  {
    NearestEvenIff(x * UNIT as real, k);
    assert Double(x) * UNIT as real == NearestEven(x * UNIT as real) as real;
  }

  lemma DoubleIsOdd(x: real)
    ensures Double(-x) == -Double(x)
  {
  }
}
