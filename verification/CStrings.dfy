/** C string comparison as the programs use it, and the order it gives. */
module CStrings {
  /** Negative, zero or positive, like strcmp: the first differing character decides, the end counts as least. */
  function StrCmp(a: string, b: string): int {
    if a == [] && b == [] then 0
    else if a == [] then -1
    else if b == [] then 1
    else if a[0] != b[0] then a[0] as int - b[0] as int
    else StrCmp(a[1..], b[1..])
  }

  predicate StrLe(a: string, b: string) {
    StrCmp(a, b) <= 0
  }

  lemma {:induction false} ZeroMeansEqual(a: string, b: string)
    ensures StrCmp(a, b) == 0 <==> a == b
  {
    if a != [] && b != [] && a[0] == b[0] {
      ZeroMeansEqual(a[1..], b[1..]);
      assert a == [a[0]] + a[1..] && b == [b[0]] + b[1..];
    }
  }

  lemma {:induction false} Opposite(a: string, b: string)
    ensures StrCmp(a, b) < 0 <==> StrCmp(b, a) > 0
    ensures StrLe(a, b) || StrLe(b, a)
  {
    if a != [] && b != [] && a[0] == b[0] {
      Opposite(a[1..], b[1..]);
    }
  }

  lemma {:induction false} Transitive(a: string, b: string, c: string)
    requires StrLe(a, b) && StrLe(b, c)
    ensures StrLe(a, c)
    ensures StrCmp(a, b) < 0 || StrCmp(b, c) < 0 ==> StrCmp(a, c) < 0
  {
    if a != [] && b != [] && c != [] && a[0] == b[0] && b[0] == c[0] {
      Transitive(a[1..], b[1..], c[1..]);
    }
  }

  /** strcmp is a total order on strings. */
  lemma TotalOrder(a: string, b: string, c: string)
    ensures StrLe(a, b) || StrLe(b, a)
    ensures StrLe(a, b) && StrLe(b, a) ==> a == b
    ensures StrLe(a, b) && StrLe(b, c) ==> StrLe(a, c)
  {
    Opposite(a, b);
    Opposite(b, a);
    ZeroMeansEqual(a, b);
    if StrLe(a, b) && StrLe(b, c) {
      Transitive(a, b, c);
    }
  }

  // ---------- which order it is ----------

  /** Lexicographic order by character codes: a is a proper prefix of b, or less where they first differ. */
  ghost predicate Before(a: string, b: string) {
    || (|a| < |b| && a == b[..|a|])
    || exists k :: 0 <= k < |a| && k < |b| && a[..k] == b[..k] && a[k] < b[k]
  }

  lemma BeforeOfTails(a: string, b: string)
    requires a != [] && b != [] && a[0] == b[0] && Before(a[1..], b[1..])
    ensures Before(a, b)
  {
    var c, d := a[1..], b[1..];
    assert a == [a[0]] + c && b == [b[0]] + d;
    if |c| < |d| && c == d[..|c|] {
      assert b[..|a|] == [a[0]] + d[..|c|];
    } else {
      var k :| 0 <= k < |c| && k < |d| && c[..k] == d[..k] && c[k] < d[k];
      assert a[..k + 1] == [a[0]] + c[..k] && b[..k + 1] == [b[0]] + d[..k];
      assert a[k + 1] < b[k + 1];
    }
  }

  lemma TailsOfBefore(a: string, b: string)
    requires a != [] && b != [] && a[0] == b[0] && Before(a, b)
    ensures Before(a[1..], b[1..])
  {
    var c, d := a[1..], b[1..];
    if |a| < |b| && a == b[..|a|] {
      assert c == a[1..] == b[..|a|][1..] == d[..|c|];
    } else {
      var k :| 0 <= k < |a| && k < |b| && a[..k] == b[..k] && a[k] < b[k];
      assert k > 0;
      assert c[..k - 1] == a[..k][1..] == b[..k][1..] == d[..k - 1];
      assert c[k - 1] < d[k - 1];
    }
  }

  lemma HeadsDecide(a: string, b: string)
    requires a != [] && b != [] && a[0] != b[0]
    ensures Before(a, b) <==> a[0] < b[0]
  {
    if a[0] < b[0] {
      assert a[..0] == b[..0];
    }
    if Before(a, b) {
      if |a| < |b| && a == b[..|a|] {
        assert a[0] == b[..|a|][0];
      } else {
        var k :| 0 <= k < |a| && k < |b| && a[..k] == b[..k] && a[k] < b[k];
        if k > 0 {
          assert a[..k][0] == b[..k][0];
        }
      }
    }
  }

  /** strcmp is negative exactly if its first argument comes first. */
  lemma {:induction false} NegativeIffBefore(a: string, b: string)
    ensures StrCmp(a, b) < 0 <==> Before(a, b)
  {
    if a == [] || b == [] {
      assert a == [] ==> a == b[..0];
    } else if a[0] != b[0] {
      HeadsDecide(a, b);
    } else {
      NegativeIffBefore(a[1..], b[1..]);
      if Before(a, b) {
        TailsOfBefore(a, b);
      }
      if Before(a[1..], b[1..]) {
        BeforeOfTails(a, b);
      }
    }
  }

  lemma LeIffBefore(a: string, b: string)
    ensures StrLe(a, b) <==> a == b || Before(a, b)
  {
    NegativeIffBefore(a, b);
    ZeroMeansEqual(a, b);
  }
}
