/** Adding up over the members of a pool, and what changing one member does to the total. */
module Tallies {
  function Tally<T>(s: seq<T>, f: T -> nat): nat {
    if s == [] then 0 else f(s[0]) + Tally(s[1..], f)
  }

  lemma {:induction false} TallyUpdate<T>(s: seq<T>, i: nat, x: T, f: T -> nat)
    requires i < |s|
    ensures Tally(s[i := x], f) == Tally(s, f) - f(s[i]) + f(x)
    ensures Tally(s, f) >= f(s[i])
    decreases |s|
  {
    if i > 0 {
      TallyUpdate(s[1..], i - 1, x, f);
      assert s[i := x][1..] == s[1..][i - 1 := x];
    } else {
      assert s[0 := x][1..] == s[1..];
    }
  }

  lemma {:induction false} TallyAppend<T>(s: seq<T>, x: T, f: T -> nat)
    ensures Tally(s + [x], f) == Tally(s, f) + f(x)
    decreases |s|
  {
    if s != [] {
      TallyAppend(s[1..], x, f);
      assert (s + [x])[1..] == s[1..] + [x];
    }
  }

  lemma {:induction false} TallyZero<T>(s: seq<T>, f: T -> nat)
    ensures Tally(s, f) == 0 <==> forall i :: 0 <= i < |s| ==> f(s[i]) == 0
    decreases |s|
  {
    if s != [] {
      TallyZero(s[1..], f);
      assert forall i :: 0 < i < |s| ==> s[i] == s[1..][i - 1];
      assert forall i :: 0 <= i < |s| - 1 ==> s[1..][i] == s[i + 1];
    }
  }

  lemma {:induction false} TallyAtMost<T>(s: seq<T>, f: T -> nat)
    requires forall i :: 0 <= i < |s| ==> f(s[i]) <= 1
    ensures Tally(s, f) <= |s|
    decreases |s|
  {
    if s != [] {
      assert forall i :: 0 <= i < |s| - 1 ==> s[1..][i] == s[i + 1];
      TallyAtMost(s[1..], f);
    }
  }

  /** Two members that count cannot be different when the total is at most one. */
  lemma {:induction false} TallyOne<T>(s: seq<T>, f: T -> nat, i: nat, j: nat)
    requires i < j < |s| && f(s[i]) > 0 && f(s[j]) > 0
    ensures Tally(s, f) >= 2
    decreases |s|
  {
    if i > 0 {
      TallyOne(s[1..], f, i - 1, j - 1);
    } else {
      TallyUpdate(s[1..], j - 1, s[j], f);
    }
  }

  lemma TallyOfOne<T>(s: seq<T>, f: T -> nat)
    requires |s| == 1
    ensures Tally(s, f) == f(s[0])
  {
    assert s[1..] == [];
  }

  ghost function Gather<T, U>(s: seq<T>, f: T -> multiset<U>): multiset<U> {
    if s == [] then multiset{} else f(s[0]) + Gather(s[1..], f)
  }

  lemma {:induction false} GatherUpdate<T, U>(s: seq<T>, i: nat, x: T, f: T -> multiset<U>)
    requires i < |s|
    ensures Gather(s[i := x], f) + f(s[i]) == Gather(s, f) + f(x)
    decreases |s|
  {
    if i > 0 {
      GatherUpdate(s[1..], i - 1, x, f);
      assert s[i := x][1..] == s[1..][i - 1 := x];
      var first, before, after := f(s[0]), Gather(s[1..], f), Gather(s[1..][i - 1 := x], f);
      assert (first + after) + f(s[i]) == first + (after + f(s[i]));
      assert (first + before) + f(x) == first + (before + f(x));
    } else {
      assert s[0 := x][1..] == s[1..];
    }
  }

  lemma {:induction false} GatherEmpty<T, U>(s: seq<T>, f: T -> multiset<U>)
    requires forall i :: 0 <= i < |s| ==> f(s[i]) == multiset{}
    ensures Gather(s, f) == multiset{}
    decreases |s|
  {
    if s != [] {
      assert forall i :: 0 <= i < |s| - 1 ==> s[1..][i] == s[i + 1];
      GatherEmpty(s[1..], f);
    }
  }
}
