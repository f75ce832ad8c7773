/** The in-place sort of the city folders (Final/src/structs.c), and why its result is canonical. */
module FolderSort {
  import opened CStrings

  ghost predicate Sorted(s: seq<string>) {
    forall i, j :: 0 <= i < j < |s| ==> StrLe(s[i], s[j])
  }

  ghost predicate SameNames(s: seq<string>, t: seq<string>) {
    multiset(s) == multiset(t)
  }

  /** In order means: each name is equal to the ones behind it or comes before them. */
  lemma SortedIsAscending(s: seq<string>)
    requires Sorted(s)
    ensures forall i, j :: 0 <= i < j < |s| ==> s[i] == s[j] || Before(s[i], s[j])
  {
    forall i, j | 0 <= i < j < |s|
      ensures s[i] == s[j] || Before(s[i], s[j])
    {
      LeIffBefore(s[i], s[j]);
    }
  }

  method SwapFile(directory: array<string>, i: nat, j: nat)
    requires i < directory.Length && j < directory.Length
    modifies directory
    ensures directory[..] == old(directory[..])[i := old(directory[j])][j := old(directory[i])]
    ensures SameNames(directory[..], old(directory[..]))
  {
    var temp := directory[i];
    directory[i] := directory[j];
    directory[j] := temp;
  }

  /** Entry i is no greater than the entries from i + 1 up to j. */
  ghost predicate LeastUpTo(s: seq<string>, i: nat, j: nat)
    requires i < j <= |s|
  {
    forall k :: i < k < j ==> StrLe(s[i], s[k])
  }

  /** The first i entries are in order, and no greater than any later entry. */
  ghost predicate Placed(s: seq<string>, i: nat)
    requires i <= |s|
  {
    forall a, b :: 0 <= a < i && a < b < |s| ==> StrLe(s[a], s[b])
  }

  lemma CompareStep(s: seq<string>, i: nat, j: nat)
    requires i < j < |s| && Placed(s, i) && LeastUpTo(s, i, j)
    ensures var t := if StrCmp(s[i], s[j]) > 0 then s[i := s[j]][j := s[i]] else s;
      Placed(t, i) && LeastUpTo(t, i, j + 1)
  {
    if StrCmp(s[i], s[j]) > 0 {
      var t := s[i := s[j]][j := s[i]];
      Opposite(s[j], s[i]);
      forall k | i < k < j + 1
        ensures StrLe(t[i], t[k])
      {
        if k < j {
          Transitive(s[j], s[i], s[k]);
        }
      }
      forall a, b | 0 <= a < i && a < b < |s|
        ensures StrLe(t[a], t[b])
      {
        assert t[b] == s[if b == i then j else if b == j then i else b];
      }
    }
  }

  /** Exchange sort of the first n entries: they end up in order, and are the same names. */
  method SortFolders(directory: array<string>, n: nat)
    requires n == directory.Length
    modifies directory
    ensures Sorted(directory[..]) && SameNames(directory[..], old(directory[..]))
    ensures forall i, j :: 0 <= i < j < n ==> directory[i] == directory[j] || Before(directory[i], directory[j])
  {
    for i := 0 to n
      invariant Placed(directory[..], i) && SameNames(directory[..], old(directory[..]))
    {
      for j := i + 1 to n
        invariant Placed(directory[..], i) && LeastUpTo(directory[..], i, j)
        invariant SameNames(directory[..], old(directory[..]))
      {
        CompareStep(directory[..], i, j);
        if StrCmp(directory[i], directory[j]) > 0 {
          SwapFile(directory, i, j);
        }
      }
    }
    SortedIsAscending(directory[..]);
  }

  lemma LeastIsFirst(s: seq<string>, x: string)
    requires Sorted(s) && x in s
    ensures StrLe(s[0], x)
  {
    ZeroMeansEqual(s[0], s[0]);
  }

  lemma {:induction false} SortedFirst(s: seq<string>, t: seq<string>)
    requires Sorted(s) && Sorted(t) && SameNames(s, t) && s != []
    ensures t != [] && s[0] == t[0]
  {
    assert s[0] in multiset(s);
    assert t != [];
    assert t[0] in multiset(t);
    assert s[0] in t && t[0] in s;
    TotalOrder(s[0], t[0], t[0]);
    LeastIsFirst(s, t[0]);
    LeastIsFirst(t, s[0]);
  }

  lemma TailNames(s: seq<string>)
    requires s != []
    ensures multiset(s[1..]) == multiset(s) - multiset{s[0]}
  {
    assert s == [s[0]] + s[1..];
  }

  lemma SameTails(s: seq<string>, t: seq<string>)
    requires s != [] && t != [] && s[0] == t[0] && SameNames(s, t)
    ensures SameNames(s[1..], t[1..])
  {
    TailNames(s);
    TailNames(t);
  }

  /**
   Two servants that read the same folder names in any order sort them to the same list, so their
   border numbers mean the same cities.
   */
  lemma {:induction false} SortIsCanonical(s: seq<string>, t: seq<string>)
    requires Sorted(s) && Sorted(t) && SameNames(s, t)
    ensures s == t
  {
    if s == [] {
      assert |multiset(t)| == 0;
    } else {
      SortedFirst(s, t);
      SameTails(s, t);
      SortIsCanonical(s[1..], t[1..]);
      assert s == [s[0]] + s[1..] && t == [t[0]] + t[1..];
    }
  }
}
