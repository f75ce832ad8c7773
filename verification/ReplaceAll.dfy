/**
 The replacement of one literal word in a text (Hw1/src/string_manipulation.c). The word has none of the
 special characters '[', '*' and '^'.
 */
module ReplaceAll {
  /** A rule s/key/word/ with its flags: case sensitive or not, only at the end of a line or anywhere. */
  datatype Rule = Rule(key: string, word: string, caseSensitive: bool, atLineEnd: bool)

  function MakeLower(c: char): char {
    if 'A' <= c <= 'Z' then c + 32 as char else c
  }

  predicate EqCase(a: char, b: char, caseSensitive: bool) {
    if caseSensitive then a == b else MakeLower(a) == MakeLower(b)
  }

  predicate IsAlphanumeric(c: char) {
    'a' <= c <= 'z' || 'A' <= c <= 'Z' || '0' <= c <= '9'
  }

  /** A C string of characters that are all compared as they are. */
  predicate Literal(s: string) {
    '\0' !in s && '[' !in s && '*' !in s && '^' !in s
  }

  // ---------- what is a replacement ----------

  predicate MatchesAt(text: string, p: nat, r: Rule) {
    p + |r.key| <= |text| && forall k :: 0 <= k < |r.key| ==> EqCase(r.key[k], text[p + k], r.caseSensitive)
  }

  /** The word occurs at p, where the rule applies. */
  predicate Site(text: string, p: nat, r: Rule) {
    && MatchesAt(text, p, r)
    && (r.atLineEnd ==> p + |r.key| < |text| && text[p + |r.key|] == '\n')
  }

  /** The sites from p on that a scan from the left finds, each after the end of the one before. */
  function Sites(text: string, r: Rule, p: nat): seq<nat>
    requires r.key != []
    decreases |text| - p
  {
    if p >= |text| then []
    else if Site(text, p, r) then [p] + Sites(text, r, p + |r.key|)
    else Sites(text, r, p + 1)
  }

  /** The sites lie in the text from p on, in order, and do not overlap. */
  predicate Ordered(text: string, r: Rule, p: nat, sites: seq<nat>)
    decreases |sites|
  {
    sites == [] || (p <= sites[0] && sites[0] + |r.key| <= |text| && Ordered(text, r, sites[0] + |r.key|, sites[1..]))
  }

  /** The text from p on with the new word in place of each listed site. */
  function Spliced(text: string, r: Rule, p: nat, sites: seq<nat>): string
    requires p <= |text| && Ordered(text, r, p, sites)
    decreases |sites|
  {
    if sites == [] then text[p..]
    else text[p..sites[0]] + (r.word + Spliced(text, r, sites[0] + |r.key|, sites[1..]))
  }

  /** The text from p on after the replacement; of an empty word nothing is replaced. */
  function Replaced(text: string, r: Rule, p: nat): string
    decreases |text| - p
  {
    if p >= |text| then []
    else if r.key != [] && Site(text, p, r) then r.word + Replaced(text, r, p + |r.key|)
    else [text[p]] + Replaced(text, r, p + 1)
  }

  /** By case, the word occurs where it stands. */
  lemma MatchesExactly(text: string, p: nat, r: Rule)
    requires r.caseSensitive
    ensures MatchesAt(text, p, r) <==> p + |r.key| <= |text| && text[p..p + |r.key|] == r.key
  {
    if p + |r.key| <= |text| && text[p..p + |r.key|] == r.key {
      forall k | 0 <= k < |r.key|
        ensures EqCase(r.key[k], text[p + k], r.caseSensitive)
      {
        assert text[p..p + |r.key|][k] == text[p + k];
      }
    }
  }

  const CAPITALS: string := "ABCDEFGHIJKLMNOPQRSTUVWXYZ"
  const SMALLS: string := "abcdefghijklmnopqrstuvwxyz"
  const DIGITS: string := "0123456789"

  /** Equal, or the capital and the small form of one letter. */
  ghost predicate SameLetter(a: char, b: char) {
    a == b || exists i :: 0 <= i < 26 && ((a == CAPITALS[i] && b == SMALLS[i]) || (a == SMALLS[i] && b == CAPITALS[i]))
  }

  lemma Alphabets(i: nat)
    requires i < 26
    ensures CAPITALS[i] as int == 65 + i && SMALLS[i] as int == 97 + i
  {
  }

  lemma EqCaseIff(a: char, b: char)
    ensures EqCase(a, b, false) <==>
      a == b || ('A' <= a <= 'Z' && b as int == a as int + 32) || ('A' <= b <= 'Z' && a as int == b as int + 32)
  {
  }

  lemma SameLetterIff(a: char, b: char)
    ensures SameLetter(a, b) <==>
      a == b || ('A' <= a <= 'Z' && b as int == a as int + 32) || ('A' <= b <= 'Z' && a as int == b as int + 32)
  {
    if 'A' <= a <= 'Z' {
      Alphabets(a as int - 65);
    }
    if 'A' <= b <= 'Z' {
      Alphabets(b as int - 65);
    }
    if a != b && SameLetter(a, b) {
      var i :| 0 <= i < 26 && ((a == CAPITALS[i] && b == SMALLS[i]) || (a == SMALLS[i] && b == CAPITALS[i]));
      Alphabets(i);
    }
  }

  lemma EqualButCase(a: char, b: char)
    ensures EqCase(a, b, false) <==> SameLetter(a, b)
  {
    EqCaseIff(a, b);
    SameLetterIff(a, b);
  }

  /** Without regard to case, each character of the word is the same letter as that of the text. */
  lemma MatchesButCase(text: string, p: nat, r: Rule)
    requires !r.caseSensitive
    ensures MatchesAt(text, p, r) <==>
      p + |r.key| <= |text| && forall k :: 0 <= k < |r.key| ==> SameLetter(r.key[k], text[p + k])
  {
    if p + |r.key| <= |text| {
      forall k | 0 <= k < |r.key|
        ensures EqCase(r.key[k], text[p + k], false) <==> SameLetter(r.key[k], text[p + k])
      {
        EqualButCase(r.key[k], text[p + k]);
      }
    }
  }

  lemma TenDigits(i: nat)
    requires i < 10
    ensures DIGITS[i] as int == 48 + i
  {
  }

  lemma CapitalIff(c: char)
    ensures c in CAPITALS <==> 'A' <= c <= 'Z'
  {
    if 'A' <= c <= 'Z' {
      Alphabets(c as int - 65);
    }
    if c in CAPITALS {
      var i :| 0 <= i < |CAPITALS| && CAPITALS[i] == c;
      Alphabets(i);
    }
  }

  lemma SmallIff(c: char)
    ensures c in SMALLS <==> 'a' <= c <= 'z'
  {
    if 'a' <= c <= 'z' {
      Alphabets(c as int - 97);
    }
    if c in SMALLS {
      var i :| 0 <= i < |SMALLS| && SMALLS[i] == c;
      Alphabets(i);
    }
  }

  lemma DigitIff(c: char)
    ensures c in DIGITS <==> '0' <= c <= '9'
  {
    if '0' <= c <= '9' {
      TenDigits(c as int - 48);
    }
    if c in DIGITS {
      var i :| 0 <= i < |DIGITS| && DIGITS[i] == c;
      TenDigits(i);
    }
  }

  /** The characters counted are those of the two alphabets and the ten digits. */
  lemma AlphanumericIff(c: char)
    ensures IsAlphanumeric(c) <==> c in CAPITALS || c in SMALLS || c in DIGITS
  {
    CapitalIff(c);
    SmallIff(c);
    DigitIff(c);
  }

  // ---------- the sites are the leftmost ones that do not overlap ----------

  ghost predicate Covered(r: Rule, sites: seq<nat>, q: nat) {
    exists k :: 0 <= k < |sites| && sites[k] <= q < sites[k] + |r.key|
  }

  /** Every listed place is a site, and every site from p on begins in a listed one. */
  ghost predicate Leftmost(text: string, r: Rule, p: nat, sites: seq<nat>) {
    && Ordered(text, r, p, sites)
    && (forall k :: 0 <= k < |sites| ==> Site(text, sites[k], r))
    && (forall q: nat :: p <= q && Site(text, q, r) ==> Covered(r, sites, q))
  }

  lemma OrderedEarlier(text: string, r: Rule, p: nat, sites: seq<nat>)
    requires Ordered(text, r, p + 1, sites)
    ensures Ordered(text, r, p, sites)
  {
  }

  lemma CoveredBehind(r: Rule, first: nat, rest: seq<nat>, q: nat)
    requires Covered(r, rest, q)
    ensures Covered(r, [first] + rest, q)
  {
    var k :| 0 <= k < |rest| && rest[k] <= q < rest[k] + |r.key|;
    assert ([first] + rest)[k + 1] == rest[k];
  }

  lemma OrderedBehind(text: string, r: Rule, p: nat, rest: seq<nat>)
    requires p + |r.key| <= |text| && Ordered(text, r, p + |r.key|, rest)
    ensures Ordered(text, r, p, [p] + rest)
  {
    assert ([p] + rest)[1..] == rest;
  }

  lemma LeftmostHere(text: string, r: Rule, p: nat, rest: seq<nat>)
    requires r.key != [] && Site(text, p, r) && Leftmost(text, r, p + |r.key|, rest)
    ensures Leftmost(text, r, p, [p] + rest)
  {
    var sites := [p] + rest;
    OrderedBehind(text, r, p, rest);
    forall q: nat | p <= q && Site(text, q, r)
      ensures Covered(r, sites, q)
    {
      if q < p + |r.key| {
        assert sites[0] <= q < sites[0] + |r.key|;
      } else {
        CoveredBehind(r, p, rest, q);
      }
    }
  }

  lemma LeftmostEarlier(text: string, r: Rule, p: nat, sites: seq<nat>)
    requires r.key != [] && !Site(text, p, r) && Leftmost(text, r, p + 1, sites)
    ensures Leftmost(text, r, p, sites)
  {
    OrderedEarlier(text, r, p, sites);
  }

  lemma NoneAtEnd(text: string, r: Rule, p: nat)
    requires r.key != [] && p >= |text|
    ensures Leftmost(text, r, p, [])
  {
  }

  lemma {:induction false} SitesAreLeftmost(text: string, r: Rule, p: nat)
    requires r.key != []
    ensures Leftmost(text, r, p, Sites(text, r, p))
    decreases |text| - p
  {
    if p < |text| {
      if Site(text, p, r) {
        SitesAreLeftmost(text, r, p + |r.key|);
        LeftmostHere(text, r, p, Sites(text, r, p + |r.key|));
      } else {
        SitesAreLeftmost(text, r, p + 1);
        LeftmostEarlier(text, r, p, Sites(text, r, p + 1));
      }
    } else {
      NoneAtEnd(text, r, p);
    }
  }

  lemma {:induction false} OrderedFrom(text: string, r: Rule, p: nat, sites: seq<nat>, k: nat)
    requires Ordered(text, r, p, sites) && k < |sites|
    ensures p <= sites[k] && (k > 0 ==> sites[0] + |r.key| <= sites[k])
    decreases |sites|
  {
    if k > 0 {
      OrderedFrom(text, r, sites[0] + |r.key|, sites[1..], k - 1);
    }
  }

  lemma FirstIsLeast(text: string, r: Rule, p: nat, a: seq<nat>, b: seq<nat>)
    requires r.key != [] && Leftmost(text, r, p, a) && Leftmost(text, r, p, b) && a != []
    ensures b != [] && b[0] <= a[0]
  {
    OrderedFrom(text, r, p, a, 0);
    assert Site(text, a[0], r);
    assert Covered(r, b, a[0]);
    var k :| 0 <= k < |b| && b[k] <= a[0] < b[k] + |r.key|;
    OrderedFrom(text, r, p, b, k);
  }

  lemma LeftmostTail(text: string, r: Rule, p: nat, a: seq<nat>)
    requires r.key != [] && Leftmost(text, r, p, a) && a != []
    ensures Leftmost(text, r, a[0] + |r.key|, a[1..])
  {
    forall q: nat | a[0] + |r.key| <= q && Site(text, q, r)
      ensures Covered(r, a[1..], q)
    {
      OrderedFrom(text, r, p, a, 0);
      assert Covered(r, a, q);
      var k :| 0 <= k < |a| && a[k] <= q < a[k] + |r.key|;
      assert a[1..][k - 1] == a[k];
    }
  }

  lemma HeadsAgree(text: string, r: Rule, p: nat, a: seq<nat>, b: seq<nat>)
    requires r.key != [] && Leftmost(text, r, p, a) && Leftmost(text, r, p, b) && a != []
    ensures b != [] && b[0] == a[0]
  {
    FirstIsLeast(text, r, p, a, b);
    FirstIsLeast(text, r, p, b, a);
  }

  /** There is only one such choice of sites, so the replacement is determined. */
  lemma {:induction false} LeftmostIsUnique(text: string, r: Rule, p: nat, a: seq<nat>, b: seq<nat>)
    requires r.key != [] && Leftmost(text, r, p, a) && Leftmost(text, r, p, b)
    ensures a == b
    decreases |a|
  {
    if a == [] {
      if b != [] {
        HeadsAgree(text, r, p, b, a);
      }
    } else {
      HeadsAgree(text, r, p, a, b);
      LeftmostTail(text, r, p, a);
      LeftmostTail(text, r, p, b);
      LeftmostIsUnique(text, r, a[0] + |r.key|, a[1..], b[1..]);
      assert a == [a[0]] + a[1..] && b == [b[0]] + b[1..];
    }
  }

  lemma SplicedEarlier(text: string, r: Rule, p: nat, sites: seq<nat>)
    requires p < |text| && Ordered(text, r, p + 1, sites)
    ensures Ordered(text, r, p, sites)
    ensures Spliced(text, r, p, sites) == [text[p]] + Spliced(text, r, p + 1, sites)
  {
    if sites == [] {
      assert text[p..] == [text[p]] + text[p + 1..];
    } else {
      var rest := r.word + Spliced(text, r, sites[0] + |r.key|, sites[1..]);
      assert text[p..sites[0]] + rest == [text[p]] + (text[p + 1..sites[0]] + rest);
      assert Spliced(text, r, p, sites) == text[p..sites[0]] + rest;
    }
  }

  lemma NoGap(text: string, p: nat, end: string)
    requires p <= |text|
    ensures text[p..p] + end == end
  {
    assert text[p..p] == [];
  }

  lemma SplicedFront(text: string, r: Rule, p: nat, sites: seq<nat>)
    requires p <= |text| && sites != [] && sites[0] == p && Ordered(text, r, p, sites)
    ensures Spliced(text, r, p, sites) == r.word + Spliced(text, r, p + |r.key|, sites[1..])
  {
    NoGap(text, p, r.word + Spliced(text, r, p + |r.key|, sites[1..]));
  }

  lemma SplicedHere(text: string, r: Rule, p: nat, rest: seq<nat>)
    requires p + |r.key| <= |text| && Ordered(text, r, p + |r.key|, rest)
    ensures Ordered(text, r, p, [p] + rest)
    ensures Spliced(text, r, p, [p] + rest) == r.word + Spliced(text, r, p + |r.key|, rest)
  {
    OrderedBehind(text, r, p, rest);
    SplicedFront(text, r, p, [p] + rest);
    assert ([p] + rest)[1..] == rest;
  }

  /** From p on, the replacement splices the new word in at the sites of the scan. */
  ghost predicate Splices(text: string, r: Rule, p: nat)
    requires r.key != []
  {
    && p <= |text| && Ordered(text, r, p, Sites(text, r, p))
    && Replaced(text, r, p) == Spliced(text, r, p, Sites(text, r, p))
  }

  lemma Unfold(text: string, r: Rule, p: nat)
    requires r.key != [] && p < |text| && Site(text, p, r)
    ensures Sites(text, r, p) == [p] + Sites(text, r, p + |r.key|)
    ensures Replaced(text, r, p) == r.word + Replaced(text, r, p + |r.key|)
  {
  }

  lemma SplicesHere(text: string, r: Rule, p: nat)
    requires r.key != [] && p < |text| && Site(text, p, r) && Splices(text, r, p + |r.key|)
    ensures Splices(text, r, p)
  {
    var rest := Sites(text, r, p + |r.key|);
    Unfold(text, r, p);
    SplicedHere(text, r, p, rest);
    assert Sites(text, r, p) == [p] + rest;
  }

  lemma SplicesNext(text: string, r: Rule, p: nat)
    requires r.key != [] && p < |text| && !Site(text, p, r) && Splices(text, r, p + 1)
    ensures Splices(text, r, p)
  {
    SplicedEarlier(text, r, p, Sites(text, r, p + 1));
  }

  lemma {:induction false} ReplacedIsSpliced(text: string, r: Rule, p: nat)
    requires r.key != [] && p <= |text|
    ensures Splices(text, r, p)
    decreases |text| - p
  {
    if p < |text| {
      if Site(text, p, r) {
        ReplacedIsSpliced(text, r, p + |r.key|);
        SplicesHere(text, r, p);
      } else {
        ReplacedIsSpliced(text, r, p + 1);
        SplicesNext(text, r, p);
      }
    }
  }

  /** So it splices it in at any leftmost choice of sites, since there is only one. */
  lemma ReplacesLeftmost(text: string, r: Rule, sites: seq<nat>)
    requires r.key != [] && Leftmost(text, r, 0, sites)
    ensures Replaced(text, r, 0) == Spliced(text, r, 0, sites)
  {
    SitesAreLeftmost(text, r, 0);
    LeftmostIsUnique(text, r, 0, sites, Sites(text, r, 0));
    ReplacedIsSpliced(text, r, 0);
  }

  // ---------- how long the result is ----------

  lemma AddOne(k: int, x: int)
    ensures (k + 1) * x == k * x + x
  {
  }

  lemma LengthHere(text: string, r: Rule, p: nat, k: nat)
    requires r.key != [] && p < |text| && Site(text, p, r) && k == |Sites(text, r, p + |r.key|)|
    ensures |Replaced(text, r, p)| == |r.word| + |Replaced(text, r, p + |r.key|)| && |Sites(text, r, p)| == k + 1
    ensures |Sites(text, r, p)| * |r.key| == k * |r.key| + |r.key|
    ensures |Sites(text, r, p)| * (|r.word| - |r.key|) == k * (|r.word| - |r.key|) + (|r.word| - |r.key|)
  {
    AddOne(k, |r.key|);
    AddOne(k, |r.word| - |r.key|);
  }

  lemma LengthNext(text: string, r: Rule, p: nat)
    requires r.key != [] && p < |text| && !Site(text, p, r)
    ensures |Replaced(text, r, p)| == 1 + |Replaced(text, r, p + 1)| && Sites(text, r, p) == Sites(text, r, p + 1)
  {
  }

  lemma {:induction false} ReplacedLength(text: string, r: Rule, p: nat)
    requires r.key != [] && p <= |text|
    ensures |Replaced(text, r, p)| == |text| - p + |Sites(text, r, p)| * (|r.word| - |r.key|)
    ensures |Sites(text, r, p)| * |r.key| <= |text| - p
    decreases |text| - p
  {
    if p < |text| {
      if Site(text, p, r) {
        ReplacedLength(text, r, p + |r.key|);
        LengthHere(text, r, p, |Sites(text, r, p + |r.key|)|);
      } else {
        ReplacedLength(text, r, p + 1);
        LengthNext(text, r, p);
      }
    }
  }

  /** The room the result needs at most. */
  function Room(length: nat, r: Rule): nat {
    if r.key == [] then length
    else length + (length / |r.key|) * (if |r.word| > |r.key| then |r.word| - |r.key| else 0)
  }

  lemma ScaleUp(a: nat, b: nat, d: nat)
    requires a <= b
    ensures a * d <= b * d
  {
  }

  lemma QuotientBound(k: nat, length: nat, d: nat)
    requires d > 0 && k * d <= length
    ensures k <= length / d
  {
    ScaleUp(if k > length / d then length / d + 1 else 0, k, d);
  }

  lemma ProductBound(k: nat, q: nat, x: int)
    requires k <= q
    ensures k * x <= q * (if x > 0 then x else 0)
  {
    if x > 0 {
      assert k * x <= q * x;
    } else {
      assert k * x <= 0;
    }
  }

  lemma LengthBound(text: string, r: Rule)
    requires r.key != []
    ensures |Replaced(text, r, 0)| <= Room(|text|, r)
  {
    ReplacedLength(text, r, 0);
    var k := |Sites(text, r, 0)|;
    QuotientBound(k, |text|, |r.key|);
    ProductBound(k, |text| / |r.key|, |r.word| - |r.key|);
  }

  // ---------- the program ----------

  function Alphanumerics(s: string): (n: nat)
    ensures n <= |s|
  {
    if s == [] then 0 else (if IsAlphanumeric(s[|s| - 1]) then 1 else 0) + Alphanumerics(s[..|s| - 1])
  }

  method MyStrlen(str: string) returns (length: nat)
    requires '[' !in str
    ensures length == Alphanumerics(str)
  {
    length := 0;
    for i := 0 to |str|
      invariant length == Alphanumerics(str[..i])
    {
      assert str[..i + 1][..i] == str[..i];
      if IsAlphanumeric(str[i]) {
        length := length + 1;
      }
    }
    assert str[..|str|] == str;
  }

  /** What the program looks for: of the word, as many characters as it has alphanumeric ones. */
  function Effective(r: Rule): Rule {
    r.(key := r.key[..Alphanumerics(r.key)])
  }

  /** The character at i of a C string, its terminator included. */
  function At(text: string, i: nat): char
    requires i <= |text|
  {
    if i < |text| then text[i] else '\0'
  }

  /** No character of the word equals the terminator of the text. */
  lemma EndDiffers(r: Rule, k: nat)
    requires Literal(r.key) && k < |r.key|
    ensures !EqCase(r.key[k], '\0', r.caseSensitive)
  {
    assert r.key[k] in r.key;
  }

  lemma Differs(text: string, e: Rule, p: nat, k: nat)
    requires k < |e.key| && p + k <= |text| && !EqCase(e.key[k], At(text, p + k), e.caseSensitive)
    ensures !MatchesAt(text, p, e)
  {
  }

  /** Counts, from the place tfd on, how many characters of the word agree, and stops at the first that does not. */
  method CountMatches(text: string, r: Rule, oldLength: nat, tfd: nat) returns (matched: nat)
    requires '\0' !in text && Literal(r.key) && oldLength == Alphanumerics(r.key) && tfd <= |text|
    ensures matched == oldLength <==> MatchesAt(text, tfd, Effective(r))
    ensures tfd + matched <= |text|
  {
    ghost var e := Effective(r);
    var cursor, keep, inTfd := 0, true, tfd;
    matched := 0;
    while matched < oldLength && keep
      invariant cursor == matched <= oldLength && tfd + matched <= |text|
      invariant forall k :: 0 <= k < matched ==> EqCase(e.key[k], text[tfd + k], r.caseSensitive)
      invariant keep ==> inTfd == tfd + matched
      invariant !keep ==> matched < oldLength && !MatchesAt(text, tfd, e)
      decreases oldLength - matched + if keep then 1 else 0
    {
      EndDiffers(r, cursor);
      if EqCase(r.key[cursor], At(text, inTfd), r.caseSensitive) {
        cursor := cursor + 1;
        matched := matched + 1;
      } else {
        Differs(text, e, tfd, matched);
        keep := false;
      }
      inTfd := inTfd + 1;
    }
  }

  method CopyWord(word: string, res: array<char>, rfd: nat)
    requires rfd + |word| <= res.Length
    modifies res
    ensures res[..rfd + |word|] == old(res[..rfd]) + word
  {
    for i := 0 to |word|
      invariant res[..rfd + i] == old(res[..rfd]) + word[..i]
    {
      res[rfd + i] := word[i];
    }
    assert word[..|word|] == word;
  }

  method CopyChar(c: char, res: array<char>, rfd: nat)
    requires rfd < res.Length
    modifies res
    ensures res[..rfd + 1] == old(res[..rfd]) + [c]
  {
    res[rfd] := c;
  }

  /** The test of the scan: all characters agree, and the line ends behind them if it must. */
  method FindsSite(text: string, r: Rule, oldLength: nat, tfd: nat) returns (here: bool)
    requires '\0' !in text && Literal(r.key) && oldLength == Alphanumerics(r.key) && tfd <= |text|
    ensures here <==> Site(text, tfd, Effective(r))
  {
    var matched := CountMatches(text, r, oldLength, tfd);
    here := matched == oldLength && (!r.atLineEnd || At(text, tfd + matched) == '\n');
  }

  /** Where the scan goes on from p. */
  function NextPlace(text: string, r: Rule, p: nat): nat {
    if Site(text, p, r) then p + |r.key| else p + 1
  }

  /** What it writes at p. */
  function Written(text: string, r: Rule, p: nat): string
    requires p < |text|
  {
    if Site(text, p, r) then r.word else [text[p]]
  }

  /** One turn of the scan: the new word for a site, or else the next character. */
  method ScanOne(text: string, r: Rule, oldLength: nat, res: array<char>, rfd: nat, tfd: nat)
    returns (rfd': nat, tfd': nat)
    requires '\0' !in text && Literal(r.key) && oldLength == Alphanumerics(r.key) && tfd < |text|
    requires rfd + |Written(text, Effective(r), tfd)| <= res.Length
    modifies res
    ensures tfd' == NextPlace(text, Effective(r), tfd) && rfd' == rfd + |Written(text, Effective(r), tfd)|
    ensures res[..rfd'] == old(res[..rfd]) + Written(text, Effective(r), tfd)
  {
    var here := FindsSite(text, r, oldLength, tfd);
    if here {
      CopyWord(r.word, res, rfd);
      tfd', rfd' := tfd + oldLength, rfd + |r.word|;
    } else {
      CopyChar(text[tfd], res, rfd);
      tfd', rfd' := tfd + 1, rfd + 1;
    }
  }

  // ---------- whether the scan ends ----------

  /** Where the scan is after so many turns; it stops at the end of the text. */
  function PlaceAfter(text: string, r: Rule, turns: nat): nat {
    if turns == 0 then 0
    else
      var p := PlaceAfter(text, r, turns - 1);
      if p < |text| then NextPlace(text, r, p) else p
  }

  ghost predicate ScanEnds(text: string, r: Rule) {
    exists turns: nat :: PlaceAfter(text, r, turns) >= |text|
  }

  /** At no place of the text would the scan stay. */
  predicate NeverStays(text: string, r: Rule) {
    r.key != [] || forall p: nat :: p < |text| ==> !Site(text, p, r)
  }

  lemma {:induction false} MovesOn(text: string, r: Rule, turns: nat)
    requires NeverStays(text, r)
    ensures PlaceAfter(text, r, turns) >= turns || PlaceAfter(text, r, turns) >= |text|
  {
    if turns > 0 {
      MovesOn(text, r, turns - 1);
    }
  }

  /** A site of an empty word is never passed. */
  lemma {:induction false} StaysBehind(text: string, r: Rule, p: nat, turns: nat)
    requires r.key == [] && p < |text| && Site(text, p, r)
    ensures PlaceAfter(text, r, turns) <= p
  {
    if turns > 0 {
      StaysBehind(text, r, p, turns - 1);
    }
  }

  lemma EndsIffNeverStays(text: string, r: Rule)
    ensures ScanEnds(text, r) <==> NeverStays(text, r)
  {
    if NeverStays(text, r) {
      MovesOn(text, r, |text|);
    } else {
      var p: nat :| p < |text| && Site(text, p, r);
      forall turns: nat
        ensures PlaceAfter(text, r, turns) < |text|
      {
        StaysBehind(text, r, p, turns);
      }
    }
  }

  /**
   The scan ends exactly if the word has a letter or a digit, or the text has no place for an empty word:
   it is empty, or the rule is for the ends of lines and no line ends.
   */
  lemma ScanEndsIff(text: string, r: Rule)
    requires Literal(r.key)
    ensures ScanEnds(text, Effective(r))
       <==> Alphanumerics(r.key) > 0 || text == "" || (r.atLineEnd && '\n' !in text)
  {
    var e := Effective(r);
    EndsIffNeverStays(text, e);
    if e.key == [] && text != "" {
      if !r.atLineEnd {
        assert Site(text, 0, e);
      } else if '\n' in text {
        var p: nat :| p < |text| && text[p] == '\n';
        assert Site(text, p, e);
      }
    }
  }

  /** "-" for a word, and any text with something in it: the scan stays at the first place for ever. */
  lemma DashNeverEnds(text: string, word: string, caseSensitive: bool, turns: nat)
    requires text != ""
    ensures var r := Rule("-", word, caseSensitive, false);
      Literal(r.key) && PlaceAfter(text, Effective(r), turns) == 0 < |text|
  {
    var r := Rule("-", word, caseSensitive, false);
    assert r.key[..0] == [] && Alphanumerics("-") == 0;
    StaysBehind(text, Effective(r), 0, turns);
  }

  // ---------- the whole scan ----------

  lemma TurnAtSite(text: string, e: Rule, p: nat, done: string)
    requires e.key != [] && p < |text| && Site(text, p, e)
    ensures |Written(text, e, p)| <= |Replaced(text, e, p)|
    ensures done + Replaced(text, e, p) == (done + Written(text, e, p)) + Replaced(text, e, NextPlace(text, e, p))
  {
    assert done + (e.word + Replaced(text, e, p + |e.key|)) == (done + e.word) + Replaced(text, e, p + |e.key|);
  }

  lemma TurnOffSite(text: string, e: Rule, p: nat, done: string)
    requires p < |text| && !Site(text, p, e)
    ensures |Written(text, e, p)| <= |Replaced(text, e, p)|
    ensures done + Replaced(text, e, p) == (done + Written(text, e, p)) + Replaced(text, e, NextPlace(text, e, p))
  {
    assert done + ([text[p]] + Replaced(text, e, p + 1)) == (done + [text[p]]) + Replaced(text, e, p + 1);
  }

  /** What a scan that has written `done` still has to write, before and after a turn. */
  lemma Turn(text: string, e: Rule, p: nat, done: string)
    requires NeverStays(text, e) && p < |text|
    ensures p < NextPlace(text, e, p) <= |text| && |Written(text, e, p)| <= |Replaced(text, e, p)|
    ensures done + Replaced(text, e, p) == (done + Written(text, e, p)) + Replaced(text, e, NextPlace(text, e, p))
  {
    if Site(text, p, e) {
      TurnAtSite(text, e, p, done);
    } else {
      TurnOffSite(text, e, p, done);
    }
  }

  lemma SameLength(a: string, b: string, c: string)
    requires a + b == c
    ensures |a| + |b| == |c|
  {
  }

  lemma {:induction false} EmptyWordKeeps(text: string, r: Rule, p: nat)
    requires r.key == [] && p <= |text|
    ensures Replaced(text, r, p) == text[p..]
    decreases |text| - p
  {
    if p < |text| {
      EmptyWordKeeps(text, r, p + 1);
      assert text[p..] == [text[p]] + text[p + 1..];
    }
  }

  lemma RoomIsEnough(text: string, r: Rule)
    ensures |Replaced(text, r, 0)| <= Room(|text|, r)
    ensures r.key == [] ==> Replaced(text, r, 0) == text
  {
    if r.key == [] {
      EmptyWordKeeps(text, r, 0);
    } else {
      LengthBound(text, r);
    }
  }

  /** The result of a scan that ends; without a letter or digit in the word it is the text as it was. */
  method Replace(text: string, r: Rule, res: array<char>) returns (rfd: nat)
    requires '\0' !in text && Literal(r.key) && ScanEnds(text, Effective(r))
    requires res.Length > Room(|text|, Effective(r))
    modifies res
    ensures rfd < res.Length && res[..rfd] == Replaced(text, Effective(r), 0) && res[rfd] == '\0'
    ensures Alphanumerics(r.key) == 0 ==> res[..rfd] == text
  {
    var oldLength := MyStrlen(r.key);
    ghost var e := Effective(r);
    ghost var all := Replaced(text, e, 0);
    RoomIsEnough(text, e);
    EndsIffNeverStays(text, e);
    rfd := 0;
    var tfd := 0;
    while tfd < |text|
      invariant tfd <= |text| && rfd < res.Length
      invariant res[..rfd] + Replaced(text, e, tfd) == all
      decreases |text| - tfd
    {
      SameLength(res[..rfd], Replaced(text, e, tfd), all);
      Turn(text, e, tfd, res[..rfd]);
      rfd, tfd := ScanOne(text, r, oldLength, res, rfd, tfd);
    }
    res[rfd] := '\0';
  }

  // ---------- when the whole word is looked for ----------

  lemma {:induction false} AllAlphanumeric(s: string)
    ensures Alphanumerics(s) == |s| <==> forall k :: 0 <= k < |s| ==> IsAlphanumeric(s[k])
  {
    if s != [] {
      var front := s[..|s| - 1];
      AllAlphanumeric(front);
      assert forall k :: 0 <= k < |front| ==> front[k] == s[k];
    }
  }

  lemma {:induction false} NoSites(text: string, r: Rule, p: nat)
    requires r.key != [] && p <= |text| && forall q: nat :: p <= q ==> !Site(text, q, r)
    ensures Replaced(text, r, p) == text[p..]
    decreases |text| - p
  {
    if p < |text| {
      NoSites(text, r, p + 1);
      assert text[p..] == [text[p]] + text[p + 1..];
    }
  }

  /** What ends a line, where the rule asks for that. */
  function LineEnd(r: Rule): string {
    if r.atLineEnd then "\n" else ""
  }

  /** A text that is just the word becomes just the new one. */
  lemma ReplacesWord(r: Rule)
    requires r.key != []
    ensures Replaced(r.key + LineEnd(r), r, 0) == r.word + LineEnd(r)
  {
    var text := r.key + LineEnd(r);
    assert Site(text, 0, r);
    NoSites(text, r, |r.key|);
    assert text[|r.key|..] == LineEnd(r);
  }

  lemma TooShort(r: Rule, text: string)
    requires r.key != [] && |text| < |r.key| + |LineEnd(r)|
    ensures Replaced(text, r, 0) == text
  {
    NoSites(text, r, 0);
  }

  lemma SameTail(a: string, b: string, tail: string)
    requires a + tail == b + tail
    ensures a == b
  {
    assert |a| == |b| && a == (a + tail)[..|a|] && b == (b + tail)[..|b|];
  }

  /** A text that is just the part looked for is replaced, unless the new word is that part. */
  lemma PartDiffers(r: Rule, e: Rule)
    requires e == r.(key := e.key) && 0 < |e.key| < |r.key| && e.key != r.word
    ensures Replaced(e.key + LineEnd(r), e, 0) != Replaced(e.key + LineEnd(r), r, 0)
  {
    ReplacesWord(e);
    TooShort(r, e.key + LineEnd(r));
    if r.word + LineEnd(r) == e.key + LineEnd(r) {
      SameTail(r.word, e.key, LineEnd(r));
    }
  }

  lemma KeepsLength(text: string, r: Rule)
    requires r.key != [] && |r.word| == |r.key|
    ensures |Replaced(text, r, 0)| == |text|
  {
    ReplacedLength(text, r, 0);
    assert |Sites(text, r, 0)| * 0 == 0;
  }

  /** If it is, a text that is just the word keeps its length, but should not. */
  lemma WholeDiffers(r: Rule, e: Rule)
    requires e == r.(key := e.key) && 0 < |e.key| < |r.key| && e.key == r.word
    ensures Replaced(r.key + LineEnd(r), e, 0) != Replaced(r.key + LineEnd(r), r, 0)
  {
    ReplacesWord(r);
    KeepsLength(r.key + LineEnd(r), e);
  }

  lemma DifferentText(r: Rule) returns (text: string)
    requires Literal(r.key) && 0 < Alphanumerics(r.key) < |r.key|
    ensures '\0' !in text && Replaced(text, Effective(r), 0) != Replaced(text, r, 0)
  {
    var e := Effective(r);
    if e.key != r.word {
      text := e.key + LineEnd(r);
      PartDiffers(r, e);
      assert forall c :: c in e.key ==> c in r.key;
    } else {
      text := r.key + LineEnd(r);
      WholeDiffers(r, e);
    }
  }

  /**
   The program is meant to replace the whole word. It does so on every text exactly when all the
   characters of the word are letters or digits; otherwise it looks for a part of the word only.
   */
  lemma WholeWordIffAlphanumeric(r: Rule)
    requires Literal(r.key) && Alphanumerics(r.key) > 0
    ensures (forall text :: '\0' !in text ==> Replaced(text, Effective(r), 0) == Replaced(text, r, 0))
       <==> (forall k :: 0 <= k < |r.key| ==> IsAlphanumeric(r.key[k]))
  {
    AllAlphanumeric(r.key);
    if Alphanumerics(r.key) == |r.key| {
      assert Effective(r).key == r.key;
    } else {
      var text := DifferentText(r);
    }
  }
}
