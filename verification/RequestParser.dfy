/**
 Splitting and parsing a request line (Final/src/lib.c, Final/src/structs.c, Final/src/client.c), and
 the round trip from a printed request back to the request.
 */
module RequestParser {
  import opened TransactionCount

  datatype Request = Request(order: string, estate: string, start: Date, end: Date, city: string)

  // ---------- splitting at runs of a delimiter ----------

  function WordEnd(s: string, delim: char): (i: nat)
    ensures i <= |s|
  {
    if s == "" || s[0] == delim then 0 else 1 + WordEnd(s[1..], delim)
  }

  lemma {:induction false} WordEndIs(s: string, delim: char, n: nat)
    requires n <= |s| && (n < |s| ==> s[n] == delim) && forall k :: 0 <= k < n ==> s[k] != delim
    ensures WordEnd(s, delim) == n
  {
    if n > 0 {
      WordEndIs(s[1..], delim, n - 1);
    }
  }

  function GapEnd(s: string, delim: char): (i: nat)
    ensures i <= |s| && (s != "" && s[0] == delim ==> i > 0)
  {
    if s == "" || s[0] != delim then 0 else 1 + GapEnd(s[1..], delim)
  }

  lemma {:induction false} GapEndIs(s: string, delim: char, n: nat)
    requires n <= |s| && (n < |s| ==> s[n] != delim) && forall k :: 0 <= k < n ==> s[k] == delim
    ensures GapEnd(s, delim) == n
  {
    if n > 0 {
      GapEndIs(s[1..], delim, n - 1);
    }
  }

  /** The words between runs of the delimiter; a run at either end leaves an empty word there. */
  function Split(s: string, delim: char): (words: seq<string>)
    ensures |words| > 0
    decreases |s|
  {
    var i := WordEnd(s, delim);
    if i == |s| then [s] else [s[..i]] + Split(s[i..][GapEnd(s[i..], delim)..], delim)
  }

  /** The words of a string that continues a word already begun. */
  function Glue(cur: string, words: seq<string>): seq<string>
    requires |words| > 0
  {
    [cur + words[0]] + words[1..]
  }

  lemma SplitLetter(s: string, delim: char)
    requires s != "" && s[0] != delim
    ensures Split(s, delim) == Glue([s[0]], Split(s[1..], delim))
  {
    var i := WordEnd(s[1..], delim);
    assert s == [s[0]] + s[1..];
    if i + 1 < |s| {
      assert s[..i + 1] == [s[0]] + s[1..][..i];
      assert s[i + 1..] == s[1..][i..];
    }
  }

  lemma GlueLetter(cur: string, c: char, words: seq<string>)
    requires |words| > 0
    ensures Glue(cur, Glue([c], words)) == Glue(cur + [c], words)
  {
    assert cur + ([c] + words[0]) == cur + [c] + words[0];
  }

  lemma GlueNothing(words: seq<string>)
    requires |words| > 0
    ensures Glue("", words) == words
  {
    assert "" + words[0] == words[0];
  }

  lemma GlueWord(cur: string, words: seq<string>)
    ensures Glue(cur, [""] + words) == [cur] + words
  {
    assert cur + "" == cur;
  }

  lemma SplitGap(s: string, delim: char)
    requires s != "" && s[0] == delim
    ensures Split(s, delim) == [""] + Split(s[GapEnd(s, delim)..], delim)
  {
    assert s[0..] == s;
  }

  predicate Padded(words: seq<string>, parts: seq<string>) {
    && |words| == 5 && |parts| <= 5 && words[..|parts|] == parts
    && forall k :: |parts| <= k < 5 ==> words[k] == ""
  }

  /** The words in front are done, cur is begun, and the line from i on is still to be split. */
  ghost predicate Progress(str: string, delim: char, front: seq<string>, cur: string, i: nat) {
    i <= |str| && Split(str, delim) == front + Glue(cur, Split(str[i..], delim))
  }

  lemma Begin(str: string, delim: char)
    ensures Progress(str, delim, [], "", 0)
  {
    assert str[0..] == str;
    GlueNothing(Split(str, delim));
  }

  lemma TakeLetter(str: string, delim: char, front: seq<string>, cur: string, i: nat)
    requires Progress(str, delim, front, cur, i) && i < |str| && str[i] != delim
    ensures Progress(str, delim, front, cur + [str[i]], i + 1)
  {
    SplitLetter(str[i..], delim);
    assert str[i..][1..] == str[i + 1..];
    GlueLetter(cur, str[i], Split(str[i + 1..], delim));
  }

  /** A run of the delimiter from `from` to i ends an empty word there. */
  lemma SplitRun(str: string, delim: char, from: nat, i: nat)
    requires from < i <= |str|
    requires (forall k :: from <= k < i ==> str[k] == delim) && (i < |str| ==> str[i] != delim)
    ensures Split(str[from..], delim) == [""] + Split(str[i..], delim)
  {
    GapEndIs(str[from..], delim, i - from);
    SplitGap(str[from..], delim);
    assert str[from..][i - from..] == str[i..];
  }

  lemma WordDone(front: seq<string>, cur: string, rest: seq<string>)
    requires |rest| > 0
    ensures front + Glue(cur, [""] + rest) == (front + [cur]) + Glue("", rest)
    ensures |front + Glue(cur, [""] + rest)| >= |front| + 2
  {
    GlueNothing(rest);
    GlueWord(cur, rest);
  }

  lemma TakeGap(str: string, delim: char, front: seq<string>, cur: string, from: nat, i: nat)
    requires Progress(str, delim, front, cur, from) && from < i <= |str|
    requires (forall k :: from <= k < i ==> str[k] == delim) && (i < |str| ==> str[i] != delim)
    ensures Progress(str, delim, front + [cur], "", i)
    ensures |Split(str, delim)| >= |front| + 2
  {
    SplitRun(str, delim, from, i);
    WordDone(front, cur, Split(str[i..], delim));
  }

  lemma AtEnd(str: string, delim: char, front: seq<string>, cur: string)
    requires Progress(str, delim, front, cur, |str|)
    ensures Split(str, delim) == front + [cur]
  {
    assert str[|str|..] == "";
    assert cur + "" == cur;
  }

  /** The inner loop: walks over a run of the delimiter. */
  method SkipRun(str: string, from: nat, delim: char) returns (i: nat)
    requires from < |str| && str[from] == delim
    ensures from < i <= |str| && (i < |str| ==> str[i] != delim)
    ensures forall k :: from <= k < i ==> str[k] == delim
  {
    i := from;
    while i < |str| && str[i] == delim
      invariant from <= i <= |str| && forall k :: from <= k < i ==> str[k] == delim
    {
      i := i + 1;
    }
  }

  /** The five buffers, with the words that are done, the one that is begun, and the rest empty. */
  function Buffers(front: seq<string>, cur: string): (b: seq<string>)
    requires |front| < 5
    ensures |b| == 5
  {
    front + [cur] + seq(4 - |front|, _ => "")
  }

  lemma BuffersNextWord(front: seq<string>, cur: string)
    requires |front| < 4
    ensures Buffers(front, cur) == Buffers(front + [cur], "")
  {
  }

  lemma BuffersNextLetter(front: seq<string>, cur: string, c: char)
    requires |front| < 5
    ensures Buffers(front, cur)[|front|] == cur
    ensures Buffers(front, cur)[|front| := cur + [c]] == Buffers(front, cur + [c])
  {
  }

  lemma BuffersPadded(front: seq<string>, cur: string)
    requires |front| < 5
    ensures Padded(Buffers(front, cur), front + [cur])
  {
  }

  /** Puts one more letter into buffer j. */
  method AddLetter(result: array<string>, j: nat, c: char)
    requires j < result.Length
    modifies result
    ensures result[..] == old(result[..])[j := old(result[j]) + [c]]
  {
    result[j] := result[j] + [c];
  }

  /** Copies the words into five buffers and counts the runs; the caller's line must have at most four. */
  method SplitStr(str: string, delim: char) returns (result: array<string>, count: nat)
    requires |Split(str, delim)| <= 5
    ensures fresh(result) && Padded(result[..], Split(str, delim))
    ensures count == |Split(str, delim)| - 1
  {
    result := new string[5](_ => "");
    var i, j := 0, 0;
    count := 0;
    ghost var front: seq<string>, cur := [], "";
    Begin(str, delim);
    while i < |str|
      invariant j == count == |front| < 5
      invariant result[..] == Buffers(front, cur)
      invariant Progress(str, delim, front, cur, i)
    {
      if str[i] == delim {
        ghost var from := i;
        j := j + 1;
        count := count + 1;
        i := SkipRun(str, i, delim);
        TakeGap(str, delim, front, cur, from, i);
        BuffersNextWord(front, cur);
        front, cur := front + [cur], "";
      } else {
        TakeLetter(str, delim, front, cur, i);
        BuffersNextLetter(front, cur, str[i]);
        AddLetter(result, j, str[i]);
        cur := cur + [str[i]];
        i := i + 1;
      }
    }
    AtEnd(str, delim, front, cur);
    BuffersPadded(front, cur);
  }

  // ---------- numbers and dates ----------

  predicate IsDigit(c: char) {
    '0' <= c <= '9'
  }

  predicate IsSpace(c: char) {
    c == ' ' || c == '\t' || c == '\n' || c == '\r' || c as int == 11 || c as int == 12
  }

  function Digits(s: string, value: nat): nat {
    if s == "" || !IsDigit(s[0]) then value else Digits(s[1..], 10 * value + (s[0] as int - '0' as int))
  }

  function Atoi(s: string): int {
    if s != "" && IsSpace(s[0]) then Atoi(s[1..])
    else if s != "" && s[0] == '-' then 0 - Digits(s[1..], 0)
    else if s != "" && s[0] == '+' then Digits(s[1..], 0)
    else Digits(s, 0)
  }

  /** A C string of n bytes of a buffer: it ends early at a zero byte, and behind s there are only those. */
  function Bytes(s: string, from: nat, n: nat): string
    decreases n
  {
    if n == 0 || from >= |s| || s[from] == '\0' then "" else [s[from]] + Bytes(s, from + 1, n - 1)
  }

  function GetDate(s: string): Date {
    Date(Atoi(Bytes(s, 0, 2)), Atoi(Bytes(s, 3, 2)), Atoi(Bytes(s, 6, 4)))
  }

  // ---------- requests ----------

  function Word(words: seq<string>, k: nat): string {
    if k < |words| then words[k] else ""
  }

  function FromWords(words: seq<string>): Request
    requires 0 < |words| <= 5
  {
    Request(Word(words, 0), Word(words, 1), GetDate(Word(words, 2)), GetDate(Word(words, 3)),
            if |words| == 5 then words[4] else "all")
  }

  method ParseRequest(str: string) returns (req: Request)
    requires |Split(str, ' ')| <= 5
    ensures req == FromWords(Split(str, ' '))
  {
    var words, count := SplitStr(str, ' ');
    ghost var parts := Split(str, ' ');
    assert forall k :: 0 <= k < |parts| ==> words[k] == words[..][..|parts|][k] == parts[k];
    var city := if count == 4 then words[4] else "all";
    req := Request(words[0], words[1], GetDate(words[2]), GetDate(words[3]), city);
  }

  // ---------- printing, and the way back ----------

  function Digit(d: nat): char
    requires d < 10
  {
    ('0' as int + d) as char
  }

  function Two(n: nat): string
    requires n < 100
  {
    [Digit(n / 10), Digit(n % 10)]
  }

  function Four(n: nat): string
    requires n < 10000
  {
    Two(n / 100) + Two(n % 100)
  }

  predicate Printable(d: Date) {
    0 <= d.day < 100 && 0 <= d.month < 100 && 0 <= d.year < 10000
  }

  function ShowDate(d: Date): string
    requires Printable(d)
  {
    Two(d.day) + "-" + Two(d.month) + "-" + Four(d.year)
  }

  function Spaces(n: nat): (s: string)
    ensures |s| == n && forall k :: 0 <= k < n ==> s[k] == ' '
  {
    seq(n, _ => ' ')
  }

  predicate OneWord(s: string) {
    ' ' !in s
  }

  /** A request line: fields separated by any positive numbers of spaces, the city only if it is given. */
  function Show(r: Request, hasCity: bool, gaps: seq<nat>): string
    requires |gaps| == 4 && Printable(r.start) && Printable(r.end)
  {
    r.order + Spaces(gaps[0]) + (r.estate + Spaces(gaps[1]) + (ShowDate(r.start) + Spaces(gaps[2])
      + (ShowDate(r.end) + if hasCity then Spaces(gaps[3]) + r.city else "")))
  }

  lemma EndOfWord(w: string, t: string, delim: char)
    requires delim !in w && (t == "" || t[0] == delim)
    ensures WordEnd(w + t, delim) == |w|
  {
    WordEndIs(w + t, delim, |w|);
  }

  lemma EndOfGap(g: string, t: string, delim: char)
    requires (forall k :: 0 <= k < |g| ==> g[k] == delim) && (t == "" || t[0] != delim)
    ensures GapEnd(g + t, delim) == |g|
  {
    GapEndIs(g + t, delim, |g|);
  }

  /** One printed field is one word. */
  lemma SplitField(w: string, n: nat, t: string)
    requires OneWord(w) && n > 0 && (t == "" || t[0] != ' ')
    ensures Split(w + Spaces(n) + t, ' ') == [w] + Split(t, ' ')
  {
    var s := w + Spaces(n) + t;
    assert s == w + (Spaces(n) + t);
    EndOfWord(w, Spaces(n) + t, ' ');
    assert s[..|w|] == w && s[|w|..] == Spaces(n) + t;
    EndOfGap(Spaces(n), t, ' ');
    assert (Spaces(n) + t)[n..] == t;
  }

  lemma SplitLast(w: string)
    requires OneWord(w)
    ensures Split(w, ' ') == [w]
  {
    assert w + "" == w;
    EndOfWord(w, "", ' ');
  }

  lemma DigitsFront(d: nat, rest: string, value: nat)
    requires d < 10
    ensures Digits([Digit(d)] + rest, value) == Digits(rest, 10 * value + d)
  {
    assert ([Digit(d)] + rest)[1..] == rest;
  }

  lemma AtoiTwo(n: nat)
    requires n < 100
    ensures Atoi(Two(n)) == n
  {
    assert Two(n) == [Digit(n / 10)] + ([Digit(n % 10)] + "");
    DigitsFront(n / 10, [Digit(n % 10)] + "", 0);
    DigitsFront(n % 10, "", n / 10);
  }

  lemma AtoiFour(n: nat)
    requires n < 10000
    ensures Atoi(Four(n)) == n
  {
    var a, b := n / 100, n % 100;
    var last := [Digit(b % 10)] + "";
    assert Four(n) == [Digit(a / 10)] + ([Digit(a % 10)] + ([Digit(b / 10)] + last));
    DigitsFront(a / 10, [Digit(a % 10)] + ([Digit(b / 10)] + last), 0);
    DigitsFront(a % 10, [Digit(b / 10)] + last, a / 10);
    DigitsFront(b / 10, last, a);
    DigitsFront(b % 10, "", 10 * a + b / 10);
  }

  lemma {:induction false} BytesOf(s: string, from: nat, n: nat)
    requires from + n <= |s| && '\0' !in s
    ensures Bytes(s, from, n) == s[from..from + n]
    decreases n
  {
    if n > 0 {
      BytesOf(s, from + 1, n - 1);
      assert s[from..from + n] == [s[from]] + s[from + 1..from + n];
    }
  }

  /** A printed date is read back as it was. */
  lemma DateIsOneWord(d: Date)
    requires Printable(d)
    ensures |ShowDate(d)| == 10 && OneWord(ShowDate(d)) && '\0' !in ShowDate(d)
  {
    var s := ShowDate(d);
    forall k | 0 <= k < 10
      ensures s[k] != ' ' && s[k] != '\0'
    {
      assert s[k] == '-' || IsDigit(s[k]);
    }
  }

  lemma DateFields(d: Date)
    requires Printable(d)
    ensures var s := ShowDate(d);
      |s| == 10 && s[0..2] == Two(d.day) && s[3..5] == Two(d.month) && s[6..10] == Four(d.year)
  {
  }

  lemma DateRoundTrip(d: Date)
    requires Printable(d)
    ensures GetDate(ShowDate(d)) == d
    ensures OneWord(ShowDate(d)) && |ShowDate(d)| == 10
  {
    var s := ShowDate(d);
    DateIsOneWord(d);
    DateFields(d);
    BytesOf(s, 0, 2);
    BytesOf(s, 3, 2);
    BytesOf(s, 6, 4);
    AtoiTwo(d.day);
    AtoiTwo(d.month);
    AtoiFour(d.year);
  }

  function Tail(r: Request, hasCity: bool, gap: nat): string
    requires Printable(r.end)
  {
    ShowDate(r.end) + if hasCity then Spaces(gap) + r.city else ""
  }

  lemma SplitTail(r: Request, hasCity: bool, gap: nat)
    requires gap > 0 && Printable(r.end) && OneWord(r.city)
    ensures Split(Tail(r, hasCity, gap), ' ') == [ShowDate(r.end)] + if hasCity then [r.city] else []
    ensures Tail(r, hasCity, gap) != "" && Tail(r, hasCity, gap)[0] != ' '
  {
    DateRoundTrip(r.end);
    var tail := Tail(r, hasCity, gap);
    assert tail[0] == ShowDate(r.end)[0];
    if hasCity {
      assert tail == ShowDate(r.end) + Spaces(gap) + r.city;
      SplitField(ShowDate(r.end), gap, r.city);
      SplitLast(r.city);
    } else {
      assert tail == ShowDate(r.end);
      SplitLast(ShowDate(r.end));
    }
  }

  function Fields(r: Request, hasCity: bool): (words: seq<string>)
    requires Printable(r.start) && Printable(r.end)
    ensures 0 < |words| <= 5
  {
    [r.order, r.estate, ShowDate(r.start), ShowDate(r.end)] + if hasCity then [r.city] else []
  }

  lemma FieldsJoin(a: string, b: string, c: string, d: string, e: seq<string>)
    ensures [a] + ([b] + ([c] + ([d] + e))) == [a, b, c, d] + e
  {
  }

  lemma SplitShown(r: Request, hasCity: bool, gaps: seq<nat>)
    requires |gaps| == 4 && (forall k :: 0 <= k < 4 ==> gaps[k] > 0) && Printable(r.start) && Printable(r.end)
    requires OneWord(r.order) && OneWord(r.estate) && OneWord(r.city) && r.estate != ""
    ensures Split(Show(r, hasCity, gaps), ' ')
         == Fields(r, hasCity)
  {
    var tail := Tail(r, hasCity, gaps[3]);
    SplitTail(r, hasCity, gaps[3]);
    DateRoundTrip(r.start);
    var mid := ShowDate(r.start) + Spaces(gaps[2]) + tail;
    SplitField(ShowDate(r.start), gaps[2], tail);
    assert mid[0] == ShowDate(r.start)[0];
    var rest := r.estate + Spaces(gaps[1]) + mid;
    SplitField(r.estate, gaps[1], mid);
    assert rest[0] == r.estate[0];
    SplitField(r.order, gaps[0], rest);
    FieldsJoin(r.order, r.estate, ShowDate(r.start), ShowDate(r.end), if hasCity then [r.city] else []);
  }

  lemma FieldsParse(r: Request, hasCity: bool)
    requires Printable(r.start) && Printable(r.end)
    ensures FromWords(Fields(r, hasCity)) == if hasCity then r else r.(city := "all")
  {
    DateRoundTrip(r.start);
    DateRoundTrip(r.end);
  }

  /**
   Printing a request with any positive gaps and parsing the line gives the request back, with "all"
   for a city that was not given.
   */
  lemma RequestRoundTrip(r: Request, hasCity: bool, gaps: seq<nat>)
    requires |gaps| == 4 && (forall k :: 0 <= k < 4 ==> gaps[k] > 0) && Printable(r.start) && Printable(r.end)
    requires OneWord(r.order) && OneWord(r.estate) && OneWord(r.city) && r.estate != ""
    ensures |Split(Show(r, hasCity, gaps), ' ')| <= 5
    ensures FromWords(Split(Show(r, hasCity, gaps), ' ')) == if hasCity then r else r.(city := "all")
  {
    SplitShown(r, hasCity, gaps);
    FieldsParse(r, hasCity);
  }

  // ---------- where the fields lie ----------

  /** The digit a character stands for. */
  function ValueOf(c: char): int {
    c as int - 48
  }

  lemma DigitsOne(c: char, rest: string, value: nat)
    requires '0' <= c <= '9'
    ensures Digits([c] + rest, value) == Digits(rest, 10 * value + ValueOf(c))
  {
    assert ([c] + rest)[1..] == rest;
  }

  lemma AtoiOfTwo(a: char, b: char)
    requires '0' <= a <= '9' && '0' <= b <= '9'
    ensures Atoi([a, b]) == 10 * ValueOf(a) + ValueOf(b)
  {
    assert [a, b] == [a] + ([b] + "");
    DigitsOne(a, [b] + "", 0);
    DigitsOne(b, "", ValueOf(a));
  }

  /** Blanks in front are skipped, a sign counts, and the number ends at the first character that is no digit. */
  lemma AtoiForms(blank: char, a: char, other: char)
    requires blank == ' ' || 9 <= blank as int <= 13
    requires '0' <= a <= '9' && !('0' <= other <= '9')
    ensures Atoi([blank, a]) == ValueOf(a) && Atoi(['-', a]) == -ValueOf(a) && Atoi(['+', a]) == ValueOf(a)
    ensures Atoi([a, other]) == ValueOf(a)
  {
    assert [a] == [a] + "" && [a, other] == [a] + [other];
    DigitsOne(a, "", 0);
    DigitsOne(a, [other], 0);
    assert [blank, a][1..] == [a] && ['-', a][1..] == [a] && ['+', a][1..] == [a];
    assert IsSpace(blank);
  }

  lemma AtoiOfFour(a: char, b: char, c: char, d: char)
    requires '0' <= a <= '9' && '0' <= b <= '9' && '0' <= c <= '9' && '0' <= d <= '9'
    ensures Atoi([a, b, c, d]) == 1000 * ValueOf(a) + 100 * ValueOf(b) + 10 * ValueOf(c) + ValueOf(d)
  {
    assert [a, b, c, d] == [a] + ([b] + ([c] + ([d] + "")));
    DigitsOne(a, [b] + ([c] + ([d] + "")), 0);
    DigitsOne(b, [c] + ([d] + ""), ValueOf(a));
    DigitsOne(c, [d] + "", 10 * ValueOf(a) + ValueOf(b));
    DigitsOne(d, "", 100 * ValueOf(a) + 10 * ValueOf(b) + ValueOf(c));
  }

  /** Two digits of the day, a character, two of the month, a character, four of the year, and anything behind. */
  lemma DateLayout(s: string)
    requires |s| >= 10 && '\0' !in s
    requires forall k :: 0 <= k < 10 && k != 2 && k != 5 ==> '0' <= s[k] <= '9'
    ensures GetDate(s).day == 10 * ValueOf(s[0]) + ValueOf(s[1])
    ensures GetDate(s).month == 10 * ValueOf(s[3]) + ValueOf(s[4])
    ensures GetDate(s).year == 1000 * ValueOf(s[6]) + 100 * ValueOf(s[7]) + 10 * ValueOf(s[8]) + ValueOf(s[9])
  {
    BytesOf(s, 0, 2);
    BytesOf(s, 3, 2);
    BytesOf(s, 6, 4);
    assert s[0..2] == [s[0], s[1]] && s[3..5] == [s[3], s[4]] && s[6..10] == [s[6], s[7], s[8], s[9]];
    AtoiOfTwo(s[0], s[1]);
    AtoiOfTwo(s[3], s[4]);
    AtoiOfFour(s[6], s[7], s[8], s[9]);
  }

  lemma SpaceBehind(w: string, t: string)
    requires OneWord(w) && (t == "" || t[0] != ' ')
    ensures Split(w + " " + t, ' ') == [w] + Split(t, ' ')
  {
    assert Spaces(1) == " ";
    SplitField(w, 1, t);
  }

  /** A line of five words. */
  function Line(a: string, b: string, c: string, d: string, e: string): string {
    a + " " + (b + " " + (c + " " + (d + " " + e)))
  }

  lemma SplitLine(a: string, b: string, c: string, d: string, e: string)
    requires OneWord(a) && OneWord(b) && OneWord(c) && OneWord(d) && OneWord(e)
    requires b != "" && c != "" && d != "" && e != ""
    ensures Split(Line(a, b, c, d, e), ' ') == [a, b, c, d] + [e]
  {
    var four := d + " " + e;
    var three := c + " " + four;
    var two := b + " " + three;
    SplitLast(e);
    SpaceBehind(d, e);
    assert four[0] == d[0];
    SpaceBehind(c, four);
    assert three[0] == c[0];
    SpaceBehind(b, three);
    assert two[0] == b[0];
    SpaceBehind(a, two);
    FieldsJoin(a, b, c, d, [e]);
  }

  /** The words are, in this order, the kind of order, the kind of estate, the first day, the last day and the city. */
  lemma LineLayout(order: string, estate: string, start: string, end: string, city: string)
    requires OneWord(order) && OneWord(estate) && OneWord(start) && OneWord(end) && OneWord(city)
    requires estate != "" && start != "" && end != "" && city != ""
    ensures var words := Split(Line(order, estate, start, end, city), ' ');
      |words| == 5 && FromWords(words) == Request(order, estate, GetDate(start), GetDate(end), city)
  {
    SplitLine(order, estate, start, end, city);
  }
}
