/** Counting transactions by date, type and city (Final/src/lib.c). */
module TransactionCount {
  datatype Date = Date(day: int, month: int, year: int)

  datatype Transaction = Transaction(id: int, estate: string, city: string, area: int, price: int)

  datatype DateFile = DateFile(date: Date, transactions: seq<Transaction>)

  datatype City = City(name: string, files: seq<DateFile>)

  datatype Query = Query(start: Date, end: Date, estate: string, city: string)

  predicate InBetweenDate(start: Date, end: Date, comp: Date) {
    if comp.year < start.year || comp.year > end.year then false
    else if comp.year == start.year && comp.month < start.month then false
    else if comp.year == end.year && comp.month > end.month then false
    else if comp.year == start.year && comp.month == start.month && comp.day < start.day then false
    else if comp.year == end.year && comp.month == end.month && comp.day > end.day then false
    else true
  }

  /** Calendar order: by year, then month, then day. */
  predicate NotAfter(a: Date, b: Date) {
    a.year < b.year || (a.year == b.year && (a.month < b.month || (a.month == b.month && a.day <= b.day)))
  }

  /** The five early exits amount to lying in the closed interval, for any dates. */
  lemma InBetweenIsInterval(start: Date, end: Date, comp: Date)
    ensures InBetweenDate(start, end, comp) <==> NotAfter(start, comp) && NotAfter(comp, end)
  {
  }

  lemma NotAfterByNumber(a: Date, b: Date)
    requires 1 <= a.day <= 31 && 1 <= b.day <= 31 && 1 <= a.month <= 12 && 1 <= b.month <= 12
    ensures NotAfter(a, b) <==> 10000 * a.year + 100 * a.month + a.day <= 10000 * b.year + 100 * b.month + b.day
  {
  }

  /** On dates that exist this is the order of year, month and day written as one number. */
  lemma InBetweenByNumber(start: Date, end: Date, comp: Date)
    requires 1 <= start.day <= 31 && 1 <= end.day <= 31 && 1 <= comp.day <= 31
    requires 1 <= start.month <= 12 && 1 <= end.month <= 12 && 1 <= comp.month <= 12
    ensures InBetweenDate(start, end, comp) <==>
      && 10000 * start.year + 100 * start.month + start.day <= 10000 * comp.year + 100 * comp.month + comp.day
      && 10000 * comp.year + 100 * comp.month + comp.day <= 10000 * end.year + 100 * end.month + end.day
  {
    NotAfterByNumber(start, comp);
    NotAfterByNumber(comp, end);
  }

  function FileCount(df: DateFile, q: Query, n: nat): nat
    requires n <= |df.transactions|
  {
    if n == 0 then 0 else FileCount(df, q, n - 1) + if df.transactions[n - 1].estate == q.estate then 1 else 0
  }

  function CityCount(c: City, q: Query, n: nat): nat
    requires n <= |c.files|
  {
    if n == 0 then 0
    else CityCount(c, q, n - 1)
         + if InBetweenDate(q.start, q.end, c.files[n - 1].date)
           then FileCount(c.files[n - 1], q, |c.files[n - 1].transactions|) else 0
  }

  /** What one city adds to the answer. */
  function Part(c: City, q: Query): nat {
    if q.city == "all" || q.city == c.name then CityCount(c, q, |c.files|) else 0
  }

  function PartSum(cities: seq<City>, q: Query, n: nat): nat
    requires n <= |cities|
  {
    if n == 0 then 0 else PartSum(cities, q, n - 1) + Part(cities[n - 1], q)
  }

  function Total(cities: seq<City>, q: Query): nat {
    PartSum(cities, q, |cities|)
  }

  method CalculateInDateFile(df: DateFile, q: Query) returns (count: nat)
    ensures count == FileCount(df, q, |df.transactions|)
  {
    count := 0;
    for i := 0 to |df.transactions|
      invariant count == FileCount(df, q, i)
    {
      if df.transactions[i].estate == q.estate {
        count := count + 1;
      }
    }
  }

  method CalculateInCity(c: City, q: Query) returns (count: nat)
    ensures count == CityCount(c, q, |c.files|)
  {
    count := 0;
    for i := 0 to |c.files|
      invariant count == CityCount(c, q, i)
    {
      if InBetweenDate(q.start, q.end, c.files[i].date) {
        var n := CalculateInDateFile(c.files[i], q);
        count := count + n;
      }
    }
  }

  // ---------- the count is the number of matching transactions ----------

  predicate Hit(cities: seq<City>, q: Query, i: nat, j: nat, k: nat) {
    && i < |cities| && j < |cities[i].files| && k < |cities[i].files[j].transactions|
    && (q.city == "all" || q.city == cities[i].name)
    && NotAfter(q.start, cities[i].files[j].date) && NotAfter(cities[i].files[j].date, q.end)
    && cities[i].files[j].transactions[k].estate == q.estate
  }

  /** The positions (city, file, line) of the transactions asked for. */
  ghost function Hits(cities: seq<City>, q: Query): set<(nat, nat, nat)> {
    set i: nat, j: nat, k: nat | i < |cities| && j < |cities[i].files| && k < |cities[i].files[j].transactions|
      && Hit(cities, q, i, j, k) :: (i, j, k)
  }

  ghost function FileHits(cities: seq<City>, q: Query, i: nat, j: nat, n: nat): set<(nat, nat, nat)>
    requires i < |cities| && j < |cities[i].files| && n <= |cities[i].files[j].transactions|
  {
    set k: nat | k < n && Hit(cities, q, i, j, k) :: (i, j, k)
  }

  ghost function CityHits(cities: seq<City>, q: Query, i: nat, n: nat): set<(nat, nat, nat)>
    requires i < |cities| && n <= |cities[i].files|
  {
    set j: nat, k: nat | j < n && k < |cities[i].files[j].transactions| && Hit(cities, q, i, j, k) :: (i, j, k)
  }

  ghost function HitsBefore(cities: seq<City>, q: Query, n: nat): set<(nat, nat, nat)>
    requires n <= |cities|
  {
    set i: nat, j: nat, k: nat | i < n && j < |cities[i].files| && k < |cities[i].files[j].transactions|
      && Hit(cities, q, i, j, k) :: (i, j, k)
  }

  predicate Wanted(c: City, q: Query, j: nat)
    requires j < |c.files|
  {
    (q.city == "all" || q.city == c.name) && InBetweenDate(q.start, q.end, c.files[j].date)
  }

  lemma {:induction false} FileCountsHits(cities: seq<City>, q: Query, i: nat, j: nat, n: nat)
    requires i < |cities| && j < |cities[i].files| && n <= |cities[i].files[j].transactions|
    ensures |FileHits(cities, q, i, j, n)|
         == if Wanted(cities[i], q, j) then FileCount(cities[i].files[j], q, n) else 0
  {
    InBetweenIsInterval(q.start, q.end, cities[i].files[j].date);
    if n > 0 {
      FileCountsHits(cities, q, i, j, n - 1);
      var before, now := FileHits(cities, q, i, j, n - 1), FileHits(cities, q, i, j, n);
      assert (i, j, n - 1) !in before;
      assert now == if Hit(cities, q, i, j, n - 1) then before + {(i, j, n - 1)} else before;
    }
  }

  lemma CitySplit(cities: seq<City>, q: Query, i: nat, n: nat)
    requires i < |cities| && 0 < n <= |cities[i].files|
    ensures |CityHits(cities, q, i, n)|
         == |CityHits(cities, q, i, n - 1)| + |FileHits(cities, q, i, n - 1, |cities[i].files[n - 1].transactions|)|
  {
    var before, more, now := CityHits(cities, q, i, n - 1),
      FileHits(cities, q, i, n - 1, |cities[i].files[n - 1].transactions|), CityHits(cities, q, i, n);
    assert now == before + more;
    assert before !! more;
  }

  lemma {:induction false} CityCountsHits(cities: seq<City>, q: Query, i: nat, n: nat)
    requires i < |cities| && n <= |cities[i].files|
    ensures |CityHits(cities, q, i, n)|
         == if q.city == "all" || q.city == cities[i].name then CityCount(cities[i], q, n) else 0
  {
    if n > 0 {
      CityCountsHits(cities, q, i, n - 1);
      CitySplit(cities, q, i, n);
      FileCountsHits(cities, q, i, n - 1, |cities[i].files[n - 1].transactions|);
    } else {
      assert CityHits(cities, q, i, 0) == {};
    }
  }

  lemma NoHitsYet(cities: seq<City>, q: Query)
    ensures |HitsBefore(cities, q, 0)| == 0
  {
    assert HitsBefore(cities, q, 0) == {};
  }

  lemma HitsSplit(cities: seq<City>, q: Query, n: nat)
    requires 0 < n <= |cities|
    ensures |HitsBefore(cities, q, n)|
         == |HitsBefore(cities, q, n - 1)| + |CityHits(cities, q, n - 1, |cities[n - 1].files|)|
  {
    var before, more, now :=
      HitsBefore(cities, q, n - 1), CityHits(cities, q, n - 1, |cities[n - 1].files|), HitsBefore(cities, q, n);
    forall h | h in now
      ensures h in before + more
    {
      assert Hit(cities, q, h.0, h.1, h.2);
    }
    assert now == before + more;
    assert before !! more;
  }

  lemma {:induction false} HitsBeforeCount(cities: seq<City>, q: Query, n: nat)
    requires n <= |cities|
    ensures |HitsBefore(cities, q, n)| == PartSum(cities, q, n)
  {
    if n > 0 {
      HitsBeforeCount(cities, q, n - 1);
      CityCountsHits(cities, q, n - 1, |cities[n - 1].files|);
      HitsSplit(cities, q, n);
    } else {
      NoHitsYet(cities, q);
    }
  }

  /** The answer counts every matching transaction exactly once. */
  lemma TotalCountsHits(cities: seq<City>, q: Query)
    ensures Total(cities, q) == |Hits(cities, q)|
  {
    HitsBeforeCount(cities, q, |cities|);
    assert HitsBefore(cities, q, |cities|) == Hits(cities, q);
  }

  method CalculateTransaction(cities: seq<City>, q: Query) returns (count: nat)
    ensures count == Total(cities, q) == |Hits(cities, q)|
  {
    count := 0;
    for i := 0 to |cities|
      invariant count == PartSum(cities, q, i)
    {
      if q.city == "all" || q.city == cities[i].name {
        var n := CalculateInCity(cities[i], q);
        count := count + n;
      }
    }
    TotalCountsHits(cities, q);
  }
}
