/**
 The server that spreads a query over its servants (Final/src/server.c, Final/src/servant.c), and why
 its answers are those of a single process holding the whole dataset.
 */
module ShardedQuery {
  import opened Common
  import opened CStrings
  import opened TransactionCount

  /** What a servant registers: its port and the first and last of its cities. */
  datatype Servant = Servant(port: int, lower: nat, upper: nat, lowerCity: string, upperCity: string)

  /** The cities that the servant listening at a port has loaded. */
  type Network = map<int, seq<City>>

  // ---------- a servant's slice ----------

  method SetFolderBoundaries(directory: seq<string>, lower: nat, upper: nat) returns (names: seq<string>)
    requires 1 <= lower <= upper <= |directory|
    ensures names == directory[lower - 1..upper]
  {
    names := [];
    for i := 0 to upper - lower + 1
      invariant names == directory[lower - 1..lower - 1 + i]
    {
      names := names + [directory[i + lower - 1]];
    }
  }

  // ---------- the server ----------

  predicate InServant(s: Servant, name: string) {
    StrLe(s.lowerCity, name) && StrLe(name, s.upperCity)
  }

  /** The range of names is closed: nothing before the first name and nothing behind the last. */
  lemma InServantIff(s: Servant, name: string)
    ensures InServant(s, name) <==> !Before(name, s.lowerCity) && !Before(s.upperCity, name)
  {
    NegativeIffBefore(name, s.lowerCity);
    NegativeIffBefore(s.upperCity, name);
    Opposite(s.lowerCity, name);
    Opposite(name, s.lowerCity);
    Opposite(s.upperCity, name);
    Opposite(name, s.upperCity);
  }

  /** The first servant, in order of registration, whose range of names holds the city. */
  function Route(servants: seq<Servant>, name: string): (r: Option<Servant>)
    ensures r.Some? ==> r.value in servants
  {
    if servants == [] then None
    else if InServant(servants[0], name) then Some(servants[0])
    else Route(servants[1..], name)
  }

  function Answer(net: Network, s: Servant, q: Query): int
    requires s.port in net
  {
    Total(net[s.port], q)
  }

  predicate Reachable(servants: seq<Servant>, net: Network) {
    forall s :: s in servants ==> s.port in net
  }

  function FanOut(servants: seq<Servant>, net: Network, q: Query, n: nat): int
    requires Reachable(servants, net) && n <= |servants|
  {
    if n == 0 then 0 else FanOut(servants, net, q, n - 1) + Answer(net, servants[n - 1], q)
  }

  class Server {
    var servants: seq<Servant>

    constructor ()
      ensures servants == []
    {
      servants := [];
    }

    method CreateServantConnection(s: Servant)
      modifies this
      ensures servants == old(servants) + [s]
    {
      servants := servants + [s];
    }

    method GetServantWithNames(name: string) returns (r: Option<Servant>)
      ensures r == Route(servants, name)
    {
      for i := 0 to |servants|
        invariant Route(servants, name) == Route(servants[i..], name)
      {
        if StrCmp(servants[i].lowerCity, name) <= 0 && StrCmp(servants[i].upperCity, name) >= 0 {
          Opposite(servants[i].upperCity, name);
          Opposite(name, servants[i].upperCity);
          return Some(servants[i]);
        }
        Opposite(name, servants[i].upperCity);
        Opposite(servants[i].upperCity, name);
        assert servants[i..][1..] == servants[i + 1..];
      }
      r := None;
    }

    method ResponseWithMultiCity(q: Query, net: Network) returns (sum: int)
      requires Reachable(servants, net)
      ensures sum == FanOut(servants, net, q, |servants|)
    {
      sum := 0;
      for i := 0 to |servants|
        invariant sum == FanOut(servants, net, q, i)
      {
        var val := CalculateTransaction(net[servants[i].port], q);
        sum := sum + val;
      }
    }

    /** Everything that is sent back; the client reads the first. With no servant there is one -1 too many. */
    method HandleClient(q: Query, net: Network) returns (sent: seq<int>)
      requires Reachable(servants, net)
      ensures sent == (if servants == [] then [-1] else []) + [Reply(servants, net, q)]
    {
      sent := [];
      if |servants| == 0 {
        sent := [-1];
      }
      if q.city == "all" {
        var sum := ResponseWithMultiCity(q, net);
        return sent + [sum];
      }
      var s := GetServantWithNames(q.city);
      if s.None? {
        return sent + [-1];
      }
      var val := CalculateTransaction(net[s.value.port], q);
      sent := sent + [val];
    }
  }

  function Reply(servants: seq<Servant>, net: Network, q: Query): int
    requires Reachable(servants, net)
  {
    if q.city == "all" then FanOut(servants, net, q, |servants|)
    else
      var s := Route(servants, q.city);
      if s.None? then -1 else Answer(net, s.value, q)
  }

  // ---------- a deployment ----------

  ghost predicate Ascending(dataset: seq<City>) {
    forall i, j :: 0 <= i < j < |dataset| ==> StrCmp(dataset[i].name, dataset[j].name) < 0
  }

  predicate Holds(s: Servant, k: nat) {
    s.lower <= k + 1 <= s.upper
  }

  /** The servant has loaded exactly the cities within its borders, and registered their outermost names. */
  ghost predicate Loaded(dataset: seq<City>, net: Network, s: Servant) {
    && 1 <= s.lower <= s.upper <= |dataset|
    && s.port in net && net[s.port] == dataset[s.lower - 1..s.upper]
    && s.lowerCity == dataset[s.lower - 1].name && s.upperCity == dataset[s.upper - 1].name
  }

  ghost predicate Deployed(dataset: seq<City>, net: Network, servants: seq<Servant>) {
    Ascending(dataset) && forall s :: s in servants ==> Loaded(dataset, net, s)
  }

  function Holders(servants: seq<Servant>, k: nat, n: nat): nat
    requires n <= |servants|
  {
    if n == 0 then 0 else Holders(servants, k, n - 1) + if Holds(servants[n - 1], k) then 1 else 0
  }

  /** The borders tile the dataset: every city is within exactly one servant's borders. */
  ghost predicate Tiles(servants: seq<Servant>, size: nat) {
    forall k: nat :: k < size ==> Holders(servants, k, |servants|) == 1
  }

  // ---------- the "all" query ----------

  /** The first k cities' counts, each as often as the first n servants hold the city. */
  function HeldSum(dataset: seq<City>, servants: seq<Servant>, q: Query, n: nat, k: nat): nat
    requires n <= |servants| && k <= |dataset|
  {
    if k == 0 then 0
    else HeldSum(dataset, servants, q, n, k - 1) + Holders(servants, k - 1, n) * Part(dataset[k - 1], q)
  }

  /** How many of the first k cities are in the slice from lo to hi. */
  function Within(k: nat, lo: nat, hi: nat): nat
    requires lo <= hi
  {
    if k <= lo then 0 else if k <= hi then k - lo else hi - lo
  }

  lemma {:induction false} NoServants(dataset: seq<City>, servants: seq<Servant>, q: Query, k: nat)
    requires k <= |dataset|
    ensures HeldSum(dataset, servants, q, 0, k) == 0
  {
    if k > 0 {
      NoServants(dataset, servants, q, k - 1);
    }
  }

  lemma OneHolderMore(h: nat, p: nat)
    ensures (h + 1) * p == h * p + p
  {
  }

  /** The last of n servants adds the counts of its slice. */
  lemma {:induction false} AddServant(dataset: seq<City>, servants: seq<Servant>, q: Query, n: nat,
                                      lo: nat, hi: nat, k: nat)
    requires 0 < n <= |servants| && servants[n - 1].lower == lo + 1 && servants[n - 1].upper == hi
    requires lo <= hi <= |dataset| && k <= |dataset|
    ensures HeldSum(dataset, servants, q, n, k)
         == HeldSum(dataset, servants, q, n - 1, k) + PartSum(dataset[lo..hi], q, Within(k, lo, hi))
  {
    if k > 0 {
      AddServant(dataset, servants, q, n, lo, hi, k - 1);
      if lo < k <= hi {
        assert dataset[lo..hi][k - 1 - lo] == dataset[k - 1];
        OneHolderMore(Holders(servants, k - 1, n - 1), Part(dataset[k - 1], q));
      }
    }
  }

  lemma {:induction false} FanOutIsHeldSum(dataset: seq<City>, net: Network, servants: seq<Servant>, q: Query, n: nat)
    requires Deployed(dataset, net, servants) && Reachable(servants, net) && n <= |servants|
    ensures FanOut(servants, net, q, n) == HeldSum(dataset, servants, q, n, |dataset|)
  {
    if n == 0 {
      NoServants(dataset, servants, q, |dataset|);
    } else {
      FanOutIsHeldSum(dataset, net, servants, q, n - 1);
      assert Loaded(dataset, net, servants[n - 1]);
      AddServant(dataset, servants, q, n, servants[n - 1].lower - 1, servants[n - 1].upper, |dataset|);
    }
  }

  /** In general every city counts as often as it has holders, whatever the order of registration. */
  lemma FanOutCountsHolders(dataset: seq<City>, net: Network, servants: seq<Servant>, q: Query)
    requires Deployed(dataset, net, servants) && Reachable(servants, net)
    ensures FanOut(servants, net, q, |servants|) == HeldSum(dataset, servants, q, |servants|, |dataset|)
  {
    FanOutIsHeldSum(dataset, net, servants, q, |servants|);
  }

  lemma {:induction false} HeldOnce(dataset: seq<City>, servants: seq<Servant>, q: Query, k: nat)
    requires k <= |dataset| && Tiles(servants, |dataset|)
    ensures HeldSum(dataset, servants, q, |servants|, k) == PartSum(dataset, q, k)
  {
    if k > 0 {
      HeldOnce(dataset, servants, q, k - 1);
    }
  }

  /** When the borders tile the dataset, the summed answer is that of the whole dataset. */
  lemma FanOutIsCentral(dataset: seq<City>, net: Network, servants: seq<Servant>, q: Query)
    requires Deployed(dataset, net, servants) && Reachable(servants, net) && Tiles(servants, |dataset|)
    ensures FanOut(servants, net, q, |servants|) == Total(dataset, q)
  {
    FanOutCountsHolders(dataset, net, servants, q);
    HeldOnce(dataset, servants, q, |dataset|);
  }

  // ---------- a query for one city ----------

  lemma {:induction false} HolderExists(servants: seq<Servant>, k: nat, n: nat) returns (i: nat)
    requires n <= |servants| && Holders(servants, k, n) > 0
    ensures i < n && Holds(servants[i], k)
  {
    if Holds(servants[n - 1], k) {
      i := n - 1;
    } else {
      i := HolderExists(servants, k, n - 1);
    }
  }

  lemma NamesInOrder(dataset: seq<City>, i: nat, j: nat)
    requires Ascending(dataset) && i < |dataset| && j < |dataset|
    ensures StrLe(dataset[i].name, dataset[j].name) <==> i <= j
  {
    ZeroMeansEqual(dataset[i].name, dataset[i].name);
    Opposite(dataset[i].name, dataset[j].name);
    Opposite(dataset[j].name, dataset[i].name);
  }

  /** For a city of the dataset, lying in a servant's range of names is lying within its borders. */
  lemma RangeIsBorders(dataset: seq<City>, net: Network, s: Servant, k: nat)
    requires Ascending(dataset) && Loaded(dataset, net, s) && k < |dataset|
    ensures InServant(s, dataset[k].name) <==> Holds(s, k)
  {
    NamesInOrder(dataset, s.lower - 1, k);
    NamesInOrder(dataset, k, s.upper - 1);
  }

  lemma {:induction false} RouteFindsHolder(dataset: seq<City>, net: Network, servants: seq<Servant>, k: nat)
    requires Ascending(dataset) && (forall s :: s in servants ==> Loaded(dataset, net, s)) && k < |dataset|
    ensures var r := Route(servants, dataset[k].name);
      && (r.Some? ==> Holds(r.value, k))
      && (r.None? ==> forall i :: 0 <= i < |servants| ==> !Holds(servants[i], k))
  {
    if servants != [] {
      RangeIsBorders(dataset, net, servants[0], k);
      RouteFindsHolder(dataset, net, servants[1..], k);
      assert forall i :: 0 < i < |servants| ==> servants[i] == servants[1..][i - 1];
    }
  }

  /** When only city k can count, the sum is its count. */
  lemma {:induction false} SinglePart(cities: seq<City>, q: Query, k: nat, n: nat)
    requires n <= |cities| && forall i :: 0 <= i < |cities| && i != k ==> Part(cities[i], q) == 0
    ensures PartSum(cities, q, n) == if k < n then Part(cities[k], q) else 0
  {
    if n > 0 {
      SinglePart(cities, q, k, n - 1);
    }
  }

  /** A named query gets its count from the one city of that name. */
  lemma NamedTotal(cities: seq<City>, q: Query, k: nat)
    requires q.city != "all" && k < |cities| && cities[k].name == q.city
    requires forall i :: 0 <= i < |cities| && i != k ==> cities[i].name != q.city
    ensures Total(cities, q) == CityCount(cities[k], q, |cities[k].files|)
  {
    SinglePart(cities, q, k, |cities|);
  }

  lemma DistinctNames(dataset: seq<City>, i: nat, j: nat)
    requires Ascending(dataset) && i < |dataset| && j < |dataset| && i != j
    ensures dataset[i].name != dataset[j].name
  {
    ZeroMeansEqual(dataset[i].name, dataset[j].name);
    ZeroMeansEqual(dataset[j].name, dataset[i].name);
  }

  /** In any slice of the dataset that holds the city, the named query gets that city's count. */
  lemma NamedSlice(dataset: seq<City>, q: Query, k: nat, lo: nat, hi: nat)
    requires Ascending(dataset) && lo <= k < hi <= |dataset|
    requires q.city != "all" && q.city == dataset[k].name
    ensures Total(dataset[lo..hi], q) == CityCount(dataset[k], q, |dataset[k].files|)
  {
    var cities := dataset[lo..hi];
    forall i | 0 <= i < |cities| && i != k - lo
      ensures cities[i].name != q.city
    {
      DistinctNames(dataset, lo + i, k);
    }
    NamedTotal(cities, q, k - lo);
  }

  lemma HolderAnswers(dataset: seq<City>, net: Network, s: Servant, q: Query, k: nat)
    requires Ascending(dataset) && Loaded(dataset, net, s) && k < |dataset| && Holds(s, k)
    requires q.city != "all" && q.city == dataset[k].name
    ensures Answer(net, s, q) == Total(dataset, q)
  {
    NamedSlice(dataset, q, k, s.lower - 1, s.upper);
    NamedSlice(dataset, q, k, 0, |dataset|);
    assert dataset[0..|dataset|] == dataset;
  }

  lemma {:induction false} NoCityNoCount(cities: seq<City>, q: Query)
    requires q.city != "all" && forall i :: 0 <= i < |cities| ==> cities[i].name != q.city
    ensures Total(cities, q) == 0
  {
    SinglePart(cities, q, |cities|, |cities|);
  }

  lemma RouteIsInDataset(dataset: seq<City>, net: Network, s: Servant, q: Query)
    requires Loaded(dataset, net, s) && q.city != "all"
    requires forall i :: 0 <= i < |dataset| ==> dataset[i].name != q.city
    ensures Answer(net, s, q) == 0
  {
    assert forall i :: 0 <= i < |net[s.port]| ==> net[s.port][i] == dataset[s.lower - 1 + i];
    NoCityNoCount(net[s.port], q);
  }

  lemma {:induction false} RouteIsNone(servants: seq<Servant>, name: string)
    ensures Route(servants, name).None? <==> forall s :: s in servants ==> !InServant(s, name)
  {
    if servants != [] {
      RouteIsNone(servants[1..], name);
      assert servants == [servants[0]] + servants[1..];
    }
  }

  /**
   Sharding keeps the meaning of every query: with borders that tile the dataset, in any order of
   registration, the reply is the count over the whole dataset, except that a city that is in no
   servant's range of names gets -1 instead of 0.
   */
  lemma ReplyIsCentral(dataset: seq<City>, net: Network, servants: seq<Servant>, q: Query)
    requires Deployed(dataset, net, servants) && Reachable(servants, net) && Tiles(servants, |dataset|)
    ensures q.city == "all" || (exists k :: 0 <= k < |dataset| && dataset[k].name == q.city)
      ==> Reply(servants, net, q) == Total(dataset, q)
    ensures Reply(servants, net, q) == -1 <==>
      q.city != "all" && forall s :: s in servants ==> !InServant(s, q.city)
    ensures Reply(servants, net, q) != -1 ==> Reply(servants, net, q) == Total(dataset, q) == |Hits(dataset, q)|
  {
    TotalCountsHits(dataset, q);
    if q.city == "all" {
      FanOutIsCentral(dataset, net, servants, q);
    } else {
      RouteIsNone(servants, q.city);
      var r := Route(servants, q.city);
      if k: nat :| k < |dataset| && dataset[k].name == q.city {
        RouteFindsHolder(dataset, net, servants, k);
        var i := HolderExists(servants, k, |servants|);
        assert r.Some?;
        HolderAnswers(dataset, net, r.value, q, k);
      } else {
        NoCityNoCount(dataset, q);
        if r.Some? {
          RouteIsInDataset(dataset, net, r.value, q);
        }
      }
    }
  }

  // ---------- tiling is also necessary ----------

  lemma {:induction false} SingleHeld(dataset: seq<City>, servants: seq<Servant>, q: Query, k: nat, n: nat)
    requires n <= |dataset| && forall i :: 0 <= i < |dataset| && i != k ==> Part(dataset[i], q) == 0
    ensures HeldSum(dataset, servants, q, |servants|, n)
         == if k < n then Holders(servants, k, |servants|) * Part(dataset[k], q) else 0
  {
    if n > 0 {
      SingleHeld(dataset, servants, q, k, n - 1);
    }
  }

  /**
   If some city has no holder or several, a dataset with a single transaction, in that city, is
   counted wrongly.
   */
  lemma TilingIsNecessary(dataset: seq<City>, net: Network, servants: seq<Servant>, q: Query, k: nat)
    requires Deployed(dataset, net, servants) && Reachable(servants, net) && k < |dataset|
    requires q.city == "all" && Holders(servants, k, |servants|) != 1
    requires forall i :: 0 <= i < |dataset| && i != k ==> Part(dataset[i], q) == 0
    requires Part(dataset[k], q) == 1
    ensures FanOut(servants, net, q, |servants|) == Holders(servants, k, |servants|) != Total(dataset, q)
  {
    FanOutCountsHolders(dataset, net, servants, q);
    SingleHeld(dataset, servants, q, k, |dataset|);
    SinglePart(dataset, q, k, |dataset|);
  }
}
