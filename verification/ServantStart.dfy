/**
 How a servant comes by its slice (Final/src/servant.c): it sorts its own listing of the folders, keeps
 those within its borders, loads them and registers the outermost names. Servants that list the same
 folders in different orders still make up one deployment.
 */
module ServantStart {
  import opened CStrings
  import opened FolderSort
  import opened TransactionCount
  import opened RequestParser
  import opened ShardedQuery

  /** A data file of a city folder; its name is its date. */
  datatype DataFile = DataFile(name: string, transactions: seq<Transaction>)

  function FileOf(f: DataFile): DateFile {
    DateFile(GetDate(f.name), f.transactions)
  }

  /** A file named dd-mm-yyyy is of that day, and has the transactions of the file. */
  lemma FileIsOfItsDay(f: DataFile)
    requires |f.name| >= 10 && '\0' !in f.name
    requires forall k :: 0 <= k < 10 && k != 2 && k != 5 ==> '0' <= f.name[k] <= '9'
    ensures FileOf(f).date.day == 10 * ValueOf(f.name[0]) + ValueOf(f.name[1])
    ensures FileOf(f).date.month == 10 * ValueOf(f.name[3]) + ValueOf(f.name[4])
    ensures FileOf(f).date.year
         == 1000 * ValueOf(f.name[6]) + 100 * ValueOf(f.name[7]) + 10 * ValueOf(f.name[8]) + ValueOf(f.name[9])
    ensures FileOf(f).transactions == f.transactions
  {
    DateLayout(f.name);
  }

  type Disk = map<string, seq<DataFile>>

  function CityOf(disk: Disk, name: string): City
    requires name in disk
  {
    City(name, seq(|disk[name]|, j requires 0 <= j < |disk[name]| => FileOf(disk[name][j])))
  }

  predicate OnDisk(disk: Disk, names: seq<string>) {
    forall k :: 0 <= k < |names| ==> names[k] in disk
  }

  function Cities(disk: Disk, names: seq<string>): (r: seq<City>)
    requires OnDisk(disk, names)
    ensures |r| == |names| && forall k :: 0 <= k < |names| ==> r[k] == CityOf(disk, names[k])
  {
    seq(|names|, k requires 0 <= k < |names| => CityOf(disk, names[k]))
  }

  /** The city as the program loads it from so many files; without any file not even its name is set. */
  function FirstFiles(disk: Disk, name: string, files: nat): City
    requires name in disk && files <= |disk[name]|
  {
    if files == 0 then City("", [])
    else City(name, seq(files, j requires 0 <= j < files => FileOf(disk[name][j])))
  }

  /** Every folder has that many files, or more. */
  predicate HaveFiles(disk: Disk, names: seq<string>, files: nat) {
    OnDisk(disk, names) && forall k :: 0 <= k < |names| ==> files <= |disk[names[k]]|
  }

  function LoadedCities(disk: Disk, names: seq<string>, files: nat): (r: seq<City>)
    requires HaveFiles(disk, names, files)
    ensures |r| == |names| && forall k :: 0 <= k < |names| ==> r[k] == FirstFiles(disk, names[k], files)
  {
    seq(|names|, k requires 0 <= k < |names| => FirstFiles(disk, names[k], files))
  }

  /** Counts the files of folder after folder; only the last count is kept. */
  method GetSubFolders(names: seq<string>, disk: Disk) returns (files: nat)
    requires OnDisk(disk, names)
    ensures files == if names == [] then 0 else |disk[names[|names| - 1]]|
  {
    files := 0;
    for i := 0 to |names|
      invariant i > 0 ==> files == |disk[names[i - 1]]|
      invariant i == 0 ==> files == 0
    {
      files := |disk[names[i]]|;
    }
  }

  /** The inner loop: file after file; the name is set along with each of them. */
  method LoadCity(name: string, files: nat, disk: Disk) returns (city: City)
    requires name in disk && files <= |disk[name]|
    ensures city == FirstFiles(disk, name, files)
    ensures |city.files| == files && forall j :: 0 <= j < files ==>
      && city.files[j].date == GetDate(disk[name][j].name)
      && city.files[j].transactions == disk[name][j].transactions
  {
    city := City("", []);
    for j := 0 to files
      invariant city == FirstFiles(disk, name, j)
    {
      city := City(name, city.files + [FileOf(disk[name][j])]);
      assert city.files == FirstFiles(disk, name, j + 1).files;
    }
  }

  method GetDataFromDataset(names: seq<string>, files: nat, disk: Disk) returns (cities: seq<City>)
    requires HaveFiles(disk, names, files)
    ensures cities == LoadedCities(disk, names, files)
  {
    cities := [];
    for i := 0 to |names|
      invariant |cities| == i && forall k :: 0 <= k < i ==> cities[k] == FirstFiles(disk, names[k], files)
    {
      var city := LoadCity(names[i], files, disk);
      cities := cities + [city];
    }
  }

  /** All folders have the same number of files, and at least one. */
  predicate Uniform(disk: Disk, names: seq<string>, files: nat) {
    OnDisk(disk, names) && files > 0 && forall k :: 0 <= k < |names| ==> |disk[names[k]]| == files
  }

  lemma LoadsWholeCity(disk: Disk, name: string, files: nat)
    requires name in disk && files <= |disk[name]| && name != ""
    ensures FirstFiles(disk, name, files) == CityOf(disk, name) <==> files > 0 && files == |disk[name]|
  {
    var part, whole := FirstFiles(disk, name, files), CityOf(disk, name);
    assert |part.files| == files && |whole.files| == |disk[name]|;
    if files == |disk[name]| {
      assert part.files == whole.files;
    }
  }

  /** What is loaded is the whole of the folders exactly when they all have the same number of files, not 0. */
  lemma LoadsWholeIffUniform(disk: Disk, names: seq<string>, files: nat)
    requires HaveFiles(disk, names, files) && names != [] && "" !in names
    ensures LoadedCities(disk, names, files) == Cities(disk, names) <==> Uniform(disk, names, files)
  {
    var loaded, whole := LoadedCities(disk, names, files), Cities(disk, names);
    forall k | 0 <= k < |names|
      ensures loaded[k] == whole[k] <==> files > 0 && files == |disk[names[k]]|
    {
      assert names[k] in names;
      LoadsWholeCity(disk, names[k], files);
    }
    if loaded == whole {
      assert loaded[0] == whole[0];
    }
  }

  /** Two folders of two files and of one: a file of the first is not loaded. */
  lemma UnequalFoldersLoseFiles(f: DataFile, g: DataFile, h: DataFile)
    requires f.name != g.name
    ensures var disk := map["a" := [f, g], "b" := [h]]; var names := ["a", "b"];
      && HaveFiles(disk, names, |disk["b"]|)
      && LoadedCities(disk, names, |disk["b"]|)[0] == City("a", [FileOf(f)]) != CityOf(disk, "a")
  {
    var disk := map["a" := [f, g], "b" := [h]];
    assert LoadedCities(disk, ["a", "b"], 1)[0].files == [FileOf(f)];
    assert |CityOf(disk, "a").files| == 2;
  }

  /** No folder has fewer files than the last one, so that all the files looked for are there. */
  predicate LastIsLeast(disk: Disk, names: seq<string>) {
    names != [] && OnDisk(disk, names) && HaveFiles(disk, names, |disk[names[|names| - 1]]|)
  }

  function SliceOf(disk: Disk, names: seq<string>): (r: seq<City>)
    requires LastIsLeast(disk, names)
    ensures |r| == |names|
  {
    LoadedCities(disk, names, |disk[names[|names| - 1]]|)
  }

  /** The servant has sorted its listing of the folders, and keeps and registers the slice within its borders. */
  ghost predicate OwnSlice(disk: Disk, listing: seq<string>, own: seq<string>, net: Network, s: Servant) {
    && Sorted(own) && SameNames(own, listing) && OnDisk(disk, own)
    && 1 <= s.lower <= s.upper <= |own| && LastIsLeast(disk, own[s.lower - 1..s.upper])
    && s.port in net && net[s.port] == SliceOf(disk, own[s.lower - 1..s.upper])
    && s.lowerCity == net[s.port][0].name && s.upperCity == net[s.port][s.upper - s.lower].name
  }

  lemma SameOnDisk(disk: Disk, listing: seq<string>, own: seq<string>)
    requires SameNames(own, listing) && OnDisk(disk, listing)
    ensures OnDisk(disk, own)
  {
    forall k | 0 <= k < |own|
      ensures own[k] in disk
    {
      assert own[k] in multiset(own);
      assert own[k] in listing;
    }
  }

  /** However the folders sort, the last one within the borders has the fewest files. */
  ghost predicate CanLoad(disk: Disk, listing: seq<string>, lower: nat, upper: nat)
    requires 1 <= lower <= upper <= |listing|
  {
    forall own :: Sorted(own) && SameNames(own, listing) && |own| == |listing| ==>
      LastIsLeast(disk, own[lower - 1..upper])
  }

  lemma CanLoadOwn(disk: Disk, listing: seq<string>, own: seq<string>, lower: nat, upper: nat)
    requires 1 <= lower <= upper <= |listing| == |own| && CanLoad(disk, listing, lower, upper)
    requires Sorted(own) && SameNames(own, listing)
    ensures LastIsLeast(disk, own[lower - 1..upper])
  {
  }

  lemma MadeSlice(disk: Disk, listing: seq<string>, own: seq<string>, s: Servant, cities: seq<City>)
    requires Sorted(own) && SameNames(own, listing) && OnDisk(disk, listing)
    requires 1 <= s.lower <= s.upper <= |own| && LastIsLeast(disk, own[s.lower - 1..s.upper])
    requires cities == SliceOf(disk, own[s.lower - 1..s.upper])
    requires s.lowerCity == cities[0].name && s.upperCity == cities[s.upper - s.lower].name
    ensures OwnSlice(disk, listing, own, map[s.port := cities], s)
  {
    SameOnDisk(disk, listing, own);
  }

  method SortedSlice(directory: array<string>, lower: nat, upper: nat) returns (names: seq<string>)
    requires 1 <= lower <= upper <= directory.Length
    modifies directory
    ensures Sorted(directory[..]) && SameNames(directory[..], old(directory[..]))
    ensures names == directory[..][lower - 1..upper]
  {
    SortFolders(directory, directory.Length);
    names := SetFolderBoundaries(directory[..], lower, upper);
  }

  method LoadSlice(names: seq<string>, disk: Disk) returns (cities: seq<City>)
    requires LastIsLeast(disk, names)
    ensures cities == SliceOf(disk, names)
  {
    var files := GetSubFolders(names, disk);
    cities := GetDataFromDataset(names, files, disk);
  }

  /** Loads the names kept, and fills in the registration. */
  method LoadAndRegister(names: seq<string>, lower: nat, upper: nat, disk: Disk, port: int)
    returns (s: Servant, cities: seq<City>)
    requires lower <= upper && |names| == upper - lower + 1 && LastIsLeast(disk, names)
    ensures cities == SliceOf(disk, names)
    ensures s == Servant(port, lower, upper, cities[0].name, cities[upper - lower].name)
  {
    cities := LoadSlice(names, disk);
    s := Servant(port, lower, upper, cities[0].name, cities[upper - lower].name);
  }

  method StartServant(directory: array<string>, lower: nat, upper: nat, disk: Disk, port: int)
    returns (s: Servant, cities: seq<City>)
    requires 1 <= lower <= upper <= directory.Length && OnDisk(disk, directory[..])
    requires CanLoad(disk, directory[..], lower, upper)
    modifies directory
    ensures s.port == port && s.lower == lower && s.upper == upper
    ensures OwnSlice(disk, old(directory[..]), directory[..], map[port := cities], s)
  {
    var names := SortedSlice(directory, lower, upper);
    CanLoadOwn(disk, old(directory[..]), directory[..], lower, upper);
    s, cities := LoadAndRegister(names, lower, upper, disk, port);
    MadeSlice(disk, old(directory[..]), directory[..], s, cities);
  }

  ghost predicate Distinct(names: seq<string>) {
    forall i, j :: 0 <= i < j < |names| ==> names[i] != names[j]
  }

  /** Sorted distinct folder names make a dataset whose city names ascend. */
  lemma DatasetAscends(disk: Disk, names: seq<string>)
    requires OnDisk(disk, names) && Sorted(names) && Distinct(names)
    ensures Ascending(Cities(disk, names))
  {
    forall i, j | 0 <= i < j < |names|
      ensures StrCmp(names[i], names[j]) < 0
    {
      ZeroMeansEqual(names[i], names[j]);
    }
  }

  /** What a servant did on its own listing agrees with the dataset that any other listing gives. */
  lemma StartedIsLoaded(disk: Disk, names: seq<string>, own: seq<string>, net: Network, s: Servant)
    requires Sorted(names) && Sorted(own) && SameNames(own, names) && OnDisk(disk, names) && OnDisk(disk, own)
    requires 1 <= s.lower <= s.upper <= |own|
    requires s.port in net && net[s.port] == Cities(disk, own)[s.lower - 1..s.upper]
    requires s.lowerCity == own[s.lower - 1] && s.upperCity == own[s.upper - 1]
    ensures Loaded(Cities(disk, names), net, s)
  {
    SortIsCanonical(own, names);
  }

  lemma UniformIsWhole(disk: Disk, names: seq<string>, files: nat)
    requires Uniform(disk, names, files)
    ensures HaveFiles(disk, names, files) && LoadedCities(disk, names, files) == Cities(disk, names)
  {
    var loaded, whole := LoadedCities(disk, names, files), Cities(disk, names);
    forall k | 0 <= k < |names|
      ensures loaded[k] == whole[k]
    {
      assert FirstFiles(disk, names[k], files).files == CityOf(disk, names[k]).files;
    }
  }

  lemma CitiesOfSlice(disk: Disk, own: seq<string>, lo: nat, hi: nat)
    requires OnDisk(disk, own) && lo <= hi <= |own|
    ensures OnDisk(disk, own[lo..hi]) && Cities(disk, own[lo..hi]) == Cities(disk, own)[lo..hi]
  {
  }

  lemma UniformSlice(disk: Disk, own: seq<string>, lo: nat, hi: nat, files: nat)
    requires Uniform(disk, own, files) && lo < hi <= |own|
    ensures LastIsLeast(disk, own[lo..hi]) && SliceOf(disk, own[lo..hi]) == Cities(disk, own)[lo..hi]
  {
    var names := own[lo..hi];
    assert Uniform(disk, names, files);
    assert |disk[names[|names| - 1]]| == files;
    UniformIsWhole(disk, names, files);
    CitiesOfSlice(disk, own, lo, hi);
  }

  lemma SliceNames(disk: Disk, own: seq<string>, lo: nat, hi: nat)
    requires OnDisk(disk, own) && lo < hi <= |own|
    ensures Cities(disk, own)[lo..hi][0].name == own[lo]
    ensures Cities(disk, own)[lo..hi][hi - lo - 1].name == own[hi - 1]
  {
  }

  /** With uniform folders the servant's slice is all of its cities, by name and by files. */
  lemma OwnSliceIsWhole(disk: Disk, listing: seq<string>, own: seq<string>, net: Network, s: Servant, files: nat)
    requires OwnSlice(disk, listing, own, net, s) && Uniform(disk, own, files)
    ensures net[s.port] == Cities(disk, own)[s.lower - 1..s.upper]
    ensures s.lowerCity == own[s.lower - 1] && s.upperCity == own[s.upper - 1]
  {
    UniformSlice(disk, own, s.lower - 1, s.upper, files);
    SliceNames(disk, own, s.lower - 1, s.upper);
  }

  /** A servant that started on some listing of the folders of the dataset. */
  ghost predicate Started(disk: Disk, names: seq<string>, net: Network, s: Servant) {
    exists listing, own :: SameNames(listing, names) && OwnSlice(disk, listing, own, net, s)
  }

  lemma StartedIsDeployed(disk: Disk, names: seq<string>, net: Network, s: Servant, files: nat)
    requires Sorted(names) && Uniform(disk, names, files) && Started(disk, names, net, s)
    ensures Loaded(Cities(disk, names), net, s)
  {
    var listing, own :| SameNames(listing, names) && OwnSlice(disk, listing, own, net, s);
    SortIsCanonical(own, names);
    OwnSliceIsWhole(disk, listing, own, net, s, files);
    StartedIsLoaded(disk, names, own, net, s);
  }

  /**
   From the folders to the replies: servants that each started on a listing of their own, with borders that
   tile the folders, answer every query as the whole dataset would, but for -1 outside all ranges of names.
   */
  lemma StartedRepliesAreCentral(disk: Disk, names: seq<string>, net: Network, servants: seq<Servant>, q: Query,
                                 files: nat)
    requires Sorted(names) && Distinct(names) && Uniform(disk, names, files)
    requires (forall s :: s in servants ==> Started(disk, names, net, s)) && Tiles(servants, |names|)
    ensures Reachable(servants, net)
    ensures q.city == "all" || q.city in names ==> Reply(servants, net, q) == Total(Cities(disk, names), q)
    ensures Reply(servants, net, q) == -1 <==>
      q.city != "all" && forall s :: s in servants ==> !InServant(s, q.city)
    ensures Reply(servants, net, q) != -1 ==>
      Reply(servants, net, q) == Total(Cities(disk, names), q) == |Hits(Cities(disk, names), q)|
  {
    var dataset := Cities(disk, names);
    DatasetAscends(disk, names);
    forall s | s in servants
      ensures Loaded(dataset, net, s)
    {
      StartedIsDeployed(disk, names, net, s, files);
    }
    ReplyIsCentral(dataset, net, servants, q);
    if q.city in names {
      var k :| 0 <= k < |names| && names[k] == q.city;
      assert dataset[k].name == q.city;
    }
  }

  lemma OneStarted(f: DataFile, port: int)
    ensures var disk, names := map["b" := [f]], ["b"]; var s := Servant(port, 1, 1, "b", "b");
      Started(disk, names, map[port := Cities(disk, names)], s)
  {
    var disk, names := map["b" := [f]], ["b"];
    var net, s := map[port := Cities(disk, names)], Servant(port, 1, 1, "b", "b");
    UniformIsWhole(disk, names, 1);
    assert names[0..1] == names;
    assert OwnSlice(disk, names, names, net, s);
  }

  /** One servant, started on the one folder "b" with a file in it: a query for "a" gets -1, not 0. */
  lemma OutsideGetsMinusOne(f: DataFile, port: int, start: Date, end: Date, kind: string)
    ensures var disk, names := map["b" := [f]], ["b"];
      var net, servants := map[port := Cities(disk, names)], [Servant(port, 1, 1, "b", "b")];
      var q := Query(start, end, kind, "a");
      && (forall s :: s in servants ==> Started(disk, names, net, s)) && Tiles(servants, |names|)
      && Reachable(servants, net) && Reply(servants, net, q) == -1 && Total(Cities(disk, names), q) == 0
  {
    var disk, names := map["b" := [f]], ["b"];
    var net, servants := map[port := Cities(disk, names)], [Servant(port, 1, 1, "b", "b")];
    var q := Query(start, end, kind, "a");
    OneStarted(f, port);
    forall k: nat | k < 1
      ensures Holders(servants, k, 1) == 1
    {
      assert Holders(servants, k, 0) == 0;
    }
    StartedRepliesAreCentral(disk, names, net, servants, q, 1);
    assert StrCmp("b", "a") > 0;
    NoCityNoCount(Cities(disk, names), q);
  }

  lemma SortsAdanaFirst(own: seq<string>)
    requires Sorted(own) && SameNames(own, ["BOLU", "ADANA"])
    ensures |own| == 2 && own[..1] == ["ADANA"]
  {
    var names := ["ADANA", "BOLU"];
    assert StrCmp("ADANA", "BOLU") < 0;
    assert Sorted(names);
    assert SameNames(names, ["BOLU", "ADANA"]);
    SortIsCanonical(own, names);
  }

  lemma OneFolderWhole(disk: Disk, name: string)
    requires name in disk && disk[name] != []
    ensures LastIsLeast(disk, [name]) && SliceOf(disk, [name]) == [CityOf(disk, name)]
  {
    UniformIsWhole(disk, [name], |disk[name]|);
  }

  lemma OwnIsSorted(disk: Disk, listing: seq<string>, own: seq<string>, net: Network, s: Servant)
    requires OwnSlice(disk, listing, own, net, s)
    ensures Sorted(own) && SameNames(own, listing)
  {
  }

  lemma Registered(disk: Disk, listing: seq<string>, own: seq<string>, net: Network, s: Servant)
    requires OwnSlice(disk, listing, own, net, s)
    ensures 1 <= s.lower <= s.upper <= |own| && LastIsLeast(disk, own[s.lower - 1..s.upper]) && s.port in net
    ensures net[s.port] == SliceOf(disk, own[s.lower - 1..s.upper])
    ensures s.lowerCity == net[s.port][0].name && s.upperCity == net[s.port][s.upper - s.lower].name
  {
  }

  lemma FirstRegisters(disk: Disk, listing: seq<string>, own: seq<string>, net: Network, s: Servant, name: string)
    requires OwnSlice(disk, listing, own, net, s) && s.lower == s.upper == 1
    requires own[..1] == [name] && name in disk && disk[name] != []
    ensures s.lowerCity == s.upperCity == name && net[s.port] == [CityOf(disk, name)]
  {
    Registered(disk, listing, own, net, s);
    OneFolderWhole(disk, name);
  }

  /** Of the folders BOLU and ADANA, listed like that, the servant with the borders 1 and 1 registers ADANA. */
  lemma FirstIsAdana(disk: Disk, listing: seq<string>, own: seq<string>, net: Network, s: Servant)
    requires OwnSlice(disk, listing, own, net, s) && listing == ["BOLU", "ADANA"] && s.lower == s.upper == 1
    requires "ADANA" in disk && disk["ADANA"] != []
    ensures s.lowerCity == s.upperCity == "ADANA" && net[s.port] == [CityOf(disk, "ADANA")]
  {
    var adana := "ADANA";
    assert own[..1] == [adana] by {
      OwnIsSorted(disk, listing, own, net, s);
      SortsAdanaFirst(own);
    }
    FirstRegisters(disk, listing, own, net, s, adana);
  }
}
