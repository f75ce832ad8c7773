/**
 What the dessert protocol guarantees over whole runs, for every schedule of its eleven processes and
 every input file.
 */
module DessertTheorems {
  import opened DessertProtocol
  import opened DessertInvariant

  lemma {:induction false} RunKeepsInvariant(file: seq<char>, schedule: seq<Process>) returns (ph: Phase)
    requires Run(file, Init(), schedule).Some?
    ensures Inv(file, Run(file, Init(), schedule).value, ph)
    decreases |schedule|
  {
    if schedule == [] {
      InitHolds(file);
      ph := Home;
    } else {
      var last := |schedule| - 1;
      var before := RunKeepsInvariant(file, schedule[..last]);
      ph := StepKeepsInvariant(file, Run(file, Init(), schedule[..last]).value, schedule[last], before);
    }
  }

  // ---------- safety in every reachable state ----------

  predicate ChefBusy(s: State, c: nat)
    requires Shape(s) && c < 6
  {
    s.sem[c] > 0 || s.chef[c] != Resting
  }

  predicate UsesBuffer(pc: WholesalerPc) {
    pc == AtRead || pc == AtFirst || pc == AtSecond
  }

  /** At most one flag is up, and none when the wholesaler may start a round. */
  lemma AtMostOneFlag(file: seq<char>, schedule: seq<Process>, x: nat, y: nat)
    requires Run(file, Init(), schedule).Some? && x < 4 && y < 4
    ensures var s := Run(file, Init(), schedule).value;
      && (s.flag[x] && s.flag[y] ==> x == y)
      && (s.sem[6] > 0 || s.w == AtRead || s.w == AtFirst ==> !s.flag[x])
  {
    var ph := RunKeepsInvariant(file, schedule);
    match ph
    case Full(a, b) =>
    case Home =>
    case Fresh =>
    case Half(a) =>
    case Cooking(c) =>
    case Doomed(z) =>
  }

  lemma BusyMeansCooking(file: seq<char>, s: State, ph: Phase, c: nat)
    requires Inv(file, s, ph) && c < 6 && ChefBusy(s, c)
    ensures ph == Cooking(c)
  {
    match ph
    case Cooking(d) =>
    case Full(a, b) => assert false;
    case Home => assert false;
    case Fresh => assert false;
    case Half(a) => assert false;
    case Doomed(z) => assert false;
  }

  lemma CookingAlone(file: seq<char>, s: State, c: nat)
    requires Inv(file, s, Cooking(c))
    ensures c < 6 && s.w == AtWait && s.sem[6] == 0 && s.sem[c] <= 1
    ensures forall d: nat :: d < 6 && d != c ==> !ChefBusy(s, d)
    ensures forall x: nat :: x < 4 ==> !s.flag[x] && Live(s, x) == 0
    ensures s.rounds > 0 && GoodChunk(file, s.rounds - 1) && ChunkChef(file, s.rounds - 1) == c
  {
  }

  /**
   The baton is in one place: while a chef is woken or at work, no other chef is, the wholesaler waits
   without its semaphore raised, no flag is up, no delivery is under way, and the chef is the one
   without exactly the two ingredients of the chunk just read.
   */
  lemma OneChefAtATime(file: seq<char>, schedule: seq<Process>, c: nat)
    requires Run(file, Init(), schedule).Some? && c < 6
    ensures var s := Run(file, Init(), schedule).value;
      ChefBusy(s, c) ==>
        && s.w == AtWait && s.sem[6] == 0 && s.sem[c] <= 1
        && (forall d: nat :: d < 6 && d != c ==> !ChefBusy(s, d))
        && (forall x: nat :: x < 4 ==> !s.flag[x] && Live(s, x) == 0)
        && s.rounds > 0 && GoodChunk(file, s.rounds - 1)
        && Lacks(c) == {First(file, s.rounds - 1), Second(file, s.rounds - 1)}
  {
    var ph := RunKeepsInvariant(file, schedule);
    var s := Run(file, Init(), schedule).value;
    if ChefBusy(s, c) {
      BusyMeansCooking(file, s, ph, c);
      CookingAlone(file, s, c);
    }
  }

  lemma SecondByteKept(file: seq<char>, s: State, ph: Phase)
    requires Inv(file, s, ph) && s.w == AtSecond
    ensures s.rounds > 0 && 3 * s.rounds - 2 < |file| && s.buf[1] == file[3 * s.rounds - 2]
  {
    assert ph.Half?;
  }

  /** The wholesaler never touches the shared buffer while a chef may, and reads back what it stored. */
  lemma BufferIsExclusive(file: seq<char>, schedule: seq<Process>, c: nat)
    requires Run(file, Init(), schedule).Some? && c < 6
    ensures var s := Run(file, Init(), schedule).value;
      && !(ChefBusy(s, c) && UsesBuffer(s.w))
      && (s.w == AtSecond ==> s.rounds > 0 && 3 * s.rounds - 2 < |file| && s.buf[1] == file[3 * s.rounds - 2])
  {
    OneChefAtATime(file, schedule, c);
    var ph := RunKeepsInvariant(file, schedule);
    var s := Run(file, Init(), schedule).value;
    if s.w == AtSecond {
      SecondByteKept(file, s, ph);
    }
  }

  // ---------- termination ----------

  function PusherWork(pc: PusherPc): nat {
    match pc
    case Idle => 0
    case Lock => 2063
    case Test(k) => if k < 3 then 2061 - k else 0
    case Clear(_) => 2057
    case Wake(_) => 2056
    case Raise => 2
    case Unlock => 1
  }

  function ChefWork(pc: ChefPc): nat {
    match pc
    case Resting => 0
    case Pop(i) => if i < BUFFER_SIZE then 5 + BUFFER_SIZE - i else 5
    case Count => 4
    case Deliver => 3
  }

  function WholesalerWork(pc: WholesalerPc): nat {
    match pc
    case AtRead => 1
    case AtFirst => 4130
    case AtSecond => 2065
    case _ => 0
  }

  function PusherTotal(ps: seq<PusherPc>): nat
    requires |ps| == 4
  {
    PusherWork(ps[0]) + PusherWork(ps[1]) + PusherWork(ps[2]) + PusherWork(ps[3])
  }

  function ChefTotal(cs: seq<ChefPc>): nat
    requires |cs| == 6
  {
    ChefWork(cs[0]) + ChefWork(cs[1]) + ChefWork(cs[2]) + ChefWork(cs[3]) + ChefWork(cs[4]) + ChefWork(cs[5])
  }

  function Weight(i: nat): nat {
    if i < 6 then 2054 else if i == 6 then 2 else if i == 7 then 0 else 2064
  }

  function SemTotal(sem: seq<nat>): nat
    requires |sem| == 12
  {
    2054 * (sem[0] + sem[1] + sem[2] + sem[3] + sem[4] + sem[5]) + 2 * sem[6]
    + 2064 * (sem[8] + sem[9] + sem[10] + sem[11])
  }

  lemma PusherTotalUpdate(ps: seq<PusherPc>, p: nat, pc: PusherPc)
    requires |ps| == 4 && p < 4
    ensures PusherTotal(ps[p := pc]) == PusherTotal(ps) - PusherWork(ps[p]) + PusherWork(pc)
  {
  }

  lemma ChefTotalUpdate(cs: seq<ChefPc>, c: nat, pc: ChefPc)
    requires |cs| == 6 && c < 6
    ensures ChefTotal(cs[c := pc]) == ChefTotal(cs) - ChefWork(cs[c]) + ChefWork(pc)
  {
  }

  lemma SemTotalUpdate(sem: seq<nat>, i: nat)
    requires |sem| == 12 && i < 12
    ensures SemTotal(sem[i := sem[i] + 1]) == SemTotal(sem) + Weight(i)
    ensures sem[i] > 0 ==> SemTotal(sem[i := sem[i] - 1]) == SemTotal(sem) - Weight(i)
  {
  }

  /** An upper bound on the number of steps that can still happen. */
  function Work(file: seq<char>, s: State): nat
    requires Shape(s)
  {
    (if s.rounds < NumChunks(file) then 4130 * (NumChunks(file) - s.rounds) else 0)
    + WholesalerWork(s.w) + SemTotal(s.sem) + PusherTotal(s.pusher) + ChefTotal(s.chef)
  }

  lemma WholesalerMove(file: seq<char>, s: State, t: State, d: int)
    requires Shape(s) && Shape(t) && t.rounds == s.rounds && t.pusher == s.pusher && t.chef == s.chef
    requires SemTotal(t.sem) == SemTotal(s.sem) + d && d + WholesalerWork(t.w) < WholesalerWork(s.w)
    ensures Work(file, t) < Work(file, s)
  {
  }

  lemma WholesalerPosts(file: seq<char>, s: State)
    requires Shape(s) && (s.w == AtFirst || s.w == AtSecond) && WholesalerStep(file, s).Some?
    ensures Work(file, WholesalerStep(file, s).value) < Work(file, s)
  {
    var x := Ingredient(s.buf[if s.w == AtFirst then 0 else 1]);
    if x.Some? {
      SemTotalUpdate(s.sem, 8 + x.value);
      WholesalerMove(file, s, WholesalerStep(file, s).value, Weight(8 + x.value));
    } else {
      WholesalerMove(file, s, WholesalerStep(file, s).value, 0);
    }
  }

  lemma WholesalerWorkDecreases(file: seq<char>, s: State)
    requires Shape(s) && WholesalerStep(file, s).Some?
    ensures Work(file, WholesalerStep(file, s).value) < Work(file, s)
  {
    if s.w == AtFirst || s.w == AtSecond {
      WholesalerPosts(file, s);
    } else {
      Bytes(file, s.rounds);
      SemTotalUpdate(s.sem, 6);
    }
  }

  lemma PusherMove(file: seq<char>, s: State, t: State, p: nat, d: int)
    requires Shape(s) && Shape(t) && p < 4 && t.rounds == s.rounds && t.w == s.w && t.chef == s.chef
    requires t.pusher == s.pusher[p := t.pusher[p]] && SemTotal(t.sem) == SemTotal(s.sem) + d
    requires d + PusherWork(t.pusher[p]) < PusherWork(s.pusher[p])
    ensures Work(file, t) < Work(file, s)
  {
    PusherTotalUpdate(s.pusher, p, t.pusher[p]);
  }

  lemma PusherSemDecreases(file: seq<char>, s: State, p: nat)
    requires Shape(s) && p < 4 && PusherStep(s, p).Some?
    requires s.pusher[p].Idle? || s.pusher[p].Wake?
    ensures Work(file, PusherStep(s, p).value) < Work(file, s)
  {
    var t := PusherStep(s, p).value;
    if s.pusher[p].Idle? {
      SemTotalUpdate(s.sem, 8 + p);
      PusherMove(file, s, t, p, -2064);
    } else {
      SemTotalUpdate(s.sem, ChefOf(p, s.pusher[p].k));
      PusherMove(file, s, t, p, 2054);
    }
  }

  lemma PusherMutexDecreases(file: seq<char>, s: State, p: nat)
    requires Shape(s) && p < 4 && PusherStep(s, p).Some?
    requires s.pusher[p].Lock? || s.pusher[p].Unlock?
    ensures Work(file, PusherStep(s, p).value) < Work(file, s)
  {
    SemTotalUpdate(s.sem, 7);
    PusherMove(file, s, PusherStep(s, p).value, p, 0);
  }

  lemma PusherWorkDecreases(file: seq<char>, s: State, p: nat)
    requires Shape(s) && p < 4 && PusherStep(s, p).Some?
    ensures Work(file, PusherStep(s, p).value) < Work(file, s)
  {
    if s.pusher[p].Idle? || s.pusher[p].Wake? {
      PusherSemDecreases(file, s, p);
    } else if s.pusher[p].Lock? || s.pusher[p].Unlock? {
      PusherMutexDecreases(file, s, p);
    } else {
      PusherMove(file, s, PusherStep(s, p).value, p, 0);
    }
  }

  lemma ChefMove(file: seq<char>, s: State, t: State, c: nat, d: int)
    requires Shape(s) && Shape(t) && c < 6 && t.rounds == s.rounds && t.w == s.w && t.pusher == s.pusher
    requires t.chef == s.chef[c := t.chef[c]] && SemTotal(t.sem) == SemTotal(s.sem) + d
    requires d + ChefWork(t.chef[c]) < ChefWork(s.chef[c])
    ensures Work(file, t) < Work(file, s)
  {
    ChefTotalUpdate(s.chef, c, t.chef[c]);
  }

  lemma ChefTakes(file: seq<char>, s: State, c: nat)
    requires Shape(s) && c < 6 && s.chef[c] == Resting && s.sem[c] > 0
    ensures Work(file, ChefStep(s, c).value) < Work(file, s)
  {
    SemTotalUpdate(s.sem, c);
    ChefMove(file, s, ChefStep(s, c).value, c, -2054);
  }

  lemma ChefDelivers(file: seq<char>, s: State, c: nat)
    requires Shape(s) && c < 6 && s.chef[c] == Deliver
    ensures Work(file, ChefStep(s, c).value) < Work(file, s)
  {
    SemTotalUpdate(s.sem, 6);
    ChefMove(file, s, ChefStep(s, c).value, c, 2);
  }

  lemma ChefWorkDecreases(file: seq<char>, s: State, c: nat)
    requires Shape(s) && c < 6 && ChefStep(s, c).Some?
    ensures Work(file, ChefStep(s, c).value) < Work(file, s)
  {
    match s.chef[c]
    case Resting => ChefTakes(file, s, c);
    case Deliver => ChefDelivers(file, s, c);
    case _ => ChefMove(file, s, ChefStep(s, c).value, c, 0);
  }

  /** Every step of every process, in every state, leaves less to do. */
  lemma StepDecreasesWork(file: seq<char>, s: State, p: Process)
    requires Shape(s) && Step(file, s, p).Some?
    ensures Work(file, Step(file, s, p).value) < Work(file, s)
  {
    match p
    case Wholesaler => WholesalerWorkDecreases(file, s);
    case Pusher(i) => PusherWorkDecreases(file, s, i);
    case Chef(c) => ChefWorkDecreases(file, s, c);
  }

  /** No run is longer than 4130 steps for each chunk of the file, and two more. */
  lemma {:induction false} RunsAreBounded(file: seq<char>, schedule: seq<Process>)
    requires Run(file, Init(), schedule).Some?
    ensures |schedule| + Work(file, Run(file, Init(), schedule).value) <= 4130 * NumChunks(file) + 2
    decreases |schedule|
  {
    if schedule != [] {
      var last := |schedule| - 1;
      RunsAreBounded(file, schedule[..last]);
      StepDecreasesWork(file, Run(file, Init(), schedule[..last]).value, schedule[last]);
    }
  }

  // ---------- no deadlock ----------

  lemma CriticalCanMove(s: State, p: nat)
    requires Shape(s) && AllKnow(s) && p < 4 && InCritical(s.pusher[p])
    ensures PusherStep(s, p).Some?
  {
    assert Knows(s, p);
  }

  /** A delivery under way can always make progress: its own pusher, or the one that holds the mutex. */
  lemma DeliveryCanMove(file: seq<char>, s: State, x: nat)
    requires Shape(s) && Mutex(s) && AllKnow(s) && x < 4 && Live(s, x) > 0
    ensures !Stuck(file, s)
  {
    if p: nat :| p < 4 && InCritical(s.pusher[p]) {
      CriticalCanMove(s, p);
      assert Step(file, s, Pusher(p)).Some?;
    } else {
      assert s.sem[7] == 1;
      assert Step(file, s, Pusher(x)).Some?;
    }
  }

  lemma StuckIsEndOrDoomed(file: seq<char>, s: State, ph: Phase)
    requires Inv(file, s, ph) && Stuck(file, s)
    ensures (ph == Home && s.w == AtEnd) || ph.Doomed?
  {
    assert Step(file, s, Wholesaler).None?;
    assert ph.Cooking? ==> Step(file, s, Chef(ph.c)).None?;
    match ph
    case Home =>
    case Fresh =>
    case Half(a) =>
    case Full(a, b) => DeliveryCanMove(file, s, if Live(s, a) > 0 then a else b);
    case Cooking(c) => assert false;
    case Doomed(x) =>
  }

  function Total(file: seq<char>, k: nat, c: nat): nat
    requires c <= 6
  {
    if c == 0 then 0 else Total(file, k, c - 1) + ServedBefore(file, k, c - 1)
  }

  lemma {:induction false} TotalStep(file: seq<char>, k: nat, c: nat)
    requires c <= 6 && GoodChunk(file, k)
    ensures Total(file, k + 1, c) == Total(file, k, c) + if ChunkChef(file, k) < c then 1 else 0
  {
    if c > 0 {
      TotalStep(file, k, c - 1);
    }
  }

  lemma {:induction false} NothingServedYet(file: seq<char>, c: nat)
    requires c <= 6
    ensures Total(file, 0, c) == 0
  {
    if c > 0 {
      NothingServedYet(file, c - 1);
    }
  }

  lemma {:induction false} ChefsServeEveryChunk(file: seq<char>, k: nat)
    requires AllGood(file, k)
    ensures Total(file, k, 6) == k
  {
    if k > 0 {
      ChefsServeEveryChunk(file, k - 1);
      TotalStep(file, k - 1, 6);
    } else {
      assert forall c: nat :: c <= 6 ==> Total(file, 0, c) == 0 by {
        forall c: nat | c <= 6
          ensures Total(file, 0, c) == 0
        {
          NothingServedYet(file, c);
        }
      }
    }
  }

  function Sum6(n: seq<nat>): nat
    requires |n| == 6
  {
    n[0] + n[1] + n[2] + n[3] + n[4] + n[5]
  }

  /** The total the wholesaler prints: an exit status carries a count modulo 256 only. */
  function Printed(n: seq<nat>): nat
    requires |n| == 6
  {
    n[0] % 256 + n[1] % 256 + n[2] % 256 + n[3] % 256 + n[4] % 256 + n[5] % 256
  }

  /** The printed total is right exactly when every chef served fewer than 256 times. */
  lemma PrintedIsRight(n: seq<nat>)
    requires |n| == 6
    ensures Printed(n) == Sum6(n) <==> forall c :: 0 <= c < 6 ==> n[c] < 256
  {
    assert forall c :: 0 <= c < 6 ==> n[c] % 256 <= n[c] && (n[c] % 256 == n[c] <==> n[c] < 256);
  }

  lemma UnfoldTotal(file: seq<char>, k: nat)
    ensures Total(file, k, 6) == ServedBefore(file, k, 0) + ServedBefore(file, k, 1) + ServedBefore(file, k, 2)
                               + ServedBefore(file, k, 3) + ServedBefore(file, k, 4) + ServedBefore(file, k, 5)
  {
    assert Total(file, k, 6) == Total(file, k, 5) + ServedBefore(file, k, 5);
    assert Total(file, k, 5) == Total(file, k, 4) + ServedBefore(file, k, 4);
    assert Total(file, k, 4) == Total(file, k, 3) + ServedBefore(file, k, 3);
    assert Total(file, k, 3) == Total(file, k, 2) + ServedBefore(file, k, 2);
    assert Total(file, k, 2) == Total(file, k, 1) + ServedBefore(file, k, 1);
    assert Total(file, k, 1) == Total(file, k, 0) + ServedBefore(file, k, 0);
  }

  /**
   Whenever the wholesaler has seen the end of the file, every chunk was a pair of different
   ingredients, every chef has served exactly the pairs it was waiting for, the counts add up to the
   number of chunks, the printed total is that number exactly when no chef served 256 times or more,
   and the chefs took the ingredients in the order of the file.
   */
  lemma EndMeansEverythingServed(file: seq<char>, schedule: seq<Process>)
    requires Run(file, Init(), schedule).Some? && Run(file, Init(), schedule).value.w == AtEnd
    ensures var s := Run(file, Init(), schedule).value;
      && AllGood(file, NumChunks(file)) && s.rounds == NumChunks(file)
      && (forall c: nat :: c < 6 ==> s.served[c] == ServedBefore(file, NumChunks(file), c))
      && Sum6(s.served) == NumChunks(file)
      && (Printed(s.served) == NumChunks(file) <==> forall c :: 0 <= c < 6 ==> s.served[c] < 256)
      && s.log == LogBefore(file, NumChunks(file))
  {
    var ph := RunKeepsInvariant(file, schedule);
    assert ph == Home by {
      match ph
      case Home =>
      case Fresh =>
      case Half(a) =>
      case Full(a, b) =>
      case Cooking(c) =>
      case Doomed(x) =>
    }
    var n := NumChunks(file);
    ChefsServeEveryChunk(file, n);
    UnfoldTotal(file, n);
    PrintedIsRight(Run(file, Init(), schedule).value.served);
  }

  /** On a well-formed file no schedule gets stuck before the end. */
  lemma NoDeadlock(file: seq<char>, schedule: seq<Process>)
    requires AllGood(file, NumChunks(file))
    requires Run(file, Init(), schedule).Some? && Stuck(file, Run(file, Init(), schedule).value)
    ensures Run(file, Init(), schedule).value.w == AtEnd
  {
    var ph := RunKeepsInvariant(file, schedule);
    StuckIsEndOrDoomed(file, Run(file, Init(), schedule).value, ph);
  }

  /** Letting processes move as long as any can leads to a stuck state. */
  lemma {:induction false} RunToTheEnd(file: seq<char>, schedule: seq<Process>) returns (longer: seq<Process>)
    requires Run(file, Init(), schedule).Some?
    ensures schedule <= longer
    ensures Run(file, Init(), longer).Some? && Stuck(file, Run(file, Init(), longer).value)
    decreases Work(file, Run(file, Init(), schedule).value)
  {
    var s := Run(file, Init(), schedule).value;
    if Stuck(file, s) {
      longer := schedule;
    } else {
      var p :| Step(file, s, p).Some?;
      var next := schedule + [p];
      assert next[..|next| - 1] == schedule;
      StepDecreasesWork(file, s, p);
      longer := RunToTheEnd(file, next);
    }
  }

  ghost predicate CanEnd(file: seq<char>) {
    exists schedule :: Run(file, Init(), schedule).Some? && Run(file, Init(), schedule).value.w == AtEnd
  }

  /** The wholesaler can reach the end of the file exactly when every chunk is a pair of different ingredients. */
  lemma EndsIffWellFormed(file: seq<char>)
    ensures CanEnd(file) <==> AllGood(file, NumChunks(file))
  {
    if CanEnd(file) {
      var schedule :| Run(file, Init(), schedule).Some? && Run(file, Init(), schedule).value.w == AtEnd;
      EndMeansEverythingServed(file, schedule);
    }
    if AllGood(file, NumChunks(file)) {
      assert Run(file, Init(), []).Some?;
      var schedule := RunToTheEnd(file, []);
      NoDeadlock(file, schedule);
    }
  }

  // ---------- files that show it ----------

  /** One chunk that names the same ingredient twice: some run gets stuck, and none reaches the end. */
  lemma TwiceTheSameHangs() returns (schedule: seq<Process>)
    ensures !CanEnd("FF\n")
    ensures Run("FF\n", Init(), schedule).Some?
    ensures var s := Run("FF\n", Init(), schedule).value; Stuck("FF\n", s) && s.w != AtEnd
  {
    var file := "FF\n";
    assert !GoodChunk(file, 0) && NumChunks(file) == 1;
    EndsIffWellFormed(file);
    assert Run(file, Init(), []).Some?;
    schedule := RunToTheEnd(file, []);
  }

  function EqualPairs(n: nat): (file: seq<char>)
    ensures |file| == 3 * n
  {
    if n == 0 then [] else EqualPairs(n - 1) + ['F', 'W', '\n']
  }

  lemma {:induction false} PairAt(n: nat, k: nat)
    requires k < n
    ensures EqualPairs(n)[3 * k] == 'F' && EqualPairs(n)[3 * k + 1] == 'W'
  {
    if k < n - 1 {
      PairAt(n - 1, k);
    }
  }

  lemma PairChunk(n: nat, k: nat)
    requires k < n
    ensures GoodChunk(EqualPairs(n), k) && ChunkChef(EqualPairs(n), k) == 1
  {
    PairAt(n, k);
  }

  lemma {:induction false} OneChefServesAll(n: nat, k: nat, c: nat)
    requires k <= n
    ensures ServedBefore(EqualPairs(n), k, c) == if c == 1 then k else 0
  {
    if k > 0 {
      OneChefServesAll(n, k - 1, c);
      PairChunk(n, k - 1);
    }
  }

  lemma EqualPairsAreGood(n: nat)
    ensures NumChunks(EqualPairs(n)) == n && AllGood(EqualPairs(n), n)
  {
    forall k: nat | k < n
      ensures GoodChunk(EqualPairs(n), k)
    {
      PairChunk(n, k);
    }
  }

  lemma OneCountPrints(served: seq<nat>, n: nat)
    requires |served| == 6 && forall c: nat :: c < 6 ==> served[c] == if c == 1 then n else 0
    ensures Sum6(served) == n && Printed(served) == n % 256
  {
  }

  /** After n equal pairs, all served by one chef, the wholesaler prints the remainder modulo 256: of 256, 0. */
  lemma EqualPairsPrintRemainder(n: nat) returns (schedule: seq<Process>)
    ensures Run(EqualPairs(n), Init(), schedule).Some?
    ensures var s := Run(EqualPairs(n), Init(), schedule).value;
      s.w == AtEnd && Sum6(s.served) == n && Printed(s.served) == n % 256
  {
    var file := EqualPairs(n);
    EqualPairsAreGood(n);
    assert Run(file, Init(), []).Some?;
    schedule := RunToTheEnd(file, []);
    NoDeadlock(file, schedule);
    EndMeansEverythingServed(file, schedule);
    var served := Run(file, Init(), schedule).value.served;
    forall c: nat | c < 6
      ensures served[c] == if c == 1 then n else 0
    {
      OneChefServesAll(n, n, c);
    }
    OneCountPrints(served, n);
  }

  /** A file on which the printed total is wrong. */
  lemma PrintsZeroFor256() returns (file: seq<char>, schedule: seq<Process>)
    ensures Run(file, Init(), schedule).Some? && NumChunks(file) == 256
    ensures var s := Run(file, Init(), schedule).value;
      s.w == AtEnd && Sum6(s.served) == 256 && Printed(s.served) == 0
  {
    var n: nat := 256;
    file := EqualPairs(n);
    schedule := EqualPairsPrintRemainder(n);
  }

  // ---------- which letters wake which chef ----------

  /** The initial of one of the two ingredients that the program passes to chef c. */
  predicate LetterOf(c: nat, x: char) {
    match c
    case 0 => x == 'W' || x == 'S'
    case 1 => x == 'W' || x == 'F'
    case 2 => x == 'S' || x == 'F'
    case 3 => x == 'M' || x == 'F'
    case 4 => x == 'M' || x == 'W'
    case 5 => x == 'S' || x == 'M'
    case _ => false
  }

  /** Chunk k of the file begins with the two letters of chef c. */
  predicate PairFor(file: seq<char>, k: nat, c: nat) {
    3 * k + 2 <= |file| && LetterOf(c, file[3 * k]) && LetterOf(c, file[3 * k + 1]) && file[3 * k] != file[3 * k + 1]
  }

  /** A chunk is good and for chef c exactly if it begins with the letters of c. */
  lemma PairForIff(file: seq<char>, k: nat, c: nat)
    requires c < 6
    ensures PairFor(file, k, c) <==> GoodChunk(file, k) && ChunkChef(file, k) == c
  {
    assert ChunkLength(file, k) >= 2 <==> 3 * k + 2 <= |file|;
    if GoodChunk(file, k) {
      var a, b := file[3 * k], file[3 * k + 1];
      assert (a == 'F' || a == 'W' || a == 'S' || a == 'M') && (b == 'F' || b == 'W' || b == 'S' || b == 'M');
    }
  }

  /** In every reachable state in which a chef is woken or at work, the chunk just read is its pair of letters. */
  lemma WokenByItsLetters(file: seq<char>, schedule: seq<Process>, c: nat)
    requires Run(file, Init(), schedule).Some? && c < 6 && ChefBusy(Run(file, Init(), schedule).value, c)
    ensures var s := Run(file, Init(), schedule).value; s.rounds > 0 && PairFor(file, s.rounds - 1, c)
  {
    var ph := RunKeepsInvariant(file, schedule);
    var s := Run(file, Init(), schedule).value;
    BusyMeansCooking(file, s, ph, c);
    CookingAlone(file, s, c);
    PairForIff(file, s.rounds - 1, c);
  }

  /** How many of the first k chunks begin with the letters of chef c. */
  function PairsFor(file: seq<char>, k: nat, c: nat): nat {
    if k == 0 then 0 else PairsFor(file, k - 1, c) + if PairFor(file, k - 1, c) then 1 else 0
  }

  lemma {:induction false} ServedIsPairs(file: seq<char>, k: nat, c: nat)
    requires c < 6
    ensures ServedBefore(file, k, c) == PairsFor(file, k, c)
  {
    if k > 0 {
      ServedIsPairs(file, k - 1, c);
      PairForIff(file, k - 1, c);
    }
  }

  /** Every letter taken is one of the chef that took it. */
  predicate OwnLetters(log: seq<Taken>) {
    forall t :: t in log ==> LetterOf(t.chef, t.ingredient)
  }

  lemma RoundIsOwn(file: seq<char>, k: nat)
    ensures OwnLetters(Round(file, k))
  {
    if GoodChunk(file, k) {
      PairForIff(file, k, ChunkChef(file, k));
    }
  }

  lemma OwnTogether(a: seq<Taken>, b: seq<Taken>)
    requires OwnLetters(a) && OwnLetters(b)
    ensures OwnLetters(a + b)
  {
  }

  lemma OwnStep(file: seq<char>, k: nat, before: seq<Taken>, round: seq<Taken>)
    requires before == LogBefore(file, k) && OwnLetters(before) && round == Round(file, k) && OwnLetters(round)
    ensures OwnLetters(LogBefore(file, k + 1))
  {
    OwnTogether(before, round);
    assert LogBefore(file, k + 1) == before + round;
  }

  lemma {:induction false} LogIsOwn(file: seq<char>, k: nat)
    ensures OwnLetters(LogBefore(file, k))
  {
    if k > 0 {
      LogIsOwn(file, k - 1);
      RoundIsOwn(file, k - 1);
      OwnStep(file, k - 1, LogBefore(file, k - 1), Round(file, k - 1));
    }
  }

  /** The counts are those of the first k chunks, of which the last read is at most one more. */
  ghost predicate CountsPairs(file: seq<char>, s: State, k: nat)
    requires Shape(s)
  {
    k <= s.rounds <= k + 1 && forall c: nat :: c < 6 ==> s.served[c] == PairsFor(file, k, c)
  }

  lemma LogGrows(file: seq<char>, k: nat)
    ensures LogBefore(file, k) <= LogBefore(file, k + 1)
  {
  }

  lemma CookingBooks(file: seq<char>, s: State, c: nat, k: nat)
    requires Shape(s) && c < 6 && GoodChunk(file, k) && ChunkChef(file, k) == c && ChefStage(file, s, c, k)
    ensures s.log <= LogBefore(file, k + 1)
    ensures ServedIs(file, s, k + 1) || ServedIs(file, s, k)
  {
    assert LogBefore(file, k + 1) == LogBefore(file, k) + Round(file, k);
    match s.chef[c]
    case Pop(i) =>
    case Resting =>
    case Count =>
    case Deliver =>
  }

  lemma StartedBooks(file: seq<char>, s: State)
    requires Shape(s) && Started(file, s)
    ensures s.log <= LogBefore(file, s.rounds) && s.rounds > 0 && ServedIs(file, s, s.rounds - 1)
  {
    LogGrows(file, s.rounds - 1);
  }

  lemma DeliveryStarted(file: seq<char>, s: State, ph: Phase)
    requires Inv(file, s, ph) && (ph.Fresh? || ph.Half? || ph.Full?)
    ensures Started(file, s)
  {
  }

  lemma HomeBooks(file: seq<char>, s: State)
    requires Shape(s) && AtHome(file, s)
    ensures s.log <= LogBefore(file, s.rounds) && ServedIs(file, s, s.rounds)
  {
  }

  lemma CookingInPhase(file: seq<char>, s: State, c: nat)
    requires Inv(file, s, Cooking(c))
    ensures c < 6 && s.rounds > 0 && GoodChunk(file, s.rounds - 1) && ChunkChef(file, s.rounds - 1) == c
    ensures ChefStage(file, s, c, s.rounds - 1)
  {
  }

  /** What every phase but the last says about the log and the counts. */
  lemma BooksInPhase(file: seq<char>, s: State, ph: Phase)
    requires Inv(file, s, ph) && !ph.Doomed?
    ensures s.log <= LogBefore(file, s.rounds)
    ensures ServedIs(file, s, s.rounds) || (s.rounds > 0 && ServedIs(file, s, s.rounds - 1))
  {
    if ph.Cooking? {
      CookingInPhase(file, s, ph.c);
      CookingBooks(file, s, ph.c, s.rounds - 1);
    } else if !ph.Home? {
      DeliveryStarted(file, s, ph);
      StartedBooks(file, s);
    } else {
      HomeBooks(file, s);
    }
  }

  lemma ServedCounts(file: seq<char>, s: State, k: nat)
    requires Shape(s) && ServedIs(file, s, k) && k <= s.rounds <= k + 1
    ensures CountsPairs(file, s, k)
  {
    forall c: nat | c < 6
      ensures s.served[c] == PairsFor(file, k, c)
    {
      ServedIsPairs(file, k, c);
    }
  }

  lemma BooksAreOwn(file: seq<char>, s: State, ph: Phase) returns (k: nat)
    requires Inv(file, s, ph) && !ph.Doomed?
    ensures OwnLetters(s.log) && CountsPairs(file, s, k)
  {
    BooksInPhase(file, s, ph);
    LogIsOwn(file, s.rounds);
    k := if ServedIs(file, s, s.rounds) then s.rounds else s.rounds - 1;
    ServedCounts(file, s, k);
  }

  /** On the way into and in the last phase nobody takes or counts, and at most one more chunk is read. */
  lemma DoomedKeepsBooks(file: seq<char>, s: State, p: Process, t: State, x: nat)
    requires Shape(s) && Step(file, s, p).Some? && Step(file, s, p).value == t && IsDoomed(file, t, x)
    ensures t.log == s.log && t.served == s.served
    ensures t.rounds == s.rounds || (s.w == AtRead && t.rounds == s.rounds + 1)
  {
    match p
    case Wholesaler =>
    case Pusher(i) =>
    case Chef(c) => assert t.chef[c] == Resting;
  }

  lemma ReadsAtHome(file: seq<char>, s: State, ph: Phase)
    requires Inv(file, s, ph) && s.w == AtRead
    ensures ServedIs(file, s, s.rounds)
  {
    match ph
    case Home =>
    case Fresh => assert false;
    case Half(a) => assert false;
    case Full(a, b) => assert false;
    case Cooking(c) => assert false;
    case Doomed(z) => assert false;
  }

  /**
   In every reachable state each letter taken is one of the chef that took it, and each chef has counted the
   chunks with its two letters, up to the last one read or the one before.
   */
  lemma {:induction false} ServesItsLetters(file: seq<char>, schedule: seq<Process>) returns (k: nat)
    requires Run(file, Init(), schedule).Some?
    ensures OwnLetters(Run(file, Init(), schedule).value.log) && CountsPairs(file, Run(file, Init(), schedule).value, k)
    decreases |schedule|
  {
    var t := Run(file, Init(), schedule).value;
    var ph := RunKeepsInvariant(file, schedule);
    if !ph.Doomed? {
      k := BooksAreOwn(file, t, ph);
    } else if schedule == [] {
      assert false;
    } else {
      var last := |schedule| - 1;
      var s := Run(file, Init(), schedule[..last]).value;
      k := ServesItsLetters(file, schedule[..last]);
      var before := RunKeepsInvariant(file, schedule[..last]);
      DoomedKeepsBooks(file, s, schedule[last], t, ph.x);
      if s.w == AtRead {
        ReadsAtHome(file, s, before);
        ServedCounts(file, s, s.rounds);
        k := s.rounds;
      }
    }
  }

  ghost predicate ForSomeChef(file: seq<char>, k: nat) {
    exists c: nat :: c < 6 && PairFor(file, k, c)
  }

  /** At the end of the file each chef has counted all the chunks with its letters, and these are all there are. */
  lemma EndCountsLetters(file: seq<char>, schedule: seq<Process>)
    requires Run(file, Init(), schedule).Some? && Run(file, Init(), schedule).value.w == AtEnd
    ensures var s := Run(file, Init(), schedule).value;
      forall c: nat :: c < 6 ==> s.served[c] == PairsFor(file, NumChunks(file), c)
    ensures forall k: nat :: k < NumChunks(file) ==> ForSomeChef(file, k)
  {
    EndMeansEverythingServed(file, schedule);
    var n := NumChunks(file);
    forall c: nat | c < 6
      ensures ServedBefore(file, n, c) == PairsFor(file, n, c)
    {
      ServedIsPairs(file, n, c);
    }
    forall k: nat | k < n
      ensures ForSomeChef(file, k)
    {
      PairForIff(file, k, ChunkChef(file, k));
    }
  }
}
