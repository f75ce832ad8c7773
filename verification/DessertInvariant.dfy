/**
 Where the baton of the dessert protocol can be, and the invariant that every step of every process
 keeps, whatever the input file holds.
 */
module DessertInvariant {
  import opened Common
  import opened DessertProtocol

  // ---------- what a file asks for ----------

  function ChefFor(a: nat, b: nat): (c: nat)
    requires a < 4 && b < 4 && a != b
    ensures c < 6 && Lacks(c) == {a, b}
  {
    [[0, 1, 2, 3], [1, 0, 0, 4], [2, 0, 0, 5], [3, 4, 5, 0]][a][b]
  }

  lemma PusherTables(p: nat, k: nat)
    requires p < 4 && k < 3
    ensures FlagOf(p, k) != p && ChefOf(p, k) == ChefFor(p, FlagOf(p, k)) == ChefFor(FlagOf(p, k), p)
  {
  }

  lemma EveryOtherFlag(p: nat, y: nat)
    requires p < 4 && y < 4 && y != p
    ensures y == FlagOf(p, 0) || y == FlagOf(p, 1) || y == FlagOf(p, 2)
  {
  }

  /** No two chefs are without the same two ingredients. */
  lemma LacksIsInjective(c: nat, d: nat)
    requires c < 6 && d < 6 && Lacks(c) == Lacks(d)
    ensures c == d
  {
    assert forall i: nat :: i < 4 ==> (i in Lacks(c) <==> i in Lacks(d));
  }

  /** A delivery that wakes a chef: two bytes naming two different ingredients. */
  predicate GoodChunk(file: seq<char>, k: nat) {
    && ChunkLength(file, k) >= 2
    && Ingredient(file[3 * k]).Some?
    && Ingredient(file[3 * k + 1]).Some?
    && Ingredient(file[3 * k]) != Ingredient(file[3 * k + 1])
  }

  predicate AllGood(file: seq<char>, k: nat) {
    forall j: nat :: j < k ==> GoodChunk(file, j)
  }

  function First(file: seq<char>, k: nat): nat
    requires GoodChunk(file, k)
  {
    Ingredient(file[3 * k]).value
  }

  function Second(file: seq<char>, k: nat): nat
    requires GoodChunk(file, k)
  {
    Ingredient(file[3 * k + 1]).value
  }

  function ChunkChef(file: seq<char>, k: nat): (c: nat)
    requires GoodChunk(file, k)
    ensures c < 6
  {
    ChefFor(First(file, k), Second(file, k))
  }

  /** How many of the first k chunks are for chef c. */
  function ServedBefore(file: seq<char>, k: nat, c: nat): nat {
    if k == 0 then 0
    else ServedBefore(file, k - 1, c) + if GoodChunk(file, k - 1) && ChunkChef(file, k - 1) == c then 1 else 0
  }

  /** The byte behind the pair after k chunks: a short last chunk leaves that of the chunk before. */
  function Third(file: seq<char>, k: nat): char {
    if k == 0 then '\0' else if ChunkLength(file, k - 1) == 3 then file[3 * k - 1] else Third(file, k - 1)
  }

  /** What the chef of chunk k takes: the second ingredient only when a byte follows it. */
  function Round(file: seq<char>, k: nat): seq<Taken> {
    if !GoodChunk(file, k) then []
    else
      var c := ChunkChef(file, k);
      [Taken(c, file[3 * k])] + if Third(file, k + 1) == '\0' then [] else [Taken(c, file[3 * k + 1])]
  }

  function LogBefore(file: seq<char>, k: nat): seq<Taken> {
    if k == 0 then [] else LogBefore(file, k - 1) + Round(file, k - 1)
  }

  // ---------- the mutex ----------

  predicate InCritical(pc: PusherPc) {
    pc.Test? || pc.Clear? || pc.Wake? || pc.Raise? || pc.Unlock?
  }

  /** At most one pusher is between its lock and its unlock, and then the mutex is taken. */
  ghost predicate Mutex(s: State)
    requires Shape(s)
  {
    && (forall p: nat, q: nat :: p < 4 && q < 4 && InCritical(s.pusher[p]) && InCritical(s.pusher[q]) ==> p == q)
    && s.sem[7] <= 1
    && (s.sem[7] == 1 <==> forall p: nat :: p < 4 ==> !InCritical(s.pusher[p]))
  }

  /** What a pusher in its critical section knows about the flags. */
  ghost predicate Knows(s: State, p: nat)
    requires Shape(s) && p < 4
  {
    match s.pusher[p]
    case Test(k) => k < 3 && (k > 0 ==> !s.flag[FlagOf(p, 0)]) && (k > 1 ==> !s.flag[FlagOf(p, 1)])
    case Clear(k) => k < 3 && s.flag[FlagOf(p, k)]
    case Wake(k) => k < 3
    case Raise => !s.flag[FlagOf(p, 0)] && !s.flag[FlagOf(p, 1)] && !s.flag[FlagOf(p, 2)]
    case _ => true
  }

  ghost predicate AllKnow(s: State)
    requires Shape(s)
  {
    forall p: nat {:trigger Knows(s, p)} {:trigger s.pusher[p]} :: p < 4 ==> Knows(s, p)
  }

  lemma SameCore(s: State, t: State)
    requires Shape(s) && Shape(t) && Mutex(s) && AllKnow(s)
    requires t.pusher == s.pusher && t.flag == s.flag && t.sem[7] == s.sem[7]
    ensures Mutex(t) && AllKnow(t)
  {
    forall p: nat | p < 4
      ensures Knows(t, p)
    {
      assert Knows(s, p);
    }
  }

  // ---------- where the baton is ----------

  /** Deliveries of ingredient x that have not yet raised a flag or woken a chef. */
  function Live(s: State, x: nat): nat
    requires Shape(s) && x < 4
  {
    s.sem[8 + x] + if s.pusher[x].Idle? || s.pusher[x].Unlock? then 0 else 1
  }

  ghost predicate NoFlags(s: State)
    requires Shape(s)
  {
    forall y: nat :: y < 4 ==> !s.flag[y]
  }

  ghost predicate OnlyFlag(s: State, a: nat)
    requires Shape(s)
  {
    forall y: nat :: y < 4 ==> (s.flag[y] <==> y == a)
  }

  ghost predicate NoWakes(s: State)
    requires Shape(s)
  {
    forall x: nat :: x < 4 ==> !s.pusher[x].Wake?
  }

  ghost predicate ChefsRest(s: State, except: set<nat>)
    requires Shape(s)
  {
    forall c: nat :: c < 6 && c !in except ==> s.sem[c] == 0 && s.chef[c] == Resting
  }

  /** Nothing of any ingredient outside xs is under way. */
  ghost predicate NoneLive(s: State, xs: set<nat>)
    requires Shape(s)
  {
    forall x: nat :: x < 4 && x !in xs ==> Live(s, x) == 0
  }

  ghost predicate ServedIs(file: seq<char>, s: State, k: nat)
    requires Shape(s)
  {
    forall c: nat :: c < 6 ==> s.served[c] == ServedBefore(file, k, c)
  }

  /** Chunk k lies in the buffer. */
  ghost predicate Loaded(file: seq<char>, s: State, k: nat)
    requires Shape(s)
  {
    && ChunkLength(file, k) >= 2
    && s.buf[0] == file[3 * k] && s.buf[1] == file[3 * k + 1]
  }

  datatype Phase =
    | Home
    | Fresh
    | Half(a: nat)
    | Full(a: nat, b: nat)
    | Cooking(c: nat)
    | Doomed(x: nat)

  /** The bookkeeping that all phases share: the chunks before k are good and served. */
  ghost predicate Books(file: seq<char>, s: State, k: nat)
    requires Shape(s)
  {
    && AllGood(file, k) && k <= NumChunks(file)
    && s.buf[2] == Third(file, s.rounds)
  }

  ghost predicate Waiting(s: State)
    requires Shape(s)
  {
    s.w == AtWait && s.sem[6] == 0
  }

  ghost predicate AtHome(file: seq<char>, s: State)
    requires Shape(s)
  {
    && ((s.w == AtWait && s.sem[6] == 1) || ((s.w == AtRead || s.w == AtEnd) && s.sem[6] == 0))
    && (s.w == AtEnd ==> s.rounds == NumChunks(file))
    && ChefsRest(s, {}) && NoFlags(s) && NoneLive(s, {})
    && Books(file, s, s.rounds) && ServedIs(file, s, s.rounds) && s.log == LogBefore(file, s.rounds)
  }

  /** A chunk has been read; deliveries follow. */
  ghost predicate Started(file: seq<char>, s: State)
    requires Shape(s)
  {
    && s.rounds > 0 && s.sem[6] == 0 && Books(file, s, s.rounds - 1) && Loaded(file, s, s.rounds - 1)
    && ServedIs(file, s, s.rounds - 1) && s.log == LogBefore(file, s.rounds - 1)
  }

  ghost predicate InHalf(file: seq<char>, s: State, a: nat)
    requires Shape(s)
  {
    && s.w == AtSecond && Started(file, s) && ChefsRest(s, {})
    && Ingredient(s.buf[0]) == Some(a)
    && NoneLive(s, {a}) && NoWakes(s)
    && ((Live(s, a) == 1 && NoFlags(s)) || (Live(s, a) == 0 && OnlyFlag(s, a)))
  }

  /** Pusher x has taken down the flag of y and is about to wake the chef of the pair. */
  ghost predicate Waking(s: State, x: nat, y: nat)
    requires Shape(s) && x < 4 && y < 4
  {
    && s.pusher[x].Wake? && s.pusher[x].k < 3 && FlagOf(x, s.pusher[x].k) == y
    && Live(s, x) == 1 && Live(s, y) == 0 && NoFlags(s)
    && forall z: nat :: z < 4 && z != x ==> !s.pusher[z].Wake?
  }

  ghost predicate FullBooks(file: seq<char>, s: State, a: nat, b: nat)
    requires Shape(s)
  {
    && Waiting(s) && Started(file, s) && ChefsRest(s, {})
    && Ingredient(s.buf[0]) == Some(a) && Ingredient(s.buf[1]) == Some(b)
  }

  /** The two deliveries: both under way, one flag raised and the other under way, or one about to wake a chef. */
  ghost predicate FullControl(s: State, a: nat, b: nat)
    requires Shape(s) && a < 4 && b < 4
  {
    && a != b && NoneLive(s, {a, b})
    && (|| (NoWakes(s) && NoFlags(s) && Live(s, a) == 1 && Live(s, b) == 1)
        || (NoWakes(s) && OnlyFlag(s, a) && Live(s, a) == 0 && Live(s, b) == 1)
        || (NoWakes(s) && OnlyFlag(s, b) && Live(s, b) == 0 && Live(s, a) == 1)
        || Waking(s, a, b)
        || Waking(s, b, a))
  }

  ghost predicate InFull(file: seq<char>, s: State, a: nat, b: nat)
    requires Shape(s)
  {
    a < 4 && b < 4 && FullBooks(file, s, a, b) && FullControl(s, a, b)
  }

  /** What is left to do for the chef of the current chunk. */
  ghost predicate ChefStage(file: seq<char>, s: State, c: nat, k: nat)
    requires Shape(s) && c < 6 && GoodChunk(file, k)
  {
    match s.chef[c]
    case Resting => s.sem[c] == 1 && Loaded(file, s, k) && ServedIs(file, s, k) && s.log == LogBefore(file, k)
    case Pop(i) =>
      && s.sem[c] == 0 && i <= 2 && ServedIs(file, s, k)
      && (i == 0 ==> Loaded(file, s, k) && s.log == LogBefore(file, k))
      && (i == 1 ==> s.buf[1] == file[3 * k + 1] && s.log == LogBefore(file, k) + [Taken(c, file[3 * k])])
      && (i == 2 ==> s.log == LogBefore(file, k + 1))
    case Count => s.sem[c] == 0 && ServedIs(file, s, k) && s.log == LogBefore(file, k + 1)
    case Deliver => s.sem[c] == 0 && ServedIs(file, s, k + 1) && s.log == LogBefore(file, k + 1)
  }

  ghost predicate InCooking(file: seq<char>, s: State, c: nat)
    requires Shape(s)
  {
    && Waiting(s) && c < 6 && s.rounds > 0 && Books(file, s, s.rounds)
    && ChefsRest(s, {c}) && NoFlags(s) && NoneLive(s, {})
    && ChunkChef(file, s.rounds - 1) == c
    && ChefStage(file, s, c, s.rounds - 1)
  }

  /** A chunk that is no pair of different ingredients has stopped the protocol for good. */
  ghost predicate IsDoomed(file: seq<char>, s: State, x: nat)
    requires Shape(s)
  {
    && (s.w == Crashed || s.w == AtWait) && s.sem[6] == 0
    && ChefsRest(s, {}) && NoneLive(s, {x}) && NoWakes(s)
    && (forall y: nat :: y < 4 && y != x ==> !s.flag[y])
    && exists j: nat :: j < NumChunks(file) && !GoodChunk(file, j)
  }

  ghost predicate InPhase(file: seq<char>, s: State, ph: Phase)
    requires Shape(s)
  {
    match ph
    case Home => AtHome(file, s)
    case Fresh => s.w == AtFirst && Started(file, s) && ChefsRest(s, {}) && NoFlags(s) && NoneLive(s, {})
    case Half(a) => a < 4 && InHalf(file, s, a)
    case Full(a, b) => InFull(file, s, a, b)
    case Cooking(c) => InCooking(file, s, c)
    case Doomed(x) => IsDoomed(file, s, x)
  }

  ghost predicate Inv(file: seq<char>, s: State, ph: Phase) {
    && Shape(s) && Mutex(s) && AllKnow(s)
    && (forall i :: 3 <= i < BUFFER_SIZE ==> s.buf[i] == '\0')
    && InPhase(file, s, ph)
  }

  lemma InitControl()
    ensures Mutex(Init()) && AllKnow(Init())
    ensures ChefsRest(Init(), {}) && NoFlags(Init()) && NoneLive(Init(), {})
  {
  }

  lemma InitHolds(file: seq<char>)
    ensures Inv(file, Init(), Home)
  {
    InitControl();
  }

  // ---------- the wholesaler's steps ----------

  lemma NoLiveMeansNoWakes(s: State)
    requires Shape(s) && NoneLive(s, {})
    ensures NoWakes(s)
  {
    forall x: nat | x < 4
      ensures !s.pusher[x].Wake?
    {
      assert Live(s, x) == 0;
    }
  }

  lemma Bytes(file: seq<char>, k: nat)
    ensures ChunkLength(file, k) > 0 <==> k < NumChunks(file)
    ensures GoodChunk(file, k) ==> k < NumChunks(file)
  {
  }

  /** Cell i of the buffer after a read: from the chunk, or as it was. */
  lemma LoadedCell(file: seq<char>, k: nat, buf: seq<char>, i: nat)
    requires i < |buf| == BUFFER_SIZE
    ensures Load(file, k, buf)[i] == if i < ChunkLength(file, k) then file[3 * k + i] else buf[i]
  {
    var n := ChunkLength(file, k);
    if n > 0 && i < n {
      assert file[3 * k..3 * k + n][i] == file[3 * k + i];
    }
  }

  lemma LoadedCells(file: seq<char>, k: nat, buf: seq<char>)
    requires |buf| == BUFFER_SIZE && buf[2] == Third(file, k)
    ensures var r := Load(file, k, buf);
      && (forall i :: 3 <= i < BUFFER_SIZE ==> r[i] == buf[i])
      && (ChunkLength(file, k) > 0 ==> r[2] == Third(file, k + 1))
      && (ChunkLength(file, k) >= 2 ==> r[0] == file[3 * k] && r[1] == file[3 * k + 1])
  {
    LoadedCell(file, k, buf, 0);
    LoadedCell(file, k, buf, 1);
    LoadedCell(file, k, buf, 2);
    forall i: nat | 3 <= i < BUFFER_SIZE
      ensures Load(file, k, buf)[i] == buf[i]
    {
      LoadedCell(file, k, buf, i);
    }
  }

  /** What reading leaves alone. */
  lemma ReadFrame(file: seq<char>, s: State)
    requires Inv(file, s, Home) && s.w == AtRead
    ensures WholesalerStep(file, s).Some?
    ensures var t := WholesalerStep(file, s).value;
      && Mutex(t) && AllKnow(t) && ChefsRest(t, {}) && NoFlags(t) && NoneLive(t, {}) && NoWakes(t)
      && t.sem[6] == 0 && ServedIs(file, t, s.rounds) && t.log == LogBefore(file, s.rounds)
  {
    var t := WholesalerStep(file, s).value;
    SameCore(s, t);
    assert forall x: nat :: x < 4 ==> Live(t, x) == Live(s, x);
    NoLiveMeansNoWakes(t);
  }

  lemma ReadAtEnd(file: seq<char>, s: State)
    requires Inv(file, s, Home) && s.w == AtRead && ChunkLength(file, s.rounds) == 0
    ensures Inv(file, WholesalerStep(file, s).value, Home)
  {
    ReadFrame(file, s);
    Bytes(file, s.rounds);
  }

  lemma ReadShort(file: seq<char>, s: State)
    requires Inv(file, s, Home) && s.w == AtRead && ChunkLength(file, s.rounds) == 1
    ensures Inv(file, WholesalerStep(file, s).value, Doomed(0))
  {
    ReadFrame(file, s);
    Bytes(file, s.rounds);
    LoadedCells(file, s.rounds, s.buf);
    assert !GoodChunk(file, s.rounds);
  }

  lemma FreshAssembles(file: seq<char>, t: State, k: nat)
    requires Shape(t) && Mutex(t) && AllKnow(t) && ChefsRest(t, {}) && NoFlags(t) && NoneLive(t, {})
    requires t.w == AtFirst && t.sem[6] == 0 && t.rounds == k + 1 && Books(file, t, k) && Loaded(file, t, k)
    requires ServedIs(file, t, k) && t.log == LogBefore(file, k)
    requires forall i :: 3 <= i < BUFFER_SIZE ==> t.buf[i] == '\0'
    ensures Inv(file, t, Fresh)
  {
  }

  lemma ReadBooks(file: seq<char>, s: State)
    requires Inv(file, s, Home) && s.w == AtRead && ChunkLength(file, s.rounds) >= 2
    ensures var t := WholesalerStep(file, s).value;
      && t.w == AtFirst && t.rounds == s.rounds + 1 && Books(file, t, s.rounds) && Loaded(file, t, s.rounds)
      && (forall i :: 3 <= i < BUFFER_SIZE ==> t.buf[i] == '\0')
  {
    Bytes(file, s.rounds);
    LoadedCells(file, s.rounds, s.buf);
  }

  lemma ReadChunk(file: seq<char>, s: State)
    requires Inv(file, s, Home) && s.w == AtRead && ChunkLength(file, s.rounds) >= 2
    ensures Inv(file, WholesalerStep(file, s).value, Fresh)
  {
    ReadFrame(file, s);
    ReadBooks(file, s);
    FreshAssembles(file, WholesalerStep(file, s).value, s.rounds);
  }

  lemma ReadKeepsInvariant(file: seq<char>, s: State) returns (ph: Phase)
    requires Inv(file, s, Home) && s.w == AtRead
    ensures Inv(file, WholesalerStep(file, s).value, ph)
  {
    if ChunkLength(file, s.rounds) == 0 {
      ReadAtEnd(file, s);
      ph := Home;
    } else if ChunkLength(file, s.rounds) == 1 {
      ReadShort(file, s);
      ph := Doomed(0);
    } else {
      ReadChunk(file, s);
      ph := Fresh;
    }
  }

  lemma FreshBecomesHalf(s: State, a: nat)
    requires Shape(s) && a < 4 && NoneLive(s, {}) && NoFlags(s)
    ensures var t := Post(s, 8 + a).(w := AtSecond); Live(t, a) == 1 && NoneLive(t, {a}) && NoFlags(t) && NoWakes(t)
  {
    NoLiveMeansNoWakes(s);
    var t := Post(s, 8 + a).(w := AtSecond);
    assert forall x: nat :: x < 4 ==> Live(t, x) == Live(s, x) + if x == a then 1 else 0;
  }

  lemma FirstDooms(file: seq<char>, s: State)
    requires Inv(file, s, Fresh) && Ingredient(s.buf[0]).None?
    ensures Inv(file, WholesalerStep(file, s).value, Doomed(0))
  {
    SameCore(s, WholesalerStep(file, s).value);
    NoLiveMeansNoWakes(s);
    Bytes(file, s.rounds - 1);
    assert !GoodChunk(file, s.rounds - 1);
  }

  lemma FirstDelivers(file: seq<char>, s: State, a: nat)
    requires Inv(file, s, Fresh) && Ingredient(s.buf[0]) == Some(a)
    ensures Inv(file, WholesalerStep(file, s).value, Half(a))
  {
    SameCore(s, WholesalerStep(file, s).value);
    FreshBecomesHalf(s, a);
  }

  lemma FirstKeepsInvariant(file: seq<char>, s: State) returns (ph: Phase)
    requires Inv(file, s, Fresh)
    ensures Inv(file, WholesalerStep(file, s).value, ph)
  {
    if Ingredient(s.buf[0]).None? {
      FirstDooms(file, s);
      ph := Doomed(0);
    } else {
      FirstDelivers(file, s, Ingredient(s.buf[0]).value);
      ph := Half(Ingredient(s.buf[0]).value);
    }
  }

  lemma HalfBecomesFull(s: State, a: nat, b: nat)
    requires Shape(s) && a < 4 && b < 4 && a != b && NoneLive(s, {a}) && NoWakes(s)
    requires (Live(s, a) == 1 && NoFlags(s)) || (Live(s, a) == 0 && OnlyFlag(s, a))
    ensures FullControl(Post(s, 8 + b).(w := AtWait), a, b)
  {
    var t := Post(s, 8 + b).(w := AtWait);
    assert Live(s, b) == 0;
    assert forall x: nat :: x < 4 ==> Live(t, x) == Live(s, x) + if x == b then 1 else 0;
  }

  lemma SecondDooms(file: seq<char>, s: State, a: nat)
    requires Inv(file, s, Half(a)) && (Ingredient(s.buf[1]).None? || Ingredient(s.buf[1]).value == a)
    ensures Inv(file, WholesalerStep(file, s).value, Doomed(a))
  {
    var t := WholesalerStep(file, s).value;
    SameCore(s, t);
    Bytes(file, s.rounds - 1);
    assert !GoodChunk(file, s.rounds - 1);
    assert forall x: nat :: x < 4 && x != a ==> Live(t, x) == Live(s, x);
  }

  lemma SecondDelivers(file: seq<char>, s: State, a: nat, b: nat)
    requires Inv(file, s, Half(a)) && Ingredient(s.buf[1]) == Some(b) && b != a
    ensures Inv(file, WholesalerStep(file, s).value, Full(a, b))
  {
    SameCore(s, WholesalerStep(file, s).value);
    HalfBecomesFull(s, a, b);
  }

  lemma SecondKeepsInvariant(file: seq<char>, s: State, a: nat) returns (ph: Phase)
    requires Inv(file, s, Half(a))
    ensures Inv(file, WholesalerStep(file, s).value, ph)
  {
    var b := Ingredient(s.buf[1]);
    if b.None? || b.value == a {
      SecondDooms(file, s, a);
      ph := Doomed(a);
    } else {
      SecondDelivers(file, s, a, b.value);
      ph := Full(a, b.value);
    }
  }

  lemma WholesalerKeepsInvariant(file: seq<char>, s: State, ph: Phase) returns (ph': Phase)
    requires Inv(file, s, ph) && WholesalerStep(file, s).Some?
    ensures Inv(file, WholesalerStep(file, s).value, ph')
  {
    match ph
    case Home =>
      if s.w == AtWait {
        SameCore(s, WholesalerStep(file, s).value);
        ph' := Home;
      } else {
        ph' := ReadKeepsInvariant(file, s);
      }
    case Fresh => ph' := FirstKeepsInvariant(file, s);
    case Half(a) => ph' := SecondKeepsInvariant(file, s, a);
  }

  // ---------- the pushers' steps ----------

  /** t differs from s at most in the mutex and in pusher positions that leave every delivery where it is. */
  ghost predicate SameDeliveries(s: State, t: State)
    requires Shape(s) && Shape(t)
  {
    && t.flag == s.flag && t.buf == s.buf && t.rounds == s.rounds && t.w == s.w && t.chef == s.chef
    && t.served == s.served && t.log == s.log
    && (forall i: nat :: i < 7 ==> t.sem[i] == s.sem[i])
    && (forall x: nat :: x < 4 ==> Live(t, x) == Live(s, x))
    && (forall x: nat :: x < 4 && (s.pusher[x].Wake? || t.pusher[x].Wake?) ==> t.pusher[x] == s.pusher[x])
  }

  lemma SameControl(s: State, t: State, xs: set<nat>, cs: set<nat>)
    requires Shape(s) && Shape(t) && SameDeliveries(s, t)
    ensures NoneLive(s, xs) ==> NoneLive(t, xs)
    ensures ChefsRest(s, cs) ==> ChefsRest(t, cs)
    ensures NoWakes(s) ==> NoWakes(t)
  {
  }

  lemma SameFull(s: State, t: State, a: nat, b: nat)
    requires Shape(s) && Shape(t) && SameDeliveries(s, t) && a < 4 && b < 4 && FullControl(s, a, b)
    ensures FullControl(t, a, b)
  {
    SameControl(s, t, {a, b}, {});
    assert Waking(s, a, b) ==> Waking(t, a, b);
    assert Waking(s, b, a) ==> Waking(t, b, a);
  }

  lemma SameStage(file: seq<char>, s: State, t: State, c: nat, k: nat)
    requires Shape(s) && Shape(t) && SameDeliveries(s, t) && c < 6 && GoodChunk(file, k) && ChefStage(file, s, c, k)
    ensures ChefStage(file, t, c, k)
  {
    assert ServedIs(file, s, k) ==> ServedIs(file, t, k);
    assert ServedIs(file, s, k + 1) ==> ServedIs(file, t, k + 1);
  }

  lemma SameHome(file: seq<char>, s: State, t: State)
    requires Shape(s) && Shape(t) && SameDeliveries(s, t) && AtHome(file, s)
    ensures AtHome(file, t)
  {
    SameControl(s, t, {}, {});
  }

  lemma SameStarted(file: seq<char>, s: State, t: State)
    requires Shape(s) && Shape(t) && SameDeliveries(s, t) && Started(file, s)
    ensures Started(file, t)
  {
  }

  lemma SameHalf(file: seq<char>, s: State, t: State, a: nat)
    requires Shape(s) && Shape(t) && SameDeliveries(s, t) && a < 4 && InHalf(file, s, a)
    ensures InHalf(file, t, a)
  {
    SameControl(s, t, {a}, {});
    SameStarted(file, s, t);
  }

  lemma SameCooking(file: seq<char>, s: State, t: State, c: nat)
    requires Shape(s) && Shape(t) && SameDeliveries(s, t) && InCooking(file, s, c)
    ensures InCooking(file, t, c)
  {
    SameControl(s, t, {}, {c});
    SameStage(file, s, t, c, s.rounds - 1);
  }

  lemma SameDoomed(file: seq<char>, s: State, t: State, x: nat)
    requires Shape(s) && Shape(t) && SameDeliveries(s, t) && IsDoomed(file, s, x)
    ensures IsDoomed(file, t, x)
  {
    SameControl(s, t, {x}, {});
  }

  lemma SameInFull(file: seq<char>, s: State, t: State, a: nat, b: nat)
    requires Shape(s) && Shape(t) && SameDeliveries(s, t) && InFull(file, s, a, b)
    ensures InFull(file, t, a, b)
  {
    SameFull(s, t, a, b);
    SameStarted(file, s, t);
    SameControl(s, t, {}, {});
  }

  lemma SameFresh(file: seq<char>, s: State, t: State)
    requires Shape(s) && Shape(t) && SameDeliveries(s, t) && InPhase(file, s, Fresh)
    ensures InPhase(file, t, Fresh)
  {
    SameStarted(file, s, t);
    SameControl(s, t, {}, {});
  }

  lemma SamePhase(file: seq<char>, s: State, t: State, ph: Phase)
    requires Shape(s) && Shape(t) && SameDeliveries(s, t) && InPhase(file, s, ph)
    ensures InPhase(file, t, ph)
  {
    match ph
    case Home => SameHome(file, s, t);
    case Fresh => SameFresh(file, s, t);
    case Half(a) => SameHalf(file, s, t, a);
    case Full(a, b) => SameInFull(file, s, t, a, b);
    case Cooking(c) => SameCooking(file, s, t, c);
    case Doomed(x) => SameDoomed(file, s, t, x);
  }

  predicate Neutral(pc: PusherPc) {
    pc.Idle? || pc.Lock? || pc.Test? || pc.Unlock?
  }

  lemma LockKeepsMutex(s: State, p: nat)
    requires Shape(s) && Mutex(s) && p < 4 && s.pusher[p].Lock? && s.sem[7] > 0
    ensures Mutex(PusherStep(s, p).value)
  {
    var t := PusherStep(s, p).value;
    assert InCritical(t.pusher[p]) && forall q: nat :: q < 4 ==> !InCritical(s.pusher[q]);
  }

  lemma UnlockKeepsMutex(s: State, p: nat)
    requires Shape(s) && Mutex(s) && p < 4 && s.pusher[p].Unlock?
    ensures Mutex(PusherStep(s, p).value)
  {
    assert InCritical(s.pusher[p]);
    forall q: nat | q < 4
      ensures !InCritical(PusherStep(s, p).value.pusher[q])
    {
    }
  }

  /** A step that stays inside the critical section, or outside of it. */
  lemma StayKeepsMutex(s: State, t: State, p: nat)
    requires Shape(s) && Shape(t) && Mutex(s) && p < 4 && t.sem[7] == s.sem[7]
    requires InCritical(t.pusher[p]) == InCritical(s.pusher[p])
    requires forall q: nat :: q < 4 && q != p ==> t.pusher[q] == s.pusher[q]
    ensures Mutex(t)
  {
    forall q: nat | q < 4
      ensures InCritical(t.pusher[q]) == InCritical(s.pusher[q])
    {
    }
  }

  lemma NeutralMutex(s: State, p: nat)
    requires Shape(s) && Mutex(s) && p < 4 && Neutral(s.pusher[p]) && PusherStep(s, p).Some?
    ensures Mutex(PusherStep(s, p).value)
  {
    match s.pusher[p]
    case Lock => LockKeepsMutex(s, p);
    case Unlock => UnlockKeepsMutex(s, p);
    case Idle => StayKeepsMutex(s, PusherStep(s, p).value, p);
    case Test(_) => StayKeepsMutex(s, PusherStep(s, p).value, p);
    case _ => assert false;
  }

  lemma NeutralKnows(s: State, p: nat)
    requires Shape(s) && AllKnow(s) && p < 4 && Neutral(s.pusher[p]) && PusherStep(s, p).Some?
    ensures AllKnow(PusherStep(s, p).value)
  {
    var t := PusherStep(s, p).value;
    forall q: nat | q < 4
      ensures Knows(t, q)
    {
      assert Knows(s, q);
    }
  }

  lemma NeutralStep(s: State, p: nat)
    requires Shape(s) && Mutex(s) && AllKnow(s) && p < 4 && Neutral(s.pusher[p]) && PusherStep(s, p).Some?
    ensures var t := PusherStep(s, p).value; SameDeliveries(s, t) && Mutex(t) && AllKnow(t)
  {
    NeutralMutex(s, p);
    NeutralKnows(s, p);
    var t := PusherStep(s, p).value;
    forall x: nat | x < 4
      ensures Live(t, x) == Live(s, x)
    {
    }
  }

  lemma OthersOutside(s: State, p: nat, q: nat)
    requires Shape(s) && Mutex(s) && p < 4 && q < 4 && p != q && InCritical(s.pusher[p])
    ensures !InCritical(s.pusher[q])
  {
  }

  /** A step inside the critical section keeps the mutex; the other pushers know nothing that could change. */
  lemma CriticalStep(s: State, t: State, p: nat)
    requires Shape(s) && Shape(t) && Mutex(s) && AllKnow(s) && p < 4
    requires InCritical(s.pusher[p]) && InCritical(t.pusher[p]) && t.sem[7] == s.sem[7]
    requires forall q: nat :: q < 4 && q != p ==> t.pusher[q] == s.pusher[q]
    requires Knows(t, p)
    ensures Mutex(t) && AllKnow(t)
  {
    forall q: nat | q < 4
      ensures Knows(t, q)
    {
      if q != p {
        OthersOutside(s, p, q);
      }
    }
  }

  lemma ClearInFull(s: State, p: nat, a: nat, b: nat)
    requires Shape(s) && Mutex(s) && AllKnow(s) && a < 4 && b < 4 && FullControl(s, a, b)
    requires p < 4 && s.pusher[p].Clear?
    ensures PusherStep(s, p).Some?
    ensures var t := PusherStep(s, p).value; Mutex(t) && AllKnow(t) && FullControl(t, a, b)
  {
    assert Knows(s, p);
    assert Live(s, p) > 0;
    var t := PusherStep(s, p).value;
    CriticalStep(s, t, p);
    PusherTables(p, s.pusher[p].k);
    assert forall x: nat :: x < 4 ==> Live(t, x) == Live(s, x);
    assert Waking(t, p, if p == a then b else a);
  }

  /** A flag operation leaves the books alone. */
  lemma FlagStepKeepsBooks(file: seq<char>, s: State, p: nat, a: nat, b: nat)
    requires Shape(s) && FullBooks(file, s, a, b)
    requires p < 4 && (s.pusher[p].Clear? || s.pusher[p].Raise?) && PusherStep(s, p).Some?
    ensures FullBooks(file, PusherStep(s, p).value, a, b)
  {
  }

  lemma ClearKeepsInvariant(file: seq<char>, s: State, p: nat, ph: Phase)
    requires Inv(file, s, ph) && p < 4 && s.pusher[p].Clear?
    ensures PusherStep(s, p).Some? && Inv(file, PusherStep(s, p).value, ph)
  {
    assert Knows(s, p);
    assert Live(s, p) > 0;
    PusherTables(p, s.pusher[p].k);
    match ph
    case Full(a, b) =>
      ClearInFull(s, p, a, b);
      FlagStepKeepsBooks(file, s, p, a, b);
    case _ => assert false;
  }

  /** Raising the flag or waking the chef ends the delivery of ingredient p. */
  lemma DeliveryEnds(s: State, p: nat)
    requires Shape(s) && Mutex(s) && AllKnow(s) && p < 4 && (s.pusher[p].Raise? || s.pusher[p].Wake?)
    ensures PusherStep(s, p).Some? && Live(s, p) > 0
    ensures var t := PusherStep(s, p).value;
      && Mutex(t) && AllKnow(t) && forall x: nat :: x < 4 ==> Live(t, x) == Live(s, x) - if x == p then 1 else 0
  {
    assert Knows(s, p);
    CriticalStep(s, PusherStep(s, p).value, p);
  }

  lemma RaiseKeepsRest(file: seq<char>, s: State, p: nat)
    requires Shape(s) && p < 4 && s.pusher[p].Raise? && Started(file, s) && ChefsRest(s, {})
    ensures var t := PusherStep(s, p).value; Started(file, t) && ChefsRest(t, {}) && t.w == s.w && t.buf == s.buf
  {
  }

  lemma RaiseInHalf(file: seq<char>, s: State, p: nat, a: nat)
    requires Inv(file, s, Half(a)) && p < 4 && s.pusher[p].Raise?
    ensures Inv(file, PusherStep(s, p).value, Half(a))
  {
    DeliveryEnds(s, p);
    RaiseKeepsRest(file, s, p);
    assert p == a;
    assert OnlyFlag(PusherStep(s, p).value, a);
  }

  lemma RaiseInFull(s: State, p: nat, a: nat, b: nat)
    requires Shape(s) && Mutex(s) && AllKnow(s) && a < 4 && b < 4 && FullControl(s, a, b)
    requires p < 4 && s.pusher[p].Raise?
    ensures var t := PusherStep(s, p).value; Mutex(t) && AllKnow(t) && FullControl(t, a, b)
  {
    DeliveryEnds(s, p);
    assert Knows(s, p);
    var other := if p == a then b else a;
    EveryOtherFlag(p, other);
    assert !s.flag[other];
    assert OnlyFlag(PusherStep(s, p).value, p);
  }

  lemma RaiseInDoomed(file: seq<char>, s: State, p: nat, x: nat)
    requires Inv(file, s, Doomed(x)) && p < 4 && s.pusher[p].Raise?
    ensures Inv(file, PusherStep(s, p).value, Doomed(x))
  {
    DeliveryEnds(s, p);
    assert p == x;
  }

  lemma RaiseKeepsInvariant(file: seq<char>, s: State, p: nat, ph: Phase)
    requires Inv(file, s, ph) && p < 4 && s.pusher[p].Raise?
    ensures Inv(file, PusherStep(s, p).value, ph)
  {
    assert Live(s, p) > 0;
    match ph
    case Half(a) => RaiseInHalf(file, s, p, a);
    case Full(a, b) =>
      RaiseInFull(s, p, a, b);
      FlagStepKeepsBooks(file, s, p, a, b);
    case Doomed(x) => RaiseInDoomed(file, s, p, x);
    case Home => assert false;
    case Fresh => assert false;
    case Cooking(c) => assert false;
  }

  lemma FullIsGood(file: seq<char>, s: State, a: nat, b: nat)
    requires Shape(s) && a < 4 && b < 4 && a != b && FullBooks(file, s, a, b)
    ensures GoodChunk(file, s.rounds - 1) && First(file, s.rounds - 1) == a && Second(file, s.rounds - 1) == b
    ensures Books(file, s, s.rounds)
  {
    Bytes(file, s.rounds - 1);
  }

  /** Whoever wakes a chef does so for the pair, with no flag up and nothing else under way. */
  lemma WakesForThePair(s: State, p: nat, a: nat, b: nat)
    requires Shape(s) && Mutex(s) && AllKnow(s) && a < 4 && b < 4 && FullControl(s, a, b)
    requires p < 4 && s.pusher[p].Wake?
    ensures s.pusher[p].k < 3 && ChefOf(p, s.pusher[p].k) == ChefFor(a, b)
    ensures var t := PusherStep(s, p).value; Mutex(t) && AllKnow(t) && NoFlags(t) && NoneLive(t, {})
  {
    DeliveryEnds(s, p);
    var y := if p == a then b else a;
    assert Waking(s, p, y);
    PusherTables(p, s.pusher[p].k);
  }

  lemma WakeKeepsBooks(file: seq<char>, s: State, p: nat, a: nat, b: nat)
    requires Shape(s) && a < 4 && b < 4 && a != b && FullBooks(file, s, a, b) && GoodChunk(file, s.rounds - 1)
    requires p < 4 && s.pusher[p].Wake? && s.pusher[p].k < 3 && ChefOf(p, s.pusher[p].k) == ChefFor(a, b)
    ensures var t, c := PusherStep(s, p).value, ChefFor(a, b);
      Waiting(t) && ChefsRest(t, {c}) && ChefStage(file, t, c, s.rounds - 1) && t.rounds == s.rounds && t.buf == s.buf
  {
    var t, c := PusherStep(s, p).value, ChefFor(a, b);
    assert t == PusherGoto(Post(s, c), p, Unlock);
    assert ServedIs(file, t, s.rounds - 1);
  }

  /** All that it takes to be in the phase in which chef c has the baton. */
  lemma CookingAssembles(file: seq<char>, t: State, c: nat, k: nat)
    requires Shape(t) && Mutex(t) && AllKnow(t) && NoFlags(t) && NoneLive(t, {}) && Waiting(t)
    requires c < 6 && ChefsRest(t, {c}) && t.rounds == k + 1 && Books(file, t, k + 1)
    requires GoodChunk(file, k) && ChunkChef(file, k) == c && ChefStage(file, t, c, k)
    requires forall i :: 3 <= i < BUFFER_SIZE ==> t.buf[i] == '\0'
    ensures Inv(file, t, Cooking(c))
  {
  }

  lemma SameBooks(file: seq<char>, s: State, t: State, k: nat)
    requires Shape(s) && Shape(t) && Books(file, s, k) && t.rounds == s.rounds && t.buf[2] == s.buf[2]
    ensures Books(file, t, k)
  {
  }

  /** With the deliveries over, waking the chef of the pair hands it the baton. */
  lemma WakeCooks(file: seq<char>, s: State, p: nat, a: nat, b: nat)
    requires Shape(s) && a < 4 && b < 4 && a != b && FullBooks(file, s, a, b)
    requires forall i :: 3 <= i < BUFFER_SIZE ==> s.buf[i] == '\0'
    requires p < 4 && s.pusher[p].Wake? && s.pusher[p].k < 3 && ChefOf(p, s.pusher[p].k) == ChefFor(a, b)
    requires var t := PusherStep(s, p).value; Mutex(t) && AllKnow(t) && NoFlags(t) && NoneLive(t, {})
    ensures Inv(file, PusherStep(s, p).value, Cooking(ChefFor(a, b)))
  {
    var t := PusherStep(s, p).value;
    FullIsGood(file, s, a, b);
    WakeKeepsBooks(file, s, p, a, b);
    SameBooks(file, s, t, s.rounds);
    CookingAssembles(file, t, ChefFor(a, b), s.rounds - 1);
  }

  lemma WakeInFull(file: seq<char>, s: State, p: nat, a: nat, b: nat)
    requires Inv(file, s, Full(a, b)) && p < 4 && s.pusher[p].Wake?
    ensures PusherStep(s, p).Some? && Inv(file, PusherStep(s, p).value, Cooking(ChefFor(a, b)))
  {
    WakesForThePair(s, p, a, b);
    WakeCooks(file, s, p, a, b);
  }

  lemma WakeKeepsInvariant(file: seq<char>, s: State, p: nat, ph: Phase) returns (ph': Phase)
    requires Inv(file, s, ph) && p < 4 && s.pusher[p].Wake?
    ensures PusherStep(s, p).Some? && Inv(file, PusherStep(s, p).value, ph')
  {
    assert Live(s, p) > 0;
    match ph
    case Full(a, b) =>
      WakeInFull(file, s, p, a, b);
      ph' := Cooking(ChefFor(a, b));
    case Home => assert false;
    case Fresh => assert false;
    case Half(a) => assert false;
    case Cooking(c) => assert false;
    case Doomed(x) => assert false;
  }

  lemma PusherKeepsInvariant(file: seq<char>, s: State, p: nat, ph: Phase) returns (ph': Phase)
    requires Inv(file, s, ph) && p < 4 && PusherStep(s, p).Some?
    ensures Inv(file, PusherStep(s, p).value, ph')
  {
    ph' := ph;
    match s.pusher[p]
    case Clear(_) => ClearKeepsInvariant(file, s, p, ph);
    case Raise => RaiseKeepsInvariant(file, s, p, ph);
    case Wake(_) => ph' := WakeKeepsInvariant(file, s, p, ph);
    case _ =>
      NeutralStep(s, p);
      SamePhase(file, s, PusherStep(s, p).value, ph);
  }

  // ---------- the chefs' steps ----------

  lemma OnlyTheWokenChef(file: seq<char>, s: State, c: nat, ph: Phase)
    requires Inv(file, s, ph) && c < 6 && ChefStep(s, c).Some?
    ensures ph == Cooking(c)
  {
    match ph
    case Cooking(d) =>
    case Home => assert false;
    case Fresh => assert false;
    case Half(a) => assert false;
    case Full(a, b) => assert false;
    case Doomed(x) => assert false;
  }

  lemma BytesAreNotZero(file: seq<char>, k: nat)
    requires GoodChunk(file, k)
    ensures file[3 * k] != '\0' && file[3 * k + 1] != '\0'
  {
  }

  lemma LogExtends(file: seq<char>, k: nat)
    requires GoodChunk(file, k)
    ensures var x, y := Taken(ChunkChef(file, k), file[3 * k]), Taken(ChunkChef(file, k), file[3 * k + 1]);
      && (Third(file, k + 1) == '\0' ==> LogBefore(file, k + 1) == LogBefore(file, k) + [x])
      && (Third(file, k + 1) != '\0' ==> LogBefore(file, k + 1) == LogBefore(file, k) + [x] + [y])
  {
    var x, y := Taken(ChunkChef(file, k), file[3 * k]), Taken(ChunkChef(file, k), file[3 * k + 1]);
    assert LogBefore(file, k) + [x] + [y] == LogBefore(file, k) + ([x] + [y]);
    assert LogBefore(file, k) + [x] == LogBefore(file, k) + ([x] + []);
  }

  lemma PopFirst(file: seq<char>, s: State, c: nat, k: nat)
    requires Shape(s) && c < 6 && GoodChunk(file, k) && ChunkChef(file, k) == c
    requires s.chef[c] == Pop(0) && ChefStage(file, s, c, k)
    ensures var t := ChefStep(s, c).value;
      t.buf == s.buf[0 := '\0'] && ChefStage(file, t, c, k)
  {
    BytesAreNotZero(file, k);
  }

  lemma PopSecond(file: seq<char>, s: State, c: nat, k: nat)
    requires Shape(s) && c < 6 && GoodChunk(file, k) && ChunkChef(file, k) == c
    requires s.chef[c] == Pop(1) && ChefStage(file, s, c, k) && s.buf[2] == Third(file, k + 1)
    ensures var t := ChefStep(s, c).value;
      (t.buf == s.buf || t.buf == s.buf[1 := '\0']) && ChefStage(file, t, c, k)
  {
    var t := ChefStep(s, c).value;
    LogExtends(file, k);
    assert t.log == LogBefore(file, k + 1);
    assert ServedIs(file, t, k);
  }

  /** One pass of the loop that empties the buffer: it stops behind the pair. */
  lemma PopKeepsStage(file: seq<char>, s: State, c: nat, k: nat)
    requires Shape(s) && c < 6 && GoodChunk(file, k) && ChunkChef(file, k) == c && s.chef[c].Pop?
    requires ChefStage(file, s, c, k) && s.buf[2] == Third(file, k + 1)
    requires forall i :: 3 <= i < BUFFER_SIZE ==> s.buf[i] == '\0'
    ensures var t := ChefStep(s, c).value;
      && t.buf[2] == s.buf[2] && (forall i :: 3 <= i < BUFFER_SIZE ==> t.buf[i] == '\0')
      && ChefStage(file, t, c, k)
  {
    if s.chef[c] == Pop(0) {
      PopFirst(file, s, c, k);
    } else if s.chef[c] == Pop(1) {
      PopSecond(file, s, c, k);
    } else {
      var t := ChefStep(s, c).value;
      assert t == ChefGoto(s, c, Count);
      assert ServedIs(file, t, k);
    }
  }

  lemma NoneLiveFrame(s: State, t: State)
    requires Shape(s) && Shape(t) && NoneLive(s, {}) && t.pusher == s.pusher
    requires forall i: nat :: 8 <= i < 12 ==> t.sem[i] == s.sem[i]
    ensures NoneLive(t, {})
  {
    forall x: nat | x < 4
      ensures Live(t, x) == 0
    {
      assert Live(s, x) == 0 && t.sem[8 + x] == s.sem[8 + x];
    }
  }

  lemma ChefsRestFrame(s: State, t: State, c: nat)
    requires Shape(s) && Shape(t) && ChefsRest(s, {c})
    requires forall d: nat :: d < 6 && d != c ==> t.chef[d] == s.chef[d] && t.sem[d] == s.sem[d]
    ensures ChefsRest(t, {c})
  {
  }

  /** A step of chef c moves nothing but its own semaphore, the pair in the buffer, its count and the log. */
  lemma CookingFrame(file: seq<char>, s: State, t: State, c: nat)
    requires Inv(file, s, Cooking(c)) && Shape(t)
    requires t.pusher == s.pusher && t.flag == s.flag && t.rounds == s.rounds && t.w == s.w
    requires forall i: nat :: i < 12 && i != c ==> t.sem[i] == s.sem[i]
    requires forall d: nat :: d < 6 && d != c ==> t.chef[d] == s.chef[d]
    requires t.buf[2] == s.buf[2] && forall i :: 3 <= i < BUFFER_SIZE ==> t.buf[i] == '\0'
    requires ChefStage(file, t, c, s.rounds - 1)
    ensures Inv(file, t, Cooking(c))
  {
    SameCore(s, t);
    SameBooks(file, s, t, s.rounds);
    NoneLiveFrame(s, t);
    ChefsRestFrame(s, t, c);
    CookingAssembles(file, t, c, s.rounds - 1);
  }

  lemma RestOrCountKeepsStage(file: seq<char>, s: State, c: nat, k: nat)
    requires Shape(s) && c < 6 && GoodChunk(file, k) && ChunkChef(file, k) == c
    requires s.chef[c] == Resting || s.chef[c] == Count
    requires ChefStage(file, s, c, k) && ChefStep(s, c).Some?
    ensures ChefStage(file, ChefStep(s, c).value, c, k)
  {
    var t := ChefStep(s, c).value;
    if s.chef[c] == Count {
      assert ServedIs(file, t, k + 1);
    } else {
      assert ServedIs(file, t, k);
    }
  }

  /** The parts of a state that a chef leaves alone. */
  lemma ChefStepTouches(s: State, c: nat)
    requires Shape(s) && c < 6 && ChefStep(s, c).Some? && s.chef[c] != Deliver
    requires s.chef[c].Pop? ==> s.chef[c].i <= 2
    ensures var t := ChefStep(s, c).value;
      && t.pusher == s.pusher && t.flag == s.flag && t.rounds == s.rounds && t.w == s.w
      && (forall i: nat :: i < 12 && i != c ==> t.sem[i] == s.sem[i])
      && (forall d: nat :: d < 6 && d != c ==> t.chef[d] == s.chef[d])
      && (forall i :: 3 <= i < BUFFER_SIZE ==> t.buf[i] == s.buf[i])
      && (!s.chef[c].Pop? ==> t.buf == s.buf)
  {
  }

  lemma ChefCookingStep(file: seq<char>, s: State, c: nat)
    requires Inv(file, s, Cooking(c)) && ChefStep(s, c).Some? && s.chef[c] != Deliver
    ensures Inv(file, ChefStep(s, c).value, Cooking(c))
  {
    var k, t := s.rounds - 1, ChefStep(s, c).value;
    ChefStepTouches(s, c);
    if s.chef[c].Pop? {
      PopKeepsStage(file, s, c, k);
    } else {
      RestOrCountKeepsStage(file, s, c, k);
    }
    CookingFrame(file, s, t, c);
  }

  lemma ChefDeliverStep(file: seq<char>, s: State, c: nat)
    requires Inv(file, s, Cooking(c)) && s.chef[c] == Deliver
    ensures Inv(file, ChefStep(s, c).value, Home)
  {
    var t := ChefStep(s, c).value;
    SameCore(s, t);
    assert forall x: nat :: x < 4 ==> Live(t, x) == Live(s, x);
  }

  lemma ChefKeepsInvariant(file: seq<char>, s: State, c: nat, ph: Phase) returns (ph': Phase)
    requires Inv(file, s, ph) && c < 6 && ChefStep(s, c).Some?
    ensures Inv(file, ChefStep(s, c).value, ph')
  {
    OnlyTheWokenChef(file, s, c, ph);
    if s.chef[c] == Deliver {
      ChefDeliverStep(file, s, c);
      ph' := Home;
    } else {
      ChefCookingStep(file, s, c);
      ph' := ph;
    }
  }

  /** Every step of every process keeps the invariant. */
  lemma StepKeepsInvariant(file: seq<char>, s: State, p: Process, ph: Phase) returns (ph': Phase)
    requires Inv(file, s, ph) && Step(file, s, p).Some?
    ensures Inv(file, Step(file, s, p).value, ph')
  {
    match p
    case Wholesaler => ph' := WholesalerKeepsInvariant(file, s, ph);
    case Pusher(i) => ph' := PusherKeepsInvariant(file, s, i, ph);
    case Chef(c) => ph' := ChefKeepsInvariant(file, s, c, ph);
  }
}
