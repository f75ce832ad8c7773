/**
 The supplier and the C consumers of Hw4 (Hw4/src/main.c) over a set of two semaphores. Each character of
 the file is delivered by two separate posts of one unit; each consumption takes two units of both
 semaphores in one atomic operation, N times per consumer.
 */
module SupplierConsumer {
  import opened Common
  import opened Tallies

  datatype SupplierPc = Reading | HalfDelivered | Left

  /** pos counts the characters delivered in full; done[k] the iterations consumer k has completed. */
  datatype State = State(pos: nat, supplier: SupplierPc, ones: nat, twos: nat, done: seq<nat>, exited: bool)

  datatype Action = Supply | Consume(k: nat)

  predicate Init(s: State, c: nat) {
    s.pos == 0 && s.supplier == Reading && s.ones == 0 && s.twos == 0 && !s.exited
    && |s.done| == c && forall k :: 0 <= k < c ==> s.done[k] == 0
  }

  function Post(s: State, x: char): State {
    if x == '1' then s.(ones := s.ones + 1) else s.(twos := s.twos + 1)
  }

  /** Any character but '1', '2' and the end of the line makes the whole process exit. */
  function SupplierStep(file: seq<char>, s: State): Option<State> {
    match s.supplier
    case Left => None
    case Reading =>
      if s.pos >= |file| || file[s.pos] == '\n' then Some(s.(supplier := Left))
      else if file[s.pos] == '1' || file[s.pos] == '2' then
        Some(Post(s, file[s.pos]).(supplier := HalfDelivered))
      else Some(s.(exited := true))
    case HalfDelivered =>
      if s.pos >= |file| then None else Some(Post(s, file[s.pos]).(supplier := Reading, pos := s.pos + 1))
  }

  function Step(file: seq<char>, n: nat, s: State, a: Action): Option<State> {
    if s.exited then None
    else match a
      case Supply => SupplierStep(file, s)
      case Consume(k) =>
        if k < |s.done| && s.done[k] < n && s.ones >= 2 && s.twos >= 2
        then Some(s.(ones := s.ones - 2, twos := s.twos - 2, done := s.done[k := s.done[k] + 1]))
        else None
  }

  function Run(file: seq<char>, n: nat, s: State, actions: seq<Action>): Option<State>
    decreases |actions|
  {
    if actions == [] then Some(s)
    else
      var last := |actions| - 1;
      var before := Run(file, n, s, actions[..last]);
      if before.None? then None else Step(file, n, before.value, actions[last])
  }

  // ---------- what the file says ----------

  /** The first line, as far as it holds only '1' and '2'. */
  function Supplies(file: seq<char>): (k: nat)
    ensures k <= |file|
    ensures k < |file| ==> file[k] != '1' && file[k] != '2'
  {
    if file != [] && (file[0] == '1' || file[0] == '2') then 1 + Supplies(file[1..]) else 0
  }

  /** Whether what ends the supplies is the end of the file or of the line. */
  predicate EndsWell(file: seq<char>) {
    Supplies(file) == |file| || file[Supplies(file)] == '\n'
  }

  function Is(x: char): char -> nat {
    (y: char) => if y == x then 1 else 0
  }

  function Count(file: seq<char>, x: char, k: nat): nat
    requires k <= |file|
  {
    Tally(file[..k], Is(x))
  }

  lemma CountNext(file: seq<char>, x: char, k: nat)
    requires k < |file|
    ensures Count(file, x, k + 1) == Count(file, x, k) + if file[k] == x then 1 else 0
  {
    TallyAppend(file[..k], file[k], Is(x));
    assert file[..k + 1] == file[..k] + [file[k]];
  }

  lemma {:induction false} SupplyBelow(file: seq<char>, k: nat)
    requires k <= |file|
    ensures k < Supplies(file) ==> file[k] == '1' || file[k] == '2'
    decreases k
  {
    if k > 0 && Supplies(file) > 0 {
      SupplyBelow(file[1..], k - 1);
    }
  }

  // ---------- the invariant ----------

  function Self(x: nat): nat {
    x
  }

  function Consumed(s: State): nat {
    Tally(s.done, Self)
  }

  /** The unit of x posted so far by a delivery in progress. */
  function HalfUnit(file: seq<char>, s: State, x: char): nat {
    if s.supplier == HalfDelivered && s.pos < |file| && file[s.pos] == x then 1 else 0
  }

  /** Each semaphore is twice what is delivered and not consumed, and the unit half delivered. */
  predicate Balanced(file: seq<char>, s: State)
    requires s.pos <= |file|
  {
    && s.ones == 2 * (Count(file, '1', s.pos) - Consumed(s)) + HalfUnit(file, s, '1')
    && s.twos == 2 * (Count(file, '2', s.pos) - Consumed(s)) + HalfUnit(file, s, '2')
  }

  predicate Inv(file: seq<char>, n: nat, s: State) {
    && s.pos <= Supplies(file) && Balanced(file, s)
    && (s.supplier == HalfDelivered ==> s.pos < Supplies(file))
    && (s.supplier == Left ==> s.pos == Supplies(file) && EndsWell(file))
    && (s.exited ==> s.pos == Supplies(file) && !EndsWell(file))
    && (forall k :: 0 <= k < |s.done| ==> s.done[k] <= n)
  }

  lemma SupplyKeeps(file: seq<char>, n: nat, s: State)
    requires Inv(file, n, s) && !s.exited && SupplierStep(file, s).Some?
    ensures Inv(file, n, SupplierStep(file, s).value)
  {
    SupplyBelow(file, s.pos);
    if s.supplier == HalfDelivered {
      CountNext(file, '1', s.pos);
      CountNext(file, '2', s.pos);
    }
  }

  lemma StepKeepsInvariant(file: seq<char>, n: nat, s: State, a: Action)
    requires Inv(file, n, s) && Step(file, n, s, a).Some?
    ensures Inv(file, n, Step(file, n, s, a).value)
    ensures |Step(file, n, s, a).value.done| == |s.done|
  {
    match a
    case Supply => SupplyKeeps(file, n, s);
    case Consume(k) => TallyUpdate(s.done, k, s.done[k] + 1, Self);
  }

  /** Conservation, in every reachable state of every interleaving. */
  lemma {:induction false} RunKeepsInvariant(file: seq<char>, n: nat, c: nat, s: State, actions: seq<Action>)
    requires Init(s, c) && Run(file, n, s, actions).Some?
    ensures Inv(file, n, Run(file, n, s, actions).value)
    ensures |Run(file, n, s, actions).value.done| == c
    decreases |actions|
  {
    if actions == [] {
      TallyZero(s.done, Self);
    } else {
      var last := |actions| - 1;
      RunKeepsInvariant(file, n, c, s, actions[..last]);
      StepKeepsInvariant(file, n, Run(file, n, s, actions[..last]).value, actions[last]);
    }
  }

  /** At no time has more been consumed than was delivered in full, whatever half units are about. */
  lemma NeverMoreThanDelivered(file: seq<char>, n: nat, c: nat, s: State, actions: seq<Action>)
    requires Init(s, c) && Run(file, n, s, actions).Some?
    ensures var t := Run(file, n, s, actions).value;
      && t.pos <= |file|
      && Consumed(t) <= Count(file, '1', t.pos) && Consumed(t) <= Count(file, '2', t.pos)
      && t.ones / 2 == Count(file, '1', t.pos) - Consumed(t)
      && t.twos / 2 == Count(file, '2', t.pos) - Consumed(t)
  {
    RunKeepsInvariant(file, n, c, s, actions);
  }

  // ---------- the end of a run ----------

  predicate Quiet(file: seq<char>, n: nat, s: State) {
    Step(file, n, s, Supply).None? && forall k: nat :: k < |s.done| ==> Step(file, n, s, Consume(k)).None?
  }

  function Min(a: nat, b: nat): nat {
    if a < b then a else b
  }

  lemma {:induction false} TotalBound(done: seq<nat>, n: nat)
    requires forall k :: 0 <= k < |done| ==> done[k] <= n
    ensures Tally(done, Self) <= |done| * n
    ensures Tally(done, Self) == |done| * n <==> forall k :: 0 <= k < |done| ==> done[k] == n
    decreases |done|
  {
    if done != [] {
      assert forall k :: 0 <= k < |done| - 1 ==> done[1..][k] == done[k + 1];
      TotalBound(done[1..], n);
      assert |done| * n == n + |done[1..]| * n;
      if Tally(done, Self) == |done| * n {
        assert forall k :: 0 < k < |done| ==> done[k] == done[1..][k - 1];
      }
    }
  }

  /**
   Confluence: however the steps interleave, a run that ends without an unknown character has consumed
   as much as the supplies and the consumers allow.
   */
  lemma FinalTotal(file: seq<char>, n: nat, c: nat, s: State, actions: seq<Action>)
    requires Init(s, c) && Run(file, n, s, actions).Some? && EndsWell(file)
    requires Quiet(file, n, Run(file, n, s, actions).value)
    ensures var k := Supplies(file);
      Consumed(Run(file, n, s, actions).value) == Min(c * n, Min(Count(file, '1', k), Count(file, '2', k)))
  {
    RunKeepsInvariant(file, n, c, s, actions);
    var t := Run(file, n, s, actions).value;
    TotalBound(t.done, n);
    if k: nat :| k < |t.done| && t.done[k] < n {
      assert Step(file, n, t, Consume(k)).None?;
    }
  }

  /** So all consumers finish exactly when the first line holds N * C of each. */
  lemma AllFinishIffEnough(file: seq<char>, n: nat, c: nat, s: State, actions: seq<Action>)
    requires Init(s, c) && Run(file, n, s, actions).Some? && EndsWell(file)
    requires Quiet(file, n, Run(file, n, s, actions).value)
    ensures (var done := Run(file, n, s, actions).value.done; forall k :: 0 <= k < |done| ==> done[k] == n)
       <==> Count(file, '1', Supplies(file)) >= c * n && Count(file, '2', Supplies(file)) >= c * n
  {
    RunKeepsInvariant(file, n, c, s, actions);
    TotalBound(Run(file, n, s, actions).value.done, n);
    FinalTotal(file, n, c, s, actions);
  }

  /** An unknown character before the end of the line ends every complete run early. */
  lemma UnknownCharacterExits(file: seq<char>, n: nat, c: nat, s: State, actions: seq<Action>)
    requires Init(s, c) && Run(file, n, s, actions).Some? && Quiet(file, n, Run(file, n, s, actions).value)
    ensures Run(file, n, s, actions).value.exited <==> !EndsWell(file)
  {
    RunKeepsInvariant(file, n, c, s, actions);
  }

  /** The steps taken, as the state shows them: two for a character, one for the end, one for a consumption. */
  function Taken(s: State): nat {
    2 * s.pos + Consumed(s)
    + if s.exited then 1 else match s.supplier case Reading => 0 case HalfDelivered => 1 case Left => 1
  }

  lemma StepIsCounted(file: seq<char>, n: nat, s: State, a: Action)
    requires Step(file, n, s, a).Some?
    ensures Taken(Step(file, n, s, a).value) == Taken(s) + 1
  {
    match a
    case Supply =>
    case Consume(k) => TallyUpdate(s.done, k, s.done[k] + 1, Self);
  }

  /** The state tells how many steps have been taken, so every run ends. */
  lemma {:induction false} RunsAreBounded(file: seq<char>, n: nat, c: nat, s: State, actions: seq<Action>)
    requires Init(s, c) && Run(file, n, s, actions).Some?
    ensures |actions| == Taken(Run(file, n, s, actions).value) <= 2 * |file| + 1 + c * n
    decreases |actions|
  {
    RunKeepsInvariant(file, n, c, s, actions);
    TotalBound(Run(file, n, s, actions).value.done, n);
    if actions == [] {
      TallyZero(s.done, Self);
    } else {
      var last := |actions| - 1;
      RunsAreBounded(file, n, c, s, actions[..last]);
      StepIsCounted(file, n, Run(file, n, s, actions[..last]).value, actions[last]);
    }
  }
}
