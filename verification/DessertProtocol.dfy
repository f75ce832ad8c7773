/**
 The wholesaler, its four pushers and its six chefs (Hw3), as a state machine: every step is one
 semaphore operation, one flag operation, one read of the input file or one buffer cell.

 Ingredients are numbered like their flags: flour 0, walnuts 1, sugar 2, milk 3. Semaphores are
 numbered as in the unnamed version: chefs 0-5, wholesaler 6, mutex 7, pushers 8-11.
 */
module DessertProtocol {
  import opened Common

  const BUFFER_SIZE: nat := 2048

  datatype WholesalerPc = AtWait | AtRead | AtFirst | AtSecond | AtEnd | Crashed

  datatype PusherPc = Idle | Lock | Test(k: nat) | Clear(k: nat) | Wake(k: nat) | Raise | Unlock

  datatype ChefPc = Resting | Pop(i: nat) | Count | Deliver

  datatype Process = Wholesaler | Pusher(p: nat) | Chef(c: nat)

  /** One line of a chef's output: which chef took which ingredient out of the buffer. */
  datatype Taken = Taken(chef: nat, ingredient: char)

  datatype State = State(
    sem: seq<nat>,
    flag: seq<bool>,
    buf: seq<char>,
    rounds: nat,
    w: WholesalerPc,
    pusher: seq<PusherPc>,
    chef: seq<ChefPc>,
    served: seq<nat>,
    log: seq<Taken>)

  /** The flags a pusher looks at, in order, for the other three ingredients. */
  function FlagOf(p: nat, k: nat): (f: nat)
    requires p < 4 && k < 3
    ensures f < 4
  {
    [[1, 2, 3], [0, 2, 3], [0, 1, 3], [0, 1, 2]][p][k]
  }

  /** The chef a pusher wakes when it finds its k-th flag raised. */
  function ChefOf(p: nat, k: nat): (c: nat)
    requires p < 4 && k < 3
    ensures c < 6
  {
    [[1, 2, 3], [1, 0, 4], [2, 0, 5], [3, 4, 5]][p][k]
  }

  /** The two ingredients a chef is without. */
  function Lacks(c: nat): set<nat>
    requires c < 6
  {
    [{1, 2}, {1, 0}, {2, 0}, {3, 0}, {3, 1}, {2, 3}][c]
  }

  function Ingredient(ch: char): (r: Option<nat>)
    ensures r.Some? ==> r.value < 4
  {
    if ch == 'F' then Some(0) else if ch == 'W' then Some(1) else if ch == 'S' then Some(2)
    else if ch == 'M' then Some(3) else None
  }

  predicate Shape(s: State) {
    |s.sem| == 12 && |s.flag| == 4 && |s.buf| == BUFFER_SIZE && |s.pusher| == 4 && |s.chef| == 6 && |s.served| == 6
  }

  function Init(): (s: State)
    ensures Shape(s)
  {
    State([0, 0, 0, 0, 0, 0, 1, 1, 0, 0, 0, 0], [false, false, false, false],
          seq(BUFFER_SIZE, _ => '\0'), 0, AtWait, [Idle, Idle, Idle, Idle],
          [Resting, Resting, Resting, Resting, Resting, Resting], [0, 0, 0, 0, 0, 0], [])
  }

  // ---------- the input file, in chunks of three bytes ----------

  function ChunkLength(file: seq<char>, k: nat): nat {
    if 3 * k + 3 <= |file| then 3 else if 3 * k <= |file| then |file| - 3 * k else 0
  }

  function NumChunks(file: seq<char>): nat {
    (|file| + 2) / 3
  }

  function Load(file: seq<char>, k: nat, buf: seq<char>): (r: seq<char>)
    requires |buf| >= 3
    ensures |r| == |buf|
  {
    var n := ChunkLength(file, k);
    if n == 0 then buf else file[3 * k..3 * k + n] + buf[n..]
  }

  // ---------- steps; None means that the process cannot move ----------

  function Post(s: State, i: nat): State
    requires Shape(s) && i < 12
  {
    s.(sem := s.sem[i := s.sem[i] + 1])
  }

  function Take(s: State, i: nat): State
    requires Shape(s) && i < 12 && s.sem[i] > 0
  {
    s.(sem := s.sem[i := s.sem[i] - 1])
  }

  function WholesalerStep(file: seq<char>, s: State): (r: Option<State>)
    requires Shape(s)
    ensures r.Some? ==> Shape(r.value)
  {
    match s.w
    case AtWait => if s.sem[6] == 0 then None else Some(Take(s, 6).(w := AtRead))
    case AtRead =>
      var n := ChunkLength(file, s.rounds);
      if n == 0 then Some(s.(w := AtEnd))
      else Some(s.(buf := Load(file, s.rounds, s.buf), rounds := s.rounds + 1, w := if n >= 2 then AtFirst else AtWait))
    case AtFirst =>
      var a := Ingredient(s.buf[0]);
      if a.None? then Some(s.(w := Crashed)) else Some(Post(s, 8 + a.value).(w := AtSecond))
    case AtSecond =>
      var b := Ingredient(s.buf[1]);
      if b.None? then Some(s.(w := Crashed)) else Some(Post(s, 8 + b.value).(w := AtWait))
    case AtEnd => None
    case Crashed => None
  }

  function PusherGoto(s: State, p: nat, pc: PusherPc): State
    requires Shape(s) && p < 4
  {
    s.(pusher := s.pusher[p := pc])
  }

  function PusherStep(s: State, p: nat): (r: Option<State>)
    requires Shape(s) && p < 4
    ensures r.Some? ==> Shape(r.value)
  {
    match s.pusher[p]
    case Idle => if s.sem[8 + p] == 0 then None else Some(PusherGoto(Take(s, 8 + p), p, Lock))
    case Lock => if s.sem[7] == 0 then None else Some(PusherGoto(Take(s, 7), p, Test(0)))
    case Test(k) =>
      if k >= 3 then None
      else Some(PusherGoto(s, p, if s.flag[FlagOf(p, k)] then Clear(k) else if k == 2 then Raise else Test(k + 1)))
    case Clear(k) =>
      if k >= 3 then None else Some(PusherGoto(s.(flag := s.flag[FlagOf(p, k) := false]), p, Wake(k)))
    case Wake(k) => if k >= 3 then None else Some(PusherGoto(Post(s, ChefOf(p, k)), p, Unlock))
    case Raise => Some(PusherGoto(s.(flag := s.flag[p := true]), p, Unlock))
    case Unlock => Some(PusherGoto(Post(s, 7), p, Idle))
  }

  function ChefGoto(s: State, c: nat, pc: ChefPc): State
    requires Shape(s) && c < 6
  {
    s.(chef := s.chef[c := pc])
  }

  function ChefStep(s: State, c: nat): (r: Option<State>)
    requires Shape(s) && c < 6
    ensures r.Some? ==> Shape(r.value)
  {
    match s.chef[c]
    case Resting => if s.sem[c] == 0 then None else Some(ChefGoto(Take(s, c), c, Pop(0)))
    case Pop(i) =>
      if i + 1 < BUFFER_SIZE && s.buf[i + 1] != '\0' then
        Some(ChefGoto(s.(buf := s.buf[i := '\0'], log := s.log + [Taken(c, s.buf[i])]), c, Pop(i + 1)))
      else Some(ChefGoto(s, c, Count))
    case Count => Some(ChefGoto(s.(served := s.served[c := s.served[c] + 1]), c, Deliver))
    case Deliver => Some(ChefGoto(Post(s, 6), c, Resting))
  }

  function Step(file: seq<char>, s: State, p: Process): (r: Option<State>)
    requires Shape(s)
    ensures r.Some? ==> Shape(r.value)
  {
    match p
    case Wholesaler => WholesalerStep(file, s)
    case Pusher(i) => if i < 4 then PusherStep(s, i) else None
    case Chef(c) => if c < 6 then ChefStep(s, c) else None
  }

  /** The state after the given processes moved in the given order, if each of them could. */
  function Run(file: seq<char>, s: State, schedule: seq<Process>): (r: Option<State>)
    requires Shape(s)
    ensures r.Some? ==> Shape(r.value)
    decreases |schedule|
  {
    if schedule == [] then Some(s)
    else
      var last := |schedule| - 1;
      var before := Run(file, s, schedule[..last]);
      if before.None? then None else Step(file, before.value, schedule[last])
  }

  ghost predicate Stuck(file: seq<char>, s: State)
    requires Shape(s)
  {
    forall p :: Step(file, s, p).None?
  }
}
