/**
 What becomes of the barrier of Hw5 when a thread can also wake up without a broadcast, as POSIX allows.
 The program tests its counter once, before it waits, and not again.
 */
module SpuriousWakeups {
  import opened Common
  import opened Doubles
  import opened MergedAnswer
  import opened ParallelTransform
  import opened RowRanges
  import opened Tallies
  import opened Transform

  datatype Move = Moves(t: nat) | Spurious(t: nat)

  lemma GotoKeepsShape(e: Env, s: State, t: nat, pc: Pc, mutex: Holder)
    requires Shaped(e, s) && t < |s.threads|
    ensures Shaped(e, Goto(s, t, pc).(mutex := mutex))
  {
  }

  function MoveStep(e: Env, s: State, a: Move): (r: Option<State>)
    requires Shaped(e, s)
    ensures r.Some? ==> Shaped(e, r.value) && |r.value.threads| == |s.threads|
  {
    match a
    case Moves(t) => StepKeepsShape(e, s, t); Step(e, s, t)
    case Spurious(t) =>
      if t < |s.threads| && s.threads[t].pc.Waiting?
      then GotoKeepsShape(e, s, t, Woken, s.mutex); Some(Goto(s, t, Woken))
      else None
  }

  function MoveRun(e: Env, s: State, moves: seq<Move>): (r: Option<State>)
    requires Shaped(e, s)
    ensures r.Some? ==> Shaped(e, r.value) && |r.value.threads| == |s.threads|
    decreases |moves|
  {
    if moves == [] then Some(s)
    else
      var last := |moves| - 1;
      var before := MoveRun(e, s, moves[..last]);
      if before.None? then None else MoveStep(e, before.value, moves[last])
  }

  lemma MoveOn(e: Env, s: State, moves: seq<Move>, t: State, a: Move)
    requires Shaped(e, s) && MoveRun(e, s, moves) == Some(t)
    ensures MoveRun(e, s, moves + [a]) == MoveStep(e, t, a)
  {
    var longer := moves + [a];
    assert longer[..|longer| - 1] == moves && longer[|longer| - 1] == a;
  }

  predicate Transforming(pc: Pc) {
    pc.Sum? || pc.Finished?
  }

  ghost predicate AllHaveArrived(s: State) {
    forall u :: 0 <= u < |s.threads| ==> Arrived(s.threads[u]) == 1
  }

  ghost predicate NoneIsEarly(s: State) {
    forall t :: 0 <= t < |s.threads| && Transforming(s.threads[t].pc) ==> AllHaveArrived(s)
  }

  /** On no run is a thread in its transform before all have arrived. */
  ghost predicate BarrierHolds(e: Env, s: State)
    requires Shaped(e, s)
  {
    forall moves :: MoveRun(e, s, moves).Some? ==> NoneIsEarly(MoveRun(e, s, moves).value)
  }

  // ---------- a thread that waits ----------

  /** The state t with thread k at the given place, and the given mutex and counter. */
  function At(t: State, k: nat, pc: Pc, mutex: Holder, done: nat): State
    requires k < |t.threads|
  {
    Goto(t, k, pc).(mutex := mutex, done := done)
  }

  lemma AtAgain(t: State, k: nat, pc: Pc, mutex: Holder, done: nat, pc': Pc, mutex': Holder, done': nat)
    requires k < |t.threads|
    ensures At(At(t, k, pc, mutex, done), k, pc', mutex', done') == At(t, k, pc', mutex', done')
  {
  }

  lemma Locks(e: Env, t: State, k: nat, done: nat)
    requires k < |t.threads| && Shaped(e, At(t, k, Acquire, Nobody, done))
    ensures MoveStep(e, At(t, k, Acquire, Nobody, done), Moves(k)) == Some(At(t, k, Increment, Held(k), done))
  {
    AtAgain(t, k, Acquire, Nobody, done, Increment, Held(k), done);
  }

  lemma Increments(e: Env, t: State, k: nat, done: nat)
    requires k < |t.threads| && Shaped(e, At(t, k, Increment, Held(k), done)) && done + 1 < |t.threads|
    ensures MoveStep(e, At(t, k, Increment, Held(k), done), Moves(k)) == Some(At(t, k, AboutToWait, Held(k), done + 1))
  {
    AtAgain(t, k, Increment, Held(k), done, AboutToWait, Held(k), done + 1);
  }

  lemma Waits(e: Env, t: State, k: nat, done: nat)
    requires k < |t.threads| && Shaped(e, At(t, k, AboutToWait, Held(k), done))
    ensures MoveStep(e, At(t, k, AboutToWait, Held(k), done), Moves(k)) == Some(At(t, k, Waiting, Nobody, done))
  {
    AtAgain(t, k, AboutToWait, Held(k), done, Waiting, Nobody, done);
  }

  lemma Wakes(e: Env, t: State, k: nat, done: nat)
    requires k < |t.threads| && Shaped(e, At(t, k, Waiting, Nobody, done))
    ensures MoveStep(e, At(t, k, Waiting, Nobody, done), Spurious(k)) == Some(At(t, k, Woken, Nobody, done))
  {
    AtAgain(t, k, Waiting, Nobody, done, Woken, Nobody, done);
  }

  lemma LocksAgain(e: Env, t: State, k: nat, done: nat)
    requires k < |t.threads| && Shaped(e, At(t, k, Woken, Nobody, done))
    ensures MoveStep(e, At(t, k, Woken, Nobody, done), Moves(k)) == Some(At(t, k, Release, Held(k), done))
  {
    AtAgain(t, k, Woken, Nobody, done, Release, Held(k), done);
  }

  lemma Unlocks(e: Env, t: State, k: nat, done: nat)
    requires k < |t.threads| && Shaped(e, At(t, k, Release, Held(k), done))
    ensures MoveStep(e, At(t, k, Release, Held(k), done), Moves(k))
         == Some(At(t, k, Sum(0, 0, 0, 0, 0.0, 0.0), Nobody, done))
  {
    AtAgain(t, k, Release, Held(k), done, Sum(0, 0, 0, 0, 0.0, 0.0), Nobody, done);
  }

  /** A waiting thread passes the barrier in three moves, the first of them a spurious wakeup. */
  lemma WaiterPasses(e: Env, s: State, moves: seq<Move>, t: State, k: nat, done: nat)
    requires Shaped(e, s) && k < |t.threads| && MoveRun(e, s, moves) == Some(At(t, k, Waiting, Nobody, done))
    ensures MoveRun(e, s, moves + [Spurious(k)] + [Moves(k)] + [Moves(k)])
         == Some(At(t, k, Sum(0, 0, 0, 0, 0.0, 0.0), Nobody, done))
  {
    Wakes(e, t, k, done);
    MoveOn(e, s, moves, At(t, k, Waiting, Nobody, done), Spurious(k));
    LocksAgain(e, t, k, done);
    MoveOn(e, s, moves + [Spurious(k)], At(t, k, Woken, Nobody, done), Moves(k));
    Unlocks(e, t, k, done);
    MoveOn(e, s, moves + [Spurious(k)] + [Moves(k)], At(t, k, Release, Held(k), done), Moves(k));
  }

  /** Wherever a thread waits and the mutex is free, a spurious wakeup takes it on past a late one. */
  lemma SpuriousWakeupWouldPass(e: Env, s: State, t: nat) returns (late: nat)
    requires Shaped(e, s) && Barrier(s) && t < |s.threads| && s.threads[t].pc.Waiting? && s.mutex == Nobody
    ensures MoveRun(e, s, [] + [Spurious(t)] + [Moves(t)] + [Moves(t)])
         == Some(At(s, t, Sum(0, 0, 0, 0, 0.0, 0.0), Nobody, s.done))
    ensures late < |s.threads| && late != t && Arrived(s.threads[late]) == 0
  {
    late := SomeoneIsLate(s.threads);
    assert s == At(s, t, Waiting, Nobody, s.done);
    WaiterPasses(e, s, [], s, t, s.done);
  }

  // ---------- a single thread ----------

  /** A thread on its own is the last to arrive, so it never waits. */
  lemma AloneNeverWaits(s: State)
    requires Barrier(s) && |s.threads| == 1
    ensures !s.threads[0].pc.Waiting?
  {
    TallyOfOne(s.threads, Arrived);
  }

  lemma AloneMoves(e: Env, s: State, a: Move)
    requires Shaped(e, s) && Barrier(s) && |s.threads| == 1 && !s.threads[0].pc.Waiting? && MoveStep(e, s, a).Some?
    ensures Barrier(MoveStep(e, s, a).value)
  {
    match a
    case Moves(t) => BarrierStep(e, s, t);
    case Spurious(t) => assert false;
  }

  lemma {:induction false} AloneKeepsBarrier(e: Env, s: State, moves: seq<Move>)
    requires Begins(e, s) && |s.threads| == 1 && MoveRun(e, s, moves).Some?
    ensures Barrier(MoveRun(e, s, moves).value)
    decreases |moves|
  {
    if moves == [] {
      BarrierBegins(e, s);
    } else {
      var last := |moves| - 1;
      AloneKeepsBarrier(e, s, moves[..last]);
      var before := MoveRun(e, s, moves[..last]).value;
      AloneNeverWaits(before);
      AloneMoves(e, before, moves[last]);
    }
  }

  // ---------- two threads or more ----------

  /** Only the first thread has moved since s: it has filled some of its rows, and holds nothing. */
  ghost predicate OnlyFirstMoved(e: Env, s: State, t: State)
    requires Shaped(e, s)
  {
    && Shaped(e, t) && t.done == s.done && t.mutex == Nobody
    && t.threads == s.threads[0 := s.threads[0].(pc := t.threads[0].pc)]
    && (forall x: nat, y: nat :: s.threads[0].end <= x < e.n && y < e.n ==> t.c[x][y] == s.c[x][y])
  }

  lemma FirstMultiplies(e: Env, s: State, t: State)
    requires Shaped(e, s) && OnlyFirstMoved(e, s, t) && t.threads[0].pc.Multiply?
    ensures OnlyFirstMoved(e, s, MultiplyStep(e, t, 0))
    ensures var pc := MultiplyStep(e, t, 0).threads[0].pc; pc.Multiply? || pc.Acquire?
  {
    MultiplyKeepsShape(e, t, 0);
    var u := MultiplyStep(e, t, 0);
    assert u.threads == s.threads[0 := s.threads[0].(pc := u.threads[0].pc)];
  }

  /** The first thread can finish its rows while nobody else moves. */
  lemma {:induction false} FirstReachesBarrier(e: Env, s: State, moves: seq<Move>, t: State)
    returns (longer: seq<Move>, end: State)
    requires Shaped(e, s) && MoveRun(e, s, moves) == Some(t) && OnlyFirstMoved(e, s, t)
    requires t.threads[0].pc.Multiply? || t.threads[0].pc.Acquire?
    ensures MoveRun(e, s, longer) == Some(end) && OnlyFirstMoved(e, s, end) && end.threads[0].pc == Acquire
    decreases ThreadWork(e.n, t.threads[0])
  {
    longer, end := moves, t;
    if t.threads[0].pc.Multiply? {
      MultiplyWork(e, t, 0);
      MoveOn(e, s, moves, t, Moves(0));
      FirstMultiplies(e, s, t);
      longer, end := FirstReachesBarrier(e, s, moves + [Moves(0)], MultiplyStep(e, t, 0));
    }
  }

  lemma FirstWaits(e: Env, s: State, moves: seq<Move>, t: State) returns (longer: seq<Move>)
    requires Shaped(e, s) && MoveRun(e, s, moves) == Some(t) && |t.threads| > 1
    requires t.threads[0].pc == Acquire && t.mutex == Nobody && t.done == 0
    ensures MoveRun(e, s, longer) == Some(At(t, 0, Waiting, Nobody, 1))
  {
    assert t == At(t, 0, Acquire, Nobody, 0);
    Locks(e, t, 0, 0);
    MoveOn(e, s, moves, t, Moves(0));
    longer := moves + [Moves(0)];
    Increments(e, t, 0, 0);
    MoveOn(e, s, longer, At(t, 0, Increment, Held(0), 0), Moves(0));
    longer := longer + [Moves(0)];
    Waits(e, t, 0, 1);
    MoveOn(e, s, longer, At(t, 0, AboutToWait, Held(0), 1), Moves(0));
    longer := longer + [Moves(0)];
  }

  /** From the barrier it takes six moves, one of them a spurious wakeup, into the transform. */
  lemma FirstPasses(e: Env, s: State, moves: seq<Move>, t: State) returns (longer: seq<Move>)
    requires Shaped(e, s) && MoveRun(e, s, moves) == Some(t) && |t.threads| > 1
    requires t.threads[0].pc == Acquire && t.mutex == Nobody && t.done == 0
    ensures MoveRun(e, s, longer) == Some(At(t, 0, Sum(0, 0, 0, 0, 0.0, 0.0), Nobody, 1))
  {
    longer := FirstWaits(e, s, moves, t);
    WaiterPasses(e, s, longer, t, 0, 1);
    longer := longer + [Spurious(0)] + [Moves(0)] + [Moves(0)];
  }

  /** With several threads the first can be in its transform before any other has moved at all. */
  lemma FirstIsEarly(e: Env, s: State) returns (moves: seq<Move>, end: State)
    requires Begins(e, s) && |s.threads| > 1
    ensures MoveRun(e, s, moves) == Some(end) && end.mutex == Nobody
    ensures end.threads == s.threads[0 := s.threads[0].(pc := Sum(0, 0, 0, 0, 0.0, 0.0))]
    ensures forall x: nat, y: nat :: s.threads[0].end <= x < e.n && y < e.n ==> end.c[x][y] == s.c[x][y]
  {
    assert s.threads == s.threads[0 := s.threads[0].(pc := s.threads[0].pc)];
    var before, t := FirstReachesBarrier(e, s, [], s);
    moves := FirstPasses(e, s, before, t);
    end := At(t, 0, Sum(0, 0, 0, 0, 0.0, 0.0), Nobody, 1);
  }

  /** The barrier survives spurious wakeups exactly when there is only one thread. */
  lemma BarrierHoldsIffAlone(e: Env, s: State)
    requires Begins(e, s)
    ensures BarrierHolds(e, s) <==> |s.threads| == 1
  {
    if |s.threads| == 1 {
      forall moves | MoveRun(e, s, moves).Some?
        ensures NoneIsEarly(MoveRun(e, s, moves).value)
      {
        AloneKeepsBarrier(e, s, moves);
      }
    } else {
      var moves, end := FirstIsEarly(e, s);
      assert Transforming(end.threads[0].pc) && Arrived(end.threads[1]) == 0;
    }
  }

  /** The program takes even numbers of threads only, and with these it never does. */
  lemma BarrierNeverHolds(e: Env, s: State, n: nat, m: nat)
    requires Starts(e, s, n, m) && m % 2 == 0
    ensures !BarrierHolds(e, s)
  {
    BarrierHoldsIffAlone(e, s);
  }

  // ---------- what is then read ----------

  /** The first thread is summing up its first cell of the transform and has got as far as row i of the product. */
  predicate SumsFirst(e: Env, s: State, t: State)
    requires |s.threads| > 0 && |t.threads| > 0
  {
    var pc, first := t.threads[0].pc, s.threads[0];
    && t.threads[0].s == first.s && t.threads[0].end == first.end
    && pc.Sum? && pc.r == 0 && pc.k == 0 && pc.i <= first.end && pc.j <= e.n && (pc.i == first.end ==> pc.j == 0)
  }

  lemma SumsOn(e: Env, s: State, t: State)
    requires Shaped(e, s) && Shaped(e, t) && SumsFirst(e, s, t)
    requires s.threads[0].s < s.threads[0].end < e.n && t.threads[0].pc.i < s.threads[0].end
    ensures var u := SumStep(e, t, 0); u.c == t.c && |u.threads| == |t.threads| && SumsFirst(e, s, u)
    ensures var pc, pc' := t.threads[0].pc, SumStep(e, t, 0).threads[0].pc;
      if pc.j < e.n then pc'.i == pc.i && pc'.j == pc.j + 1 else pc'.i == pc.i + 1
  {
  }

  lemma {:induction false} SumsUpToOwn(e: Env, s: State, moves: seq<Move>, t: State)
    returns (longer: seq<Move>, end: State)
    requires Shaped(e, s) && MoveRun(e, s, moves) == Some(t) && SumsFirst(e, s, t)
    requires s.threads[0].s < s.threads[0].end < e.n
    ensures MoveRun(e, s, longer) == Some(end) && end.c == t.c
    ensures SumsFirst(e, s, end) && end.threads[0].pc.i == s.threads[0].end
    decreases s.threads[0].end - t.threads[0].pc.i, e.n - t.threads[0].pc.j
  {
    longer, end := moves, t;
    if t.threads[0].pc.i < s.threads[0].end {
      SumsOn(e, s, t);
      MoveOn(e, s, moves, t, Moves(0));
      longer, end := SumsUpToOwn(e, s, moves + [Moves(0)], SumStep(e, t, 0));
    }
  }

  /**
   With several threads, some run has the first about to read the first cell behind its own rows, where
   the product still has what it had at the start.
   */
  lemma ReadsTooEarly(e: Env, s: State) returns (moves: seq<Move>, end: State)
    requires Begins(e, s) && |s.threads| > 1 && s.threads[0].s < s.threads[0].end < e.n
    ensures MoveRun(e, s, moves) == Some(end) && SumsFirst(e, s, end)
    ensures end.threads[0].pc.i == s.threads[0].end && end.threads[0].pc.j == 0
    ensures end.c[s.threads[0].end][0] == s.c[s.threads[0].end][0]
  {
    var early, t := FirstIsEarly(e, s);
    moves, end := SumsUpToOwn(e, s, early, t);
    assert t.c[s.threads[0].end][0] == s.c[s.threads[0].end][0];
  }

  function Ones(n: nat): (g: Grid)
    ensures IsGrid(g, n, n)
  {
    seq(n, i => seq(n, j => 1.0))
  }

  lemma {:induction false} DotOfOnes(e: Env, i: nat, j: nat, t: nat)
    requires Valid(e) && e.a == Ones(e.n) && e.b == Ones(e.n) && i < e.n && j < e.n && t <= e.n
    ensures Dot(e, i, j, t) == t as real
  {
    if t > 0 {
      DotOfOnes(e, i, j, t - 1);
      assert e.a[i][t - 1] == 1.0 && e.b[t - 1][j] == 1.0;
    }
  }

  lemma SecondStart(size: nat, m: nat)
    requires 2 <= m && 2 * m <= size && size * m <= UNIT / 2
    ensures 0 < Start(1, size, m) < size
  {
    var start := Start(1, size, m);
    StartBounds(1, size, m);
    if start <= 0 {
      KeepsOrder(start + 1, 1, m);
    } else if start >= size {
      KeepsOrder(2, m, start);
    }
  }

  /**
   On two matrices of ones with at least two rows for each thread, 4 rows and two threads for one, some
   run has the first thread about to read a cell of the product that is still 0 and should be 2^n.
   */
  lemma ReadsWrongValue(n: nat, m: nat, cos: real -> real, sin: real -> real)
    returns (moves: seq<Move>, end: State, row: nat)
    requires 2 <= m && 2 * m <= Pow2(n) && Pow2(n) * m <= UNIT / 2
    ensures var e, s := Input(n, Ones(Pow2(n)), Ones(Pow2(n)), cos, sin), Fresh(n, m);
      && Starts(e, s, n, m) && MoveRun(e, s, moves) == Some(end) && SumsFirst(e, s, end)
      && end.threads[0].pc.i == row < e.n && end.threads[0].pc.j == 0
      && end.c[row][0] == 0.0 && Product(e, row, 0) == Pow2(n) as real
  {
    var e, s := Input(n, Ones(Pow2(n)), Ones(Pow2(n)), cos, sin), Fresh(n, m);
    FreshStarts(e, n, m);
    FirstStart(Pow2(n), m);
    SecondStart(Pow2(n), m);
    row := s.threads[0].end;
    moves, end := ReadsTooEarly(e, s);
    DotOfOnes(e, row, 0, e.n);
  }
}
