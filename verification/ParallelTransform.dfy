/**
 The two phases of Hw5 run by m threads: product, barrier on a condition variable, transform. A step is
 one cell written, one cell read, or one operation on the mutex or the condition variable; as in the
 program, a thread that wakes up does not look at the counter again.
 */
module ParallelTransform {
  import opened Common
  import opened Tallies
  import opened Transform

  datatype Pc =
    | Multiply(i: nat, j: nat)
    | Acquire
    | Increment
    | AboutToWait
    | Waiting
    | Broadcast
    | Woken
    | Release
    | Sum(r: nat, k: nat, i: nat, j: nat, re: real, im: real)
    | Finished

  /** A thread with its range of rows and its response buffers. */
  datatype Thread = Thread(s: nat, end: nat, pc: Pc, re: Grid, im: Grid)

  datatype Holder = Nobody | Held(t: nat)

  datatype State = State(c: Grid, done: nat, mutex: Holder, threads: seq<Thread>)

  predicate Shaped(e: Env, s: State) {
    && e.n > 0 && Valid(e) && IsGrid(s.c, e.n, e.n) && |s.threads| > 0
    && forall t :: 0 <= t < |s.threads| ==>
      var th := s.threads[t];
      th.s <= th.end <= e.n && IsGrid(th.re, th.end - th.s, e.n) && IsGrid(th.im, th.end - th.s, e.n)
  }

  /** No range begins before the end of one in front of it. */
  predicate InOrder(threads: seq<Thread>) {
    forall t, u :: 0 <= t < u < |threads| ==> threads[t].end <= threads[u].s
  }

  /** Row x is in the range of some thread. */
  ghost predicate Owned(threads: seq<Thread>, x: nat) {
    exists t :: 0 <= t < |threads| && threads[t].s <= x < threads[t].end
  }

  /** The threads' ranges tile the rows. */
  ghost predicate Tiled(e: Env, s: State) {
    InOrder(s.threads) && forall x: nat :: x < e.n ==> Owned(s.threads, x)
  }

  /** The state in which main has started the threads, whatever their ranges and the buffers hold. */
  predicate Begins(e: Env, s: State) {
    && Shaped(e, s) && s.done == 0 && s.mutex == Nobody && InOrder(s.threads)
    && forall t: nat :: t < |s.threads| ==> s.threads[t].pc == Multiply(s.threads[t].s, 0)
  }

  ghost predicate Init(e: Env, s: State) {
    Begins(e, s) && Tiled(e, s)
  }

  function Put(g: Grid, i: nat, j: nat, x: real): Grid
    requires i < |g| && j < |g[i]|
  {
    g[i := g[i][j := x]]
  }

  function Goto(s: State, t: nat, pc: Pc): State
    requires t < |s.threads|
  {
    s.(threads := s.threads[t := s.threads[t].(pc := pc)])
  }

  function MultiplyStep(e: Env, s: State, t: nat): State
    requires Shaped(e, s) && t < |s.threads| && s.threads[t].pc.Multiply?
  {
    var th := s.threads[t];
    var i, j := th.pc.i, th.pc.j;
    if i >= th.end then Goto(s, t, Acquire)
    else if j >= e.n then Goto(s, t, Multiply(i + 1, 0))
    else Goto(s, t, Multiply(i, j + 1)).(c := Put(s.c, i, j, Product(e, i, j)))
  }

  /** The next step of a thread in its transform; it reads one cell of the product at a time. */
  function NextSum(e: Env, c: Grid, th: Thread): Thread
    requires e.n > 0 && IsGrid(c, e.n, e.n) && th.s <= th.end && th.pc.Sum?
    requires IsGrid(th.re, th.end - th.s, e.n) && IsGrid(th.im, th.end - th.s, e.n)
  {
    var Sum(r, k, i, j, re, im) := th.pc;
    if r >= th.end - th.s then th.(pc := Finished)
    else if k >= e.n then th.(pc := Sum(r + 1, 0, 0, 0, 0.0, 0.0))
    else if i >= e.n then
      Thread(th.s, th.end, Sum(r, k + 1, 0, 0, 0.0, 0.0), Put(th.re, r, k, re), Put(th.im, r, k, im))
    else if j >= e.n then th.(pc := Sum(r, k, i + 1, 0, re, im))
    else
      th.(pc := Sum(r, k, i, j + 1, re + Summand(e, c[i][j], true, th.s + r, k, i, j),
                    im + Summand(e, c[i][j], false, th.s + r, k, i, j)))
  }

  function SumStep(e: Env, s: State, t: nat): State
    requires Shaped(e, s) && t < |s.threads| && s.threads[t].pc.Sum?
  {
    s.(threads := s.threads[t := NextSum(e, s.c, s.threads[t])])
  }

  function Wake(threads: seq<Thread>): (r: seq<Thread>)
    ensures |r| == |threads|
    ensures forall t :: 0 <= t < |threads| ==>
      r[t] == if threads[t].pc.Waiting? then threads[t].(pc := Woken) else threads[t]
  {
    seq(|threads|, t requires 0 <= t < |threads| =>
      if threads[t].pc.Waiting? then threads[t].(pc := Woken) else threads[t])
  }

  /** None when thread t cannot move. */
  function Step(e: Env, s: State, t: nat): Option<State>
    requires Shaped(e, s)
  {
    if t >= |s.threads| then None
    else match s.threads[t].pc
      case Multiply(_, _) => Some(MultiplyStep(e, s, t))
      case Acquire => if s.mutex == Nobody then Some(Goto(s, t, Increment).(mutex := Held(t))) else None
      case Increment =>
        Some(Goto(s, t, if s.done + 1 < |s.threads| then AboutToWait else Broadcast).(done := s.done + 1))
      case AboutToWait => Some(Goto(s, t, Waiting).(mutex := Nobody))
      case Waiting => None
      case Broadcast => Some(Goto(s.(threads := Wake(s.threads)), t, Release))
      case Woken => if s.mutex == Nobody then Some(Goto(s, t, Release).(mutex := Held(t))) else None
      case Release => Some(Goto(s, t, Sum(0, 0, 0, 0, 0.0, 0.0)).(mutex := Nobody))
      case Sum(_, _, _, _, _, _) => Some(SumStep(e, s, t))
      case Finished => None
  }

  // ---------- the invariant ----------

  predicate HasMutex(pc: Pc) {
    pc.Increment? || pc.AboutToWait? || pc.Broadcast? || pc.Release?
  }

  /** Past its increment of the counter. */
  function Arrived(th: Thread): nat {
    if th.pc.Multiply? || th.pc.Acquire? || th.pc.Increment? then 0 else 1
  }

  /** Past the barrier. */
  predicate Through(pc: Pc) {
    pc.Woken? || pc.Release? || pc.Sum? || pc.Finished?
  }

  ghost predicate BroadcastDue(s: State) {
    s.mutex.Held? && s.mutex.t < |s.threads| && s.threads[s.mutex.t].pc.Broadcast?
  }

  ghost predicate Barrier(s: State) {
    && (forall t: nat :: t < |s.threads| ==> (HasMutex(s.threads[t].pc) <==> s.mutex == Held(t)))
    && (s.mutex.Held? ==> s.mutex.t < |s.threads|)
    && s.done == Tally(s.threads, Arrived)
    && (forall t: nat :: t < |s.threads| ==>
          && (Through(s.threads[t].pc) || s.threads[t].pc.Broadcast? ==> s.done == |s.threads|)
          && (s.threads[t].pc.AboutToWait? ==> s.done < |s.threads|)
          && (s.threads[t].pc.Waiting? ==> s.done < |s.threads| || BroadcastDue(s)))
  }

  /** The thread has written its rows up to (i, j). */
  ghost predicate RowsDone(e: Env, c: Grid, s: nat, i: nat, j: nat)
    requires Valid(e) && IsGrid(c, e.n, e.n)
  {
    forall x: nat, y: nat :: x < e.n && y < e.n && s <= x && (x < i || (x == i && y < j)) ==>
      c[x][y] == Product(e, x, y)
  }

  ghost predicate ProductPart(e: Env, c: Grid, th: Thread)
    requires Valid(e) && IsGrid(c, e.n, e.n)
  {
    match th.pc
    case Multiply(i, j) => th.s <= i <= th.end && j <= e.n && RowsDone(e, c, th.s, i, j)
    case _ => RowsDone(e, c, th.s, th.end, 0)
  }

  /** The response buffers are right up to (r, k). */
  ghost predicate ResponseDone(e: Env, th: Thread, r: nat, k: nat)
    requires Valid(e) && e.n > 0 && th.s <= th.end
    requires IsGrid(th.re, th.end - th.s, e.n) && IsGrid(th.im, th.end - th.s, e.n)
  {
    forall x: nat, y: nat :: x < th.end - th.s && y < e.n && (x < r || (x == r && y < k)) ==>
      th.re[x][y] == Answer(e, true, th.s + x, y) && th.im[x][y] == Answer(e, false, th.s + x, y)
  }

  ghost predicate TransformPart(e: Env, th: Thread)
    requires Valid(e) && e.n > 0 && th.s <= th.end
    requires IsGrid(th.re, th.end - th.s, e.n) && IsGrid(th.im, th.end - th.s, e.n)
  {
    match th.pc
    case Sum(r, k, i, j, re, im) =>
      && r <= th.end - th.s && k <= e.n && i <= e.n && j <= e.n && (j > 0 ==> i < e.n)
      && ResponseDone(e, th, r, k)
      && re == Partial(e, Products(e), true, th.s + r, k, i, j)
      && im == Partial(e, Products(e), false, th.s + r, k, i, j)
    case Finished => ResponseDone(e, th, th.end - th.s, 0)
    case _ => true
  }

  ghost predicate Inv(e: Env, s: State) {
    && Shaped(e, s) && Tiled(e, s) && Barrier(s)
    && (forall t :: 0 <= t < |s.threads| ==> ProductPart(e, s.c, s.threads[t]) && TransformPart(e, s.threads[t]))
  }

  lemma BarrierBegins(e: Env, s: State)
    requires Begins(e, s)
    ensures Barrier(s)
  {
    TallyZero(s.threads, Arrived);
  }

  lemma InitHolds(e: Env, s: State)
    requires Init(e, s)
    ensures Inv(e, s)
  {
    BarrierBegins(e, s);
  }

  // ---------- the ranges cover every row ----------

  /** Every row belongs to a thread. */
  lemma Owner(e: Env, s: State, x: nat) returns (t: nat)
    requires Shaped(e, s) && Tiled(e, s) && x < e.n
    ensures t < |s.threads| && s.threads[t].s <= x < s.threads[t].end
  {
    assert Owned(s.threads, x);
    t :| 0 <= t < |s.threads| && s.threads[t].s <= x < s.threads[t].end;
  }

  /** No row belongs to two threads. */
  lemma OwnersDiffer(threads: seq<Thread>, x: nat, t: nat, u: nat)
    requires InOrder(threads) && t < |threads| && u < |threads|
    requires threads[t].s <= x < threads[t].end && threads[u].s <= x < threads[u].end
    ensures t == u
  {
  }

  predicate SameRanges(a: seq<Thread>, b: seq<Thread>) {
    |a| == |b| && forall t :: 0 <= t < |a| ==> a[t].s == b[t].s && a[t].end == b[t].end
  }

  lemma SameOwned(a: seq<Thread>, b: seq<Thread>, x: nat)
    requires SameRanges(a, b) && Owned(a, x)
    ensures Owned(b, x)
  {
    var t :| 0 <= t < |a| && a[t].s <= x < a[t].end;
    assert b[t].s <= x < b[t].end;
  }

  lemma SameTiled(e: Env, s: State, s': State)
    requires Tiled(e, s) && SameRanges(s.threads, s'.threads)
    ensures Tiled(e, s')
  {
    forall x: nat | x < e.n
      ensures Owned(s'.threads, x)
    {
      SameOwned(s.threads, s'.threads, x);
    }
  }

  // ---------- no thread reads the product before it is complete ----------

  lemma AllArrived(s: State, t: nat)
    requires Barrier(s) && s.done == |s.threads| && t < |s.threads|
    ensures Arrived(s.threads[t]) == 1
  {
    TallyUpdate(s.threads, t, s.threads[t].(pc := Finished), Arrived);
    TallyAtMost(s.threads[t := s.threads[t].(pc := Finished)], Arrived);
  }

  /** Past the barrier the whole product has been written. */
  lemma ProductComplete(e: Env, s: State, x: nat, y: nat)
    requires Inv(e, s) && s.done == |s.threads| && x < e.n && y < e.n
    ensures s.c[x][y] == Product(e, x, y)
  {
    var t := Owner(e, s, x);
    AllArrived(s, t);
    assert ProductPart(e, s.c, s.threads[t]);
  }

  // ---------- steps keep the invariant ----------

  /** A move of thread t that concerns neither the mutex nor the counter. */
  lemma BarrierLocal(s: State, t: nat, th: Thread, c: Grid)
    requires Barrier(s) && t < |s.threads|
    requires (s.threads[t].pc.Multiply? && (th.pc.Multiply? || th.pc.Acquire?))
          || (s.threads[t].pc.Sum? && (th.pc.Sum? || th.pc.Finished?))
    ensures Barrier(s.(threads := s.threads[t := th], c := c))
  {
    TallyUpdate(s.threads, t, th, Arrived);
  }

  lemma BarrierLock(s: State, t: nat)
    requires Barrier(s) && t < |s.threads| && s.mutex == Nobody
    requires s.threads[t].pc.Acquire? || s.threads[t].pc.Woken?
    ensures Barrier(Goto(s, t, if s.threads[t].pc.Acquire? then Increment else Release).(mutex := Held(t)))
  {
    var pc := if s.threads[t].pc.Acquire? then Increment else Release;
    TallyUpdate(s.threads, t, s.threads[t].(pc := pc), Arrived);
  }

  lemma BarrierUnlock(s: State, t: nat, pc: Pc)
    requires Barrier(s) && t < |s.threads|
    requires (s.threads[t].pc.AboutToWait? && pc == Waiting) || (s.threads[t].pc.Release? && pc.Sum?)
    ensures Barrier(Goto(s, t, pc).(mutex := Nobody))
  {
    TallyUpdate(s.threads, t, s.threads[t].(pc := pc), Arrived);
  }

  /** The counter never passes the number of threads, and the last to arrive finds it reached. */
  lemma BarrierIncrement(s: State, t: nat)
    requires Barrier(s) && t < |s.threads| && s.threads[t].pc.Increment?
    ensures Barrier(Goto(s, t, if s.done + 1 < |s.threads| then AboutToWait else Broadcast).(done := s.done + 1))
  {
    var th := s.threads[t].(pc := if s.done + 1 < |s.threads| then AboutToWait else Broadcast);
    TallyUpdate(s.threads, t, th, Arrived);
    TallyAtMost(s.threads[t := th], Arrived);
    assert s.done < |s.threads|;
  }

  lemma {:induction false} WakeKeepsTally(threads: seq<Thread>)
    ensures Tally(Wake(threads), Arrived) == Tally(threads, Arrived)
    decreases |threads|
  {
    if threads != [] {
      WakeKeepsTally(threads[1..]);
      assert Wake(threads)[1..] == Wake(threads[1..]);
    }
  }

  lemma BroadcastStep(s: State, t: nat)
    requires Barrier(s) && t < |s.threads| && s.threads[t].pc.Broadcast?
    ensures Barrier(Goto(s.(threads := Wake(s.threads)), t, Release))
  {
    WakeKeepsTally(s.threads);
    var w := Wake(s.threads);
    TallyUpdate(w, t, w[t].(pc := Release), Arrived);
  }

  lemma BarrierStep(e: Env, s: State, t: nat)
    requires Shaped(e, s) && Barrier(s) && Step(e, s, t).Some?
    ensures Barrier(Step(e, s, t).value)
  {
    match s.threads[t].pc
    case Multiply(_, _) => BarrierLocal(s, t, MultiplyStep(e, s, t).threads[t], MultiplyStep(e, s, t).c);
    case Sum(_, _, _, _, _, _) => BarrierLocal(s, t, SumStep(e, s, t).threads[t], s.c);
    case Acquire => BarrierLock(s, t);
    case Woken => BarrierLock(s, t);
    case Increment => BarrierIncrement(s, t);
    case AboutToWait => BarrierUnlock(s, t, Waiting);
    case Release => BarrierUnlock(s, t, Sum(0, 0, 0, 0, 0.0, 0.0));
    case Broadcast => BroadcastStep(s, t);
    case _ =>
  }

  /** Writing a right cell spoils nobody's rows. */
  lemma PutKeepsPart(e: Env, c: Grid, i: nat, j: nat, th: Thread)
    requires Valid(e) && IsGrid(c, e.n, e.n) && i < e.n && j < e.n && ProductPart(e, c, th)
    ensures ProductPart(e, Put(c, i, j, Product(e, i, j)), th)
  {
    var d := Put(c, i, j, Product(e, i, j));
    forall x: nat, y: nat | x < e.n && y < e.n
      ensures d[x][y] == c[x][y] || d[x][y] == Product(e, x, y)
    {
    }
  }

  lemma NextCell(e: Env, c: Grid, s: nat, i: nat, j: nat)
    requires Valid(e) && IsGrid(c, e.n, e.n) && i < e.n && j < e.n && RowsDone(e, c, s, i, j)
    ensures RowsDone(e, Put(c, i, j, Product(e, i, j)), s, i, j + 1)
  {
  }

  lemma MultiplyKeeps(e: Env, s: State, t: nat)
    requires Inv(e, s) && t < |s.threads| && s.threads[t].pc.Multiply?
    ensures var s' := MultiplyStep(e, s, t);
      && Shaped(e, s') && (forall u :: 0 <= u < |s.threads| ==> ProductPart(e, s'.c, s'.threads[u]))
  {
    var s' := MultiplyStep(e, s, t);
    var th := s.threads[t];
    var i, j := th.pc.i, th.pc.j;
    assert ProductPart(e, s.c, th);
    if i < th.end && j < e.n {
      NextCell(e, s.c, th.s, i, j);
      forall u | 0 <= u < |s.threads| && u != t
        ensures ProductPart(e, s'.c, s.threads[u])
      {
        PutKeepsPart(e, s.c, i, j, s.threads[u]);
      }
    }
  }

  predicate Fits(th: Thread, n: nat) {
    th.s <= th.end <= n && IsGrid(th.re, th.end - th.s, n) && IsGrid(th.im, th.end - th.s, n)
  }

  ghost predicate Complete(e: Env, c: Grid)
    requires Valid(e) && IsGrid(c, e.n, e.n)
  {
    forall x: nat, y: nat :: x < e.n && y < e.n ==> c[x][y] == Product(e, x, y)
  }

  lemma NextResponse(e: Env, th: Thread, next: Thread, r: nat, k: nat, re: real, im: real)
    requires Valid(e) && e.n > 0 && Fits(th, e.n) && r < th.end - th.s && k < e.n
    requires ResponseDone(e, th, r, k)
    requires re == Answer(e, true, th.s + r, k) && im == Answer(e, false, th.s + r, k)
    requires next.s == th.s && next.end == th.end && next.re == Put(th.re, r, k, re) && next.im == Put(th.im, r, k, im)
    ensures Fits(next, e.n) && ResponseDone(e, next, r, k + 1)
  {
  }

  lemma NextRow(e: Env, th: Thread, r: nat)
    requires Valid(e) && e.n > 0 && Fits(th, e.n) && ResponseDone(e, th, r, e.n)
    ensures ResponseDone(e, th, r + 1, 0)
  {
  }

  /** One cell of the product read, or the end of one of its rows. */
  lemma ReadKeeps(e: Env, c: Grid, th: Thread)
    requires Valid(e) && e.n > 0 && IsGrid(c, e.n, e.n) && Complete(e, c)
    requires Fits(th, e.n) && th.pc.Sum? && TransformPart(e, th)
    requires th.pc.r < th.end - th.s && th.pc.k < e.n && th.pc.i < e.n
    ensures TransformPart(e, NextSum(e, c, th))
  {
  }

  /** One cell of the response stored. */
  lemma StoreKeeps(e: Env, c: Grid, th: Thread)
    requires Valid(e) && e.n > 0 && IsGrid(c, e.n, e.n)
    requires Fits(th, e.n) && th.pc.Sum? && TransformPart(e, th)
    requires th.pc.r < th.end - th.s && th.pc.k < e.n && th.pc.i >= e.n
    ensures TransformPart(e, NextSum(e, c, th))
  {
    NextResponse(e, th, NextSum(e, c, th), th.pc.r, th.pc.k, th.pc.re, th.pc.im);
  }

  lemma NextSumFits(e: Env, c: Grid, th: Thread)
    requires e.n > 0 && IsGrid(c, e.n, e.n) && Fits(th, e.n) && th.pc.Sum?
    ensures Fits(NextSum(e, c, th), e.n)
  {
  }

  lemma NextSumKeeps(e: Env, c: Grid, th: Thread)
    requires Valid(e) && e.n > 0 && IsGrid(c, e.n, e.n) && Complete(e, c)
    requires Fits(th, e.n) && th.pc.Sum? && TransformPart(e, th)
    ensures var next := NextSum(e, c, th);
      Fits(next, e.n) && TransformPart(e, next) && next.s == th.s && next.end == th.end
  {
    NextSumFits(e, c, th);
    if th.pc.r < th.end - th.s {
      if th.pc.k >= e.n {
        NextRow(e, th, th.pc.r);
      } else if th.pc.i >= e.n {
        StoreKeeps(e, c, th);
      } else {
        ReadKeeps(e, c, th);
      }
    }
  }

  /** Replacing one thread by another with the same rows and right parts keeps all but the barrier. */
  lemma ReplaceThread(e: Env, s: State, t: nat, next: Thread)
    requires Inv(e, s) && t < |s.threads| && Fits(next, e.n)
    requires next.s == s.threads[t].s && next.end == s.threads[t].end
    requires ProductPart(e, s.c, next) && TransformPart(e, next)
    ensures var s' := s.(threads := s.threads[t := next]);
      && Shaped(e, s') && Tiled(e, s')
      && forall u :: 0 <= u < |s.threads| ==> ProductPart(e, s'.c, s'.threads[u]) && TransformPart(e, s'.threads[u])
  {
    SameTiled(e, s, s.(threads := s.threads[t := next]));
  }

  lemma SumKeeps(e: Env, s: State, t: nat)
    requires Inv(e, s) && t < |s.threads| && s.threads[t].pc.Sum?
    ensures Inv(e, SumStep(e, s, t))
  {
    assert Complete(e, s.c) by {
      forall x: nat, y: nat | x < e.n && y < e.n
        ensures s.c[x][y] == Product(e, x, y)
      {
        ProductComplete(e, s, x, y);
      }
    }
    var th, next := s.threads[t], NextSum(e, s.c, s.threads[t]);
    assert ProductPart(e, s.c, th) && TransformPart(e, th);
    NextSumKeeps(e, s.c, th);
    BarrierLocal(s, t, next, s.c);
    ReplaceThread(e, s, t, next);
  }

  lemma PcChangeKeepsParts(e: Env, c: Grid, th: Thread, pc: Pc)
    requires Valid(e) && e.n > 0 && IsGrid(c, e.n, e.n) && Fits(th, e.n)
    requires ProductPart(e, c, th) && !th.pc.Multiply?
    requires TransformPart(e, th)
    requires pc == th.pc || pc == Sum(0, 0, 0, 0, 0.0, 0.0) || !(pc.Multiply? || pc.Sum? || pc.Finished?)
    ensures ProductPart(e, c, th.(pc := pc)) && TransformPart(e, th.(pc := pc))
  {
  }

  lemma BroadcastParts(e: Env, s: State, t: nat)
    requires Inv(e, s) && t < |s.threads| && s.threads[t].pc.Broadcast?
    ensures var s' := Goto(s.(threads := Wake(s.threads)), t, Release);
      forall u :: 0 <= u < |s.threads| ==> ProductPart(e, s.c, s'.threads[u]) && TransformPart(e, s'.threads[u])
  {
    var s' := Goto(s.(threads := Wake(s.threads)), t, Release);
    forall u | 0 <= u < |s.threads|
      ensures ProductPart(e, s.c, s'.threads[u]) && TransformPart(e, s'.threads[u])
    {
      assert ProductPart(e, s.c, s.threads[u]) && TransformPart(e, s.threads[u]);
      AllArrived(s, u);
      PcChangeKeepsParts(e, s.c, s.threads[u], s'.threads[u].pc);
    }
  }

  lemma BroadcastShape(e: Env, s: State, t: nat)
    requires Shaped(e, s) && Tiled(e, s) && t < |s.threads|
    ensures var s' := Goto(s.(threads := Wake(s.threads)), t, Release); Shaped(e, s') && Tiled(e, s')
  {
    SameTiled(e, s, Goto(s.(threads := Wake(s.threads)), t, Release));
  }

  lemma BroadcastKeeps(e: Env, s: State, t: nat)
    requires Inv(e, s) && t < |s.threads| && s.threads[t].pc.Broadcast?
    ensures Inv(e, Step(e, s, t).value)
  {
    BroadcastStep(s, t);
    BroadcastShape(e, s, t);
    BroadcastParts(e, s, t);
  }

  /** A step that only moves thread t's program counter, and keeps the barrier in order, keeps the rest. */
  lemma PcChangeKeeps(e: Env, s: State, s': State, t: nat, pc: Pc)
    requires Inv(e, s) && t < |s.threads| && !s.threads[t].pc.Multiply? && Barrier(s')
    requires s'.c == s.c && s'.threads == s.threads[t := s.threads[t].(pc := pc)]
    requires pc == Sum(0, 0, 0, 0, 0.0, 0.0) || !(pc.Multiply? || pc.Sum? || pc.Finished?)
    ensures Inv(e, s')
  {
    assert ProductPart(e, s.c, s.threads[t]) && TransformPart(e, s.threads[t]);
    PcChangeKeepsParts(e, s.c, s.threads[t], pc);
    ReplaceThread(e, s, t, s.threads[t].(pc := pc));
  }

  lemma OtherStepKeeps(e: Env, s: State, t: nat)
    requires Inv(e, s) && Step(e, s, t).Some?
    requires !s.threads[t].pc.Multiply? && !s.threads[t].pc.Sum? && !s.threads[t].pc.Broadcast?
    ensures Inv(e, Step(e, s, t).value)
  {
    BarrierStep(e, s, t);
    var s' := Step(e, s, t).value;
    PcChangeKeeps(e, s, s', t, s'.threads[t].pc);
  }

  lemma MultiplyKeepsRest(e: Env, s: State, t: nat)
    requires Shaped(e, s) && Tiled(e, s) && Barrier(s) && t < |s.threads| && s.threads[t].pc.Multiply?
    ensures Tiled(e, MultiplyStep(e, s, t)) && Barrier(MultiplyStep(e, s, t))
  {
    SameTiled(e, s, MultiplyStep(e, s, t));
    BarrierStep(e, s, t);
  }

  lemma MultiplyKeepsTransforms(e: Env, s: State, t: nat)
    requires Inv(e, s) && t < |s.threads| && s.threads[t].pc.Multiply? && Shaped(e, MultiplyStep(e, s, t))
    ensures forall u :: 0 <= u < |s.threads| ==> TransformPart(e, MultiplyStep(e, s, t).threads[u])
  {
    var s' := MultiplyStep(e, s, t);
    forall u | 0 <= u < |s.threads|
      ensures TransformPart(e, s'.threads[u])
    {
      assert TransformPart(e, s.threads[u]);
    }
  }

  lemma MultiplyStepKeeps(e: Env, s: State, t: nat)
    requires Inv(e, s) && t < |s.threads| && s.threads[t].pc.Multiply?
    ensures Inv(e, MultiplyStep(e, s, t))
  {
    MultiplyKeeps(e, s, t);
    MultiplyKeepsRest(e, s, t);
    MultiplyKeepsTransforms(e, s, t);
  }

  /** Every step of every thread keeps the invariant. */
  lemma StepKeepsInvariant(e: Env, s: State, t: nat)
    requires Inv(e, s) && Step(e, s, t).Some?
    ensures Inv(e, Step(e, s, t).value)
  {
    if s.threads[t].pc.Multiply? {
      MultiplyStepKeeps(e, s, t);
    } else if s.threads[t].pc.Sum? {
      SumKeeps(e, s, t);
    } else if s.threads[t].pc.Broadcast? {
      BroadcastKeeps(e, s, t);
    } else {
      OtherStepKeeps(e, s, t);
    }
  }

  // ---------- whole runs ----------

  lemma MultiplyKeepsShape(e: Env, s: State, t: nat)
    requires Shaped(e, s) && t < |s.threads| && s.threads[t].pc.Multiply?
    ensures Shaped(e, MultiplyStep(e, s, t))
  {
  }

  lemma StepKeepsShape(e: Env, s: State, t: nat)
    requires Shaped(e, s)
    ensures var r := Step(e, s, t); r.Some? ==> Shaped(e, r.value) && |r.value.threads| == |s.threads|
  {
    if t < |s.threads| {
      match s.threads[t].pc
      case Multiply(_, _) => MultiplyKeepsShape(e, s, t);
      case Sum(_, _, _, _, _, _) => NextSumFits(e, s.c, s.threads[t]);
      case Broadcast =>
      case _ =>
    }
  }

  function Run(e: Env, s: State, schedule: seq<nat>): (r: Option<State>)
    requires Shaped(e, s)
    ensures r.Some? ==> Shaped(e, r.value) && |r.value.threads| == |s.threads|
    decreases |schedule|
  {
    if schedule == [] then Some(s)
    else
      var last := |schedule| - 1;
      var before := Run(e, s, schedule[..last]);
      if before.None? then None
      else
        StepKeepsShape(e, before.value, schedule[last]);
        Step(e, before.value, schedule[last])
  }

  lemma StepKeepsRanges(e: Env, s: State, t: nat)
    requires Shaped(e, s) && Step(e, s, t).Some?
    ensures SameRanges(s.threads, Step(e, s, t).value.threads)
  {
    match s.threads[t].pc
    case Broadcast =>
    case _ =>
  }

  /** Whatever the ranges, the barrier stays in order. */
  lemma {:induction false} RunKeepsBarrier(e: Env, s: State, schedule: seq<nat>)
    requires Begins(e, s) && Run(e, s, schedule).Some?
    ensures Barrier(Run(e, s, schedule).value) && SameRanges(s.threads, Run(e, s, schedule).value.threads)
    decreases |schedule|
  {
    if schedule == [] {
      BarrierBegins(e, s);
    } else {
      var last := |schedule| - 1;
      RunKeepsBarrier(e, s, schedule[..last]);
      var before := Run(e, s, schedule[..last]).value;
      BarrierStep(e, before, schedule[last]);
      StepKeepsRanges(e, before, schedule[last]);
    }
  }

  lemma {:induction false} RunKeepsInvariant(e: Env, s: State, schedule: seq<nat>)
    requires Init(e, s) && Run(e, s, schedule).Some?
    ensures Inv(e, Run(e, s, schedule).value)
    decreases |schedule|
  {
    if schedule == [] {
      InitHolds(e, s);
    } else {
      var last := |schedule| - 1;
      RunKeepsInvariant(e, s, schedule[..last]);
      StepKeepsInvariant(e, Run(e, s, schedule[..last]).value, schedule[last]);
    }
  }

  /** In no interleaving does a thread read the product before all of it has been written. */
  lemma NoEarlyRead(e: Env, s: State, schedule: seq<nat>, t: nat, x: nat, y: nat)
    requires Init(e, s) && Run(e, s, schedule).Some? && t < |s.threads| && x < e.n && y < e.n
    requires Run(e, s, schedule).value.threads[t].pc.Sum?
    ensures Run(e, s, schedule).value.c[x][y] == Product(e, x, y)
  {
    RunKeepsInvariant(e, s, schedule);
    ProductComplete(e, Run(e, s, schedule).value, x, y);
  }

  ghost predicate Stuck(e: Env, s: State)
    requires Shaped(e, s)
  {
    forall t: nat :: Step(e, s, t).None?
  }

  lemma {:induction false} SomeoneIsLate(threads: seq<Thread>) returns (t: nat)
    requires Tally(threads, Arrived) < |threads|
    ensures t < |threads| && Arrived(threads[t]) == 0
    decreases |threads|
  {
    if Arrived(threads[0]) == 0 {
      t := 0;
    } else {
      var u := SomeoneIsLate(threads[1..]);
      t := u + 1;
    }
  }

  lemma HolderCanMove(e: Env, s: State, t: nat)
    requires Shaped(e, s) && t < |s.threads| && HasMutex(s.threads[t].pc)
    ensures !Stuck(e, s)
  {
    assert Step(e, s, t).Some?;
  }

  lemma LateCanMove(e: Env, s: State, t: nat)
    requires Shaped(e, s) && t < |s.threads| && Arrived(s.threads[t]) == 0 && s.mutex == Nobody
    ensures !Stuck(e, s)
  {
    assert Step(e, s, t).Some?;
  }

  /** No thread is left at the barrier: a state in which none can move is one in which all have finished. */
  lemma StuckMeansFinished(e: Env, s: State, t: nat)
    requires Shaped(e, s) && Barrier(s) && Stuck(e, s) && t < |s.threads|
    ensures s.threads[t].pc.Finished?
  {
    assert Step(e, s, t).None?;
    assert s.mutex == Nobody by {
      if s.mutex.Held? {
        HolderCanMove(e, s, s.mutex.t);
      }
    }
    if s.threads[t].pc.Waiting? {
      var u := SomeoneIsLate(s.threads);
      LateCanMove(e, s, u);
    }
  }

  // ---------- every run ends ----------

  /** c times x, by repeated addition. */
  function Times(c: nat, x: nat): nat {
    if x == 0 then 0 else c + Times(c, x - 1)
  }

  /** How far x is below its limit. */
  function Down(limit: nat, x: nat): nat {
    if x < limit then limit - x else 0
  }

  /** Work for one cell of the transform: every cell read, and the end of every row of reads. */
  function CellWork(n: nat): nat {
    n + Times(n + 2, n)
  }

  function RowWork(n: nat): nat {
    CellWork(n) + Times(CellWork(n) + 2, n)
  }

  function SumWork(n: nat, rows: nat, r: nat, k: nat, i: nat, j: nat): nat {
    Down(n, j) + Times(n + 2, Down(n, i)) + Times(CellWork(n) + 2, Down(n, k))
    + Times(RowWork(n) + 2, Down(rows, r)) + 1
  }

  function ThreadWork(n: nat, th: Thread): nat {
    var rows := Down(th.end, th.s);
    var all := SumWork(n, rows, 0, 0, 0, 0);
    match th.pc
    case Multiply(i, j) => Down(n, j) + Times(n + 2, Down(th.end, i)) + all + 7
    case Acquire => all + 6
    case Increment => all + 5
    case AboutToWait => all + 4
    case Waiting => all + 3
    case Woken => all + 2
    case Broadcast => all + 2
    case Release => all + 1
    case Sum(r, k, i, j, _, _) => SumWork(n, rows, r, k, i, j)
    case Finished => 0
  }

  function Work(n: nat, threads: seq<Thread>): nat {
    Tally(threads, (th: Thread) => ThreadWork(n, th))
  }

  lemma WorkUpdate(n: nat, threads: seq<Thread>, t: nat, th: Thread)
    requires t < |threads|
    ensures Work(n, threads[t := th]) == Work(n, threads) - ThreadWork(n, threads[t]) + ThreadWork(n, th)
  {
    TallyUpdate(threads, t, th, (th: Thread) => ThreadWork(n, th));
  }

  lemma ReadWork(n: nat, rows: nat, r: nat, k: nat, i: nat, j: nat)
    requires i < n
    ensures j < n ==> SumWork(n, rows, r, k, i, j + 1) < SumWork(n, rows, r, k, i, j)
    ensures j >= n ==> SumWork(n, rows, r, k, i + 1, 0) < SumWork(n, rows, r, k, i, j)
  {
  }

  lemma StoreWork(n: nat, rows: nat, r: nat, k: nat, i: nat, j: nat)
    requires k < n && i >= n
    ensures SumWork(n, rows, r, k + 1, 0, 0) < SumWork(n, rows, r, k, i, j)
  {
  }

  lemma RowEndWork(n: nat, rows: nat, r: nat, k: nat, i: nat, j: nat)
    requires r < rows && k >= n
    ensures SumWork(n, rows, r + 1, 0, 0, 0) < SumWork(n, rows, r, k, i, j)
  {
  }

  lemma SumStepWork(e: Env, c: Grid, th: Thread)
    requires e.n > 0 && IsGrid(c, e.n, e.n) && Fits(th, e.n) && th.pc.Sum?
    ensures ThreadWork(e.n, NextSum(e, c, th)) < ThreadWork(e.n, th)
  {
    var Sum(r, k, i, j, re, im) := th.pc;
    var rows := Down(th.end, th.s);
    if r < th.end - th.s {
      if k >= e.n {
        RowEndWork(e.n, rows, r, k, i, j);
      } else if i >= e.n {
        StoreWork(e.n, rows, r, k, i, j);
      } else {
        ReadWork(e.n, rows, r, k, i, j);
      }
    }
  }

  lemma MultiplyWork(e: Env, s: State, t: nat)
    requires Shaped(e, s) && t < |s.threads| && s.threads[t].pc.Multiply?
    ensures ThreadWork(e.n, MultiplyStep(e, s, t).threads[t]) < ThreadWork(e.n, s.threads[t])
  {
  }

  lemma WorkFront(n: nat, threads: seq<Thread>)
    requires threads != []
    ensures Work(n, threads) == ThreadWork(n, threads[0]) + Work(n, threads[1..])
  {
  }

  lemma {:induction false} WakeWork(n: nat, threads: seq<Thread>)
    ensures Work(n, Wake(threads)) <= Work(n, threads)
    decreases |threads|
  {
    if threads != [] {
      WakeWork(n, threads[1..]);
      assert Wake(threads)[1..] == Wake(threads[1..]);
      WorkFront(n, threads);
      WorkFront(n, Wake(threads));
    }
  }

  lemma SmallerThread(n: nat, threads: seq<Thread>, t: nat, th: Thread)
    requires t < |threads| && ThreadWork(n, th) < ThreadWork(n, threads[t])
    ensures Work(n, threads[t := th]) < Work(n, threads)
  {
    WorkUpdate(n, threads, t, th);
  }

  /** The moves at the barrier, each one rank down. */
  lemma BarrierWork(n: nat, th: Thread, pc: Pc)
    requires (th.pc.Acquire? && pc.Increment?) || (th.pc.Increment? && (pc.AboutToWait? || pc.Broadcast?))
          || (th.pc.AboutToWait? && pc.Waiting?) || ((th.pc.Woken? || th.pc.Broadcast?) && pc.Release?)
          || (th.pc.Release? && pc == Sum(0, 0, 0, 0, 0.0, 0.0))
    ensures ThreadWork(n, th.(pc := pc)) < ThreadWork(n, th)
  {
  }

  lemma MultiplyStepWork(e: Env, s: State, t: nat)
    requires Shaped(e, s) && t < |s.threads| && s.threads[t].pc.Multiply?
    ensures Work(e.n, MultiplyStep(e, s, t).threads) < Work(e.n, s.threads)
  {
    MultiplyWork(e, s, t);
    SmallerThread(e.n, s.threads, t, MultiplyStep(e, s, t).threads[t]);
  }

  lemma BroadcastWork(n: nat, s: State, t: nat)
    requires t < |s.threads| && s.threads[t].pc.Broadcast?
    ensures Work(n, Goto(s.(threads := Wake(s.threads)), t, Release).threads) < Work(n, s.threads)
  {
    WakeWork(n, s.threads);
    var w := Wake(s.threads);
    BarrierWork(n, w[t], Release);
    SmallerThread(n, w, t, w[t].(pc := Release));
  }

  lemma BarrierStepWork(e: Env, s: State, t: nat)
    requires Shaped(e, s) && Step(e, s, t).Some?
    requires !s.threads[t].pc.Multiply? && !s.threads[t].pc.Sum? && !s.threads[t].pc.Broadcast?
    ensures Work(e.n, Step(e, s, t).value.threads) < Work(e.n, s.threads)
  {
    var pc := Step(e, s, t).value.threads[t].pc;
    assert Step(e, s, t).value.threads == s.threads[t := s.threads[t].(pc := pc)];
    BarrierWork(e.n, s.threads[t], pc);
    SmallerThread(e.n, s.threads, t, s.threads[t].(pc := pc));
  }

  /** Every step leaves less to do. */
  lemma StepDecreasesWork(e: Env, s: State, t: nat)
    requires Shaped(e, s) && Step(e, s, t).Some?
    ensures Work(e.n, Step(e, s, t).value.threads) < Work(e.n, s.threads)
  {
    if s.threads[t].pc.Broadcast? {
      BroadcastWork(e.n, s, t);
    } else if s.threads[t].pc.Multiply? {
      MultiplyStepWork(e, s, t);
    } else if s.threads[t].pc.Sum? {
      SumStepWork(e, s.c, s.threads[t]);
      SmallerThread(e.n, s.threads, t, NextSum(e, s.c, s.threads[t]));
    } else {
      BarrierStepWork(e, s, t);
    }
  }

  /** So no run is longer than the work there is at the start. */
  lemma {:induction false} RunsAreBounded(e: Env, s: State, schedule: seq<nat>)
    requires Shaped(e, s) && Run(e, s, schedule).Some?
    ensures |schedule| + Work(e.n, Run(e, s, schedule).value.threads) <= Work(e.n, s.threads)
    decreases |schedule|
  {
    if schedule != [] {
      var last := |schedule| - 1;
      RunsAreBounded(e, s, schedule[..last]);
      StepDecreasesWork(e, Run(e, s, schedule[..last]).value, schedule[last]);
    }
  }
}
