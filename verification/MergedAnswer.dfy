/**
 What main makes of the threads' responses in Hw5: it joins the threads one after the other and copies
 each response into the result matrices at once. The result is the sequential answer for all matrices
 exactly when the ranges tile the rows, so whether it is depends on the number of threads only.
 */
module MergedAnswer {
  import opened Common
  import opened Doubles
  import opened ParallelTransform
  import opened RowRanges
  import opened Transform

  // ---------- merging ----------

  /** Every thread's buffers have the size of its range, and the ranges follow one another. */
  predicate Disjoint(threads: seq<Thread>, n: nat) {
    InOrder(threads) && forall t :: 0 <= t < |threads| ==> Fits(threads[t], n)
  }

  method MergeOne(th: Thread, n: nat, resultRe: array2<real>, resultIm: array2<real>)
    requires resultRe != resultIm && resultRe.Length0 == resultRe.Length1 == n
    requires resultIm.Length0 == resultIm.Length1 == n && th.s <= th.end <= n
    requires IsGrid(th.re, th.end - th.s, n) && IsGrid(th.im, th.end - th.s, n)
    modifies resultRe, resultIm
    ensures forall x: nat, y: nat :: x < n && y < n ==>
      && resultRe[x, y] == (if th.s <= x < th.end then th.re[x - th.s][y] else old(resultRe[x, y]))
      && resultIm[x, y] == (if th.s <= x < th.end then th.im[x - th.s][y] else old(resultIm[x, y]))
  {
    for i := th.s to th.end
      invariant forall x: nat, y: nat :: x < n && y < n ==>
        && resultRe[x, y] == (if th.s <= x < i then th.re[x - th.s][y] else old(resultRe[x, y]))
        && resultIm[x, y] == (if th.s <= x < i then th.im[x - th.s][y] else old(resultIm[x, y]))
    {
      for j := 0 to n
        invariant forall x: nat, y: nat :: x < n && y < n ==>
          && resultRe[x, y] == (if th.s <= x < i || (x == i && y < j) then th.re[x - th.s][y] else old(resultRe[x, y]))
          && resultIm[x, y] == (if th.s <= x < i || (x == i && y < j) then th.im[x - th.s][y] else old(resultIm[x, y]))
      {
        resultIm[i, j] := th.im[i - th.s][j];
        resultRe[i, j] := th.re[i - th.s][j];
      }
    }
  }

  /**
   Copies the responses, thread by thread, into the result matrices. Each thread's response goes to its
   own rows; rows in no range stay as they are.
   */
  method Merge(threads: seq<Thread>, n: nat, resultRe: array2<real>, resultIm: array2<real>)
    requires resultRe != resultIm && resultRe.Length0 == resultRe.Length1 == n
    requires resultIm.Length0 == resultIm.Length1 == n
    requires Disjoint(threads, n)
    modifies resultRe, resultIm
    ensures forall t, x: nat, y: nat :: 0 <= t < |threads| && threads[t].s <= x < threads[t].end && y < n ==>
      && resultRe[x, y] == threads[t].re[x - threads[t].s][y]
      && resultIm[x, y] == threads[t].im[x - threads[t].s][y]
    ensures forall x: nat, y: nat :: x < n && y < n && !Owned(threads, x) ==>
      resultRe[x, y] == old(resultRe[x, y]) && resultIm[x, y] == old(resultIm[x, y])
  {
    for k := 0 to |threads|
      invariant forall t, x: nat, y: nat :: 0 <= t < k && threads[t].s <= x < threads[t].end && y < n ==>
        && resultRe[x, y] == threads[t].re[x - threads[t].s][y]
        && resultIm[x, y] == threads[t].im[x - threads[t].s][y]
      invariant forall x: nat, y: nat :: x < n && y < n && !Owned(threads, x) ==>
        resultRe[x, y] == old(resultRe[x, y]) && resultIm[x, y] == old(resultIm[x, y])
    {
      MergeOne(threads[k], n, resultRe, resultIm);
    }
  }

  /** The matrices hold each thread's response in its rows, and 0 elsewhere. */
  ghost predicate IsMerge(threads: seq<Thread>, n: nat, re: Grid, im: Grid) {
    && Disjoint(threads, n) && IsGrid(re, n, n) && IsGrid(im, n, n)
    && (forall t, x: nat, y: nat :: 0 <= t < |threads| && threads[t].s <= x < threads[t].end && y < n ==>
          re[x][y] == threads[t].re[x - threads[t].s][y] && im[x][y] == threads[t].im[x - threads[t].s][y])
    && (forall x: nat, y: nat :: x < n && y < n && !Owned(threads, x) ==> re[x][y] == 0.0 && im[x][y] == 0.0)
  }

  ghost predicate IsAnswer(e: Env, re: Grid, im: Grid) {
    && Valid(e) && e.n > 0 && IsGrid(re, e.n, e.n) && IsGrid(im, e.n, e.n)
    && forall x: nat, y: nat :: x < e.n && y < e.n ==>
      re[x][y] == Answer(e, true, x, y) && im[x][y] == Answer(e, false, x, y)
  }

  /** Merging into fresh matrices of zeros. */
  method MergeAll(threads: seq<Thread>, n: nat) returns (resultRe: array2<real>, resultIm: array2<real>)
    requires Disjoint(threads, n)
    ensures IsMerge(threads, n, Cells(resultRe), Cells(resultIm))
  {
    resultRe := new real[n, n]((i, j) => 0.0);
    resultIm := new real[n, n]((i, j) => 0.0);
    Merge(threads, n, resultRe, resultIm);
  }

  // ---------- every complete run holds the answer ----------

  lemma ResponseIsAnswer(e: Env, th: Thread, x: nat, y: nat)
    requires Valid(e) && e.n > 0 && Fits(th, e.n) && th.pc.Finished? && TransformPart(e, th)
    requires th.s <= x < th.end && y < e.n
    ensures th.re[x - th.s][y] == Answer(e, true, x, y) && th.im[x - th.s][y] == Answer(e, false, x, y)
  {
    var r := x - th.s;
    assert th.re[r][y] == Answer(e, true, th.s + r, y) && th.im[r][y] == Answer(e, false, th.s + r, y);
  }

  /** A thread that has finished, whatever the others do, has the answer for its rows. */
  lemma FinishedHasAnswer(e: Env, s: State, t: nat, x: nat, y: nat)
    requires Inv(e, s) && t < |s.threads| && s.threads[t].pc.Finished?
    requires s.threads[t].s <= x < s.threads[t].end && y < e.n
    ensures s.threads[t].re[x - s.threads[t].s][y] == Answer(e, true, x, y)
    ensures s.threads[t].im[x - s.threads[t].s][y] == Answer(e, false, x, y)
  {
    ResponseIsAnswer(e, s.threads[t], x, y);
  }

  /** No later step touches it. */
  lemma FinishedStays(e: Env, s: State, t: nat, u: nat)
    requires Shaped(e, s) && t < |s.threads| && s.threads[t].pc.Finished? && Step(e, s, u).Some?
    ensures t < |Step(e, s, u).value.threads| && Step(e, s, u).value.threads[t] == s.threads[t]
  {
    match s.threads[u].pc
    case Broadcast =>
    case _ =>
  }

  /** Once nobody can move, every cell of the answer is in the response of the one thread that owns its row. */
  lemma OwnerHasAnswer(e: Env, s: State, x: nat, y: nat) returns (t: nat)
    requires Inv(e, s) && Stuck(e, s) && x < e.n && y < e.n
    ensures t < |s.threads| && s.threads[t].s <= x < s.threads[t].end
    ensures s.threads[t].re[x - s.threads[t].s][y] == Answer(e, true, x, y)
    ensures s.threads[t].im[x - s.threads[t].s][y] == Answer(e, false, x, y)
  {
    t := Owner(e, s, x);
    StuckMeansFinished(e, s, t);
    FinishedHasAnswer(e, s, t, x, y);
  }

  /**
   Every interleaving gives the sequential answer: after a run in which no thread can move any more,
   each cell of the transform of the product is in the response of the one thread that owns its row.
   */
  lemma EveryRunIsSequential(e: Env, s: State, schedule: seq<nat>, x: nat, y: nat) returns (t: nat)
    requires Init(e, s) && Run(e, s, schedule).Some? && Stuck(e, Run(e, s, schedule).value) && x < e.n && y < e.n
    ensures var threads := Run(e, s, schedule).value.threads;
      && t < |threads| && threads[t].s <= x < threads[t].end
      && (forall u: nat :: u < |threads| && threads[u].s <= x < threads[u].end ==> u == t)
      && threads[t].re[x - threads[t].s][y] == Answer(e, true, x, y)
      && threads[t].im[x - threads[t].s][y] == Answer(e, false, x, y)
  {
    RunKeepsInvariant(e, s, schedule);
    var end := Run(e, s, schedule).value;
    t := OwnerHasAnswer(e, end, x, y);
    forall u: nat | u < |end.threads| && end.threads[u].s <= x < end.threads[u].end
      ensures u == t
    {
      OwnersDiffer(end.threads, x, u, t);
    }
  }

  // ---------- joining at any moment ----------

  /** What main gets by joining thread k: the thread as it stands at some moment after it has finished. */
  ghost predicate Joined(e: Env, s: State, k: nat, schedule: seq<nat>, th: Thread)
    requires Shaped(e, s)
  {
    && Run(e, s, schedule).Some? && k < |s.threads|
    && th == Run(e, s, schedule).value.threads[k] && th.pc.Finished?
  }

  ghost predicate AllJoined(e: Env, s: State, moments: seq<seq<nat>>, joined: seq<Thread>)
    requires Shaped(e, s)
  {
    && |moments| == |joined| == |s.threads|
    && (forall k {:trigger joined[k]} :: 0 <= k < |joined| ==> Joined(e, s, k, moments[k], joined[k]))
  }

  lemma JoinedRange(e: Env, s: State, k: nat, schedule: seq<nat>, th: Thread)
    requires Begins(e, s) && Joined(e, s, k, schedule, th)
    ensures Fits(th, e.n) && th.s == s.threads[k].s && th.end == s.threads[k].end
  {
    RunKeepsBarrier(e, s, schedule);
  }

  /** The joined threads have the ranges they were started with. */
  lemma JoinedRanges(e: Env, s: State, moments: seq<seq<nat>>, joined: seq<Thread>)
    requires Begins(e, s) && AllJoined(e, s, moments, joined)
    ensures SameRanges(s.threads, joined) && Disjoint(joined, e.n)
  {
    forall k: nat | k < |joined|
      ensures Fits(joined[k], e.n) && joined[k].s == s.threads[k].s && joined[k].end == s.threads[k].end
    {
      JoinedRange(e, s, k, moments[k], joined[k]);
    }
  }

  lemma JoinedRight(e: Env, s: State, k: nat, schedule: seq<nat>, th: Thread)
    requires Init(e, s) && Joined(e, s, k, schedule, th)
    ensures Fits(th, e.n) && TransformPart(e, th)
  {
    RunKeepsInvariant(e, s, schedule);
  }

  lemma JoinedCell(e: Env, th: Thread, joined: seq<Thread>, k: nat, re: Grid, im: Grid, x: nat, y: nat)
    requires Valid(e) && e.n > 0 && Fits(th, e.n) && th.pc.Finished? && TransformPart(e, th)
    requires IsMerge(joined, e.n, re, im) && k < |joined| && joined[k] == th
    requires th.s <= x < th.end && y < e.n
    ensures re[x][y] == Answer(e, true, x, y) && im[x][y] == Answer(e, false, x, y)
  {
    ResponseIsAnswer(e, th, x, y);
  }

  /** With ranges that tile the rows, the merged matrices are the sequential answer. */
  lemma MergedIsAnswer(e: Env, s: State, moments: seq<seq<nat>>, joined: seq<Thread>, re: Grid, im: Grid)
    requires Init(e, s) && AllJoined(e, s, moments, joined) && IsMerge(joined, e.n, re, im)
    ensures IsAnswer(e, re, im)
  {
    forall x: nat, y: nat | x < e.n && y < e.n
      ensures re[x][y] == Answer(e, true, x, y) && im[x][y] == Answer(e, false, x, y)
    {
      var k := Owner(e, s, x);
      JoinedRange(e, s, k, moments[k], joined[k]);
      JoinedRight(e, s, k, moments[k], joined[k]);
      JoinedCell(e, joined[k], joined, k, re, im, x, y);
    }
  }

  /**
   Main joins the threads one after the other and copies each response at once, whatever the threads not
   yet joined are doing then. If the ranges tile the rows the merged matrices are the sequential answer.
   */
  method JoinAndMerge(e: Env, s: State, joined: seq<Thread>)
    returns (resultRe: array2<real>, resultIm: array2<real>)
    requires Begins(e, s) && exists moments :: AllJoined(e, s, moments, joined)
    ensures IsMerge(joined, e.n, Cells(resultRe), Cells(resultIm))
    ensures Tiled(e, s) ==> IsAnswer(e, Cells(resultRe), Cells(resultIm))
  {
    ghost var moments :| AllJoined(e, s, moments, joined);
    JoinedRanges(e, s, moments, joined);
    resultRe, resultIm := MergeAll(joined, e.n);
    if Tiled(e, s) {
      MergedIsAnswer(e, s, moments, joined, Cells(resultRe), Cells(resultIm));
    }
  }

  // ---------- every start has a complete run ----------

  lemma OneMore(e: Env, s: State, schedule: seq<nat>, t: nat)
    requires Shaped(e, s) && Run(e, s, schedule).Some?
    ensures Run(e, s, schedule + [t]) == Step(e, Run(e, s, schedule).value, t)
  {
    var next := schedule + [t];
    assert next[..|next| - 1] == schedule && next[|next| - 1] == t;
  }

  /** Any run goes on until no thread can move. */
  lemma {:induction false} RunOn(e: Env, s: State, schedule: seq<nat>, now: State) returns (longer: seq<nat>)
    requires Shaped(e, s) && Run(e, s, schedule) == Some(now)
    ensures schedule <= longer && Run(e, s, longer).Some? && Stuck(e, Run(e, s, longer).value)
    decreases Work(e.n, now.threads)
  {
    longer := schedule;
    if t: nat :| Step(e, now, t).Some? {
      OneMore(e, s, schedule, t);
      StepDecreasesWork(e, now, t);
      longer := RunOn(e, s, schedule + [t], Step(e, now, t).value);
    }
  }

  /** Then all threads have finished and can be joined. */
  lemma CanJoin(e: Env, s: State) returns (moments: seq<seq<nat>>, joined: seq<Thread>)
    requires Begins(e, s)
    ensures AllJoined(e, s, moments, joined)
  {
    var schedule := RunOn(e, s, [], s);
    RunKeepsBarrier(e, s, schedule);
    var end := Run(e, s, schedule).value;
    moments, joined := seq(|s.threads|, k => schedule), end.threads;
    forall k | 0 <= k < |joined|
      ensures Joined(e, s, k, moments[k], joined[k])
    {
      StuckMeansFinished(e, end, k);
    }
  }

  ghost function OwnerOf(threads: seq<Thread>, x: nat): (t: nat)
    requires Owned(threads, x)
    ensures t < |threads| && threads[t].s <= x < threads[t].end
  {
    var t: nat :| t < |threads| && threads[t].s <= x < threads[t].end;
    t
  }

  ghost function MergedCell(threads: seq<Thread>, n: nat, re: bool, x: nat, y: nat): real
    requires Disjoint(threads, n) && y < n
  {
    if !Owned(threads, x) then 0.0
    else
      var th := threads[OwnerOf(threads, x)];
      if re then th.re[x - th.s][y] else th.im[x - th.s][y]
  }

  ghost function Merged(threads: seq<Thread>, n: nat, re: bool): (g: Grid)
    requires Disjoint(threads, n)
    ensures IsGrid(g, n, n)
    ensures forall x: nat, y: nat :: x < n && y < n ==> g[x][y] == MergedCell(threads, n, re, x, y)
  {
    seq(n, (x: nat) requires x < n => seq(n, (y: nat) requires y < n => MergedCell(threads, n, re, x, y)))
  }

  lemma MergedIsOwners(threads: seq<Thread>, n: nat, t: nat, x: nat, y: nat)
    requires Disjoint(threads, n) && t < |threads| && threads[t].s <= x < threads[t].end && y < n
    ensures Merged(threads, n, true)[x][y] == threads[t].re[x - threads[t].s][y]
    ensures Merged(threads, n, false)[x][y] == threads[t].im[x - threads[t].s][y]
  {
    assert Owned(threads, x);
    OwnersDiffer(threads, x, t, OwnerOf(threads, x));
  }

  lemma MergedIsZero(threads: seq<Thread>, n: nat, x: nat, y: nat)
    requires Disjoint(threads, n) && !Owned(threads, x) && x < n && y < n
    ensures Merged(threads, n, true)[x][y] == 0.0 && Merged(threads, n, false)[x][y] == 0.0
  {
  }

  lemma MergedIsMerge(threads: seq<Thread>, n: nat)
    requires Disjoint(threads, n)
    ensures IsMerge(threads, n, Merged(threads, n, true), Merged(threads, n, false))
  {
    var re, im := Merged(threads, n, true), Merged(threads, n, false);
    forall t, x: nat, y: nat | 0 <= t < |threads| && threads[t].s <= x < threads[t].end && y < n
      ensures re[x][y] == threads[t].re[x - threads[t].s][y] && im[x][y] == threads[t].im[x - threads[t].s][y]
    {
      MergedIsOwners(threads, n, t, x, y);
    }
    forall x: nat, y: nat | x < n && y < n && !Owned(threads, x)
      ensures re[x][y] == 0.0 && im[x][y] == 0.0
    {
      MergedIsZero(threads, n, x, y);
    }
  }

  // ---------- an input that shows every row left out ----------

  /** The matrix of zeros but for a single 1, in its first cell. */
  function Unit(n: nat): (g: Grid)
    ensures IsGrid(g, n, n)
  {
    seq(n, i => seq(n, j => if i == 0 && j == 0 then 1.0 else 0.0))
  }

  ghost predicate OfUnits(e: Env) {
    e.n > 0 && e.a == Unit(e.n) && e.b == Unit(e.n) && e.cos(0.0) == 1.0
  }

  lemma {:induction false} DotOfUnits(e: Env, i: nat, j: nat, t: nat)
    requires OfUnits(e) && i < e.n && j < e.n && t <= e.n
    ensures Dot(e, i, j, t) == if i == 0 && j == 0 && t > 0 then 1.0 else 0.0
  {
    if t > 0 {
      DotOfUnits(e, i, j, t - 1);
      assert e.a[i][t - 1] == if i == 0 && t == 1 then 1.0 else 0.0;
      assert e.b[t - 1][j] == if t == 1 && j == 0 then 1.0 else 0.0;
    }
  }

  lemma AngleAtOrigin(n: nat, row: nat, col: nat)
    requires n > 0
    ensures Angle(n, row, col, 0, 0) == 0.0
  {
  }

  lemma {:induction false} PartialOfUnits(e: Env, row: nat, col: nat, i: nat, j: nat)
    requires OfUnits(e) && i <= e.n && j <= e.n && (j > 0 ==> i < e.n)
    ensures Partial(e, Products(e), true, row, col, i, j) == if i > 0 || j > 0 then 1.0 else 0.0
    decreases i, j
  {
    if j > 0 {
      PartialOfUnits(e, row, col, i, j - 1);
      DotOfUnits(e, i, j - 1, e.n);
      AngleAtOrigin(e.n, row, col);
    } else if i > 0 {
      PartialOfUnits(e, row, col, i - 1, e.n);
    }
  }

  /** The real part of its answer is 1 everywhere. */
  lemma AnswerOfUnits(e: Env, row: nat, col: nat)
    requires OfUnits(e)
    ensures Answer(e, true, row, col) == 1.0
  {
    PartialOfUnits(e, row, col, e.n, 0);
  }

  // ---------- exactly when the result is right ----------

  /** Whatever the interleaving and the moments of joining, what main merges is the sequential answer. */
  ghost predicate AlwaysRight(e: Env, s: State)
    requires Shaped(e, s)
  {
    forall moments, joined, re, im :: AllJoined(e, s, moments, joined) && IsMerge(joined, e.n, re, im) ==>
      IsAnswer(e, re, im)
  }

  /** With a row in no range, it is wrong on that input in every interleaving. */
  lemma UntiledIsWrong(e: Env, s: State, moments: seq<seq<nat>>, joined: seq<Thread>, re: Grid, im: Grid)
    requires Begins(e, s) && !Tiled(e, s) && OfUnits(e)
    requires AllJoined(e, s, moments, joined) && IsMerge(joined, e.n, re, im)
    ensures !IsAnswer(e, re, im)
  {
    var x: nat :| x < e.n && !Owned(s.threads, x);
    JoinedRanges(e, s, moments, joined);
    if Owned(joined, x) {
      SameOwned(joined, s.threads, x);
    }
    AnswerOfUnits(e, x, 0);
    assert re[x][0] == 0.0;
  }

  lemma UntiledIsNotRight(e: Env, s: State)
    requires Begins(e, s) && !Tiled(e, s) && OfUnits(e)
    ensures !AlwaysRight(e, s)
  {
    var moments, joined := CanJoin(e, s);
    JoinedRanges(e, s, moments, joined);
    MergedIsMerge(joined, e.n);
    UntiledIsWrong(e, s, moments, joined, Merged(joined, e.n, true), Merged(joined, e.n, false));
  }

  /** Main has started m threads on 2^n rows, with the ranges it computes in doubles. */
  ghost predicate Starts(e: Env, s: State, n: nat, m: nat) {
    && Begins(e, s) && e.n == Pow2(n) && |s.threads| == m
    && forall t: nat :: t < m ==> s.threads[t].s == Start(t, e.n, m) && s.threads[t].end == Start(t + 1, e.n, m)
  }

  lemma OwnedIsInRange(e: Env, s: State, n: nat, m: nat, x: nat)
    requires m > 0 && Starts(e, s, n, m)
    ensures Owned(s.threads, x) <==> InSomeRange(x, m, e.n, m)
  {
    if Owned(s.threads, x) {
      var t: nat :| t < m && s.threads[t].s <= x < s.threads[t].end;
      assert Start(t, e.n, m) <= x < Start(t + 1, e.n, m);
    }
    if InSomeRange(x, m, e.n, m) {
      var i: nat :| i < m && Start(i, e.n, m) <= x < Start(i + 1, e.n, m);
      assert s.threads[i].s <= x < s.threads[i].end;
    }
  }

  lemma OwnedIsRow(e: Env, s: State, x: nat)
    requires Shaped(e, s) && Owned(s.threads, x)
    ensures x < e.n
  {
  }

  /** These ranges tile the rows exactly when m does not satisfy the condition. */
  lemma TiledIff(e: Env, s: State, n: nat, m: nat)
    requires m > 0 && Starts(e, s, n, m)
    ensures Tiled(e, s) <==> !LosesLastRow(m)
  {
    RangesTileIff(n, m);
    if Tiled(e, s) {
      forall x: nat
        ensures InSomeRange(x, m, e.n, m) <==> x < e.n
      {
        OwnedIsInRange(e, s, n, m, x);
        if Owned(s.threads, x) {
          OwnedIsRow(e, s, x);
        } else {
          assert x >= e.n;
        }
      }
    }
    if HoldAllRows(e.n, m) {
      forall x: nat | x < e.n
        ensures Owned(s.threads, x)
      {
        assert InSomeRange(x, m, e.n, m);
        OwnedIsInRange(e, s, n, m, x);
      }
    }
  }

  lemma TiledIsRight(e: Env, s: State, n: nat, m: nat)
    requires m > 0 && Starts(e, s, n, m) && !LosesLastRow(m)
    ensures AlwaysRight(e, s)
  {
    TiledIff(e, s, n, m);
    forall moments, joined, re, im | AllJoined(e, s, moments, joined) && IsMerge(joined, e.n, re, im)
      ensures IsAnswer(e, re, im)
    {
      MergedIsAnswer(e, s, moments, joined, re, im);
    }
  }

  lemma StartsInRows(i: nat, n: nat, m: nat)
    requires m > 0 && i < m
    ensures 0 <= Start(i, Pow2(n), m) <= Start(i + 1, Pow2(n), m) <= Pow2(n)
  {
    StartsAscend(i, i + 1, Pow2(n), m);
    StartsAscend(i + 1, m, Pow2(n), m);
    LastEnd(n, m);
    WholeIs(m);
    LastFloor(Pow2(n));
  }

  function Zeros(rows: nat, cols: nat): (g: Grid)
    ensures IsGrid(g, rows, cols)
  {
    seq(rows, i => seq(cols, j => 0.0))
  }

  /** Thread i of m, with buffers of zeros. */
  function FreshThread(i: nat, n: nat, m: nat): (th: Thread)
    requires i < m
    ensures Fits(th, Pow2(n))
  {
    StartsInRows(i, n, m);
    var s, end := Start(i, Pow2(n), m), Start(i + 1, Pow2(n), m);
    Thread(s, end, Multiply(s, 0), Zeros(end - s, Pow2(n)), Zeros(end - s, Pow2(n)))
  }

  /** The state in which main has started m threads on 2^n rows. */
  function Fresh(n: nat, m: nat): State {
    State(Zeros(Pow2(n), Pow2(n)), 0, Nobody, seq(m, i requires 0 <= i < m => FreshThread(i, n, m)))
  }

  lemma FreshStarts(e: Env, n: nat, m: nat)
    requires m > 0 && Valid(e) && e.n == Pow2(n)
    ensures Starts(e, Fresh(n, m), n, m)
  {
    forall t: nat, u: nat | t < u < m
      ensures FreshThread(t, n, m).end <= FreshThread(u, n, m).s
    {
      StartsAscend(t + 1, u, Pow2(n), m);
    }
  }

  /** The matrices a and b of 2^n rows, with some cosine and sine. */
  function Input(n: nat, a: Grid, b: Grid, cos: real -> real, sin: real -> real): Env {
    Env(Pow2(n), a, b, cos, sin)
  }

  /**
   The merged result is the sequential answer, for all matrices of 2^n rows, all interleavings and all
   moments of joining, if and only if the number of threads m does not satisfy the condition. Of cosine and
   sine only the cosine of 0 matters.
   */
  lemma AlwaysRightIff(n: nat, m: nat, cos: real -> real, sin: real -> real)
    requires m > 0 && cos(0.0) == 1.0
    ensures (forall a, b, s :: Starts(Input(n, a, b, cos, sin), s, n, m) ==> AlwaysRight(Input(n, a, b, cos, sin), s))
       <==> !LosesLastRow(m)
  {
    if LosesLastRow(m) {
      var e, s := Input(n, Unit(Pow2(n)), Unit(Pow2(n)), cos, sin), Fresh(n, m);
      FreshStarts(e, n, m);
      TiledIff(e, s, n, m);
      UntiledIsNotRight(e, s);
    } else {
      forall a, b, s | Starts(Input(n, a, b, cos, sin), s, n, m)
        ensures AlwaysRight(Input(n, a, b, cos, sin), s)
      {
        TiledIsRight(Input(n, a, b, cos, sin), s, n, m);
      }
    }
  }
}
