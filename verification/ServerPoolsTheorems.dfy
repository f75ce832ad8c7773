/** What the invariant of the two pools gives for whole runs. */
module ServerPoolsTheorems {
  import opened Common
  import opened Invertibility
  import opened MatrixMath
  import opened ServerPools
  import opened ServerPoolsInvariant
  import opened Tallies

  // ---------- the slot ----------

  /** No request is overwritten before it is copied, and none is copied by two workers. */
  lemma SlotIsExclusive(s: State, actions: seq<Action>)
    requires Init(s) && Run(s, actions).Some?
    ensures var t := Run(s, actions).value;
      && Handshake(t)
      && (t.zParent != WaitingCont ==> forall i :: 0 <= i < |t.workers| ==> !IsCopying(t.workers[i].pc))
      && (forall i, j :: 0 <= i < j < |t.workers| ==> !IsCopying(t.workers[i].pc) || !IsCopying(t.workers[j].pc))
  {
    RunKeepsInvariant(s, actions);
    var t := Run(s, actions).value;
    forall i | 0 <= i < |t.workers| && IsCopying(t.workers[i].pc)
      ensures t.zParent == WaitingCont
      ensures forall j: nat :: j < |t.workers| && IsCopying(t.workers[j].pc) ==> j == i
    {
      CopyingExcludes(t, i);
    }
  }

  /** A worker that gives the slot back has all of its request, and answers for that. */
  lemma CopyIsFaithful(s: State, actions: seq<Action>, i: nat)
    requires Init(s) && Run(s, actions).Some? && i < |Run(s, actions).value.workers|
    requires Run(s, actions).value.workers[i].pc.PostCont?
    ensures var t := Run(s, actions).value; Clean(t.workers[i].local) == Clean(t.slot)
  {
    RunKeepsInvariant(s, actions);
    CopyIsWhole(Run(s, actions).value.slot, Run(s, actions).value.workers[i]);
  }

  function InPool(z: bool): Worker -> nat {
    (w: Worker) => if w.z == z then 1 else 0
  }

  lemma {:induction false} TallyBelow<T>(s: seq<T>, f: T -> nat, g: T -> nat)
    requires forall i :: 0 <= i < |s| ==> f(s[i]) <= g(s[i])
    ensures Tally(s, f) <= Tally(s, g)
    decreases |s|
  {
    if s != [] {
      assert forall i :: 0 <= i < |s| - 1 ==> s[1..][i] == s[i + 1];
      TallyBelow(s[1..], f, g);
    }
  }

  /** The busy counters never pass the sizes of the pools. */
  lemma BusyWithinPool(s: State, actions: seq<Action>)
    requires Init(s) && Run(s, actions).Some?
    ensures var t := Run(s, actions).value;
      t.workingY <= Tally(t.workers, InPool(false)) && t.workingZ <= Tally(t.workers, InPool(true))
  {
    RunKeepsInvariant(s, actions);
    var t := Run(s, actions).value;
    TallyBelow(t.workers, Busy(false), InPool(false));
    TallyBelow(t.workers, Busy(true), InPool(true));
  }

  // ---------- the answers ----------

  /** The requests that have been answered. */
  function Subjects(replies: seq<Reply>): seq<Request> {
    if replies == [] then [] else [replies[0].of] + Subjects(replies[1..])
  }

  lemma {:induction false} SubjectsTally(replies: seq<Reply>, x: Request)
    ensures Tally(replies, Answered(Equals(x))) == Tally(Subjects(replies), Same(x))
    ensures |Subjects(replies)| == |replies|
    decreases |replies|
  {
    if replies != [] {
      SubjectsTally(replies[1..], x);
      assert Subjects(replies)[1..] == Subjects(replies[1..]);
    }
  }

  lemma {:induction false} TallyIsMultiplicity(s: seq<Request>, x: Request)
    ensures Tally(s, Same(x)) == multiset(s)[x]
    decreases |s|
  {
    if s != [] {
      TallyIsMultiplicity(s[1..], x);
      assert s == [s[0]] + s[1..];
    }
  }

  lemma AnsweredAtMostReceived(t: State, x: Request)
    requires Conserved(t)
    ensures multiset(Subjects(t.replies))[x] <= multiset(t.received)[x]
  {
    SubjectsTally(t.replies, x);
    TallyIsMultiplicity(Subjects(t.replies), x);
    TallyIsMultiplicity(t.received, x);
    assert Pending(t, x) + Total(t, Equals(x)) == Tally(t.received, Same(x));
  }

  /** Whichever pools took the requests, none is answered more often than it was received. */
  lemma AtMostOnce(s: State, actions: seq<Action>)
    requires Init(s) && Run(s, actions).Some?
    ensures var t := Run(s, actions).value; multiset(Subjects(t.replies)) <= multiset(t.received)
  {
    RunKeepsInvariant(s, actions);
    var t := Run(s, actions).value;
    forall x
      ensures multiset(Subjects(t.replies))[x] <= multiset(t.received)[x]
    {
      AnsweredAtMostReceived(t, x);
    }
  }

  lemma {:induction false} SubjectsHave(replies: seq<Reply>, i: nat)
    requires i < |replies|
    ensures replies[i].of in Subjects(replies)
    decreases |replies|
  {
    if i > 0 {
      SubjectsHave(replies[1..], i - 1);
    }
  }

  /** Every answer is about a request received, goes to its client, and is 1 exactly for an invertible matrix. */
  lemma AnswersAreRight(s: State, actions: seq<Action>, i: nat)
    requires Init(s) && Run(s, actions).Some? && i < |Run(s, actions).value.replies|
    ensures var r := Run(s, actions).value.replies[i];
      && r.of in Run(s, actions).value.received
      && r.client == r.of.client && r.of.size * r.of.size == |r.of.cells|
      && (r.result == 1 || r.result == 0)
      && (r.result == 1 <==> r.of.size > 0 && Invertible(Rows(r.of.cells, r.of.size), r.of.size))
  {
    RunKeepsInvariant(s, actions);
    var t := Run(s, actions).value;
    var of := t.replies[i].of;
    assert ReplyOk(t.replies[i]);
    if of.size > 0 {
      NonZeroDetIffInvertible(Rows(of.cells, of.size), of.size);
    }
    AtMostOnce(s, actions);
    SubjectsHave(t.replies, i);
    assert of in multiset(Subjects(t.replies));
    assert of in multiset(t.received);
  }

  // ---------- quiescence ----------

  /** Nothing can happen but the arrival of a new request. */
  ghost predicate Quiet(s: State) {
    && (forall forward :: Step(s, Dispatch(forward)).None?)
    && Step(s, ZParentMoves).None?
    && (forall i :: Step(s, WorkerMoves(i)).None?)
  }

  predicate BothPools(s: State) {
    (exists i :: 0 <= i < |s.workers| && s.workers[i].z) && (exists i :: 0 <= i < |s.workers| && !s.workers[i].z)
  }

  lemma QuietWorkerIsHome(s: State, i: nat)
    requires Inv(s) && Quiet(s) && i < |s.workers|
    ensures s.workers[i].pc == StartPc(s.workers[i].z)
  {
    var w := s.workers[i];
    assert Step(s, WorkerMoves(i)).None?;
    if w.pc.CopyCells? {
      CopyNextKeeps(s.slot, w);
    }
    TallyUpdate(s.workers, i, w, Busy(w.z));
  }

  lemma QuietIsHome(s: State)
    requires Inv(s) && Quiet(s)
    ensures AllHome(s)
  {
    forall i | 0 <= i < |s.workers|
      ensures s.workers[i].pc == StartPc(s.workers[i].z)
    {
      QuietWorkerIsHome(s, i);
    }
  }

  /** A worker at its start waits for exactly one thing. */
  lemma HomeWorkerWaits(s: State, i: nat)
    requires Quiet(s) && AllHome(s) && i < |s.workers|
    ensures if s.workers[i].z then s.semRead == 0 else s.pipeY == []
  {
    assert Step(s, WorkerMoves(i)).None?;
  }

  /** With every worker at its start and no request posted, server Z waits for its pipe, and that is empty. */
  lemma HomeParentReads(s: State)
    requires Handshake(s) && AllHome(s) && s.semRead == 0 && Step(s, ZParentMoves).None?
    ensures s.zParent == Reading && s.pipeZ == []
  {
    TallyZero(s.workers, Copying);
  }

  /** A quiet state has nothing on its way. */
  lemma QuietIsEmpty(s: State)
    requires Inv(s) && Quiet(s) && BothPools(s)
    ensures AllHome(s) && s.yParent == Listening && s.pipeY == [] && s.pipeZ == [] && s.zParent == Reading
  {
    QuietIsHome(s);
    var y :| 0 <= y < |s.workers| && !s.workers[y].z;
    HomeWorkerWaits(s, y);
    var z :| 0 <= z < |s.workers| && s.workers[z].z;
    HomeWorkerWaits(s, z);
    HomeParentReads(s);
    assert Step(s, Dispatch(true)).None?;
  }

  lemma EmptyTotal(s: State, f: Measure)
    requires AllHome(s) && s.yParent == Listening && s.pipeY == [] && s.pipeZ == [] && s.zParent == Reading
    ensures Total(s, f) == Tally(s.replies, Answered(f))
  {
    HomeTallies(s, f);
  }

  lemma {:induction false} RepliesSplit(replies: seq<Reply>)
    requires forall i :: 0 <= i < |replies| ==> ReplyOk(replies[i])
    ensures Tally(replies, Replied(1)) + Tally(replies, Replied(0)) == |replies|
    ensures Tally(replies, RepliedZ(1)) + Tally(replies, RepliedZ(0)) == Tally(replies, Answered(Forwarded()))
    decreases |replies|
  {
    if replies != [] {
      assert ReplyOk(replies[0]);
      assert forall i :: 0 <= i < |replies| - 1 ==> replies[1..][i] == replies[i + 1];
      RepliesSplit(replies[1..]);
    }
  }

  lemma StepKeepsPool(s: State, a: Action, i: nat)
    requires Step(s, a).Some? && i < |s.workers|
    ensures var t := Step(s, a).value; i < |t.workers| && t.workers[i].z == s.workers[i].z
  {
    match a
    case WorkerMoves(_) =>
    case ZParentMoves =>
    case _ =>
  }

  lemma StepKeepsPools(s: State, a: Action)
    requires BothPools(s) && Step(s, a).Some?
    ensures BothPools(Step(s, a).value)
  {
    var t := Step(s, a).value;
    var y :| 0 <= y < |s.workers| && !s.workers[y].z;
    var z :| 0 <= z < |s.workers| && s.workers[z].z;
    StepKeepsPool(s, a, y);
    StepKeepsPool(s, a, z);
  }

  lemma {:induction false} RunKeepsPools(s: State, actions: seq<Action>)
    requires BothPools(s) && Run(s, actions).Some?
    ensures BothPools(Run(s, actions).value)
    decreases |actions|
  {
    if actions != [] {
      var last := |actions| - 1;
      RunKeepsPools(s, actions[..last]);
      StepKeepsPools(Run(s, actions[..last]).value, actions[last]);
    }
  }

  lemma AllAnswered(t: State)
    requires Conserved(t)
    requires AllHome(t) && t.yParent == Listening && t.pipeY == [] && t.pipeZ == [] && t.zParent == Reading
    ensures multiset(Subjects(t.replies)) == multiset(t.received)
    ensures |t.replies| == |t.received|
  {
    forall x
      ensures multiset(Subjects(t.replies))[x] == multiset(t.received)[x]
    {
      SubjectsTally(t.replies, x);
      TallyIsMultiplicity(Subjects(t.replies), x);
      TallyIsMultiplicity(t.received, x);
      EmptyTotal(t, Equals(x));
      assert Pending(t, x) + Total(t, Equals(x)) == Tally(t.received, Same(x));
    }
    assert multiset(Subjects(t.replies)) == multiset(t.received);
    SubjectsTally(t.replies, t.slot);
    assert |Subjects(t.replies)| == |multiset(Subjects(t.replies))|;
    assert |t.received| == |multiset(t.received)|;
  }

  /**
   When nothing is left to do, every request has been answered exactly once, the shared counters add up
   to the requests received, and those of Z to the requests forwarded.
   */
  lemma QuietMeansAnswered(s: State, actions: seq<Action>)
    requires Init(s) && Run(s, actions).Some? && Quiet(Run(s, actions).value)
    ensures var t := Run(s, actions).value;
      && multiset(Subjects(t.replies)) == multiset(t.received)
      && t.inverted == Tally(t.replies, Replied(1)) && t.notInverted == Tally(t.replies, Replied(0))
      && t.inverted + t.notInverted == |t.received|
      && t.zInverted + t.zNotInverted == t.forwarded
  {
    RunKeepsInvariant(s, actions);
    RunKeepsPools(s, actions);
    var t := Run(s, actions).value;
    QuietIsEmpty(t);
    AllAnswered(t);
    HomeTallies(t, Forwarded());
    EmptyTotal(t, Forwarded());
    RepliesSplit(t.replies);
  }

  // ---------- every request is answered after boundedly many steps ----------

  function Down(limit: nat, x: nat): nat {
    if x < limit then limit - x else 0
  }

  /** How many steps the worker is at most from its start. */
  function Rank(w: Worker): nat {
    match w.pc
    case CopyClient => 4298
    case CopySize => 4297
    case CopyCells(i, j) => 8 + Down(64, j) + 66 * Down(64, i)
    case PostCont => 7
    case PostWorking => 6
    case Compute => 5
    case PostShared(_) => 4
    case PostZ(_) => 3
    case Respond(_) => 2
    case WaitWorking => 1
    case _ => 0
  }

  function ParentRank(p: ZParent): nat {
    match p
    case Storing(_) => 4302
    case PostingRead => 4301
    case WaitingCont => 1
    case Reading => 0
  }

  function Work(s: State): nat {
    (if s.yParent.Dispatching? then 4304 else 0) + 7 * |s.pipeY| + 4303 * |s.pipeZ|
    + ParentRank(s.zParent) + 4299 * s.semRead + Tally(s.workers, Rank)
  }

  lemma SquareGrows(x: nat, y: nat)
    requires x <= y
    ensures x * x <= y * y
  {
    assert x * x <= x * y <= y * y;
  }

  lemma SizeBound(slot: Request)
    requires WellFormed(slot)
    ensures slot.size <= 64
  {
    SquareGrows(if slot.size >= 65 then 65 else 0, slot.size);
  }

  lemma RankNext(s: State, w: Worker)
    requires !Blocked(s, w) && s.slot.size <= 64 && Copied(s.slot, w)
    ensures Rank(Next(s, w)) + 7 * |Effect(s, w).pipeY| + 4299 * Effect(s, w).semRead
          < Rank(w) + 7 * |s.pipeY| + 4299 * s.semRead
  {
  }

  lemma EffectFrame(s: State, w: Worker)
    requires !Blocked(s, w)
    ensures var t := Effect(s, w); t.yParent == s.yParent && t.pipeZ == s.pipeZ && t.zParent == s.zParent
  {
  }

  /** Every step but an arrival leaves less to do. */
  lemma StepDecreasesWork(s: State, a: Action)
    requires Shaped(s) && Step(s, a).Some? && !a.Receive?
    ensures Work(Step(s, a).value) < Work(s)
  {
    match a
    case WorkerMoves(k) =>
      var w := s.workers[k];
      SizeBound(s.slot);
      TallyUpdate(s.workers, k, Next(s, w), Rank);
      RankNext(s, w);
      EffectFrame(s, w);
    case ZParentMoves =>
    case Dispatch(_) =>
  }

  lemma StepKeepsReceived(s: State, a: Action)
    requires Step(s, a).Some? && !a.Receive?
    ensures Step(s, a).value.received == s.received
  {
  }

  /** A run takes at most 4305 steps for each request received. */
  lemma {:induction false} RunsAreBounded(s: State, actions: seq<Action>)
    requires Init(s) && Run(s, actions).Some?
    ensures var t := Run(s, actions).value; |actions| + Work(t) <= 4305 * |t.received|
    decreases |actions|
  {
    if actions == [] {
      TallyZero(s.workers, Rank);
    } else {
      var last := |actions| - 1;
      RunsAreBounded(s, actions[..last]);
      RunKeepsInvariant(s, actions[..last]);
      var before := Run(s, actions[..last]).value;
      if !actions[last].Receive? {
        StepDecreasesWork(before, actions[last]);
        StepKeepsReceived(before, actions[last]);
      }
    }
  }

  /** As long as something is left to do, some process can do it. */
  lemma NextMove(t: State) returns (a: Action)
    requires Inv(t) && !Quiet(t)
    ensures Step(t, a).Some? && !a.Receive? && Work(Step(t, a).value) < Work(t)
    ensures Step(t, a).value.received == t.received
  {
    a :| Step(t, a).Some? && !a.Receive?;
    StepDecreasesWork(t, a);
    StepKeepsReceived(t, a);
  }

  lemma RunStep(s: State, actions: seq<Action>, a: Action)
    requires Run(s, actions).Some? && Step(Run(s, actions).value, a).Some?
    ensures Run(s, actions + [a]) == Step(Run(s, actions).value, a)
  {
    var longer := actions + [a];
    assert longer[..|longer| - 1] == actions && longer[|longer| - 1] == a;
  }

  /** Any run goes on, without a new arrival, to a point where nothing is left to do. */
  lemma {:induction false} Settles(s: State, actions: seq<Action>, t: State) returns (longer: seq<Action>, end: State)
    requires Run(s, actions) == Some(t) && Inv(t)
    ensures actions <= longer && Run(s, longer) == Some(end)
    ensures Inv(end) && Quiet(end) && end.received == t.received
    decreases Work(t)
  {
    longer, end := actions, t;
    if !Quiet(t) {
      var a := NextMove(t);
      StepKeepsInvariant(t, a);
      RunStep(s, actions, a);
      longer, end := Settles(s, actions + [a], Step(t, a).value);
    }
  }

  /** From any point of any run on, all requests received so far can be answered, each exactly once. */
  lemma AnswersAll(s: State, actions: seq<Action>) returns (longer: seq<Action>)
    requires Init(s) && Run(s, actions).Some?
    ensures actions <= longer && Run(s, longer).Some?
    ensures var end := Run(s, longer).value; multiset(Subjects(end.replies)) == multiset(end.received)
    ensures Run(s, longer).value.received == Run(s, actions).value.received
  {
    RunKeepsInvariant(s, actions);
    var end;
    longer, end := Settles(s, actions, Run(s, actions).value);
    QuietMeansAnswered(s, longer);
  }
}
