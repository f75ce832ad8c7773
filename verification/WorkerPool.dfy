/**
 The server's worker pool (Final/src/server.c): an acceptor that enqueues descriptors and signals a
 condition variable, and workers that dequeue, sleep once when there is nothing, and try again. Every
 step is one operation on the mutex, the condition variable or the queue. Sleepers may also wake up
 spuriously.
 */
module WorkerPool {
  import opened Common
  import opened Tallies

  datatype WorkerPc =
    | Start
    | TryFirst
    | AboutToSleep
    | Asleep
    | Woken
    | TrySecond
    | Leaving(found: Option<int>)
    | Handling(fd: int)

  datatype AcceptorPc = Accepting | Locking(fd: int) | Enqueuing(fd: int) | Signalling | Unlocking

  datatype Who = Nobody | TheAcceptor | TheWorker(i: nat)

  datatype State = State(
    mutex: Who,
    queue: seq<int>,
    acceptor: AcceptorPc,
    workers: seq<WorkerPc>,
    enqueued: seq<int>,
    dequeued: seq<int>,
    handled: seq<int>)

  datatype Action = Accept(fd: int) | AcceptorMoves | Signal(w: nat) | WorkerMoves(i: nat) | Spurious(i: nat)

  predicate Init(s: State) {
    && s.mutex == Nobody && s.queue == [] && s.acceptor == Accepting
    && (forall i :: 0 <= i < |s.workers| ==> s.workers[i] == Start)
    && s.enqueued == [] && s.dequeued == [] && s.handled == []
  }

  function Goto(s: State, i: nat, pc: WorkerPc): State
    requires i < |s.workers|
  {
    s.(workers := s.workers[i := pc])
  }

  function AcceptorStep(s: State): Option<State> {
    match s.acceptor
    case Locking(fd) =>
      if s.mutex == Nobody then Some(s.(mutex := TheAcceptor, acceptor := Enqueuing(fd))) else None
    case Enqueuing(fd) =>
      Some(s.(queue := s.queue + [fd], enqueued := s.enqueued + [fd], acceptor := Signalling))
    case Signalling =>
      if forall i :: 0 <= i < |s.workers| ==> s.workers[i] != Asleep then Some(s.(acceptor := Unlocking)) else None
    case Unlocking => Some(s.(mutex := Nobody, acceptor := Accepting))
    case Accepting => None
  }

  /** Takes the oldest descriptor, if there is one. */
  function Dequeue(s: State, i: nat, empty: WorkerPc): State
    requires i < |s.workers|
  {
    if s.queue == [] then Goto(s, i, empty)
    else Goto(s, i, Leaving(Some(s.queue[0]))).(queue := s.queue[1..], dequeued := s.dequeued + [s.queue[0]])
  }

  function WorkerStep(s: State, i: nat): Option<State>
    requires i < |s.workers|
  {
    match s.workers[i]
    case Start => if s.mutex == Nobody then Some(Goto(s, i, TryFirst).(mutex := TheWorker(i))) else None
    case TryFirst => Some(Dequeue(s, i, AboutToSleep))
    case AboutToSleep => Some(Goto(s, i, Asleep).(mutex := Nobody))
    case Asleep => None
    case Woken => if s.mutex == Nobody then Some(Goto(s, i, TrySecond).(mutex := TheWorker(i))) else None
    case TrySecond => Some(Dequeue(s, i, Leaving(None)))
    case Leaving(found) =>
      Some(Goto(s, i, if found.Some? then Handling(found.value) else Start).(mutex := Nobody))
    case Handling(fd) => Some(Goto(s, i, Start).(handled := s.handled + [fd]))
  }

  function Step(s: State, a: Action): Option<State> {
    match a
    case Accept(fd) => if s.acceptor == Accepting then Some(s.(acceptor := Locking(fd))) else None
    case AcceptorMoves => AcceptorStep(s)
    case Signal(w) =>
      if s.acceptor == Signalling && w < |s.workers| && s.workers[w] == Asleep
      then Some(Goto(s, w, Woken).(acceptor := Unlocking)) else None
    case WorkerMoves(i) => if i < |s.workers| then WorkerStep(s, i) else None
    case Spurious(i) => if i < |s.workers| && s.workers[i] == Asleep then Some(Goto(s, i, Woken)) else None
  }

  function Run(s: State, actions: seq<Action>): Option<State>
    decreases |actions|
  {
    if actions == [] then Some(s)
    else
      var last := |actions| - 1;
      var before := Run(s, actions[..last]);
      if before.None? then None else Step(before.value, actions[last])
  }

  // ---------- the invariant ----------

  predicate HoldsMutex(pc: WorkerPc) {
    pc.TryFirst? || pc.AboutToSleep? || pc.TrySecond? || pc.Leaving?
  }

  predicate AcceptorHolds(pc: AcceptorPc) {
    pc.Enqueuing? || pc.Signalling? || pc.Unlocking?
  }

  /** Workers that have been woken but have not dequeued since. */
  function Awake(pc: WorkerPc): nat {
    if pc.Woken? || pc.TrySecond? then 1 else 0
  }

  /** The descriptor a worker has taken and not yet handled. */
  function InHand(pc: WorkerPc): multiset<int> {
    match pc
    case Leaving(found) => if found.Some? then multiset{found.value} else multiset{}
    case Handling(fd) => multiset{fd}
    case _ => multiset{}
  }

  ghost predicate MutexOk(s: State) {
    && (forall i: nat :: i < |s.workers| ==> (HoldsMutex(s.workers[i]) <==> s.mutex == TheWorker(i)))
    && (AcceptorHolds(s.acceptor) <==> s.mutex == TheAcceptor)
    && (s.mutex.TheWorker? ==> s.mutex.i < |s.workers|)
  }

  ghost predicate SomeAsleep(s: State) {
    exists i :: 0 <= i < |s.workers| && s.workers[i] == Asleep
  }

  /** While anyone sleeps, every queued descriptor has a woken worker, or a signal still to be sent. */
  ghost predicate NoLostWakeup(s: State) {
    && (SomeAsleep(s) ==> |s.queue| <= Tally(s.workers, Awake) + if s.acceptor.Signalling? then 1 else 0)
    && (forall i :: 0 <= i < |s.workers| && s.workers[i] == AboutToSleep ==> s.queue == [])
  }

  ghost predicate Conserved(s: State) {
    && s.dequeued + s.queue == s.enqueued
    && multiset(s.dequeued) == multiset(s.handled) + Gather(s.workers, InHand)
  }

  ghost predicate Inv(s: State) {
    MutexOk(s) && NoLostWakeup(s) && Conserved(s)
  }

  lemma InitHolds(s: State)
    requires Init(s)
    ensures Inv(s)
  {
    GatherEmpty(s.workers, InHand);
  }

  /** A worker moves from pc to pc' with what it holds, in hand or not, added to the handled ones or not. */
  lemma HandConserves(s: State, i: nat, pc: WorkerPc, taken: seq<int>, done: seq<int>)
    requires i < |s.workers| && multiset(s.dequeued) == multiset(s.handled) + Gather(s.workers, InHand)
    requires InHand(pc) + multiset(done) == InHand(s.workers[i]) + multiset(taken)
    ensures multiset(s.dequeued + taken) == multiset(s.handled + done) + Gather(s.workers[i := pc], InHand)
  {
    var g, g' := Gather(s.workers, InHand), Gather(s.workers[i := pc], InHand);
    GatherUpdate(s.workers, i, pc, InHand);
    var h, was, now, t, d := multiset(s.handled), InHand(s.workers[i]), InHand(pc), multiset(taken), multiset(done);
    forall x
      ensures (h + g + t)[x] == (h + d + g')[x]
    {
      assert (g' + was)[x] == (g + now)[x] && (now + d)[x] == (was + t)[x];
    }
    assert h + g + t == h + d + g';
  }

  lemma HeadMoves(done: seq<int>, queue: seq<int>)
    requires queue != []
    ensures (done + [queue[0]]) + queue[1..] == done + queue
  {
    assert queue == [queue[0]] + queue[1..];
  }

  lemma DequeueConserves(s: State, i: nat, empty: WorkerPc)
    requires i < |s.workers| && Conserved(s) && InHand(s.workers[i]) == InHand(empty) == multiset{}
    ensures Conserved(Dequeue(s, i, empty))
  {
    assert s.handled + [] == s.handled;
    if s.queue == [] {
      HandConserves(s, i, empty, [], []);
      assert s.dequeued + [] == s.dequeued;
    } else {
      HandConserves(s, i, Leaving(Some(s.queue[0])), [s.queue[0]], []);
      HeadMoves(s.dequeued, s.queue);
    }
  }

  lemma WorkerConserves(s: State, i: nat)
    requires Conserved(s) && i < |s.workers| && WorkerStep(s, i).Some?
    ensures Conserved(WorkerStep(s, i).value)
  {
    assert s.dequeued + [] == s.dequeued && s.handled + [] == s.handled;
    match s.workers[i]
    case TryFirst => DequeueConserves(s, i, AboutToSleep);
    case TrySecond => DequeueConserves(s, i, Leaving(None));
    case Handling(fd) => HandConserves(s, i, Start, [], [fd]);
    case Asleep =>
    case _ => HandConserves(s, i, WorkerStep(s, i).value.workers[i], [], []);
  }

  lemma WakingConserves(s: State, w: nat, t: State)
    requires Conserved(s) && w < |s.workers| && s.workers[w] == Asleep
    requires t.workers == s.workers[w := Woken] && t.queue == s.queue
    requires t.enqueued == s.enqueued && t.dequeued == s.dequeued && t.handled == s.handled
    ensures Conserved(t)
  {
    assert s.dequeued + [] == s.dequeued && s.handled + [] == s.handled;
    HandConserves(s, w, Woken, [], []);
  }

  lemma StepConserves(s: State, a: Action)
    requires Conserved(s) && Step(s, a).Some?
    ensures Conserved(Step(s, a).value)
  {
    match a
    case WorkerMoves(i) => WorkerConserves(s, i);
    case Signal(w) => WakingConserves(s, w, Step(s, a).value);
    case Spurious(w) => WakingConserves(s, w, Step(s, a).value);
    case _ =>
  }

  lemma StepKeepsMutex(s: State, a: Action)
    requires MutexOk(s) && Step(s, a).Some?
    ensures MutexOk(Step(s, a).value)
  {
  }

  /** A worker that dequeues takes a request off the queue as it stops being woken; others change neither. */
  lemma AwakeNext(s: State, i: nat)
    requires i < |s.workers| && WorkerStep(s, i).Some?
    ensures var t := WorkerStep(s, i).value;
      && t.workers == s.workers[i := t.workers[i]] && t.acceptor == s.acceptor && |t.queue| <= |s.queue|
      && (s.queue != [] ==> |t.queue| + Awake(s.workers[i]) <= |s.queue| + Awake(t.workers[i]))
      && (s.workers[i] != AboutToSleep ==> t.workers[i] != Asleep)
      && (t.workers[i] == AboutToSleep ==> t.queue == [])
  {
  }

  lemma WorkerKeepsWakeups(s: State, i: nat)
    requires MutexOk(s) && NoLostWakeup(s) && i < |s.workers| && WorkerStep(s, i).Some?
    ensures NoLostWakeup(WorkerStep(s, i).value)
  {
    var t := WorkerStep(s, i).value;
    AwakeNext(s, i);
    TallyUpdate(s.workers, i, t.workers[i], Awake);
    if s.workers[i] != AboutToSleep && SomeAsleep(t) {
      var j :| 0 <= j < |t.workers| && t.workers[j] == Asleep;
      assert s.workers[j] == Asleep;
    }
  }

  lemma StepKeepsWakeups(s: State, a: Action)
    requires MutexOk(s) && NoLostWakeup(s) && Step(s, a).Some?
    ensures NoLostWakeup(Step(s, a).value)
  {
    var t := Step(s, a).value;
    match a
    case WorkerMoves(i) => WorkerKeepsWakeups(s, i);
    case Signal(w) => TallyUpdate(s.workers, w, Woken, Awake);
    case Spurious(w) => TallyUpdate(s.workers, w, Woken, Awake);
    case _ => assert t.workers == s.workers;
  }

  lemma {:induction false} RunKeepsInvariant(s: State, actions: seq<Action>)
    requires Init(s) && Run(s, actions).Some?
    ensures Inv(Run(s, actions).value)
    decreases |actions|
  {
    if actions == [] {
      InitHolds(s);
    } else {
      var last := |actions| - 1;
      RunKeepsInvariant(s, actions[..last]);
      var before := Run(s, actions[..last]).value;
      StepConserves(before, actions[last]);
      StepKeepsMutex(before, actions[last]);
      StepKeepsWakeups(before, actions[last]);
    }
  }

  // ---------- what follows ----------

  /** Descriptors leave the queue in the order they entered it, each at most once. */
  lemma FirstInFirstOut(s: State, actions: seq<Action>)
    requires Init(s) && Run(s, actions).Some?
    ensures var t := Run(s, actions).value; t.dequeued + t.queue == t.enqueued
  {
    RunKeepsInvariant(s, actions);
  }

  lemma {:induction false} RunKeepsWorkers(s: State, actions: seq<Action>)
    requires Run(s, actions).Some?
    ensures |Run(s, actions).value.workers| == |s.workers|
    decreases |actions|
  {
    if actions != [] {
      RunKeepsWorkers(s, actions[..|actions| - 1]);
    }
  }

  /**
   While anyone sleeps there are at least as many woken workers as queued requests, but for a signal still
   to be sent. So requests never lie in the queue while all workers sleep, except before that signal.
   */
  lemma NeverAllAsleep(s: State, actions: seq<Action>)
    requires Init(s) && |s.workers| > 0 && Run(s, actions).Some?
    ensures var t := Run(s, actions).value;
      && (t.queue != [] && t.acceptor != Signalling ==> exists i :: 0 <= i < |t.workers| && t.workers[i] != Asleep)
      && (SomeAsleep(t) ==> |t.queue| <= Tally(t.workers, Awake) + if t.acceptor.Signalling? then 1 else 0)
  {
    RunKeepsInvariant(s, actions);
    RunKeepsWorkers(s, actions);
    var t := Run(s, actions).value;
    if forall i :: 0 <= i < |t.workers| ==> t.workers[i] == Asleep {
      TallyZero(t.workers, Awake);
      assert t.workers[0] == Asleep;
    }
  }

  /** No process can move on its own: only a new connection or a spurious wakeup could happen next. */
  ghost predicate Quiet(s: State) {
    && Step(s, AcceptorMoves).None?
    && (forall w :: Step(s, Signal(w)).None?)
    && (forall i :: Step(s, WorkerMoves(i)).None?)
  }

  lemma HolderCanMove(s: State, i: nat)
    requires i < |s.workers| && HoldsMutex(s.workers[i])
    ensures !Quiet(s)
  {
    assert Step(s, WorkerMoves(i)).Some?;
  }

  lemma AcceptorCanMove(s: State)
    requires AcceptorHolds(s.acceptor)
    ensures !Quiet(s)
  {
    if s.acceptor.Signalling? && SomeAsleep(s) {
      var w :| 0 <= w < |s.workers| && s.workers[w] == Asleep;
      assert Step(s, Signal(w)).Some?;
    }
  }

  /**
   The pool never stalls: when nothing can move, the queue is empty, every worker sleeps, and every
   descriptor that was enqueued has been handled exactly once.
   */
  lemma QuietMeansDone(s: State, actions: seq<Action>)
    requires Init(s) && |s.workers| > 0 && Run(s, actions).Some? && Quiet(Run(s, actions).value)
    ensures var t := Run(s, actions).value;
      && t.queue == [] && t.acceptor == Accepting
      && (forall i :: 0 <= i < |t.workers| ==> t.workers[i] == Asleep)
      && multiset(t.handled) == multiset(t.enqueued)
  {
    RunKeepsInvariant(s, actions);
    RunKeepsWorkers(s, actions);
    var t := Run(s, actions).value;
    assert t.mutex == Nobody by {
      if t.mutex.TheWorker? {
        HolderCanMove(t, t.mutex.i);
      } else if t.mutex.TheAcceptor? {
        AcceptorCanMove(t);
      }
    }
    forall i | 0 <= i < |t.workers|
      ensures t.workers[i] == Asleep
    {
      assert Step(t, WorkerMoves(i)).None?;
    }
    assert t.workers[0] == Asleep;
    TallyZero(t.workers, Awake);
    GatherEmpty(t.workers, InHand);
    assert t.dequeued == t.enqueued;
  }

  // ---------- a quiet state is reached ----------

  /** How many steps the worker takes at most until it sleeps, if it finds nothing. */
  function Rank(pc: WorkerPc): nat {
    match pc
    case Woken => 6
    case TrySecond => 5
    case Leaving(found) => if found.Some? then 5 else 4
    case Handling(_) => 4
    case Start => 3
    case TryFirst => 2
    case AboutToSleep => 1
    case Asleep => 0
  }

  function AcceptorRank(pc: AcceptorPc): nat {
    match pc
    case Locking(_) => 14
    case Enqueuing(_) => 13
    case Signalling => 8
    case Unlocking => 1
    case Accepting => 0
  }

  function Work(s: State): nat {
    4 * |s.queue| + AcceptorRank(s.acceptor) + Tally(s.workers, Rank)
  }

  /** What a connection or a spurious wakeup adds to the work. */
  function Added(a: Action): nat {
    match a
    case Accept(_) => 15
    case Spurious(_) => 7
    case _ => 0
  }

  function AddedBy(actions: seq<Action>): nat {
    Tally(actions, Added)
  }

  lemma WorkerRankDecreases(s: State, i: nat)
    requires i < |s.workers| && WorkerStep(s, i).Some?
    ensures var t := WorkerStep(s, i).value;
      && t.workers == s.workers[i := t.workers[i]] && t.acceptor == s.acceptor
      && Rank(t.workers[i]) + 4 * |t.queue| < Rank(s.workers[i]) + 4 * |s.queue|
  {
  }

  lemma WorkerWorkDecreases(s: State, i: nat)
    requires i < |s.workers| && WorkerStep(s, i).Some?
    ensures Work(WorkerStep(s, i).value) < Work(s)
  {
    var t := WorkerStep(s, i).value;
    TallyUpdate(s.workers, i, t.workers[i], Rank);
    WorkerRankDecreases(s, i);
  }

  /** Every action leaves less to do, but for what a connection or a spurious wakeup adds. */
  lemma StepDecreasesWork(s: State, a: Action)
    requires Step(s, a).Some?
    ensures Work(Step(s, a).value) < Work(s) + Added(a)
  {
    match a
    case WorkerMoves(i) => WorkerWorkDecreases(s, i);
    case Signal(w) => TallyUpdate(s.workers, w, Woken, Rank);
    case Spurious(w) => TallyUpdate(s.workers, w, Woken, Rank);
    case AcceptorMoves =>
    case Accept(_) =>
  }

  lemma {:induction false} StartRanks(workers: seq<WorkerPc>)
    requires forall i :: 0 <= i < |workers| ==> workers[i] == Start
    ensures Tally(workers, Rank) == 3 * |workers|
    decreases |workers|
  {
    if workers != [] {
      assert forall i :: 0 <= i < |workers| - 1 ==> workers[1..][i] == workers[i + 1];
      StartRanks(workers[1..]);
    }
  }

  /** So between connections and spurious wakeups only boundedly much can happen. */
  lemma {:induction false} RunsAreBounded(s: State, actions: seq<Action>)
    requires Init(s) && Run(s, actions).Some?
    ensures |actions| + Work(Run(s, actions).value) <= 3 * |s.workers| + AddedBy(actions)
    decreases |actions|
  {
    if actions == [] {
      StartRanks(s.workers);
    } else {
      var last := |actions| - 1;
      RunsAreBounded(s, actions[..last]);
      StepDecreasesWork(Run(s, actions[..last]).value, actions[last]);
      TallyAppend(actions[..last], actions[last], Added);
      assert actions == actions[..last] + [actions[last]];
    }
  }

  predicate OnItsOwn(a: Action) {
    !a.Accept? && !a.Spurious?
  }

  /** As long as the pool is not quiet, some process can move on its own. */
  lemma NextMove(t: State) returns (a: Action)
    requires !Quiet(t)
    ensures OnItsOwn(a) && Step(t, a).Some? && Work(Step(t, a).value) < Work(t)
  {
    a :| Step(t, a).Some? && OnItsOwn(a);
    StepDecreasesWork(t, a);
  }

  lemma RunStep(s: State, actions: seq<Action>, t: State, a: Action)
    requires Run(s, actions) == Some(t)
    ensures Run(s, actions + [a]) == Step(t, a)
  {
    var longer := actions + [a];
    assert longer[..|longer| - 1] == actions && longer[|longer| - 1] == a;
  }

  /** Any run goes on to a quiet state without a further connection or spurious wakeup. */
  lemma {:induction false} Settles(s: State, actions: seq<Action>, t: State) returns (longer: seq<Action>, end: State)
    requires Run(s, actions) == Some(t)
    ensures actions <= longer && Run(s, longer) == Some(end) && Quiet(end)
    ensures forall i :: |actions| <= i < |longer| ==> OnItsOwn(longer[i])
    decreases Work(t)
  {
    longer, end := actions, t;
    if !Quiet(t) {
      var a := NextMove(t);
      RunStep(s, actions, t, a);
      longer, end := Settles(s, actions + [a], Step(t, a).value);
      assert longer[|actions|] == (actions + [a])[|actions|] == a;
    }
  }

  /** So every descriptor enqueued can be handled, from any point of any run on. */
  lemma HandlesAll(s: State, actions: seq<Action>) returns (longer: seq<Action>)
    requires Init(s) && |s.workers| > 0 && Run(s, actions).Some?
    ensures actions <= longer && Run(s, longer).Some?
    ensures forall i :: |actions| <= i < |longer| ==> OnItsOwn(longer[i])
    ensures multiset(Run(s, longer).value.handled) == multiset(Run(s, longer).value.enqueued)
  {
    var end;
    longer, end := Settles(s, actions, Run(s, actions).value);
    QuietMeansDone(s, longer);
  }

  // ---------- a worker sleeps at most once a turn ----------

  /** Behind the wakeup in the turn of a worker. */
  predicate AfterWaking(pc: WorkerPc) {
    pc.Woken? || pc.TrySecond? || pc.Leaving? || pc.Handling?
  }

  lemma StepStaysAwake(s: State, a: Action, i: nat)
    requires i < |s.workers| && AfterWaking(s.workers[i]) && Step(s, a).Some?
    ensures var w := Step(s, a).value.workers; |w| == |s.workers| && (AfterWaking(w[i]) || w[i] == Start)
  {
    match a
    case WorkerMoves(k) =>
    case _ =>
  }

  /** After these actions worker i stands at the start of a turn. */
  predicate AtStart(s: State, actions: seq<Action>, i: nat) {
    var r := Run(s, actions);
    r.Some? && i < |r.value.workers| && r.value.workers[i] == Start
  }

  /** A worker that has been woken does not sleep again, not even on an empty queue, before it starts a new turn. */
  lemma {:induction false} SleepsOnceATurn(s: State, actions: seq<Action>, i: nat)
    requires i < |s.workers| && AfterWaking(s.workers[i]) && Run(s, actions).Some?
    requires forall k :: 0 <= k <= |actions| ==> !AtStart(s, actions[..k], i)
    ensures i < |Run(s, actions).value.workers| && AfterWaking(Run(s, actions).value.workers[i])
    decreases |actions|
  {
    if actions != [] {
      var last := |actions| - 1;
      var front := actions[..last];
      forall k | 0 <= k <= last
        ensures front[..k] == actions[..k]
      {
      }
      SleepsOnceATurn(s, front, i);
      StepStaysAwake(Run(s, front).value, actions[last], i);
      assert actions[..last + 1] == actions;
      assert !AtStart(s, actions, i);
    }
  }
}
