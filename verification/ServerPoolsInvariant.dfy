/** The invariant of the two pools: the slot handshake, the semaphores, and where every request is. */
module ServerPoolsInvariant {
  import opened Common
  import opened MatrixMath
  import opened ServerPools
  import opened Tallies

  // ---------- the handshake over the slot ----------

  predicate IsCopying(pc: Pc) {
    pc.CopyClient? || pc.CopySize? || pc.CopyCells? || pc.PostCont?
  }

  function Copying(w: Worker): nat {
    if IsCopying(w.pc) then 1 else 0
  }

  /** Exactly one of: a post of either semaphore, a worker that copies, the parent outside the handshake. */
  ghost predicate Handshake(s: State) {
    s.semRead + s.semCont + Tally(s.workers, Copying) + (if s.zParent != WaitingCont then 1 else 0) == 1
  }

  /** The slot holds a request that no worker has taken over. */
  predicate SlotFull(s: State) {
    s.zParent == PostingRead || (s.zParent == WaitingCont && s.semCont == 0)
  }

  // ---------- what each worker has ----------

  /** The worker answers for the request in its local copy. */
  predicate HasRequest(pc: Pc) {
    pc.PostWorking? || pc.Compute? || pc.PostShared? || pc.PostZ? || pc.Respond?
  }

  predicate PrefixSame(a: seq<int>, b: seq<int>, n: int) {
    forall x :: 0 <= x < n && x < |a| && x < |b| ==> a[x] == b[x]
  }

  /** The copy of the slot is right as far as it has come. */
  predicate Copied(slot: Request, w: Worker) {
    match w.pc
    case CopySize => w.local.client == slot.client
    case CopyCells(i, j) =>
      && w.local.client == slot.client && w.local.size == slot.size
      && i <= slot.size && j <= slot.size && (i == slot.size ==> j == 0)
      && PrefixSame(slot.cells, w.local.cells, i * slot.size + j)
    case PostCont =>
      && w.local.client == slot.client && w.local.size == slot.size
      && PrefixSame(slot.cells, w.local.cells, slot.size * slot.size)
    case _ => true
  }

  /** The program counter belongs to the worker's pool, and any result is that of its own request. */
  ghost predicate WorkerOk(w: Worker) {
    && |w.local.cells| == CELLS
    && (if w.z then !w.pc.ReadPipe? else !IsCopying(w.pc) && !w.pc.WaitRead? && !w.pc.PostZ?)
    && (HasRequest(w.pc) ==> WellFormed(w.local))
    && (w.pc.PostShared? || w.pc.PostZ? || w.pc.Respond? ==> w.pc.result == Verdict(w.local))
  }

  ghost predicate ReplyOk(r: Reply) {
    r.client == r.of.client && |r.of.cells| == r.of.size * r.of.size && r.result == Verdict(r.of)
  }

  ghost predicate Shaped(s: State) {
    && (forall r :: r in s.pipeY ==> WellFormed(r))
    && (forall r :: r in s.pipeZ ==> WellFormed(r))
    && (s.yParent.Dispatching? ==> WellFormed(s.yParent.request))
    && (s.zParent.Storing? ==> WellFormed(s.zParent.request))
    && WellFormed(s.slot)
    && (forall i :: 0 <= i < |s.workers| ==> WorkerOk(s.workers[i]) && Copied(s.slot, s.workers[i]))
    && (forall i :: 0 <= i < |s.replies| ==> ReplyOk(s.replies[i]))
  }

  // ---------- the counting semaphores ----------

  predicate IsBusy(pc: Pc) {
    pc.Compute? || pc.PostShared? || pc.PostZ? || pc.Respond? || pc.WaitWorking?
  }

  function Busy(z: bool): Worker -> nat {
    (w: Worker) => if w.z == z && IsBusy(w.pc) then 1 else 0
  }

  /** Posted on the shared counter for this result, and not yet replied. */
  function Counted(result: int): Worker -> nat {
    (w: Worker) => if (w.pc.PostZ? || w.pc.Respond?) && w.pc.result == result then 1 else 0
  }

  function CountedZ(result: int): Worker -> nat {
    (w: Worker) => if w.z && w.pc.Respond? && w.pc.result == result then 1 else 0
  }

  function Replied(result: int): Reply -> nat {
    (r: Reply) => if r.result == result then 1 else 0
  }

  function RepliedZ(result: int): Reply -> nat {
    (r: Reply) => if r.z && r.result == result then 1 else 0
  }

  ghost predicate Counters(s: State) {
    && s.workingY == Tally(s.workers, Busy(false))
    && s.workingZ == Tally(s.workers, Busy(true))
    && s.inverted == Tally(s.workers, Counted(1)) + Tally(s.replies, Replied(1))
    && s.notInverted == Tally(s.workers, Counted(0)) + Tally(s.replies, Replied(0))
    && s.zInverted == Tally(s.workers, CountedZ(1)) + Tally(s.replies, RepliedZ(1))
    && s.zNotInverted == Tally(s.workers, CountedZ(0)) + Tally(s.replies, RepliedZ(0))
  }

  // ---------- where the requests are ----------

  /** Weighs a request by its meaningful part and by whether it has been forwarded. */
  type Measure = (Request, bool) -> nat

  function Piped(f: Measure, z: bool): Request -> nat {
    (r: Request) => f(Clean(r), z)
  }

  function Weight(f: Measure, w: Worker): nat {
    if HasRequest(w.pc) then f(Clean(w.local), w.z) else 0
  }

  function Held(f: Measure): Worker -> nat {
    (w: Worker) => Weight(f, w)
  }

  function Answered(f: Measure): Reply -> nat {
    (r: Reply) => f(r.of, r.z)
  }

  /** The weight of the requests that some pool has but no worker: in pipes, with Z, in the slot, answered. */
  function Elsewhere(s: State, f: Measure): nat {
    Tally(s.pipeY, Piped(f, false)) + Tally(s.pipeZ, Piped(f, true))
    + (if s.zParent.Storing? then f(Clean(s.zParent.request), true) else 0)
    + (if SlotFull(s) then f(Clean(s.slot), true) else 0)
    + Tally(s.replies, Answered(f))
  }

  /** The weight of all requests between server Y's choice of a pool and, inclusively, their answers. */
  function Total(s: State, f: Measure): nat {
    Elsewhere(s, f) + Tally(s.workers, Held(f))
  }

  function Equals(x: Request): Measure {
    (r: Request, z: bool) => if r == x then 1 else 0
  }

  function Forwarded(): Measure {
    (r: Request, z: bool) => if z then 1 else 0
  }

  function Same(x: Request): Request -> nat {
    (r: Request) => if r == x then 1 else 0
  }

  /** The copies of x among the requests still to be given to a pool. */
  function Pending(s: State, x: Request): nat {
    if s.yParent.Dispatching? && Clean(s.yParent.request) == x then 1 else 0
  }

  /** Every request received is in exactly one place, and so is every forwarded one. */
  ghost predicate Conserved(s: State) {
    && (forall x :: Pending(s, x) + Total(s, Equals(x)) == Tally(s.received, Same(x)))
    && Total(s, Forwarded()) == s.forwarded
  }

  ghost predicate Inv(s: State) {
    Shaped(s) && Handshake(s) && Counters(s) && Conserved(s)
  }

  /** Every worker is back where it started. */
  predicate AllHome(s: State) {
    forall i :: 0 <= i < |s.workers| ==> s.workers[i].pc == StartPc(s.workers[i].z)
  }

  lemma HomeTallies(s: State, f: Measure)
    requires AllHome(s)
    ensures Tally(s.workers, Copying) == 0 && Tally(s.workers, Held(f)) == 0
    ensures Tally(s.workers, Counted(1)) == 0 && Tally(s.workers, Counted(0)) == 0
    ensures Tally(s.workers, Busy(false)) == 0 && Tally(s.workers, Busy(true)) == 0
    ensures Tally(s.workers, CountedZ(1)) == 0 && Tally(s.workers, CountedZ(0)) == 0
  {
    TallyZero(s.workers, Copying);
    TallyZero(s.workers, Held(f));
    TallyZero(s.workers, Counted(1));
    TallyZero(s.workers, Counted(0));
    TallyZero(s.workers, Busy(false));
    TallyZero(s.workers, Busy(true));
    TallyZero(s.workers, CountedZ(1));
    TallyZero(s.workers, CountedZ(0));
  }

  lemma InitShaped(s: State)
    requires Init(s)
    ensures Shaped(s) && AllHome(s)
  {
  }

  lemma InitCounters(s: State)
    requires Init(s) && AllHome(s)
    ensures Handshake(s) && Counters(s)
  {
    HomeTallies(s, Forwarded());
  }

  lemma InitTotal(s: State, f: Measure)
    requires Init(s) && AllHome(s)
    ensures Total(s, f) == 0
  {
    HomeTallies(s, f);
  }

  lemma InitConserved(s: State)
    requires Init(s) && AllHome(s)
    ensures Conserved(s)
  {
    InitTotal(s, Forwarded());
    forall x
      ensures Pending(s, x) + Total(s, Equals(x)) == Tally(s.received, Same(x))
    {
      InitTotal(s, Equals(x));
    }
  }

  lemma InitHolds(s: State)
    requires Init(s)
    ensures Inv(s)
  {
    InitShaped(s);
    InitCounters(s);
    InitConserved(s);
  }

  // ---------- the handshake ----------

  /** While a worker copies, the parent waits and neither semaphore is posted. */
  lemma CopyingExcludes(s: State, k: nat)
    requires Handshake(s) && k < |s.workers| && IsCopying(s.workers[k].pc)
    ensures s.zParent == WaitingCont && s.semRead == 0 && s.semCont == 0
    ensures forall j: nat :: j < |s.workers| && IsCopying(s.workers[j].pc) ==> j == k
  {
    TallyUpdate(s.workers, k, s.workers[k], Copying);
    forall j: nat | j < |s.workers| && IsCopying(s.workers[j].pc)
      ensures j == k
    {
      if j < k {
        TallyOne(s.workers, Copying, j, k);
      } else if k < j {
        TallyOne(s.workers, Copying, k, j);
      }
    }
  }

  lemma CopyingNext(s: State, w: Worker)
    requires !Blocked(s, w)
    ensures var t := Effect(s, w);
      && t.zParent == s.zParent
      && t.semRead + t.semCont + Copying(Next(s, w)) == s.semRead + s.semCont + Copying(w)
  {
  }

  lemma WorkerHandshake(s: State, k: nat)
    requires Handshake(s) && k < |s.workers| && WorkerStep(s, k).Some?
    ensures Handshake(WorkerStep(s, k).value)
  {
    TallyUpdate(s.workers, k, Next(s, s.workers[k]), Copying);
    CopyingNext(s, s.workers[k]);
  }

  lemma HandshakeStep(s: State, a: Action)
    requires Handshake(s) && Step(s, a).Some?
    ensures Handshake(Step(s, a).value)
  {
    match a
    case WorkerMoves(k) => WorkerHandshake(s, k);
    case ZParentMoves =>
    case Dispatch(_) =>
    case Receive(_) =>
  }

  // ---------- the copy ----------

  /** One cell copied. */
  lemma CellCopied(slot: Request, w: Worker)
    requires w.pc.CopyCells? && WorkerOk(w) && Copied(slot, w) && WellFormed(slot)
    requires w.pc.i < slot.size && w.pc.j < slot.size
    ensures !Outside(slot, w)
    ensures WorkerOk(CopyNext(slot, w)) && Copied(slot, CopyNext(slot, w))
  {
    InRow(slot.size, w.pc.i, w.pc.j);
  }

  /** A row copied, or all of them. */
  lemma RowCopied(slot: Request, w: Worker)
    requires w.pc.CopyCells? && WorkerOk(w) && Copied(slot, w) && WellFormed(slot)
    requires w.pc.i >= slot.size || w.pc.j >= slot.size
    ensures !Outside(slot, w)
    ensures WorkerOk(CopyNext(slot, w)) && Copied(slot, CopyNext(slot, w))
  {
    assert (w.pc.i + 1) * slot.size == w.pc.i * slot.size + slot.size;
  }

  lemma CopyNextKeeps(slot: Request, w: Worker)
    requires w.pc.CopyCells? && WorkerOk(w) && Copied(slot, w) && WellFormed(slot)
    ensures !Outside(slot, w)
    ensures WorkerOk(CopyNext(slot, w)) && Copied(slot, CopyNext(slot, w))
  {
    if w.pc.i < slot.size && w.pc.j < slot.size {
      CellCopied(slot, w);
    } else {
      RowCopied(slot, w);
    }
  }

  /** The finished copy is the request in the slot. */
  lemma CopyIsWhole(slot: Request, w: Worker)
    requires WellFormed(slot) && WorkerOk(w) && w.pc.PostCont? && Copied(slot, w)
    ensures WellFormed(w.local) && Clean(w.local) == Clean(slot)
  {
  }

  // ---------- shape ----------

  /** The unused part of the array does not count. */
  lemma VerdictOfClean(r: Request)
    requires WellFormed(r)
    ensures Verdict(Clean(r)) == Verdict(r)
  {
    var c := Clean(r);
    forall i: nat, j: nat | i < r.size && j < r.size
      ensures Rows(c.cells, r.size)[i][j] == Rows(r.cells, r.size)[i][j]
    {
      InRow(r.size, i, j);
    }
    assert Rows(c.cells, r.size) == Rows(r.cells, r.size) by {
      forall i: nat | i < r.size
        ensures Rows(c.cells, r.size)[i] == Rows(r.cells, r.size)[i]
      {
      }
    }
  }

  lemma NextOk(s: State, w: Worker)
    requires !Blocked(s, w) && WellFormed(s.slot) && WorkerOk(w) && Copied(s.slot, w)
    requires forall r :: r in s.pipeY ==> WellFormed(r)
    ensures WorkerOk(Next(s, w)) && Copied(s.slot, Next(s, w))
  {
    match w.pc
    case ReadPipe => assert s.pipeY[0] in s.pipeY;
    case CopyCells(_, _) => CopyNextKeeps(s.slot, w);
    case PostCont => CopyIsWhole(s.slot, w);
    case _ =>
  }

  /** A worker's effect leaves the slot and the parents alone, and spoils no pipe and no reply. */
  lemma EffectShaped(s: State, w: Worker)
    requires !Blocked(s, w) && WorkerOk(w)
    requires forall r :: r in s.pipeY ==> WellFormed(r)
    requires forall i :: 0 <= i < |s.replies| ==> ReplyOk(s.replies[i])
    ensures var t := Effect(s, w);
      && t.pipeZ == s.pipeZ && t.yParent == s.yParent && t.zParent == s.zParent && t.slot == s.slot
      && (forall r :: r in t.pipeY ==> WellFormed(r))
      && (forall i :: 0 <= i < |t.replies| ==> ReplyOk(t.replies[i]))
  {
    if w.pc.Respond? {
      VerdictOfClean(w.local);
    }
    if w.pc.ReadPipe? {
      assert forall r :: r in s.pipeY[1..] ==> r in s.pipeY;
    }
  }

  lemma WorkerShaped(s: State, k: nat)
    requires Shaped(s) && k < |s.workers| && WorkerStep(s, k).Some?
    ensures Shaped(WorkerStep(s, k).value)
  {
    NextOk(s, s.workers[k]);
    EffectShaped(s, s.workers[k]);
  }

  lemma ZParentShaped(s: State)
    requires Shaped(s) && Handshake(s) && ZParentStep(s).Some?
    ensures Shaped(ZParentStep(s).value)
  {
    if s.zParent.Storing? {
      TallyZero(s.workers, Copying);
    }
    if s.zParent.Reading? {
      assert s.pipeZ[0] in s.pipeZ && forall r :: r in s.pipeZ[1..] ==> r in s.pipeZ;
    }
  }

  lemma ShapedStep(s: State, a: Action)
    requires Shaped(s) && Handshake(s) && Step(s, a).Some?
    ensures Shaped(Step(s, a).value)
  {
    match a
    case WorkerMoves(k) => WorkerShaped(s, k);
    case ZParentMoves => ZParentShaped(s);
    case _ =>
  }

  // ---------- counters ----------

  lemma BusyNext(s: State, w: Worker, z: bool)
    requires !Blocked(s, w) && WorkerOk(w)
    ensures Busy(z)(Next(s, w)) + (if w.z == z && w.pc.WaitWorking? then 1 else 0)
         == Busy(z)(w) + (if w.z == z && w.pc.PostWorking? then 1 else 0)
    ensures var t := Effect(s, w);
      (if z then t.workingZ else t.workingY) + (if w.z == z && w.pc.WaitWorking? then 1 else 0)
      == (if z then s.workingZ else s.workingY) + (if w.z == z && w.pc.PostWorking? then 1 else 0)
  {
  }

  lemma WorkingStep(s: State, k: nat, z: bool)
    requires k < |s.workers| && WorkerStep(s, k).Some? && WorkerOk(s.workers[k])
    requires (if z then s.workingZ else s.workingY) == Tally(s.workers, Busy(z))
    ensures var t := WorkerStep(s, k).value; (if z then t.workingZ else t.workingY) == Tally(t.workers, Busy(z))
  {
    TallyUpdate(s.workers, k, Next(s, s.workers[k]), Busy(z));
    BusyNext(s, s.workers[k], z);
  }

  /** Whether the worker is about to reply with this result. */
  function Replying(w: Worker, result: int): nat {
    if w.pc.Respond? && w.pc.result == result then 1 else 0
  }

  lemma RepliesNext(s: State, w: Worker, result: int)
    requires !Blocked(s, w)
    ensures Tally(Effect(s, w).replies, Replied(result)) == Tally(s.replies, Replied(result)) + Replying(w, result)
    ensures Tally(Effect(s, w).replies, RepliedZ(result))
         == Tally(s.replies, RepliedZ(result)) + if w.z then Replying(w, result) else 0
  {
    if w.pc.Respond? {
      var reply := Reply(w.local.client, w.pc.result, w.number, w.z, Clean(w.local));
      TallyAppend(s.replies, reply, Replied(result));
      TallyAppend(s.replies, reply, RepliedZ(result));
    }
  }

  lemma CountedNext(s: State, w: Worker, result: int)
    requires !Blocked(s, w) && WorkerOk(w)
    ensures Counted(result)(Next(s, w)) + Replying(w, result)
         == Counted(result)(w) + if w.pc.PostShared? && w.pc.result == result then 1 else 0
    ensures CountedZ(result)(Next(s, w)) + (if w.z then Replying(w, result) else 0)
         == CountedZ(result)(w) + if w.pc.PostZ? && w.pc.result == result then 1 else 0
  {
  }

  /** Each result is 1 or 0, so a post goes to the one counter or the other. */
  lemma PostsNext(s: State, w: Worker)
    requires !Blocked(s, w) && WorkerOk(w)
    ensures var t := Effect(s, w);
      && t.inverted == s.inverted + (if w.pc.PostShared? && w.pc.result == 1 then 1 else 0)
      && t.notInverted == s.notInverted + (if w.pc.PostShared? && w.pc.result == 0 then 1 else 0)
      && t.zInverted == s.zInverted + (if w.pc.PostZ? && w.pc.result == 1 then 1 else 0)
      && t.zNotInverted == s.zNotInverted + (if w.pc.PostZ? && w.pc.result == 0 then 1 else 0)
  {
  }

  lemma CountedStep(s: State, k: nat, result: int)
    requires k < |s.workers| && WorkerStep(s, k).Some? && WorkerOk(s.workers[k])
    ensures var t := WorkerStep(s, k).value; var w := s.workers[k];
      && Tally(t.workers, Counted(result)) + Tally(t.replies, Replied(result))
         == Tally(s.workers, Counted(result)) + Tally(s.replies, Replied(result))
          + (if w.pc.PostShared? && w.pc.result == result then 1 else 0)
      && Tally(t.workers, CountedZ(result)) + Tally(t.replies, RepliedZ(result))
         == Tally(s.workers, CountedZ(result)) + Tally(s.replies, RepliedZ(result))
          + (if w.pc.PostZ? && w.pc.result == result then 1 else 0)
  {
    var w := s.workers[k];
    TallyUpdate(s.workers, k, Next(s, w), Counted(result));
    TallyUpdate(s.workers, k, Next(s, w), CountedZ(result));
    RepliesNext(s, w, result);
    CountedNext(s, w, result);
  }

  lemma PostedStep(s: State, k: nat)
    requires Shaped(s) && Counters(s) && k < |s.workers| && WorkerStep(s, k).Some?
    ensures var t := WorkerStep(s, k).value;
      && t.inverted == Tally(t.workers, Counted(1)) + Tally(t.replies, Replied(1))
      && t.notInverted == Tally(t.workers, Counted(0)) + Tally(t.replies, Replied(0))
      && t.zInverted == Tally(t.workers, CountedZ(1)) + Tally(t.replies, RepliedZ(1))
      && t.zNotInverted == Tally(t.workers, CountedZ(0)) + Tally(t.replies, RepliedZ(0))
  {
    PostsNext(s, s.workers[k]);
    CountedStep(s, k, 1);
    CountedStep(s, k, 0);
  }

  lemma OthersKeepCounters(s: State, a: Action)
    requires Step(s, a).Some? && !a.WorkerMoves?
    ensures var t := Step(s, a).value;
      && t.workers == s.workers && t.replies == s.replies
      && t.workingY == s.workingY && t.workingZ == s.workingZ
      && t.inverted == s.inverted && t.notInverted == s.notInverted
      && t.zInverted == s.zInverted && t.zNotInverted == s.zNotInverted
  {
  }

  lemma CountersStep(s: State, a: Action)
    requires Shaped(s) && Counters(s) && Step(s, a).Some?
    ensures Counters(Step(s, a).value)
  {
    if a.WorkerMoves? {
      WorkingStep(s, a.i, false);
      WorkingStep(s, a.i, true);
      PostedStep(s, a.i);
    } else {
      OthersKeepCounters(s, a);
    }
  }

  // ---------- conservation ----------

  /** What the worker takes over in its step. */
  function Taken(s: State, w: Worker, f: Measure): nat
    requires !Blocked(s, w)
  {
    if w.pc.ReadPipe? then f(Clean(s.pipeY[0]), false)
    else if w.pc.PostCont? then f(Clean(s.slot), true) else 0
  }

  function Given(w: Worker, f: Measure): nat {
    if w.pc.Respond? then f(Clean(w.local), w.z) else 0
  }

  lemma WeightNext(s: State, w: Worker, f: Measure)
    requires !Blocked(s, w) && WellFormed(s.slot) && WorkerOk(w) && Copied(s.slot, w)
    ensures Weight(f, Next(s, w)) + Given(w, f) == Weight(f, w) + Taken(s, w, f)
  {
    if w.pc.PostCont? {
      CopyIsWhole(s.slot, w);
    }
  }

  lemma ReadTakes(s: State, w: Worker, f: Measure)
    requires w.pc.ReadPipe? && s.pipeY != []
    ensures Elsewhere(Effect(s, w), f) + Taken(s, w, f) == Elsewhere(s, f)
  {
  }

  lemma CopyTakes(s: State, w: Worker, f: Measure)
    requires w.pc.PostCont? && s.zParent == WaitingCont && s.semCont == 0
    ensures Elsewhere(Effect(s, w), f) + Taken(s, w, f) == Elsewhere(s, f)
  {
  }

  lemma ReplyGives(s: State, w: Worker, f: Measure)
    requires w.pc.Respond?
    ensures Elsewhere(Effect(s, w), f) == Elsewhere(s, f) + Given(w, f)
  {
    TallyAppend(s.replies, Reply(w.local.client, w.pc.result, w.number, w.z, Clean(w.local)), Answered(f));
  }

  /** The other steps change no place a request can be in. */
  lemma OthersMoveNothing(s: State, w: Worker)
    requires !Blocked(s, w) && !w.pc.ReadPipe? && !w.pc.PostCont? && !w.pc.Respond?
    ensures var t := Effect(s, w);
      && t.pipeY == s.pipeY && t.pipeZ == s.pipeZ && t.zParent == s.zParent && t.slot == s.slot
      && t.semCont == s.semCont && t.replies == s.replies
  {
  }

  lemma ElsewhereNext(s: State, w: Worker, f: Measure)
    requires !Blocked(s, w)
    requires w.pc.PostCont? ==> s.zParent == WaitingCont && s.semCont == 0
    ensures Elsewhere(Effect(s, w), f) + Taken(s, w, f) == Elsewhere(s, f) + Given(w, f)
  {
    if w.pc.ReadPipe? {
      ReadTakes(s, w, f);
    } else if w.pc.PostCont? {
      CopyTakes(s, w, f);
    } else if w.pc.Respond? {
      ReplyGives(s, w, f);
    } else {
      OthersMoveNothing(s, w);
    }
  }

  lemma WorkerKeepsTotal(s: State, k: nat, f: Measure)
    requires Shaped(s) && Handshake(s) && k < |s.workers| && WorkerStep(s, k).Some?
    ensures Total(WorkerStep(s, k).value, f) == Total(s, f)
  {
    var w := s.workers[k];
    TallyUpdate(s.workers, k, Next(s, w), Held(f));
    if w.pc.PostCont? {
      CopyingExcludes(s, k);
    }
    WeightNext(s, w, f);
    ElsewhereNext(s, w, f);
  }

  lemma ZParentKeepsTotal(s: State, f: Measure)
    requires Handshake(s) && ZParentStep(s).Some?
    ensures Total(ZParentStep(s).value, f) == Total(s, f)
  {
  }

  lemma DispatchAddsWeight(s: State, forward: bool, f: Measure)
    requires s.yParent.Dispatching?
    ensures Total(Step(s, Dispatch(forward)).value, f) == Total(s, f) + f(Clean(s.yParent.request), forward)
  {
    if forward {
      TallyAppend(s.pipeZ, s.yParent.request, Piped(f, true));
    } else {
      TallyAppend(s.pipeY, s.yParent.request, Piped(f, false));
    }
  }

  lemma StepTotal(s: State, a: Action, f: Measure)
    requires Shaped(s) && Handshake(s) && Step(s, a).Some?
    ensures Total(Step(s, a).value, f)
         == Total(s, f) + if a.Dispatch? then f(Clean(s.yParent.request), a.forward) else 0
  {
    match a
    case WorkerMoves(k) => WorkerKeepsTotal(s, k, f);
    case ZParentMoves => ZParentKeepsTotal(s, f);
    case Dispatch(forward) => DispatchAddsWeight(s, forward, f);
    case Receive(r) =>
  }

  lemma PendingStep(s: State, a: Action, x: Request)
    requires Step(s, a).Some?
    ensures var t := Step(s, a).value;
      Pending(t, x) + Tally(s.received, Same(x))
      + (if a.Dispatch? then Equals(x)(Clean(s.yParent.request), a.forward) else 0)
      == Pending(s, x) + Tally(t.received, Same(x))
  {
    if a.Receive? {
      TallyAppend(s.received, Clean(a.request), Same(x));
    }
  }

  lemma ConservedFor(s: State, a: Action, x: Request)
    requires Shaped(s) && Handshake(s) && Conserved(s) && Step(s, a).Some?
    ensures var t := Step(s, a).value; Pending(t, x) + Total(t, Equals(x)) == Tally(t.received, Same(x))
  {
    StepTotal(s, a, Equals(x));
    assert Pending(s, x) + Total(s, Equals(x)) == Tally(s.received, Same(x));
    PendingStep(s, a, x);
  }

  lemma ForwardedChange(s: State, a: Action)
    requires Step(s, a).Some?
    ensures Step(s, a).value.forwarded == s.forwarded + if a.Dispatch? && a.forward then 1 else 0
  {
  }

  lemma ForwardedStep(s: State, a: Action)
    requires Shaped(s) && Handshake(s) && Step(s, a).Some? && Total(s, Forwarded()) == s.forwarded
    ensures Total(Step(s, a).value, Forwarded()) == Step(s, a).value.forwarded
  {
    StepTotal(s, a, Forwarded());
    ForwardedChange(s, a);
  }

  lemma ConservedStep(s: State, a: Action)
    requires Shaped(s) && Handshake(s) && Conserved(s) && Step(s, a).Some?
    ensures Conserved(Step(s, a).value)
  {
    forall x
      ensures var t := Step(s, a).value; Pending(t, x) + Total(t, Equals(x)) == Tally(t.received, Same(x))
    {
      ConservedFor(s, a, x);
    }
    ForwardedStep(s, a);
  }

  /** Every step keeps the invariant. */
  lemma StepKeepsInvariant(s: State, a: Action)
    requires Inv(s) && Step(s, a).Some?
    ensures Inv(Step(s, a).value)
  {
    ShapedStep(s, a);
    HandshakeStep(s, a);
    CountersStep(s, a);
    ConservedStep(s, a);
  }

  lemma {:induction false} RunKeepsInvariant(s: State, actions: seq<Action>)
    requires Init(s) && Run(s, actions).Some?
    ensures Inv(Run(s, actions).value)
    decreases |actions|
  {
    if actions == [] {
      InitHolds(s);
    } else {
      var last := |actions| - 1;
      RunKeepsInvariant(s, actions[..last]);
      StepKeepsInvariant(Run(s, actions[..last]).value, actions[last]);
    }
  }
}
