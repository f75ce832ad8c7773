/**
 The two process pools of the midterm (Midterm/src/server.c, Midterm/src/backup_server.c). Server Y
 passes each request to a pipe that its own workers read, or forwards it to server Z, which hands it to
 its workers through one slot of shared memory and two semaphores. A step is one operation on a pipe, a
 semaphore or one field of the slot. Which pool takes a request is a free choice here, since it depends
 on signals.
 */
module ServerPools {
  import opened Common
  import opened Invertibility
  import opened Laplace
  import opened MatrixMath

  const CELLS: nat := 4096

  /** The record the client sends; only the first size * size entries of the array mean anything. */
  datatype Request = Request(client: int, size: nat, cells: seq<int>)

  predicate WellFormed(r: Request) {
    |r.cells| == CELLS && r.size * r.size <= CELLS
  }

  /** The request without the unused rest of its array. */
  function Clean(r: Request): Request {
    if r.size * r.size <= |r.cells| then r.(cells := r.cells[..r.size * r.size]) else r
  }

  /** The test against zero; for size 0 the expansion has no terms, and the routine finds 0. */
  function Verdict(r: Request): int {
    if r.size > 0 && r.size * r.size <= |r.cells| && Det(Rows(r.cells, r.size), r.size) != 0 then 1 else 0
  }

  /** The workers' call of the matrix routine on the array of their request. */
  method IsInvertable(r: Request) returns (result: int)
    requires WellFormed(r)
    ensures result == Verdict(r)
  {
    var cells := new int[|r.cells|](i requires 0 <= i < |r.cells| => r.cells[i]);
    assert cells[..] == r.cells;
    result := IsMatrixInvert(cells, r.size);
    if r.size > 0 {
      NonZeroDetIffInvertible(Rows(r.cells, r.size), r.size);
    }
  }

  datatype Pc =
    | ReadPipe
    | WaitRead
    | CopyClient
    | CopySize
    | CopyCells(i: nat, j: nat)
    | PostCont
    | PostWorking
    | Compute
    | PostShared(result: int)
    | PostZ(result: int)
    | Respond(result: int)
    | WaitWorking

  /** A worker of pool Z, or else of pool Y, with its local copy of a request. */
  datatype Worker = Worker(z: bool, number: nat, pc: Pc, local: Request)

  datatype YParent = Listening | Dispatching(request: Request)

  datatype ZParent = Reading | Storing(request: Request) | PostingRead | WaitingCont

  /** An answer on its way to a client; `of` records what was computed on. */
  datatype Reply = Reply(client: int, result: int, worker: nat, z: bool, of: Request)

  datatype State = State(
    yParent: YParent, pipeY: seq<Request>, forwarded: nat,
    pipeZ: seq<Request>, zParent: ZParent, slot: Request, semRead: nat, semCont: nat,
    workers: seq<Worker>, workingY: nat, workingZ: nat,
    inverted: nat, notInverted: nat, zInverted: nat, zNotInverted: nat,
    received: seq<Request>, replies: seq<Reply>)

  datatype Action = Receive(request: Request) | Dispatch(forward: bool) | ZParentMoves | WorkerMoves(i: nat)

  function StartPc(z: bool): Pc {
    if z then WaitRead else ReadPipe
  }

  predicate Init(s: State) {
    && s.yParent == Listening && s.pipeY == [] && s.forwarded == 0
    && s.pipeZ == [] && s.zParent == Reading && WellFormed(s.slot) && s.semRead == 0 && s.semCont == 0
    && s.workingY == 0 && s.workingZ == 0
    && s.inverted == 0 && s.notInverted == 0 && s.zInverted == 0 && s.zNotInverted == 0
    && s.received == [] && s.replies == []
    && (forall i :: 0 <= i < |s.workers| ==>
          s.workers[i].pc == StartPc(s.workers[i].z) && |s.workers[i].local.cells| == CELLS)
    && (exists i :: 0 <= i < |s.workers| && s.workers[i].z)
    && (exists i :: 0 <= i < |s.workers| && !s.workers[i].z)
  }

  /** Whether the next turn of the two copying loops would leave the buffers; there is no step then. */
  predicate Outside(slot: Request, w: Worker)
    requires w.pc.CopyCells?
  {
    var i, j := w.pc.i, w.pc.j;
    i < slot.size && j < slot.size && (i * w.local.size + j >= |w.local.cells| || i * slot.size + j >= |slot.cells|)
  }

  predicate Blocked(s: State, w: Worker) {
    match w.pc
    case ReadPipe => s.pipeY == []
    case WaitRead => s.semRead == 0
    case CopyCells(_, _) => Outside(s.slot, w)
    case WaitWorking => if w.z then s.workingZ == 0 else s.workingY == 0
    case _ => false
  }

  function CopyNext(slot: Request, w: Worker): Worker
    requires w.pc.CopyCells? && !Outside(slot, w)
  {
    var i, j := w.pc.i, w.pc.j;
    if i >= slot.size then w.(pc := PostCont)
    else if j >= slot.size then w.(pc := CopyCells(i + 1, 0))
    else
      var cells := w.local.cells[i * w.local.size + j := slot.cells[i * slot.size + j]];
      w.(pc := CopyCells(i, j + 1), local := w.local.(cells := cells))
  }

  /** The worker after its step. */
  function Next(s: State, w: Worker): Worker
    requires !Blocked(s, w)
  {
    match w.pc
    case ReadPipe => w.(pc := PostWorking, local := s.pipeY[0])
    case WaitRead => w.(pc := CopyClient)
    case CopyClient => w.(pc := CopySize, local := w.local.(client := s.slot.client))
    case CopySize => w.(pc := CopyCells(0, 0), local := w.local.(size := s.slot.size))
    case CopyCells(_, _) => CopyNext(s.slot, w)
    case PostCont => w.(pc := PostWorking)
    case PostWorking => w.(pc := Compute)
    case Compute => w.(pc := PostShared(Verdict(w.local)))
    case PostShared(result) => w.(pc := if w.z then PostZ(result) else Respond(result))
    case PostZ(result) => w.(pc := Respond(result))
    case Respond(_) => w.(pc := WaitWorking)
    case WaitWorking => w.(pc := StartPc(w.z))
  }

  /** What the worker's step does to the rest. */
  function Effect(s: State, w: Worker): State
    requires !Blocked(s, w)
  {
    match w.pc
    case ReadPipe => s.(pipeY := s.pipeY[1..])
    case WaitRead => s.(semRead := s.semRead - 1)
    case PostCont => s.(semCont := s.semCont + 1)
    case PostWorking =>
      if w.z then s.(workingZ := s.workingZ + 1) else s.(workingY := s.workingY + 1)
    case PostShared(result) =>
      if result == 1 then s.(inverted := s.inverted + 1) else s.(notInverted := s.notInverted + 1)
    case PostZ(result) =>
      if result == 1 then s.(zInverted := s.zInverted + 1) else s.(zNotInverted := s.zNotInverted + 1)
    case Respond(result) =>
      s.(replies := s.replies + [Reply(w.local.client, result, w.number, w.z, Clean(w.local))])
    case WaitWorking =>
      if w.z then s.(workingZ := s.workingZ - 1) else s.(workingY := s.workingY - 1)
    case _ => s
  }

  function WorkerStep(s: State, k: nat): Option<State>
    requires k < |s.workers|
  {
    var w := s.workers[k];
    if Blocked(s, w) then None else Some(Effect(s, w).(workers := s.workers[k := Next(s, w)]))
  }

  function ZParentStep(s: State): Option<State> {
    match s.zParent
    case Reading =>
      if s.pipeZ == [] then None else Some(s.(zParent := Storing(s.pipeZ[0]), pipeZ := s.pipeZ[1..]))
    case Storing(r) => Some(s.(zParent := PostingRead, slot := r))
    case PostingRead => Some(s.(zParent := WaitingCont, semRead := s.semRead + 1))
    case WaitingCont =>
      if s.semCont == 0 then None else Some(s.(zParent := Reading, semCont := s.semCont - 1))
  }

  /** None when the action is not possible. */
  function Step(s: State, a: Action): Option<State> {
    match a
    case Receive(r) =>
      if s.yParent == Listening && WellFormed(r)
      then Some(s.(yParent := Dispatching(r), received := s.received + [Clean(r)])) else None
    case Dispatch(forward) =>
      if s.yParent == Listening then None
      else
        var t := s.(yParent := Listening);
        var r := s.yParent.request;
        Some(if forward then t.(forwarded := s.forwarded + 1, pipeZ := s.pipeZ + [r])
             else t.(pipeY := s.pipeY + [r]))
    case ZParentMoves => ZParentStep(s)
    case WorkerMoves(i) => if i < |s.workers| then WorkerStep(s, i) else None
  }

  function Run(s: State, actions: seq<Action>): Option<State>
    decreases |actions|
  {
    if actions == [] then Some(s)
    else
      var last := |actions| - 1;
      var before := Run(s, actions[..last]);
      if before.None? then None else Step(before.value, actions[last])
  }
}
