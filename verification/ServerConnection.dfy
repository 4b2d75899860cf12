/**
  One binary connection as the server runs it: the read loop, the tasks it spawns, the permits, the
  pending map and the async locks. A step is what one actor does between two await points.
 */
module ServerConnection {
  import opened Wrappers
  import opened Locks
  import opened Wire

  datatype Actor = Loop | Worker(index: nat)

  datatype Phase =
    | WantMutate
    | Handling
    | WantEncode(answer: Answer)
    | WantWriter(answer: Answer)
    | Writing(answer: Answer)
    | WantPending
    | Removing
    | Gone

  datatype Task = Task(id: nat, src: nat, mutating: bool, phase: Phase)

  datatype Reply = Reply(id: nat, answer: Answer, src: nat)

  datatype LoopPhase =
    | Waiting
    | Deciding
    | Admitted
    | RefuseWant(answer: Answer)
    | Refusing(answer: Answer)
    | Spawned
    | Inserting
    | CancelWant
    | Cancelling
    | DrainWant
    | DrainLooking
    | DrainSleeping
    | SweepWant
    | Sweeping
    | Exited(ok: bool)

  /**
    Whole histories. A request frame is identified by its position `src` in `inbox`; `produced`, `taskOf` and
    `replyAt` give the answer produced for it, the task spawned for it and the position of the reply to it.
   */
  datatype Log = Log(
    inbox: seq<ClientFrame>,
    outbox: seq<Reply>,
    produced: map<nat, Answer>,
    taskOf: map<nat, nat>,
    replyAt: map<nat, nat>)
  {
    function Newest(): ClientFrame
      requires |inbox| > 0
    {
      inbox[|inbox| - 1]
    }

    function Produce(src: nat, answer: Answer): Log {
      this.(produced := produced[src := answer])
    }

    function Write(reply: Reply): Log {
      this.(outbox := outbox + [reply], replyAt := replyAt[reply.src := |outbox|])
    }
  }

  /**
    `pending` maps a request id to the index of its task. `aborted` holds the tasks whose handle was aborted,
    `signalled` those whose abort channel fired or lost its sender. `scratch` is what the tasks' shared encode buffer
    holds: every task encodes into it and writes it out.
   */
  datatype State = State(
    limit: nat,
    permits: nat,
    loop: LoopPhase,
    tasks: seq<Task>,
    pending: map<nat, nat>,
    aborted: set<nat>,
    signalled: set<nat>,
    table: map<Lock, Actor>,
    scratch: Option<Reply>,
    log: Log)

  function Init(limit: nat): State {
    State(limit, limit, Waiting, [], map[], {}, {}, map[], None, Log([], [], map[], map[], map[]))
  }

  datatype LoopStep =
    | Receive(frame: ClientFrame)
    | StartDrain
    | Fail
    | Decide
    | Dispatch
    | TakeRefuseWriter
    | WriteRefusal(write: WriteOutcome)
    | TakeInsert
    | Insert
    | TakeCancel
    | CancelEntry
    | TakeDrain
    | LookAtPending(deadline: bool)
    | WakeDrain
    | TakeSweep
    | Sweep

  datatype TaskStep =
    | TakeMutate
    | Finish(answer: Answer)
    | TakeEncode(encodes: bool)
    | TakeWriter
    | WriteReply(written: bool)
    | TakePending
    | RemoveSelf
    | Reap
    | Crash

  datatype Step = ByLoop(step: LoopStep) | ByTask(i: nat, move: TaskStep)

  /** The task behind map entry `id`. Dropping the entry drops its abort sender, which the task notices. */
  function Entry(pending: map<nat, nat>, id: nat): set<nat> {
    if id in pending then {pending[id]} else {}
  }

  /** What the read loop may do next. The frame decisions follow the order of the code. */
  predicate LoopEnabled(s: State, step: LoopStep) {
    match step
    case Receive(_) => s.loop.Waiting?
    case StartDrain => s.loop.Waiting?
    case Fail => s.loop.Waiting? || s.loop.Deciding? || s.loop.Admitted? || s.loop.RefuseWant?
    case Decide => s.loop.Deciding? && |s.log.inbox| > 0
    case Dispatch => s.loop.Admitted? && |s.log.inbox| > 0 && s.log.Newest().Request?
    case TakeRefuseWriter => s.loop.RefuseWant? && Writer !in s.table
    case WriteRefusal(_) => s.loop.Refusing? && |s.log.inbox| > 0
    case TakeInsert => s.loop.Spawned? && Pending !in s.table
    case Insert => s.loop.Inserting? && |s.tasks| > 0
    case TakeCancel => s.loop.CancelWant? && Pending !in s.table
    case CancelEntry => s.loop.Cancelling? && |s.log.inbox| > 0
    case TakeDrain => s.loop.DrainWant? && Pending !in s.table
    case LookAtPending(_) => s.loop.DrainLooking?
    case WakeDrain => s.loop.DrainSleeping?
    case TakeSweep => s.loop.SweepWant? && Pending !in s.table
    case Sweep => s.loop.Sweeping?
  }

  /** What task `i` may do next: its own code, or being dropped after an abort. */
  predicate TaskEnabled(s: State, i: nat, move: TaskStep) {
    i < |s.tasks| &&
    var phase := s.tasks[i].phase;
    match move
    case TakeMutate => phase.WantMutate? && Mutate !in s.table
    case Finish(answer) => phase.Handling? && (answer.Handled? || (answer.Cancelled? && i in s.signalled))
    case TakeEncode(_) => phase.WantEncode? && Encode !in s.table
    case TakeWriter => phase.WantWriter? && Writer !in s.table
    case WriteReply(_) => phase.Writing?
    case TakePending => phase.WantPending? && Pending !in s.table
    case RemoveSelf => phase.Removing?
    case Reap => i in s.aborted && !phase.Gone?
    case Crash => phase.Handling?
  }

  predicate Enabled(s: State, step: Step) {
    match step
    case ByLoop(step) => LoopEnabled(s, step)
    case ByTask(i, move) => TaskEnabled(s, i, move)
  }

  /** The decision on a received frame: cancel, reject, refuse for lack of a permit, or admit. */
  function Decided(s: State): State
    requires LoopEnabled(s, Decide)
  {
    match s.log.Newest()
    case Cancel(_) => s.(loop := CancelWant)
    case Stray(_) => s.(loop := Exited(false))
    case Request(_, _, _) =>
      if s.permits == 0 then
        s.(loop := RefuseWant(OverLimit), log := s.log.Produce(|s.log.inbox| - 1, OverLimit))
      else
        s.(loop := Admitted, permits := s.permits - 1)
  }

  /** The task spawned for the newest frame: a mutating request first queues for the mutate lock. */
  function NewTask(log: Log): Task
    requires |log.inbox| > 0 && log.Newest().Request? && log.Newest().opcode.Known?
  {
    var frame := log.Newest();
    var mutating := frame.opcode.mutating;
    Task(frame.id, |log.inbox| - 1, mutating, if mutating then WantMutate else Handling)
  }

  /** The admitted frame's payload is read: unknown opcode, undecodable body, or a spawned task. */
  function Dispatched(s: State): State
    requires LoopEnabled(s, Dispatch)
  {
    var frame := s.log.Newest();
    if frame.opcode.Unknown? then
      s.(loop := Exited(false), permits := s.permits + 1)
    else if frame.body.Garbage? then
      s.(loop := RefuseWant(BadRequest), permits := s.permits + 1,
         log := s.log.Produce(|s.log.inbox| - 1, BadRequest))
    else
      s.(loop := Spawned,
         log := s.log.(taskOf := s.log.taskOf[|s.log.inbox| - 1 := |s.tasks|]),
         tasks := s.tasks + [NewTask(s.log)])
  }

  function LoopApply(s: State, step: LoopStep): State
    requires LoopEnabled(s, step)
  {
    match step
    case Receive(frame) => s.(log := s.log.(inbox := s.log.inbox + [frame]), loop := Deciding)
    case StartDrain => s.(loop := DrainWant)
    case Fail => s.(loop := Exited(false), permits := if s.loop.Admitted? then s.permits + 1 else s.permits)
    case Decide => Decided(s)
    case Dispatch => Dispatched(s)
    case TakeRefuseWriter => s.(loop := Refusing(s.loop.answer), table := s.table[Writer := Loop])
    case WriteRefusal(write) =>
      s.(loop := if write.Written? then Waiting else Exited(false),
         log := if write.FailedEarly? then s.log
                else s.log.Write(Reply(s.log.Newest().id, s.loop.answer, |s.log.inbox| - 1)),
         table := Without(s.table, Loop))
    case TakeInsert => s.(loop := Inserting, table := s.table[Pending := Loop])
    case Insert =>
      var tid := |s.tasks| - 1;
      var id := s.tasks[tid].id;
      s.(loop := Waiting, signalled := s.signalled + Entry(s.pending, id), pending := s.pending[id := tid],
         table := Without(s.table, Loop))
    case TakeCancel => s.(loop := Cancelling, table := s.table[Pending := Loop])
    case CancelEntry =>
      var owner := Entry(s.pending, s.log.Newest().id);
      s.(loop := Waiting, aborted := s.aborted + owner, signalled := s.signalled + owner,
         pending := s.pending - {s.log.Newest().id}, table := Without(s.table, Loop))
    case TakeDrain => s.(loop := DrainLooking, table := s.table[Pending := Loop])
    case LookAtPending(deadline) =>
      s.(loop := if s.pending == map[] || deadline then SweepWant else DrainSleeping,
         table := Without(s.table, Loop))
    case WakeDrain => s.(loop := DrainWant)
    case TakeSweep => s.(loop := Sweeping, table := s.table[Pending := Loop])
    case Sweep =>
      s.(loop := Exited(true), aborted := s.aborted + s.pending.Values,
         signalled := s.signalled + s.pending.Values, pending := map[],
         table := Without(s.table, Loop))
  }

  /** The phase task `i` moves to. */
  function NextPhase(s: State, i: nat, move: TaskStep): Phase
    requires TaskEnabled(s, i, move)
  {
    var phase := s.tasks[i].phase;
    match move
    case TakeMutate => Handling
    case Finish(answer) => WantEncode(answer)
    case TakeEncode(encodes) => if encodes then WantWriter(phase.answer) else WantPending
    case TakeWriter => Writing(phase.answer)
    case WriteReply(_) => WantPending
    case TakePending => Removing
    case RemoveSelf => Gone
    case Reap => Gone
    case Crash => Gone
  }

  function NextTable(s: State, i: nat, move: TaskStep): map<Lock, Actor> {
    match move
    case TakeMutate => s.table[Mutate := Worker(i)]
    case TakeEncode(encodes) => if encodes then s.table[Encode := Worker(i)] else s.table
    case TakeWriter => s.table[Writer := Worker(i)]
    case TakePending => s.table[Pending := Worker(i)]
    case _ => Without(s.table, Worker(i))
  }

  function TaskApply(s: State, i: nat, move: TaskStep): State
    requires TaskEnabled(s, i, move)
  {
    var t := s.tasks[i];
    var moved := s.(tasks := s.tasks[i := t.(phase := NextPhase(s, i, move))], table := NextTable(s, i, move));
    match move
    case Finish(answer) => moved.(log := s.log.Produce(t.src, answer))
    case TakeEncode(encodes) =>
      moved.(scratch := if encodes then Some(Reply(t.id, t.phase.answer, t.src)) else None)
    case WriteReply(written) =>
      if written && s.scratch.Some? then moved.(log := s.log.Write(s.scratch.value)) else moved
    case RemoveSelf =>
      moved.(signalled := s.signalled + Entry(s.pending, t.id), pending := s.pending - {t.id},
             permits := s.permits + 1)
    case Reap => moved.(permits := s.permits + 1)
    case Crash => moved.(permits := s.permits + 1)
    case _ => moved
  }

  function Apply(s: State, step: Step): State
    requires Enabled(s, step)
  {
    match step
    case ByLoop(step) => LoopApply(s, step)
    case ByTask(i, move) => TaskApply(s, i, move)
  }

  /** The state after a run of steps, if every step was enabled. */
  ghost function Exec(limit: nat, steps: seq<Step>): Option<State>
    decreases |steps|
  {
    if steps == [] then Some(Init(limit))
    else
      var before := Exec(limit, steps[..|steps| - 1]);
      var step := steps[|steps| - 1];
      if before.Some? && Enabled(before.value, step) then Some(Apply(before.value, step)) else None
  }

  ghost predicate Reachable(s: State) {
    exists steps :: Exec(s.limit, steps) == Some(s)
  }
}
