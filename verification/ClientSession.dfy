/**
  A multiplexed client session on one binary connection: concurrent `send` and `cancel` calls, the pending
  table they share with the reader task, and the async locks. A step is what one actor does between two
  await points; a caller may also drop a call at any of its await points.
 */
module ClientSession {
  import opened Wrappers
  import opened Locks
  import opened Wire

  datatype Actor = Reader | Caller(index: nat) | Canceller(which: nat)

  datatype Failure = InvalidRequestId | LimitExceeded | Encoding | Io | Timeout | CancelledByUser | Closed | Protocol

  /** What became of the pending entry of a call: not yet inserted, in the table, completed, or taken back. */
  datatype Slot =
    | Vacant
    | Registered
    | Delivered(at: nat, answer: Answer)
    | Failed(failure: Failure)
    | Withdrawn(why: Failure)

  datatype CallPhase =
    | WantCheck
    | Checking
    | WantInsert
    | Inserting
    | WantEncode
    | WantPayload
    | WantWriter
    | Writing
    | WantUndo
    | Undoing
    | Awaiting
    | WantForget
    | Forgetting
    | CancellingLate(c: nat)
    | Finished(outcome: Result<Answer, Failure>)
    | Dropped

  /** Call number `k` of the session; its request id is `RequestId(k)`. */
  datatype Call = Call(opcode: Opcode, body: Body, phase: CallPhase, slot: Slot)

  datatype CancelPhase = CWantWriter | CWriting | CWantPending | CRemoving | CDone

  datatype CancelCall = CancelCall(id: nat, phase: CancelPhase)

  datatype ReaderPhase =
    | Reading
    | WantDeliver
    | Delivering
    | WantDrain(failure: Failure)
    | Draining(failure: Failure)
    | Stopped

  /** Which call wrote at which place, and the other way round. */
  datatype Trace = Trace(sentAt: map<nat, nat>, writer: map<nat, nat>)
  {
    function Write(k: nat, at: nat): Trace {
      Trace(sentAt[k := at], writer[at := k])
    }
  }

  /**
    `inbox` and `outbox` are the whole histories of frames read and written. `scratch` is what the session's encode
    buffer holds: every call encodes its request into it and writes it out. `trace` records
    which call wrote which frame of `outbox`.
   */
  datatype State = State(
    maxInFlight: nat,
    calls: seq<Call>,
    cancels: seq<CancelCall>,
    pending: map<nat, nat>,
    reader: ReaderPhase,
    closed: bool,
    table: map<Lock, Actor>,
    scratch: Option<ClientFrame>,
    inbox: seq<ServerFrame>,
    outbox: seq<ClientFrame>,
    trace: Trace)

  function Init(maxInFlight: nat): State {
    State(maxInFlight, [], [], map[], Reading, false, map[], None, [], [], Trace(map[], map[]))
  }

  /** `next_id` starts at 1 and wraps like any 64-bit counter. */
  function RequestId(k: nat): nat {
    (k + 1) % U64_SIZE
  }

  datatype CallStep =
    | TakeCheck
    | Check
    | TakeInsert
    | Insert
    | TakeEncode
    | TakePayload(encodes: bool)
    | TakeWriter
    | WriteRequest(write: WriteOutcome)
    | TakeUndo
    | Undo
    | Resolve
    | TimeOut
    | TakeForget
    | Forget
    | EndLateCancel
    | Drop

  datatype CancelStep =
    | CTakeWriter
    | CWrite(write: WriteOutcome)
    | CTakePending
    | CRemove
    | CDrop

  datatype ReaderStep =
    | Read(frame: ServerFrame)
    | ReadEnds(failure: Failure)
    | TakeDeliver
    | Deliver
    | TakeDrain
    | Drain

  datatype Step =
    | Send(opcode: Opcode, body: Body)
    | ByCall(k: nat, move: CallStep)
    | StartCancel(id: nat)
    | ByCancel(c: nat, act: CancelStep)
    | ByReader(step: ReaderStep)
    | Close

  /** Remove entry `id` and let its call see `slot`. */
  function Settle(calls: seq<Call>, pending: map<nat, nat>, id: nat, slot: Slot): seq<Call> {
    if id in pending && pending[id] < |calls|
    then calls[pending[id] := calls[pending[id]].(slot := slot)]
    else calls
  }

  function SettleAll(calls: seq<Call>, owners: set<nat>, slot: Slot): seq<Call> {
    seq(|calls|, k requires 0 <= k < |calls| => if k in owners then calls[k].(slot := slot) else calls[k])
  }

  predicate CallEnabled(s: State, k: nat, move: CallStep) {
    k < |s.calls| &&
    var phase := s.calls[k].phase;
    match move
    case TakeCheck => phase.WantCheck? && Pending !in s.table
    case Check => phase.Checking?
    case TakeInsert => phase.WantInsert? && Pending !in s.table
    case Insert => phase.Inserting?
    case TakeEncode => phase.WantEncode? && Encode !in s.table
    case TakePayload(_) => phase.WantPayload? && Payload !in s.table
    case TakeWriter => phase.WantWriter? && Writer !in s.table
    case WriteRequest(_) => phase.Writing?
    case TakeUndo => phase.WantUndo? && Pending !in s.table
    case Undo => phase.Undoing?
    case Resolve =>
      var slot := s.calls[k].slot;
      phase.Awaiting? && (slot.Delivered? || slot.Failed? || slot.Withdrawn?)
    case TimeOut => phase.Awaiting?
    case TakeForget => phase.WantForget? && Pending !in s.table
    case Forget => phase.Forgetting?
    case EndLateCancel => phase.CancellingLate? && phase.c < |s.cancels| && s.cancels[phase.c].phase.CDone?
    case Drop => !phase.Finished? && !phase.Dropped?
  }

  predicate CancelEnabled(s: State, c: nat, act: CancelStep) {
    c < |s.cancels| &&
    var phase := s.cancels[c].phase;
    match act
    case CTakeWriter => phase.CWantWriter? && Writer !in s.table
    case CWrite(_) => phase.CWriting?
    case CTakePending => phase.CWantPending? && Pending !in s.table
    case CRemove => phase.CRemoving?
    case CDrop => !phase.CDone?
  }

  predicate ReaderEnabled(s: State, step: ReaderStep) {
    match step
    case Read(_) => s.reader.Reading?
    case ReadEnds(failure) => s.reader.Reading? && (failure.Closed? || failure.Protocol?)
    case TakeDeliver => s.reader.WantDeliver? && Pending !in s.table
    case Deliver => s.reader.Delivering? && |s.inbox| > 0 && Newest(s).Response?
    case TakeDrain => s.reader.WantDrain? && Pending !in s.table
    case Drain => s.reader.Draining?
  }

  /** `close` owns the session, so no call or cancel is under way. */
  predicate Idle(s: State) {
    && Pending !in s.table
    && (forall k | 0 <= k < |s.calls| :: s.calls[k].phase.Finished? || s.calls[k].phase.Dropped?)
    && (forall c | 0 <= c < |s.cancels| :: s.cancels[c].phase.CDone?)
  }

  predicate Enabled(s: State, step: Step) {
    match step
    case Send(_, _) => !s.closed
    case ByCall(k, move) => CallEnabled(s, k, move)
    case StartCancel(_) => true
    case ByCancel(c, act) => CancelEnabled(s, c, act)
    case ByReader(step) => ReaderEnabled(s, step)
    case Close => Idle(s)
  }

  function Newest(s: State): ServerFrame
    requires |s.inbox| > 0
  {
    s.inbox[|s.inbox| - 1]
  }

  function CallPhaseAfter(s: State, k: nat, move: CallStep): CallPhase
    requires CallEnabled(s, k, move)
  {
    match move
    case TakeCheck => Checking
    case Check => if |s.pending| >= s.maxInFlight then Finished(Err(LimitExceeded)) else WantInsert
    case TakeInsert => Inserting
    case Insert => WantEncode
    case TakeEncode => WantPayload
    case TakePayload(encodes) => if encodes then WantWriter else Finished(Err(Encoding))
    case TakeWriter => Writing
    case WriteRequest(write) => if write.Written? then Awaiting else WantUndo
    case TakeUndo => Undoing
    case Undo => Finished(Err(Io))
    case Resolve => Finished(
      match s.calls[k].slot
      case Delivered(_, answer) => Ok(answer)
      case Failed(failure) => Err(failure)
      case _ => Err(Closed))
    case TimeOut => WantForget
    case TakeForget => Forgetting
    case Forget => CancellingLate(|s.cancels|)
    case EndLateCancel => Finished(Err(Timeout))
    case Drop => Dropped
  }

  function CallTableAfter(s: State, k: nat, move: CallStep): map<Lock, Actor> {
    match move
    case TakeCheck => s.table[Pending := Caller(k)]
    case TakeInsert => s.table[Pending := Caller(k)]
    case TakeEncode => s.table[Encode := Caller(k)]
    case TakePayload(encodes) => if encodes then s.table[Payload := Caller(k)] else Without(s.table, Caller(k))
    case TakeWriter => s.table[Writer := Caller(k)]
    case TakeUndo => s.table[Pending := Caller(k)]
    case TakeForget => s.table[Pending := Caller(k)]
    case Resolve => s.table
    case TimeOut => s.table
    case EndLateCancel => s.table
    case _ => Without(s.table, Caller(k))
  }

  function CallApply(s: State, k: nat, move: CallStep): State
    requires CallEnabled(s, k, move)
  {
    var id := RequestId(k);
    var phase := CallPhaseAfter(s, k, move);
    var moved := s.(calls := s.calls[k := s.calls[k].(phase := phase)], table := CallTableAfter(s, k, move));
    match move
    case Insert =>
      // an older entry under the same id loses its sender
      var calls := Settle(moved.calls, s.pending, id, Withdrawn(Closed));
      moved.(calls := calls[k := calls[k].(slot := Registered)], pending := s.pending[id := k])
    case TakePayload(encodes) =>
      moved.(scratch := if encodes then Some(Request(id, s.calls[k].opcode, s.calls[k].body)) else None)
    case WriteRequest(write) =>
      if write.FailedEarly? || s.scratch.None? then moved
      else moved.(outbox := s.outbox + [s.scratch.value],
                  trace := s.trace.Write(k, |s.outbox|))
    case Undo =>
      moved.(calls := Settle(moved.calls, s.pending, id, Withdrawn(Io)), pending := s.pending - {id})
    case Forget =>
      moved.(calls := Settle(moved.calls, s.pending, id, Withdrawn(Timeout)), pending := s.pending - {id},
             cancels := s.cancels + [CancelCall(id, if id == 0 then CDone else CWantWriter)])
    case _ => moved
  }

  function CancelApply(s: State, c: nat, act: CancelStep): State
    requires CancelEnabled(s, c, act)
  {
    var id := s.cancels[c].id;
    match act
    case CTakeWriter =>
      s.(cancels := s.cancels[c := CancelCall(id, CWriting)], table := s.table[Writer := Canceller(c)])
    case CWrite(write) =>
      s.(cancels := s.cancels[c := CancelCall(id, if write.Written? then CWantPending else CDone)],
         outbox := if write.FailedEarly? then s.outbox else s.outbox + [Cancel(id)],
         table := if write.Written? then s.table else Without(s.table, Canceller(c)))
    case CTakePending =>
      s.(cancels := s.cancels[c := CancelCall(id, CRemoving)], table := s.table[Pending := Canceller(c)])
    case CRemove =>
      s.(cancels := s.cancels[c := CancelCall(id, CDone)],
         calls := Settle(s.calls, s.pending, id, Failed(CancelledByUser)), pending := s.pending - {id},
         table := Without(s.table, Canceller(c)))
    case CDrop =>
      s.(cancels := s.cancels[c := CancelCall(id, CDone)], table := Without(s.table, Canceller(c)))
  }

  function ReaderApply(s: State, step: ReaderStep): State
    requires ReaderEnabled(s, step)
  {
    match step
    case Read(frame) =>
      var received := s.(inbox := s.inbox + [frame]);
      if frame.Response? then received.(reader := WantDeliver)
      else received.(reader := WantDrain(Protocol), closed := true)
    case ReadEnds(failure) => s.(reader := WantDrain(failure), closed := true)
    case TakeDeliver => s.(reader := Delivering, table := s.table[Pending := Reader])
    case Deliver =>
      var frame := Newest(s);
      if frame.id in s.pending then
        s.(calls := Settle(s.calls, s.pending, frame.id, Delivered(|s.inbox| - 1, frame.answer)),
           pending := s.pending - {frame.id}, reader := Reading, table := Without(s.table, Reader))
      else
        // LateResponse ends the reader and with it the session
        s.(reader := WantDrain(Protocol), closed := true, table := Without(s.table, Reader))
    case TakeDrain => s.(reader := Draining(s.reader.failure), table := s.table[Pending := Reader])
    case Drain =>
      s.(calls := SettleAll(s.calls, s.pending.Values, Failed(s.reader.failure)), pending := map[],
         reader := Stopped, table := Without(s.table, Reader))
  }

  function Apply(s: State, step: Step): State
    requires Enabled(s, step)
  {
    match step
    case Send(opcode, body) =>
      var phase := if RequestId(|s.calls|) == 0 then Finished(Err(InvalidRequestId)) else WantCheck;
      s.(calls := s.calls + [Call(opcode, body, phase, Vacant)])
    case ByCall(k, move) => CallApply(s, k, move)
    case StartCancel(id) =>
      s.(cancels := s.cancels + [CancelCall(id, if id == 0 then CDone else CWantWriter)])
    case ByCancel(c, act) => CancelApply(s, c, act)
    case ByReader(step) => ReaderApply(s, step)
    case Close =>
      s.(calls := SettleAll(s.calls, s.pending.Values, Failed(Closed)), pending := map[], closed := true,
         reader := Stopped, table := Without(s.table, Reader))
  }

  /** The state after a run of steps, if every step was enabled. */
  ghost function Exec(maxInFlight: nat, steps: seq<Step>): Option<State>
    decreases |steps|
  {
    if steps == [] then Some(Init(maxInFlight))
    else
      var before := Exec(maxInFlight, steps[..|steps| - 1]);
      var step := steps[|steps| - 1];
      if before.Some? && Enabled(before.value, step) then Some(Apply(before.value, step)) else None
  }

  ghost predicate Reachable(s: State) {
    exists steps :: Exec(s.maxInFlight, steps) == Some(s)
  }
}
