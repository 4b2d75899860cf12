/** What a client session is bound to do: which call every event completes, how, and what then becomes of it. */
module ClientDuties {
  import opened Wrappers
  import opened Wire
  import opened ClientSession
  import opened ClientSafety

  // ---------------------------------------------------------------- who is completed

  /** The event takes the entry of this id out of the pending table, if there is one. */
  predicate TakesOut(s: State, step: Step, id: nat)
    requires Enabled(s, step)
  {
    match step
    case ByCall(k, move) => (move.Insert? || move.Undo? || move.Forget?) && id == RequestId(k)
    case ByCancel(c, act) => act.CRemove? && id == s.cancels[c].id
    case ByReader(step) => (step.Deliver? && id == Newest(s).id) || step.Drain?
    case Close => true
    case _ => false
  }

  /** What the call behind that entry is told. */
  function Completion(s: State, step: Step): Slot
    requires Enabled(s, step)
  {
    match step
    case ByCall(_, Undo) => Withdrawn(Io)
    case ByCall(_, Forget) => Withdrawn(Timeout)
    case ByCancel(_, _) => Failed(CancelledByUser)
    case ByReader(Deliver) => Delivered(|s.inbox| - 1, Newest(s).answer)
    case ByReader(Drain) => Failed(s.reader.failure)
    case Close => Failed(Closed)
    case _ => Withdrawn(Closed)
  }

  /** The table holds exactly the registered calls, each under its own id. */
  lemma TableIsTheRegistered(s: State, id: nat, k: nat)
    requires Reachable(s)
    ensures id in s.pending && s.pending[id] == k <==>
              k < |s.calls| && s.calls[k].slot.Registered? && RequestId(k) == id
  {
    ReachableIsSafe(s);
    if k < |s.calls| {
      assert SlotOk(k, s.calls[k].slot, s.pending, s.inbox, s.reader);
    }
  }

  /** The slot of a call before and after any step: all completions there are, and no others. */
  ghost predicate Completes(s: State, step: Step, k: nat)
    requires Enabled(s, step)
  {
    k < |s.calls| && k < |Apply(s, step).calls| &&
    var slot, slot' := s.calls[k].slot, Apply(s, step).calls[k].slot;
    slot' == if step == ByCall(k, Insert) then Registered
             else if slot.Registered? && TakesOut(s, step, RequestId(k)) then Completion(s, step)
             else slot
  }

  lemma InsertCompletes(s: State, j: nat, k: nat)
    requires TableOk(s) && CallEnabled(s, j, Insert) && k < |s.calls|
    ensures Completes(s, ByCall(j, Insert), k)
  {
    assert SlotOk(k, s.calls[k].slot, s.pending, s.inbox, s.reader) && PhaseOk(j, s.calls[j]);
  }

  lemma CallCompletes(s: State, j: nat, move: CallStep, k: nat)
    requires TableOk(s) && CallEnabled(s, j, move) && !move.Insert? && k < |s.calls|
    ensures Completes(s, ByCall(j, move), k)
  {
    assert SlotOk(k, s.calls[k].slot, s.pending, s.inbox, s.reader) && PhaseOk(j, s.calls[j]);
  }

  lemma CancelCompletes(s: State, c: nat, act: CancelStep, k: nat)
    requires TableOk(s) && CancelEnabled(s, c, act) && k < |s.calls|
    ensures Completes(s, ByCancel(c, act), k)
  {
    assert SlotOk(k, s.calls[k].slot, s.pending, s.inbox, s.reader);
  }

  lemma ReaderCompletes(s: State, step: ReaderStep, k: nat)
    requires TableOk(s) && ReaderEnabled(s, step) && k < |s.calls|
    ensures Completes(s, ByReader(step), k)
  {
    assert SlotOk(k, s.calls[k].slot, s.pending, s.inbox, s.reader);
    InValues(s, k);
  }

  lemma InValues(s: State, k: nat)
    requires TableOk(s) && k < |s.calls|
    ensures k in s.pending.Values <==> s.calls[k].slot.Registered?
  {
    assert SlotOk(k, s.calls[k].slot, s.pending, s.inbox, s.reader);
    if s.calls[k].slot.Registered? {
      assert s.pending[RequestId(k)] in s.pending.Values;
    }
    if k in s.pending.Values {
      var id :| id in s.pending && s.pending[id] == k;
    }
  }

  lemma StepCompletes(s: State, step: Step, k: nat)
    requires TableOk(s) && Enabled(s, step) && k < |s.calls|
    ensures Completes(s, step, k)
  {
    match step
    case ByCall(j, move) =>
      if move.Insert? {
        InsertCompletes(s, j, k);
      } else {
        CallCompletes(s, j, move, k);
      }
    case ByCancel(c, act) => CancelCompletes(s, c, act, k);
    case ByReader(step) => ReaderCompletes(s, step, k);
    case Close => InValues(s, k);
    case Send(_, _) =>
    case StartCancel(_) =>
  }

  /**
    In every reachable state each event completes exactly the registered call with its id, or all registered calls
    when the session ends, and leaves every other call and entry as it was.
   */
  lemma EventCompletesExactly(s: State, step: Step, k: nat)
    requires Reachable(s) && Enabled(s, step) && k < |s.calls|
    ensures Completes(s, step, k)
    ensures Apply(s, step).calls[k].phase
         == if step.ByCall? && step.k == k then CallPhaseAfter(s, k, step.move) else s.calls[k].phase
    ensures RequestId(k) in Apply(s, step).pending && Apply(s, step).pending[RequestId(k)] == k <==>
              Apply(s, step).calls[k].slot.Registered?
  {
    ReachableIsSafe(s);
    StepCompletes(s, step, k);
    PhaseMoves(s, step, k);
    StepKeepsTable(s, step);
    var s' := Apply(s, step);
    assert SlotOk(k, s'.calls[k].slot, s'.pending, s'.inbox, s'.reader);
  }

  /** Only the steps of a call change its phase. */
  lemma PhaseMoves(s: State, step: Step, k: nat)
    requires Enabled(s, step) && k < |s.calls|
    ensures k < |Apply(s, step).calls|
    ensures Apply(s, step).calls[k].phase
         == if step.ByCall? && step.k == k then CallPhaseAfter(s, k, step.move) else s.calls[k].phase
  {
    match step
    case ByCall(j, move) => CallMoves(s, j, move);
    case _ =>
  }

  lemma LimitIsFixed(s: State, step: Step)
    requires Enabled(s, step)
    ensures Apply(s, step).maxInFlight == s.maxInFlight
  {
  }

  // ---------------------------------------------------------------- how calls end

  /** What a call reports fits what became of its entry. */
  predicate ResultFits(k: nat, c: Call) {
    match c.phase
    case Finished(Ok(answer)) => c.slot.Delivered? && c.slot.answer == answer
    case Finished(Err(failure)) =>
      (match failure
       case InvalidRequestId => RequestId(k) == 0 && c.slot.Vacant?
       case LimitExceeded => c.slot.Vacant?
       case Encoding => !c.slot.Vacant?
       case Io => Settled(c.slot)
       case Timeout => Settled(c.slot)
       case CancelledByUser => c.slot == Failed(CancelledByUser)
       case Protocol => c.slot == Failed(Protocol)
       case Closed => c.slot == Failed(Closed) || c.slot.Withdrawn?)
    case CancellingLate(_) => Settled(c.slot)
    case _ => true
  }

  predicate FailureIsNamed(slot: Slot) {
    slot.Failed? ==> slot.failure.CancelledByUser? || slot.failure.Closed? || slot.failure.Protocol?
  }

  ghost predicate FailuresOk(s: State) {
    && (forall k | 0 <= k < |s.calls| :: ResultFits(k, s.calls[k]) && FailureIsNamed(s.calls[k].slot))
    && (s.reader.WantDrain? || s.reader.Draining? ==> s.reader.failure.Closed? || s.reader.failure.Protocol?)
  }

  lemma OwnStepKeepsResult(s: State, k: nat, move: CallStep)
    requires TableOk(s) && FailuresOk(s) && CallEnabled(s, k, move)
    ensures k < |CallApply(s, k, move).calls| && ResultFits(k, CallApply(s, k, move).calls[k])
  {
    StepCompletes(s, ByCall(k, move), k);
    CallMoves(s, k, move);
    assert ResultFits(k, s.calls[k]) && PhaseOk(k, s.calls[k]);
  }

  lemma OtherStepKeepsResult(s: State, step: Step, k: nat)
    requires TableOk(s) && FailuresOk(s) && Enabled(s, step) && k < |s.calls| && !(step.ByCall? && step.k == k)
    ensures k < |Apply(s, step).calls| && ResultFits(k, Apply(s, step).calls[k])
  {
    StepCompletes(s, step, k);
    PhaseMoves(s, step, k);
    assert ResultFits(k, s.calls[k]) && PhaseOk(k, s.calls[k]);
  }

  lemma FailuresKept(s: State, step: Step)
    requires TableOk(s) && FailuresOk(s) && Enabled(s, step)
    ensures FailuresOk(Apply(s, step))
  {
    var s' := Apply(s, step);
    forall k | 0 <= k < |s'.calls| ensures ResultFits(k, s'.calls[k]) && FailureIsNamed(s'.calls[k].slot) {
      if k < |s.calls| {
        StepCompletes(s, step, k);
        if step.ByCall? && step.k == k {
          OwnStepKeepsResult(s, k, step.move);
        } else {
          OtherStepKeepsResult(s, step, k);
        }
      } else {
        NewCallsAreVacant(s, step, k);
      }
    }
  }

  lemma NewCallsAreVacant(s: State, step: Step, k: nat)
    requires Enabled(s, step) && |s.calls| <= k < |Apply(s, step).calls|
    ensures ResultFits(k, Apply(s, step).calls[k]) && Apply(s, step).calls[k].slot.Vacant?
  {
    match step
    case ByCall(j, move) => CallMoves(s, j, move);
    case _ =>
  }

  /** Frame `j` of the server was handed to a call with its id, together with its answer. */
  ghost predicate HandedOut(calls: seq<Call>, j: nat, frame: ServerFrame) {
    frame.Response? &&
    exists k :: 0 <= k < |calls| && calls[k].slot == Delivered(j, frame.answer) && RequestId(k) == frame.id
  }

  /** Every frame was handed out, but for the newest one: it is on its way, or it ended the session. */
  ghost predicate FramesOk(s: State) {
    && (s.closed <==> s.reader.WantDrain? || s.reader.Draining? || s.reader.Stopped?)
    && (forall j | 0 <= j < |s.inbox| && !HandedOut(s.calls, j, s.inbox[j]) ::
          && j == |s.inbox| - 1 && (AtPending(s.reader) || s.closed)
          && (s.reader.WantDrain? || s.reader.Draining? ==> s.reader.failure.Protocol?))
  }

  lemma HandedOutStays(s: State, step: Step, j: nat)
    requires TableOk(s) && Enabled(s, step) && j < |s.inbox| && HandedOut(s.calls, j, s.inbox[j])
    ensures HandedOut(Apply(s, step).calls, j, s.inbox[j])
  {
    var k :| 0 <= k < |s.calls| && s.calls[k].slot == Delivered(j, s.inbox[j].answer) && RequestId(k) == s.inbox[j].id;
    StepCompletes(s, step, k);
    assert PhaseOk(k, s.calls[k]);
    assert Apply(s, step).calls[k].slot == s.calls[k].slot;
  }

  lemma DeliveryIsHandedOut(s: State)
    requires TableOk(s) && ReaderEnabled(s, Deliver) && Newest(s).id in s.pending
    ensures HandedOut(ReaderApply(s, Deliver).calls, |s.inbox| - 1, Newest(s))
  {
    var k := s.pending[Newest(s).id];
    StepCompletes(s, ByReader(Deliver), k);
    assert ReaderApply(s, Deliver).calls[k].slot == Delivered(|s.inbox| - 1, Newest(s).answer);
  }

  lemma FramesKept(s: State, step: Step)
    requires TableOk(s) && FramesOk(s) && Enabled(s, step)
    ensures FramesOk(Apply(s, step))
  {
    var s' := Apply(s, step);
    forall j | 0 <= j < |s'.inbox| && !HandedOut(s'.calls, j, s'.inbox[j])
      ensures j == |s'.inbox| - 1 && (AtPending(s'.reader) || s'.closed)
      ensures s'.reader.WantDrain? || s'.reader.Draining? ==> s'.reader.failure.Protocol?
    {
      NotHandedOut(s, step, j);
    }
    ClosedKept(s, step);
  }

  lemma ClosedKept(s: State, step: Step)
    requires Enabled(s, step) && (s.closed <==> s.reader.WantDrain? || s.reader.Draining? || s.reader.Stopped?)
    ensures var s' := Apply(s, step);
            s'.closed <==> s'.reader.WantDrain? || s'.reader.Draining? || s'.reader.Stopped?
  {
    match step
    case ByCall(k, move) => CallMoves(s, k, move);
    case _ =>
  }

  lemma NotHandedOut(s: State, step: Step, j: nat)
    requires TableOk(s) && FramesOk(s) && Enabled(s, step)
    requires j < |Apply(s, step).inbox| && !HandedOut(Apply(s, step).calls, j, Apply(s, step).inbox[j])
    ensures var s' := Apply(s, step);
            && j == |s'.inbox| - 1 && (AtPending(s'.reader) || s'.closed)
            && (s'.reader.WantDrain? || s'.reader.Draining? ==> s'.reader.failure.Protocol?)
  {
    if j < |s.inbox| && HandedOut(s.calls, j, s.inbox[j]) {
      HandedOutStays(s, step, j);
    }
    match step
    case ByReader(step) =>
      if step == Deliver && Newest(s).id in s.pending {
        DeliveryIsHandedOut(s);
      }
    case ByCall(k, move) => CallMoves(s, k, move);
    case _ =>
  }

  // ---------------------------------------------------------------- every run

  ghost predicate Dutiful(s: State) {
    Safe(s) && FailuresOk(s) && FramesOk(s)
  }

  lemma StepIsDutiful(s: State, step: Step)
    requires Dutiful(s) && Enabled(s, step)
    ensures Dutiful(Apply(s, step))
  {
    StepIsSafe(s, step);
    FailuresKept(s, step);
    FramesKept(s, step);
  }

  lemma {:induction false} RunIsDutiful(maxInFlight: nat, steps: seq<Step>)
    requires Exec(maxInFlight, steps).Some?
    ensures Dutiful(Exec(maxInFlight, steps).value)
    decreases |steps|
  {
    if steps != [] {
      RunIsDutiful(maxInFlight, steps[..|steps| - 1]);
      StepIsDutiful(Exec(maxInFlight, steps[..|steps| - 1]).value, steps[|steps| - 1]);
    }
  }

  lemma ReachableIsDutiful(s: State)
    requires Reachable(s)
    ensures Dutiful(s)
  {
    var steps :| Exec(s.maxInFlight, steps) == Some(s);
    RunIsDutiful(s.maxInFlight, steps);
  }

  lemma {:induction false} PrefixRuns(maxInFlight: nat, steps: seq<Step>, n: nat)
    requires n <= |steps| && Exec(maxInFlight, steps).Some?
    ensures Exec(maxInFlight, steps[..n]).Some?
    decreases |steps|
  {
    if n == |steps| {
      assert steps[..n] == steps;
    } else {
      assert steps[..|steps| - 1][..n] == steps[..n];
      PrefixRuns(maxInFlight, steps[..|steps| - 1], n);
    }
  }

  /** The state after the first `n` steps. */
  ghost function After(maxInFlight: nat, steps: seq<Step>, n: nat): State
    requires n <= |steps| && Exec(maxInFlight, steps).Some?
  {
    PrefixRuns(maxInFlight, steps, n);
    Exec(maxInFlight, steps[..n]).value
  }

  lemma AfterNext(maxInFlight: nat, steps: seq<Step>, n: nat)
    requires n < |steps| && Exec(maxInFlight, steps).Some?
    ensures Enabled(After(maxInFlight, steps, n), steps[n]) && Dutiful(After(maxInFlight, steps, n))
    ensures After(maxInFlight, steps, n + 1) == Apply(After(maxInFlight, steps, n), steps[n])
  {
    PrefixRuns(maxInFlight, steps, n);
    PrefixRuns(maxInFlight, steps, n + 1);
    RunIsDutiful(maxInFlight, steps[..n]);
    assert steps[..n + 1][..n] == steps[..n] && steps[..n + 1][n] == steps[n];
  }

  /** What holds after the first `n` steps, and is kept by the kind of steps that follow, holds in the end. */
  lemma {:induction false} RunKeeps(maxInFlight: nat, steps: seq<Step>, n: nat, holds: State -> bool,
                                    kind: Step -> bool)
    requires n <= |steps| && Exec(maxInFlight, steps).Some? && holds(After(maxInFlight, steps, n))
    requires forall i | n <= i < |steps| :: kind(steps[i])
    requires forall s, step | Dutiful(s) && holds(s) && kind(step) && Enabled(s, step) :: holds(Apply(s, step))
    ensures holds(Exec(maxInFlight, steps).value)
    decreases |steps| - n
  {
    if n == |steps| {
      assert steps[..n] == steps;
    } else {
      AfterNext(maxInFlight, steps, n);
      RunKeeps(maxInFlight, steps, n + 1, holds, kind);
    }
  }

  /** What a call reports is what became of its entry, failure by failure. */
  lemma ResultsAreExplained(s: State, k: nat)
    requires Reachable(s) && k < |s.calls|
    ensures ResultFits(k, s.calls[k])
  {
    ReachableIsDutiful(s);
  }

  /** A call that has ended keeps its entry only when encoding its request failed or it was dropped. */
  lemma OnlyTheseLeakEntries(s: State, id: nat)
    requires Reachable(s) && id in s.pending
    ensures s.pending[id] < |s.calls|
    ensures var phase := s.calls[s.pending[id]].phase;
            phase.Finished? || phase.CancellingLate? ==> phase == Finished(Err(Encoding))
  {
    ReachableIsDutiful(s);
    OwnerIsOpen(s, id);
  }

  lemma OwnerIsOpen(s: State, id: nat)
    requires TableOk(s) && FailuresOk(s) && id in s.pending
    ensures s.pending[id] < |s.calls|
    ensures var phase := s.calls[s.pending[id]].phase;
            phase.Finished? || phase.CancellingLate? ==> phase == Finished(Err(Encoding))
  {
    assert ResultFits(s.pending[id], s.calls[s.pending[id]]);
  }

  /**
    Every frame the server sent is a response that was handed to a call with its id. The only exception is the newest
    frame: the reader is on its way to hand it out, or it has ended the session.
   */
  lemma EveryFrameIsHandedOut(s: State, j: nat)
    requires Reachable(s) && j < |s.inbox|
    ensures HandedOut(s.calls, j, s.inbox[j]) || (j == |s.inbox| - 1 && (AtPending(s.reader) || s.closed))
    ensures !HandedOut(s.calls, j, s.inbox[j]) && (s.reader.WantDrain? || s.reader.Draining?) ==>
              s.reader.failure == Protocol
    ensures s.closed <==> s.reader.WantDrain? || s.reader.Draining? || s.reader.Stopped?
  {
    ReachableIsDutiful(s);
  }

  // ---------------------------------------------------------------- a completion decides

  /** A call that waits, or has ended, as its completion says. */
  predicate EndsAs(slot: Slot, phase: CallPhase) {
    || phase.Awaiting?
    || (slot.Delivered? && phase == Finished(Ok(slot.answer)))
    || (slot.Failed? && phase == Finished(Err(slot.failure)))
    || (slot.Withdrawn? && phase == Finished(Err(Closed)))
  }

  /** The completion is there, and the call waits or has ended with it. */
  ghost predicate Decided(s: State, k: nat, slot: Slot) {
    k < |s.calls| && Settled(slot) && s.calls[k].slot == slot && EndsAs(slot, s.calls[k].phase)
  }

  /** From step `n` on call `k` neither times out nor is dropped. */
  predicate Patient(steps: seq<Step>, n: nat, k: nat) {
    forall i | n <= i < |steps| :: steps[i] != ByCall(k, TimeOut) && steps[i] != ByCall(k, Drop)
  }

  lemma DecisionStays(s: State, step: Step, k: nat, slot: Slot)
    requires TableOk(s) && Enabled(s, step) && Decided(s, k, slot)
    requires step != ByCall(k, TimeOut) && step != ByCall(k, Drop)
    ensures Decided(Apply(s, step), k, slot)
  {
    StepCompletes(s, step, k);
    PhaseMoves(s, step, k);
    assert PhaseOk(k, s.calls[k]);
  }

  /** A waiting call whose completion is there ends with it and with nothing else, whatever else happens. */
  lemma CompletionDecides(maxInFlight: nat, steps: seq<Step>, n: nat, k: nat, slot: Slot)
    requires n <= |steps| && Exec(maxInFlight, steps).Some?
    requires Decided(After(maxInFlight, steps, n), k, slot) && Patient(steps, n, k)
    ensures Decided(Exec(maxInFlight, steps).value, k, slot)
  {
    var kind := (step: Step) => step != ByCall(k, TimeOut) && step != ByCall(k, Drop);
    forall s, step | Dutiful(s) && Decided(s, k, slot) && kind(step) && Enabled(s, step)
      ensures Decided(Apply(s, step), k, slot)
    {
      DecisionStays(s, step, k, slot);
    }
    RunKeeps(maxInFlight, steps, n, s => Decided(s, k, slot), kind);
  }

  lemma CancelDecides(s: State, c: nat, k: nat)
    requires TableOk(s) && CancelEnabled(s, c, CRemove) && k < |s.calls| && RequestId(k) == s.cancels[c].id
    requires s.calls[k].slot.Registered? && s.calls[k].phase.Awaiting?
    ensures Decided(Apply(s, ByCancel(c, CRemove)), k, Failed(CancelledByUser))
  {
    StepCompletes(s, ByCancel(c, CRemove), k);
    PhaseMoves(s, ByCancel(c, CRemove), k);
  }

  /** A call cancelled while it waits ends as cancelled, unless it times out or is dropped first. */
  lemma CancelledCallEndsCancelled(maxInFlight: nat, steps: seq<Step>, n: nat, c: nat, k: nat)
    requires n < |steps| && Exec(maxInFlight, steps).Some? && steps[n] == ByCancel(c, CRemove)
    requires var s := After(maxInFlight, steps, n);
             && c < |s.cancels| && k < |s.calls| && RequestId(k) == s.cancels[c].id
             && s.calls[k].slot.Registered? && s.calls[k].phase.Awaiting?
    requires Patient(steps, n, k)
    ensures var s' := Exec(maxInFlight, steps).value;
            k < |s'.calls| && (s'.calls[k].phase.Awaiting? || s'.calls[k].phase == Finished(Err(CancelledByUser)))
  {
    AfterNext(maxInFlight, steps, n);
    CancelDecides(After(maxInFlight, steps, n), c, k);
    CompletionDecides(maxInFlight, steps, n + 1, k, Failed(CancelledByUser));
  }

  // ---------------------------------------------------------------- the end of the session

  /** Once the stream has ended, a registered call can only be told so, or be taken out in another way. */
  predicate ToldOfEnd(slot: Slot, failure: Failure) {
    slot == Failed(failure) || slot == Failed(CancelledByUser) || slot == Failed(Closed) || slot.Withdrawn?
  }

  /** The session is over because of `failure`, and call `k` has been told, or will be before the reader stops. */
  ghost predicate Ending(s: State, failure: Failure, k: nat) {
    && s.closed && (s.reader == WantDrain(failure) || s.reader == Draining(failure) || s.reader.Stopped?)
    && k < |s.calls|
    && (ToldOfEnd(s.calls[k].slot, failure) || (s.calls[k].slot.Registered? && !s.reader.Stopped?))
  }

  lemma EndBegins(s: State, failure: Failure, k: nat)
    requires Enabled(s, ByReader(ReadEnds(failure))) && k < |s.calls| && s.calls[k].slot.Registered?
    ensures Ending(Apply(s, ByReader(ReadEnds(failure))), failure, k)
  {
  }

  lemma EndGoesOn(s: State, step: Step, failure: Failure, k: nat)
    requires TableOk(s) && Enabled(s, step) && Ending(s, failure, k)
    ensures Ending(Apply(s, step), failure, k)
  {
    StepCompletes(s, step, k);
    assert PhaseOk(k, s.calls[k]);
    match step
    case ByCall(j, move) => CallMoves(s, j, move);
    case _ =>
  }

  /** The stream ends with a failure: every call that is registered then has been told when the reader has stopped. */
  lemma EndReachesEveryCall(maxInFlight: nat, steps: seq<Step>, n: nat, failure: Failure, k: nat)
    requires n < |steps| && Exec(maxInFlight, steps).Some? && steps[n] == ByReader(ReadEnds(failure))
    requires var s := After(maxInFlight, steps, n); k < |s.calls| && s.calls[k].slot.Registered?
    ensures Ending(Exec(maxInFlight, steps).value, failure, k)
  {
    AfterNext(maxInFlight, steps, n);
    EndBegins(After(maxInFlight, steps, n), failure, k);
    forall s, step | Dutiful(s) && Ending(s, failure, k) && Enabled(s, step)
      ensures Ending(Apply(s, step), failure, k)
    {
      EndGoesOn(s, step, failure, k);
    }
    RunKeeps(maxInFlight, steps, n + 1, s => Ending(s, failure, k), _ => true);
  }

  // ---------------------------------------------------------------- cancels that nothing disturbs

  /** No cancel is dropped half-way, and none fails in its write. */
  predicate Undisturbed(step: Step) {
    step.ByCancel? ==> step.act != CDrop && (step.act.CWrite? ==> step.act.write == Written)
  }

  /** Cancels past their write have written their frame, a call that timed out has one of its own. */
  ghost predicate CancelsOk(s: State) {
    && (forall c | 0 <= c < |s.cancels| && !s.cancels[c].phase.CWantWriter? && !s.cancels[c].phase.CWriting? ::
          s.cancels[c].id == 0 || Cancel(s.cancels[c].id) in s.outbox)
    && (forall k | 0 <= k < |s.calls| && s.calls[k].phase.CancellingLate? ::
          var c := s.calls[k].phase.c; c < |s.cancels| && s.cancels[c].id == RequestId(k))
    && (forall k | 0 <= k < |s.calls| && s.calls[k].phase == Finished(Err(Timeout)) ::
          Cancel(RequestId(k)) in s.outbox)
  }

  lemma SentStays(a: seq<ClientFrame>, b: seq<ClientFrame>)
    requires a <= b
    ensures forall f <- a :: f in b
  {
    assert forall i | 0 <= i < |a| :: a[i] == b[i];
  }

  /** A call times out by starting a cancel of its id and by waiting for that cancel. */
  lemma TimesOut(s: State, k: nat, move: CallStep)
    requires TableOk(s) && FailuresOk(s) && CallEnabled(s, k, move)
    ensures var phase', s' := CallPhaseAfter(s, k, move), CallApply(s, k, move);
            && (phase' == Finished(Err(Timeout)) ==> s.calls[k].phase.CancellingLate? && move.EndLateCancel?)
            && (phase'.CancellingLate? ==> phase'.c == |s.cancels| < |s'.cancels|)
            && (s'.cancels == s.cancels
                || (RequestId(k) != 0 && s'.cancels == s.cancels + [CancelCall(RequestId(k), CWantWriter)]))
  {
    assert PhaseOk(k, s.calls[k]) && FailureIsNamed(s.calls[k].slot);
  }

  lemma CancelsKeptByCall(s: State, k: nat, move: CallStep)
    requires TableOk(s) && FailuresOk(s) && CancelsOk(s) && CallEnabled(s, k, move)
    ensures CancelsOk(CallApply(s, k, move))
  {
    TimesOut(s, k, move);
    CallMoves(s, k, move);
    OutboxGrows(s, ByCall(k, move));
    SentStays(s.outbox, CallApply(s, k, move).outbox);
    assert PhaseOk(k, s.calls[k]);
    LateKeepsCancels(s, CallApply(s, k, move), k, move);
  }

  lemma LateKeepsCancels(s: State, s': State, k: nat, move: CallStep)
    requires CancelsOk(s) && CallEnabled(s, k, move) && CallMoved(s, s', k, move)
    requires (forall f <- s.outbox :: f in s'.outbox) && (s.calls[k].phase.CancellingLate? ==> RequestId(k) != 0)
    requires var phase' := CallPhaseAfter(s, k, move);
             && (phase' == Finished(Err(Timeout)) ==> s.calls[k].phase.CancellingLate? && move.EndLateCancel?)
             && (phase'.CancellingLate? ==> phase'.c == |s.cancels| < |s'.cancels|)
    requires s'.cancels == s.cancels
             || (RequestId(k) != 0 && s'.cancels == s.cancels + [CancelCall(RequestId(k), CWantWriter)])
    ensures CancelsOk(s')
  {
    forall j | 0 <= j < |s'.calls| && s'.calls[j].phase == Finished(Err(Timeout))
      ensures Cancel(RequestId(j)) in s'.outbox
    {
      if j == k {
        assert s.cancels[s.calls[k].phase.c].id == RequestId(k);
      }
    }
  }

  lemma CancelsKeptByCancel(s: State, c: nat, act: CancelStep)
    requires CancelsOk(s) && CancelEnabled(s, c, act) && Undisturbed(ByCancel(c, act))
    ensures CancelsOk(CancelApply(s, c, act))
  {
    var s' := CancelApply(s, c, act);
    OutboxGrows(s, ByCancel(c, act));
    SentStays(s.outbox, s'.outbox);
    SettledPhasesStay(s, c, act);
  }

  lemma SettledPhasesStay(s: State, c: nat, act: CancelStep)
    requires CancelEnabled(s, c, act)
    ensures var s' := CancelApply(s, c, act);
            |s'.calls| == |s.calls| && forall k | 0 <= k < |s.calls| :: s'.calls[k].phase == s.calls[k].phase
  {
  }

  lemma CancelsKept(s: State, step: Step)
    requires TableOk(s) && FailuresOk(s) && CancelsOk(s) && Enabled(s, step) && Undisturbed(step)
    ensures CancelsOk(Apply(s, step))
  {
    match step
    case ByCall(k, move) => CancelsKeptByCall(s, k, move);
    case ByCancel(c, act) => CancelsKeptByCancel(s, c, act);
    case _ => OthersKeepCancels(s, step);
  }

  lemma OthersKeepCancels(s: State, step: Step)
    requires CancelsOk(s) && Enabled(s, step) && !step.ByCall? && !step.ByCancel?
    ensures CancelsOk(Apply(s, step))
  {
    var s' := Apply(s, step);
    assert s'.outbox == s.outbox && s.cancels <= s'.cancels && |s.calls| <= |s'.calls|;
    assert forall k | 0 <= k < |s.calls| :: s'.calls[k].phase == s.calls[k].phase;
  }

  lemma RunKeepsCancels(maxInFlight: nat, steps: seq<Step>)
    requires Exec(maxInFlight, steps).Some? && forall i | 0 <= i < |steps| :: Undisturbed(steps[i])
    ensures CancelsOk(Exec(maxInFlight, steps).value)
  {
    forall s, step | Dutiful(s) && CancelsOk(s) && Undisturbed(step) && Enabled(s, step)
      ensures CancelsOk(Apply(s, step))
    {
      CancelsKept(s, step);
    }
    RunKeeps(maxInFlight, steps, 0, s => CancelsOk(s), Undisturbed);
  }

  /** A call that timed out has told the server, and so has every cancel that is done. */
  lemma TimeoutIsSent(maxInFlight: nat, steps: seq<Step>, k: nat, c: nat)
    requires Exec(maxInFlight, steps).Some? && forall i | 0 <= i < |steps| :: Undisturbed(steps[i])
    ensures var s := Exec(maxInFlight, steps).value;
            && (k < |s.calls| && s.calls[k].phase == Finished(Err(Timeout)) ==> Cancel(RequestId(k)) in s.outbox)
            && (c < |s.cancels| && s.cancels[c].phase.CDone? && s.cancels[c].id != 0 ==>
                  Cancel(s.cancels[c].id) in s.outbox)
  {
    RunKeepsCancels(maxInFlight, steps);
  }

  /** Call `k` is registered and a cancel of its id is under way, or the call has its completion. */
  ghost predicate BeingCancelled(s: State, c: nat, k: nat) {
    && k < |s.calls| && c < |s.cancels| && s.cancels[c].id == RequestId(k)
    && (Settled(s.calls[k].slot) || (s.calls[k].slot.Registered? && !s.cancels[c].phase.CDone?))
  }

  lemma CancelGoesOn(s: State, step: Step, c: nat, k: nat)
    requires TableOk(s) && Enabled(s, step) && Undisturbed(step) && BeingCancelled(s, c, k)
    ensures BeingCancelled(Apply(s, step), c, k)
  {
    StepCompletes(s, step, k);
    assert PhaseOk(k, s.calls[k]);
    match step
    case ByCall(j, move) => CallMoves(s, j, move);
    case _ =>
  }

  /** Once a cancel that nothing disturbs is done, the call it was for has its completion. */
  lemma CancelSettles(maxInFlight: nat, steps: seq<Step>, n: nat, c: nat, k: nat)
    requires n <= |steps| && Exec(maxInFlight, steps).Some? && BeingCancelled(After(maxInFlight, steps, n), c, k)
    requires forall i | n <= i < |steps| :: Undisturbed(steps[i])
    ensures BeingCancelled(Exec(maxInFlight, steps).value, c, k)
  {
    forall s, step | Dutiful(s) && BeingCancelled(s, c, k) && Undisturbed(step) && Enabled(s, step)
      ensures BeingCancelled(Apply(s, step), c, k)
    {
      CancelGoesOn(s, step, c, k);
    }
    RunKeeps(maxInFlight, steps, n, s => BeingCancelled(s, c, k), Undisturbed);
  }
}
