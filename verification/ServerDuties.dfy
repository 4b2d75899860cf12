/** What a server connection is bound to do: every frame is dealt with, every cancel is heeded, every answer is sent. */
module ServerDuties {
  import opened Wrappers
  import opened Locks
  import opened Wire
  import opened ServerConnection
  import opened ServerSafety

  // ---------------------------------------------------------------- admission

  /** A request is refused for the limit exactly when that many tasks are alive, and admitted otherwise. */
  lemma RefusedExactlyWhenFull(s: State)
    requires Reachable(s) && LoopEnabled(s, Decide) && s.log.Newest().Request?
    ensures Decided(s).loop == if Live(s.tasks) == s.limit then RefuseWant(OverLimit) else Admitted
    ensures Live(s.tasks) <= s.limit
  {
    ReachableIsSafe(s);
  }

  // ---------------------------------------------------------------- frames

  /** The loop is not done with the newest frame, and will not be if it has failed. */
  predicate AtNewest(loop: LoopPhase) {
    LoopBusy(loop) || loop.CancelWant? || loop.Cancelling? || loop == Exited(false)
  }

  /** The frames the loop is done with. */
  function Done(s: State): nat {
    if AtNewest(s.loop) && |s.log.inbox| > 0 then |s.log.inbox| - 1 else |s.log.inbox|
  }

  /** A reply with this answer to frame `src` is on the wire. */
  predicate Replied(log: Log, src: nat, answer: Answer) {
    src in log.replyAt && src in log.produced && log.produced[src] == answer
  }

  /** Spawned, refused for the limit, or refused for its body: what became of a request. */
  predicate DealtWith(log: Log, src: nat)
    requires src < |log.inbox|
  {
    var frame := log.inbox[src];
    && !frame.Stray?
    && (frame.Request? ==>
          || Replied(log, src, OverLimit)
          || (frame.opcode.Known? && frame.body.Garbage? && Replied(log, src, BadRequest))
          || (frame.opcode.Known? && frame.body.Decodes? && src in log.taskOf))
  }

  /** A refusal names its reason. */
  predicate RefusalOk(log: Log, loop: LoopPhase) {
    loop.RefuseWant? || loop.Refusing? ==>
      && |log.inbox| > 0 && log.Newest().Request?
      && (loop.answer == OverLimit
          || (loop.answer == BadRequest && log.Newest().opcode.Known? && log.Newest().body.Garbage?))
  }

  ghost predicate FramesOk(s: State) {
    RefusalOk(s.log, s.loop) && forall src | 0 <= src < Done(s) :: DealtWith(s.log, src)
  }

  lemma DealtStays(log: Log, log': Log, src: nat)
    requires src < |log.inbox| && DealtWith(log, src) && log.inbox <= log'.inbox
    requires forall i <- log.replyAt :: i in log'.replyAt
    requires forall i <- log.taskOf :: i in log'.taskOf
    requires forall i <- log.produced | i in log.replyAt :: i in log'.produced && log'.produced[i] == log.produced[i]
    ensures DealtWith(log', src)
  {
    assert log'.inbox[src] == log.inbox[src];
  }

  lemma NewestIsDealtWith(s: State, step: LoopStep)
    requires AnswersOk(s.log, s.loop, s.tasks) && TableOk(s) && RefusalOk(s.log, s.loop) && LoopEnabled(s, step)
    requires AtNewest(s.loop) && !AtNewest(LoopApply(s, step).loop) && |s.log.inbox| > 0
    ensures DealtWith(LoopApply(s, step).log, |s.log.inbox| - 1)
  {
  }

  lemma FramesKeptByLoop(s: State, step: LoopStep)
    requires AnswersOk(s.log, s.loop, s.tasks) && TableOk(s) && FramesOk(s) && LoopEnabled(s, step)
    ensures FramesOk(LoopApply(s, step))
  {
    var s' := LoopApply(s, step);
    DoneGrows(s, step);
    forall src | 0 <= src < Done(s') ensures DealtWith(s'.log, src) {
      if src < Done(s) {
        LogGrows(s, step);
        DealtStays(s.log, s'.log, src);
      } else {
        NewestIsDealtWith(s, step);
      }
    }
  }

  lemma DoneGrows(s: State, step: LoopStep)
    requires LoopEnabled(s, step) && RefusalOk(s.log, s.loop)
    ensures var s' := LoopApply(s, step);
            && RefusalOk(s'.log, s'.loop)
            && (Done(s') <= Done(s)
                || (AtNewest(s.loop) && !AtNewest(s'.loop) && |s.log.inbox| > 0 && Done(s') == |s.log.inbox|))
  {
  }

  lemma LogGrows(s: State, step: LoopStep)
    requires AnswersOk(s.log, s.loop, s.tasks) && LoopEnabled(s, step)
    ensures var log, log' := s.log, LoopApply(s, step).log;
            && log.inbox <= log'.inbox
            && (forall i <- log.replyAt :: i in log'.replyAt) && (forall i <- log.taskOf :: i in log'.taskOf)
            && (forall i <- log.produced | i in log.replyAt ::
                  i in log'.produced && log'.produced[i] == log.produced[i])
  {
  }

  lemma FramesKeptByTask(s: State, i: nat, move: TaskStep)
    requires AnswersOk(s.log, s.loop, s.tasks) && FramesOk(s) && TaskEnabled(s, i, move)
    ensures FramesOk(TaskApply(s, i, move))
  {
    var s' := TaskApply(s, i, move);
    assert TaskOk(s.log, i, s.tasks[i]);
    forall src | 0 <= src < Done(s') ensures DealtWith(s'.log, src) {
      DealtStays(s.log, s'.log, src);
    }
  }

  // ---------------------------------------------------------------- cancels

  /** The loop is at the newest frame, a cancel, or has failed; all cancels before that have been heard. */
  function Heard(s: State): nat {
    if (s.loop.Deciding? || s.loop.CancelWant? || s.loop.Cancelling? || s.loop == Exited(false)) && |s.log.inbox| > 0
    then |s.log.inbox| - 1 else |s.log.inbox|
  }

  /** The task for request `src`, if there is one, is gone, or aborted and told so; the map does not know its id. */
  predicate Stopped(s: State, src: nat)
    requires src < |s.log.inbox| && s.log.inbox[src].Request?
  {
    && s.log.inbox[src].id !in s.pending
    && (src in s.log.taskOf ==>
          var i := s.log.taskOf[src];
          i < |s.tasks| && (s.tasks[i].phase.Gone? || (i in s.aborted && i in s.signalled)))
  }

  /** Frame `c` cancels request `src`. */
  predicate Cancels(inbox: seq<ClientFrame>, src: nat, c: nat) {
    src < c < |inbox| && inbox[src].Request? && inbox[c] == Cancel(inbox[src].id)
  }

  ghost predicate CancelsOk(s: State) {
    forall src: nat, c: nat | Cancels(s.log.inbox, src, c) && c < Heard(s) && !Repeated(s.log.inbox, src) ::
      Stopped(s, src)
  }

  /** The task being inserted is that of the newest frame. */
  predicate NewestSpawned(s: State) {
    AtInsert(s.loop) ==>
      && |s.tasks| > 0 && |s.tasks| - 1 !in s.aborted
      && |s.log.inbox| > 0 && s.tasks[|s.tasks| - 1].src == |s.log.inbox| - 1
  }

  /** `taskOf` names the task spawned for a frame. */
  ghost predicate SpawnsOk(s: State) {
    forall src <- s.log.taskOf :: s.log.taskOf[src] < |s.tasks| && s.tasks[s.log.taskOf[src]].src == src
  }

  /** Safe, and no live task is out of reach but for those the run has lost. */
  ghost predicate Sound(s: State) {
    Safe(s) && exists lost :: Tracks(s, lost)
  }

  lemma UnrepeatedIsInReach(s: State, i: nat)
    requires Sound(s) && i < |s.tasks| && LiveTask(s.tasks, s.aborted, i) && !Repeated(s.log.inbox, s.tasks[i].src)
    ensures InReach(s, i)
  {
    var lost :| Tracks(s, lost);
    if i in lost {
      assert OutOfSight(s, i);
      TwinIsRepeated(s.log, s.loop, s.tasks, i);
    }
  }

  /** What a step of the loop may do to tasks and map. */
  ghost predicate LoopMoved(s: State, s': State, step: LoopStep) {
    && s.log.inbox <= s'.log.inbox && s.tasks <= s'.tasks && s.aborted <= s'.aborted && s.signalled <= s'.signalled
    && (step.Dispatch? || (s'.tasks == s.tasks && s'.log.taskOf == s.log.taskOf))
    && (step.Insert? || forall id <- s'.pending :: id in s.pending)
  }

  lemma LoopMoves(s: State, step: LoopStep)
    requires LoopEnabled(s, step)
    ensures LoopMoved(s, LoopApply(s, step), step)
  {
  }

  lemma SpawnsKeptByLoop(s: State, step: LoopStep)
    requires AnswersOk(s.log, s.loop, s.tasks) && SpawnsOk(s) && LoopEnabled(s, step)
    ensures SpawnsOk(LoopApply(s, step))
  {
    if !step.Dispatch? {
      LoopMoves(s, step);
    }
  }

  lemma NewestKeptByLoop(s: State, step: LoopStep)
    requires TableOk(s) && NewestSpawned(s) && LoopEnabled(s, step)
    ensures NewestSpawned(LoopApply(s, step))
  {
  }

  lemma SpawnsKeptByTask(s: State, i: nat, move: TaskStep)
    requires SpawnsOk(s) && NewestSpawned(s) && TaskEnabled(s, i, move)
    ensures SpawnsOk(TaskApply(s, i, move)) && NewestSpawned(TaskApply(s, i, move))
  {
  }

  /** The task just inserted does not have the id of an unrepeated request that came before. */
  lemma InsertsAnotherId(s: State, src: nat, c: nat)
    requires AnswersOk(s.log, s.loop, s.tasks) && NewestSpawned(s) && AtInsert(s.loop)
    requires Cancels(s.log.inbox, src, c) && !Repeated(s.log.inbox, src)
    ensures s.tasks[|s.tasks| - 1].id != s.log.inbox[src].id
  {
    assert TaskOk(s.log, |s.tasks| - 1, s.tasks[|s.tasks| - 1]);
  }

  lemma StopStaysByLoop(s: State, step: LoopStep, src: nat, c: nat)
    requires AnswersOk(s.log, s.loop, s.tasks) && NewestSpawned(s) && LoopEnabled(s, step)
    requires Cancels(s.log.inbox, src, c) && !Repeated(s.log.inbox, src) && Stopped(s, src)
    ensures var s' := LoopApply(s, step);
            src < |s'.log.inbox| && s'.log.inbox[src] == s.log.inbox[src] && Stopped(s', src)
  {
    LoopMoves(s, step);
    if step.Insert? {
      InsertsAnotherId(s, src, c);
    } else if step.Dispatch? {
      DispatchMoves(s);
    }
  }

  lemma DispatchMoves(s: State)
    requires LoopEnabled(s, Dispatch)
    ensures var s' := Dispatched(s);
            s'.log.taskOf == s.log.taskOf || s'.log.taskOf == s.log.taskOf[|s.log.inbox| - 1 := |s.tasks|]
  {
  }

  lemma TaskIsInReach(s: State, src: nat)
    requires Sound(s) && SpawnsOk(s) && src in s.log.taskOf && !Repeated(s.log.inbox, src)
    ensures var i := s.log.taskOf[src];
            i < |s.tasks| && (LiveTask(s.tasks, s.aborted, i) ==> InReach(s, i))
  {
    var i := s.log.taskOf[src];
    if LiveTask(s.tasks, s.aborted, i) {
      UnrepeatedIsInReach(s, i);
    }
  }

  lemma CancelIsHeeded(s: State, src: nat)
    requires AnswersOk(s.log, s.loop, s.tasks) && s.aborted <= s.signalled && SpawnsOk(s) && LoopEnabled(s, CancelEntry)
    requires Cancels(s.log.inbox, src, |s.log.inbox| - 1)
    requires src in s.log.taskOf ==>
               var i := s.log.taskOf[src];
               i < |s.tasks| && (LiveTask(s.tasks, s.aborted, i) ==> InReach(s, i))
    ensures Stopped(LoopApply(s, CancelEntry), src)
  {
    if src in s.log.taskOf {
      var i := s.log.taskOf[src];
      assert TaskOk(s.log, i, s.tasks[i]);
    }
  }

  /** Only handling a cancel frame makes one more cancel heard. */
  lemma NewlyHeard(s: State, step: LoopStep, src: nat, c: nat)
    requires LoopEnabled(s, step) && Cancels(LoopApply(s, step).log.inbox, src, c)
    requires Heard(s) <= c < Heard(LoopApply(s, step))
    requires s.loop.CancelWant? || s.loop.Cancelling? ==> |s.log.inbox| > 0 && s.log.Newest().Cancel?
    ensures step.CancelEntry? && c == |s.log.inbox| - 1 && LoopApply(s, step).log.inbox == s.log.inbox
  {
  }

  lemma InboxOnlyGrows(s: State, step: LoopStep, src: nat, c: nat)
    requires LoopEnabled(s, step) && Cancels(LoopApply(s, step).log.inbox, src, c) && c < Heard(s)
    ensures s.log.inbox <= LoopApply(s, step).log.inbox && Cancels(s.log.inbox, src, c)
  {
  }

  lemma CancelsKeptByLoop(s: State, step: LoopStep)
    requires Sound(s) && SpawnsOk(s) && NewestSpawned(s) && CancelsOk(s) && LoopEnabled(s, step)
    ensures CancelsOk(LoopApply(s, step))
  {
    var s' := LoopApply(s, step);
    forall src: nat, c: nat | Cancels(s'.log.inbox, src, c) && c < Heard(s') && !Repeated(s'.log.inbox, src)
      ensures Stopped(s', src)
    {
      if c < Heard(s) {
        InboxOnlyGrows(s, step, src, c);
        if Repeated(s.log.inbox, src) {
          RepeatedStays(s.log.inbox, s'.log.inbox, src);
        }
        StopStaysByLoop(s, step, src, c);
      } else {
        NewlyHeard(s, step, src, c);
        if src in s.log.taskOf {
          TaskIsInReach(s, src);
        }
        CancelIsHeeded(s, src);
      }
    }
  }

  lemma CancelsKeptByTask(s: State, i: nat, move: TaskStep)
    requires CancelsOk(s) && TaskEnabled(s, i, move)
    ensures CancelsOk(TaskApply(s, i, move))
  {
    var s' := TaskApply(s, i, move);
    forall src: nat, c: nat | Cancels(s'.log.inbox, src, c) && c < Heard(s') && !Repeated(s'.log.inbox, src)
      ensures Stopped(s', src)
    {
      assert Stopped(s, src);
    }
  }

  // ---------------------------------------------------------------- the entries of the map

  /** A task becomes stale when its entry is made after its end, or when it crashes and does not remove itself. */
  function StaleBy(s: State, step: Step): set<nat>
    requires Enabled(s, step)
  {
    match step
    case ByLoop(Insert) => if s.tasks[|s.tasks| - 1].phase.Gone? then {|s.tasks| - 1} else {}
    case ByTask(i, Crash) => {i}
    case _ => {}
  }

  /** The map knows no aborted task, and no ended one but the stale ones. */
  ghost predicate EntriesLive(s: State, stale: set<nat>) {
    && (forall i <- stale :: i < |s.tasks| && s.tasks[i].phase.Gone?)
    && (forall id <- s.pending :: s.pending[id] < |s.tasks| && s.pending[id] !in s.aborted
                                  && (s.tasks[s.pending[id]].phase.Gone? <==> s.pending[id] in stale))
  }

  lemma LiveKeptByLoop(s: State, stale: set<nat>, step: LoopStep)
    requires TableOk(s) && NewestSpawned(s) && EntriesLive(s, stale) && LoopEnabled(s, step)
    ensures EntriesLive(LoopApply(s, step), stale + StaleBy(s, ByLoop(step)))
  {
  }

  lemma LiveKeptByTask(s: State, stale: set<nat>, i: nat, move: TaskStep)
    requires TableOk(s) && EntriesLive(s, stale) && TaskEnabled(s, i, move)
    ensures EntriesLive(TaskApply(s, i, move), stale + StaleBy(s, ByTask(i, move)))
  {
  }

  /** All stale tasks of a run. */
  ghost function Stale(limit: nat, steps: seq<Step>): set<nat>
    requires Exec(limit, steps).Some?
    decreases |steps|
  {
    if steps == [] then {}
    else
      var front, step := steps[..|steps| - 1], steps[|steps| - 1];
      Stale(limit, front) + StaleBy(Exec(limit, front).value, step)
  }

  // ---------------------------------------------------------------- every run

  ghost predicate Dutiful(s: State) {
    Sound(s) && FramesOk(s) && CancelsOk(s) && SpawnsOk(s) && NewestSpawned(s)
  }

  lemma StepIsSound(s: State, step: Step)
    requires Sound(s) && Enabled(s, step)
    ensures Sound(Apply(s, step))
  {
    var lost :| Tracks(s, lost);
    StepIsSafe(s, step);
    TrackStep(s, lost, step);
  }

  lemma StepIsDutiful(s: State, step: Step)
    requires Dutiful(s) && Enabled(s, step)
    ensures Dutiful(Apply(s, step))
  {
    StepIsSound(s, step);
    match step
    case ByLoop(step) =>
      FramesKeptByLoop(s, step);
      CancelsKeptByLoop(s, step);
      SpawnsKeptByLoop(s, step);
      NewestKeptByLoop(s, step);
    case ByTask(i, move) =>
      FramesKeptByTask(s, i, move);
      CancelsKeptByTask(s, i, move);
      SpawnsKeptByTask(s, i, move);
  }

  lemma {:induction false} RunIsDutiful(limit: nat, steps: seq<Step>)
    requires Exec(limit, steps).Some?
    ensures Dutiful(Exec(limit, steps).value)
    decreases |steps|
  {
    if steps == [] {
      assert Tracks(Init(limit), {});
    } else {
      RunIsDutiful(limit, steps[..|steps| - 1]);
      StepIsDutiful(Exec(limit, steps[..|steps| - 1]).value, steps[|steps| - 1]);
    }
  }

  lemma ReachableIsDutiful(s: State)
    requires Reachable(s)
    ensures Dutiful(s)
  {
    var steps :| Exec(s.limit, steps) == Some(s);
    RunIsDutiful(s.limit, steps);
  }

  /** What holds at the start and is kept by every step of this kind holds in the end. */
  lemma {:induction false} RunKeeps(limit: nat, steps: seq<Step>, holds: State -> bool, kind: Step -> bool)
    requires Exec(limit, steps).Some? && holds(Init(limit)) && forall i | 0 <= i < |steps| :: kind(steps[i])
    requires forall s, step | Dutiful(s) && holds(s) && kind(step) && Enabled(s, step) :: holds(Apply(s, step))
    ensures holds(Exec(limit, steps).value)
    decreases |steps|
  {
    if steps != [] {
      var front := steps[..|steps| - 1];
      RunKeeps(limit, front, holds, kind);
      RunIsDutiful(limit, front);
    }
  }

  /**
    Whenever the loop waits for a frame, every frame received has been dealt with: a request was refused for the limit,
    refused for its body, or has a task; none was of another kind.
   */
  lemma EveryFrameIsDealtWith(s: State, src: nat)
    requires Reachable(s) && s.loop.Waiting? && src < |s.log.inbox|
    ensures DealtWith(s.log, src)
  {
    ReachableIsDutiful(s);
  }

  /**
    Cancelling works: whenever the loop waits for a frame, a cancel for a request whose id no other request has has
    taken the id out of the map, and the task, if there was one, is gone, or is aborted and was told so.
   */
  lemma CancelsAreHeeded(s: State, src: nat, c: nat)
    requires Reachable(s) && s.loop.Waiting? && Cancels(s.log.inbox, src, c) && !Repeated(s.log.inbox, src)
    ensures Stopped(s, src)
  {
    ReachableIsDutiful(s);
  }

  lemma {:induction false} RunKeepsEntries(limit: nat, steps: seq<Step>)
    requires Exec(limit, steps).Some?
    ensures EntriesLive(Exec(limit, steps).value, Stale(limit, steps))
    decreases |steps|
  {
    if steps != [] {
      var front := steps[..|steps| - 1];
      RunKeepsEntries(limit, front);
      RunIsDutiful(limit, front);
      EntriesStay(Exec(limit, front).value, Stale(limit, front), steps[|steps| - 1]);
    }
  }

  lemma EntriesStay(s: State, stale: set<nat>, step: Step)
    requires TableOk(s) && NewestSpawned(s) && EntriesLive(s, stale) && Enabled(s, step)
    ensures EntriesLive(Apply(s, step), stale + StaleBy(s, step))
  {
    match step
    case ByLoop(step) => LiveKeptByLoop(s, stale, step);
    case ByTask(i, move) => LiveKeptByTask(s, stale, i, move);
  }

  /** No entry outlives its task but for the stale ones; so only those can hold up a drain once all tasks have ended. */
  lemma EntriesOutliveOnlyTheStale(limit: nat, steps: seq<Step>, id: nat)
    requires Exec(limit, steps).Some? && id in Exec(limit, steps).value.pending
    ensures var s := Exec(limit, steps).value;
            && s.pending[id] < |s.tasks| && s.pending[id] !in s.aborted
            && (s.tasks[s.pending[id]].phase.Gone? <==> s.pending[id] in Stale(limit, steps))
  {
    RunKeepsEntries(limit, steps);
  }

  // ---------------------------------------------------------------- answers

  /** Task `i` is neither aborted nor crashes, and its encoding and its write work. */
  predicate GoesWell(step: Step, i: nat) {
    step.ByTask? && step.i == i ==>
      step.move != Reap && step.move != Crash && step.move != TakeEncode(false) && step.move != WriteReply(false)
  }

  /** Past its write, the task has answered its request. */
  predicate AnswerSent(s: State, i: nat) {
    i < |s.tasks| && (s.tasks[i].phase.WantPending? || s.tasks[i].phase.Removing? || s.tasks[i].phase.Gone?) ==>
      s.tasks[i].src in s.log.replyAt
  }

  lemma AnswerStaysByLoop(s: State, step: LoopStep, i: nat)
    requires AnswerSent(s, i) && LoopEnabled(s, step)
    ensures AnswerSent(LoopApply(s, step), i)
  {
  }

  lemma AnswerStaysByTask(s: State, j: nat, move: TaskStep, i: nat)
    requires AnswersOk(s.log, s.loop, s.tasks) && ScratchOk(s.tasks, s.scratch)
    requires AnswerSent(s, i) && GoesWell(ByTask(j, move), i) && TaskEnabled(s, j, move)
    ensures AnswerSent(TaskApply(s, j, move), i)
  {
    assert s.tasks[j].phase.Writing? ==> TaskHas(s.tasks[j], Encode);
  }

  /** A task that ends without a mishap has sent the answer of its handler. */
  lemma AnswersAreSent(limit: nat, steps: seq<Step>, i: nat)
    requires Exec(limit, steps).Some? && forall n | 0 <= n < |steps| :: GoesWell(steps[n], i)
    ensures AnswerSent(Exec(limit, steps).value, i)
  {
    forall s, step | Dutiful(s) && AnswerSent(s, i) && GoesWell(step, i) && Enabled(s, step)
      ensures AnswerSent(Apply(s, step), i)
    {
      match step
      case ByLoop(step) => AnswerStaysByLoop(s, step, i);
      case ByTask(j, move) => AnswerStaysByTask(s, j, move, i);
    }
    RunKeeps(limit, steps, s => AnswerSent(s, i), step => GoesWell(step, i));
  }

  // ---------------------------------------------------------------- the drain

  /** The drain looks at the map before its deadline. */
  predicate BeforeDeadline(step: Step) {
    step != ByLoop(LookAtPending(true))
  }

  /** Nothing but a cancel frame has aborted a task, and the drain goes on to its end when the map is empty. */
  ghost predicate AbortsOnlyCancelled(s: State) {
    && (s.loop.SweepWant? || s.loop.Sweeping? ==> s.pending == map[])
    && forall i <- s.aborted :: i < |s.tasks| && CancelSeen(s.log.inbox, s.tasks[i].id)
  }

  lemma SweepFindsNothing(s: State, step: LoopStep)
    requires TableOk(s) && AbortsOnlyCancelled(s) && LoopEnabled(s, step) && BeforeDeadline(ByLoop(step))
    ensures AbortsOnlyCancelled(LoopApply(s, step))
  {
  }

  lemma TasksAbortNobody(s: State, i: nat, move: TaskStep)
    requires AbortsOnlyCancelled(s) && TaskEnabled(s, i, move)
    ensures AbortsOnlyCancelled(TaskApply(s, i, move))
  {
  }

  /**
    A drain that ends before its deadline has waited: every task it could find, that no cancel frame asked to stop, has
    ended by itself.
   */
  lemma PatientDrainWaits(limit: nat, steps: seq<Step>, i: nat)
    requires Exec(limit, steps).Some? && forall n | 0 <= n < |steps| :: BeforeDeadline(steps[n])
    requires var s := Exec(limit, steps).value;
             && s.loop == Exited(true) && i < |s.tasks| && i !in Lost(limit, steps)
             && !CancelSeen(s.log.inbox, s.tasks[i].id)
    ensures Exec(limit, steps).value.tasks[i].phase.Gone?
  {
    forall s, step | Dutiful(s) && AbortsOnlyCancelled(s) && BeforeDeadline(step) && Enabled(s, step)
      ensures AbortsOnlyCancelled(Apply(s, step))
    {
      match step
      case ByLoop(step) => SweepFindsNothing(s, step);
      case ByTask(i, move) => TasksAbortNobody(s, i, move);
    }
    RunKeeps(limit, steps, s => AbortsOnlyCancelled(s), BeforeDeadline);
    OkExitLeavesTheLost(limit, steps, i);
  }

  /** With an empty map a drain ends at once, without reaching its deadline. */
  lemma EmptyMapEndsTheDrain(limit: nat, steps: seq<Step>) returns (more: seq<Step>)
    requires Resting(limit, steps) && Exec(limit, steps).value.pending == map[]
    ensures steps <= more && forall n | |steps| <= n < |more| :: BeforeDeadline(more[n])
    ensures Exec(limit, more).Some? && Exec(limit, more).value.loop == Exited(true)
    ensures Exec(limit, more).value.tasks == Exec(limit, steps).value.tasks
    ensures Exec(limit, more).value.aborted == Exec(limit, steps).value.aborted
  {
    ExecStep(limit, steps, ByLoop(StartDrain));
    var m1 := steps + [ByLoop(StartDrain)];
    ExecStep(limit, m1, ByLoop(TakeDrain));
    var m2 := m1 + [ByLoop(TakeDrain)];
    ExecStep(limit, m2, ByLoop(LookAtPending(false)));
    var m3 := m2 + [ByLoop(LookAtPending(false))];
    ExecStep(limit, m3, ByLoop(TakeSweep));
    var m4 := m3 + [ByLoop(TakeSweep)];
    ExecStep(limit, m4, ByLoop(Sweep));
    more := m4 + [ByLoop(Sweep)];
  }
}
