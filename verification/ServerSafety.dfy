/** What every interleaving of a server connection keeps. */
module ServerSafety {
  import opened Wrappers
  import opened Locks
  import opened Wire
  import opened ServerConnection

  // ---------------------------------------------------------------- locks

  predicate LoopHas(loop: LoopPhase, l: Lock) {
    match l
    case Writer => loop.Refusing?
    case Pending => loop.Inserting? || loop.Cancelling? || loop.DrainLooking? || loop.Sweeping?
    case _ => false
  }

  predicate TaskHas(t: Task, l: Lock) {
    match l
    case Mutate => t.mutating && t.phase.Handling?
    case Encode => t.phase.WantWriter? || t.phase.Writing?
    case Writer => t.phase.Writing?
    case Pending => t.phase.Removing?
    case Payload => false
  }

  function LoopWants(loop: LoopPhase): Option<Lock> {
    match loop
    case RefuseWant(_) => Some(Writer)
    case Spawned => Some(Pending)
    case CancelWant => Some(Pending)
    case DrainWant => Some(Pending)
    case SweepWant => Some(Pending)
    case _ => None
  }

  function TaskWants(t: Task): Option<Lock> {
    match t.phase
    case WantMutate => Some(Mutate)
    case WantEncode(_) => Some(Encode)
    case WantWriter(_) => Some(Writer)
    case WantPending => Some(Pending)
    case _ => None
  }

  function Wants(s: State): Actor -> Option<Lock> {
    (a: Actor) => match a
                 case Loop => LoopWants(s.loop)
                 case Worker(i) => if i < |s.tasks| then TaskWants(s.tasks[i]) else None
  }

  ghost predicate LocksOk(s: State) {
    && (forall l :: Holds(s.table, Loop, l) <==> LoopHas(s.loop, l))
    && (forall i, l | 0 <= i < |s.tasks| :: Holds(s.table, Worker(i), l) <==> TaskHas(s.tasks[i], l))
    && (forall l | l in s.table && s.table[l].Worker? :: s.table[l].index < |s.tasks|)
    && (forall i | 0 <= i < |s.tasks| && s.tasks[i].phase.WantMutate? :: s.tasks[i].mutating)
  }

  lemma LocksKeptByLoop(s: State, step: LoopStep)
    requires LocksOk(s) && LoopEnabled(s, step)
    ensures LocksOk(LoopApply(s, step))
  {
    var s' := LoopApply(s, step);
    forall l ensures Holds(s'.table, Loop, l) <==> LoopHas(s'.loop, l) {
      assert Holds(s.table, Loop, l) <==> LoopHas(s.loop, l);
    }
    forall i, l | 0 <= i < |s'.tasks| ensures Holds(s'.table, Worker(i), l) <==> TaskHas(s'.tasks[i], l) {
      if i < |s.tasks| {
        assert Holds(s.table, Worker(i), l) <==> TaskHas(s.tasks[i], l);
      }
    }
  }

  lemma LocksKeptByTask(s: State, i: nat, move: TaskStep)
    requires LocksOk(s) && TaskEnabled(s, i, move)
    ensures LocksOk(TaskApply(s, i, move))
  {
    var s' := TaskApply(s, i, move);
    forall l ensures Holds(s'.table, Loop, l) <==> LoopHas(s'.loop, l) {
      assert Holds(s.table, Loop, l) <==> LoopHas(s.loop, l);
    }
    forall j, l | 0 <= j < |s'.tasks| ensures Holds(s'.table, Worker(j), l) <==> TaskHas(s'.tasks[j], l) {
      assert Holds(s.table, Worker(j), l) <==> TaskHas(s.tasks[j], l);
    }
  }

  // ---------------------------------------------------------------- permits

  /** Tasks still holding their permit: a permit lives until the task is gone. */
  function Live(tasks: seq<Task>): nat {
    if tasks == [] then 0
    else Live(tasks[..|tasks| - 1]) + (if tasks[|tasks| - 1].phase.Gone? then 0 else 1)
  }

  lemma {:induction false} LiveSplit(a: seq<Task>, b: seq<Task>)
    ensures Live(a + b) == Live(a) + Live(b)
  {
    if b == [] {
      assert a + b == a;
    } else {
      assert (a + b)[..|a + b| - 1] == a + b[..|b| - 1];
      LiveSplit(a, b[..|b| - 1]);
    }
  }

  lemma LiveUpdate(tasks: seq<Task>, i: nat, t: Task)
    requires i < |tasks|
    ensures Live(tasks[i := t]) + (if tasks[i].phase.Gone? then 0 else 1)
         == Live(tasks) + (if t.phase.Gone? then 0 else 1)
  {
    assert tasks == tasks[..i] + ([tasks[i]] + tasks[i + 1..]);
    assert tasks[i := t] == tasks[..i] + ([t] + tasks[i + 1..]);
    LiveSplit(tasks[..i], [tasks[i]] + tasks[i + 1..]);
    LiveSplit(tasks[..i], [t] + tasks[i + 1..]);
    LiveSplit([tasks[i]], tasks[i + 1..]);
    LiveSplit([t], tasks[i + 1..]);
    assert Live([t]) == if t.phase.Gone? then 0 else 1;
    assert Live([tasks[i]]) == if tasks[i].phase.Gone? then 0 else 1;
  }

  predicate PermitsOk(s: State) {
    s.permits + (if s.loop.Admitted? then 1 else 0) + Live(s.tasks) == s.limit
  }

  lemma PermitsKeptByLoop(s: State, step: LoopStep)
    requires PermitsOk(s) && LoopEnabled(s, step)
    ensures PermitsOk(LoopApply(s, step))
  {
    var s' := LoopApply(s, step);
    if |s'.tasks| > |s.tasks| {
      LiveSplit(s.tasks, [s'.tasks[|s.tasks|]]);
    }
  }

  lemma PermitsKeptByTask(s: State, i: nat, move: TaskStep)
    requires PermitsOk(s) && TaskEnabled(s, i, move)
    ensures PermitsOk(TaskApply(s, i, move))
  {
    LiveUpdate(s.tasks, i, TaskApply(s, i, move).tasks[i]);
  }

  // ---------------------------------------------------------------- the shared encode buffer

  /** A task between encoding and writing finds its own reply in the shared buffer. */
  ghost predicate ScratchOk(tasks: seq<Task>, scratch: Option<Reply>) {
    forall i | 0 <= i < |tasks| && TaskHas(tasks[i], Encode) ::
      scratch == Some(Reply(tasks[i].id, tasks[i].phase.answer, tasks[i].src))
  }

  lemma ScratchKeptByLoop(s: State, step: LoopStep)
    requires ScratchOk(s.tasks, s.scratch) && LoopEnabled(s, step)
    ensures ScratchOk(LoopApply(s, step).tasks, LoopApply(s, step).scratch)
  {
  }

  /** The encode lock keeps every other task out while one has its reply in the buffer. */
  lemma ScratchKeptByTask(s: State, i: nat, move: TaskStep)
    requires LocksOk(s) && ScratchOk(s.tasks, s.scratch) && TaskEnabled(s, i, move)
    ensures ScratchOk(TaskApply(s, i, move).tasks, TaskApply(s, i, move).scratch)
  {
    var s' := TaskApply(s, i, move);
    forall j | 0 <= j < |s'.tasks| && TaskHas(s'.tasks[j], Encode)
      ensures s'.scratch == Some(Reply(s'.tasks[j].id, s'.tasks[j].phase.answer, s'.tasks[j].src))
    {
      assert Holds(s.table, Worker(j), Encode) <==> TaskHas(s.tasks[j], Encode);
    }
  }

  // ---------------------------------------------------------------- replies

  /** Frame `src` is a well-formed request with this id. */
  predicate Asked(log: Log, src: nat, id: nat) {
    src < |log.inbox| && log.inbox[src].Request? && log.inbox[src].id == id
  }

  predicate AnswerPending(p: Phase) {
    p.WantMutate? || p.Handling?
  }

  predicate AnswerKnown(p: Phase) {
    p.WantEncode? || p.WantWriter? || p.Writing?
  }

  /** Task `i` was spawned for a decodable request, and what is known of its answer fits its phase. */
  predicate TaskOk(log: Log, i: nat, t: Task) {
    && Asked(log, t.src, t.id)
    && log.inbox[t.src].opcode == Known(t.mutating) && log.inbox[t.src].body.Decodes?
    && t.src in log.taskOf && log.taskOf[t.src] == i
    && (AnswerPending(t.phase) ==> t.src !in log.produced && t.src !in log.replyAt)
    && (AnswerKnown(t.phase) ==>
          t.src in log.produced && log.produced[t.src] == t.phase.answer && t.src !in log.replyAt)
  }

  /** The loop has yet to settle the newest frame. */
  predicate LoopBusy(loop: LoopPhase) {
    loop.Deciding? || loop.Admitted? || loop.RefuseWant? || loop.Refusing?
  }

  predicate LoopOk(log: Log, loop: LoopPhase) {
    LoopBusy(loop) ==>
      && |log.inbox| > 0 && |log.inbox| - 1 !in log.replyAt && |log.inbox| - 1 !in log.taskOf
      && (loop.Deciding? || loop.Admitted? ==> |log.inbox| - 1 !in log.produced)
      && (!loop.Deciding? ==> log.Newest().Request?)
      && (loop.RefuseWant? || loop.Refusing? ==>
            |log.inbox| - 1 in log.produced && log.produced[|log.inbox| - 1] == loop.answer)
  }

  /** Reply `j` answers one received request, with its id and with the answer produced for it. */
  predicate ReplyOk(log: Log, j: nat, r: Reply) {
    && Asked(log, r.src, r.id)
    && r.src in log.produced && log.produced[r.src] == r.answer
    && r.src in log.replyAt && log.replyAt[r.src] == j
  }

  ghost predicate LogOk(log: Log) {
    && (forall src <- log.produced :: src < |log.inbox| && log.inbox[src].Request?)
    && (forall src <- log.taskOf :: src < |log.inbox|)
    && (forall src <- log.replyAt :: src < |log.inbox|)
    && (forall j | 0 <= j < |log.outbox| :: ReplyOk(log, j, log.outbox[j]))
  }

  ghost predicate AnswersOk(log: Log, loop: LoopPhase, tasks: seq<Task>) {
    LogOk(log) && LoopOk(log, loop) && forall i | 0 <= i < |tasks| :: TaskOk(log, i, tasks[i])
  }

  lemma ReceiveKeepsAnswers(log: Log, loop: LoopPhase, tasks: seq<Task>, frame: ClientFrame)
    requires AnswersOk(log, loop, tasks) && loop.Waiting?
    ensures AnswersOk(log.(inbox := log.inbox + [frame]), Deciding, tasks)
  {
  }

  lemma RefuseKeepsAnswers(log: Log, loop: LoopPhase, tasks: seq<Task>, answer: Answer)
    requires AnswersOk(log, loop, tasks) && (loop.Deciding? || loop.Admitted?) && log.Newest().Request?
    ensures AnswersOk(log.Produce(|log.inbox| - 1, answer), RefuseWant(answer), tasks)
  {
  }

  lemma WriteRefusalKeepsAnswers(log: Log, loop: LoopPhase, tasks: seq<Task>, loop': LoopPhase)
    requires AnswersOk(log, loop, tasks) && loop.Refusing? && !LoopBusy(loop')
    ensures AnswersOk(log.Write(Reply(log.Newest().id, loop.answer, |log.inbox| - 1)), loop', tasks)
  {
  }

  lemma SpawnKeepsAnswers(log: Log, loop: LoopPhase, tasks: seq<Task>, t: Task)
    requires AnswersOk(log, loop, tasks) && loop.Admitted? && log.Newest().Request?
    requires t.src == |log.inbox| - 1 && t.id == log.Newest().id && AnswerPending(t.phase)
    requires log.Newest().opcode == Known(t.mutating) && log.Newest().body.Decodes?
    ensures AnswersOk(log.(taskOf := log.taskOf[t.src := |tasks|]), Spawned, tasks + [t])
  {
  }

  lemma MoveKeepsAnswers(log: Log, loop: LoopPhase, loop': LoopPhase, tasks: seq<Task>)
    requires AnswersOk(log, loop, tasks)
    requires || !LoopBusy(loop')
             || (loop.Deciding? && log.Newest().Request? && loop'.Admitted?)
             || (loop.RefuseWant? && loop' == Refusing(loop.answer))
    ensures AnswersOk(log, loop', tasks)
  {
  }

  lemma DecideKeepsAnswers(s: State)
    requires AnswersOk(s.log, s.loop, s.tasks) && LoopEnabled(s, Decide)
    ensures var s' := Decided(s); AnswersOk(s'.log, s'.loop, s'.tasks)
  {
    if s.log.Newest().Request? && s.permits == 0 {
      RefuseKeepsAnswers(s.log, s.loop, s.tasks, OverLimit);
    } else {
      MoveKeepsAnswers(s.log, s.loop, Decided(s).loop, s.tasks);
    }
  }

  lemma DispatchKeepsAnswers(s: State)
    requires AnswersOk(s.log, s.loop, s.tasks) && LoopEnabled(s, Dispatch)
    ensures var s' := Dispatched(s); AnswersOk(s'.log, s'.loop, s'.tasks)
  {
    var frame := s.log.Newest();
    if frame.opcode.Unknown? {
      MoveKeepsAnswers(s.log, s.loop, Exited(false), s.tasks);
    } else if frame.body.Garbage? {
      RefuseKeepsAnswers(s.log, s.loop, s.tasks, BadRequest);
    } else {
      SpawnKeepsAnswers(s.log, s.loop, s.tasks, NewTask(s.log));
    }
  }

  lemma AnswersKeptByLoop(s: State, step: LoopStep)
    requires AnswersOk(s.log, s.loop, s.tasks) && LoopEnabled(s, step)
    ensures var s' := LoopApply(s, step); AnswersOk(s'.log, s'.loop, s'.tasks)
  {
    match step
    case Receive(frame) => ReceiveKeepsAnswers(s.log, s.loop, s.tasks, frame);
    case Decide => DecideKeepsAnswers(s);
    case Dispatch => DispatchKeepsAnswers(s);
    case WriteRefusal(write) =>
      if !write.FailedEarly? {
        WriteRefusalKeepsAnswers(s.log, s.loop, s.tasks, LoopApply(s, step).loop);
      } else {
        MoveKeepsAnswers(s.log, s.loop, Exited(false), s.tasks);
      }
    case _ => MoveKeepsAnswers(s.log, s.loop, LoopApply(s, step).loop, s.tasks);
  }

  lemma ProduceKeepsAnswers(log: Log, loop: LoopPhase, tasks: seq<Task>, i: nat, answer: Answer)
    requires AnswersOk(log, loop, tasks) && i < |tasks| && AnswerPending(tasks[i].phase)
    ensures AnswersOk(log.Produce(tasks[i].src, answer), loop, tasks[i := tasks[i].(phase := WantEncode(answer))])
  {
  }

  lemma WriteReplyKeepsAnswers(log: Log, loop: LoopPhase, tasks: seq<Task>, i: nat)
    requires AnswersOk(log, loop, tasks) && i < |tasks| && tasks[i].phase.Writing?
    ensures var t := tasks[i];
            AnswersOk(log.Write(Reply(t.id, t.phase.answer, t.src)), loop, tasks[i := t.(phase := WantPending)])
  {
  }

  lemma AnswersKeptByTask(s: State, i: nat, move: TaskStep)
    requires AnswersOk(s.log, s.loop, s.tasks) && ScratchOk(s.tasks, s.scratch) && TaskEnabled(s, i, move)
    ensures var s' := TaskApply(s, i, move); AnswersOk(s'.log, s'.loop, s'.tasks)
  {
    match move
    case Finish(answer) => ProduceKeepsAnswers(s.log, s.loop, s.tasks, i, answer);
    case WriteReply(_) =>
      assert TaskHas(s.tasks[i], Encode);
      WriteReplyKeepsAnswers(s.log, s.loop, s.tasks, i);
    case _ =>
  }

  // ---------------------------------------------------------------- the pending map

  predicate LiveTask(tasks: seq<Task>, aborted: set<nat>, i: nat)
    requires i < |tasks|
  {
    !tasks[i].phase.Gone? && i !in aborted
  }

  predicate InMap(tasks: seq<Task>, pending: map<nat, nat>, i: nat)
    requires i < |tasks|
  {
    tasks[i].id in pending && pending[tasks[i].id] == i
  }

  predicate AtInsert(loop: LoopPhase) {
    loop.Spawned? || loop.Inserting?
  }

  /** Spawned, and the loop is still on its way to inserting the entry. */
  predicate BeingInserted(loop: LoopPhase, tasks: seq<Task>, i: nat) {
    AtInsert(loop) && i + 1 == |tasks|
  }

  predicate CancelSeen(inbox: seq<ClientFrame>, id: nat) {
    Cancel(id) in inbox
  }

  /** Entries point to tasks of their id, the task being inserted has none yet, and an Ok exit has swept the map. */
  ghost predicate EntriesOk(loop: LoopPhase, tasks: seq<Task>, pending: map<nat, nat>) {
    && (forall id <- pending :: pending[id] < |tasks| && tasks[pending[id]].id == id)
    && (AtInsert(loop) ==> |tasks| > 0 && forall id <- pending :: pending[id] != |tasks| - 1)
    && (loop == Exited(true) ==> pending == map[])
  }

  /** A task is aborted only after a cancel frame with its id, or by the sweep. */
  ghost predicate AbortsOk(loop: LoopPhase, tasks: seq<Task>, aborted: set<nat>, inbox: seq<ClientFrame>) {
    && (loop.CancelWant? || loop.Cancelling? ==> |inbox| > 0 && inbox[|inbox| - 1].Cancel?)
    && (forall i <- aborted :: i < |tasks| && (CancelSeen(inbox, tasks[i].id) || loop == Exited(true)))
  }

  ghost predicate TableOk(s: State) {
    EntriesOk(s.loop, s.tasks, s.pending) && AbortsOk(s.loop, s.tasks, s.aborted, s.log.inbox)
  }

  lemma InsertKeepsEntries(s: State)
    requires EntriesOk(s.loop, s.tasks, s.pending) && LoopEnabled(s, Insert)
    ensures var s' := LoopApply(s, Insert); EntriesOk(s'.loop, s'.tasks, s'.pending)
  {
  }

  lemma FewerEntries(loop: LoopPhase, tasks: seq<Task>, pending: map<nat, nat>,
                     loop': LoopPhase, tasks': seq<Task>, pending': map<nat, nat>)
    requires EntriesOk(loop, tasks, pending) && forall id <- pending' :: id in pending && pending'[id] == pending[id]
    requires tasks <= tasks' && (AtInsert(loop') ==> |tasks'| > |tasks| || (AtInsert(loop) && tasks' == tasks))
    requires loop' == Exited(true) ==> pending' == map[]
    ensures EntriesOk(loop', tasks', pending')
  {
  }

  lemma EntriesKeptByLoop(s: State, step: LoopStep)
    requires EntriesOk(s.loop, s.tasks, s.pending) && LoopEnabled(s, step)
    ensures var s' := LoopApply(s, step); EntriesOk(s'.loop, s'.tasks, s'.pending)
  {
    if step.Insert? {
      InsertKeepsEntries(s);
    } else {
      var s' := LoopApply(s, step);
      FewerEntries(s.loop, s.tasks, s.pending, s'.loop, s'.tasks, s'.pending);
    }
  }

  lemma AbortsKeptByLoop(s: State, step: LoopStep)
    requires TableOk(s) && LoopEnabled(s, step)
    ensures var s' := LoopApply(s, step); AbortsOk(s'.loop, s'.tasks, s'.aborted, s'.log.inbox)
  {
    var s' := LoopApply(s, step);
    forall i | i in s'.aborted
      ensures i < |s'.tasks| && (CancelSeen(s'.log.inbox, s'.tasks[i].id) || s'.loop == Exited(true))
    {
      if i in s.aborted {
        assert CancelSeen(s.log.inbox, s.tasks[i].id) || s.loop == Exited(true);
      } else if step.CancelEntry? {
        assert s.log.Newest() == Cancel(s.tasks[i].id);
      }
    }
  }

  lemma TableKeptByTask(s: State, i: nat, move: TaskStep)
    requires TableOk(s) && TaskEnabled(s, i, move)
    ensures TableOk(TaskApply(s, i, move))
  {
  }

  /** Another task has the same id. */
  ghost predicate Twin(tasks: seq<Task>, i: nat) {
    i < |tasks| && exists j :: 0 <= j < |tasks| && j != i && tasks[j].id == tasks[i].id
  }

  /** The map has an entry under `id` for another task than `i`, and that task is live and unaborted. */
  predicate HidesLive(s: State, id: nat, i: nat) {
    id in s.pending && s.pending[id] != i && s.pending[id] < |s.tasks| && LiveTask(s.tasks, s.aborted, s.pending[id])
  }

  /** The task whose step may hide another's entry. */
  function Hider(s: State, step: Step): int
    requires Enabled(s, step)
  {
    match step
    case ByLoop(step) => |s.tasks| - 1
    case ByTask(i, move) => i
  }

  /**
    The two ways to lose track of a task: a new entry replaces that of a live task, and a task that removes itself
    removes the entry of a live task with the same id.
   */
  predicate LosesTask(s: State, step: Step)
    requires Enabled(s, step)
  {
    match step
    case ByLoop(step) => step.Insert? && HidesLive(s, s.tasks[|s.tasks| - 1].id, |s.tasks| - 1)
    case ByTask(i, move) => move.RemoveSelf? && HidesLive(s, s.tasks[i].id, i)
  }

  /** The task a step loses, if it loses one. */
  function LostBy(s: State, step: Step): set<nat>
    requires Enabled(s, step)
  {
    if LosesTask(s, step) then {s.pending[s.tasks[Hider(s, step)].id]} else {}
  }

  predicate InReach(s: State, i: nat)
    requires i < |s.tasks|
  {
    InMap(s.tasks, s.pending, i) || BeingInserted(s.loop, s.tasks, i)
  }

  /**
    A lost task is out of reach for good: nobody inserts it again, and nobody aborts it. Its abort channel has lost its
    sender, and another task has its id.
   */
  ghost predicate OutOfSight(s: State, i: nat) {
    i < |s.tasks| && i !in s.aborted && i in s.signalled && !InReach(s, i) && Twin(s.tasks, i)
  }

  /** Every live unaborted task can be found through the map, is just being inserted, or is one of the lost ones. */
  ghost predicate Tracks(s: State, lost: set<nat>) {
    && (forall i <- lost :: OutOfSight(s, i))
    && (forall i | 0 <= i < |s.tasks| && LiveTask(s.tasks, s.aborted, i) :: InReach(s, i) || i in lost)
  }

  lemma SightKeptByLoop(s: State, step: LoopStep, i: nat)
    requires TableOk(s) && LoopEnabled(s, step) && OutOfSight(s, i)
    ensures OutOfSight(LoopApply(s, step), i)
  {
    var s' := LoopApply(s, step);
    var j :| 0 <= j < |s.tasks| && j != i && s.tasks[j].id == s.tasks[i].id;
    assert s'.tasks[j].id == s'.tasks[i].id;
  }

  lemma SightKeptByTask(s: State, k: nat, move: TaskStep, i: nat)
    requires TableOk(s) && TaskEnabled(s, k, move) && OutOfSight(s, i)
    ensures OutOfSight(TaskApply(s, k, move), i)
  {
    var s' := TaskApply(s, k, move);
    var j :| 0 <= j < |s.tasks| && j != i && s.tasks[j].id == s.tasks[i].id;
    assert s'.tasks[j].id == s'.tasks[i].id;
  }

  lemma LostIsOutOfSight(s: State, step: Step, i: nat)
    requires TableOk(s) && Enabled(s, step) && i in LostBy(s, step)
    ensures OutOfSight(Apply(s, step), i) && LiveTask(Apply(s, step).tasks, Apply(s, step).aborted, i)
  {
    var s', j := Apply(s, step), Hider(s, step);
    assert s'.tasks[j].id == s'.tasks[i].id;
  }

  lemma ReachKeptByLoop(s: State, step: LoopStep, i: nat)
    requires TableOk(s) && LoopEnabled(s, step) && i < |LoopApply(s, step).tasks|
    requires LiveTask(LoopApply(s, step).tasks, LoopApply(s, step).aborted, i)
    requires i < |s.tasks| ==> InReach(s, i) && i !in LostBy(s, ByLoop(step))
    ensures InReach(LoopApply(s, step), i)
  {
  }

  lemma ReachKeptByTask(s: State, k: nat, move: TaskStep, i: nat)
    requires TableOk(s) && TaskEnabled(s, k, move) && i < |s.tasks|
    requires LiveTask(TaskApply(s, k, move).tasks, TaskApply(s, k, move).aborted, i)
    requires InReach(s, i) && i !in LostBy(s, ByTask(k, move))
    ensures InReach(TaskApply(s, k, move), i)
  {
  }

  lemma TrackByLoop(s: State, lost: set<nat>, step: LoopStep)
    requires TableOk(s) && Tracks(s, lost) && LoopEnabled(s, step)
    ensures Tracks(LoopApply(s, step), lost + LostBy(s, ByLoop(step)))
  {
    var s', lost' := LoopApply(s, step), lost + LostBy(s, ByLoop(step));
    forall i | i in lost' ensures OutOfSight(s', i) {
      if i in LostBy(s, ByLoop(step)) {
        LostIsOutOfSight(s, ByLoop(step), i);
      } else {
        SightKeptByLoop(s, step, i);
      }
    }
    forall i | 0 <= i < |s'.tasks| && LiveTask(s'.tasks, s'.aborted, i) ensures InReach(s', i) || i in lost' {
      if i !in lost' {
        assert i < |s.tasks| ==> LiveTask(s.tasks, s.aborted, i);
        ReachKeptByLoop(s, step, i);
      }
    }
  }

  lemma TrackByTask(s: State, lost: set<nat>, k: nat, move: TaskStep)
    requires TableOk(s) && Tracks(s, lost) && TaskEnabled(s, k, move)
    ensures Tracks(TaskApply(s, k, move), lost + LostBy(s, ByTask(k, move)))
  {
    var s', lost' := TaskApply(s, k, move), lost + LostBy(s, ByTask(k, move));
    forall i | i in lost' ensures OutOfSight(s', i) {
      if i in LostBy(s, ByTask(k, move)) {
        LostIsOutOfSight(s, ByTask(k, move), i);
      } else {
        SightKeptByTask(s, k, move, i);
      }
    }
    forall i | 0 <= i < |s'.tasks| && LiveTask(s'.tasks, s'.aborted, i) ensures InReach(s', i) || i in lost' {
      if i !in lost' {
        assert LiveTask(s.tasks, s.aborted, i);
        ReachKeptByTask(s, k, move, i);
      }
    }
  }

  /** A step loses just the task that `LosesTask` is about. */
  lemma TrackStep(s: State, lost: set<nat>, step: Step)
    requires TableOk(s) && Tracks(s, lost) && Enabled(s, step)
    ensures Tracks(Apply(s, step), lost + LostBy(s, step))
  {
    match step
    case ByLoop(step) => TrackByLoop(s, lost, step);
    case ByTask(k, move) => TrackByTask(s, lost, k, move);
  }

  /** Every live unaborted task is within reach of the map. */
  ghost predicate Covered(s: State) {
    forall i | 0 <= i < |s.tasks| && LiveTask(s.tasks, s.aborted, i) :: InReach(s, i)
  }

  /** A step keeps every live task within reach of the map if and only if it is not one of those two. */
  lemma CoverStep(s: State, step: Step)
    requires TableOk(s) && Covered(s) && Enabled(s, step)
    ensures Covered(Apply(s, step)) <==> !LosesTask(s, step)
  {
    TrackStep(s, {}, step);
    if LosesTask(s, step) {
      LostIsOutOfSight(s, step, s.pending[s.tasks[Hider(s, step)].id]);
    } else {
      assert {} + LostBy(s, step) == {};
    }
  }

  // ---------------------------------------------------------------- who is told to stop

  /**
    Whoever is aborted is told so. An abort channel fires, or loses its sender, for a task that is gone or aborted, or
    that shares its id.
   */
  ghost predicate SignalsOk(s: State) {
    && s.aborted <= s.signalled
    && forall i <- s.signalled :: i in s.aborted || (i < |s.tasks| && s.tasks[i].phase.Gone?) || Twin(s.tasks, i)
  }

  /** Another request frame has the same id. */
  ghost predicate Repeated(inbox: seq<ClientFrame>, src: nat) {
    && src < |inbox| && inbox[src].Request?
    && exists other :: 0 <= other < |inbox| && other != src && inbox[other].Request? && inbox[other].id == inbox[src].id
  }

  /** A request answered as cancelled was cancelled by a frame with its id, swept by the drain, or shares its id. */
  ghost predicate CancelledOk(log: Log, loop: LoopPhase) {
    forall src <- log.produced | log.produced[src].Cancelled? ::
      && src < |log.inbox|
      && (CancelSeen(log.inbox, log.inbox[src].id) || loop == Exited(true) || Repeated(log.inbox, src))
  }

  lemma TwinStays(a: seq<Task>, b: seq<Task>, i: nat)
    requires Twin(a, i) && |a| <= |b| && forall k | 0 <= k < |a| :: b[k].id == a[k].id
    ensures Twin(b, i)
  {
    var j :| 0 <= j < |a| && j != i && a[j].id == a[i].id;
    assert b[j].id == b[i].id;
  }

  lemma HiddenHasTwin(s: State, id: nat, i: nat, j: nat)
    requires TableOk(s) && i < |s.tasks| && s.tasks[i].id == id && j in Entry(s.pending, id) && j != i
    ensures Twin(s.tasks, j)
  {
    assert s.tasks[j].id == s.tasks[i].id;
  }

  lemma SignalsKeptByLoop(s: State, step: LoopStep)
    requires TableOk(s) && SignalsOk(s) && LoopEnabled(s, step)
    ensures SignalsOk(LoopApply(s, step))
  {
    var s' := LoopApply(s, step);
    forall i | i in s'.signalled
      ensures i in s'.aborted || (i < |s'.tasks| && s'.tasks[i].phase.Gone?) || Twin(s'.tasks, i)
    {
      if i in s.signalled {
        if Twin(s.tasks, i) {
          TwinStays(s.tasks, s'.tasks, i);
        }
      } else if step.Insert? {
        HiddenHasTwin(s, s.tasks[|s.tasks| - 1].id, |s.tasks| - 1, i);
      }
    }
  }

  lemma SignalsKeptByTask(s: State, k: nat, move: TaskStep)
    requires TableOk(s) && SignalsOk(s) && TaskEnabled(s, k, move)
    ensures SignalsOk(TaskApply(s, k, move))
  {
    var s' := TaskApply(s, k, move);
    forall i | i in s'.signalled
      ensures i in s'.aborted || (i < |s'.tasks| && s'.tasks[i].phase.Gone?) || Twin(s'.tasks, i)
    {
      if i !in s.signalled && i != k {
        HiddenHasTwin(s, s.tasks[k].id, k, i);
      }
      if Twin(s.tasks, i) {
        TwinStays(s.tasks, s'.tasks, i);
      }
    }
  }

  lemma RepeatedStays(a: seq<ClientFrame>, b: seq<ClientFrame>, src: nat)
    requires Repeated(a, src) && a <= b
    ensures Repeated(b, src)
  {
    var other :| 0 <= other < |a| && other != src && a[other].Request? && a[other].id == a[src].id;
    assert b[other] == a[other] && b[src] == a[src];
  }

  lemma TwinIsRepeated(log: Log, loop: LoopPhase, tasks: seq<Task>, i: nat)
    requires AnswersOk(log, loop, tasks) && Twin(tasks, i)
    ensures Repeated(log.inbox, tasks[i].src)
  {
    var j :| 0 <= j < |tasks| && j != i && tasks[j].id == tasks[i].id;
    assert TaskOk(log, i, tasks[i]) && TaskOk(log, j, tasks[j]);
  }

  lemma CancelledKeptByLoop(s: State, step: LoopStep)
    requires CancelledOk(s.log, s.loop) && LoopEnabled(s, step)
    ensures CancelledOk(LoopApply(s, step).log, LoopApply(s, step).loop)
  {
    var s' := LoopApply(s, step);
    forall src | src in s'.log.produced && s'.log.produced[src].Cancelled?
      ensures src < |s'.log.inbox|
      ensures CancelSeen(s'.log.inbox, s'.log.inbox[src].id) || s'.loop == Exited(true) || Repeated(s'.log.inbox, src)
    {
      assert src in s.log.produced && s.log.inbox <= s'.log.inbox;
      if Repeated(s.log.inbox, src) {
        RepeatedStays(s.log.inbox, s'.log.inbox, src);
      }
    }
  }

  lemma CancelledKeptByTask(s: State, i: nat, move: TaskStep)
    requires TableOk(s) && SignalsOk(s) && CancelledOk(s.log, s.loop) && TaskEnabled(s, i, move)
    requires AnswersOk(s.log, s.loop, s.tasks)
    ensures CancelledOk(TaskApply(s, i, move).log, TaskApply(s, i, move).loop)
  {
    assert TaskOk(s.log, i, s.tasks[i]);
    if Twin(s.tasks, i) {
      TwinIsRepeated(s.log, s.loop, s.tasks, i);
    }
  }

  // ---------------------------------------------------------------- every run

  ghost predicate Safe(s: State) {
    && LocksOk(s) && PermitsOk(s) && AnswersOk(s.log, s.loop, s.tasks)
    && ScratchOk(s.tasks, s.scratch) && TableOk(s) && SignalsOk(s) && CancelledOk(s.log, s.loop)
  }

  lemma LoopStreamsGrow(s: State, step: LoopStep)
    requires LoopEnabled(s, step)
    ensures s.log.inbox <= LoopApply(s, step).log.inbox && s.log.outbox <= LoopApply(s, step).log.outbox
  {
  }

  lemma TaskStreamsGrow(s: State, i: nat, move: TaskStep)
    requires TaskEnabled(s, i, move)
    ensures s.log.inbox <= TaskApply(s, i, move).log.inbox && s.log.outbox <= TaskApply(s, i, move).log.outbox
  {
  }

  lemma StreamsGrow(s: State, step: Step)
    requires Enabled(s, step)
    ensures s.log.inbox <= Apply(s, step).log.inbox && s.log.outbox <= Apply(s, step).log.outbox
  {
    match step
    case ByLoop(step) => LoopStreamsGrow(s, step);
    case ByTask(i, move) => TaskStreamsGrow(s, i, move);
  }

  lemma StepIsSafe(s: State, step: Step)
    requires Safe(s) && Enabled(s, step)
    ensures Safe(Apply(s, step))
  {
    match step
    case ByLoop(step) =>
      LocksKeptByLoop(s, step);
      PermitsKeptByLoop(s, step);
      AnswersKeptByLoop(s, step);
      ScratchKeptByLoop(s, step);
      EntriesKeptByLoop(s, step);
      AbortsKeptByLoop(s, step);
      SignalsKeptByLoop(s, step);
      CancelledKeptByLoop(s, step);
    case ByTask(i, move) =>
      LocksKeptByTask(s, i, move);
      PermitsKeptByTask(s, i, move);
      AnswersKeptByTask(s, i, move);
      ScratchKeptByTask(s, i, move);
      TableKeptByTask(s, i, move);
      SignalsKeptByTask(s, i, move);
      CancelledKeptByTask(s, i, move);
  }

  lemma {:induction false} RunIsSafe(limit: nat, steps: seq<Step>)
    requires Exec(limit, steps).Some?
    ensures Safe(Exec(limit, steps).value) && Exec(limit, steps).value.limit == limit
    decreases |steps|
  {
    if steps != [] {
      RunIsSafe(limit, steps[..|steps| - 1]);
      StepIsSafe(Exec(limit, steps[..|steps| - 1]).value, steps[|steps| - 1]);
    }
  }

  lemma ReachableIsSafe(s: State)
    requires Reachable(s)
    ensures Safe(s)
  {
    var steps :| Exec(s.limit, steps) == Some(s);
    RunIsSafe(s.limit, steps);
  }

  /** Handlers at work. */
  function Running(tasks: seq<Task>): nat {
    if tasks == [] then 0
    else Running(tasks[..|tasks| - 1]) + (if tasks[|tasks| - 1].phase.Handling? then 1 else 0)
  }

  lemma {:induction false} RunningAtMostLive(tasks: seq<Task>)
    ensures Running(tasks) <= Live(tasks)
  {
    if tasks != [] {
      RunningAtMostLive(tasks[..|tasks| - 1]);
    }
  }

  /** Every permit is free, with the loop, or with one live task; so handlers never exceed `max_in_flight`. */
  lemma PermitsConserved(s: State)
    requires Reachable(s)
    ensures s.permits + (if s.loop.Admitted? then 1 else 0) + Live(s.tasks) == s.limit
    ensures Running(s.tasks) <= s.limit
  {
    ReachableIsSafe(s);
    RunningAtMostLive(s.tasks);
  }

  /** The request of task `i` has an opcode that `is_mutating`. */
  predicate AsksToMutate(s: State, i: nat) {
    i < |s.tasks| && s.tasks[i].src < |s.log.inbox|
    && var frame := s.log.inbox[s.tasks[i].src]; frame.Request? && frame.opcode == Known(true)
  }

  /** At most one handler of a mutating request runs at a time, and it has the lock. */
  lemma OneMutatingHandler(s: State, i: nat, j: nat)
    requires Reachable(s) && AsksToMutate(s, i) && s.tasks[i].phase.Handling?
    ensures Holds(s.table, Worker(i), Mutate)
    ensures AsksToMutate(s, j) && s.tasks[j].phase.Handling? ==> i == j
  {
    ReachableIsSafe(s);
    OnlyOneMutates(s, i, j);
  }

  lemma OnlyOneMutates(s: State, i: nat, j: nat)
    requires LocksOk(s) && AnswersOk(s.log, s.loop, s.tasks) && AsksToMutate(s, i) && s.tasks[i].phase.Handling?
    ensures Holds(s.table, Worker(i), Mutate)
    ensures AsksToMutate(s, j) && s.tasks[j].phase.Handling? ==> i == j
  {
    assert TaskOk(s.log, i, s.tasks[i]) && TaskHas(s.tasks[i], Mutate);
    if AsksToMutate(s, j) && s.tasks[j].phase.Handling? {
      assert TaskOk(s.log, j, s.tasks[j]) && TaskHas(s.tasks[j], Mutate);
      assert Holds(s.table, Worker(j), Mutate);
    }
  }

  /** The mutate lock is held only by a task that is still handling a mutating request, ... */
  lemma MutateHolderIsHandling(s: State)
    requires Reachable(s) && Mutate in s.table
    ensures s.table[Mutate].Worker? && s.table[Mutate].index < |s.tasks|
    ensures var t := s.tasks[s.table[Mutate].index]; t.mutating && t.phase.Handling?
  {
    ReachableIsSafe(s);
    assert Holds(s.table, Loop, Mutate) <==> LoopHas(s.loop, Mutate);
    var i := s.table[Mutate].index;
    assert Holds(s.table, Worker(i), Mutate) <==> TaskHas(s.tasks[i], Mutate);
  }

  /** ... and a cancelled, crashed or finished task leaves no lock behind. */
  lemma GoneHoldsNothing(s: State, i: nat, move: TaskStep, l: Lock)
    requires Reachable(s) && TaskEnabled(s, i, move)
    requires move.Reap? || move.Crash? || move.RemoveSelf?
    ensures !Holds(TaskApply(s, i, move).table, Worker(i), l)
  {
    ReachableIsSafe(s);
    LocksKeptByTask(s, i, move);
    var s' := TaskApply(s, i, move);
    assert Holds(s'.table, Worker(i), l) <==> TaskHas(s'.tasks[i], l);
  }

  lemma LocksAreRanked(s: State)
    requires LocksOk(s)
    ensures Ranked(s.table, Wants(s))
  {
    forall l | l in s.table && Wants(s)(s.table[l]).Some?
      ensures Rank(l) < Rank(Wants(s)(s.table[l]).value)
    {
      var holder := s.table[l];
      assert Holds(s.table, Loop, l) <==> LoopHas(s.loop, l);
      if holder.Worker? {
        assert Holds(s.table, Worker(holder.index), l) <==> TaskHas(s.tasks[holder.index], l);
      }
    }
  }

  /** No cycle of lock waits, whatever its length. */
  lemma NoDeadlock(s: State, chain: seq<Actor>)
    requires Reachable(s) && WaitChain(s.table, Wants(s), chain)
    ensures chain[0] != chain[|chain| - 1]
  {
    ReachableIsSafe(s);
    LocksAreRanked(s);
    NoWaitCycle(s.table, Wants(s), chain);
  }

  /** The actor is in the middle of something: the loop with a frame or a drain, a task that is not gone. */
  predicate Busy(s: State, a: Actor) {
    match a
    case Loop => !s.loop.Waiting? && !s.loop.Exited?
    case Worker(i) => i < |s.tasks| && !s.tasks[i].phase.Gone?
  }

  /** What the actor's own code does next, if nothing fails. */
  function OwnStep(s: State, a: Actor): Step
    requires Busy(s, a)
  {
    match a
    case Loop => ByLoop(
      match s.loop
      case Waiting => StartDrain
      case Deciding => Decide
      case Admitted => Dispatch
      case RefuseWant(_) => TakeRefuseWriter
      case Refusing(_) => WriteRefusal(Written)
      case Spawned => TakeInsert
      case Inserting => Insert
      case CancelWant => TakeCancel
      case Cancelling => CancelEntry
      case DrainWant => TakeDrain
      case DrainLooking => LookAtPending(false)
      case DrainSleeping => WakeDrain
      case SweepWant => TakeSweep
      case Sweeping => Sweep
      case Exited(_) => Fail)
    case Worker(i) => ByTask(i,
      match s.tasks[i].phase
      case WantMutate => TakeMutate
      case Handling => Finish(Handled(""))
      case WantEncode(_) => TakeEncode(true)
      case WantWriter(_) => TakeWriter
      case Writing(_) => WriteReply(true)
      case WantPending => TakePending
      case Removing => RemoveSelf
      case Gone => Reap)
  }

  lemma UnblockedCanStep(s: State, a: Actor)
    requires Safe(s) && Busy(s, a) && !Blocked(s.table, Wants(s), a)
    ensures Enabled(s, OwnStep(s, a))
  {
  }

  lemma HoldersAreBusy(s: State, l: Lock)
    requires LocksOk(s) && l in s.table
    ensures Busy(s, s.table[l])
  {
    var a := s.table[l];
    assert Holds(s.table, Loop, l) <==> LoopHas(s.loop, l);
    if a.Worker? {
      assert Holds(s.table, Worker(a.index), l) <==> TaskHas(s.tasks[a.index], l);
    }
  }

  /** Nothing ever stands still: whoever is busy can take its next step, or someone who holds a lock can. */
  lemma SomeoneCanStep(s: State, a: Actor) returns (b: Actor)
    requires Reachable(s) && Busy(s, a)
    ensures Busy(s, b) && Enabled(s, OwnStep(s, b))
    ensures b == a || exists l :: Holds(s.table, b, l)
  {
    ReachableIsSafe(s);
    LocksAreRanked(s);
    b := SomeoneCanProceed(s.table, Wants(s), a);
    if b != a {
      var l :| l in s.table && s.table[l] == b;
      HoldersAreBusy(s, l);
      assert Holds(s.table, b, l);
    }
    UnblockedCanStep(s, b);
  }

  /** A worker waiting for the pending map has let go of the mutate, encode and writer locks. */
  lemma PendingIsTakenBareHanded(s: State, i: nat, l: Lock)
    requires Reachable(s) && i < |s.tasks| && (s.tasks[i].phase.WantPending? || s.tasks[i].phase.Removing?)
    ensures Holds(s.table, Worker(i), l) ==> l == Pending
  {
    ReachableIsSafe(s);
    assert Holds(s.table, Worker(i), l) <==> TaskHas(s.tasks[i], l);
  }

  /** Each reply answers one request frame it carries the id of, and no frame is answered twice. */
  lemma RepliesAnswerOnce(s: State, j: nat, k: nat)
    requires Reachable(s) && j < k < |s.log.outbox|
    ensures Asked(s.log, s.log.outbox[j].src, s.log.outbox[j].id)
    ensures s.log.outbox[j].src in s.log.produced && s.log.produced[s.log.outbox[j].src] == s.log.outbox[j].answer
    ensures s.log.outbox[j].src != s.log.outbox[k].src
  {
    ReachableIsSafe(s);
    assert ReplyOk(s.log, j, s.log.outbox[j]) && ReplyOk(s.log, k, s.log.outbox[k]);
  }

  /** A task answers that its request was cancelled only if a cancel frame named it or the drain swept it. */
  lemma CancelledIsAskedFor(s: State, src: nat)
    requires Reachable(s) && src in s.log.produced && s.log.produced[src].Cancelled? && !Repeated(s.log.inbox, src)
    ensures src < |s.log.inbox| && (CancelSeen(s.log.inbox, s.log.inbox[src].id) || s.loop == Exited(true))
  {
    ReachableIsSafe(s);
  }

  /** What a task writes out is its own reply, though the buffer is shared. */
  lemma OwnReplyIsWritten(s: State, i: nat)
    requires Reachable(s) && TaskEnabled(s, i, WriteReply(true))
    ensures var t := s.tasks[i];
            TaskApply(s, i, WriteReply(true)).log.outbox == s.log.outbox + [Reply(t.id, t.phase.answer, t.src)]
  {
    ReachableIsSafe(s);
    assert TaskHas(s.tasks[i], Encode);
  }

  // ---------------------------------------------------------------- the drain

  /** All tasks that the run has lost track of. */
  ghost function Lost(limit: nat, steps: seq<Step>): set<nat>
    requires Exec(limit, steps).Some?
    decreases |steps|
  {
    if steps == [] then {}
    else
      var front, step := steps[..|steps| - 1], steps[|steps| - 1];
      Lost(limit, front) + LostBy(Exec(limit, front).value, step)
  }

  lemma {:induction false} RunTracks(limit: nat, steps: seq<Step>)
    requires Exec(limit, steps).Some?
    ensures Tracks(Exec(limit, steps).value, Lost(limit, steps))
    decreases |steps|
  {
    if steps != [] {
      var front := steps[..|steps| - 1];
      RunTracks(limit, front);
      RunIsSafe(limit, front);
      TrackStep(Exec(limit, front).value, Lost(limit, front), steps[|steps| - 1]);
    }
  }

  /**
    Whatever ids the peer uses, an Ok exit leaves behind, live and unaborted, exactly the tasks that the run lost track
    of and that have not ended by themselves.
   */
  lemma OkExitLeavesTheLost(limit: nat, steps: seq<Step>, i: nat)
    requires Exec(limit, steps).Some? && Exec(limit, steps).value.loop == Exited(true)
    requires i < |Exec(limit, steps).value.tasks|
    ensures var s := Exec(limit, steps).value;
            LiveTask(s.tasks, s.aborted, i) <==> i in Lost(limit, steps) && !s.tasks[i].phase.Gone?
  {
    RunTracks(limit, steps);
    RunIsSafe(limit, steps);
    var s := Exec(limit, steps).value;
    assert EntriesOk(s.loop, s.tasks, s.pending) && !InReach(s, i);
    assert i in Lost(limit, steps) ==> OutOfSight(s, i);
  }

  /** A lost task is told: its abort channel has lost its sender. */
  lemma LostTasksAreTold(limit: nat, steps: seq<Step>, i: nat)
    requires Exec(limit, steps).Some? && i in Lost(limit, steps)
    ensures i in Exec(limit, steps).value.signalled
  {
    RunTracks(limit, steps);
    assert OutOfSight(Exec(limit, steps).value, i);
  }

  /** If no step loses track of a task, an Ok exit leaves none behind. */
  lemma OkExitWithoutLoss(limit: nat, steps: seq<Step>)
    requires Exec(limit, steps).Some? && Lost(limit, steps) == {} && Exec(limit, steps).value.loop == Exited(true)
    ensures var s := Exec(limit, steps).value; forall i | 0 <= i < |s.tasks| :: !LiveTask(s.tasks, s.aborted, i)
  {
    var s := Exec(limit, steps).value;
    forall i | 0 <= i < |s.tasks| ensures !LiveTask(s.tasks, s.aborted, i) {
      OkExitLeavesTheLost(limit, steps, i);
    }
  }

  /** Out of reach of the map, though live and unaborted: then another request has the same id. */
  lemma OnlyRepeatedIdsAreLost(s: State, i: nat)
    requires Reachable(s) && i < |s.tasks| && LiveTask(s.tasks, s.aborted, i) && !InReach(s, i)
    ensures Repeated(s.log.inbox, s.tasks[i].src)
  {
    var steps :| Exec(s.limit, steps) == Some(s);
    RunTracks(s.limit, steps);
    ReachableIsSafe(s);
    assert OutOfSight(s, i);
    TwinIsRepeated(s.log, s.loop, s.tasks, i);
  }

  /** Whenever the loop waits for a frame, the map finds every live task that was not aborted, if its id is its own. */
  lemma LiveTasksAreInTheMap(s: State, i: nat)
    requires Reachable(s) && s.loop.Waiting? && i < |s.tasks| && LiveTask(s.tasks, s.aborted, i)
    requires !Repeated(s.log.inbox, s.tasks[i].src)
    ensures InMap(s.tasks, s.pending, i)
  {
    if !InMap(s.tasks, s.pending, i) {
      OnlyRepeatedIdsAreLost(s, i);
    }
  }

  /** A connection that ended Ok has an empty map and, with distinct ids, no task left that was not aborted. */
  lemma OkExitLeavesNoTask(s: State)
    requires Reachable(s) && DistinctRequests(s.log.inbox) && s.loop == Exited(true)
    ensures s.pending == map[]
    ensures forall i | 0 <= i < |s.tasks| :: !LiveTask(s.tasks, s.aborted, i)
  {
    MapIsSwept(s);
    forall i | 0 <= i < |s.tasks| ensures !LiveTask(s.tasks, s.aborted, i) {
      if LiveTask(s.tasks, s.aborted, i) {
        OnlyRepeatedIdsAreLost(s, i);
      }
    }
  }

  lemma MapIsSwept(s: State)
    requires Reachable(s) && s.loop == Exited(true)
    ensures s.pending == map[]
  {
    ReachableIsSafe(s);
  }

  lemma ExecStep(limit: nat, steps: seq<Step>, step: Step)
    requires Exec(limit, steps).Some? && Enabled(Exec(limit, steps).value, step)
    ensures Exec(limit, steps + [step]) == Some(Apply(Exec(limit, steps).value, step))
  {
    assert (steps + [step])[..|steps + [step]| - 1] == steps;
  }

  /** The run `more` leads on from the run `steps`, in a state where the loop waits and the pending map is free. */
  ghost predicate Resting(limit: nat, steps: seq<Step>) {
    Exec(limit, steps).Some? && Exec(limit, steps).value.loop.Waiting? && Pending !in Exec(limit, steps).value.table
  }

  /** One well-formed request that is not mutating, up to its task being spawned. */
  lemma SpawnRequest(limit: nat, steps: seq<Step>, id: nat) returns (more: seq<Step>)
    requires Exec(limit, steps).Some?
    requires Exec(limit, steps).value.loop.Waiting? && Exec(limit, steps).value.permits > 0
    ensures Exec(limit, more).Some?
    ensures var s, s' := Exec(limit, steps).value, Exec(limit, more).value;
            && s'.loop.Spawned? && s'.permits == s.permits - 1 && s'.table == s.table
            && s'.pending == s.pending && s'.aborted == s.aborted
            && s'.tasks == s.tasks + [Task(id, |s.log.inbox|, false, Handling)]
  {
    var frame := Request(id, Known(false), Decodes(""));
    ExecStep(limit, steps, ByLoop(Receive(frame)));
    var m1 := steps + [ByLoop(Receive(frame))];
    ExecStep(limit, m1, ByLoop(Decide));
    var m2 := m1 + [ByLoop(Decide)];
    ExecStep(limit, m2, ByLoop(Dispatch));
    more := m2 + [ByLoop(Dispatch)];
  }

  lemma InsertRequest(limit: nat, steps: seq<Step>) returns (more: seq<Step>)
    requires Exec(limit, steps).Some?
    requires var s := Exec(limit, steps).value; s.loop.Spawned? && Pending !in s.table && |s.tasks| > 0
    ensures Exec(limit, more).Some?
    ensures var s, s' := Exec(limit, steps).value, Exec(limit, more).value;
            && s'.loop.Waiting? && s'.permits == s.permits && s'.aborted == s.aborted
            && s'.table == Without(s.table[Pending := Loop], Loop) && s'.tasks == s.tasks
            && s'.pending == s.pending[s.tasks[|s.tasks| - 1].id := |s.tasks| - 1]
  {
    ExecStep(limit, steps, ByLoop(TakeInsert));
    var m := steps + [ByLoop(TakeInsert)];
    ExecStep(limit, m, ByLoop(Insert));
    more := m + [ByLoop(Insert)];
  }

  /** One request, up to its task being in the map. */
  lemma AcceptRequest(limit: nat, steps: seq<Step>, id: nat) returns (more: seq<Step>)
    requires Resting(limit, steps) && Exec(limit, steps).value.permits > 0
    ensures Resting(limit, more)
    ensures var s, s' := Exec(limit, steps).value, Exec(limit, more).value;
            && s'.permits == s.permits - 1 && s'.table == s.table && s'.aborted == s.aborted
            && s'.tasks == s.tasks + [Task(id, |s.log.inbox|, false, Handling)]
            && s'.pending == s.pending[id := |s.tasks|]
  {
    var m := SpawnRequest(limit, steps, id);
    more := InsertRequest(limit, m);
    RunKeepsTableFree(limit, steps);
  }

  lemma RunKeepsTableFree(limit: nat, steps: seq<Step>)
    requires Resting(limit, steps)
    ensures var s := Exec(limit, steps).value; Without(s.table[Pending := Loop], Loop) == s.table
  {
    RunIsSafe(limit, steps);
    LoopHoldsNothing(Exec(limit, steps).value);
  }

  lemma LoopHoldsNothing(s: State)
    requires LocksOk(s) && s.loop.Waiting? && Pending !in s.table
    ensures Without(s.table[Pending := Loop], Loop) == s.table
  {
    forall l ensures !Holds(s.table, Loop, l) {
      assert Holds(s.table, Loop, l) <==> LoopHas(s.loop, l);
    }
    forall l | l in s.table ensures s.table[l] != Loop {
      assert !Holds(s.table, Loop, l);
    }
  }

  /** The drain up to its deadline: it aborts what is in the map and ends Ok. */
  lemma DrainAtDeadline(limit: nat, steps: seq<Step>) returns (more: seq<Step>)
    requires Resting(limit, steps)
    ensures Exec(limit, more).Some?
    ensures var s, s' := Exec(limit, steps).value, Exec(limit, more).value;
            s'.loop == Exited(true) && s'.tasks == s.tasks && s'.aborted == s.aborted + s.pending.Values
  {
    ExecStep(limit, steps, ByLoop(StartDrain));
    var m1 := steps + [ByLoop(StartDrain)];
    ExecStep(limit, m1, ByLoop(TakeDrain));
    var m2 := m1 + [ByLoop(TakeDrain)];
    ExecStep(limit, m2, ByLoop(LookAtPending(true)));
    var m3 := m2 + [ByLoop(LookAtPending(true))];
    ExecStep(limit, m3, ByLoop(TakeSweep));
    var m4 := m3 + [ByLoop(TakeSweep)];
    ExecStep(limit, m4, ByLoop(Sweep));
    more := m4 + [ByLoop(Sweep)];
  }

  /** A task that ends without a reply removes the entry under its id, whoever's it is. */
  lemma RemoveOldTask(limit: nat, steps: seq<Step>, i: nat) returns (more: seq<Step>)
    requires Resting(limit, steps) && Encode !in Exec(limit, steps).value.table
    requires var s := Exec(limit, steps).value; i < |s.tasks| && s.tasks[i].phase.Handling? && !s.tasks[i].mutating
    ensures Resting(limit, more)
    ensures var s, s' := Exec(limit, steps).value, Exec(limit, more).value;
            && s'.aborted == s.aborted && s'.tasks == s.tasks[i := s.tasks[i].(phase := Gone)]
            && s'.pending == s.pending - {s.tasks[i].id}
  {
    ExecStep(limit, steps, ByTask(i, Finish(Handled(""))));
    var m1 := steps + [ByTask(i, Finish(Handled("")))];
    ExecStep(limit, m1, ByTask(i, TakeEncode(false)));
    var m2 := m1 + [ByTask(i, TakeEncode(false))];
    ExecStep(limit, m2, ByTask(i, TakePending));
    var m3 := m2 + [ByTask(i, TakePending)];
    ExecStep(limit, m3, ByTask(i, RemoveSelf));
    more := m3 + [ByTask(i, RemoveSelf)];
  }

  lemma OnlyTasksAreKnown(limit: nat, steps: seq<Step>)
    requires Exec(limit, steps).Some?
    ensures var s := Exec(limit, steps).value;
            (forall i <- s.aborted :: i < |s.tasks|) && (forall i <- s.pending.Values :: i < |s.tasks|)
  {
    RunIsSafe(limit, steps);
    var s := Exec(limit, steps).value;
    forall i | i in s.pending.Values ensures i < |s.tasks| {
      var id :| id in s.pending && s.pending[id] == i;
    }
  }

  /** Two requests with one id: the map now knows the second task only. */
  lemma AcceptTwice(limit: nat, steps: seq<Step>, id: nat) returns (more: seq<Step>)
    requires Resting(limit, steps) && Exec(limit, steps).value.permits >= 2
    ensures Resting(limit, more) && Exec(limit, more).value.table == Exec(limit, steps).value.table
    ensures var before, s := |Exec(limit, steps).value.tasks|, Exec(limit, more).value;
            && |s.tasks| == before + 2
            && (forall i | before <= i < before + 2 ::
                  s.tasks[i].id == id && s.tasks[i].phase.Handling? && !s.tasks[i].mutating && i !in s.aborted)
            && id in s.pending && s.pending[id] == before + 1
            && forall k <- s.pending | k != id :: s.pending[k] < before
  {
    OnlyTasksAreKnown(limit, steps);
    var m := AcceptRequest(limit, steps, id);
    more := AcceptRequest(limit, m, id);
    var s := Exec(limit, steps).value;
    forall k | k in s.pending ensures s.pending[k] < |s.tasks| {
      assert s.pending[k] in s.pending.Values;
    }
  }

  /**
    From every state in which the loop waits with two free permits, and for every id: two requests with that id and a
    drain end Ok with the handler of the first one alive and unaborted.
   */
  lemma ReplacedEntryEscapesTheDrain(limit: nat, steps: seq<Step>, id: nat) returns (more: seq<Step>)
    requires Resting(limit, steps) && Exec(limit, steps).value.permits >= 2
    ensures Exec(limit, more).Some? && Exec(limit, more).value.loop == Exited(true)
    ensures var first, s' := |Exec(limit, steps).value.tasks|, Exec(limit, more).value;
            && first + 2 == |s'.tasks| && s'.tasks[first].id == s'.tasks[first + 1].id == id
            && LiveTask(s'.tasks, s'.aborted, first)
  {
    var m := AcceptTwice(limit, steps, id);
    more := DrainAtDeadline(limit, m);
  }

  /** The other way round: the first one ends, removes the second one's entry, and the second one escapes. */
  lemma RemovedEntryEscapesTheDrain(limit: nat, steps: seq<Step>, id: nat) returns (more: seq<Step>)
    requires Resting(limit, steps) && Exec(limit, steps).value.permits >= 2
    requires Encode !in Exec(limit, steps).value.table
    ensures Exec(limit, more).Some? && Exec(limit, more).value.loop == Exited(true)
    ensures var first, s' := |Exec(limit, steps).value.tasks|, Exec(limit, more).value;
            && first + 2 == |s'.tasks| && s'.tasks[first].id == s'.tasks[first + 1].id == id
            && LiveTask(s'.tasks, s'.aborted, first + 1)
  {
    var m := AcceptTwice(limit, steps, id);
    var removed := RemoveOldTask(limit, m, |Exec(limit, steps).value.tasks|);
    more := DrainAtDeadline(limit, removed);
  }
}
