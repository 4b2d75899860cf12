/**
  A client session and a server connection joined by one stream in each direction. What one end has read is a
  prefix of what the other has written; every interleaving of the two ends is a run of the link.
 */
module ControlLink {
  import opened Wrappers
  import opened Wire
  import C = ClientSession
  import CS = ClientSafety
  import CD = ClientDuties
  import S = ServerConnection
  import SS = ServerSafety
  import SD = ServerDuties

  datatype State = State(client: C.State, server: S.State)

  datatype Step = ByClient(cstep: C.Step) | ByServer(sstep: S.Step)

  function AsFrame(r: S.Reply): ServerFrame {
    Response(r.id, r.answer)
  }

  /** A read takes the next frame of the stream; every other step is the end's own affair. */
  predicate Enabled(l: State, step: Step) {
    match step
    case ByClient(cstep) =>
      && C.Enabled(l.client, cstep)
      && (cstep.ByReader? && cstep.step.Read? ==>
            && |l.client.inbox| < |l.server.log.outbox|
            && cstep.step.frame == AsFrame(l.server.log.outbox[|l.client.inbox|]))
    case ByServer(sstep) =>
      && S.Enabled(l.server, sstep)
      && (sstep.ByLoop? && sstep.step.Receive? ==>
            && |l.server.log.inbox| < |l.client.outbox|
            && sstep.step.frame == l.client.outbox[|l.server.log.inbox|])
  }

  function Apply(l: State, step: Step): State
    requires Enabled(l, step)
  {
    match step
    case ByClient(cstep) => l.(client := C.Apply(l.client, cstep))
    case ByServer(sstep) => l.(server := S.Apply(l.server, sstep))
  }

  ghost function Exec(clientLimit: nat, serverLimit: nat, steps: seq<Step>): Option<State>
    decreases |steps|
  {
    if steps == [] then Some(State(C.Init(clientLimit), S.Init(serverLimit)))
    else
      var before := Exec(clientLimit, serverLimit, steps[..|steps| - 1]);
      var step := steps[|steps| - 1];
      if before.Some? && Enabled(before.value, step) then Some(Apply(before.value, step)) else None
  }

  ghost predicate Reachable(l: State) {
    exists clientLimit, serverLimit, steps :: Exec(clientLimit, serverLimit, steps) == Some(l)
  }

  ghost predicate StreamsOk(l: State) {
    && l.server.log.inbox <= l.client.outbox
    && |l.client.inbox| <= |l.server.log.outbox|
    && forall j | 0 <= j < |l.client.inbox| :: l.client.inbox[j] == AsFrame(l.server.log.outbox[j])
  }

  ghost predicate Safe(l: State) {
    CS.Safe(l.client) && SS.Safe(l.server) && StreamsOk(l)
  }

  lemma HistoriesGrow(l: State, step: Step)
    requires Enabled(l, step)
    ensures var l' := Apply(l, step);
            && l.client.outbox <= l'.client.outbox && l.server.log.outbox <= l'.server.log.outbox
  {
    match step
    case ByClient(cstep) => CS.OutboxGrows(l.client, cstep);
    case ByServer(sstep) => SS.StreamsGrow(l.server, sstep);
  }

  lemma ClientKeepsStreams(l: State, cstep: C.Step)
    requires StreamsOk(l) && Enabled(l, ByClient(cstep))
    ensures StreamsOk(Apply(l, ByClient(cstep)))
  {
    HistoriesGrow(l, ByClient(cstep));
  }

  lemma ServerKeepsStreams(l: State, sstep: S.Step)
    requires StreamsOk(l) && Enabled(l, ByServer(sstep))
    ensures StreamsOk(Apply(l, ByServer(sstep)))
  {
    HistoriesGrow(l, ByServer(sstep));
  }

  lemma StepKeepsStreams(l: State, step: Step)
    requires StreamsOk(l) && Enabled(l, step)
    ensures StreamsOk(Apply(l, step))
  {
    match step
    case ByClient(cstep) => ClientKeepsStreams(l, cstep);
    case ByServer(sstep) => ServerKeepsStreams(l, sstep);
  }

  lemma {:induction false} RunIsSafe(clientLimit: nat, serverLimit: nat, steps: seq<Step>)
    requires Exec(clientLimit, serverLimit, steps).Some?
    ensures Safe(Exec(clientLimit, serverLimit, steps).value)
    decreases |steps|
  {
    if steps != [] {
      var before := Exec(clientLimit, serverLimit, steps[..|steps| - 1]).value;
      var step := steps[|steps| - 1];
      RunIsSafe(clientLimit, serverLimit, steps[..|steps| - 1]);
      StepKeepsStreams(before, step);
      match step {
        case ByClient(cstep) => CS.StepIsSafe(before.client, cstep);
        case ByServer(sstep) => SS.StepIsSafe(before.server, sstep);
      }
    }
  }

  lemma ReachableIsSafe(l: State)
    requires Reachable(l)
    ensures Safe(l)
  {
    var clientLimit, serverLimit, steps :| Exec(clientLimit, serverLimit, steps) == Some(l);
    RunIsSafe(clientLimit, serverLimit, steps);
  }

  lemma StreamsAgree(l: State)
    requires Reachable(l)
    ensures StreamsOk(l)
  {
    ReachableIsSafe(l);
  }

  /** No other request frame on the wire has this id. */
  ghost predicate UniqueOnWire(outbox: seq<ClientFrame>, id: nat) {
    forall i, j | 0 <= i < |outbox| && 0 <= j < |outbox| && outbox[i].Request? && outbox[j].Request?
                  && outbox[i].id == id && outbox[j].id == id :: i == j
  }

  /** Up to 2^64 sends every id on the wire is unique, and the server of the link never meets a repeated one. */
  lemma ServerSeesDistinctIds(l: State)
    requires Reachable(l) && |l.client.calls| <= U64_SIZE
    ensures DistinctRequests(l.client.outbox) && DistinctRequests(l.server.log.inbox)
    ensures forall id :: UniqueOnWire(l.client.outbox, id)
  {
    ReachableIsSafe(l);
    CS.WrittenIdsDiffer(l.client.calls, l.client.outbox, l.client.trace);
    InboxIsDistinct(l);
  }

  lemma InboxIsDistinct(l: State)
    requires StreamsOk(l) && DistinctRequests(l.client.outbox)
    ensures DistinctRequests(l.server.log.inbox)
  {
    assert forall i | 0 <= i < |l.server.log.inbox| :: l.server.log.inbox[i] == l.client.outbox[i];
  }

  /** The frame that response number `at` answers, found through the server's log. */
  lemma ReplySource(l: State, at: nat) returns (src: nat)
    requires Reachable(l) && at < |l.client.inbox|
    ensures l.client.inbox[at].Response?
    ensures src in l.server.log.replyAt && l.server.log.replyAt[src] == at
    ensures src in l.server.log.produced && l.server.log.produced[src] == l.client.inbox[at].answer
    ensures src < |l.server.log.inbox| && src < |l.client.outbox|
    ensures l.client.outbox[src] == l.server.log.inbox[src]
    ensures l.client.outbox[src].Request? && l.client.outbox[src].id == l.client.inbox[at].id
  {
    assert StreamsOk(l) && SS.LogOk(l.server.log) by {
      ReachableIsSafe(l);
    }
    var r := l.server.log.outbox[at];
    assert SS.ReplyOk(l.server.log, at, r);
    src := r.src;
  }

  /** The call that wrote request frame `i`. */
  lemma RequestSender(l: State, i: nat) returns (k: nat)
    requires Reachable(l) && i < |l.client.outbox| && l.client.outbox[i].Request?
    ensures CS.SentBy(l.client.calls, l.client.outbox, k, i)
    ensures k in l.client.trace.sentAt && l.client.trace.sentAt[k] == i
  {
    ReachableIsSafe(l);
    k := l.client.trace.writer[i];
  }

  lemma CallFacts(l: State, k: nat)
    requires Reachable(l) && k < |l.client.calls|
    ensures CS.PhaseOk(k, l.client.calls[k])
    ensures CS.SlotOk(k, l.client.calls[k].slot, l.client.pending, l.client.inbox, l.client.reader)
    ensures |l.client.calls| <= U64_SIZE ==> l.client.calls[k].slot != C.Withdrawn(C.Closed)
  {
    ReachableIsSafe(l);
  }

  /** The place at which a call that ended Ok wrote its own request. */
  lemma OwnPlace(l: State, k: nat) returns (at: nat)
    requires Reachable(l) && k < |l.client.calls|
    requires l.client.calls[k].phase.Finished? && l.client.calls[k].phase.outcome.Ok?
    ensures CS.SentBy(l.client.calls, l.client.outbox, k, at)
  {
    ReachableIsSafe(l);
    assert CS.Wrote(l.client.calls[k].phase);
    at := l.client.trace.sentAt[k];
  }

  /** The server of a link goes through a run of its own. */
  lemma {:induction false} ServerRun(clientLimit: nat, serverLimit: nat, steps: seq<Step>) returns (ssteps: seq<S.Step>)
    requires Exec(clientLimit, serverLimit, steps).Some?
    ensures S.Exec(serverLimit, ssteps) == Some(Exec(clientLimit, serverLimit, steps).value.server)
    decreases |steps|
  {
    ssteps := [];
    if steps != [] {
      ssteps := ServerRun(clientLimit, serverLimit, steps[..|steps| - 1]);
      match steps[|steps| - 1] {
        case ByClient(_) =>
        case ByServer(sstep) =>
          SS.ExecStep(serverLimit, ssteps, sstep);
          ssteps := ssteps + [sstep];
      }
    }
  }

  lemma ServerIsReachable(l: State)
    requires Reachable(l)
    ensures S.Reachable(l.server)
  {
    var clientLimit, serverLimit, steps :| Exec(clientLimit, serverLimit, steps) == Some(l);
    var ssteps := ServerRun(clientLimit, serverLimit, steps);
    SS.RunIsSafe(serverLimit, ssteps);
  }

  lemma UniqueIsUnrepeated(l: State, src: nat)
    requires StreamsOk(l) && src < |l.server.log.inbox| && l.server.log.inbox[src].Request?
    requires UniqueOnWire(l.client.outbox, l.server.log.inbox[src].id)
    ensures !SS.Repeated(l.server.log.inbox, src)
  {
    assert forall i | 0 <= i < |l.server.log.inbox| :: l.server.log.inbox[i] == l.client.outbox[i];
  }

  lemma CancelWasWritten(l: State, src: nat)
    requires Reachable(l) && src < |l.server.log.inbox| && l.server.log.inbox[src].Request?
    requires UniqueOnWire(l.client.outbox, l.server.log.inbox[src].id)
    requires src in l.server.log.produced && l.server.log.produced[src].Cancelled?
    ensures Cancel(l.server.log.inbox[src].id) in l.client.outbox || l.server.loop == S.Exited(true)
  {
    StreamsAgree(l);
    UniqueIsUnrepeated(l, src);
    ServerIsReachable(l);
    SS.CancelledIsAskedFor(l.server, src);
    assert forall f <- l.server.log.inbox :: f in l.client.outbox;
  }

  /**
    A `send` that returns Ok returns the answer the server produced for the very request frame that this call wrote,
    if no other request frame with its id is on the wire. If that answer says the request was cancelled, the client
    wrote a cancel frame with its id, or the server's drain swept it.
   */
  lemma OkCarriesOwnAnswer(l: State, k: nat) returns (src: nat)
    requires Reachable(l) && k < |l.client.calls|
    requires l.client.calls[k].phase.Finished? && l.client.calls[k].phase.outcome.Ok?
    requires UniqueOnWire(l.client.outbox, C.RequestId(k))
    ensures CS.SentBy(l.client.calls, l.client.outbox, k, src) && src < |l.server.log.inbox|
    ensures var c := l.client.calls[k];
            && l.server.log.inbox[src] == Request(C.RequestId(k), c.opcode, c.body)
            && src in l.server.log.produced && l.server.log.produced[src] == c.phase.outcome.value
    ensures l.client.calls[k].phase.outcome.value.Cancelled? ==>
              Cancel(C.RequestId(k)) in l.client.outbox || l.server.loop == S.Exited(true)
  {
    CallFacts(l, k);
    src := ReplySource(l, l.client.calls[k].slot.at);
    var own := OwnPlace(l, k);
    assert own == src;
    if l.client.calls[k].phase.outcome.value.Cancelled? {
      CancelWasWritten(l, src);
    }
  }

  /** Ids are unique up to 2^64 sends, so there every Ok answer is the call's own. */
  lemma OkCarriesOwnAnswerBeforeWrap(l: State, k: nat) returns (src: nat)
    requires Reachable(l) && k < |l.client.calls| <= U64_SIZE
    requires l.client.calls[k].phase.Finished? && l.client.calls[k].phase.outcome.Ok?
    ensures CS.SentBy(l.client.calls, l.client.outbox, k, src) && src in l.server.log.produced
    ensures l.server.log.produced[src] == l.client.calls[k].phase.outcome.value
  {
    ServerSeesDistinctIds(l);
    src := OkCarriesOwnAnswer(l, k);
  }

  /**
    The reader gives up with LateResponse only when the client itself had given up on that call `k`: it timed out, it
    was cancelled, or its write failed after the frame had gone out; or, once ids have wrapped around, another call
    took its id. Otherwise the entry is there, because a call registers before it writes and the server answers a frame
    at most once.
   */
  lemma LateResponseMeansGivenUp(l: State) returns (k: nat)
    requires Reachable(l) && l.client.reader.Delivering? && |l.client.inbox| > 0
    requires C.Newest(l.client).Response? && C.Newest(l.client).id !in l.client.pending
    requires UniqueOnWire(l.client.outbox, C.Newest(l.client).id)
    ensures k < |l.client.calls| && C.RequestId(k) == C.Newest(l.client).id
    ensures var slot := l.client.calls[k].slot;
            || slot == C.Failed(C.CancelledByUser) || slot == C.Withdrawn(C.Timeout) || slot == C.Withdrawn(C.Io)
            || (slot == C.Withdrawn(C.Closed) && |l.client.calls| > U64_SIZE)
  {
    var last := |l.client.inbox| - 1;
    var src := ReplySource(l, last);
    k := RequestSender(l, src);
    CallFacts(l, k);
    if l.client.calls[k].slot.Delivered? {
      var other := ReplySource(l, l.client.calls[k].slot.at);
    }
  }

  /** When the server ends Ok, it leaves an empty map and no task that was not aborted. */
  lemma OkExitLeavesNoTask(l: State)
    requires Reachable(l) && l.server.loop == S.Exited(true) && DistinctRequests(l.client.outbox)
    ensures l.server.pending == map[]
    ensures forall i | 0 <= i < |l.server.tasks| :: !SS.LiveTask(l.server.tasks, l.server.aborted, i)
  {
    StreamsAgree(l);
    InboxIsDistinct(l);
    ServerIsReachable(l);
    SS.OkExitLeavesNoTask(l.server);
  }

  /** A cancel that the server has dealt with has stopped the handler of the request it names. */
  lemma CancelStopsTheHandler(l: State, src: nat, c: nat)
    requires Reachable(l) && l.server.loop.Waiting? && c < |l.server.log.inbox|
    requires SD.Cancels(l.client.outbox, src, c) && UniqueOnWire(l.client.outbox, l.client.outbox[src].id)
    ensures l.server.log.inbox[src] == l.client.outbox[src] && SD.Stopped(l.server, src)
  {
    StreamsAgree(l);
    ServerIsReachable(l);
    assert l.server.log.inbox[c] == l.client.outbox[c] && l.server.log.inbox[src] == l.client.outbox[src];
    UniqueIsUnrepeated(l, src);
    SD.CancelsAreHeeded(l.server, src, c);
  }

  lemma ClientStays(s: C.State, step: C.Step)
    requires C.Reachable(s) && C.Enabled(s, step)
    ensures C.Reachable(C.Apply(s, step))
  {
    var steps :| C.Exec(s.maxInFlight, steps) == Some(s);
    assert (steps + [step])[..|steps + [step]| - 1] == steps;
    assert C.Exec(s.maxInFlight, steps + [step]) == Some(C.Apply(s, step));
    CD.LimitIsFixed(s, step);
  }

  /** The client of a link goes through a run of its own. */
  lemma {:induction false} ClientIsReachable(clientLimit: nat, serverLimit: nat, steps: seq<Step>)
    requires Exec(clientLimit, serverLimit, steps).Some?
    ensures C.Reachable(Exec(clientLimit, serverLimit, steps).value.client)
    decreases |steps|
  {
    if steps == [] {
      assert C.Exec(clientLimit, []) == Some(C.Init(clientLimit));
    } else {
      var before := Exec(clientLimit, serverLimit, steps[..|steps| - 1]).value;
      ClientIsReachable(clientLimit, serverLimit, steps[..|steps| - 1]);
      match steps[|steps| - 1] {
        case ByClient(cstep) => ClientStays(before.client, cstep);
        case ByServer(_) =>
      }
    }
  }

  lemma FrameIsHandedOut(l: State, j: nat)
    requires Reachable(l) && j < |l.client.inbox|
    ensures CD.HandedOut(l.client.calls, j, l.client.inbox[j])
            || (j == |l.client.inbox| - 1 && (CS.AtPending(l.client.reader) || l.client.closed))
  {
    var clientLimit, serverLimit, steps :| Exec(clientLimit, serverLimit, steps) == Some(l);
    ClientIsReachable(clientLimit, serverLimit, steps);
    CD.EveryFrameIsHandedOut(l.client, j);
  }

  /**
    No answer is lost: up to 2^64 sends, whatever response the client has read was given to the call that wrote the
    request it answers. Only the newest one can still be on its way, or have ended the session.
   */
  lemma AnswersReachTheirCall(l: State, j: nat) returns (src: nat, k: nat)
    requires Reachable(l) && |l.client.calls| <= U64_SIZE && j < |l.client.inbox|
    requires j < |l.client.inbox| - 1 || !(CS.AtPending(l.client.reader) || l.client.closed)
    ensures CS.SentBy(l.client.calls, l.client.outbox, k, src)
    ensures src in l.server.log.produced && l.client.calls[k].slot == C.Delivered(j, l.server.log.produced[src])
  {
    src := ReplySource(l, j);
    k := RequestSender(l, src);
    FrameIsHandedOut(l, j);
    var frame := l.client.inbox[j];
    var owner :| 0 <= owner < |l.client.calls| && l.client.calls[owner].slot == C.Delivered(j, frame.answer)
                 && C.RequestId(owner) == frame.id;
    if owner != k {
      CS.IdsAreDistinct(if owner < k then owner else k, if owner < k then k else owner);
    }
  }
}
