/** What every interleaving of a client session keeps, after any number of calls of `send`. */
module ClientSafety {
  import opened Wrappers
  import opened Locks
  import opened Wire
  import opened ClientSession

  // ---------------------------------------------------------------- request ids

  /** Two calls share a request id exactly when 2^64 calls lie between them (or a multiple of it). */
  lemma IdsRepeatExactly(j: nat, k: nat)
    requires j <= k
    ensures RequestId(j) == RequestId(k) <==> (k - j) % U64_SIZE == 0
  {
    var d := k - j;
    assert k + 1 == (j + 1) + d;
    ModSum(j + 1, d);
  }

  lemma ModSum(a: nat, d: nat)
    ensures (a + d) % U64_SIZE == a % U64_SIZE <==> d % U64_SIZE == 0
  {
    var m := U64_SIZE;
    var qa, qd, q := a / m, d / m, (a + d) / m;
    assert a == m * qa + a % m && d == m * qd + d % m && a + d == m * q + (a + d) % m;
    assert m * (qa + qd - q) == (a + d) % m - a % m - d % m;
  }

  lemma IdsAreDistinct(j: nat, k: nat)
    requires j < k < U64_SIZE
    ensures RequestId(j) != RequestId(k)
  {
  }

  // ---------------------------------------------------------------- locks

  predicate CallHas(p: CallPhase, l: Lock) {
    match l
    case Encode => p.WantPayload? || p.WantWriter? || p.Writing?
    case Payload => p.WantWriter? || p.Writing?
    case Writer => p.Writing?
    case Pending => p.Checking? || p.Inserting? || p.Undoing? || p.Forgetting?
    case Mutate => false
  }

  predicate CancelHas(p: CancelPhase, l: Lock) {
    match l
    case Writer => p.CWriting? || p.CWantPending? || p.CRemoving?
    case Pending => p.CRemoving?
    case _ => false
  }

  predicate ReaderHas(p: ReaderPhase, l: Lock) {
    l.Pending? && (p.Delivering? || p.Draining?)
  }

  function CallWants(p: CallPhase): Option<Lock> {
    match p
    case WantCheck => Some(Pending)
    case WantInsert => Some(Pending)
    case WantEncode => Some(Encode)
    case WantPayload => Some(Payload)
    case WantWriter => Some(Writer)
    case WantUndo => Some(Pending)
    case WantForget => Some(Pending)
    case _ => None
  }

  function CancelWants(p: CancelPhase): Option<Lock> {
    match p
    case CWantWriter => Some(Writer)
    case CWantPending => Some(Pending)
    case _ => None
  }

  function Wants(s: State): Actor -> Option<Lock> {
    (a: Actor) => match a
                  case Reader => if s.reader.WantDeliver? || s.reader.WantDrain? then Some(Pending) else None
                  case Caller(k) => if k < |s.calls| then CallWants(s.calls[k].phase) else None
                  case Canceller(c) => if c < |s.cancels| then CancelWants(s.cancels[c].phase) else None
  }

  predicate Has(s: State, a: Actor, l: Lock) {
    match a
    case Reader => ReaderHas(s.reader, l)
    case Caller(k) => k < |s.calls| && CallHas(s.calls[k].phase, l)
    case Canceller(c) => c < |s.cancels| && CancelHas(s.cancels[c].phase, l)
  }

  ghost predicate LocksOk(s: State) {
    forall a, l :: Holds(s.table, a, l) <==> Has(s, a, l)
  }

  /** A step of call `k` changes its own phase and locks, and may start a cancel. */
  ghost predicate CallMoved(s: State, s': State, k: nat, move: CallStep)
    requires CallEnabled(s, k, move)
  {
    && |s'.calls| == |s.calls| && s'.reader == s.reader && s'.table == CallTableAfter(s, k, move)
    && s'.calls[k].phase == CallPhaseAfter(s, k, move)
    && (forall j | 0 <= j < |s.calls| :: s'.calls[j].opcode == s.calls[j].opcode && s'.calls[j].body == s.calls[j].body)
    && (forall j | 0 <= j < |s.calls| && j != k :: s'.calls[j].phase == s.calls[j].phase)
    && |s.cancels| <= |s'.cancels|
    && (forall c | 0 <= c < |s.cancels| :: s'.cancels[c] == s.cancels[c])
    && (forall c | |s.cancels| <= c < |s'.cancels| :: s'.cancels[c].phase.CWantWriter? || s'.cancels[c].phase.CDone?)
  }

  lemma CallMoves(s: State, k: nat, move: CallStep)
    requires CallEnabled(s, k, move)
    ensures CallMoved(s, CallApply(s, k, move), k, move)
  {
  }

  lemma OwnLocks(s: State, k: nat, move: CallStep, l: Lock)
    requires CallEnabled(s, k, move)
    requires forall m :: Holds(s.table, Caller(k), m) <==> CallHas(s.calls[k].phase, m)
    ensures Holds(CallTableAfter(s, k, move), Caller(k), l) <==> CallHas(CallPhaseAfter(s, k, move), l)
  {
    assert Holds(s.table, Caller(k), l) <==> CallHas(s.calls[k].phase, l);
  }

  lemma OtherLocks(s: State, k: nat, move: CallStep, a: Actor, l: Lock)
    requires CallEnabled(s, k, move) && a != Caller(k)
    ensures Holds(CallTableAfter(s, k, move), a, l) <==> Holds(s.table, a, l)
  {
  }

  lemma CallMovedKeepsLock(s: State, s': State, k: nat, move: CallStep, a: Actor, l: Lock)
    requires LocksOk(s) && CallEnabled(s, k, move) && CallMoved(s, s', k, move)
    ensures Holds(s'.table, a, l) <==> Has(s', a, l)
  {
    if a == Caller(k) {
      forall m ensures Holds(s.table, a, m) <==> CallHas(s.calls[k].phase, m) {
        assert Holds(s.table, a, m) <==> Has(s, a, m);
      }
      OwnLocks(s, k, move, l);
    } else {
      OtherLocks(s, k, move, a, l);
      assert Holds(s.table, a, l) <==> Has(s, a, l);
    }
  }

  lemma CallMovedKeepsLocks(s: State, s': State, k: nat, move: CallStep)
    requires LocksOk(s) && CallEnabled(s, k, move) && CallMoved(s, s', k, move)
    ensures LocksOk(s')
  {
    forall a, l ensures Holds(s'.table, a, l) <==> Has(s', a, l) {
      CallMovedKeepsLock(s, s', k, move, a, l);
    }
  }

  lemma LocksKeptByCancel(s: State, c: nat, act: CancelStep)
    requires LocksOk(s) && CancelEnabled(s, c, act)
    ensures LocksOk(CancelApply(s, c, act))
  {
    var s' := CancelApply(s, c, act);
    forall a, l ensures Holds(s'.table, a, l) <==> Has(s', a, l) {
      assert Holds(s.table, a, l) <==> Has(s, a, l);
    }
  }

  lemma LocksKeptByReader(s: State, step: ReaderStep)
    requires LocksOk(s) && ReaderEnabled(s, step)
    ensures LocksOk(ReaderApply(s, step))
  {
    var s' := ReaderApply(s, step);
    forall a, l ensures Holds(s'.table, a, l) <==> Has(s', a, l) {
      assert Holds(s.table, a, l) <==> Has(s, a, l);
    }
  }

  lemma LocksKept(s: State, step: Step)
    requires LocksOk(s) && Enabled(s, step)
    ensures LocksOk(Apply(s, step))
  {
    match step
    case ByCall(k, move) =>
      CallMoves(s, k, move);
      CallMovedKeepsLocks(s, CallApply(s, k, move), k, move);
    case ByCancel(c, act) => LocksKeptByCancel(s, c, act);
    case ByReader(step) => LocksKeptByReader(s, step);
    case _ =>
      var s' := Apply(s, step);
      forall a, l ensures Holds(s'.table, a, l) <==> Has(s', a, l) {
        assert Holds(s.table, a, l) <==> Has(s, a, l);
      }
  }

  // ---------------------------------------------------------------- the shared encode buffer

  function OwnFrame(k: nat, c: Call): ClientFrame {
    Request(RequestId(k), c.opcode, c.body)
  }

  /** A call between encoding and writing finds its own request in the shared buffer. */
  ghost predicate ScratchOk(calls: seq<Call>, scratch: Option<ClientFrame>) {
    forall k | 0 <= k < |calls| && CallHas(calls[k].phase, Payload) :: scratch == Some(OwnFrame(k, calls[k]))
  }

  /** The payload lock keeps every other call out while one has its request in the buffer. */
  lemma ScratchKeptByCall(s: State, k: nat, move: CallStep)
    requires LocksOk(s) && ScratchOk(s.calls, s.scratch) && CallEnabled(s, k, move)
    ensures ScratchOk(CallApply(s, k, move).calls, CallApply(s, k, move).scratch)
  {
    var s' := CallApply(s, k, move);
    CallMoves(s, k, move);
    forall j | 0 <= j < |s'.calls| && CallHas(s'.calls[j].phase, Payload)
      ensures s'.scratch == Some(OwnFrame(j, s'.calls[j]))
    {
      assert Holds(s.table, Caller(j), Payload) <==> Has(s, Caller(j), Payload);
    }
  }

  lemma ScratchKept(s: State, step: Step)
    requires LocksOk(s) && ScratchOk(s.calls, s.scratch) && Enabled(s, step)
    ensures ScratchOk(Apply(s, step).calls, Apply(s, step).scratch)
  {
    match step
    case ByCall(k, move) => ScratchKeptByCall(s, k, move);
    case _ =>
  }

  // ---------------------------------------------------------------- the pending table and the results

  predicate BeforeInsert(p: CallPhase) {
    p.WantCheck? || p.Checking? || p.WantInsert? || p.Inserting?
  }

  /** The request frame may be on the wire. */
  predicate Sent(p: CallPhase) {
    || p.WantUndo? || p.Undoing? || p.Awaiting? || p.WantForget? || p.Forgetting? || p.CancellingLate?
    || p.Finished? || p.Dropped?
  }

  predicate AtPending(p: ReaderPhase) {
    p.WantDeliver? || p.Delivering?
  }

  /** Frames the reader has dealt with: all of them, or all but the newest. */
  predicate Handled(inbox: seq<ServerFrame>, reader: ReaderPhase, j: nat) {
    j < |inbox| && (AtPending(reader) ==> j + 1 < |inbox|)
  }

  predicate SlotOk(k: nat, slot: Slot, pending: map<nat, nat>, inbox: seq<ServerFrame>, reader: ReaderPhase) {
    match slot
    case Vacant => true
    case Registered => RequestId(k) in pending && pending[RequestId(k)] == k
    case Delivered(at, answer) => Handled(inbox, reader, at) && inbox[at] == Response(RequestId(k), answer)
    case Failed(failure) => failure.CancelledByUser? || reader.Stopped?
    case Withdrawn(why) => why.Io? || why.Timeout? || why.Closed?
  }

  /** Entries point to open calls by their id, and a call that is not registered yet has no completion. */
  ghost predicate EntriesOk(calls: seq<Call>, pending: map<nat, nat>) {
    && (forall id <- pending ::
          pending[id] < |calls| && RequestId(pending[id]) == id && calls[pending[id]].slot.Registered?)
    && (forall k | 0 <= k < |calls| && BeforeInsert(calls[k].phase) :: calls[k].slot.Vacant?)
  }

  predicate PhaseOk(k: nat, c: Call) {
    && (BeforeInsert(c.phase) ==> c.slot.Vacant?)
    && (c.slot.Vacant? ==> BeforeInsert(c.phase) || c.phase.Finished? || c.phase.Dropped?)
    && (c.phase.Finished? && c.phase.outcome.Ok? ==> c.slot.Delivered? && c.slot.answer == c.phase.outcome.value)
    && (RequestId(k) == 0 ==> c.phase == Finished(Err(InvalidRequestId)) && c.slot.Vacant?)
  }

  ghost predicate CallsOk(calls: seq<Call>, pending: map<nat, nat>, inbox: seq<ServerFrame>, reader: ReaderPhase) {
    && EntriesOk(calls, pending)
    && (forall k | 0 <= k < |calls| :: PhaseOk(k, calls[k]) && SlotOk(k, calls[k].slot, pending, inbox, reader))
    && (AtPending(reader) ==> |inbox| > 0 && inbox[|inbox| - 1].Response?)
  }

  lemma PhaseKeepsCalls(calls: seq<Call>, pending: map<nat, nat>, inbox: seq<ServerFrame>, reader: ReaderPhase,
                        k: nat, phase: CallPhase)
    requires CallsOk(calls, pending, inbox, reader) && k < |calls| && PhaseOk(k, calls[k].(phase := phase))
    ensures CallsOk(calls[k := calls[k].(phase := phase)], pending, inbox, reader)
  {
  }

  lemma SettleKeepsCalls(calls: seq<Call>, pending: map<nat, nat>, inbox: seq<ServerFrame>, reader: ReaderPhase,
                         reader': ReaderPhase, id: nat, slot: Slot)
    requires CallsOk(calls, pending, inbox, reader)
    requires !AtPending(reader') || reader' == reader
    requires reader.Stopped? ==> reader'.Stopped?
    requires slot.Delivered? || slot.Failed? || slot.Withdrawn?
    requires forall k | 0 <= k < |calls| && RequestId(k) == id :: SlotOk(k, slot, pending, inbox, reader')
    ensures CallsOk(Settle(calls, pending, id, slot), pending - {id}, inbox, reader')
  {
    var calls' := Settle(calls, pending, id, slot);
    forall k | 0 <= k < |calls'|
      ensures PhaseOk(k, calls'[k]) && SlotOk(k, calls'[k].slot, pending - {id}, inbox, reader')
    {
      assert PhaseOk(k, calls[k]) && SlotOk(k, calls[k].slot, pending, inbox, reader);
    }
  }

  /** An older entry under the same id, if there is one, is replaced and its call loses its sender. */
  lemma RegisterKeepsCalls(calls: seq<Call>, pending: map<nat, nat>, inbox: seq<ServerFrame>, reader: ReaderPhase,
                           k: nat)
    requires CallsOk(calls, pending, inbox, reader) && k < |calls| && calls[k].phase.Inserting?
    ensures var settled := Settle(calls, pending, RequestId(k), Withdrawn(Closed));
            CallsOk(settled[k := calls[k].(phase := WantEncode, slot := Registered)], pending[RequestId(k) := k],
                    inbox, reader)
  {
    assert PhaseOk(k, calls[k]);
    SettleKeepsCalls(calls, pending, inbox, reader, reader, RequestId(k), Withdrawn(Closed));
    var settled := Settle(calls, pending, RequestId(k), Withdrawn(Closed));
    var calls' := settled[k := calls[k].(phase := WantEncode, slot := Registered)];
    var pending' := pending[RequestId(k) := k];
    forall j | 0 <= j < |calls'|
      ensures PhaseOk(j, calls'[j]) && SlotOk(j, calls'[j].slot, pending', inbox, reader)
    {
      assert j != k ==> PhaseOk(j, settled[j])
                        && SlotOk(j, settled[j].slot, pending - {RequestId(k)}, inbox, reader);
    }
  }

  lemma SettleAllKeepsCalls(calls: seq<Call>, pending: map<nat, nat>, inbox: seq<ServerFrame>, reader: ReaderPhase,
                            failure: Failure)
    requires CallsOk(calls, pending, inbox, reader)
    ensures CallsOk(SettleAll(calls, pending.Values, Failed(failure)), map[], inbox, Stopped)
  {
    var calls' := SettleAll(calls, pending.Values, Failed(failure));
    forall k | 0 <= k < |calls'|
      ensures PhaseOk(k, calls'[k]) && SlotOk(k, calls'[k].slot, map[], inbox, Stopped)
    {
      assert PhaseOk(k, calls[k]) && SlotOk(k, calls[k].slot, pending, inbox, reader);
      if calls[k].slot.Registered? {
        assert pending[RequestId(k)] in pending.Values;
      }
      if k in pending.Values {
        var id :| id in pending && pending[id] == k;
      }
    }
  }

  // ---------------------------------------------------------------- the requests written

  /** The request frame was written out. */
  predicate Wrote(p: CallPhase) {
    || p.Awaiting? || p.WantForget? || p.Forgetting? || p.CancellingLate?
    || (p.Finished? && p.outcome.Ok?)
  }

  /** Call `k` wrote its own frame at this place, and it was registered first. */
  predicate SentBy(calls: seq<Call>, outbox: seq<ClientFrame>, k: nat, at: nat) {
    && k < |calls| && at < |outbox| && outbox[at] == OwnFrame(k, calls[k])
    && Sent(calls[k].phase) && !calls[k].slot.Vacant?
  }

  /** Every request frame was written by one call, once, and every call that got past its write has one. */
  ghost predicate SentOk(calls: seq<Call>, outbox: seq<ClientFrame>, trace: Trace) {
    && (forall k <- trace.sentAt :: SentBy(calls, outbox, k, trace.sentAt[k]))
    && (forall i | 0 <= i < |outbox| && outbox[i].Request? ::
          i in trace.writer && trace.writer[i] in trace.sentAt && trace.sentAt[trace.writer[i]] == i)
    && (forall k | 0 <= k < |calls| && Wrote(calls[k].phase) :: k in trace.sentAt)
  }

  lemma WriteKeepsSent(calls: seq<Call>, outbox: seq<ClientFrame>, trace: Trace,
                       k: nat, phase: CallPhase)
    requires SentOk(calls, outbox, trace) && k < |calls|
    requires calls[k].phase.Writing? && !calls[k].slot.Vacant? && Sent(phase)
    ensures SentOk(calls[k := calls[k].(phase := phase)], outbox + [OwnFrame(k, calls[k])],
                   trace.Write(k, |outbox|))
  {
    var calls', outbox' := calls[k := calls[k].(phase := phase)], outbox + [OwnFrame(k, calls[k])];
    forall j | j in trace.sentAt ensures j != k && SentBy(calls', outbox', j, trace.sentAt[j]) {
      assert SentBy(calls, outbox, j, trace.sentAt[j]);
    }
  }

  /** While ids do not wrap around, no two request frames carry the same one. */
  lemma WrittenIdsDiffer(calls: seq<Call>, outbox: seq<ClientFrame>, trace: Trace)
    requires SentOk(calls, outbox, trace) && |calls| <= U64_SIZE
    ensures DistinctRequests(outbox)
  {
    forall i, j | 0 <= i < j < |outbox| && outbox[i].Request? && outbox[j].Request?
      ensures outbox[i].id != outbox[j].id
    {
      var a, b := trace.writer[i], trace.writer[j];
      assert SentBy(calls, outbox, a, i) && SentBy(calls, outbox, b, j);
      IdsAreDistinct(if a < b then a else b, if a < b then b else a);
    }
  }

  // ---------------------------------------------------------------- steps

  predicate Settled(slot: Slot) {
    slot.Delivered? || slot.Failed? || slot.Withdrawn?
  }

  /** How one call may change: its completion and its result are final. */
  predicate Evolves(c: Call, c': Call) {
    && c'.opcode == c.opcode && c'.body == c.body
    && (Sent(c.phase) ==> Sent(c'.phase))
    && (!c.slot.Vacant? ==> !c'.slot.Vacant?)
    && (Settled(c.slot) ==> c'.slot == c.slot)
    && (c.phase.Finished? ==> c'.phase == c.phase)
  }

  ghost predicate CallsEvolve(calls: seq<Call>, calls': seq<Call>) {
    |calls| <= |calls'| && forall k | 0 <= k < |calls| :: Evolves(calls[k], calls'[k])
  }

  /** No call gets past its write. */
  ghost predicate NoNewWriter(calls: seq<Call>, calls': seq<Call>) {
    forall k | 0 <= k < |calls'| && Wrote(calls'[k].phase) :: k < |calls| && Wrote(calls[k].phase)
  }

  lemma EvolvingKeepsSent(calls: seq<Call>, calls': seq<Call>, outbox: seq<ClientFrame>, outbox': seq<ClientFrame>,
                          trace: Trace)
    requires SentOk(calls, outbox, trace) && CallsEvolve(calls, calls') && NoNewWriter(calls, calls')
    requires outbox' == outbox || exists id :: outbox' == outbox + [Cancel(id)]
    ensures SentOk(calls', outbox', trace)
  {
    forall k | k in trace.sentAt ensures SentBy(calls', outbox', k, trace.sentAt[k]) {
      assert SentBy(calls, outbox, k, trace.sentAt[k]) && Evolves(calls[k], calls'[k]);
    }
  }

  lemma EvolvesOn(a: seq<Call>, b: seq<Call>, c: seq<Call>)
    requires CallsEvolve(a, b) && CallsEvolve(b, c)
    ensures CallsEvolve(a, c)
  {
    forall k | 0 <= k < |a| ensures Evolves(a[k], c[k]) {
      assert Evolves(a[k], b[k]) && Evolves(b[k], c[k]);
    }
  }

  lemma SettleEvolves(calls: seq<Call>, pending: map<nat, nat>, id: nat, slot: Slot)
    requires EntriesOk(calls, pending) && Settled(slot)
    ensures CallsEvolve(calls, Settle(calls, pending, id, slot))
    ensures EntriesOk(Settle(calls, pending, id, slot), pending - {id})
  {
  }

  lemma SettleAllEvolves(calls: seq<Call>, pending: map<nat, nat>, slot: Slot)
    requires EntriesOk(calls, pending) && Settled(slot)
    ensures CallsEvolve(calls, SettleAll(calls, pending.Values, slot))
    ensures EntriesOk(SettleAll(calls, pending.Values, slot), map[])
  {
    forall k | k in pending.Values ensures k < |calls| && calls[k].slot.Registered? {
      var id :| id in pending && pending[id] == k;
    }
  }

  lemma PhaseEvolves(s: State, k: nat, move: CallStep)
    requires EntriesOk(s.calls, s.pending) && CallEnabled(s, k, move) && !move.Insert?
    ensures var moved := s.calls[k := s.calls[k].(phase := CallPhaseAfter(s, k, move))];
            CallsEvolve(s.calls, moved) && EntriesOk(moved, s.pending)
  {
  }

  lemma InsertEvolves(s: State, k: nat)
    requires EntriesOk(s.calls, s.pending) && CallEnabled(s, k, Insert)
    ensures var s' := CallApply(s, k, Insert); CallsEvolve(s.calls, s'.calls) && EntriesOk(s'.calls, s'.pending)
  {
    SettleEvolves(s.calls, s.pending, RequestId(k), Withdrawn(Closed));
    var calls := Settle(s.calls, s.pending, RequestId(k), Withdrawn(Closed));
    var s' := CallApply(s, k, Insert);
    assert s'.calls == calls[k := calls[k].(phase := WantEncode, slot := Registered)];
    assert calls[k] == s.calls[k];
  }

  lemma CallEvolves(s: State, k: nat, move: CallStep)
    requires EntriesOk(s.calls, s.pending) && CallEnabled(s, k, move)
    ensures var s' := CallApply(s, k, move); CallsEvolve(s.calls, s'.calls) && EntriesOk(s'.calls, s'.pending)
  {
    if move.Insert? {
      InsertEvolves(s, k);
    } else {
      PhaseEvolves(s, k, move);
      var moved := s.calls[k := s.calls[k].(phase := CallPhaseAfter(s, k, move))];
      if move.Undo? || move.Forget? {
        var slot := Withdrawn(if move.Undo? then Io else Timeout);
        SettleEvolves(moved, s.pending, RequestId(k), slot);
        EvolvesOn(s.calls, moved, Settle(moved, s.pending, RequestId(k), slot));
      }
    }
  }

  /** No step, at any number of sends, changes a completion or a result; entries keep pointing to open calls. */
  lemma StepEvolves(s: State, step: Step)
    requires EntriesOk(s.calls, s.pending) && Enabled(s, step)
    ensures var s' := Apply(s, step); CallsEvolve(s.calls, s'.calls) && EntriesOk(s'.calls, s'.pending)
  {
    match step
    case ByCall(k, move) => CallEvolves(s, k, move);
    case ByCancel(c, act) =>
      if act.CRemove? {
        SettleEvolves(s.calls, s.pending, s.cancels[c].id, Failed(CancelledByUser));
      }
    case ByReader(step) =>
      if step.Deliver? && Newest(s).id in s.pending {
        SettleEvolves(s.calls, s.pending, Newest(s).id, Delivered(|s.inbox| - 1, Newest(s).answer));
      } else if step.Drain? {
        SettleAllEvolves(s.calls, s.pending, Failed(s.reader.failure));
      }
    case Close => SettleAllEvolves(s.calls, s.pending, Failed(Closed));
    case Send(_, _) =>
    case StartCancel(_) =>
  }

  ghost predicate TableOk(s: State) {
    CallsOk(s.calls, s.pending, s.inbox, s.reader)
  }

  /** Before ids wrap around no entry is ever replaced. */
  ghost predicate NoneReplaced(calls: seq<Call>) {
    |calls| <= U64_SIZE ==> forall k | 0 <= k < |calls| :: calls[k].slot != Withdrawn(Closed)
  }

  lemma NoneReplacedByCall(s: State, k: nat, move: CallStep)
    requires EntriesOk(s.calls, s.pending) && NoneReplaced(s.calls) && CallEnabled(s, k, move)
    ensures NoneReplaced(CallApply(s, k, move).calls)
  {
    var id := RequestId(k);
    if move.Insert? && |s.calls| <= U64_SIZE && id in s.pending {
      var j := s.pending[id];
      IdsAreDistinct(if j < k then j else k, if j < k then k else j);
    }
  }

  lemma NoneReplacedByStep(s: State, step: Step)
    requires EntriesOk(s.calls, s.pending) && NoneReplaced(s.calls) && Enabled(s, step)
    ensures NoneReplaced(Apply(s, step).calls)
  {
    match step
    case ByCall(k, move) => NoneReplacedByCall(s, k, move);
    case _ =>
  }

  ghost predicate Abandons(calls: seq<Call>, k: nat, phase: CallPhase, why: Failure) {
    k < |calls|
    && ((calls[k].phase.Undoing? && phase == Finished(Err(Io)) && why.Io?)
        || (calls[k].phase.Forgetting? && phase.CancellingLate? && why.Timeout?))
  }

  /** A call that takes its own entry back, after a failed write or a timeout. */
  lemma AbandonKeepsCalls(calls: seq<Call>, pending: map<nat, nat>, inbox: seq<ServerFrame>, reader: ReaderPhase,
                          k: nat, phase: CallPhase, why: Failure)
    requires CallsOk(calls, pending, inbox, reader) && Abandons(calls, k, phase, why)
    ensures var calls' := Settle(calls[k := calls[k].(phase := phase)], pending, RequestId(k), Withdrawn(why));
            CallsOk(calls', pending - {RequestId(k)}, inbox, reader)
  {
    PhaseKeepsCalls(calls, pending, inbox, reader, k, phase);
    var moved := calls[k := calls[k].(phase := phase)];
    SettleKeepsCalls(moved, pending, inbox, reader, reader, RequestId(k), Withdrawn(why));
  }

  lemma InsertKeepsTable(s: State, k: nat)
    requires TableOk(s) && CallEnabled(s, k, Insert)
    ensures TableOk(CallApply(s, k, Insert))
  {
    RegisterKeepsCalls(s.calls, s.pending, s.inbox, s.reader, k);
    assert PhaseOk(k, s.calls[k]);
    var settled := Settle(s.calls, s.pending, RequestId(k), Withdrawn(Closed));
    assert CallApply(s, k, Insert).calls == settled[k := s.calls[k].(phase := WantEncode, slot := Registered)];
  }

  lemma PlainKeepsTable(s: State, k: nat, move: CallStep)
    requires TableOk(s) && CallEnabled(s, k, move) && !move.Undo? && !move.Forget? && !move.Insert?
    ensures TableOk(CallApply(s, k, move))
  {
    var phase := CallPhaseAfter(s, k, move);
    assert PhaseOk(k, s.calls[k]);
    PhaseKeepsCalls(s.calls, s.pending, s.inbox, s.reader, k, phase);
    assert CallApply(s, k, move).calls == s.calls[k := s.calls[k].(phase := phase)];
  }

  lemma CallStepKeepsTable(s: State, k: nat, move: CallStep)
    requires TableOk(s) && CallEnabled(s, k, move)
    ensures TableOk(CallApply(s, k, move))
  {
    match move
    case Insert => InsertKeepsTable(s, k);
    case Undo =>
      AbandonKeepsCalls(s.calls, s.pending, s.inbox, s.reader, k, CallPhaseAfter(s, k, move), Io);
    case Forget =>
      AbandonKeepsCalls(s.calls, s.pending, s.inbox, s.reader, k, CallPhaseAfter(s, k, move), Timeout);
    case _ => PlainKeepsTable(s, k, move);
  }

  lemma CancelStepKeepsTable(s: State, c: nat, act: CancelStep)
    requires TableOk(s) && CancelEnabled(s, c, act)
    ensures TableOk(CancelApply(s, c, act))
  {
    if act.CRemove? {
      SettleKeepsCalls(s.calls, s.pending, s.inbox, s.reader, s.reader, s.cancels[c].id, Failed(CancelledByUser));
    }
  }

  lemma ReadKeepsTable(s: State, frame: ServerFrame)
    requires TableOk(s) && ReaderEnabled(s, Read(frame))
    ensures TableOk(ReaderApply(s, Read(frame)))
  {
  }

  lemma DeliverKeepsTable(s: State)
    requires TableOk(s) && ReaderEnabled(s, Deliver)
    ensures TableOk(ReaderApply(s, Deliver))
  {
    var frame := Newest(s);
    if frame.id in s.pending {
      SettleKeepsCalls(s.calls, s.pending, s.inbox, s.reader, Reading, frame.id,
                       Delivered(|s.inbox| - 1, frame.answer));
    }
  }

  lemma ReaderStepKeepsTable(s: State, step: ReaderStep)
    requires TableOk(s) && ReaderEnabled(s, step)
    ensures TableOk(ReaderApply(s, step))
  {
    match step
    case Read(frame) => ReadKeepsTable(s, frame);
    case Deliver => DeliverKeepsTable(s);
    case Drain => SettleAllKeepsCalls(s.calls, s.pending, s.inbox, s.reader, s.reader.failure);
    case _ =>
  }

  lemma StepKeepsTable(s: State, step: Step)
    requires TableOk(s) && Enabled(s, step)
    ensures TableOk(Apply(s, step))
  {
    match step
    case ByCall(k, move) => CallStepKeepsTable(s, k, move);
    case ByCancel(c, act) => CancelStepKeepsTable(s, c, act);
    case ByReader(step) => ReaderStepKeepsTable(s, step);
    case Close => SettleAllKeepsCalls(s.calls, s.pending, s.inbox, s.reader, Closed);
    case Send(_, _) =>
    case StartCancel(_) =>
  }

  /** What a step writes: no request, or the own request of a call that is writing. */
  ghost predicate Writes(s: State, s': State) {
    || (&& s'.trace == s.trace && NoNewWriter(s.calls, s'.calls)
        && (s'.outbox == s.outbox || exists id :: s'.outbox == s.outbox + [Cancel(id)]))
    || (exists k, phase ::
          && 0 <= k < |s.calls| && s.calls[k].phase.Writing? && Sent(phase)
          && s'.calls == s.calls[k := s.calls[k].(phase := phase)]
          && s'.outbox == s.outbox + [OwnFrame(k, s.calls[k])]
          && s'.trace == s.trace.Write(k, |s.outbox|))
  }

  lemma CallWrites(s: State, k: nat, write: WriteOutcome)
    requires ScratchOk(s.calls, s.scratch) && CallEnabled(s, k, WriteRequest(write)) && !write.FailedEarly?
    ensures Writes(s, CallApply(s, k, WriteRequest(write)))
  {
    assert CallHas(s.calls[k].phase, Payload);
    var phase := CallPhaseAfter(s, k, WriteRequest(write));
    assert Sent(phase) && CallApply(s, k, WriteRequest(write)).calls == s.calls[k := s.calls[k].(phase := phase)];
  }

  lemma CallWritesNothing(s: State, k: nat, move: CallStep)
    requires CallEnabled(s, k, move) && (move.WriteRequest? ==> move.write.FailedEarly?)
    ensures Writes(s, CallApply(s, k, move))
  {
    CallMoves(s, k, move);
  }

  lemma StepWrites(s: State, step: Step)
    requires ScratchOk(s.calls, s.scratch) && Enabled(s, step)
    ensures Writes(s, Apply(s, step))
  {
    match step
    case ByCall(k, move) =>
      if move.WriteRequest? && !move.write.FailedEarly? {
        CallWrites(s, k, move.write);
      } else {
        CallWritesNothing(s, k, move);
      }
    case _ =>
  }

  lemma OutboxGrows(s: State, step: Step)
    requires Enabled(s, step)
    ensures s.outbox <= Apply(s, step).outbox
  {
  }

  ghost predicate OutboxOk(s: State) {
    SentOk(s.calls, s.outbox, s.trace)
  }

  lemma WritingKeepsSent(s: State, s': State)
    requires TableOk(s) && OutboxOk(s)
    requires CallsEvolve(s.calls, s'.calls) && Writes(s, s')
    ensures OutboxOk(s')
  {
    if k, phase :| 0 <= k < |s.calls| && s.calls[k].phase.Writing? && Sent(phase)
                   && s'.calls == s.calls[k := s.calls[k].(phase := phase)]
                   && s'.outbox == s.outbox + [OwnFrame(k, s.calls[k])]
                   && s'.trace == s.trace.Write(k, |s.outbox|) {
      assert PhaseOk(k, s.calls[k]);
      WriteKeepsSent(s.calls, s.outbox, s.trace, k, phase);
    } else {
      EvolvingKeepsSent(s.calls, s'.calls, s.outbox, s'.outbox, s.trace);
    }
  }

  // ---------------------------------------------------------------- every run

  ghost predicate Safe(s: State) {
    LocksOk(s) && TableOk(s) && NoneReplaced(s.calls) && ScratchOk(s.calls, s.scratch) && OutboxOk(s)
  }

  lemma StepKeepsSent(s: State, step: Step)
    requires TableOk(s) && ScratchOk(s.calls, s.scratch) && OutboxOk(s) && Enabled(s, step)
    ensures OutboxOk(Apply(s, step))
  {
    StepEvolves(s, step);
    StepWrites(s, step);
    WritingKeepsSent(s, Apply(s, step));
  }

  lemma StepIsSafe(s: State, step: Step)
    requires Safe(s) && Enabled(s, step)
    ensures Safe(Apply(s, step))
  {
    LocksKept(s, step);
    ScratchKept(s, step);
    StepKeepsTable(s, step);
    NoneReplacedByStep(s, step);
    StepKeepsSent(s, step);
  }

  lemma {:induction false} RunIsSafe(maxInFlight: nat, steps: seq<Step>)
    requires Exec(maxInFlight, steps).Some?
    ensures Safe(Exec(maxInFlight, steps).value)
    decreases |steps|
  {
    if steps != [] {
      RunIsSafe(maxInFlight, steps[..|steps| - 1]);
      StepIsSafe(Exec(maxInFlight, steps[..|steps| - 1]).value, steps[|steps| - 1]);
    }
  }

  lemma ReachableIsSafe(s: State)
    requires Reachable(s)
    ensures Safe(s)
  {
    var steps :| Exec(s.maxInFlight, steps) == Some(s);
    RunIsSafe(s.maxInFlight, steps);
  }

  /** A pending entry is completed once and a call ends once, after any number of sends. */
  lemma CompletionIsFinal(s: State, step: Step, k: nat)
    requires Reachable(s) && Enabled(s, step) && k < |s.calls|
    ensures k < |Apply(s, step).calls|
    ensures Settled(s.calls[k].slot) ==> Apply(s, step).calls[k].slot == s.calls[k].slot
    ensures s.calls[k].phase.Finished? ==> Apply(s, step).calls[k].phase == s.calls[k].phase
  {
    ReachableIsSafe(s);
    StepEvolves(s, step);
    assert Evolves(s.calls[k], Apply(s, step).calls[k]);
  }

  /** What a call writes out is its own request, though the buffer is shared, after any number of sends. */
  lemma OwnRequestIsWritten(s: State, k: nat, write: WriteOutcome)
    requires Reachable(s) && CallEnabled(s, k, WriteRequest(write)) && !write.FailedEarly?
    ensures CallApply(s, k, WriteRequest(write)).outbox == s.outbox + [OwnFrame(k, s.calls[k])]
  {
    ReachableIsSafe(s);
    assert CallHas(s.calls[k].phase, Payload);
  }

  lemma OkWasDelivered(s: State, k: nat)
    requires TableOk(s) && k < |s.calls| && s.calls[k].phase.Finished? && s.calls[k].phase.outcome.Ok?
    ensures s.calls[k].slot.Delivered? && s.calls[k].slot.at < |s.inbox|
    ensures s.inbox[s.calls[k].slot.at] == Response(RequestId(k), s.calls[k].phase.outcome.value)
  {
    assert PhaseOk(k, s.calls[k]) && SlotOk(k, s.calls[k].slot, s.pending, s.inbox, s.reader);
  }

  /** A call that ends Ok got a response frame with its own id; calls with different ids got different frames. */
  lemma OkIsOwnResponse(s: State, j: nat, k: nat)
    requires Reachable(s) && j < |s.calls| && k < |s.calls| && RequestId(j) != RequestId(k)
    requires s.calls[j].phase.Finished? && s.calls[j].phase.outcome.Ok?
    requires s.calls[k].phase.Finished? && s.calls[k].phase.outcome.Ok?
    ensures s.calls[j].slot.Delivered? && s.calls[k].slot.Delivered?
    ensures s.calls[j].slot.at < |s.inbox| && s.calls[j].slot.at != s.calls[k].slot.at
    ensures s.inbox[s.calls[j].slot.at] == Response(RequestId(j), s.calls[j].phase.outcome.value)
  {
    ReachableIsSafe(s);
    OkWasDelivered(s, j);
    OkWasDelivered(s, k);
  }

  lemma LocksAreRanked(s: State)
    requires LocksOk(s)
    ensures Ranked(s.table, Wants(s))
  {
    forall l | l in s.table && Wants(s)(s.table[l]).Some?
      ensures Rank(l) < Rank(Wants(s)(s.table[l]).value)
    {
      assert Holds(s.table, s.table[l], l) <==> Has(s, s.table[l], l);
    }
  }

  /** No cycle of lock waits among callers, cancellers and the reader, after any number of calls. */
  lemma NoDeadlock(s: State, chain: seq<Actor>)
    requires Reachable(s) && WaitChain(s.table, Wants(s), chain)
    ensures chain[0] != chain[|chain| - 1]
  {
    ReachableIsSafe(s);
    LocksAreRanked(s);
    NoWaitCycle(s.table, Wants(s), chain);
  }

  // ---------------------------------------------------------------- someone can always go on

  /** A call that has timed out waits for the cancel it started. */
  ghost predicate LateOk(s: State) {
    forall k | 0 <= k < |s.calls| && s.calls[k].phase.CancellingLate? :: s.calls[k].phase.c < |s.cancels|
  }

  lemma LateKeptByCall(s: State, k: nat, move: CallStep)
    requires LateOk(s) && CallEnabled(s, k, move)
    ensures LateOk(CallApply(s, k, move))
  {
    CallMoves(s, k, move);
  }

  lemma LateKept(s: State, step: Step)
    requires LateOk(s) && Enabled(s, step)
    ensures LateOk(Apply(s, step))
  {
    match step
    case ByCall(k, move) => LateKeptByCall(s, k, move);
    case _ =>
  }

  lemma {:induction false} RunKeepsLate(maxInFlight: nat, steps: seq<Step>)
    requires Exec(maxInFlight, steps).Some?
    ensures LateOk(Exec(maxInFlight, steps).value)
    decreases |steps|
  {
    if steps != [] {
      RunKeepsLate(maxInFlight, steps[..|steps| - 1]);
      LateKept(Exec(maxInFlight, steps[..|steps| - 1]).value, steps[|steps| - 1]);
    }
  }

  /** The actor is in the middle of something; the reader is not when it waits for a frame. */
  predicate Busy(s: State, a: Actor) {
    match a
    case Reader => !s.reader.Reading? && !s.reader.Stopped?
    case Caller(k) => k < |s.calls| && !s.calls[k].phase.Finished? && !s.calls[k].phase.Dropped?
    case Canceller(c) => c < |s.cancels| && !s.cancels[c].phase.CDone?
  }

  /** A call whose own cancel is under way waits for that cancel; everybody else acts for himself. */
  function ActsFor(s: State, a: Actor): Actor {
    if a.Caller? && a.index < |s.calls| && s.calls[a.index].phase.CancellingLate?
       && Busy(s, Canceller(s.calls[a.index].phase.c))
    then Canceller(s.calls[a.index].phase.c)
    else a
  }

  /** What the actor's own code does next, if nothing fails. */
  function OwnStep(s: State, a: Actor): Step
    requires Busy(s, a)
  {
    match a
    case Reader => ByReader(
      match s.reader
      case WantDeliver => TakeDeliver
      case Delivering => Deliver
      case WantDrain(_) => TakeDrain
      case _ => Drain)
    case Canceller(c) => ByCancel(c,
      match s.cancels[c].phase
      case CWantWriter => CTakeWriter
      case CWriting => CWrite(Written)
      case CWantPending => CTakePending
      case _ => CRemove)
    case Caller(k) => ByCall(k, CallerStep(s.calls[k]))
  }

  function CallerStep(c: Call): CallStep {
    match c.phase
    case WantCheck => TakeCheck
    case Checking => Check
    case WantInsert => TakeInsert
    case Inserting => Insert
    case WantEncode => TakeEncode
    case WantPayload => TakePayload(true)
    case WantWriter => TakeWriter
    case Writing => WriteRequest(Written)
    case WantUndo => TakeUndo
    case Undoing => Undo
    case Awaiting => if Settled(c.slot) then Resolve else TimeOut
    case WantForget => TakeForget
    case Forgetting => Forget
    case CancellingLate(_) => EndLateCancel
    case _ => Drop
  }

  lemma UnblockedCanStep(s: State, a: Actor)
    requires TableOk(s) && LateOk(s) && Busy(s, a) && !Blocked(s.table, Wants(s), a) && ActsFor(s, a) == a
    ensures Enabled(s, OwnStep(s, a))
  {
  }

  lemma HoldersAreBusy(s: State, l: Lock)
    requires LocksOk(s) && l in s.table
    ensures Busy(s, s.table[l]) && ActsFor(s, s.table[l]) == s.table[l]
  {
    assert Holds(s.table, s.table[l], l) <==> Has(s, s.table[l], l);
  }

  /** Nothing ever stands still: whoever is busy, or the cancel it waits for, or someone who holds a lock can go on. */
  lemma SomeoneCanStep(s: State, a: Actor) returns (b: Actor)
    requires Reachable(s) && Busy(s, a)
    ensures Busy(s, b) && Enabled(s, OwnStep(s, b))
    ensures b == ActsFor(s, a) || exists l :: Holds(s.table, b, l)
  {
    var steps :| Exec(s.maxInFlight, steps) == Some(s);
    RunKeepsLate(s.maxInFlight, steps);
    ReachableIsSafe(s);
    LocksAreRanked(s);
    b := SomeoneCanProceed(s.table, Wants(s), ActsFor(s, a));
    if b != ActsFor(s, a) {
      var l :| l in s.table && s.table[l] == b;
      HoldersAreBusy(s, l);
      assert Holds(s.table, b, l);
    }
    UnblockedCanStep(s, b);
  }
}
