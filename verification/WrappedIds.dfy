/** What happens to a control link once request ids repeat: a call can take over another call's answer. */
module WrappedIds {
  import opened Wrappers
  import opened Locks
  import opened Wire
  import C = ClientSession
  import CS = ClientSafety
  import S = ServerConnection
  import L = ControlLink

  lemma ReachStep(l: L.State, step: L.Step)
    requires L.Reachable(l) && L.Enabled(l, step)
    ensures L.Reachable(L.Apply(l, step))
  {
    var clientLimit, serverLimit, steps :| L.Exec(clientLimit, serverLimit, steps) == Some(l);
    assert (steps + [step])[..|steps + [step]| - 1] == steps;
    assert L.Exec(clientLimit, serverLimit, steps + [step]) == Some(L.Apply(l, step));
  }

  /** A client step that reads nothing. */
  lemma ClientStep(l: L.State, cstep: C.Step)
    requires L.Reachable(l) && C.Enabled(l.client, cstep) && !(cstep.ByReader? && cstep.step.Read?)
    ensures L.Reachable(l.(client := C.Apply(l.client, cstep)))
  {
    ReachStep(l, L.ByClient(cstep));
  }

  /** A server step that receives nothing. */
  lemma ServerStep(l: L.State, sstep: S.Step)
    requires L.Reachable(l) && S.Enabled(l.server, sstep) && !(sstep.ByLoop? && sstep.step.Receive?)
    ensures L.Reachable(l.(server := S.Apply(l.server, sstep)))
  {
    ReachStep(l, L.ByServer(sstep));
  }

  // ---------------------------------------------------------------- 2^64 + 1 sends

  function NewCall(texts: nat -> Text, k: nat): C.Call {
    C.Call(Known(false), Decodes(texts(k)),
           if C.RequestId(k) == 0 then C.Finished(Err(C.InvalidRequestId)) else C.WantCheck, C.Vacant)
  }

  /** A session in which `n` calls have been made and nothing else has happened. */
  function Fresh(limit: nat, texts: nat -> Text, n: nat): C.State {
    C.Init(limit).(calls := seq(n, k requires 0 <= k < n => NewCall(texts, k)))
  }

  lemma SendOne(limit: nat, texts: nat -> Text, n: nat)
    ensures C.Apply(Fresh(limit, texts, n), C.Send(Known(false), Decodes(texts(n)))) == Fresh(limit, texts, n + 1)
  {
    assert Fresh(limit, texts, n + 1).calls == Fresh(limit, texts, n).calls + [NewCall(texts, n)];
  }

  lemma NothingSent(clientLimit: nat, serverLimit: nat)
    ensures L.Reachable(L.State(C.Init(clientLimit), S.Init(serverLimit)))
  {
    assert L.Exec(clientLimit, serverLimit, []) == Some(L.State(C.Init(clientLimit), S.Init(serverLimit)));
  }

  lemma {:induction false} SendMany(clientLimit: nat, serverLimit: nat, texts: nat -> Text, n: nat)
    ensures L.Reachable(L.State(Fresh(clientLimit, texts, n), S.Init(serverLimit)))
  {
    if n == 0 {
      NothingSent(clientLimit, serverLimit);
      assert Fresh(clientLimit, texts, 0) == C.Init(clientLimit);
    } else {
      SendMany(clientLimit, serverLimit, texts, n - 1);
      var before := L.State(Fresh(clientLimit, texts, n - 1), S.Init(serverLimit));
      ClientStep(before, C.Send(Known(false), Decodes(texts(n - 1))));
      SendOne(clientLimit, texts, n - 1);
    }
  }

  // ---------------------------------------------------------------- one call, from its check to its write

  lemma FreeAgain(a: C.Actor, l: Lock)
    ensures Without(map[l := a], a) == map[]
  {
  }

  /** A call passes the limit check. */
  lemma CallChecks(l: L.State, k: nat) returns (l': L.State)
    requires L.Reachable(l) && l.client.table == map[] && k < |l.client.calls|
    requires l.client.calls[k].phase.WantCheck? && |l.client.pending| < l.client.maxInFlight
    ensures L.Reachable(l')
    ensures l' == l.(client := l.client.(calls := l.client.calls[k := l.client.calls[k].(phase := C.WantInsert)]))
  {
    ClientStep(l, C.ByCall(k, C.TakeCheck));
    var c := C.Apply(l.client, C.ByCall(k, C.TakeCheck));
    ClientStep(l.(client := c), C.ByCall(k, C.Check));
    FreeAgain(C.Caller(k), Pending);
    l' := l.(client := C.Apply(c, C.ByCall(k, C.Check)));
  }

  /** A call inserts its entry, in place of an older one under the same id. */
  lemma CallInserts(l: L.State, k: nat) returns (l': L.State)
    requires L.Reachable(l) && l.client.table == map[] && k < |l.client.calls| && l.client.calls[k].phase.WantInsert?
    ensures L.Reachable(l')
    ensures var c := l.client;
            var settled := C.Settle(c.calls, c.pending, C.RequestId(k), C.Withdrawn(C.Closed));
            && |settled| == |c.calls|
            && l' == l.(client := c.(calls := settled[k := settled[k].(phase := C.WantEncode, slot := C.Registered)],
                                     pending := c.pending[C.RequestId(k) := k]))
  {
    ClientStep(l, C.ByCall(k, C.TakeInsert));
    var c := C.Apply(l.client, C.ByCall(k, C.TakeInsert));
    ClientStep(l.(client := c), C.ByCall(k, C.Insert));
    FreeAgain(C.Caller(k), Pending);
    l' := l.(client := C.Apply(c, C.ByCall(k, C.Insert)));
  }

  lemma CallEncodes(l: L.State, k: nat) returns (l': L.State)
    requires L.Reachable(l) && l.client.table == map[] && k < |l.client.calls| && l.client.calls[k].phase.WantEncode?
    ensures L.Reachable(l')
    ensures var c, me := l.client, C.Caller(k);
            l' == l.(client := c.(calls := c.calls[k := c.calls[k].(phase := C.WantWriter)],
                                  scratch := Some(CS.OwnFrame(k, c.calls[k])),
                                  table := map[Encode := me, Payload := me]))
  {
    ClientStep(l, C.ByCall(k, C.TakeEncode));
    var c1 := C.Apply(l.client, C.ByCall(k, C.TakeEncode));
    ClientStep(l.(client := c1), C.ByCall(k, C.TakePayload(true)));
    l' := l.(client := C.Apply(c1, C.ByCall(k, C.TakePayload(true))));
  }

  lemma FreeAfterWrite(a: C.Actor)
    ensures Without(map[Encode := a, Payload := a][Writer := a], a) == map[]
  {
  }

  /** A call encodes its request and writes it out. */
  lemma CallWrites(l: L.State, k: nat) returns (l': L.State)
    requires L.Reachable(l) && l.client.table == map[] && k < |l.client.calls| && l.client.calls[k].phase.WantEncode?
    ensures L.Reachable(l')
    ensures var c := l.client;
            l' == l.(client := c.(calls := c.calls[k := c.calls[k].(phase := C.Awaiting)],
                                  scratch := Some(CS.OwnFrame(k, c.calls[k])),
                                  outbox := c.outbox + [CS.OwnFrame(k, c.calls[k])],
                                  trace := c.trace.Write(k, |c.outbox|)))
  {
    var encoded := CallEncodes(l, k);
    ClientStep(encoded, C.ByCall(k, C.TakeWriter));
    var c := C.Apply(encoded.client, C.ByCall(k, C.TakeWriter));
    ClientStep(l.(client := c), C.ByCall(k, C.WriteRequest(Written)));
    FreeAfterWrite(C.Caller(k));
    l' := l.(client := C.Apply(c, C.ByCall(k, C.WriteRequest(Written))));
  }

  /** From the check to the write. */
  lemma CallSends(l: L.State, k: nat) returns (l': L.State)
    requires L.Reachable(l) && l.client.table == map[] && k < |l.client.calls|
    requires l.client.calls[k].phase.WantCheck? && |l.client.pending| < l.client.maxInFlight
    requires C.RequestId(k) in l.client.pending ==> l.client.pending[C.RequestId(k)] != k
    ensures L.Reachable(l') && l'.server == l.server
    ensures var c, c' := l.client, l'.client;
            && |c'.calls| == |c.calls| && c'.pending == c.pending[C.RequestId(k) := k]
            && c'.calls[k] == c.calls[k].(phase := C.Awaiting, slot := C.Registered)
            && (forall j | 0 <= j < |c.calls| && j != k ::
                  && c'.calls[j].phase == c.calls[j].phase && CS.OwnFrame(j, c'.calls[j]) == CS.OwnFrame(j, c.calls[j])
                  && (c'.calls[j].slot.Vacant? ==> c.calls[j].slot.Vacant?))
            && c'.table == map[] && c'.reader == c.reader && c'.inbox == c.inbox && c'.maxInFlight == c.maxInFlight
            && c'.outbox == c.outbox + [CS.OwnFrame(k, c.calls[k])] && c'.trace == c.trace.Write(k, |c.outbox|)
  {
    var checked := CallChecks(l, k);
    var inserted := CallInserts(checked, k);
    l' := CallWrites(inserted, k);
  }

  // ---------------------------------------------------------------- the server answers the first frame

  /** The server reads the first frame of the link. */
  lemma ServerReads(l: L.State) returns (l': L.State)
    requires L.Reachable(l) && l.server == S.Init(l.server.limit) && |l.client.outbox| > 0
    ensures L.Reachable(l')
    ensures var s := l.server;
            l' == l.(server := s.(loop := S.Deciding, log := s.log.(inbox := [l.client.outbox[0]])))
  {
    ReachStep(l, L.ByServer(S.ByLoop(S.Receive(l.client.outbox[0]))));
    l' := l.(server := S.Apply(l.server, S.ByLoop(S.Receive(l.client.outbox[0]))));
  }

  lemma ServerAdmits(l: L.State) returns (l': L.State)
    requires L.Reachable(l) && l.server.loop.Deciding? && l.server.permits >= 1
    requires |l.server.log.inbox| > 0 && l.server.log.Newest().Request?
    ensures L.Reachable(l')
    ensures l' == l.(server := l.server.(loop := S.Admitted, permits := l.server.permits - 1))
  {
    ServerStep(l, S.ByLoop(S.Decide));
    l' := l.(server := S.Apply(l.server, S.ByLoop(S.Decide)));
  }

  lemma DispatchSpawns(s: S.State, id: nat, text: Text)
    requires s.loop.Admitted? && s.tasks == [] && s.log.inbox == [Request(id, Known(false), Decodes(text))]
    ensures S.LoopEnabled(s, S.Dispatch)
    ensures var s' := S.Dispatched(s);
            && s'.loop.Spawned? && s'.tasks == [S.Task(id, 0, false, S.Handling)] && s'.table == s.table
            && s'.log.(taskOf := s.log.taskOf) == s.log
  {
  }

  lemma ServerDispatches(l: L.State, id: nat, text: Text) returns (l': L.State)
    requires L.Reachable(l) && l.server.loop.Admitted? && l.server.tasks == []
    requires l.server.log.inbox == [Request(id, Known(false), Decodes(text))]
    ensures L.Reachable(l') && l'.client == l.client && l'.server.loop.Spawned?
    ensures l'.server.tasks == [S.Task(id, 0, false, S.Handling)] && l'.server.table == l.server.table
    ensures l'.server.log.(taskOf := l.server.log.taskOf) == l.server.log
  {
    DispatchSpawns(l.server, id, text);
    ServerStep(l, S.ByLoop(S.Dispatch));
    l' := l.(server := S.Dispatched(l.server));
  }

  lemma ServerReceives(l: L.State, id: nat, text: Text) returns (l': L.State)
    requires L.Reachable(l) && l.server == S.Init(l.server.limit) && l.server.limit >= 1
    requires |l.client.outbox| > 0 && l.client.outbox[0] == Request(id, Known(false), Decodes(text))
    ensures L.Reachable(l') && l'.client == l.client
    ensures var s := l'.server;
            && s.loop.Spawned? && s.tasks == [S.Task(id, 0, false, S.Handling)] && s.table == map[]
            && s.log.inbox == [l.client.outbox[0]] && s.log.outbox == [] && s.log.produced == map[]
  {
    var read := ServerReads(l);
    var admitted := ServerAdmits(read);
    l' := ServerDispatches(admitted, id, text);
  }

  lemma ServerInserts(l: L.State) returns (l': L.State)
    requires L.Reachable(l) && l.server.loop.Spawned? && |l.server.tasks| > 0 && l.server.table == map[]
    ensures L.Reachable(l') && l'.client == l.client
    ensures l'.server.tasks == l.server.tasks && l'.server.table == map[] && l'.server.log == l.server.log
  {
    ServerStep(l, S.ByLoop(S.TakeInsert));
    var s := S.Apply(l.server, S.ByLoop(S.TakeInsert));
    ServerStep(l.(server := s), S.ByLoop(S.Insert));
    l' := l.(server := S.Apply(s, S.ByLoop(S.Insert)));
  }

  lemma ServerReplies(l: L.State, id: nat, text: Text) returns (l': L.State)
    requires L.Reachable(l) && l.server.tasks == [S.Task(id, 0, false, S.Handling)] && l.server.table == map[]
    requires l.server.log.outbox == [] && l.server.log.produced == map[]
    ensures L.Reachable(l') && l'.client == l.client && l'.server.log.inbox == l.server.log.inbox
    ensures l'.server.log.outbox == [S.Reply(id, Handled(text), 0)]
    ensures l'.server.log.produced == map[0 := Handled(text)]
  {
    ServerStep(l, S.ByTask(0, S.Finish(Handled(text))));
    var s1 := S.Apply(l.server, S.ByTask(0, S.Finish(Handled(text))));
    ServerStep(l.(server := s1), S.ByTask(0, S.TakeEncode(true)));
    var s2 := S.Apply(s1, S.ByTask(0, S.TakeEncode(true)));
    ServerStep(l.(server := s2), S.ByTask(0, S.TakeWriter));
    var s3 := S.Apply(s2, S.ByTask(0, S.TakeWriter));
    ServerStep(l.(server := s3), S.ByTask(0, S.WriteReply(true)));
    l' := l.(server := S.Apply(s3, S.ByTask(0, S.WriteReply(true))));
  }

  // ---------------------------------------------------------------- the client hands the answer out

  lemma ClientReads(l: L.State) returns (l': L.State)
    requires L.Reachable(l) && l.client.reader.Reading? && l.client.inbox == [] && l.client.table == map[]
    requires |l.server.log.outbox| == 1
    ensures L.Reachable(l')
    ensures l' == l.(client := l.client.(inbox := [L.AsFrame(l.server.log.outbox[0])], reader := C.Delivering,
                                         table := map[Pending := C.Reader]))
  {
    var frame := L.AsFrame(l.server.log.outbox[0]);
    ReachStep(l, L.ByClient(C.ByReader(C.Read(frame))));
    var c := C.Apply(l.client, C.ByReader(C.Read(frame)));
    ClientStep(l.(client := c), C.ByReader(C.TakeDeliver));
    l' := l.(client := C.Apply(c, C.ByReader(C.TakeDeliver)));
  }

  lemma ClientDelivers(l: L.State, k: nat) returns (l': L.State)
    requires L.Reachable(l) && l.client.reader.Delivering? && |l.client.inbox| == 1 && C.Newest(l.client).Response?
    requires k < |l.client.calls| && l.client.calls[k].phase.Awaiting?
    requires C.Newest(l.client).id in l.client.pending && l.client.pending[C.Newest(l.client).id] == k
    ensures L.Reachable(l') && l'.server == l.server
    ensures var c, c' := l.client, l'.client;
            && |c'.calls| == |c.calls| && c'.outbox == c.outbox && c'.trace == c.trace
            && c'.calls[k] == c.calls[k].(phase := C.Finished(Ok(C.Newest(c).answer)),
                                          slot := C.Delivered(0, C.Newest(c).answer))
            && (forall j | 0 <= j < |c.calls| && j != k :: c'.calls[j] == c.calls[j])
  {
    ClientStep(l, C.ByReader(C.Deliver));
    var c := C.Apply(l.client, C.ByReader(C.Deliver));
    ClientStep(l.(client := c), C.ByCall(k, C.Resolve));
    l' := l.(client := C.Apply(c, C.ByCall(k, C.Resolve)));
  }

  // ---------------------------------------------------------------- the answer of another request

  /** Calls number 0 and 2^64 have written a request each, under the same id. */
  ghost predicate ShareAnId(c: C.State, texts: nat -> Text) {
    && |c.calls| == U64_SIZE + 1 && |c.outbox| == 2
    && CS.SentBy(c.calls, c.outbox, 0, 0) && CS.SentBy(c.calls, c.outbox, U64_SIZE, 1)
    && c.outbox[0] == Request(1, Known(false), Decodes(texts(0)))
    && c.outbox[1] == Request(1, Known(false), Decodes(texts(U64_SIZE)))
    && c.trace.sentAt == map[0 := 0, U64_SIZE := 1]
  }

  lemma BothWritten(clientLimit: nat, serverLimit: nat, texts: nat -> Text) returns (l: L.State)
    requires clientLimit >= 2
    ensures L.Reachable(l) && l.server == S.Init(serverLimit) && ShareAnId(l.client, texts)
    ensures l.client.pending == map[1 := U64_SIZE] && l.client.calls[U64_SIZE].phase.Awaiting?
    ensures l.client.table == map[] && l.client.reader.Reading? && l.client.inbox == []
  {
    var k := U64_SIZE;
    SendMany(clientLimit, serverLimit, texts, k + 1);
    var l0 := L.State(Fresh(clientLimit, texts, k + 1), S.Init(serverLimit));
    assert l0.client.calls[0] == NewCall(texts, 0) && l0.client.calls[k] == NewCall(texts, k);
    assert C.RequestId(0) == 1 && C.RequestId(k) == 1;
    var l1 := CallSends(l0, 0);
    assert l1.client.pending == map[1 := 0];
    l := CallSends(l1, k);
    assert l.client.pending == map[1 := k];
  }

  lemma FirstIsAnswered(before: L.State, texts: nat -> Text, answer: Text) returns (l: L.State)
    requires L.Reachable(before) && before.server == S.Init(before.server.limit) && before.server.limit >= 1
    requires ShareAnId(before.client, texts)
    ensures L.Reachable(l) && l.client == before.client
    ensures l.server.log.outbox == [S.Reply(1, Handled(answer), 0)]
    ensures l.server.log.produced == map[0 := Handled(answer)]
  {
    var received := ServerReceives(before, 1, texts(0));
    var inserted := ServerInserts(received);
    l := ServerReplies(inserted, 1, answer);
  }

  /**
    Unique ids on the wire are needed. For all limits that allow two calls in flight and for all texts: after 2^64 sends
    call number 2^64 ends Ok with the answer to the request of call number 0, while no answer was ever produced for
    the request that it wrote itself.
   */
  lemma WrappedCallTakesForeignAnswer(clientLimit: nat, serverLimit: nat, texts: nat -> Text, answer: Text)
    returns (l: L.State)
    requires clientLimit >= 2 && serverLimit >= 1
    ensures L.Reachable(l) && ShareAnId(l.client, texts)
    ensures l.client.calls[U64_SIZE].phase == C.Finished(Ok(Handled(answer)))
    ensures l.server.log.produced == map[0 := Handled(answer)]
  {
    var written := BothWritten(clientLimit, serverLimit, texts);
    var replied := FirstIsAnswered(written, texts, answer);
    var read := ClientReads(replied);
    assert C.Newest(read.client) == Response(1, Handled(answer));
    l := ClientDelivers(read, U64_SIZE);
  }
}
