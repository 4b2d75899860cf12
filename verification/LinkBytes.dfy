/** The bytes under a control link: what each end reads from the other's stream is what the link lets it receive. */
module LinkBytes {
  import opened Wrappers
  import opened Bytes
  import opened Frame
  import opened FrameIo
  import Wire
  import S = ServerConnection
  import C = ClientSession
  import L = ControlLink

  /** The opcode table and the payload formats. */
  datatype Formats = Formats(
    opcode: u16 -> Wire.Opcode,
    body: seq<byte> -> Wire.Body,
    answer: seq<byte> -> Option<Wire.Answer>
  )

  function Known(formats: Formats): u16 -> bool {
    (opcode: u16) => formats.opcode(opcode).Known?
  }

  /** What the server makes of a frame. */
  function AsClientFrame(formats: Formats, f: BinaryFrame): Wire.ClientFrame {
    if IsCancel(f.header) then Wire.Cancel(f.header.requestId)
    else if !Contains(f.header.flags, REQUEST) then Wire.Stray(f.header.requestId)
    else Wire.Request(f.header.requestId, formats.opcode(f.header.opcode), formats.body(f.payload))
  }

  /** What the client makes of a frame. */
  function AsServerFrame(formats: Formats, f: BinaryFrame): Wire.ServerFrame {
    if !Contains(f.header.flags, RESPONSE) then Wire.BadFlags(f.header.requestId)
    else
      match formats.answer(f.payload)
      case None => Wire.BadPayload(f.header.requestId)
      case Some(answer) => Wire.Response(f.header.requestId, answer)
  }

  /** `fs` are the binary frames of what the client wrote. */
  ghost predicate Carries(formats: Formats, limits: Limits, fs: seq<BinaryFrame>, written: seq<Wire.ClientFrame>) {
    && AllEncodable(fs, limits) && |fs| == |written|
    && forall i | 0 <= i < |fs| :: AsClientFrame(formats, fs[i]) == written[i]
  }

  /** `fs` are the binary frames of what the server wrote. */
  ghost predicate Returns(formats: Formats, limits: Limits, fs: seq<BinaryFrame>, written: seq<S.Reply>) {
    && AllEncodable(fs, limits) && |fs| == |written|
    && forall i | 0 <= i < |fs| :: AsServerFrame(formats, fs[i]) == L.AsFrame(written[i])
  }

  lemma OnlyNextForServer(l: L.State, frame: Wire.ClientFrame)
    requires l.server.loop.Waiting? && |l.server.log.inbox| < |l.client.outbox|
    ensures L.Enabled(l, L.ByServer(S.ByLoop(S.Receive(frame))))
       <==> frame == l.client.outbox[|l.server.log.inbox|]
  {
  }

  lemma OnlyNextForClient(l: L.State, frame: Wire.ServerFrame)
    requires l.client.reader.Reading? && |l.client.inbox| < |l.server.log.outbox|
    ensures L.Enabled(l, L.ByClient(C.ByReader(C.Read(frame))))
       <==> frame == L.AsFrame(l.server.log.outbox[|l.client.inbox|])
  {
  }

  /** Reading the client's bytes frame by frame gives the requests and cancels the server has received so far. */
  lemma ServerReceivedTheBytes(l: L.State, formats: Formats, limits: Limits, fs: seq<BinaryFrame>)
    requires L.Reachable(l) && Carries(formats, limits, fs, l.client.outbox)
    ensures var n := |l.server.log.inbox|;
            && n <= |fs|
            && Reads(Rest(fs, 0), limits, fs[..n], Rest(fs, n))
            && (forall i | 0 <= i < n :: AsClientFrame(formats, fs[i]) == l.server.log.inbox[i])
  {
    L.StreamsAgree(l);
    var n := |l.server.log.inbox|;
    ReadsTakeFrames(fs, limits, 0, n);
    assert fs[0..n] == fs[..n];
  }

  /** What one more read of those bytes returns is the only frame the server's loop may receive next. */
  lemma ServerReceivesNextFrame(l: L.State, formats: Formats, limits: Limits, fs: seq<BinaryFrame>,
                                frame: Wire.ClientFrame)
    requires L.Reachable(l) && Carries(formats, limits, fs, l.client.outbox)
    requires l.server.loop.Waiting? && |l.server.log.inbox| < |fs|
    ensures var n := |l.server.log.inbox|;
            && ReadFrame(Rest(fs, n), limits).0 == Ok(Some(fs[n]))
            && (L.Enabled(l, L.ByServer(S.ByLoop(S.Receive(frame)))) <==> frame == AsClientFrame(formats, fs[n]))
  {
    NextRead(fs, limits, |l.server.log.inbox|);
    OnlyNextForServer(l, frame);
  }

  /** The same for the responses the client has read, ... */
  lemma ClientReceivedTheBytes(l: L.State, formats: Formats, limits: Limits, fs: seq<BinaryFrame>)
    requires L.Reachable(l) && Returns(formats, limits, fs, l.server.log.outbox)
    ensures var n := |l.client.inbox|;
            && n <= |fs|
            && Reads(Rest(fs, 0), limits, fs[..n], Rest(fs, n))
            && (forall i | 0 <= i < n :: AsServerFrame(formats, fs[i]) == l.client.inbox[i])
  {
    L.StreamsAgree(l);
    var n := |l.client.inbox|;
    ReadsTakeFrames(fs, limits, 0, n);
    assert fs[0..n] == fs[..n];
  }

  /** ... and for the one it may read next. */
  lemma ClientReceivesNextFrame(l: L.State, formats: Formats, limits: Limits, fs: seq<BinaryFrame>,
                                frame: Wire.ServerFrame)
    requires L.Reachable(l) && Returns(formats, limits, fs, l.server.log.outbox)
    requires l.client.reader.Reading? && |l.client.inbox| < |fs|
    ensures var n := |l.client.inbox|;
            && ReadFrame(Rest(fs, n), limits).0 == Ok(Some(fs[n]))
            && (L.Enabled(l, L.ByClient(C.ByReader(C.Read(frame)))) <==> frame == AsServerFrame(formats, fs[n]))
  {
    NextRead(fs, limits, |l.client.inbox|);
    OnlyNextForClient(l, frame);
  }

  // ---------------------------------------------------------------- the two models of the server's loop

  /** The loop after it has received a frame and decided on it. */
  function AfterDecide(s: S.State, frame: Wire.ClientFrame): S.State
    requires s.loop.Waiting?
  {
    S.LoopApply(S.LoopApply(s, S.Receive(frame)), S.Decide)
  }

  /**
    One iteration of the byte loop and the steps of the connection decide alike: cancel, refuse for lack of a permit,
    admit, end for wrong flags, or end for an unknown opcode once the payload is read.
   */
  lemma LoopsDecideAlike(s: S.State, formats: Formats, f: BinaryFrame)
    requires s.loop.Waiting?
    ensures var frame, gate := AsClientFrame(formats, f), if s.permits == 0 then Full else Open;
            var decided := AfterDecide(s, frame);
            match Verdict(f.header, gate, Known(formats), f.payload)
            case Continue(CancelSeen(id)) => decided.loop.CancelWant? && decided.log.Newest() == Wire.Cancel(id)
            case Continue(Refused(_)) => decided.loop == S.RefuseWant(Wire.OverLimit) && decided.permits == s.permits
            case Continue(Admitted(admitted)) =>
              && admitted == f && decided.loop.Admitted? && decided.permits == s.permits - 1
              && (S.LoopApply(decided, S.Dispatch).loop.Spawned? <==> formats.body(f.payload).Decodes?)
              && (S.LoopApply(decided, S.Dispatch).loop == S.RefuseWant(Wire.BadRequest)
                  <==> formats.body(f.payload).Garbage?)
            case Stop(Err(UnknownOpcode(_))) =>
              decided.loop.Admitted? && S.LoopApply(decided, S.Dispatch).loop == S.Exited(false)
            case Stop(_) => decided.loop == S.Exited(false)
  {
  }
}
