/** Reading frames and lines from a byte stream, as the two ends of a connection do. */
module FrameIo {
  import opened Wrappers
  import opened Bytes
  import opened Frame

  // ---------------------------------------------------------------- streams

  /** What a stream still holds, and whether it then ends cleanly or with a transport error. */
  datatype Input = Input(bytes: seq<byte>, broken: bool)
  {
    function Take(n: nat): (r: (Result<seq<byte>, IpcError>, Input))
    {
      if n <= |bytes| then (Ok(bytes[..n]), this.(bytes := bytes[n..]))
      else (Err(if broken then Io else UnexpectedEof), this.(bytes := []))
    }
  }

  /** A byte already taken off the stream for sniffing is handed out first. */
  class FirstByteReader {
    var first: Option<byte>
    var inner: seq<byte>
    const broken: bool

    constructor (first: Option<byte>, inner: seq<byte>, broken: bool)
      ensures this.first == first && this.inner == inner && this.broken == broken
    {
      this.first := first;
      this.inner := inner;
      this.broken := broken;
    }

    function Left(): Input
      reads this
    {
      Input(match first case Some(b) => [b] + inner case None => inner, broken)
    }

    /** One poll hands out a nonempty piece of what is left, of any size up to `capacity`. */
    method PollRead(capacity: nat) returns (chunk: seq<byte>)
      modifies this
      ensures |chunk| <= capacity && chunk + Left().bytes == old(Left().bytes)
      ensures chunk == [] ==> capacity == 0 || old(Left().bytes) == []
    {
      match first {
        case Some(b) =>
          if capacity > 0 {
            first := None;
            return [b];
          }
        case None =>
      }
      if capacity == 0 || inner == [] {
        return [];
      }
      var n :| 1 <= n <= capacity && n <= |inner|;
      chunk := inner[..n];
      inner := inner[n..];
    }

    /** `read_exact`: poll until `n` bytes are there or the stream ends. */
    method ReadExact(n: nat) returns (r: Result<seq<byte>, IpcError>)
      modifies this
      ensures (r, Left()) == old(Left()).Take(n)
    {
      ghost var all := Left();
      var got: seq<byte> := [];
      while |got| < n
        invariant |got| <= n && Left().broken == all.broken && got + Left().bytes == all.bytes
        decreases n - |got|
      {
        ghost var left := Left().bytes;
        var chunk := PollRead(n - |got|);
        if chunk == [] {
          TakeTooMuch(all, got, Left(), n);
          return Err(if broken then Io else UnexpectedEof);
        }
        TakeMore(got, chunk, Left().bytes, left);
        got := got + chunk;
      }
      TakeFront(got, Left().bytes);
      r := Ok(got);
    }
  }

  lemma TakeMore(got: seq<byte>, chunk: seq<byte>, rest: seq<byte>, left: seq<byte>)
    requires chunk + rest == left
    ensures got + chunk + rest == got + left
  {
    assert got + chunk + rest == got + (chunk + rest);
  }

  lemma TakeTooMuch(all: Input, got: seq<byte>, left: Input, n: nat)
    requires got + left.bytes == all.bytes && left.bytes == [] && left.broken == all.broken && |got| < n
    ensures all.Take(n) == (Err(if all.broken then Io else UnexpectedEof), left)
  {
  }

  lemma TakeFront(front: seq<byte>, rest: seq<byte>)
    ensures (front + rest)[..|front|] == front && (front + rest)[|front|..] == rest
  {
  }

  // ---------------------------------------------------------------- frames

  /** The result of reading a prefix and header: end of stream, or the declared body length and the header. */
  type Prefix = Option<(nat, Header)>

  function ReadPrefix(input: Input, limits: Limits): (Result<Prefix, IpcError>, Input) {
    var (length, rest) := input.Take(PREFIX_LEN);
    match length
    case Err(UnexpectedEof) => (Ok(None), rest)
    case Err(error) => (Err(error), rest)
    case Ok(prefix) =>
      var declared := FromBytes(prefix);
      match ValidateFrameLength(declared, limits)
      case Err(error) => (Err(error), rest)
      case Ok(_) =>
        var (body, rest') := rest.Take(HEADER_LEN);
        match body
        case Err(error) => (Err(error), rest')
        case Ok(body) =>
          match DecodeHeader(body, limits)
          case Err(error) => (Err(error), rest')
          case Ok(header) => (Ok(Some((declared, header))), rest')
  }

  function ReadPayload(input: Input, declared: nat, header: Header, allocate: bool)
    : (Result<Option<seq<byte>>, IpcError>, Input)
  {
    if declared != HEADER_LEN + header.payloadLen then
      (Err(Truncated(declared, HEADER_LEN + header.payloadLen)), input)
    else
      var (payload, rest) := input.Take(header.payloadLen);
      match payload
      case Err(error) => (Err(error), rest)
      case Ok(payload) => (Ok(if allocate then Some(payload) else None), rest)
  }

  /** The client's reader takes a whole frame at once. */
  function ReadFrame(input: Input, limits: Limits): (Result<Option<BinaryFrame>, IpcError>, Input) {
    var (length, rest) := input.Take(PREFIX_LEN);
    match length
    case Err(UnexpectedEof) => (Ok(None), rest)
    case Err(error) => (Err(error), rest)
    case Ok(prefix) =>
      var declared := FromBytes(prefix);
      match ValidateFrameLength(declared, limits)
      case Err(error) => (Err(error), rest)
      case Ok(_) =>
        var (body, rest') := rest.Take(HEADER_LEN);
        match body
        case Err(error) => (Err(error), rest')
        case Ok(body) =>
          match DecodeHeader(body, limits)
          case Err(error) => (Err(error), rest')
          case Ok(header) => FinishFrame(rest', declared, header)
  }

  function FinishFrame(input: Input, declared: nat, header: Header): (Result<Option<BinaryFrame>, IpcError>, Input) {
    if declared != HEADER_LEN + header.payloadLen then
      (Err(Truncated(declared, HEADER_LEN + header.payloadLen)), input)
    else
      var (payload, rest) := input.Take(header.payloadLen);
      match payload
      case Err(error) => (Err(error), rest)
      case Ok(payload) => (Ok(Some(BinaryFrame(header, payload))), rest)
  }

  method ReadFramePrefix(reader: FirstByteReader, limits: Limits) returns (r: Result<Prefix, IpcError>)
    modifies reader
    ensures (r, reader.Left()) == ReadPrefix(old(reader.Left()), limits)
  {
    var length := reader.ReadExact(PREFIX_LEN);
    if length.Err? {
      return if length.error.UnexpectedEof? then Ok(None) else Err(length.error);
    }
    var declared := FromBytes(length.value);
    var valid := ValidateFrameLength(declared, limits);
    if valid.Err? {
      return Err(valid.error);
    }
    var body := reader.ReadExact(HEADER_LEN);
    if body.Err? {
      return Err(body.error);
    }
    var header := DecodeHeader(body.value, limits);
    if header.Err? {
      return Err(header.error);
    }
    r := Ok(Some((declared, header.value)));
  }

  const SCRATCH: nat := 8 * 1024

  /** Skip `len` bytes through a fixed scratch buffer. */
  method DiscardBytes(reader: FirstByteReader, len: nat) returns (r: Result<(), IpcError>)
    modifies reader
    ensures reader.Left() == old(reader.Left()).Take(len).1
    ensures match old(reader.Left()).Take(len).0
            case Ok(_) => r == Ok(())
            case Err(error) => r == Err(error)
  {
    ghost var all := reader.Left().bytes;
    var left := len;
    while left > 0
      invariant 0 <= left <= len && len - left <= |all|
      invariant reader.Left().bytes == all[len - left..] && reader.Left().broken == old(reader.Left().broken)
    {
      var chunk := if left < SCRATCH then left else SCRATCH;
      ghost var before := reader.Left().bytes;
      var skipped := reader.ReadExact(chunk);
      if skipped.Err? {
        assert |all| < len && reader.Left().bytes == [];
        return Err(skipped.error);
      }
      assert before[chunk..] == all[len - left + chunk..];
      left := left - chunk;
    }
    assert reader.Left().bytes == all[len..];
    r := Ok(());
  }

  method ReadPayloadOrDiscard(reader: FirstByteReader, declared: nat, header: Header, allocate: bool)
    returns (r: Result<Option<seq<byte>>, IpcError>)
    modifies reader
    ensures (r, reader.Left()) == ReadPayload(old(reader.Left()), declared, header, allocate)
  {
    var expected := HEADER_LEN + header.payloadLen;
    if declared != expected {
      return Err(Truncated(declared, expected));
    }
    if !allocate {
      var skipped := DiscardBytes(reader, header.payloadLen);
      return match skipped case Ok(_) => Ok(None) case Err(error) => Err(error);
    }
    if header.payloadLen == 0 {
      assert old(reader.Left().bytes)[..0] == [];
      return Ok(Some([]));
    }
    var payload := reader.ReadExact(header.payloadLen);
    r := match payload case Ok(bytes) => Ok(Some(bytes)) case Err(error) => Err(error);
  }

  lemma TakeNothing(input: Input)
    ensures input.Take(0) == (Ok([]), input)
  {
    assert input.bytes[0..] == input.bytes;
  }

  /** From the length check on. */
  method FinishBinaryFrame(reader: FirstByteReader, declared: nat, header: Header)
    returns (r: Result<Option<BinaryFrame>, IpcError>)
    modifies reader
    ensures (r, reader.Left()) == FinishFrame(old(reader.Left()), declared, header)
  {
    var expected := HEADER_LEN + header.payloadLen;
    if declared != expected {
      return Err(Truncated(declared, expected));
    }
    if header.payloadLen == 0 {
      TakeNothing(reader.Left());
      return Ok(Some(BinaryFrame(header, [])));
    }
    var payload := reader.ReadExact(header.payloadLen);
    r := match payload
         case Ok(bytes) => Ok(Some(BinaryFrame(header, bytes)))
         case Err(error) => Err(error);
  }

  method ReadBinaryFrame(reader: FirstByteReader, limits: Limits) returns (r: Result<Option<BinaryFrame>, IpcError>)
    modifies reader
    ensures (r, reader.Left()) == ReadFrame(old(reader.Left()), limits)
  {
    var length := reader.ReadExact(PREFIX_LEN);
    if length.Err? {
      return if length.error.UnexpectedEof? then Ok(None) else Err(length.error);
    }
    var declared := FromBytes(length.value);
    var valid := ValidateFrameLength(declared, limits);
    if valid.Err? {
      return Err(valid.error);
    }
    var body := reader.ReadExact(HEADER_LEN);
    if body.Err? {
      return Err(body.error);
    }
    var header := DecodeHeader(body.value, limits);
    if header.Err? {
      return Err(header.error);
    }
    r := FinishBinaryFrame(reader, declared, header.value);
  }

  // ---------------------------------------------------------------- the two reading paths agree

  /** The server's path: prefix first, then the payload or a skip over it. */
  function ReadInParts(input: Input, limits: Limits, allocate: bool)
    : (Result<Option<(Header, Option<seq<byte>>)>, IpcError>, Input)
  {
    var (prefix, rest) := ReadPrefix(input, limits);
    match prefix
    case Err(error) => (Err(error), rest)
    case Ok(None) => (Ok(None), rest)
    case Ok(Some((declared, header))) =>
      var (payload, rest') := ReadPayload(rest, declared, header, allocate);
      match payload
      case Err(error) => (Err(error), rest')
      case Ok(p) => (Ok(Some((header, p))), rest')
  }

  /** On every byte stream both paths consume the same bytes and report the same frame or error. */
  lemma PathsAgree(input: Input, limits: Limits, allocate: bool)
    ensures ReadInParts(input, limits, allocate).1 == ReadFrame(input, limits).1
    ensures match ReadFrame(input, limits).0
            case Err(error) => ReadInParts(input, limits, allocate).0 == Err(error)
            case Ok(None) => ReadInParts(input, limits, allocate).0 == Ok(None)
            case Ok(Some(frame)) =>
              ReadInParts(input, limits, allocate).0
              == Ok(Some((frame.header, if allocate then Some(frame.payload) else None)))
  {
  }

  // ---------------------------------------------------------------- streams of encoded frames

  predicate Encodable(f: BinaryFrame, limits: Limits) {
    && ValidFlags(f.header.flags) && f.header.requestId != 0 && f.header.payloadLen == |f.payload|
    && EncodeError(f.header.requestId, |f.payload|, limits).None?
    && HEADER_LEN + |f.payload| < 0x1_0000_0000
  }

  ghost predicate AllEncodable(fs: seq<BinaryFrame>, limits: Limits) {
    forall f <- fs :: Encodable(f, limits)
  }

  function Encoded(f: BinaryFrame): (b: seq<byte>)
    ensures |b| >= PREFIX_LEN + HEADER_LEN
  {
    FrameBytes(ToBytes(MINOR, 2), f.header.opcode, f.header.flags, f.header.requestId, f.payload)
  }

  function Stream(fs: seq<BinaryFrame>): seq<byte> {
    if fs == [] then [] else Encoded(fs[0]) + Stream(fs[1..])
  }

  /** One read takes exactly one encoded frame, whatever follows it. */
  lemma ReadTakesOneFrame(f: BinaryFrame, tail: seq<byte>, broken: bool, limits: Limits)
    requires Encodable(f, limits)
    ensures ReadFrame(Input(Encoded(f) + tail, broken), limits) == (Ok(Some(f)), Input(tail, broken))
  {
    var h := f.header;
    var minor := ToBytes(MINOR, 2);
    var bytes := Encoded(f) + tail;
    PrefixLayout(minor, h.opcode, h.flags, h.requestId, f.payload, tail);
    Widths();
    FromTo(HEADER_LEN + |f.payload|, 4);
    var header := HeaderBytes(minor, h.opcode, h.flags, h.requestId, |f.payload|);
    assert header + [] == header;
    DecodeEncodedHeader(minor, h.opcode, h.flags, h.requestId, |f.payload|, [], limits);
    assert bytes[4..][..24] == bytes[4..28] == header;
    assert bytes[4..][24..] == bytes[28..] == f.payload + tail;
    TakeFront(f.payload, tail);
  }

  /** Read after read returns these frames, and then leaves `rest`. */
  ghost predicate Reads(input: Input, limits: Limits, fs: seq<BinaryFrame>, rest: Input)
    decreases |fs|
  {
    if fs == [] then rest == input
    else ReadFrame(input, limits).0 == Ok(Some(fs[0])) && Reads(ReadFrame(input, limits).1, limits, fs[1..], rest)
  }

  /** The stream of all frames but the first `n`. */
  function Rest(fs: seq<BinaryFrame>, n: nat): Input
    requires n <= |fs|
  {
    Input(Stream(fs[n..]), false)
  }

  lemma NextRead(fs: seq<BinaryFrame>, limits: Limits, n: nat)
    requires AllEncodable(fs, limits) && n < |fs|
    ensures ReadFrame(Rest(fs, n), limits) == (Ok(Some(fs[n])), Rest(fs, n + 1))
  {
    var rest := fs[n..];
    assert rest[0] == fs[n] && rest[1..] == fs[n + 1..] && Encodable(fs[n], limits);
    ReadTakesOneFrame(fs[n], Stream(fs[n + 1..]), false, limits);
  }

  lemma OneMoreRead(input: Input, limits: Limits, f: BinaryFrame, after: Input, fs: seq<BinaryFrame>, rest: Input)
    requires ReadFrame(input, limits) == (Ok(Some(f)), after) && Reads(after, limits, fs, rest)
    ensures Reads(input, limits, [f] + fs, rest)
  {
    assert ([f] + fs)[1..] == fs;
  }

  /** Reading from a stream of encoded frames returns them one by one and leaves the others. */
  lemma {:induction false} ReadsTakeFrames(fs: seq<BinaryFrame>, limits: Limits, n: nat, m: nat)
    requires AllEncodable(fs, limits) && n <= m <= |fs|
    ensures Reads(Rest(fs, n), limits, fs[n..m], Rest(fs, m))
    decreases m - n
  {
    if n < m {
      NextRead(fs, limits, n);
      ReadsTakeFrames(fs, limits, n + 1, m);
      OneMoreRead(Rest(fs, n), limits, fs[n], Rest(fs, n + 1), fs[n + 1..m], Rest(fs, m));
      assert fs[n..m] == [fs[n]] + fs[n + 1..m];
    }
  }

  // ---------------------------------------------------------------- the server's read loop

  /** What the loop finds when it is about to admit a request. */
  datatype Gate = Open | Full | DrainBegan

  datatype Event = CancelSeen(id: u64) | Refused(header: Header) | Admitted(frame: BinaryFrame)

  /** One iteration of the loop either ends it or goes on after an event. */
  datatype Turn = Stop(result: Result<(), IpcError>) | Continue(event: Event)

  predicate IsCancel(h: Header) {
    Contains(h.flags, CANCEL) || h.opcode == OPCODE_CANCEL
  }

  /** What the loop does with a frame whose payload it reads or skips, if no read fails; `known` is the opcode table. */
  function Verdict(h: Header, gate: Gate, known: u16 -> bool, payload: seq<byte>): Turn {
    if IsCancel(h) then Continue(CancelSeen(h.requestId))
    else if !Contains(h.flags, REQUEST) then Stop(Err(UnknownFlags(h.flags)))
    else match gate
      case DrainBegan => Stop(Err(Draining))
      case Full => Continue(Refused(h))
      case Open =>
        if known(h.opcode) then Continue(Admitted(BinaryFrame(h, payload))) else Stop(Err(UnknownOpcode(h.opcode)))
  }

  /** The verdict, flag set by flag set: a cancel by its flag or its opcode, no request at all, or the gate decides. */
  lemma VerdictByFlags(h: Header, gate: Gate, known: u16 -> bool, payload: seq<byte>)
    requires ValidFlags(h.flags)
    ensures var turn := Verdict(h, gate, known, payload);
            if h.flags == CANCEL || h.flags == REQUEST + CANCEL || h.opcode == 0x7FFF
            then turn == Continue(CancelSeen(h.requestId))
            else if h.flags != REQUEST then turn == Stop(Err(UnknownFlags(h.flags)))
            else if gate.DrainBegan? then turn == Stop(Err(Draining))
            else if gate.Full? then turn == Continue(Refused(h))
            else turn == if known(h.opcode) then Continue(Admitted(BinaryFrame(h, payload)))
                         else Stop(Err(UnknownOpcode(h.opcode)))
  {
  }

  /** Only an admitted request has its payload allocated; every other frame is skipped over. */
  predicate Allocates(h: Header, gate: Gate) {
    !IsCancel(h) && Contains(h.flags, REQUEST) && gate.Open?
  }

  function ServeOne(input: Input, limits: Limits, gate: Gate, known: u16 -> bool): (r: (Turn, Input))
    ensures r.0.Continue? ==> |r.1.bytes| < |input.bytes|
  {
    var (prefix, rest) := ReadPrefix(input, limits);
    match prefix
    case Err(error) => (Stop(Err(error)), rest)
    case Ok(None) => (Stop(Ok(())), rest)
    case Ok(Some((declared, header))) =>
      var (payload, rest') := ReadPayload(rest, declared, header, Allocates(header, gate));
      match payload
      case Err(error) => (Stop(Err(error)), rest')
      case Ok(bytes) => (Verdict(header, gate, known, if bytes.Some? then bytes.value else []), rest')
  }

  method ServeTurn(reader: FirstByteReader, limits: Limits, gate: Gate, known: u16 -> bool) returns (turn: Turn)
    modifies reader
    ensures (turn, reader.Left()) == ServeOne(old(reader.Left()), limits, gate, known)
  {
    var prefix := ReadFramePrefix(reader, limits);
    if prefix.Err? {
      return Stop(Err(prefix.error));
    }
    if prefix.value.None? {
      return Stop(Ok(()));
    }
    var (declared, header) := prefix.value.value;
    if IsCancel(header) {
      var skip := ReadPayloadOrDiscard(reader, declared, header, false);
      return if skip.Err? then Stop(Err(skip.error)) else Continue(CancelSeen(header.requestId));
    }
    if !Contains(header.flags, REQUEST) {
      var skip := ReadPayloadOrDiscard(reader, declared, header, false);
      return Stop(Err(if skip.Err? then skip.error else UnknownFlags(header.flags)));
    }
    match gate
    case DrainBegan =>
      var skip := ReadPayloadOrDiscard(reader, declared, header, false);
      return Stop(Err(if skip.Err? then skip.error else Draining));
    case Full =>
      var skip := ReadPayloadOrDiscard(reader, declared, header, false);
      return if skip.Err? then Stop(Err(skip.error)) else Continue(Refused(header));
    case Open =>
      var payload := ReadPayloadOrDiscard(reader, declared, header, true);
      return if payload.Err? then Stop(Err(payload.error))
             else if !known(header.opcode) then Stop(Err(UnknownOpcode(header.opcode)))
             else Continue(Admitted(BinaryFrame(header, payload.value.value)));
  }

  datatype Served = Served(result: Result<(), IpcError>, events: seq<Event>, rest: Input)

  /** The loop on bytes, from its `n`-th frame on. */
  function Serve(input: Input, limits: Limits, gates: nat -> Gate, known: u16 -> bool, n: nat): Served
    decreases |input.bytes|
  {
    var (turn, rest) := ServeOne(input, limits, gates(n), known);
    match turn
    case Stop(result) => Served(result, [], rest)
    case Continue(event) =>
      Prepend([event], Serve(rest, limits, gates, known, n + 1))
  }

  function Prepend(events: seq<Event>, s: Served): Served {
    s.(events := events + s.events)
  }

  lemma PrependTwice(before: seq<Event>, event: Event, s: Served)
    ensures Prepend(before, Prepend([event], s)) == Prepend(before + [event], s)
  {
    assert before + ([event] + s.events) == before + [event] + s.events;
  }

  method ServeReads(reader: FirstByteReader, limits: Limits, gates: nat -> Gate, known: u16 -> bool)
    returns (result: Result<(), IpcError>, events: seq<Event>)
    modifies reader
    ensures Served(result, events, reader.Left()) == Serve(old(reader.Left()), limits, gates, known, 0)
  {
    ghost var all := Serve(reader.Left(), limits, gates, known, 0);
    events := [];
    var n := 0;
    while true
      invariant n >= 0
      invariant all == Prepend(events, Serve(reader.Left(), limits, gates, known, n))
      decreases |reader.Left().bytes|
    {
      var turn := ServeTurn(reader, limits, gates(n), known);
      if turn.Stop? {
        return turn.result, events;
      }
      PrependTwice(events, turn.event, Serve(reader.Left(), limits, gates, known, n + 1));
      events := events + [turn.event];
      n := n + 1;
    }
  }

  /** The same loop on whole frames. */
  function ServeFrames(fs: seq<BinaryFrame>, gates: nat -> Gate, known: u16 -> bool, n: nat)
    : (Result<(), IpcError>, seq<Event>, seq<BinaryFrame>)
  {
    if fs == [] then (Ok(()), [], [])
    else match Verdict(fs[0].header, gates(n), known, fs[0].payload)
      case Stop(result) => (result, [], fs[1..])
      case Continue(event) =>
        var (result, events, rest) := ServeFrames(fs[1..], gates, known, n + 1);
        (result, [event] + events, rest)
  }

  lemma ServeTakesOneFrame(f: BinaryFrame, tail: seq<byte>, limits: Limits, gate: Gate,
                           known: u16 -> bool)
    requires Encodable(f, limits)
    ensures ServeOne(Input(Encoded(f) + tail, false), limits, gate, known)
         == (Verdict(f.header, gate, known, f.payload), Input(tail, false))
  {
    ReadTakesOneFrame(f, tail, false, limits);
    PathsAgree(Input(Encoded(f) + tail, false), limits, Allocates(f.header, gate));
  }

  /**
    On a stream of encoded frames the byte loop does what the frame loop does, for any mix of admitted and refused
    requests, and wherever it stops, early exits included, it stops on a frame boundary.
   */
  lemma {:induction false} ServeStaysOnBoundaries(fs: seq<BinaryFrame>, limits: Limits, gates: nat -> Gate,
                                                 known: u16 -> bool, n: nat)
    requires AllEncodable(fs, limits)
    ensures var (result, events, rest) := ServeFrames(fs, gates, known, n);
            Serve(Input(Stream(fs), false), limits, gates, known, n)
            == Served(result, events, Input(Stream(rest), false))
  {
    if fs != [] {
      assert Encodable(fs[0], limits);
      ServeTakesOneFrame(fs[0], Stream(fs[1..]), limits, gates(n), known);
      ServeStaysOnBoundaries(fs[1..], limits, gates, known, n + 1);
    }
  }

  // ---------------------------------------------------------------- sniffing the codec

  const BRACE: byte := 0x7B

  datatype Route = ClosedEarly | Failed(error: IpcError) | Jsonl | Binary

  /** Look at one byte, choose the codec, and give the byte back through the reader. */
  method ServeStream(stream: FirstByteReader) returns (route: Route, reader: FirstByteReader)
    modifies stream
    ensures match old(stream.Left()).Take(1).0
            case Err(UnexpectedEof) => route == ClosedEarly
            case Err(error) => route == Failed(error)
            case Ok(_) =>
              && route == (if old(stream.Left()).bytes[0] == BRACE then Jsonl else Binary)
              && reader.Left() == old(stream.Left())
  {
    ghost var all := stream.Left().bytes;
    var peek := stream.ReadExact(1);
    if peek.Err? {
      return if peek.error.UnexpectedEof? then ClosedEarly else Failed(peek.error), stream;
    }
    route := if peek.value[0] == BRACE then Jsonl else Binary;
    var rest := stream.inner;
    if stream.first.Some? {
      rest := [stream.first.value] + rest;
    }
    reader := new FirstByteReader(Some(peek.value[0]), rest, stream.broken);
    assert [peek.value[0]] + rest == all;
  }

  lemma LeadingByte(b: seq<byte>)
    requires |b| == 4
    ensures FromBytes(b) / 0x100_0000 == b[0]
  {
    assert b[..3][..2] == b[..2] && b[..2][..1] == b[..1] && b[..1][..0] == [];
    var b0: int, b1: int, b2: int := b[0], b[1], b[2];
    assert FromBytes(b[..1]) == b0;
    assert FromBytes(b[..2]) == 256 * b0 + b1;
    assert FromBytes(b[..3]) == 256 * (256 * b0 + b1) + b2;
  }

  /** Below this frame limit, no stream on which the binary reader finds a frame is taken for JSONL. */
  lemma BinaryIsNeverTakenForJsonl(input: Input, limits: Limits)
    requires limits.maxFrameBytes < 0x7B00_0000
    requires ReadPrefix(input, limits).0.Ok? && ReadPrefix(input, limits).0.value.Some?
    ensures input.bytes[0] != BRACE
  {
    LeadingByte(input.bytes[..4]);
  }

  /** The limit is exact: an encoded frame looks like JSONL just when its body length starts with that byte. */
  lemma FrameLooksLikeJsonl(f: BinaryFrame, limits: Limits)
    requires Encodable(f, limits)
    ensures Encoded(f)[0] == BRACE <==> 0x7B00_0000 <= HEADER_LEN + |f.payload| < 0x7C00_0000
  {
    var h := f.header;
    assert Encoded(f) + [] == Encoded(f);
    PrefixLayout(ToBytes(MINOR, 2), h.opcode, h.flags, h.requestId, f.payload, []);
    var prefix := Encoded(f)[..4];
    Widths();
    FromTo(HEADER_LEN + |f.payload|, 4);
    LeadingByte(prefix);
    assert prefix[0] == Encoded(f)[0];
  }
}
