/** The length-prefixed binary frame: prefix, 24-byte header, payload. */
module Frame {
  import opened Wrappers
  import opened Bytes

  const MAGIC: nat := 0x4d53_4843
  const MAJOR: nat := 1
  const MINOR: nat := 0
  const PREFIX_LEN: nat := 4
  const HEADER_LEN: nat := 24
  const OPCODE_CANCEL: nat := 0x7FFF

  const REQUEST: nat := 0x0001
  const RESPONSE: nat := 0x0002
  const ERROR: nat := 0x0004
  const CANCEL: nat := 0x0008
  const KNOWN: nat := 0x000F

  type u16 = x: int | 0 <= x < 0x1_0000
  type u32 = x: int | 0 <= x < 0x1_0000_0000
  type u64 = x: int | 0 <= x < 0x1_0000_0000_0000_0000

  datatype Limits = Limits(maxFrameBytes: nat, maxPayloadBytes: nat, maxJsonlLineBytes: nat)

  datatype IpcError =
    | UnexpectedEof
    | Io
    | NotUtf8
    | UnterminatedLine
    | FrameOversized(actual: nat, limit: nat)
    | PayloadOversized(actual: nat, limit: nat)
    | JsonlLineOversized(actual: nat, limit: nat)
    | Truncated(expected: nat, actual: nat)
    | UnknownFlags(bits: nat)
    | InvalidMagic(magic: nat)
    | UnsupportedMajor(major: nat)
    | InvalidRequestId
    | Draining
    | UnknownOpcode(opcode: nat)

  datatype Header = Header(opcode: u16, flags: u16, requestId: u64, payloadLen: u32)

  datatype BinaryFrame = BinaryFrame(header: Header, payload: seq<byte>)

  /** `flags.contains(flag)` for one of the four single-bit flags. */
  predicate Contains(bits: nat, flag: nat)
    requires flag > 0
  {
    (bits / flag) % 2 == 1
  }

  /** `bits & !KNOWN != 0` says that a bit above the low four is set. */
  function FromBits(bits: u16): Result<u16, IpcError> {
    if bits > KNOWN then Err(UnknownFlags(bits))
    else
      var isRequest, isResponse := Contains(bits, REQUEST), Contains(bits, RESPONSE);
      if Contains(bits, CANCEL) then
        if isResponse || Contains(bits, ERROR) then Err(UnknownFlags(bits)) else Ok(bits)
      else if isRequest == isResponse then Err(UnknownFlags(bits))
      else if Contains(bits, ERROR) && !isResponse then Err(UnknownFlags(bits))
      else Ok(bits)
  }

  /** The flag sets a header may carry are exactly these five. */
  predicate ValidFlags(bits: nat) {
    || bits == REQUEST || bits == RESPONSE || bits == RESPONSE + ERROR || bits == CANCEL || bits == REQUEST + CANCEL
  }

  lemma FlagSets(bits: u16)
    ensures FromBits(bits) == if ValidFlags(bits) then Ok(bits) else Err(UnknownFlags(bits))
  {
    if bits <= KNOWN {
      assert || bits == 0 || bits == 1 || bits == 2 || bits == 3 || bits == 4 || bits == 5
             || bits == 6 || bits == 7 || bits == 8 || bits == 9 || bits == 10 || bits == 11
             || bits == 12 || bits == 13 || bits == 14 || bits == 15;
    }
  }

  function ValidateFrameLength(bodyLen: nat, limits: Limits): Result<(), IpcError> {
    if bodyLen == 0 || bodyLen > limits.maxFrameBytes then Err(FrameOversized(bodyLen, limits.maxFrameBytes))
    else if bodyLen < HEADER_LEN then Err(Truncated(HEADER_LEN, bodyLen))
    else Ok(())
  }

  /** Why a frame cannot be encoded, if it cannot. */
  function EncodeError(requestId: u64, payloadLen: nat, limits: Limits): Option<IpcError> {
    if requestId == 0 then Some(InvalidRequestId)
    else if payloadLen > limits.maxPayloadBytes then Some(PayloadOversized(payloadLen, limits.maxPayloadBytes))
    else match ValidateFrameLength(HEADER_LEN + payloadLen, limits)
      case Ok(_) => None
      case Err(error) => Some(error)
  }

  function HeaderBytes(minor: seq<byte>, opcode: u16, flags: u16, requestId: u64, payloadLen: nat): (b: seq<byte>)
    requires |minor| == 2
    ensures |b| == HEADER_LEN
  {
    ToBytes(MAGIC, 4) + ToBytes(MAJOR, 2) + minor + ToBytes(opcode, 2) + ToBytes(flags, 2)
    + ToBytes(requestId, 8) + ToBytes(payloadLen, 4)
  }

  /** The bytes of a frame with the given minor version; both lengths are cut to 32 bits. */
  function FrameBytes(minor: seq<byte>, opcode: u16, flags: u16, requestId: u64, payload: seq<byte>): (b: seq<byte>)
    requires |minor| == 2
    ensures |b| == PREFIX_LEN + HEADER_LEN + |payload|
  {
    ToBytes(HEADER_LEN + |payload|, 4) + HeaderBytes(minor, opcode, flags, requestId, |payload|) + payload
  }

  function EncodeFrame(opcode: u16, flags: u16, requestId: u64, payload: seq<byte>, limits: Limits)
    : Result<seq<byte>, IpcError>
  {
    match EncodeError(requestId, |payload|, limits)
    case Some(error) => Err(error)
    case None => Ok(FrameBytes(ToBytes(MINOR, 2), opcode, flags, requestId, payload))
  }

  /** When encoding succeeds, and the first check that fails when it does not. */
  lemma EncodesExactly(opcode: u16, flags: u16, requestId: u64, payload: seq<byte>, limits: Limits)
    ensures var r, body := EncodeFrame(opcode, flags, requestId, payload, limits), 24 + |payload|;
            && (r.Ok? <==> requestId != 0 && |payload| <= limits.maxPayloadBytes && body <= limits.maxFrameBytes)
            && (requestId == 0 ==> r == Err(InvalidRequestId))
            && (requestId != 0 && |payload| > limits.maxPayloadBytes ==>
                  r == Err(PayloadOversized(|payload|, limits.maxPayloadBytes)))
            && (requestId != 0 && |payload| <= limits.maxPayloadBytes && body > limits.maxFrameBytes ==>
                  r == Err(FrameOversized(body, limits.maxFrameBytes)))
  {
  }

  /** A declared body length is refused when it is zero, over the limit, or too short for a header. */
  lemma LengthsExactly(declared: nat, limits: Limits)
    ensures var r := ValidateFrameLength(declared, limits);
            && (r.Ok? <==> 24 <= declared <= limits.maxFrameBytes)
            && (r == Err(FrameOversized(declared, limits.maxFrameBytes))
                <==> declared == 0 || declared > limits.maxFrameBytes)
            && (r == Err(Truncated(24, declared)) <==> 0 < declared < 24 && declared <= limits.maxFrameBytes)
  {
  }

  /** A caller-owned output vector. */
  class ByteBuffer {
    var data: seq<byte>

    constructor ()
      ensures data == []
    {
      data := [];
    }
  }

  lemma Assemble(prefix: seq<byte>, magic: seq<byte>, major: seq<byte>, minor: seq<byte>, opcode: seq<byte>,
                 flags: seq<byte>, id: seq<byte>, len: seq<byte>, payload: seq<byte>)
    ensures [] + prefix + magic + major + minor + opcode + flags + id + len + payload
         == prefix + (magic + major + minor + opcode + flags + id + len) + payload
  {
    var three := magic + major + minor;
    var five := three + opcode + flags;
    assert [] + prefix + magic + major + minor == prefix + three;
    assert prefix + three + opcode + flags == prefix + five;
    assert prefix + five + id + len == prefix + (five + id + len);
  }

  method EncodeFrameInto(out: ByteBuffer, opcode: u16, flags: u16, requestId: u64, payload: seq<byte>, limits: Limits)
    returns (r: Result<(), IpcError>)
    modifies out
    ensures match EncodeFrame(opcode, flags, requestId, payload, limits)
            case Ok(bytes) => r == Ok(()) && out.data == bytes
            case Err(error) => r == Err(error) && out.data == old(out.data)
  {
    if requestId == 0 {
      return Err(InvalidRequestId);
    }
    if |payload| > limits.maxPayloadBytes {
      return Err(PayloadOversized(|payload|, limits.maxPayloadBytes));
    }
    var bodyLen := HEADER_LEN + |payload|;
    var valid := ValidateFrameLength(bodyLen, limits);
    if valid.Err? {
      return Err(valid.error);
    }
    Assemble(ToBytes(bodyLen, 4), ToBytes(MAGIC, 4), ToBytes(MAJOR, 2), ToBytes(MINOR, 2), ToBytes(opcode, 2),
             ToBytes(flags, 2), ToBytes(requestId, 8), ToBytes(|payload|, 4), payload);
    out.data := [];
    out.data := out.data + ToBytes(bodyLen, 4);
    out.data := out.data + ToBytes(MAGIC, 4);
    out.data := out.data + ToBytes(MAJOR, 2);
    out.data := out.data + ToBytes(MINOR, 2);
    out.data := out.data + ToBytes(opcode, 2);
    out.data := out.data + ToBytes(flags, 2);
    out.data := out.data + ToBytes(requestId, 8);
    out.data := out.data + ToBytes(|payload|, 4);
    out.data := out.data + payload;
    r := Ok(());
  }

  function DecodeHeader(body: seq<byte>, limits: Limits): Result<Header, IpcError> {
    if |body| < HEADER_LEN then Err(Truncated(HEADER_LEN, |body|))
    else
      var magic := FromBytes(body[0..4]);
      if magic != MAGIC then Err(InvalidMagic(magic))
      else
        var major := FromBytes(body[4..6]);
        if major != MAJOR then Err(UnsupportedMajor(major))
        else
          FieldBounds(body);
          match FromBits(FromBytes(body[10..12]))
          case Err(error) => Err(error)
          case Ok(flags) =>
            var requestId, payloadLen := FromBytes(body[12..20]), FromBytes(body[20..24]);
            if requestId == 0 then Err(InvalidRequestId)
            else if payloadLen > limits.maxPayloadBytes then Err(PayloadOversized(payloadLen, limits.maxPayloadBytes))
            else Ok(Header(FromBytes(body[8..10]), flags, requestId, payloadLen))
  }

  lemma FieldBounds(body: seq<byte>)
    requires |body| >= HEADER_LEN
    ensures FromBytes(body[8..10]) < 0x1_0000 && FromBytes(body[10..12]) < 0x1_0000
    ensures FromBytes(body[12..20]) < 0x1_0000_0000_0000_0000 && FromBytes(body[20..24]) < 0x1_0000_0000
  {
    Widths();
    FromBytesBound(body[8..10]);
    FromBytesBound(body[10..12]);
    FromBytesBound(body[12..20]);
    FromBytesBound(body[20..24]);
  }

  function Pair(high: nat, low: nat): nat {
    256 * high + low
  }

  lemma TwoByteValue(b: seq<byte>)
    requires |b| == 2
    ensures FromBytes(b) == Pair(b[0], b[1])
  {
    assert b[..1][..0] == [] && FromBytes(b[..1]) == b[0];
  }

  lemma {:induction false} OnlyZerosAreZero(b: seq<byte>)
    ensures FromBytes(b) == 0 <==> forall i | 0 <= i < |b| :: b[i] == 0
  {
    if b != [] {
      OnlyZerosAreZero(b[..|b| - 1]);
    }
  }

  lemma SameNumber(b: seq<byte>, n: nat, width: nat)
    requires |b| == width && n < Pow256(width)
    ensures FromBytes(b) == n <==> b == ToBytes(n, width)
  {
    ToFrom(b);
    FromTo(n, width);
  }

  /** Which header bytes are refused, and with which error: the first of these checks that fails. */
  lemma HeadersRefused(body: seq<byte>, limits: Limits)
    requires |body| >= 24
    ensures var r := DecodeHeader(body, limits);
            if body[0..4] != ['M' as int, 'S' as int, 'H' as int, 'C' as int] then r.Err? && r.error.InvalidMagic?
            else if body[4..6] != [0, 1] then r.Err? && r.error.UnsupportedMajor?
            else if body[10] != 0 || !ValidFlags(body[11]) then r == Err(UnknownFlags(Pair(body[10], body[11])))
            else if forall i | 12 <= i < 20 :: body[i] == 0 then r == Err(InvalidRequestId)
            else if FromBytes(body[20..24]) > limits.maxPayloadBytes
            then r == Err(PayloadOversized(FromBytes(body[20..24]), limits.maxPayloadBytes))
            else r.Ok? && r.value.opcode == Pair(body[8], body[9]) && r.value.flags == body[11]
  {
    FieldBounds(body);
    MagicBytes(body);
    FlagSets(FromBytes(body[10..12]));
    TwoByteValue(body[8..10]);
    TwoByteValue(body[10..12]);
    OnlyZerosAreZero(body[12..20]);
    assert (forall i | 0 <= i < 8 :: body[12..20][i] == 0) <==> forall i | 12 <= i < 20 :: body[i] == 0 by {
      assert forall i | 12 <= i < 20 :: body[i] == body[12..20][i - 12];
    }
  }

  lemma MagicBytes(body: seq<byte>)
    requires |body| >= 24
    ensures FromBytes(body[0..4]) == MAGIC <==> body[0..4] == ['M' as int, 'S' as int, 'H' as int, 'C' as int]
    ensures FromBytes(body[4..6]) == MAJOR <==> body[4..6] == [0, 1]
  {
    Widths();
    SameNumber(body[0..4], MAGIC, 4);
    SameNumber(body[4..6], MAJOR, 2);
    FourBytes(MAGIC);
    TwoBytes(MAJOR);
  }

  function DecodeFrame(bytes: seq<byte>, limits: Limits): Result<BinaryFrame, IpcError> {
    if |bytes| < PREFIX_LEN then Err(Truncated(PREFIX_LEN, |bytes|))
    else
      var declared := FromBytes(bytes[..4]);
      match ValidateFrameLength(declared, limits)
      case Err(error) => Err(error)
      case Ok(_) =>
        if declared != |bytes| - PREFIX_LEN then Err(Truncated(declared, |bytes| - PREFIX_LEN))
        else match DecodeHeader(bytes[4..], limits)
          case Err(error) => Err(error)
          case Ok(header) =>
            if |bytes| - PREFIX_LEN - HEADER_LEN != header.payloadLen
            then Err(Truncated(header.payloadLen, |bytes| - PREFIX_LEN - HEADER_LEN))
            else Ok(BinaryFrame(header, bytes[28..]))
  }

  // ---------------------------------------------------------------- encoding and decoding undo each other

  lemma HeaderParts(magic: seq<byte>, major: seq<byte>, minor: seq<byte>, opcode: seq<byte>, flags: seq<byte>,
                    id: seq<byte>, len: seq<byte>, rest: seq<byte>)
    requires |magic| == 4 && |major| == 2 && |minor| == 2 && |opcode| == 2 && |flags| == 2 && |id| == 8 && |len| == 4
    ensures var body := magic + major + minor + opcode + flags + id + len + rest;
            && body[0..4] == magic && body[4..6] == major && body[6..8] == minor
            && body[8..10] == opcode && body[10..12] == flags && body[12..20] == id && body[20..24] == len
  {
  }

  /** A header written for any payload length that fits 32 bits and the limit reads back as itself. */
  lemma DecodeEncodedHeader(minor: seq<byte>, opcode: u16, flags: u16, requestId: u64, payloadLen: nat,
                            rest: seq<byte>, limits: Limits)
    requires |minor| == 2 && ValidFlags(flags) && requestId != 0
    requires payloadLen < 0x1_0000_0000 && payloadLen <= limits.maxPayloadBytes
    ensures DecodeHeader(HeaderBytes(minor, opcode, flags, requestId, payloadLen) + rest, limits)
         == Ok(Header(opcode, flags, requestId, payloadLen))
  {
    HeaderParts(ToBytes(MAGIC, 4), ToBytes(MAJOR, 2), minor, ToBytes(opcode, 2), ToBytes(flags, 2),
                ToBytes(requestId, 8), ToBytes(payloadLen, 4), rest);
    Widths();
    FromTo(MAGIC, 4);
    FromTo(MAJOR, 2);
    FromTo(opcode, 2);
    FromTo(flags, 2);
    FromTo(requestId, 8);
    FromTo(payloadLen, 4);
    FlagSets(flags);
  }

  lemma PrefixParts(prefix: seq<byte>, header: seq<byte>, payload: seq<byte>, tail: seq<byte>)
    requires |prefix| == 4 && |header| == 24
    ensures var bytes := prefix + header + payload + tail;
            && bytes[..4] == prefix && bytes[4..28] == header
            && bytes[4..] == header + (payload + tail) && bytes[28..] == payload + tail
  {
  }

  lemma PrefixLayout(minor: seq<byte>, opcode: u16, flags: u16, requestId: u64, payload: seq<byte>, tail: seq<byte>)
    requires |minor| == 2
    ensures var bytes := FrameBytes(minor, opcode, flags, requestId, payload) + tail;
            && bytes[..4] == ToBytes(HEADER_LEN + |payload|, 4)
            && bytes[4..28] == HeaderBytes(minor, opcode, flags, requestId, |payload|)
            && bytes[4..] == HeaderBytes(minor, opcode, flags, requestId, |payload|) + (payload + tail)
            && bytes[28..] == payload + tail
  {
    PrefixParts(ToBytes(HEADER_LEN + |payload|, 4), HeaderBytes(minor, opcode, flags, requestId, |payload|),
                payload, tail);
  }

  /**
    Decoding undoes encoding exactly when the body length fits the 32-bit prefix; a longer body is encoded with a
    cut length that never decodes.
   */
  lemma DecodeUndoesEncode(opcode: u16, flags: u16, requestId: u64, payload: seq<byte>, limits: Limits)
    requires ValidFlags(flags) && EncodeFrame(opcode, flags, requestId, payload, limits).Ok?
    ensures DecodeFrame(EncodeFrame(opcode, flags, requestId, payload, limits).value, limits).Ok?
       <==> HEADER_LEN + |payload| < 0x1_0000_0000
    ensures HEADER_LEN + |payload| < 0x1_0000_0000 ==>
              (DecodeFrame(EncodeFrame(opcode, flags, requestId, payload, limits).value, limits)
               == Ok(BinaryFrame(Header(opcode, flags, requestId, |payload|), payload)))
  {
    var minor := ToBytes(MINOR, 2);
    var bytes := FrameBytes(minor, opcode, flags, requestId, payload);
    assert bytes + [] == bytes;
    PrefixLayout(minor, opcode, flags, requestId, payload, []);
    Widths();
    FromTo(HEADER_LEN + |payload|, 4);
    if HEADER_LEN + |payload| < 0x1_0000_0000 {
      DecodeEncodedHeader(minor, opcode, flags, requestId, |payload|, payload + [], limits);
    }
  }

  /** The layout on the wire, byte by byte: "MSHC", version 1.0, and big-endian fields at fixed places. */
  lemma WireLayout(opcode: u16, flags: u16, requestId: u64, payload: seq<byte>, limits: Limits)
    requires ValidFlags(flags) && EncodeFrame(opcode, flags, requestId, payload, limits).Ok?
    ensures var bytes := EncodeFrame(opcode, flags, requestId, payload, limits).value;
            && |bytes| == 28 + |payload| && bytes[28..] == payload
            && bytes[4..8] == ['M' as int, 'S' as int, 'H' as int, 'C' as int] && bytes[8..12] == [0, 1, 0, 0]
            && bytes[12..16] == [opcode / 256, opcode % 256, 0, flags]
            && FromBytes(bytes[16..24]) == requestId
            && (24 + |payload| < 0x1_0000_0000 ==>
                  FromBytes(bytes[0..4]) == 24 + |payload| && FromBytes(bytes[24..28]) == |payload|)
  {
    var header := HeaderBytes(ToBytes(MINOR, 2), opcode, flags, requestId, |payload|);
    var bytes := FrameBytes(ToBytes(MINOR, 2), opcode, flags, requestId, payload);
    assert bytes + [] == bytes;
    PrefixLayout(ToBytes(MINOR, 2), opcode, flags, requestId, payload, []);
    HeaderLayout(opcode, flags, requestId, |payload|);
    assert bytes[4..8] == header[0..4] && bytes[8..12] == header[4..8] && bytes[12..16] == header[8..12];
    assert bytes[16..24] == header[12..20] && bytes[24..28] == header[20..24];
    Widths();
    FromTo(24 + |payload|, 4);
  }

  lemma HeaderLayout(opcode: u16, flags: u16, requestId: u64, payloadLen: nat)
    requires ValidFlags(flags)
    ensures var header := HeaderBytes(ToBytes(MINOR, 2), opcode, flags, requestId, payloadLen);
            && header[0..4] == ['M' as int, 'S' as int, 'H' as int, 'C' as int] && header[4..8] == [0, 1, 0, 0]
            && header[8..12] == [opcode / 256, opcode % 256, 0, flags]
            && FromBytes(header[12..20]) == requestId
            && (payloadLen < 0x1_0000_0000 ==> FromBytes(header[20..24]) == payloadLen)
  {
    var header := HeaderBytes(ToBytes(MINOR, 2), opcode, flags, requestId, payloadLen);
    assert header + [] == header;
    HeaderParts(ToBytes(MAGIC, 4), ToBytes(MAJOR, 2), ToBytes(MINOR, 2), ToBytes(opcode, 2), ToBytes(flags, 2),
                ToBytes(requestId, 8), ToBytes(payloadLen, 4), []);
    assert header[4..8] == header[4..6] + header[6..8] && header[8..12] == header[8..10] + header[10..12];
    NumbersInBytes(opcode, flags);
    Widths();
    FromTo(requestId, 8);
    FromTo(payloadLen, 4);
  }

  lemma NumbersInBytes(opcode: u16, flags: u16)
    requires ValidFlags(flags)
    ensures ToBytes(MAGIC, 4) == ['M' as int, 'S' as int, 'H' as int, 'C' as int]
    ensures ToBytes(MAJOR, 2) == [0, 1] && ToBytes(MINOR, 2) == [0, 0]
    ensures ToBytes(opcode, 2) == [opcode / 256, opcode % 256] && ToBytes(flags, 2) == [0, flags]
  {
    TwoBytes(opcode);
    TwoBytes(flags);
    TwoBytes(MAJOR);
    TwoBytes(MINOR);
    FourBytes(MAGIC);
  }

  lemma TwoBytes(n: u16)
    ensures ToBytes(n, 2) == [n / 256, n % 256]
  {
    assert ToBytes(n, 2) == ToBytes(n / 256, 1) + [n % 256];
    assert ToBytes(n / 256, 1) == ToBytes(n / 256 / 256, 0) + [n / 256 % 256];
  }

  lemma FourBytes(n: u32)
    ensures ToBytes(n, 4) == [n / 0x100_0000, n / 0x1_0000 % 256, n / 256 % 256, n % 256]
  {
    var high := n / 0x1_0000;
    assert n / 256 / 256 == high && high / 256 == n / 0x100_0000;
    TwoBytes(high);
    assert ToBytes(n / 256, 3) == ToBytes(high, 2) + [n / 256 % 256];
    assert ToBytes(n, 4) == ToBytes(n / 256, 3) + [n % 256];
  }

  /** One byte too many for the prefix: the length is cut to zero and the encoded frame is rejected. */
  lemma CutLengthIsRejected()
    ensures var payload: seq<byte> := seq(0x1_0000_0000 - HEADER_LEN, _ => 0);
            var limits := Limits(0x2_0000_0000, 0x2_0000_0000, 0);
            var encoded := EncodeFrame(0x13, REQUEST, 1, payload, limits);
            encoded.Ok? && DecodeFrame(encoded.value, limits) == Err(FrameOversized(0, 0x2_0000_0000))
  {
    var payload: seq<byte> := seq(0x1_0000_0000 - HEADER_LEN, _ => 0);
    var bytes := FrameBytes(ToBytes(MINOR, 2), 0x13, REQUEST, 1, payload);
    assert bytes + [] == bytes;
    PrefixLayout(ToBytes(MINOR, 2), 0x13, REQUEST, 1, payload, []);
    LengthIsCutToZero();
  }

  lemma LengthIsCutToZero()
    ensures FromBytes(ToBytes(0x1_0000_0000, 4)) == 0
  {
    ZeroBytes(4);
    assert ToBytes(0x1_0000_0000, 4) == ToBytes(0x1_0000, 2) + [0] + [0];
    assert ToBytes(0, 4) == ToBytes(0, 2) + [0] + [0];
  }

  lemma {:induction false} ZeroBytes(width: nat)
    ensures FromBytes(ToBytes(0, width)) == 0
  {
    if width > 0 {
      ZeroBytes(width - 1);
      assert ToBytes(0, width)[..width - 1] == ToBytes(0, width - 1);
    }
  }

  /** Accepted bytes are the encoding of the decoded frame, apart from the minor version, which is not read. */
  lemma EncodeUndoesDecode(bytes: seq<byte>, limits: Limits)
    requires DecodeFrame(bytes, limits).Ok?
    ensures var f := DecodeFrame(bytes, limits).value;
            && ValidFlags(f.header.flags) && f.header.requestId != 0 && f.header.payloadLen == |f.payload|
            && bytes == FrameBytes(bytes[10..12], f.header.opcode, f.header.flags, f.header.requestId, f.payload)
            && EncodeFrame(f.header.opcode, f.header.flags, f.header.requestId, f.payload, limits)
            == Ok(bytes[..10] + ToBytes(MINOR, 2) + bytes[12..])
  {
    var f := DecodeFrame(bytes, limits).value;
    var body := bytes[4..];
    FieldBounds(body);
    FlagSets(FromBytes(body[10..12]));
    ToFrom(bytes[..4]);
    ToFrom(body[0..4]);
    ToFrom(body[4..6]);
    ToFrom(body[8..10]);
    ToFrom(body[10..12]);
    ToFrom(body[12..20]);
    ToFrom(body[20..24]);
    SplitBody(bytes);
  }

  lemma SplitBody(bytes: seq<byte>)
    requires |bytes| >= 28
    ensures var body := bytes[4..];
            && bytes == bytes[..4] + (body[0..4] + body[4..6] + bytes[10..12] + body[8..10] + body[10..12]
                                      + body[12..20] + body[20..24]) + bytes[28..]
            && bytes[..10] + ToBytes(MINOR, 2) + bytes[12..]
            == bytes[..4] + (body[0..4] + body[4..6] + ToBytes(MINOR, 2) + body[8..10] + body[10..12]
                             + body[12..20] + body[20..24]) + bytes[28..]
  {
  }
}
