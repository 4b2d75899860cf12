/** Newline-delimited JSON lines with a hard length limit; the JSON text itself is an opaque byte string. */
module Jsonl {
  import opened Wrappers
  import opened Bytes
  import opened Frame
  import opened FrameIo

  const NEWLINE: byte := 10
  const RETURN: byte := 13

  /** Position of the first newline, or the length if there is none. */
  function LineEnd(bytes: seq<byte>): (n: nat)
    ensures n <= |bytes| && NEWLINE !in bytes[..n]
    ensures n < |bytes| ==> bytes[n] == NEWLINE
  {
    if bytes == [] || bytes[0] == NEWLINE then 0
    else
      var n := LineEnd(bytes[1..]);
      assert bytes[..n + 1] == [bytes[0]] + bytes[1..][..n];
      n + 1
  }

  lemma {:induction false} LineEndIs(front: seq<byte>, rest: seq<byte>)
    requires NEWLINE !in front
    ensures LineEnd(front + rest) == |front| + LineEnd(rest)
  {
    if front == [] {
      assert front + rest == rest;
    } else {
      assert (front + rest)[1..] == front[1..] + rest;
      LineEndIs(front[1..], rest);
    }
  }

  function StripReturn(line: seq<byte>): seq<byte> {
    if line != [] && line[|line| - 1] == RETURN then line[..|line| - 1] else line
  }

  function Oversized(limits: Limits): IpcError {
    JsonlLineOversized(limits.maxJsonlLineBytes + 1, limits.maxJsonlLineBytes)
  }

  function LineText(line: seq<byte>, utf8: seq<byte> -> bool): Result<Option<seq<byte>>, IpcError> {
    if utf8(StripReturn(line)) then Ok(Some(StripReturn(line))) else Err(NotUtf8)
  }

  /** What a call returns, and what it leaves: everything after the first newline, or nothing. */
  function ReadLine(input: Input, limits: Limits, utf8: seq<byte> -> bool)
    : (Result<Option<seq<byte>>, IpcError>, Input)
  {
    var n := LineEnd(input.bytes);
    if n < |input.bytes| then
      (if n > limits.maxJsonlLineBytes then Err(Oversized(limits)) else LineText(input.bytes[..n], utf8),
       input.(bytes := input.bytes[n + 1..]))
    else
      (if input.broken then Err(Io)
       else if n > limits.maxJsonlLineBytes then Err(Oversized(limits))
       else if n == 0 then Ok(None)
       else Err(UnterminatedLine),
       input.(bytes := []))
  }

  /** Read the byte at position `k` of `all`. */
  method ReadByte(reader: FirstByteReader, ghost all: Input, ghost k: nat) returns (r: Result<byte, IpcError>)
    requires k <= LineEnd(all.bytes) && reader.Left() == Input(all.bytes[k..], all.broken)
    modifies reader
    ensures k == |all.bytes| ==>
              r == Err(if all.broken then Io else UnexpectedEof) && reader.Left() == Input([], all.broken)
    ensures k < |all.bytes| ==>
              r == Ok(all.bytes[k]) && reader.Left() == Input(all.bytes[k + 1..], all.broken)
    ensures k < |all.bytes| ==> (all.bytes[k] == NEWLINE <==> k == LineEnd(all.bytes))
  {
    var byte := reader.ReadExact(1);
    if byte.Err? {
      return Err(byte.error);
    }
    StepToLineEnd(all.bytes, k);
    r := Ok(byte.value[0]);
  }

  function Skip(input: Input): (Result<(), IpcError>, Input) {
    var n := LineEnd(input.bytes);
    if n < |input.bytes| then (Ok(()), input.(bytes := input.bytes[n + 1..]))
    else (if input.broken then Err(Io) else Ok(()), input.(bytes := []))
  }

  /** Skip to the end of a line that is already too long, without keeping it. */
  method SkipLine(reader: FirstByteReader) returns (r: Result<(), IpcError>)
    modifies reader
    ensures (r, reader.Left()) == Skip(old(reader.Left()))
  {
    ghost var all := reader.Left();
    ghost var k := 0;
    while true
      invariant 0 <= k <= LineEnd(all.bytes)
      invariant reader.Left() == Input(all.bytes[k..], all.broken)
      decreases |reader.Left().bytes|
    {
      var byte := ReadByte(reader, all, k);
      if byte.Err? {
        return if byte.error.UnexpectedEof? then Ok(()) else Err(byte.error);
      }
      if byte.value == NEWLINE {
        return Ok(());
      }
      k := k + 1;
    }
  }

  lemma StepToLineEnd(bytes: seq<byte>, k: nat)
    requires k <= LineEnd(bytes) && k < |bytes|
    ensures bytes[k..][..1] == [bytes[k]] && bytes[k..][1..] == bytes[k + 1..]
    ensures bytes[k] == NEWLINE <==> k == LineEnd(bytes)
  {
    if k < LineEnd(bytes) {
      assert bytes[..LineEnd(bytes)][k] == bytes[k];
    }
  }

  method ReadJsonlLine(reader: FirstByteReader, limits: Limits, utf8: seq<byte> -> bool, lineBuf: ByteBuffer)
    returns (r: Result<Option<seq<byte>>, IpcError>)
    modifies reader, lineBuf
    ensures (r, reader.Left()) == ReadLine(old(reader.Left()), limits, utf8)
    ensures |lineBuf.data| <= limits.maxJsonlLineBytes
  {
    lineBuf.data := [];
    ghost var all := reader.Left();
    ghost var k := 0;
    while true
      invariant 0 <= k <= LineEnd(all.bytes) && k <= limits.maxJsonlLineBytes
      invariant reader.Left() == Input(all.bytes[k..], all.broken) && lineBuf.data == all.bytes[..k]
      decreases |reader.Left().bytes|
    {
      var byte := ReadByte(reader, all, k);
      if byte.Err? {
        if !byte.error.UnexpectedEof? {
          return Err(byte.error);
        }
        return if lineBuf.data == [] then Ok(None) else Err(UnterminatedLine);
      }
      if byte.value == NEWLINE {
        break;
      }
      if |lineBuf.data| + 1 > limits.maxJsonlLineBytes {
        OversizedLine(all, k + 1, limits, utf8);
        var skipped := SkipLine(reader);
        return if skipped.Err? then Err(skipped.error) else Err(Oversized(limits));
      }
      lineBuf.data := lineBuf.data + [byte.value];
      k := k + 1;
    }
    r := FinishLine(lineBuf, utf8);
  }

  method FinishLine(lineBuf: ByteBuffer, utf8: seq<byte> -> bool) returns (r: Result<Option<seq<byte>>, IpcError>)
    modifies lineBuf
    ensures r == LineText(old(lineBuf.data), utf8) && |lineBuf.data| <= |old(lineBuf.data)|
  {
    if lineBuf.data != [] && lineBuf.data[|lineBuf.data| - 1] == RETURN {
      lineBuf.data := lineBuf.data[..|lineBuf.data| - 1];
    }
    r := if utf8(lineBuf.data) then Ok(Some(lineBuf.data)) else Err(NotUtf8);
  }

  lemma {:induction false} LineEndDrop(bytes: seq<byte>, k: nat)
    requires k <= LineEnd(bytes)
    ensures LineEnd(bytes) == k + LineEnd(bytes[k..])
  {
    if k == 0 {
      assert bytes[0..] == bytes;
    } else {
      LineEndDrop(bytes[1..], k - 1);
      assert bytes[1..][k - 1..] == bytes[k..];
    }
  }

  /** Once a line is over the limit, what is left to do is to skip the rest of it. */
  lemma OversizedLine(input: Input, k: nat, limits: Limits, utf8: seq<byte> -> bool)
    requires limits.maxJsonlLineBytes < k <= LineEnd(input.bytes)
    ensures var (skipped, rest) := Skip(input.(bytes := input.bytes[k..]));
            ReadLine(input, limits, utf8) == (if skipped.Err? then Err(skipped.error) else Err(Oversized(limits)), rest)
  {
    LineEndDrop(input.bytes, k);
    var n := LineEnd(input.bytes);
    if n < |input.bytes| {
      assert input.bytes[k..][n - k + 1..] == input.bytes[n + 1..];
    }
  }

  function EncodeLine(json: seq<byte>, limits: Limits): Result<seq<byte>, IpcError> {
    if |json| + 1 > limits.maxJsonlLineBytes
    then Err(JsonlLineOversized(|json| + 1, limits.maxJsonlLineBytes))
    else Ok(json + [NEWLINE])
  }

  /** `json` is what the serialiser writes for the value. The buffer keeps the line even when it is refused. */
  method EncodeJsonl(json: seq<byte>, limits: Limits, encodeBuf: ByteBuffer) returns (r: Result<(), IpcError>)
    modifies encodeBuf
    ensures encodeBuf.data == json + [NEWLINE]
    ensures match EncodeLine(json, limits)
            case Ok(line) => r == Ok(()) && encodeBuf.data == line
            case Err(error) => r == Err(error)
  {
    encodeBuf.data := [];
    encodeBuf.data := encodeBuf.data + json;
    encodeBuf.data := encodeBuf.data + [NEWLINE];
    if |encodeBuf.data| > limits.maxJsonlLineBytes {
      return Err(JsonlLineOversized(|encodeBuf.data|, limits.maxJsonlLineBytes));
    }
    r := Ok(());
  }

  predicate Plain(json: seq<byte>, utf8: seq<byte> -> bool) {
    NEWLINE !in json && (json == [] || json[|json| - 1] != RETURN) && utf8(json)
  }

  /** A line the encoder accepts is read back unchanged exactly when it has no raw newline and no final CR. */
  lemma LineIsReadBack(json: seq<byte>, tail: seq<byte>, broken: bool, limits: Limits, utf8: seq<byte> -> bool)
    requires EncodeLine(json, limits).Ok?
    ensures ReadLine(Input(EncodeLine(json, limits).value + tail, broken), limits, utf8)
         == (Ok(Some(json)), Input(tail, broken))
       <==> Plain(json, utf8)
  {
    var n := LineEnd(json);
    var bytes := json + [NEWLINE] + tail;
    var rest := json[n..] + [NEWLINE] + tail;
    assert json == json[..n] + json[n..];
    assert bytes == json[..n] + rest;
    LineEndIs(json[..n], rest);
    assert rest[0] == NEWLINE;
    assert LineEnd(bytes) == n;
    assert bytes[..n] == json[..n];
    if n == |json| {
      assert json[..n] == json && bytes[n + 1..] == tail;
    } else {
      assert json[n] in json;
    }
  }

  /**
    Whatever a line holds, a call consumes it through its newline and leaves exactly what follows, also when the line is
    too long or not UTF-8; so the next call starts at the next line.
   */
  lemma EveryLineIsConsumed(line: seq<byte>, tail: seq<byte>, broken: bool, limits: Limits, utf8: seq<byte> -> bool)
    requires NEWLINE !in line
    ensures var input := Input(line + [NEWLINE] + tail, broken);
            var text := if line != [] && line[|line| - 1] == RETURN then line[..|line| - 1] else line;
            && Skip(input) == (Ok(()), Input(tail, broken))
            && ReadLine(input, limits, utf8)
            == (if |line| > limits.maxJsonlLineBytes
                then Err(JsonlLineOversized(limits.maxJsonlLineBytes + 1, limits.maxJsonlLineBytes))
                else if utf8(text) then Ok(Some(text)) else Err(NotUtf8),
                Input(tail, broken))
  {
    var bytes := line + [NEWLINE] + tail;
    assert bytes == line + ([NEWLINE] + tail);
    LineEndIs(line, [NEWLINE] + tail);
    assert LineEnd(bytes) == |line| && bytes[..|line|] == line && bytes[|line| + 1..] == tail;
  }

  /** Without a newline the whole stream is consumed, and only the empty one is a clean end. */
  lemma LastLineIsConsumed(line: seq<byte>, broken: bool, limits: Limits, utf8: seq<byte> -> bool)
    requires NEWLINE !in line
    ensures var (r, rest) := ReadLine(Input(line, broken), limits, utf8);
            && rest == Input([], broken)
            && (r == Ok(None) <==> line == [] && !broken) && (r.Err? <==> line != [] || broken)
    ensures Skip(Input(line, broken)) == (if broken then Err(Io) else Ok(()), Input([], broken))
  {
    LineEndIs(line, []);
    assert line + [] == line;
  }

  function Lines(texts: seq<seq<byte>>): seq<byte> {
    if texts == [] then [] else texts[0] + [NEWLINE] + Lines(texts[1..])
  }

  function Oks(texts: seq<seq<byte>>): seq<Result<seq<byte>, IpcError>> {
    if texts == [] then [] else [Ok(texts[0])] + Oks(texts[1..])
  }

  function ReadLines(input: Input, limits: Limits, utf8: seq<byte> -> bool)
    : (seq<Result<seq<byte>, IpcError>>, Input)
    decreases |input.bytes|
  {
    var (line, rest) := ReadLine(input, limits, utf8);
    match line
    case Ok(None) => ([], rest)
    case Ok(Some(text)) => var (more, end) := ReadLines(rest, limits, utf8); ([Ok(text)] + more, end)
    case Err(error) => ([Err(error)], rest)
  }

  /** A whole stream of encoded lines is read back line by line to its end. */
  lemma {:induction false} LinesAreReadBack(texts: seq<seq<byte>>, limits: Limits, utf8: seq<byte> -> bool)
    requires forall t <- texts :: EncodeLine(t, limits).Ok? && Plain(t, utf8)
    ensures ReadLines(Input(Lines(texts), false), limits, utf8)
         == (Oks(texts), Input([], false))
  {
    if texts != [] {
      LineIsReadBack(texts[0], Lines(texts[1..]), false, limits, utf8);
      LinesAreReadBack(texts[1..], limits, utf8);
    }
  }
}
