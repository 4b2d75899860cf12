/** Reading the service log line by line from a cursor. */
module LogTail {
  import opened Wrappers
  import opened Bytes

  datatype Params = Params(lines: Option<nat>, cursor: Option<nat>, filters: seq<string>)

  /** `offset` counts from the start of the file. */
  datatype Entry = Entry(offset: nat, line: seq<byte>)

  datatype Response = Response(cursor: nat, entries: seq<Entry>)

  datatype Failure = BadRequest | Failed

  /** The log when it is read: absent, impossible to open, or these bytes. */
  datatype LogFile = Absent | Locked | Content(bytes: seq<byte>)

  const LF: byte := 10
  const CR: byte := 13
  const DEFAULT_LINES: nat := 100

  /** Where the line that starts at `at` ends, its newline included. */
  function LineEnd(c: seq<byte>, at: nat): (e: nat)
    requires at <= |c|
    ensures at <= e <= |c| && (at < |c| ==> at < e)
    decreases |c| - at
  {
    if at == |c| then at else if c[at] == LF then at + 1 else LineEnd(c, at + 1)
  }

  /** Without the line terminators at the end, all of them. */
  function Strip(line: seq<byte>): seq<byte> {
    if line != [] && (line[|line| - 1] == CR || line[|line| - 1] == LF) then Strip(line[..|line| - 1]) else line
  }

  function Both(a: Option<seq<Entry>>, b: Option<seq<Entry>>): Option<seq<Entry>> {
    if a.Some? && b.Some? then Some(a.value + b.value) else None
  }

  /** All lines from `at` on; `utf8` says which byte strings decode, and one that does not fails the whole read. */
  function Entries(c: seq<byte>, at: nat, utf8: seq<byte> -> bool): Option<seq<Entry>>
    requires at <= |c|
    decreases |c| - at
  {
    if at == |c| then Some([])
    else
      var raw := c[at..LineEnd(c, at)];
      if !utf8(raw) then None
      else Both(Some([Entry(at, Strip(raw))]), Entries(c, at + |raw|, utf8))
  }

  /** At most the last `n`. */
  function LastOf(entries: seq<Entry>, n: nat): seq<Entry> {
    if |entries| > n then entries[|entries| - n..] else entries
  }

  /** A cursor past the end of the log starts over. */
  function StartOf(params: Params, c: seq<byte>): (at: nat)
    ensures at <= |c|
  {
    if params.cursor.Some? && params.cursor.value <= |c| then params.cursor.value else 0
  }

  function Limit(params: Params): nat {
    if params.lines.Some? then params.lines.value else DEFAULT_LINES
  }

  /** What one call of `log_tail` returns. */
  function Tail(log: LogFile, params: Params, utf8: seq<byte> -> bool): Result<Response, Failure> {
    if params.filters != [] then Err(BadRequest)
    else
      match log
      case Absent => Ok(Response(0, []))
      case Locked => Err(Failed)
      case Content(c) =>
        match Entries(c, StartOf(params, c), utf8)
        case None => Err(Failed)
        case Some(entries) => Ok(Response(|c|, LastOf(entries, Limit(params))))
  }

  lemma BothStep(front: seq<Entry>, e: Entry, rest: Option<seq<Entry>>)
    ensures Both(Some(front), Both(Some([e]), rest)) == Both(Some(front + [e]), rest)
  {
    if rest.Some? {
      assert front + ([e] + rest.value) == front + [e] + rest.value;
    }
  }

  /** Reading one more line behind those read so far. */
  lemma OneMore(c: seq<byte>, at: nat, read: seq<Entry>, utf8: seq<byte> -> bool, raw: seq<byte>)
    requires at < |c| && raw == c[at..LineEnd(c, at)]
    ensures raw != [] && at + |raw| <= |c|
    ensures Both(Some(read), Entries(c, at, utf8))
         == if utf8(raw) then Both(Some(read + [Entry(at, Strip(raw))]), Entries(c, at + |raw|, utf8)) else None
  {
    BothStep(read, Entry(at, Strip(raw)), Entries(c, at + |raw|, utf8));
  }

  method ReadLine(c: seq<byte>, at: nat) returns (raw: seq<byte>)
    requires at <= |c|
    ensures raw == c[at..LineEnd(c, at)]
  {
    var e := at;
    while e < |c| && c[e] != LF
      invariant at <= e <= |c| && LineEnd(c, at) == LineEnd(c, e)
    {
      e := e + 1;
    }
    if e < |c| {
      e := e + 1;
    }
    raw := c[at..e];
  }

  /** Reads lines until the end; fails at the first that does not decode. */
  method ReadLines(c: seq<byte>, start: nat, utf8: seq<byte> -> bool)
    returns (entries: Option<seq<Entry>>, cursor: nat)
    requires start <= |c|
    ensures entries == Entries(c, start, utf8)
    ensures entries.Some? ==> cursor == |c|
  {
    var read: seq<Entry> := [];
    ghost var all := Entries(c, start, utf8);
    cursor := start;
    assert all.Some? ==> [] + all.value == all.value;
    while true
      invariant cursor <= |c| && all == Both(Some(read), Entries(c, cursor, utf8))
      decreases |c| - cursor
    {
      var offset := cursor;
      var line := ReadLine(c, cursor);
      if cursor < |c| {
        OneMore(c, cursor, read, utf8, line);
      }
      if line != [] && !utf8(line) {
        return None, cursor;
      }
      if |line| == 0 {
        break;
      }
      cursor := cursor + |line|;
      read := read + [Entry(offset, Strip(line))];
    }
    assert read + [] == read;
    entries := Some(read);
  }

  method ReadLogTail(log: LogFile, params: Params, utf8: seq<byte> -> bool) returns (r: Result<Response, Failure>)
    ensures r == Tail(log, params, utf8)
  {
    if params.filters != [] {
      return Err(BadRequest);
    }
    match log {
      case Absent =>
        return Ok(Response(0, []));
      case Locked =>
        return Err(Failed);
      case Content(c) =>
        var start := 0;
        if params.cursor.Some? && params.cursor.value <= |c| {
          start := params.cursor.value;
        }
        var read, cursor := ReadLines(c, start, utf8);
        if read.None? {
          return Err(Failed);
        }
        var maxLines := if params.lines.Some? then params.lines.value else DEFAULT_LINES;
        var entries := read.value;
        if |entries| > maxLines {
          entries := entries[|entries| - maxLines..];
        }
        return Ok(Response(cursor, entries));
    }
  }

  // ---------------------------------------------------------------- polling a growing log

  /** Nothing written yet, or a newline last. */
  predicate Terminated(c: seq<byte>) {
    c == [] || c[|c| - 1] == LF
  }

  lemma {:induction false} LineEndStays(a: seq<byte>, more: seq<byte>, at: nat)
    requires Terminated(a) && at < |a|
    ensures LineEnd(a + more, at) == LineEnd(a, at)
    decreases |a| - at
  {
    if a[at] != LF {
      LineEndStays(a, more, at + 1);
    }
  }

  lemma BothAssociates(a: Option<seq<Entry>>, b: Option<seq<Entry>>, c: Option<seq<Entry>>)
    ensures Both(Both(a, b), c) == Both(a, Both(b, c))
  {
    if a.Some? && b.Some? && c.Some? {
      assert a.value + b.value + c.value == a.value + (b.value + c.value);
    }
  }

  lemma BothUnit(a: Option<seq<Entry>>)
    ensures Both(Some([]), a) == a == Both(a, Some([]))
  {
    if a.Some? {
      assert [] + a.value == a.value == a.value + [];
    }
  }

  /** What was read, then what is read from the cursor after the log has grown, is what one full read gives. */
  lemma {:induction false} TailingContinues(a: seq<byte>, more: seq<byte>, at: nat, utf8: seq<byte> -> bool)
    requires Terminated(a) && at <= |a|
    ensures Entries(a + more, at, utf8) == Both(Entries(a, at, utf8), Entries(a + more, |a|, utf8))
    decreases |a| - at
  {
    if at == |a| {
      BothUnit(Entries(a + more, |a|, utf8));
    } else {
      LineEndStays(a, more, at);
      var e := LineEnd(a, at);
      assert (a + more)[at..e] == a[at..e];
      if utf8(a[at..e]) {
        TailingContinues(a, more, e, utf8);
        BothAssociates(Some([Entry(at, Strip(a[at..e]))]), Entries(a, e, utf8), Entries(a + more, |a|, utf8));
      }
    }
  }

  lemma {:induction false} LineEndMoves(a: seq<byte>, more: seq<byte>, at: nat)
    requires at < |a| && LineEnd(a, at) == |a| && !Terminated(a) && more != []
    ensures LineEnd(a + more, at) == LineEnd(a + more, |a|) > |a|
    decreases |a| - at
  {
    if at + 1 < |a| {
      LineEndMoves(a, more, at + 1);
    }
  }

  lemma {:induction false} LineEndInside(a: seq<byte>, more: seq<byte>, at: nat)
    requires at < |a| && LineEnd(a, at) < |a|
    ensures LineEnd(a + more, at) == LineEnd(a, at)
    decreases |a| - at
  {
    if a[at] != LF {
      LineEndInside(a, more, at + 1);
    }
  }

  lemma OneMoreLine(c: seq<byte>, at: nat, utf8: seq<byte> -> bool)
    requires at < |c| && Entries(c, at, utf8).Some?
    ensures Entries(c, LineEnd(c, at), utf8).Some?
    ensures |Entries(c, at, utf8).value| == 1 + |Entries(c, LineEnd(c, at), utf8).value|
  {
  }

  /** A line that was cut when it was read counts twice: incremental reading then has one entry too many. */
  lemma {:induction false} CutLineCountsTwice(a: seq<byte>, more: seq<byte>, at: nat, utf8: seq<byte> -> bool)
    requires !Terminated(a) && at < |a| && more != []
    requires Entries(a, at, utf8).Some? && Entries(a + more, at, utf8).Some? && Entries(a + more, |a|, utf8).Some?
    ensures |Entries(a, at, utf8).value| + |Entries(a + more, |a|, utf8).value|
         == |Entries(a + more, at, utf8).value| + 1
    decreases |a| - at
  {
    var whole, e := a + more, LineEnd(a, at);
    OneMoreLine(a, at, utf8);
    OneMoreLine(whole, at, utf8);
    if e == |a| {
      LineEndMoves(a, more, at);
      OneMoreLine(whole, |a|, utf8);
    } else {
      LineEndInside(a, more, at);
      CutLineCountsTwice(a, more, e, utf8);
    }
  }

  lemma EntriesAddUp(a: seq<byte>, more: seq<byte>, utf8: seq<byte> -> bool)
    requires Entries(a, 0, utf8).Some? && Entries(a + more, 0, utf8).Some? && Entries(a + more, |a|, utf8).Some?
    ensures Both(Entries(a, 0, utf8), Entries(a + more, |a|, utf8)) == Entries(a + more, 0, utf8)
       <==> Terminated(a) || more == []
  {
    if Terminated(a) {
      TailingContinues(a, more, 0, utf8);
    } else if more == [] {
      assert a + more == a;
      BothUnit(Entries(a, 0, utf8));
    } else {
      CutLineCountsTwice(a, more, 0, utf8);
    }
  }

  // ---------------------------------------------------------------- limit and cursor of a call

  lemma {:induction false} NoMoreLinesThanBytes(c: seq<byte>, at: nat, utf8: seq<byte> -> bool)
    requires at <= |c| && Entries(c, at, utf8).Some?
    ensures |Entries(c, at, utf8).value| <= |c| - at
    decreases |c| - at
  {
    if at < |c| {
      NoMoreLinesThanBytes(c, LineEnd(c, at), utf8);
    }
  }

  /** A call for at most `lines` lines from this cursor on. */
  function From(cursor: Option<nat>, lines: nat): Params {
    Params(Some(lines), cursor, [])
  }

  /** A limit of at least the length of the log cuts nothing: the response covers the log from the cursor on. */
  lemma ReadsOnFromTheCursor(c: seq<byte>, cursor: nat, lines: nat, utf8: seq<byte> -> bool)
    requires cursor <= |c| <= lines
    ensures var r := Tail(Content(c), From(Some(cursor), lines), utf8);
            && (r.Ok? ==> r.value.cursor == |c| && Tiles(c, cursor, r.value.entries)
                          && Entries(c, cursor, utf8) == Some(r.value.entries))
            && (r.Err? <==> Entries(c, cursor, utf8).None?)
  {
    if Entries(c, cursor, utf8).Some? {
      NoMoreLinesThanBytes(c, cursor, utf8);
      EntriesTile(c, cursor, utf8);
    }
  }

  /** A cursor past the end, or none, reads the whole log; one at the end reads nothing. */
  lemma CursorsAtTheEnds(c: seq<byte>, cursor: nat, lines: nat, utf8: seq<byte> -> bool)
    requires cursor > |c|
    ensures Tail(Content(c), From(Some(cursor), lines), utf8) == Tail(Content(c), From(Some(0), lines), utf8)
    ensures Tail(Content(c), From(None, lines), utf8) == Tail(Content(c), From(Some(0), lines), utf8)
    ensures Tail(Content(c), From(Some(|c|), lines), utf8) == Ok(Response(|c|, []))
  {
  }

  /** A limit keeps the last lines, as many as it allows or as there are; without one it is a hundred. */
  lemma LimitKeepsTheLast(c: seq<byte>, cursor: Option<nat>, lines: nat, utf8: seq<byte> -> bool)
    requires Tail(Content(c), From(cursor, |c|), utf8).Ok?
    ensures var all := Tail(Content(c), From(cursor, |c|), utf8).value.entries;
            var kept := if lines < |all| then lines else |all|;
            && Tail(Content(c), From(cursor, lines), utf8) == Ok(Response(|c|, all[|all| - kept..]))
            && Tail(Content(c), Params(None, cursor, []), utf8) == Tail(Content(c), From(cursor, 100), utf8)
  {
    NoMoreLinesThanBytes(c, StartOf(From(cursor, |c|), c), utf8);
  }

  /**
    Reading on from the cursor a call has returned equals one full read exactly when the log ended in a newline at the
    time of the first call, or has not grown.
   */
  lemma TailingIsExact(a: seq<byte>, more: seq<byte>, utf8: seq<byte> -> bool, first: Response, second: Response,
                       whole: Response)
    requires var lines := |a + more|;
             && Tail(Content(a), From(None, lines), utf8) == Ok(first)
             && Tail(Content(a + more), From(Some(first.cursor), lines), utf8) == Ok(second)
             && Tail(Content(a + more), From(None, lines), utf8) == Ok(whole)
    ensures second.cursor == whole.cursor
    ensures first.entries + second.entries == whole.entries <==> Terminated(a) || more == []
  {
    NoMoreLinesThanBytes(a, 0, utf8);
    NoMoreLinesThanBytes(a + more, 0, utf8);
    NoMoreLinesThanBytes(a + more, |a|, utf8);
    EntriesAddUp(a, more, utf8);
  }

  function Flat(pieces: seq<seq<byte>>): seq<byte> {
    if pieces == [] then [] else Flat(pieces[..|pieces| - 1]) + pieces[|pieces| - 1]
  }

  function Newlines(c: seq<byte>): nat {
    if c == [] then 0 else Newlines(c[..|c| - 1]) + (if c[|c| - 1] == LF then 1 else 0)
  }

  /** One call after every piece, each from the cursor that the call before returned; all entries together. */
  function Polls(pieces: seq<seq<byte>>, lines: nat, utf8: seq<byte> -> bool): Result<Response, Failure> {
    if pieces == [] then Ok(Response(0, []))
    else
      match Polls(pieces[..|pieces| - 1], lines, utf8)
      case Err(failure) => Err(failure)
      case Ok(before) =>
        match Tail(Content(Flat(pieces)), From(Some(before.cursor), lines), utf8)
        case Err(failure) => Err(failure)
        case Ok(now) => Ok(Response(now.cursor, before.entries + now.entries))
  }

  lemma {:induction false} FlatIsTerminated(pieces: seq<seq<byte>>)
    requires forall n | 0 <= n < |pieces| :: Terminated(pieces[n])
    ensures Terminated(Flat(pieces))
  {
    if pieces != [] {
      FlatIsTerminated(pieces[..|pieces| - 1]);
    }
  }

  lemma {:induction false} NewlinesJoin(a: seq<byte>, b: seq<byte>)
    ensures Newlines(a + b) == Newlines(a) + Newlines(b)
  {
    if b == [] {
      assert a + b == a;
    } else {
      assert (a + b)[..|a + b| - 1] == a + b[..|b| - 1];
      NewlinesJoin(a, b[..|b| - 1]);
    }
  }

  lemma {:induction false} OneNewlinePerLine(c: seq<byte>, at: nat)
    requires at < |c| && Terminated(c)
    ensures Newlines(c[at..LineEnd(c, at)]) == 1
    decreases |c| - at
  {
    var e := LineEnd(c, at);
    if c[at] == LF {
      assert c[at..e] == [] + [LF];
    } else {
      OneNewlinePerLine(c, at + 1);
      assert c[at..e] == [c[at]] + c[at + 1..e];
      NewlinesJoin([c[at]], c[at + 1..e]);
      assert [c[at]][..0] == [];
    }
  }

  /** A terminated log has as many lines as newlines. */
  lemma {:induction false} LinesAreNewlines(c: seq<byte>, at: nat, utf8: seq<byte> -> bool)
    requires at <= |c| && Terminated(c) && Entries(c, at, utf8).Some?
    ensures |Entries(c, at, utf8).value| == Newlines(c[at..])
    decreases |c| - at
  {
    if at < |c| {
      var e := LineEnd(c, at);
      LinesAreNewlines(c, e, utf8);
      OneNewlinePerLine(c, at);
      assert c[at..] == c[at..e] + c[e..];
      NewlinesJoin(c[at..e], c[e..]);
    }
  }

  lemma PollReadsTheRest(a: seq<byte>, more: seq<byte>, lines: nat, utf8: seq<byte> -> bool)
    requires Terminated(a) && Terminated(more) && Newlines(more) <= lines && Entries(a + more, |a|, utf8).Some?
    ensures Tail(Content(a + more), From(Some(|a|), lines), utf8)
         == Ok(Response(|a + more|, Entries(a + more, |a|, utf8).value))
  {
    assert Terminated(a + more) && (a + more)[|a|..] == more;
    LinesAreNewlines(a + more, |a|, utf8);
  }

  lemma AddsUp(a: seq<byte>, more: seq<byte>, lines: nat, utf8: seq<byte> -> bool)
    requires Terminated(a) && Terminated(more) && Newlines(more) <= lines
    ensures Entries(a + more, 0, utf8) == Both(Entries(a, 0, utf8), Entries(a + more, |a|, utf8))
    ensures Tail(Content(a + more), From(Some(|a|), lines), utf8)
         == match Entries(a + more, |a|, utf8)
            case None => Err(Failed)
            case Some(entries) => Ok(Response(|a + more|, entries))
  {
    TailingContinues(a, more, 0, utf8);
    if Entries(a + more, |a|, utf8).Some? {
      PollReadsTheRest(a, more, lines, utf8);
    }
  }

  /**
    However often a log of whole lines is polled while it grows, if no poll meets more new lines than its limit: the
    responses add up to that of one full read, and end at the same cursor.
   */
  lemma {:induction false} PollingAddsUp(pieces: seq<seq<byte>>, lines: nat, utf8: seq<byte> -> bool)
    requires forall n | 0 <= n < |pieces| :: Terminated(pieces[n]) && Newlines(pieces[n]) <= lines
    ensures Polls(pieces, lines, utf8) == Tail(Content(Flat(pieces)), From(None, |Flat(pieces)|), utf8)
  {
    if pieces != [] {
      var front := pieces[..|pieces| - 1];
      PollingAddsUp(front, lines, utf8);
      FlatIsTerminated(front);
      AddsUp(Flat(front), pieces[|pieces| - 1], lines, utf8);
      ReadsAll(Flat(front), utf8);
      ReadsAll(Flat(pieces), utf8);
    }
  }

  lemma ReadsAll(c: seq<byte>, utf8: seq<byte> -> bool)
    ensures Tail(Content(c), From(None, |c|), utf8)
         == (if Entries(c, 0, utf8).None? then Err(Failed) else Ok(Response(|c|, Entries(c, 0, utf8).value)))
  {
    if Entries(c, 0, utf8).Some? {
      NoMoreLinesThanBytes(c, 0, utf8);
    }
  }

  /** What stands in an entry is the line without the carriage returns and newlines at its end. */
  lemma {:induction false} StripsTerminators(line: seq<byte>)
    ensures var kept := |Strip(line)|;
            && kept <= |line| && line[..kept] == Strip(line)
            && (forall i | kept <= i < |line| :: line[i] == CR || line[i] == LF)
            && (kept > 0 ==> line[kept - 1] != CR && line[kept - 1] != LF)
  {
    if line != [] && (line[|line| - 1] == CR || line[|line| - 1] == LF) {
      StripsTerminators(line[..|line| - 1]);
    }
  }

  // ---------------------------------------------------------------- offsets

  /** Entries tile the log from `at` to its end: each covers one line, whose bytes stand at its offset. */
  ghost predicate Tiles(c: seq<byte>, at: nat, entries: seq<Entry>)
    requires at <= |c|
    decreases |entries|
  {
    if entries == [] then at == |c|
    else
      var next := if |entries| == 1 then |c| else entries[1].offset;
      && entries[0].offset == at < next <= |c|
      && entries[0].line == Strip(c[at..next])
      && (forall i | at <= i < next - 1 :: c[i] != LF)
      && (next < |c| ==> c[next - 1] == LF)
      && Tiles(c, next, entries[1..])
  }

  lemma {:induction false} LineEndIsNewline(c: seq<byte>, at: nat)
    requires at < |c|
    ensures var e := LineEnd(c, at); (forall i | at <= i < e - 1 :: c[i] != LF) && (e < |c| ==> c[e - 1] == LF)
    decreases |c| - at
  {
    if c[at] != LF && at + 1 < |c| {
      LineEndIsNewline(c, at + 1);
    }
  }

  /** Offsets are absolute whatever cursor the read started from. */
  lemma {:induction false} EntriesTile(c: seq<byte>, at: nat, utf8: seq<byte> -> bool)
    requires at <= |c| && Entries(c, at, utf8).Some?
    ensures Tiles(c, at, Entries(c, at, utf8).value)
    decreases |c| - at
  {
    if at < |c| {
      var e, entries := LineEnd(c, at), Entries(c, at, utf8).value;
      LineEndIsNewline(c, at);
      EntriesTile(c, e, utf8);
      assert entries[1..] == Entries(c, e, utf8).value;
    }
  }
}
