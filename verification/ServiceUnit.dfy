/** Text that goes into a systemd unit: quoted arguments, escaped paths, service names. */
module ServiceUnit {
  import opened Wrappers
  import opened Bytes

  // ---------------------------------------------------------------- quoting one argument

  /** Unicode general category Cc. */
  predicate IsControl(c: char) {
    c < ' ' || '\U{007F}' <= c <= '\U{009F}'
  }

  predicate HasControl(s: string) {
    exists c <- s :: IsControl(c)
  }

  /** Every occurrence of a character replaced by a string. */
  function Replace(s: string, from: char, to: string): string {
    if s == [] then [] else (if s[0] == from then to else [s[0]]) + Replace(s[1..], from, to)
  }

  const QUOTE: char := '\"'
  const BACKSLASH: char := '\\'
  const PERCENT: char := '%'
  const BLANK: char := ' '

  function DoublePercent(s: string): string {
    Replace(s, PERCENT, [PERCENT, PERCENT])
  }

  function SystemdQuote(value: string): Result<string, ()> {
    if HasControl(value) then Err(())
    else
      var slashed := Replace(DoublePercent(value), BACKSLASH, [BACKSLASH, BACKSLASH]);
      var escaped := Replace(slashed, QUOTE, [BACKSLASH, QUOTE]);
      Ok([QUOTE] + escaped + [QUOTE])
  }

  function EscapeChar(c: char): string {
    if c == PERCENT then [PERCENT, PERCENT]
    else if c == BACKSLASH then [BACKSLASH, BACKSLASH]
    else if c == QUOTE then [BACKSLASH, QUOTE]
    else [c]
  }

  function Escape(s: string): string {
    if s == [] then [] else EscapeChar(s[0]) + Escape(s[1..])
  }

  lemma {:induction false} ReplaceConcat(a: string, b: string, from: char, to: string)
    ensures Replace(a + b, from, to) == Replace(a, from, to) + Replace(b, from, to)
  {
    if a == [] {
      assert a + b == b;
    } else {
      ReplaceConcat(a[1..], b, from, to);
      assert (a + b)[1..] == a[1..] + b && (a + b)[0] == a[0];
      var first := if a[0] == from then to else [a[0]];
      assert first + (Replace(a[1..], from, to) + Replace(b, from, to))
          == first + Replace(a[1..], from, to) + Replace(b, from, to);
    }
  }

  /** Later replacements do not touch what earlier ones put in: the chain escapes character by character. */
  lemma {:induction false} ChainIsPerCharacter(s: string)
    ensures var slashed := Replace(DoublePercent(s), BACKSLASH, [BACKSLASH, BACKSLASH]);
            Replace(slashed, QUOTE, [BACKSLASH, QUOTE]) == Escape(s)
  {
    if s != [] {
      var c := s[0];
      var one := if c == PERCENT then [PERCENT, PERCENT] else [c];
      var two := if c == BACKSLASH then [BACKSLASH, BACKSLASH] else one;
      ChainIsPerCharacter(s[1..]);
      ReplaceOne(one, BACKSLASH, [BACKSLASH, BACKSLASH]);
      ReplaceOne(two, QUOTE, [BACKSLASH, QUOTE]);
      ReplaceConcat(one, DoublePercent(s[1..]), BACKSLASH, [BACKSLASH, BACKSLASH]);
      ReplaceConcat(two, Replace(DoublePercent(s[1..]), BACKSLASH, [BACKSLASH, BACKSLASH]), QUOTE, [BACKSLASH, QUOTE]);
    }
  }

  lemma ReplaceOne(s: string, from: char, to: string)
    requires |s| == 1 || (|s| == 2 && s[0] == s[1])
    ensures Replace(s, from, to) == if s[0] != from then s else if |s| == 1 then to else to + to
  {
    assert s == [s[0]] + s[1..];
    assert |s| == 2 ==> s[1..] == [s[0]] && s == [s[0]] + [s[0]];
    assert [s[0]][1..] == [];
  }

  // ---------------------------------------------------------------- how the value is read back

  datatype Mode = Between | Plain | Double | Single

  /** Letters after a backslash; numeric escapes are not part of this reading. */
  function Unescape(c: char): Option<char> {
    match c
    case '\\' => Some('\\')
    case '\"' => Some('\"')
    case '\'' => Some('\'')
    case 's' => Some(' ')
    case 'n' => Some('\n')
    case 't' => Some('\t')
    case 'r' => Some('\r')
    case 'a' => Some('\U{0007}')
    case 'b' => Some('\U{0008}')
    case 'f' => Some('\U{000C}')
    case 'v' => Some('\U{000B}')
    case _ => None
  }

  predicate IsSeparator(c: char) {
    c == ' ' || c == '\t' || c == '\n' || c == '\r'
  }

  function After(word: string, rest: Option<seq<string>>): Option<seq<string>> {
    match rest
    case None => None
    case Some(words) => Some([word] + words)
  }

  /** Splitting a value into words: the QUOTING section of systemd.syntax(7). */
  function Scan(s: string, mode: Mode, word: string): Option<seq<string>> {
    if s == [] then
      match mode
      case Between => Some([])
      case Plain => Some([word])
      case Double => None
      case Single => None
    else if s[0] == BACKSLASH then
      if |s| == 1 || Unescape(s[1]) == None then None
      else Scan(s[2..], if mode.Between? then Plain else mode, word + [Unescape(s[1]).value])
    else
      match mode
      case Double => if s[0] == QUOTE then Scan(s[1..], Plain, word) else Scan(s[1..], Double, word + [s[0]])
      case Single => if s[0] == '\'' then Scan(s[1..], Plain, word) else Scan(s[1..], Single, word + [s[0]])
      case Between =>
        if IsSeparator(s[0]) then Scan(s[1..], Between, [])
        else if s[0] == QUOTE then Scan(s[1..], Double, [])
        else if s[0] == '\'' then Scan(s[1..], Single, [])
        else Scan(s[1..], Plain, [s[0]])
      case Plain =>
        if IsSeparator(s[0]) then After(word, Scan(s[1..], Between, []))
        else if s[0] == QUOTE then Scan(s[1..], Double, word)
        else if s[0] == '\'' then Scan(s[1..], Single, word)
        else Scan(s[1..], Plain, word + [s[0]])
  }

  /** Specifiers: only the literal percent sign has a value here. */
  function Expand(word: string): Option<string> {
    if word == [] then Some([])
    else if word[0] != PERCENT then
      match Expand(word[1..])
      case None => None
      case Some(rest) => Some([word[0]] + rest)
    else if |word| < 2 || word[1] != PERCENT then None
    else
      match Expand(word[2..])
      case None => None
      case Some(rest) => Some([PERCENT] + rest)
  }

  function ExpandAll(words: seq<string>): Option<seq<string>> {
    if words == [] then Some([])
    else if Expand(words[0]) == None then None
    else After(Expand(words[0]).value, ExpandAll(words[1..]))
  }

  /** The argument list of an `ExecStart` value. */
  function ReadArguments(value: string): Option<seq<string>> {
    match Scan(value, Between, [])
    case None => None
    case Some(words) => ExpandAll(words)
  }

  // ---------------------------------------------------------------- the whole value

  /** Quotes and joins with blanks; fails with the first argument that has a control character. */
  function ExecStart(arguments: seq<string>): Result<string, ()> {
    if arguments == [] then Ok([])
    else if SystemdQuote(arguments[0]).Err? then Err(())
    else if |arguments| == 1 then SystemdQuote(arguments[0])
    else
      match ExecStart(arguments[1..])
      case Err(_) => Err(())
      case Ok(rest) => Ok(SystemdQuote(arguments[0]).value + [BLANK] + rest)
  }

  lemma {:induction false} ScanEscaped(value: string, rest: string, word: string)
    ensures Scan(Escape(value) + [QUOTE] + rest, Double, word) == Scan(rest, Plain, word + DoublePercent(value))
    decreases |value|
  {
    if value == [] {
      assert Escape(value) + [QUOTE] + rest == [QUOTE] + rest;
      assert ([QUOTE] + rest)[1..] == rest && word + [] == word;
    } else {
      var c, later := value[0], Escape(value[1..]) + [QUOTE] + rest;
      assert Escape(value) + [QUOTE] + rest == EscapeChar(c) + later;
      ScanChar(c, later, word);
      var here := if c == PERCENT then [PERCENT, PERCENT] else [c];
      ScanEscaped(value[1..], rest, word + here);
      assert word + here + DoublePercent(value[1..]) == word + DoublePercent(value);
    }
  }

  lemma ScanChar(c: char, later: string, word: string)
    ensures Scan(EscapeChar(c) + later, Double, word)
         == Scan(later, Double, word + (if c == PERCENT then [PERCENT, PERCENT] else [c]))
  {
    var s := EscapeChar(c) + later;
    if c == BACKSLASH || c == QUOTE {
      assert s[2..] == later;
    } else if c == PERCENT {
      assert s[1..] == [PERCENT] + later && ([PERCENT] + later)[1..] == later;
      assert word + [PERCENT] + [PERCENT] == word + [PERCENT, PERCENT];
    } else {
      assert s[1..] == later;
    }
  }

  lemma ScanQuoted(value: string, rest: string)
    requires SystemdQuote(value).Ok?
    ensures Scan(SystemdQuote(value).value + rest, Between, []) == Scan(rest, Plain, DoublePercent(value))
  {
    ChainIsPerCharacter(value);
    ScanEscaped(value, rest, []);
    var s := SystemdQuote(value).value + rest;
    assert s == [QUOTE] + (Escape(value) + [QUOTE] + rest);
    assert s[1..] == Escape(value) + [QUOTE] + rest;
    assert [] + DoublePercent(value) == DoublePercent(value);
  }

  lemma {:induction false} ExpandDoubled(s: string)
    ensures Expand(DoublePercent(s)) == Some(s)
  {
    if s != [] {
      ExpandDoubled(s[1..]);
      var rest := DoublePercent(s[1..]);
      assert s == [s[0]] + s[1..];
      if s[0] == PERCENT {
        assert DoublePercent(s) == [PERCENT, PERCENT] + rest && DoublePercent(s)[2..] == rest;
      } else {
        assert DoublePercent(s)[1..] == rest;
      }
    }
  }

  function Doubled(arguments: seq<string>): seq<string> {
    if arguments == [] then [] else [DoublePercent(arguments[0])] + Doubled(arguments[1..])
  }

  lemma ScanFirst(value: string, rest: string)
    requires SystemdQuote(value).Ok?
    ensures Scan(SystemdQuote(value).value + [BLANK] + rest, Between, [])
         == After(DoublePercent(value), Scan(rest, Between, []))
  {
    ScanQuoted(value, [BLANK] + rest);
    assert SystemdQuote(value).value + ([BLANK] + rest) == SystemdQuote(value).value + [BLANK] + rest;
    assert ([BLANK] + rest)[1..] == rest;
  }

  lemma {:induction false} ScanValue(arguments: seq<string>)
    requires ExecStart(arguments).Ok?
    ensures Scan(ExecStart(arguments).value, Between, []) == Some(Doubled(arguments))
  {
    if arguments != [] {
      var first := DoublePercent(arguments[0]);
      if |arguments| == 1 {
        ScanQuoted(arguments[0], []);
        assert SystemdQuote(arguments[0]).value + [] == SystemdQuote(arguments[0]).value;
        assert Doubled(arguments[1..]) == [] && [first] + [] == [first];
      } else {
        ScanValue(arguments[1..]);
        ScanFirst(arguments[0], ExecStart(arguments[1..]).value);
      }
    }
  }

  lemma {:induction false} ExpandValue(arguments: seq<string>)
    ensures ExpandAll(Doubled(arguments)) == Some(arguments)
  {
    if arguments != [] {
      ExpandDoubled(arguments[0]);
      ExpandValue(arguments[1..]);
      assert arguments == [arguments[0]] + arguments[1..];
      assert Doubled(arguments)[1..] == Doubled(arguments[1..]);
    }
  }

  /** Whatever is accepted is read back as exactly the arguments it was made from. */
  lemma ArgumentsAreReadBack(arguments: seq<string>)
    requires ExecStart(arguments).Ok?
    ensures ReadArguments(ExecStart(arguments).value) == Some(arguments)
  {
    ScanValue(arguments);
    ExpandValue(arguments);
  }

  /** Control characters, and nothing else, are refused; the value stays on its line. */
  lemma {:induction false} AcceptedExactly(arguments: seq<string>)
    ensures ExecStart(arguments).Ok? <==> forall a <- arguments :: !HasControl(a)
    ensures ExecStart(arguments).Ok? ==> !HasControl(ExecStart(arguments).value)
  {
    if arguments != [] {
      AcceptedExactly(arguments[1..]);
      assert arguments == [arguments[0]] + arguments[1..];
      if !HasControl(arguments[0]) {
        ChainIsPerCharacter(arguments[0]);
        EscapeAddsNoControl(arguments[0]);
      }
    }
  }

  lemma {:induction false} EscapeAddsNoControl(s: string)
    requires !HasControl(s)
    ensures !HasControl(Escape(s))
  {
    if s != [] {
      assert s[0] in s && forall c <- s[1..] :: c in s;
      EscapeAddsNoControl(s[1..]);
    }
  }

  // ---------------------------------------------------------------- paths

  predicate IsPathByte(b: byte) {
    'A' <= b as char <= 'Z' || 'a' <= b as char <= 'z' || '0' <= b as char <= '9'
    || b as char in {'/', '.', '_', '-'}
  }

  function HexDigit(n: nat): char
    requires n < 16
  {
    "0123456789abcdef"[n]
  }

  function HexValue(c: char): Option<nat> {
    if '0' <= c <= '9' then Some((c - '0') as nat)
    else if 'a' <= c <= 'f' then Some((c - 'a') as nat + 10)
    else None
  }

  function EncodeByte(b: byte): string {
    if IsPathByte(b) then [b as char]
    else if b as char == PERCENT then [PERCENT, PERCENT]
    else [BACKSLASH, 'x', HexDigit(b / 16), HexDigit(b % 16)]
  }

  function EncodePath(bytes: seq<byte>): string {
    if bytes == [] then [] else EncodePath(bytes[..|bytes| - 1]) + EncodeByte(bytes[|bytes| - 1])
  }

  /** `utf8` is the encoding of strings. */
  method SystemdPath(value: string, utf8: string -> seq<byte>) returns (encoded: Result<string, ()>)
    ensures encoded == if HasControl(value) then Err(()) else Ok(EncodePath(utf8(value)))
  {
    if HasControl(value) {
      return Err(());
    }
    var bytes, out := utf8(value), [];
    for n := 0 to |bytes|
      invariant out == EncodePath(bytes[..n])
    {
      var b := bytes[n];
      assert bytes[..n + 1][..n] == bytes[..n];
      if IsPathByte(b) {
        out := out + [b as char];
      } else if b as char == PERCENT {
        out := out + [PERCENT, PERCENT];
      } else {
        out := out + [BACKSLASH, 'x', HexDigit(b / 16), HexDigit(b % 16)];
      }
    }
    assert bytes[..|bytes|] == bytes;
    encoded := Ok(out);
  }

  function Before(b: byte, rest: Option<seq<byte>>): Option<seq<byte>> {
    match rest
    case None => None
    case Some(bytes) => Some([b] + bytes)
  }

  function DecodePath(s: string): Option<seq<byte>> {
    if s == [] then Some([])
    else if s[0] == PERCENT then
      if |s| >= 2 && s[1] == PERCENT then Before(PERCENT as byte, DecodePath(s[2..])) else None
    else if s[0] == BACKSLASH then
      if |s| >= 4 && s[1] == 'x' && HexValue(s[2]).Some? && HexValue(s[3]).Some?
      then Before(16 * HexValue(s[2]).value + HexValue(s[3]).value, DecodePath(s[4..]))
      else None
    else if s[0] as int < 256 && IsPathByte(s[0] as byte) then Before(s[0] as byte, DecodePath(s[1..]))
    else None
  }

  lemma HexRoundTrip(n: nat)
    requires n < 16
    ensures HexValue(HexDigit(n)) == Some(n)
  {
  }

  lemma DecodeOne(b: byte, rest: string)
    ensures DecodePath(EncodeByte(b) + rest) == Before(b, DecodePath(rest))
  {
    var s := EncodeByte(b) + rest;
    if IsPathByte(b) {
      assert s[1..] == rest;
    } else if b as char == PERCENT {
      assert s[2..] == rest;
    } else {
      HexRoundTrip(b / 16);
      HexRoundTrip(b % 16);
      assert s[4..] == rest;
    }
  }

  function BeforeAll(bytes: seq<byte>, rest: Option<seq<byte>>): Option<seq<byte>> {
    match rest
    case None => None
    case Some(more) => Some(bytes + more)
  }

  lemma BeforeLast(front: seq<byte>, last: byte, rest: Option<seq<byte>>)
    ensures BeforeAll(front, Before(last, rest)) == BeforeAll(front + [last], rest)
  {
    if rest.Some? {
      assert front + ([last] + rest.value) == front + [last] + rest.value;
    }
  }

  lemma BeforeNone(rest: Option<seq<byte>>)
    ensures BeforeAll([], rest) == rest
  {
    if rest.Some? {
      assert [] + rest.value == rest.value;
    }
  }

  lemma EncodeLast(front: seq<byte>, last: byte, rest: string)
    ensures EncodePath(front + [last]) + rest == EncodePath(front) + (EncodeByte(last) + rest)
  {
    assert (front + [last])[..|front|] == front;
    assert EncodePath(front) + EncodeByte(last) + rest == EncodePath(front) + (EncodeByte(last) + rest);
  }

  lemma {:induction false} DecodeBehind(bytes: seq<byte>, rest: string)
    ensures DecodePath(EncodePath(bytes) + rest) == BeforeAll(bytes, DecodePath(rest))
  {
    if bytes == [] {
      assert EncodePath(bytes) + rest == rest;
      BeforeNone(DecodePath(rest));
    } else {
      var front, last := bytes[..|bytes| - 1], bytes[|bytes| - 1];
      assert front + [last] == bytes;
      EncodeLast(front, last, rest);
      DecodeBehind(front, EncodeByte(last) + rest);
      DecodeOne(last, rest);
      BeforeLast(front, last, DecodePath(rest));
    }
  }

  /** An escaped path decodes to its bytes. */
  lemma PathIsReadBack(bytes: seq<byte>)
    ensures DecodePath(EncodePath(bytes)) == Some(bytes)
  {
    DecodeBehind(bytes, []);
    assert EncodePath(bytes) + [] == EncodePath(bytes) && bytes + [] == bytes;
  }

  /** Different paths are written differently. */
  lemma PathsStayDistinct(a: seq<byte>, b: seq<byte>)
    requires EncodePath(a) == EncodePath(b)
    ensures a == b
  {
    PathIsReadBack(a);
    PathIsReadBack(b);
  }

  /** A character that may stand in an unquoted word of a unit file. */
  predicate IsWordSafe(c: char) {
    '!' <= c <= '~' && c != QUOTE && c != '\'' && c != ';' && c != '#' && c != '$'
  }

  lemma HexIsSafe(n: nat)
    requires n < 16
    ensures IsWordSafe(HexDigit(n))
  {
  }

  lemma ByteIsSafe(b: byte)
    ensures forall c <- EncodeByte(b) :: IsWordSafe(c)
  {
    HexIsSafe(b / 16);
    HexIsSafe(b % 16);
  }

  lemma {:induction false} EncodedIsSafe(bytes: seq<byte>)
    ensures forall c <- EncodePath(bytes) :: IsWordSafe(c)
  {
    if bytes != [] {
      EncodedIsSafe(bytes[..|bytes| - 1]);
      ByteIsSafe(bytes[|bytes| - 1]);
    }
  }

  /**
    An escaped path is one word of a unit file, without white space, quotes or comment signs; and an absolute path stays
    one that systemd sees as absolute.
   */
  lemma EncodedPathIsOneWord(bytes: seq<byte>)
    ensures forall c <- EncodePath(bytes) :: IsWordSafe(c)
    ensures bytes != [] ==>
              EncodePath(bytes) != [] && (EncodePath(bytes)[0] == '/' <==> bytes[0] == '/' as int)
  {
    EncodedIsSafe(bytes);
    if bytes != [] {
      EncodedStarts(bytes);
    }
  }

  lemma {:induction false} EncodedStarts(bytes: seq<byte>)
    requires bytes != []
    ensures EncodePath(bytes) != [] && EncodePath(bytes)[0] == EncodeByte(bytes[0])[0]
  {
    if |bytes| > 1 {
      EncodedStarts(bytes[..|bytes| - 1]);
    } else {
      assert bytes[..0] == [];
    }
  }

  // ---------------------------------------------------------------- service names

  predicate IsNameChar(c: char) {
    'a' <= c <= 'z' || '0' <= c <= '9' || c in {'.', '_', '-'}
  }

  /** ASCII letters in lower case, digits and `._-` as they are, a dash for anything else. */
  function NameChar(c: char): (r: char)
    ensures IsNameChar(r)
  {
    if 'A' <= c <= 'Z' then ((c as int) + 32) as char else if IsNameChar(c) then c else '-'
  }

  /** Runs of dashes become one. */
  function Collapsed(s: string): string {
    if s == [] then []
    else
      var front, c := Collapsed(s[..|s| - 1]), NameChar(s[|s| - 1]);
      if c == '-' && EndsInDash(front) then front else front + [c]
  }

  predicate EndsInDash(s: string) {
    s != [] && s[|s| - 1] == '-'
  }

  function TrimLeft(s: string): string {
    if s != [] && s[0] == '-' then TrimLeft(s[1..]) else s
  }

  function TrimRight(s: string): string {
    if EndsInDash(s) then TrimRight(s[..|s| - 1]) else s
  }

  const DEFAULT: string := "default"

  function Suffix(instanceId: string): string {
    var trimmed := TrimRight(TrimLeft(Collapsed(instanceId)));
    if trimmed == [] then DEFAULT else trimmed
  }

  method SanitizedServiceSuffix(instanceId: string) returns (suffix: string)
    ensures suffix == Suffix(instanceId)
  {
    suffix := [];
    var lastWasDash := false;
    for n := 0 to |instanceId|
      invariant suffix == Collapsed(instanceId[..n]) && lastWasDash == EndsInDash(suffix)
    {
      assert instanceId[..n + 1][..n] == instanceId[..n];
      var mapped := NameChar(instanceId[n]);
      if mapped == '-' {
        if lastWasDash {
          continue;
        }
        lastWasDash := true;
      } else {
        lastWasDash := false;
      }
      suffix := suffix + [mapped];
    }
    assert instanceId[..|instanceId|] == instanceId;
    suffix := TrimRight(TrimLeft(suffix));
    if suffix == [] {
      suffix := DEFAULT;
    }
  }

  predicate NoDoubleDash(s: string) {
    forall i | 0 <= i < |s| - 1 :: !(s[i] == '-' && s[i + 1] == '-')
  }

  /** A name that can be used as it is. */
  predicate CleanName(s: string) {
    && s != [] && s[0] != '-' && !EndsInDash(s)
    && (forall c <- s :: IsNameChar(c)) && NoDoubleDash(s)
  }

  lemma {:induction false} CollapsedIsPlain(s: string)
    ensures NoDoubleDash(Collapsed(s)) && forall c <- Collapsed(s) :: IsNameChar(c)
  {
    if s != [] {
      CollapsedIsPlain(s[..|s| - 1]);
    }
  }

  lemma {:induction false} TrimLeftKeeps(s: string)
    requires NoDoubleDash(s) && forall c <- s :: IsNameChar(c)
    ensures var t := TrimLeft(s);
            NoDoubleDash(t) && (forall c <- t :: IsNameChar(c)) && (t != [] ==> t[0] != '-')
  {
    if s != [] && s[0] == '-' {
      var rest := s[1..];
      forall i | 0 <= i < |rest| - 1 ensures !(rest[i] == '-' && rest[i + 1] == '-') {
        assert rest[i] == s[i + 1] && rest[i + 1] == s[i + 2];
      }
      TrimLeftKeeps(rest);
    }
  }

  lemma {:induction false} TrimRightKeeps(s: string)
    requires NoDoubleDash(s) && (forall c <- s :: IsNameChar(c)) && (s != [] ==> s[0] != '-')
    ensures var t := TrimRight(s); t != [] ==> CleanName(t)
  {
    if EndsInDash(s) {
      TrimRightKeeps(s[..|s| - 1]);
    }
  }

  /** Every instance id gives a clean name. */
  lemma SuffixIsClean(instanceId: string)
    ensures CleanName(Suffix(instanceId))
  {
    CollapsedIsPlain(instanceId);
    TrimLeftKeeps(Collapsed(instanceId));
    TrimRightKeeps(TrimLeft(Collapsed(instanceId)));
  }

  lemma {:induction false} CollapseKeepsClean(s: string)
    requires NoDoubleDash(s) && forall c <- s :: IsNameChar(c)
    ensures Collapsed(s) == s
  {
    if s != [] {
      var front, last := s[..|s| - 1], s[|s| - 1];
      assert last in s;
      CollapseKeepsClean(front);
      assert s == front + [last];
      assert |s| >= 2 ==> !(s[|s| - 2] == '-' && s[|s| - 2 + 1] == '-');
    }
  }

  /** Exactly the clean names are left alone; in particular sanitising twice is sanitising once. */
  lemma SuffixFixpoints(s: string)
    ensures Suffix(s) == s <==> CleanName(s)
    ensures Suffix(Suffix(s)) == Suffix(s)
  {
    SuffixIsClean(s);
    CollapseKeepsClean(Suffix(s));
    if CleanName(s) {
      CollapseKeepsClean(s);
    }
  }

  // ---------------------------------------------------------------- a name is its words

  /** A character that a name keeps, if only in lower case. */
  predicate IsWordChar(c: char) {
    'a' <= c <= 'z' || 'A' <= c <= 'Z' || '0' <= c <= '9' || c == '.' || c == '_'
  }

  function Lower(c: char): char {
    if 'A' <= c <= 'Z' then ('a' as int + (c as int - 'A' as int)) as char else c
  }

  predicate EndsInWord(s: string) {
    s != [] && IsWordChar(s[|s| - 1])
  }

  /** The longest runs of such characters, in lower case. */
  function Words(s: string): (words: seq<string>)
    ensures EndsInWord(s) ==> words != []
  {
    if s == [] then []
    else
      var front, words, c := s[..|s| - 1], Words(s[..|s| - 1]), s[|s| - 1];
      if !IsWordChar(c) then words
      else if EndsInWord(front) then words[..|words| - 1] + [words[|words| - 1] + [Lower(c)]]
      else words + [[Lower(c)]]
  }

  function Join(words: seq<string>): string {
    if words == [] then []
    else if |words| == 1 then words[0]
    else Join(words[..|words| - 1]) + ['-'] + words[|words| - 1]
  }

  lemma JoinSplits(words: seq<string>, last: string)
    ensures Join(words + [last]) == if words == [] then last else Join(words) + ['-'] + last
  {
    assert (words + [last])[..|words|] == words;
  }

  lemma JoinGrows(words: seq<string>, last: string, c: char)
    ensures Join(words + [last + [c]]) == Join(words + [last]) + [c]
  {
    JoinSplits(words, last);
    JoinSplits(words, last + [c]);
    assert Join(words) + ['-'] + (last + [c]) == Join(words) + ['-'] + last + [c];
  }

  lemma WordsStep(front: string, c: char)
    ensures var words := Words(front);
            Words(front + [c])
            == if !IsWordChar(c) then words
               else if EndsInWord(front) then words[..|words| - 1] + [words[|words| - 1] + [Lower(c)]]
               else words + [[Lower(c)]]
  {
    assert (front + [c])[..|front|] == front;
  }

  /** Before the ends are trimmed: a dash in front of the words, and one behind, where other characters stand there. */
  function Framed(s: string): string {
    Lead(s) + Body(Words(s), EndsInWord(s))
  }

  function Lead(s: string): string {
    if s != [] && !IsWordChar(s[0]) then ['-'] else []
  }

  function Body(words: seq<string>, inWord: bool): string {
    if words == [] then [] else Join(words) + (if inWord then [] else ['-'])
  }

  /** A character behind a name that has one before it. */
  lemma LeadStays(front: string, c: char)
    ensures Lead(front + [c]) == if front == [] then (if IsWordChar(c) then [] else ['-']) else Lead(front)
  {
  }

  lemma BodyGrows(words: seq<string>, c: char)
    requires words != []
    ensures Body(words[..|words| - 1] + [words[|words| - 1] + [c]], true) == Body(words, true) + [c]
  {
    var init, last := words[..|words| - 1], words[|words| - 1];
    assert words == init + [last];
    JoinGrows(init, last, c);
    assert Join(words) + [] == Join(words) && Join(words) + [c] + [] == Join(words) + [c];
  }

  lemma BodyStarts(words: seq<string>, c: char)
    ensures Body(words + [[c]], true) == Body(words, false) + [c]
  {
    JoinSplits(words, [c]);
  }

  /** The words of a name that ends in one end in the last character of that one. */
  lemma EndsInLastWord(s: string)
    requires EndsInWord(s)
    ensures Words(s) != [] && !EndsInDash(Lead(s) + Body(Words(s), true)) && Body(Words(s), true) != []
  {
    var front, c := s[..|s| - 1], s[|s| - 1];
    assert s == front + [c];
    WordsStep(front, c);
    if EndsInWord(front) {
      BodyGrows(Words(front), Lower(c));
    } else {
      BodyStarts(Words(front), Lower(c));
    }
  }

  lemma WordGoesOn(front: string, c: char)
    requires IsWordChar(c) && EndsInWord(front)
    ensures Framed(front + [c]) == Framed(front) + [Lower(c)]
  {
    var words := Words(front);
    WordsStep(front, c);
    LeadStays(front, c);
    BodyGrows(words, Lower(c));
    assert Lead(front) + (Body(words, true) + [Lower(c)]) == Lead(front) + Body(words, true) + [Lower(c)];
  }

  lemma WordStarts(front: string, c: char)
    requires IsWordChar(c) && !EndsInWord(front)
    ensures Framed(front + [c]) == Framed(front) + [Lower(c)]
  {
    var words := Words(front);
    WordsStep(front, c);
    LeadStays(front, c);
    BodyStarts(words, Lower(c));
    assert Lead(front) + (Body(words, false) + [Lower(c)]) == Lead(front) + Body(words, false) + [Lower(c)];
  }

  lemma GapStarts(front: string, c: char)
    requires !IsWordChar(c) && EndsInWord(front)
    ensures !EndsInDash(Framed(front)) && Framed(front + [c]) == Framed(front) + ['-']
  {
    var words := Words(front);
    EndsInLastWord(front);
    WordsStep(front, c);
    LeadStays(front, c);
    assert Body(words, false) == Body(words, true) + ['-'] by {
      assert Join(words) + [] == Join(words);
    }
    assert Lead(front) + (Body(words, true) + ['-']) == Lead(front) + Body(words, true) + ['-'];
  }

  lemma GapGoesOn(front: string, c: char)
    requires !IsWordChar(c) && front != [] && !EndsInWord(front) && (Words(front) == [] ==> !IsWordChar(front[0]))
    ensures EndsInDash(Framed(front)) && Framed(front + [c]) == Framed(front)
  {
    WordsStep(front, c);
    LeadStays(front, c);
    EndsOfBody(Lead(front), Words(front));
  }

  lemma EndsOfBody(lead: string, words: seq<string>)
    requires words == [] ==> lead == ['-']
    ensures EndsInDash(lead + Body(words, false))
  {
    if words == [] {
      assert lead + [] == lead;
    }
  }

  lemma GapIsFirst(c: char)
    requires !IsWordChar(c)
    ensures Framed([]) == [] && Framed([c]) == ['-']
  {
    WordsStep([], c);
    assert [] + [c] == [c];
  }

  lemma {:induction false} CollapsedIsFramed(s: string)
    ensures Collapsed(s) == Framed(s)
    ensures Words(s) == [] ==> forall c <- s :: !IsWordChar(c)
  {
    if s != [] {
      var front, c := s[..|s| - 1], s[|s| - 1];
      CollapsedIsFramed(front);
      assert s == front + [c];
      WordsStep(front, c);
      CharIsNamed(c);
      if IsWordChar(c) && EndsInWord(front) {
        WordGoesOn(front, c);
      } else if IsWordChar(c) {
        WordStarts(front, c);
      } else if EndsInWord(front) {
        GapStarts(front, c);
      } else if front != [] {
        assert front[0] in front;
        GapGoesOn(front, c);
      } else {
        GapIsFirst(c);
      }
    }
  }

  lemma CharIsNamed(c: char)
    ensures NameChar(c) == if IsWordChar(c) then Lower(c) else '-'
    ensures IsWordChar(c) ==> Lower(c) != '-'
  {
  }

  lemma {:induction false} WordsAreWords(s: string)
    ensures forall w <- Words(s) :: w != [] && '-' !in w
  {
    if s != [] {
      WordsAreWords(s[..|s| - 1]);
      CharIsNamed(s[|s| - 1]);
    }
  }

  lemma {:induction false} JoinStartsAndEnds(words: seq<string>)
    requires words != [] && forall w <- words :: w != [] && '-' !in w
    ensures var j := Join(words); j != [] && j[0] != '-' && !EndsInDash(j)
  {
    var last := words[|words| - 1];
    assert last in words && last[0] in last && last[|last| - 1] in last;
    if |words| > 1 {
      var front := words[..|words| - 1];
      assert |front| > 0 && forall w <- front :: w in words;
      JoinStartsAndEnds(front);
    }
  }

  lemma TrimsToTheMiddle(before: string, j: string, after: string)
    requires (before == [] || before == ['-']) && (after == [] || after == ['-'])
    requires j != [] && j[0] != '-' && !EndsInDash(j)
    ensures TrimRight(TrimLeft(before + j + after)) == j
  {
    assert before == ['-'] ==> (before + j + after)[1..] == j + after;
    assert TrimLeft(j + after) == j + after && TrimLeft(before + j + after) == j + after;
    assert after == ['-'] ==> (j + after)[..|j + after| - 1] == j;
    assert after == [] ==> j + after == j;
  }

  lemma FramedIsTrimmed(lead: string, words: seq<string>, inWord: bool)
    requires (lead == [] || lead == ['-']) && forall w <- words :: w != [] && '-' !in w
    ensures TrimRight(TrimLeft(lead + Body(words, inWord))) == Join(words)
  {
    if words == [] {
      assert lead + [] == lead && ['-'][1..] == [];
    } else {
      var after: string := if inWord then [] else ['-'];
      JoinStartsAndEnds(words);
      TrimsToTheMiddle(lead, Join(words), after);
      assert lead + (Join(words) + after) == lead + Join(words) + after;
    }
  }

  /**
    The service name of an instance is its words, the longest runs of ASCII letters, digits, dots and underscores, in
    lower case and joined by single dashes; without any word it is the default.
   */
  lemma SuffixJoinsTheWords(instanceId: string)
    ensures Suffix(instanceId) == if Words(instanceId) == [] then "default" else Join(Words(instanceId))
  {
    var words := Words(instanceId);
    CollapsedIsFramed(instanceId);
    WordsAreWords(instanceId);
    FramedIsTrimmed(Lead(instanceId), words, EndsInWord(instanceId));
    if words != [] {
      JoinStartsAndEnds(words);
    }
  }
}
