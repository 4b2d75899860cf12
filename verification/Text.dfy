/** Trimming and ordering of strings. */
module Text {
  /** Unicode White_Space. */
  predicate IsWhite(c: char) {
    || '\U{0009}' <= c <= '\U{000D}' || c == ' ' || c == '\U{0085}' || c == '\U{00A0}' || c == '\U{1680}'
    || '\U{2000}' <= c <= '\U{200A}' || c == '\U{2028}' || c == '\U{2029}' || c == '\U{202F}' || c == '\U{205F}'
    || c == '\U{3000}'
  }

  function TrimStart(s: string): (r: string)
    ensures |r| <= |s| && (r != [] ==> !IsWhite(r[0]))
    ensures s == s[..|s| - |r|] + r
  {
    if s != [] && IsWhite(s[0]) then TrimStart(s[1..]) else s
  }

  function TrimEnd(s: string): (r: string)
    ensures |r| <= |s| && (r != [] ==> !IsWhite(r[|r| - 1]))
    ensures s[..|r|] == r
  {
    if s != [] && IsWhite(s[|s| - 1]) then TrimEnd(s[..|s| - 1]) else s
  }

  function Trim(s: string): string {
    TrimEnd(TrimStart(s))
  }

  predicate Trimmed(s: string) {
    s == [] || (!IsWhite(s[0]) && !IsWhite(s[|s| - 1]))
  }

  lemma TrimIsTrimmed(s: string)
    ensures Trimmed(Trim(s))
  {
    var start := TrimStart(s);
    assert Trim(s) == start[..|Trim(s)|];
  }

  /** Trimming ends in a trimmed string, and changes nothing exactly when there was nothing to trim. */
  lemma TrimFixpoint(s: string)
    ensures Trimmed(Trim(s))
    ensures Trim(s) == s <==> Trimmed(s)
  {
    TrimIsTrimmed(s);
    if Trimmed(s) {
      assert TrimStart(s) == s && TrimEnd(s) == s;
    }
  }

  predicate AllWhite(s: string) {
    forall i | 0 <= i < |s| :: IsWhite(s[i])
  }

  lemma {:induction false} StartTakesOnlyWhite(s: string)
    ensures AllWhite(s[..|s| - |TrimStart(s)|])
  {
    if s != [] && IsWhite(s[0]) {
      StartTakesOnlyWhite(s[1..]);
      WhiteInFront(s, |s| - |TrimStart(s)|);
    }
  }

  lemma WhiteInFront(s: string, n: nat)
    requires 0 < n <= |s| && IsWhite(s[0]) && AllWhite(s[1..][..n - 1])
    ensures AllWhite(s[..n])
  {
    forall i | 0 <= i < n ensures IsWhite(s[i]) {
      assert i > 0 ==> s[i] == s[1..][..n - 1][i - 1];
    }
  }

  lemma {:induction false} EndTakesOnlyWhite(s: string)
    ensures AllWhite(s[|TrimEnd(s)|..])
  {
    if s != [] && IsWhite(s[|s| - 1]) {
      EndTakesOnlyWhite(s[..|s| - 1]);
      WhiteAtTheEnd(s, |TrimEnd(s)|);
    }
  }

  lemma WhiteAtTheEnd(s: string, n: nat)
    requires n < |s| && IsWhite(s[|s| - 1]) && AllWhite(s[..|s| - 1][n..])
    ensures AllWhite(s[n..])
  {
    forall i | n <= i < |s| ensures IsWhite(s[i]) {
      assert i < |s| - 1 ==> s[i] == s[..|s| - 1][n..][i - n];
    }
  }

  /** Trimming takes away white space at the two ends, and nothing else. */
  lemma TrimTakesOnlyWhite(s: string) returns (front: string, back: string)
    ensures s == front + Trim(s) + back && AllWhite(front) && AllWhite(back) && Trimmed(Trim(s))
  {
    StartTakesOnlyWhite(s);
    EndTakesOnlyWhite(TrimStart(s));
    TrimIsTrimmed(s);
    front, back := s[..|s| - |TrimStart(s)|], TrimStart(s)[|Trim(s)|..];
  }

  lemma PaddedIsUntrimmed(s: string)
    requires Trimmed(s) && s != []
    ensures !Trimmed([' '] + s) && Trim([' '] + s) == s
  {
    assert ([' '] + s)[1..] == s;
    TrimFixpoint(s);
  }

  // ---------------------------------------------------------------- lexicographic order

  ghost predicate StrictTotal<T(!new)>(lt: (T, T) -> bool) {
    && (forall a :: !lt(a, a))
    && (forall a, b :: a == b || lt(a, b) || lt(b, a))
    && (forall a, b, c :: lt(a, b) && lt(b, c) ==> lt(a, c))
  }

  predicate LexLt<T(==)>(lt: (T, T) -> bool, a: seq<T>, b: seq<T>) {
    b != [] && (a == [] || lt(a[0], b[0]) || (a[0] == b[0] && LexLt(lt, a[1..], b[1..])))
  }

  lemma {:induction false} LexIrreflexive<T(!new)>(lt: (T, T) -> bool, a: seq<T>)
    requires StrictTotal(lt)
    ensures !LexLt(lt, a, a)
  {
    if a != [] {
      LexIrreflexive(lt, a[1..]);
    }
  }

  lemma {:induction false} LexTotal<T(!new)>(lt: (T, T) -> bool, a: seq<T>, b: seq<T>)
    requires StrictTotal(lt)
    ensures a == b || LexLt(lt, a, b) || LexLt(lt, b, a)
  {
    if a != [] && b != [] && a[0] == b[0] {
      LexTotal(lt, a[1..], b[1..]);
      assert a == [a[0]] + a[1..] && b == [b[0]] + b[1..];
    }
  }

  lemma {:induction false} LexTransitive<T(!new)>(lt: (T, T) -> bool, a: seq<T>, b: seq<T>, c: seq<T>)
    requires StrictTotal(lt) && LexLt(lt, a, b) && LexLt(lt, b, c)
    ensures LexLt(lt, a, c)
  {
    if a != [] && a[0] == b[0] && b[0] == c[0] {
      LexTransitive(lt, a[1..], b[1..], c[1..]);
    }
  }

  /** At the first place where two sequences differ, the lesser one has ended or has the lesser element. */
  lemma {:induction false} LexLtExactly<T>(lt: (T, T) -> bool, front: seq<T>, a: seq<T>, b: seq<T>)
    requires forall x :: !lt(x, x)
    requires a == [] || b == [] || a[0] != b[0]
    ensures LexLt(lt, front + a, front + b) <==> b != [] && (a == [] || lt(a[0], b[0]))
  {
    if front == [] {
      assert front + a == a && front + b == b;
    } else {
      assert (front + a)[1..] == front[1..] + a && (front + b)[1..] == front[1..] + b;
      LexLtExactly(lt, front[1..], a, b);
    }
  }

  predicate CharLt(a: char, b: char) {
    a < b
  }

  /** The order of strings: by code points. */
  predicate Lt(a: string, b: string) {
    LexLt(CharLt, a, b)
  }

  lemma LtIrreflexive(a: string)
    ensures !Lt(a, a)
  {
    LexIrreflexive(CharLt, a);
  }

  lemma LtTotal(a: string, b: string)
    ensures a == b || Lt(a, b) || Lt(b, a)
  {
    LexTotal(CharLt, a, b);
  }

  lemma LtTransitive(a: string, b: string, c: string)
    requires Lt(a, b) && Lt(b, c)
    ensures Lt(a, c)
  {
    LexTransitive(CharLt, a, b, c);
  }

  // ---------------------------------------------------------------- file paths

  /** Paths are compared, and are equal, by their components. */
  datatype Component = Prefix(text: string) | RootDir | CurDir | ParentDir | Normal(name: string)

  type Path = seq<Component>

  function Rank(c: Component): nat {
    match c
    case Prefix(_) => 0
    case RootDir => 1
    case CurDir => 2
    case ParentDir => 3
    case Normal(_) => 4
  }

  predicate ComponentLt(a: Component, b: Component) {
    || Rank(a) < Rank(b)
    || (a.Prefix? && b.Prefix? && Lt(a.text, b.text))
    || (a.Normal? && b.Normal? && Lt(a.name, b.name))
  }

  predicate PathLt(a: Path, b: Path) {
    LexLt(ComponentLt, a, b)
  }

  lemma ComponentsAreOrdered()
    ensures StrictTotal(ComponentLt)
  {
    forall a: Component ensures !ComponentLt(a, a) {
      LtIrreflexive(if a.Prefix? then a.text else if a.Normal? then a.name else []);
    }
    forall a, b ensures a == b || ComponentLt(a, b) || ComponentLt(b, a) {
      if a.Prefix? && b.Prefix? {
        LtTotal(a.text, b.text);
      } else if a.Normal? && b.Normal? {
        LtTotal(a.name, b.name);
      }
    }
    forall a, b, c | ComponentLt(a, b) && ComponentLt(b, c) ensures ComponentLt(a, c) {
      if a.Prefix? && b.Prefix? && c.Prefix? {
        LtTransitive(a.text, b.text, c.text);
      } else if a.Normal? && b.Normal? && c.Normal? {
        LtTransitive(a.name, b.name, c.name);
      }
    }
  }

  lemma PathsAreOrdered(a: Path, b: Path)
    ensures !PathLt(a, a) && (a == b || PathLt(a, b) || PathLt(b, a))
  {
    ComponentsAreOrdered();
    LexIrreflexive(ComponentLt, a);
    LexTotal(ComponentLt, a, b);
  }

  lemma PathLtTransitive(a: Path, b: Path, c: Path)
    requires PathLt(a, b) && PathLt(b, c)
    ensures PathLt(a, c)
  {
    ComponentsAreOrdered();
    LexTransitive(ComponentLt, a, b, c);
  }
}
