/** The secret file, the store loaded from it, and the rotation of one secret. */
module Secrets {
  import opened Wrappers
  import opened Text

  type Entries = map<string, string>

  datatype Outcome = Done | InvalidValue | Unavailable | Unreadable | Unparsable | Unwritable | InvalidFile

  datatype File = Absent | Garbage | Holds(secrets: Entries)

  /** Whether reading and replacing the file work this time. */
  datatype World = World(read: bool, write: bool)

  datatype State = State(file: File, entries: Entries)

  // ---------------------------------------------------------------- keys

  predicate IsAlphanumeric(c: char) {
    'A' <= c <= 'Z' || 'a' <= c <= 'z' || '0' <= c <= '9'
  }

  function KeyChar(c: char): char {
    if !IsAlphanumeric(c) then '_' else if 'a' <= c <= 'z' then ((c as int) - 32) as char else c
  }

  function KeyChars(s: string): (r: string)
    ensures |r| == |s| && forall i | 0 <= i < |s| :: r[i] == KeyChar(s[i])
  {
    seq(|s|, i requires 0 <= i < |s| => KeyChar(s[i]))
  }

  function Normalize(key: string): string {
    KeyChars(Trim(key))
  }

  /** A key that is written in its normal form. */
  predicate IsNormal(key: string) {
    forall i | 0 <= i < |key| :: IsNormalChar(key[i])
  }

  predicate IsNormalChar(c: char) {
    'A' <= c <= 'Z' || '0' <= c <= '9' || c == '_'
  }

  lemma KeyCharsKeep(key: string)
    ensures IsNormal(KeyChars(key)) && (KeyChars(key) == key <==> IsNormal(key))
  {
    if IsNormal(key) {
      assert forall i | 0 <= i < |key| :: KeyChar(key[i]) == key[i];
    }
  }

  lemma NormalIsKept(key: string)
    requires IsNormal(key)
    ensures Normalize(key) == key
  {
    assert Trimmed(key);
    TrimFixpoint(key);
    KeyCharsKeep(key);
  }

  /** Exactly the keys in normal form are left alone; normalising twice is normalising once. */
  lemma NormalizeFixpoints(key: string)
    ensures Normalize(key) == key <==> IsNormal(key)
    ensures Normalize(Normalize(key)) == Normalize(key)
  {
    KeyCharsKeep(Trim(key));
    NormalIsKept(Normalize(key));
    if IsNormal(key) {
      NormalIsKept(key);
    }
  }

  predicate IsBlank(value: string) {
    Trim(value) == []
  }

  // ---------------------------------------------------------------- validating a file

  /** How keys are normalised and which values count as empty. */
  datatype Rules = Rules(normal: string -> string, blank: string -> bool)

  function ServiceRules(): Rules {
    Rules(Normalize, IsBlank)
  }

  ghost predicate Valid(rules: Rules, entries: Entries) {
    && (forall k <- entries :: rules.normal(k) != [] && !rules.blank(entries[k]))
    && (forall k <- entries, l <- entries | rules.normal(k) == rules.normal(l) :: k == l)
  }

  /** `index` holds every entry under its normalised key, and nothing else. */
  ghost predicate Indexes(rules: Rules, entries: Entries, index: Entries) {
    && (forall k <- entries :: rules.normal(k) in index && index[rules.normal(k)] == entries[k])
    && (forall n <- index :: exists k <- entries :: rules.normal(k) == n)
  }

  lemma IndexIsUnique(rules: Rules, entries: Entries, a: Entries, b: Entries)
    requires Indexes(rules, entries, a) && Indexes(rules, entries, b)
    ensures a == b
  {
    forall n | n in a ensures n in b && a[n] == b[n] {
      var k :| k in entries && rules.normal(k) == n;
    }
    forall n | n in b ensures n in a {
      var k :| k in entries && rules.normal(k) == n;
    }
  }

  /** Succeeds exactly on entries whose keys stay distinct and nonempty and whose values are not blank. */
  method ValidateSecretEntries(rules: Rules, entries: Entries) returns (ok: bool, secrets: Entries)
    ensures ok <==> Valid(rules, entries)
    ensures ok ==> Indexes(rules, entries, secrets)
  {
    secrets := map[];
    var todo := entries.Keys;
    while todo != {}
      invariant todo <= entries.Keys
      invariant forall k | k in entries && k !in todo ::
        rules.normal(k) != [] && !rules.blank(entries[k])
        && rules.normal(k) in secrets && secrets[rules.normal(k)] == entries[k]
      invariant forall k, l | k in entries && l in entries && k !in todo && l !in todo ::
        rules.normal(k) == rules.normal(l) ==> k == l
      invariant forall n <- secrets :: exists k :: k in entries && k !in todo && rules.normal(k) == n
      decreases |todo|
    {
      var raw :| raw in todo;
      var key := rules.normal(raw);
      if key == [] || rules.blank(entries[raw]) {
        return false, secrets;
      }
      if key in secrets {
        ghost var k :| k in entries && k !in todo && rules.normal(k) == key;
        assert k != raw;
        return false, secrets;
      }
      todo := todo - {raw};
      secrets := secrets[key := entries[raw]];
      assert raw in entries && raw !in todo && rules.normal(raw) == key;
    }
    ok := true;
  }

  // ---------------------------------------------------------------- rotation

  /** The entries without any spelling of a key, and the new value under its normal form. */
  function Replaced(rules: Rules, entries: Entries, key: string, value: string): Entries {
    (map k | k in entries && rules.normal(k) != key :: entries[k])[key := value]
  }

  /** The store after a rotation; the file is replaced before what it holds is validated. */
  ghost predicate Rotates(rules: Rules, s: State, hasPath: bool, key: string, value: string, w: World,
                          t: State, r: Outcome)
  {
    var k := rules.normal(key);
    if k == [] || rules.blank(value) then t == s && r == InvalidValue
    else if !hasPath then t == s && r == Unavailable
    else if s.file.Absent? || !w.read then t == s && r == Unreadable
    else if s.file.Garbage? then t == s && r == Unparsable
    else if !w.write then t == s && r == Unwritable
    else
      && t.file == Holds(Replaced(rules, s.file.secrets, k, value))
      && (r.Done? || (r.InvalidFile? && t.entries == s.entries))
      && (r.Done? <==> Valid(rules, t.file.secrets))
      && (r.Done? ==> Indexes(rules, t.file.secrets, t.entries))
  }

  class SecretStore {
    const rules: Rules
    const hasPath: bool
    var file: File
    var entries: Entries

    constructor (hasPath: bool, s: State)
      ensures this.hasPath == hasPath && Now() == s && rules == ServiceRules()
    {
      this.rules := ServiceRules();
      this.hasPath := hasPath;
      file, entries := s.file, s.entries;
    }

    function Now(): State
      reads this
    {
      State(file, entries)
    }

    /** With the file in step: the value of the entry of which `key` is a spelling, if there is one. */
    method Resolve(key: string) returns (value: Option<string>)
      ensures value == Lookup(rules, entries, key)
      ensures InSync(rules, Now()) ==>
                && (value.Some? <==> exists k <- file.secrets :: rules.normal(k) == rules.normal(key))
                && (forall k <- file.secrets | rules.normal(k) == rules.normal(key) :: value == Some(file.secrets[k]))
    {
      var normalized := rules.normal(key);
      if normalized in entries {
        return Some(entries[normalized]);
      }
      value := None;
    }

    method Rotate(key: string, value: string, w: World) returns (r: Outcome)
      modifies this
      ensures Rotates(rules, old(Now()), hasPath, key, value, w, Now(), r)
    {
      var normalized := rules.normal(key);
      if normalized == [] || rules.blank(value) {
        return InvalidValue;
      }
      if !hasPath {
        return Unavailable;
      }
      if file.Absent? || !w.read {
        return Unreadable;
      }
      if file.Garbage? {
        return Unparsable;
      }
      var secrets := map k | k in file.secrets && rules.normal(k) != normalized :: file.secrets[k];
      secrets := secrets[normalized := value];
      if !w.write {
        return Unwritable;
      }
      file := Holds(secrets);
      var ok, validated := ValidateSecretEntries(rules, secrets);
      if !ok {
        return InvalidFile;
      }
      entries := validated;
      r := Done;
    }
  }

  function Lookup(rules: Rules, entries: Entries, key: string): Option<string> {
    var k := rules.normal(key);
    if k in entries then Some(entries[k]) else None
  }

  // ---------------------------------------------------------------- rotation refines a map update

  ghost predicate Idempotent(rules: Rules) {
    forall k :: rules.normal(rules.normal(k)) == rules.normal(k)
  }

  lemma ServiceRulesAreIdempotent()
    ensures Idempotent(ServiceRules())
  {
    forall k ensures Normalize(Normalize(k)) == Normalize(k) {
      NormalizeFixpoints(k);
    }
  }

  /** Entries other than the spellings of the key keep or break validity; the new one never does. */
  lemma ReplacedIsValid(rules: Rules, entries: Entries, key: string, value: string)
    requires rules.normal(key) == key && key != [] && !rules.blank(value)
    ensures Valid(rules, Replaced(rules, entries, key, value))
       <==> Valid(rules, map k | k in entries && rules.normal(k) != key :: entries[k])
  {
    var others := map k | k in entries && rules.normal(k) != key :: entries[k];
    var next := Replaced(rules, entries, key, value);
    if Valid(rules, next) {
      assert forall k <- others :: k in next && next[k] == others[k];
    }
    if Valid(rules, others) {
      assert forall k <- next | k != key :: k in others && rules.normal(k) != key;
    }
  }

  lemma ReplacedIsIndexed(rules: Rules, entries: Entries, index: Entries, key: string, value: string)
    requires rules.normal(key) == key && Indexes(rules, entries, index)
    ensures Indexes(rules, Replaced(rules, entries, key, value), index[key := value])
  {
    var next := Replaced(rules, entries, key, value);
    assert key in next;
    forall n | n in index && n != key ensures exists k :: k in next && rules.normal(k) == n {
      var k :| k in entries && rules.normal(k) == n;
      assert k in next;
    }
  }

  /** Memory holds exactly what the file says, and the file is valid. */
  ghost predicate InSync(rules: Rules, s: State) {
    s.file.Holds? && Valid(rules, s.file.secrets) && Indexes(rules, s.file.secrets, s.entries)
  }

  lemma OthersStayValid(rules: Rules, entries: Entries, key: string)
    requires Valid(rules, entries)
    ensures Valid(rules, map k | k in entries && rules.normal(k) != key :: entries[k])
  {
  }

  /**
    From a valid file a rotation does one map update or nothing: it succeeds exactly when the request is acceptable
    and the file can be read and replaced, and file and memory stay in step either way.
   */
  lemma RotationIsUpdate(rules: Rules, s: State, hasPath: bool, key: string, value: string, w: World,
                         t: State, r: Outcome)
    requires Idempotent(rules) && InSync(rules, s) && Rotates(rules, s, hasPath, key, value, w, t, r)
    ensures InSync(rules, t)
    ensures r.Done? <==> rules.normal(key) != [] && !rules.blank(value) && hasPath && w.read && w.write
    ensures t.entries == if r.Done? then s.entries[rules.normal(key) := value] else s.entries
    ensures !r.Done? ==> t == s
  {
    var k := rules.normal(key);
    if k != [] && !rules.blank(value) && hasPath && w.read && w.write {
      OthersStayValid(rules, s.file.secrets, k);
      ReplacedIsValid(rules, s.file.secrets, k, value);
      ReplacedIsIndexed(rules, s.file.secrets, s.entries, k, value);
      IndexIsUnique(rules, t.file.secrets, t.entries, s.entries[k := value]);
    }
  }

  /** Every spelling of the rotated key resolves to the new value, every other key to what it did before. */
  lemma EverySpellingResolves(s: State, hasPath: bool, key: string, value: string, w: World, t: State, other: string)
    requires InSync(ServiceRules(), s) && Rotates(ServiceRules(), s, hasPath, key, value, w, t, Done)
    ensures Lookup(ServiceRules(), t.entries, other)
         == if Normalize(other) == Normalize(key) then Some(value) else Lookup(ServiceRules(), s.entries, other)
  {
    ServiceRulesAreIdempotent();
    RotationIsUpdate(ServiceRules(), s, hasPath, key, value, w, t, Done);
  }

  /**
    On any readable file, valid or not, a rotation that gets to write succeeds exactly when the entries of other keys
    are valid. Otherwise it fails with the new file already in place and memory as it was.
   */
  lemma InvalidFileIsWrittenAnyway(rules: Rules, s: State, key: string, value: string, w: World, t: State, r: Outcome)
    requires Idempotent(rules) && s.file.Holds? && w.read && w.write
    requires rules.normal(key) != [] && !rules.blank(value) && Rotates(rules, s, true, key, value, w, t, r)
    ensures var k := rules.normal(key);
            r.Done? <==> Valid(rules, map c | c in s.file.secrets && rules.normal(c) != k :: s.file.secrets[c])
    ensures t.file.Holds? && rules.normal(key) in t.file.secrets && t.file.secrets[rules.normal(key)] == value
    ensures !r.Done? ==> r.InvalidFile? && t.entries == s.entries
  {
    ReplacedIsValid(rules, s.file.secrets, rules.normal(key), value);
  }

  // ---------------------------------------------------------------- runs

  datatype Rotation = Rotation(key: string, value: string, w: World, outcome: Outcome)

  ghost predicate IsRun(rules: Rules, hasPath: bool, states: seq<State>, ops: seq<Rotation>) {
    && |states| == |ops| + 1
    && forall n | 0 <= n < |ops| ::
         Rotates(rules, states[n], hasPath, ops[n].key, ops[n].value, ops[n].w, states[n + 1], ops[n].outcome)
  }

  /** The successful rotations, applied in order as map updates. */
  function Updated(rules: Rules, entries: Entries, ops: seq<Rotation>): Entries {
    if ops == [] then entries
    else
      var before, op := Updated(rules, entries, ops[..|ops| - 1]), ops[|ops| - 1];
      if op.outcome.Done? then before[rules.normal(op.key) := op.value] else before
  }

  /** Over any run, with any faults, memory is the start updated by the rotations that reported success. */
  lemma {:induction false} RunIsUpdates(rules: Rules, hasPath: bool, states: seq<State>, ops: seq<Rotation>)
    requires Idempotent(rules) && IsRun(rules, hasPath, states, ops) && InSync(rules, states[0])
    ensures InSync(rules, states[|ops|])
    ensures states[|ops|].entries == Updated(rules, states[0].entries, ops)
  {
    if ops != [] {
      var last := |ops| - 1;
      assert IsRun(rules, hasPath, states[..last + 1], ops[..last]);
      RunIsUpdates(rules, hasPath, states[..last + 1], ops[..last]);
      RotationIsUpdate(rules, states[last], hasPath, ops[last].key, ops[last].value, ops[last].w, states[last + 1],
                       ops[last].outcome);
    }
  }

  // ---------------------------------------------------------------- spellings

  predicate IsLetter(c: char) {
    'A' <= c <= 'Z' || 'a' <= c <= 'z'
  }

  /** The place of an ASCII letter in the alphabet. */
  function Place(c: char): int
    requires IsLetter(c)
  {
    if c <= 'Z' then c as int - 'A' as int else c as int - 'a' as int
  }

  /** The same letter in any case, the same digit, or two characters that are neither. */
  predicate SpeltAlike(c: char, d: char) {
    || c == d
    || (IsLetter(c) && IsLetter(d) && Place(c) == Place(d))
    || (!IsAlphanumeric(c) && !IsAlphanumeric(d))
  }

  predicate AllAlike(a: string, b: string) {
    |a| == |b| && forall i | 0 <= i < |a| :: SpeltAlike(a[i], b[i])
  }

  lemma AlikeExactly(c: char, d: char)
    ensures KeyChar(c) == KeyChar(d) <==> SpeltAlike(c, d)
  {
  }

  lemma KeyCharsAlike(a: string, b: string)
    ensures KeyChars(a) == KeyChars(b) <==> AllAlike(a, b)
  {
    forall i | 0 <= i < |a| && i < |b| ensures KeyChar(a[i]) == KeyChar(b[i]) <==> SpeltAlike(a[i], b[i]) {
      AlikeExactly(a[i], b[i]);
    }
    if KeyChars(a) == KeyChars(b) {
      forall i | 0 <= i < |a| ensures SpeltAlike(a[i], b[i]) {
        assert KeyChars(a)[i] == KeyChars(b)[i];
      }
    }
  }

  /**
    Two keys have the same normal form exactly when, apart from white space around them, they agree character by
    character up to the case of letters and up to what is neither letter nor digit.
   */
  lemma SpellingsExactly(a: string, b: string)
    ensures Normalize(a) == Normalize(b) <==> AllAlike(Trim(a), Trim(b))
  {
    KeyCharsAlike(Trim(a), Trim(b));
  }

  /** The normal form is itself a spelling, in upper case letters, digits and underscores only. */
  lemma NormalFormIsASpelling(key: string)
    ensures AllAlike(Normalize(key), Trim(key)) && IsNormal(Normalize(key))
  {
    KeyCharsKeep(Trim(key));
    forall i | 0 <= i < |Trim(key)| ensures SpeltAlike(KeyChar(Trim(key)[i]), Trim(key)[i]) {
      AlikeExactly(KeyChar(Trim(key)[i]), Trim(key)[i]);
    }
  }
}
