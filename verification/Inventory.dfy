/** The plugin inventory: what the scan keeps of the artifacts it accepted. */
module Inventory {
  import opened Text
  import opened Grouping

  datatype Deployment = Builtin | Abi | Wasm | Process | Python

  /** `surface` is the business surface the manifest declares. */
  datatype Record = Record(manifestPath: Path, pluginId: string, deployment: Deployment, surface: string)

  datatype Key = Key(pluginId: string, deployment: string)

  datatype Diagnostic = Diagnostic(manifestPath: Path, pluginId: string, deployment: Deployment)

  function DebugName(d: Deployment): string {
    match d
    case Builtin => "Builtin"
    case Abi => "Abi"
    case Wasm => "Wasm"
    case Process => "Process"
    case Python => "Python"
  }

  function CandidateKey(r: Record): Key {
    Key(r.pluginId, DebugName(r.deployment))
  }

  predicate KeyLt(a: Key, b: Key) {
    Lt(a.pluginId, b.pluginId) || (a.pluginId == b.pluginId && Lt(a.deployment, b.deployment))
  }

  /** The order of the scan's sort: by key, then by manifest path. */
  predicate RecordLe(a: Record, b: Record) {
    || KeyLt(CandidateKey(a), CandidateKey(b))
    || (CandidateKey(a) == CandidateKey(b) && !PathLt(b.manifestPath, a.manifestPath))
  }

  lemma KeyLtTransitive(a: Key, b: Key, c: Key)
    requires KeyLt(a, b) && KeyLt(b, c)
    ensures KeyLt(a, c)
  {
    if Lt(a.pluginId, b.pluginId) && Lt(b.pluginId, c.pluginId) {
      LtTransitive(a.pluginId, b.pluginId, c.pluginId);
    } else if a.pluginId == b.pluginId && b.pluginId == c.pluginId {
      LtTransitive(a.deployment, b.deployment, c.deployment);
    }
  }

  lemma KeyLtIsStrict()
    ensures StrictOrder(KeyLt)
  {
    forall a: Key ensures !KeyLt(a, a) {
      LtIrreflexive(a.pluginId);
      LtIrreflexive(a.deployment);
    }
    forall a, b, c | KeyLt(a, b) && KeyLt(b, c) ensures KeyLt(a, c) {
      KeyLtTransitive(a, b, c);
    }
  }

  lemma RecordLeTransitive(a: Record, b: Record, c: Record)
    requires RecordLe(a, b) && RecordLe(b, c)
    ensures RecordLe(a, c)
  {
    var ka, kb, kc := CandidateKey(a), CandidateKey(b), CandidateKey(c);
    if KeyLt(ka, kb) && KeyLt(kb, kc) {
      KeyLtTransitive(ka, kb, kc);
    }
    if ka == kb && kb == kc && PathLt(c.manifestPath, a.manifestPath) {
      PathsAreOrdered(a.manifestPath, b.manifestPath);
      if PathLt(a.manifestPath, b.manifestPath) {
        PathLtTransitive(c.manifestPath, a.manifestPath, b.manifestPath);
      }
    }
  }

  lemma PathLtAsymmetric(a: Path, b: Path)
    ensures !(PathLt(a, b) && PathLt(b, a))
  {
    if PathLt(a, b) && PathLt(b, a) {
      PathLtTransitive(a, b, a);
      PathsAreOrdered(a, a);
    }
  }

  lemma RecordLeTotal(a: Record, b: Record)
    ensures RecordLe(a, b) || RecordLe(b, a)
  {
    LtTotal(a.pluginId, b.pluginId);
    LtTotal(DebugName(a.deployment), DebugName(b.deployment));
    PathLtAsymmetric(a.manifestPath, b.manifestPath);
  }

  lemma RecordLeIsPreorder()
    ensures TotalPreorder(RecordLe)
  {
    forall a, b ensures RecordLe(a, b) || RecordLe(b, a) {
      RecordLeTotal(a, b);
    }
    forall a, b, c | RecordLe(a, b) && RecordLe(b, c) ensures RecordLe(a, c) {
      RecordLeTransitive(a, b, c);
    }
  }

  function Report(r: Record): Diagnostic {
    Diagnostic(r.manifestPath, r.pluginId, r.deployment)
  }

  /** Kept records and duplicate reports for the accepted artifacts. */
  function Kept(accepted: seq<Record>): seq<Record> {
    Singles(CandidateKey, Sorted(RecordLe, accepted))
  }

  function Reported(accepted: seq<Record>): seq<Diagnostic> {
    Keys(Report, Leaders(CandidateKey, Sorted(RecordLe, accepted)))
  }

  /** The tail of the scan: sort, walk the runs of one key, keep the lone records, report the others. */
  method KeepUnique(accepted: seq<Record>) returns (records: seq<Record>, diagnostics: seq<Diagnostic>)
    ensures records == Kept(accepted) && diagnostics == Reported(accepted)
  {
    var sorted := Sorted(RecordLe, accepted);
    var leaders: seq<Record>;
    records, leaders := SplitRuns(CandidateKey, sorted);
    diagnostics := Keys(Report, leaders);
  }

  lemma SortedRises(accepted: seq<Record>)
    ensures var sorted := Sorted(RecordLe, accepted);
            Rising(KeyLt, CandidateKey, sorted) && multiset(sorted) == multiset(accepted)
  {
    RecordLeIsPreorder();
    SortedIsOrdered(RecordLe, accepted);
  }

  /** An artifact is kept exactly when no other accepted artifact has its key, and kept keys strictly rise. */
  lemma KeptExactly(accepted: seq<Record>, r: Record)
    ensures r in Kept(accepted) <==> r in accepted && Count(CandidateKey, accepted, CandidateKey(r)) == 1
    ensures StrictlyRising(KeyLt, CandidateKey, Kept(accepted))
  {
    var sorted := Sorted(RecordLe, accepted);
    SortedRises(accepted);
    KeyLtIsStrict();
    SingleExactly(KeyLt, CandidateKey, sorted, r);
    SinglesRise(KeyLt, CandidateKey, sorted);
    CountSame(CandidateKey, sorted, accepted, CandidateKey(r));
    assert r in sorted <==> r in multiset(sorted);
    assert r in accepted <==> r in multiset(accepted);
  }

  predicate SamePlugin(a: Record, b: Record) {
    a.pluginId == b.pluginId && a.deployment == b.deployment
  }

  /** In other words: no other artifact accepted is for the same plugin and deployment. */
  lemma KeptIfAlone(accepted: seq<Record>, i: nat)
    requires i < |accepted|
    ensures accepted[i] in Kept(accepted) <==>
              forall j | 0 <= j < |accepted| && j != i :: !SamePlugin(accepted[j], accepted[i])
    ensures forall r <- Kept(accepted) :: r in accepted
  {
    KeptExactly(accepted, accepted[i]);
    CountAt(CandidateKey, accepted, i);
    forall j | 0 <= j < |accepted|
      ensures CandidateKey(accepted[j]) == CandidateKey(accepted[i]) <==> SamePlugin(accepted[j], accepted[i])
    {
      DebugNamesDiffer(accepted[j].deployment, accepted[i].deployment);
    }
    forall r | r in Kept(accepted) ensures r in accepted {
      KeptExactly(accepted, r);
    }
  }

  function KeyOf(d: Diagnostic): Key {
    Key(d.pluginId, DebugName(d.deployment))
  }

  /** Every key is reported exactly when it is carried by more than one artifact, and then once. */
  lemma ReportedExactly(accepted: seq<Record>, k: Key)
    ensures (exists d <- Reported(accepted) :: KeyOf(d) == k) <==> Count(CandidateKey, accepted, k) >= 2
    ensures StrictlyRising(KeyLt, KeyOf, Reported(accepted))
  {
    var sorted := Sorted(RecordLe, accepted);
    var leaders := Leaders(CandidateKey, sorted);
    SortedRises(accepted);
    KeyLtIsStrict();
    CountSame(CandidateKey, sorted, accepted, k);
    LeadersRise(KeyLt, CandidateKey, sorted);
    if Count(CandidateKey, sorted, k) >= 2 {
      var l := RepeatedHasLeader(KeyLt, CandidateKey, sorted, k);
      var i :| 0 <= i < |leaders| && leaders[i] == l;
      assert Reported(accepted)[i] in Reported(accepted) && KeyOf(Reported(accepted)[i]) == k;
    }
    if d :| d in Reported(accepted) && KeyOf(d) == k {
      var i :| 0 <= i < |leaders| && Report(leaders[i]) == d;
      LeaderIsRepeated(KeyLt, CandidateKey, sorted, leaders[i]);
    }
  }

  // ---------------------------------------------------------------- the scan order does not matter

  lemma SourceOf(accepted: seq<Record>, d: Diagnostic) returns (x: Record)
    requires d in Reported(accepted)
    ensures x in accepted && Report(x) == d
  {
    var leaders := Leaders(CandidateKey, Sorted(RecordLe, accepted));
    SortedRises(accepted);
    KeyLtIsStrict();
    var n :| 0 <= n < |leaders| && Report(leaders[n]) == d;
    x := leaders[n];
    LeaderIsRepeated(KeyLt, CandidateKey, Sorted(RecordLe, accepted), x);
    assert x in multiset(accepted);
  }

  /** A report names the smallest manifest path among the artifacts of its key. */
  lemma ReportedPathIsLeast(accepted: seq<Record>, d: Diagnostic, r: Record)
    requires d in Reported(accepted) && r in accepted && CandidateKey(r) == KeyOf(d)
    ensures !PathLt(r.manifestPath, d.manifestPath)
  {
    var sorted := Sorted(RecordLe, accepted);
    var leaders := Leaders(CandidateKey, sorted);
    SortedRises(accepted);
    KeyLtIsStrict();
    RecordLeIsPreorder();
    SortedIsOrdered(RecordLe, accepted);
    var n :| 0 <= n < |leaders| && Report(leaders[n]) == d;
    assert r in multiset(sorted);
    LeaderIsLeast(RecordLe, KeyLt, CandidateKey, sorted, leaders[n], r);
    PathsAreOrdered(r.manifestPath, r.manifestPath);
    KeyLtIrreflexive(KeyOf(d));
  }

  lemma RepeatedHasReport(accepted: seq<Record>, i: nat, j: nat) returns (d: Diagnostic)
    requires i < |accepted| && j < |accepted| && i != j && CandidateKey(accepted[j]) == CandidateKey(accepted[i])
    ensures d in Reported(accepted) && KeyOf(d) == CandidateKey(accepted[i])
  {
    var k := CandidateKey(accepted[i]);
    CountAt(CandidateKey, accepted, i);
    ReportedExactly(accepted, k);
    d :| d in Reported(accepted) && KeyOf(d) == k;
  }

  /**
    An artifact for whose plugin and deployment there is another one is reported: with the least manifest path among
    those artifacts, which is the path of one of them.
   */
  lemma RepeatedIsReported(accepted: seq<Record>, i: nat, j: nat) returns (d: Diagnostic, x: Record)
    requires i < |accepted| && j < |accepted| && i != j && SamePlugin(accepted[i], accepted[j])
    ensures d in Reported(accepted) && x in accepted && SamePlugin(x, accepted[i])
    ensures d == Diagnostic(x.manifestPath, accepted[i].pluginId, accepted[i].deployment)
    ensures forall r <- accepted | SamePlugin(r, accepted[i]) :: !PathLt(r.manifestPath, d.manifestPath)
  {
    d := RepeatedHasReport(accepted, i, j);
    x := SourceOf(accepted, d);
    DebugNamesDiffer(x.deployment, accepted[i].deployment);
    forall r | r in accepted && SamePlugin(r, accepted[i]) ensures !PathLt(r.manifestPath, d.manifestPath) {
      ReportedPathIsLeast(accepted, d, r);
    }
  }

  lemma KeyLtIrreflexive(k: Key)
    ensures !KeyLt(k, k)
  {
    KeyLtIsStrict();
  }

  lemma DiagnosticsDetermined(a: seq<Record>, b: seq<Record>, d: Diagnostic)
    requires multiset(a) == multiset(b) && d in Reported(a)
    ensures d in Reported(b)
  {
    ReportedExactly(a, KeyOf(d));
    ReportedExactly(b, KeyOf(d));
    CountSame(CandidateKey, a, b, KeyOf(d));
    var e :| e in Reported(b) && KeyOf(e) == KeyOf(d);
    var x := SourceOf(a, d);
    var y := SourceOf(b, e);
    assert y in multiset(a) && x in multiset(b);
    ReportedPathIsLeast(a, d, y);
    ReportedPathIsLeast(b, e, x);
    PathsAreOrdered(d.manifestPath, e.manifestPath);
    DebugNamesDiffer(d.deployment, e.deployment);
  }

  lemma DebugNamesDiffer(d: Deployment, e: Deployment)
    ensures DebugName(d) == DebugName(e) <==> d == e
  {
    assert DebugName(d)[0] == DebugName(e)[0] && DebugName(d)[1] == DebugName(e)[1] ==> d == e;
  }

  /** Records and reports depend on which artifacts were accepted, not on the order of enumeration. */
  lemma ScanIgnoresOrder(a: seq<Record>, b: seq<Record>)
    requires multiset(a) == multiset(b)
    ensures Kept(a) == Kept(b) && Reported(a) == Reported(b)
  {
    forall r ensures r in Kept(a) <==> r in Kept(b) {
      KeptExactly(a, r);
      KeptExactly(b, r);
      CountSame(CandidateKey, a, b, CandidateKey(r));
      assert r in multiset(a) <==> r in multiset(b);
    }
    SameByKey(CandidateKey, Kept(a), Kept(b)) by {
      KeptExactly(a, Record([], "", Builtin, ""));
      KeptExactly(b, Record([], "", Builtin, ""));
    }
    forall d ensures d in Reported(a) <==> d in Reported(b) {
      if d in Reported(a) {
        DiagnosticsDetermined(a, b, d);
      }
      if d in Reported(b) {
        DiagnosticsDetermined(b, a, d);
      }
    }
    SameByKey(KeyOf, Reported(a), Reported(b)) by {
      ReportedExactly(a, Key("", ""));
      ReportedExactly(b, Key("", ""));
    }
  }

  lemma SameByKey<T(!new)>(key: T -> Key, a: seq<T>, b: seq<T>)
    requires StrictlyRising(KeyLt, key, a) && StrictlyRising(KeyLt, key, b)
    requires forall x :: x in a <==> x in b
    ensures a == b
  {
    KeyLtIsStrict();
    var lt := (x: T, y: T) => KeyLt(key(x), key(y));
    assert StrictOrder(lt);
    SameElementsSameSequence(lt, a, b);
  }
}
