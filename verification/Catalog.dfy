/** Picking one artifact for every enabled plugin. */
module Catalog {
  import opened Wrappers
  import opened Text
  import opened Inventory

  datatype Selection = Selection(id: string, enabled: bool)

  type Preferences = map<string, Deployment>

  /** `NoBuiltin` is the ambiguity raised by the branch for builtin and ABI candidates only. */
  datatype Reason =
    | Unavailable
    | DeploymentUnavailable(deployment: Deployment)
    | Ambiguous
    | NoBuiltin
    | SurfaceMismatch

  datatype ResolveError = ResolveError(pluginId: string, reason: Reason)

  function Candidates(records: seq<Record>, id: string): seq<Record> {
    if records == [] then []
    else if records[0].pluginId == id then [records[0]] + Candidates(records[1..], id)
    else Candidates(records[1..], id)
  }

  /** The first candidate of a deployment. */
  function Find(candidates: seq<Record>, d: Deployment): (r: Option<Record>)
    ensures r.Some? ==> r.value in candidates && r.value.deployment == d
  {
    if candidates == [] then None
    else if candidates[0].deployment == d then Some(candidates[0])
    else Find(candidates[1..], d)
  }

  predicate BuiltinOrAbi(candidates: seq<Record>) {
    forall r <- candidates :: r.deployment.Builtin? || r.deployment.Abi?
  }

  function Choose(candidates: seq<Record>, preferred: Option<Deployment>): Result<Record, Reason>
    requires candidates != []
  {
    if preferred.Some? then
      match Find(candidates, preferred.value)
      case Some(record) => Ok(record)
      case None => Err(DeploymentUnavailable(preferred.value))
    else if |candidates| == 1 then Ok(candidates[0])
    else if BuiltinOrAbi(candidates) then
      match Find(candidates, Builtin)
      case Some(record) => Ok(record)
      case None => Err(NoBuiltin)
    else Err(Ambiguous)
  }

  /** What one plugin's candidates resolve to. */
  function Pick(candidates: seq<Record>, preferred: Option<Deployment>): Result<Record, Reason> {
    if candidates == [] then Err(Unavailable)
    else match Choose(candidates, preferred)
      case Err(reason) => Err(reason)
      case Ok(chosen) =>
        var builtin := Find(candidates, Builtin);
        if !chosen.deployment.Builtin? && builtin.Some? && builtin.value.surface != chosen.surface
        then Err(SurfaceMismatch)
        else Ok(chosen)
  }

  function Preferred(preferences: Preferences, id: string): Option<Deployment> {
    if id in preferences then Some(preferences[id]) else None
  }

  function ResolveOne(records: seq<Record>, id: string, preferences: Preferences): Result<Record, Reason> {
    Pick(Candidates(records, id), Preferred(preferences, id))
  }

  /** The ids to resolve: those of the enabled selections, trimmed, in order. */
  function EnabledIds(selections: seq<Selection>): seq<string> {
    if selections == [] then []
    else if selections[0].enabled then [Trim(selections[0].id)] + EnabledIds(selections[1..])
    else EnabledIds(selections[1..])
  }

  function Prepend(selected: seq<Record>, rest: Result<seq<Record>, ResolveError>): Result<seq<Record>, ResolveError> {
    match rest
    case Ok(more) => Ok(selected + more)
    case Err(error) => Err(error)
  }

  /** The first refusal wins. */
  function Joined(id: string, one: Result<Record, Reason>, rest: Result<seq<Record>, ResolveError>)
    : Result<seq<Record>, ResolveError>
  {
    match one
    case Err(reason) => Err(ResolveError(id, reason))
    case Ok(first) => Prepend([first], rest)
  }

  /** One record per id, in order, or the first error. */
  function ResolveAll(records: seq<Record>, ids: seq<string>, preferences: Preferences)
    : Result<seq<Record>, ResolveError>
  {
    if ids == [] then Ok([])
    else Joined(ids[0], ResolveOne(records, ids[0], preferences), ResolveAll(records, ids[1..], preferences))
  }

  function ResolveCatalog(records: seq<Record>, selections: seq<Selection>, preferences: Preferences)
    : Result<seq<Record>, ResolveError>
  {
    ResolveAll(records, EnabledIds(selections), preferences)
  }

  lemma PrependOne(selected: seq<Record>, first: Record, rest: Result<seq<Record>, ResolveError>)
    ensures Prepend(selected, Prepend([first], rest)) == Prepend(selected + [first], rest)
  {
    if rest.Ok? {
      assert selected + ([first] + rest.value) == selected + [first] + rest.value;
    }
  }

  lemma NothingToPrepend(rest: Result<seq<Record>, ResolveError>)
    ensures Prepend([], rest) == rest
  {
    if rest.Ok? {
      assert [] + rest.value == rest.value;
    }
  }

  lemma EnabledStep(selections: seq<Selection>, n: nat)
    requires n < |selections|
    ensures EnabledIds(selections[n..])
         == (if selections[n].enabled then [Trim(selections[n].id)] + EnabledIds(selections[n + 1..])
             else EnabledIds(selections[n + 1..]))
  {
    assert selections[n..][1..] == selections[n + 1..];
  }

  lemma ResolveStep(records: seq<Record>, id: string, later: seq<string>, preferences: Preferences)
    ensures ResolveAll(records, [id] + later, preferences)
         == Joined(id, ResolveOne(records, id, preferences), ResolveAll(records, later, preferences))
  {
    assert ([id] + later)[1..] == later;
  }

  lemma {:induction false} EnabledIdsJoin(a: seq<Selection>, b: seq<Selection>)
    ensures EnabledIds(a + b) == EnabledIds(a) + EnabledIds(b)
  {
    if a == [] {
      assert a + b == b;
    } else {
      EnabledIdsJoin(a[1..], b);
      assert (a + b)[1..] == a[1..] + b && (a + b)[0] == a[0];
    }
  }

  lemma OneEnabledId(one: Selection)
    ensures EnabledIds([one]) == if one.enabled then [Trim(one.id)] else []
  {
    assert [one][1..] == [];
    assert one.enabled ==> [Trim(one.id)] + [] == [Trim(one.id)];
  }

  /** An enabled selection puts its trimmed id between those before and after it, any other puts nothing there. */
  lemma EnabledIdsExactly(before: seq<Selection>, one: Selection, after: seq<Selection>)
    ensures EnabledIds(before + [one] + after)
         == EnabledIds(before) + (if one.enabled then [Trim(one.id)] else []) + EnabledIds(after)
  {
    OneEnabledId(one);
    EnabledIdsJoin(before + [one], after);
    EnabledIdsJoin(before, [one]);
  }

  method Resolve(records: seq<Record>, selections: seq<Selection>, preferences: Preferences)
    returns (catalog: Result<seq<Record>, ResolveError>)
    ensures catalog == ResolveCatalog(records, selections, preferences)
  {
    var selected: seq<Record> := [];
    ghost var ids := EnabledIds(selections);
    ghost var whole := ResolveAll(records, ids, preferences);
    assert selections[0..] == selections;
    NothingToPrepend(whole);
    for n := 0 to |selections|
      invariant ids == EnabledIds(selections[n..])
      invariant whole == Prepend(selected, ResolveAll(records, ids, preferences))
    {
      EnabledStep(selections, n);
      ids := EnabledIds(selections[n + 1..]);
      if selections[n].enabled {
        var id := Trim(selections[n].id);
        ResolveStep(records, id, ids, preferences);
        var chosen := ResolveOne(records, id, preferences);
        if chosen.Err? {
          return Err(ResolveError(id, chosen.error));
        }
        PrependOne(selected, chosen.value, ResolveAll(records, ids, preferences));
        selected := selected + [chosen.value];
      }
    }
    assert ids == [] && selected + [] == selected;
    catalog := Ok(selected);
  }

  // ---------------------------------------------------------------- when it succeeds

  /** What scanning guarantees: one artifact per plugin and deployment. */
  ghost predicate DistinctKeys(records: seq<Record>) {
    forall i, j | 0 <= i < j < |records| ::
      records[i].pluginId != records[j].pluginId || records[i].deployment != records[j].deployment
  }

  lemma ScanGivesDistinctKeys(accepted: seq<Record>)
    ensures DistinctKeys(Kept(accepted))
  {
    var records := Kept(accepted);
    KeptExactly(accepted, Record([], "", Builtin, ""));
    forall i, j | 0 <= i < j < |records|
      ensures records[i].pluginId != records[j].pluginId || records[i].deployment != records[j].deployment
    {
      assert KeyLt(CandidateKey(records[i]), CandidateKey(records[j]));
      KeyLtIrreflexive(CandidateKey(records[i]));
    }
  }

  function Artifacts(records: seq<Record>, id: string): set<Record> {
    set r | r in records && r.pluginId == id
  }

  /**
    Which of a plugin's artifacts may be chosen. With a preference: the one of that deployment. Without: the only
    one, or the builtin when the others are ABI. Never one whose surface differs from the builtin's.
   */
  ghost predicate Eligible(artifacts: set<Record>, preferred: Option<Deployment>, r: Record) {
    && r in artifacts
    && (preferred.Some? ==> r.deployment == preferred.value)
    && (preferred.None? ==>
          || artifacts == {r}
          || (r.deployment.Builtin? && forall x <- artifacts :: x.deployment.Builtin? || x.deployment.Abi?))
    && (forall b <- artifacts | b.deployment.Builtin? :: b.surface == r.surface)
  }

  /** At most one artifact of each deployment. */
  ghost predicate OneEach(candidates: seq<Record>) {
    forall i, j | 0 <= i < j < |candidates| :: candidates[i].deployment != candidates[j].deployment
  }

  lemma {:induction false} CandidatesExactly(records: seq<Record>, id: string)
    ensures forall r :: r in Candidates(records, id) <==> r in Artifacts(records, id)
  {
    if records != [] {
      CandidatesExactly(records[1..], id);
      assert records == [records[0]] + records[1..];
    }
  }

  lemma {:induction false} CandidatesAreOneEach(records: seq<Record>, id: string)
    requires DistinctKeys(records)
    ensures OneEach(Candidates(records, id))
  {
    if records != [] {
      var rest := records[1..];
      CandidatesAreOneEach(rest, id);
      CandidatesExactly(rest, id);
      var later := Candidates(rest, id);
      forall k | 0 <= k < |later| && records[0].pluginId == id
        ensures later[k].deployment != records[0].deployment
      {
        assert later[k] in Artifacts(rest, id);
        var n :| 0 <= n < |rest| && rest[n] == later[k];
        assert rest[n] == records[n + 1];
      }
    }
  }

  lemma {:induction false} FindsTheOne(candidates: seq<Record>, r: Record)
    requires OneEach(candidates) && r in candidates
    ensures Find(candidates, r.deployment) == Some(r)
  {
    var n :| 0 <= n < |candidates| && candidates[n] == r;
    if n > 0 {
      assert candidates[1..][n - 1] == r;
      FindsTheOne(candidates[1..], r);
    }
  }

  lemma ManyAreDifferent(candidates: seq<Record>)
    requires OneEach(candidates) && |candidates| >= 2
    ensures candidates[0] in candidates && candidates[1] in candidates
    ensures candidates[0].deployment != candidates[1].deployment
  {
  }

  /** What each refusal says about the plugin's artifacts. */
  ghost predicate Explains(artifacts: set<Record>, preferred: Option<Deployment>, reason: Reason) {
    match reason
    case Unavailable => artifacts == {}
    case DeploymentUnavailable(d) =>
      artifacts != {} && preferred == Some(d) && forall x <- artifacts :: x.deployment != d
    case Ambiguous =>
      && preferred == None
      && (exists x <- artifacts :: !x.deployment.Builtin? && !x.deployment.Abi?)
      && (exists x <- artifacts, y <- artifacts :: x.deployment != y.deployment)
    case NoBuiltin => false
    case SurfaceMismatch =>
      && preferred.Some? && !preferred.value.Builtin?
      && (exists x <- artifacts, b <- artifacts ::
            x.deployment == preferred.value && b.deployment.Builtin? && b.surface != x.surface)
  }

  lemma AbsentIsNowhere(candidates: seq<Record>, d: Deployment)
    requires OneEach(candidates) && Find(candidates, d) == None
    ensures forall x <- candidates :: x.deployment != d
  {
    forall x | x in candidates ensures x.deployment != d {
      FindsTheOne(candidates, x);
    }
  }

  lemma ReasonIsExplained(candidates: seq<Record>, artifacts: set<Record>, preferred: Option<Deployment>)
    requires OneEach(candidates) && forall r :: r in candidates <==> r in artifacts
    requires Pick(candidates, preferred).Err?
    ensures Explains(artifacts, preferred, Pick(candidates, preferred).error)
  {
    var reason := Pick(candidates, preferred).error;
    if |candidates| >= 2 {
      ManyAreDifferent(candidates);
    }
    match reason {
      case Unavailable =>
      case DeploymentUnavailable(d) =>
        assert candidates[0] in artifacts;
        AbsentIsNowhere(candidates, d);
      case Ambiguous =>
      case NoBuiltin => AbsentIsNowhere(candidates, Builtin);
      case SurfaceMismatch =>
        var chosen, builtin := Choose(candidates, preferred).value, Find(candidates, Builtin).value;
        assert chosen in artifacts && builtin in artifacts;
        FindsTheOne(candidates, chosen);
    }
  }

  /**
    Why a plugin is refused: the reason always fits the plugin's artifacts. The inner ambiguity never occurs, and a
    surface mismatch only under a preference for something else than the builtin.
   */
  lemma RefusalIsExplained(records: seq<Record>, id: string, preferences: Preferences)
    requires DistinctKeys(records) && ResolveOne(records, id, preferences).Err?
    ensures Explains(Artifacts(records, id), Preferred(preferences, id), ResolveOne(records, id, preferences).error)
  {
    CandidatesExactly(records, id);
    CandidatesAreOneEach(records, id);
    ReasonIsExplained(Candidates(records, id), Artifacts(records, id), Preferred(preferences, id));
  }

  lemma PickedIsEligible(candidates: seq<Record>, artifacts: set<Record>, preferred: Option<Deployment>)
    requires OneEach(candidates) && forall r :: r in candidates <==> r in artifacts
    requires Pick(candidates, preferred).Ok?
    ensures Eligible(artifacts, preferred, Pick(candidates, preferred).value)
  {
    var chosen := Pick(candidates, preferred).value;
    forall b | b in artifacts && b.deployment.Builtin? ensures b.surface == chosen.surface {
      FindsTheOne(candidates, b);
      FindsTheOne(candidates, chosen);
    }
    if preferred.None? && |candidates| == 1 {
      assert artifacts == {chosen};
    }
  }

  lemma EligibleIsPicked(candidates: seq<Record>, artifacts: set<Record>, preferred: Option<Deployment>, x: Record)
    requires OneEach(candidates) && forall r :: r in candidates <==> r in artifacts
    requires Eligible(artifacts, preferred, x)
    ensures Pick(candidates, preferred) == Ok(x)
  {
    FindsTheOne(candidates, x);
    if |candidates| >= 2 {
      ManyAreDifferent(candidates);
    }
    assert Choose(candidates, preferred) == Ok(x);
    var builtin := Find(candidates, Builtin);
    assert builtin.Some? ==> builtin.value in artifacts;
  }

  ghost predicate EligibleFor(records: seq<Record>, id: string, preferences: Preferences, r: Record) {
    Eligible(Artifacts(records, id), Preferred(preferences, id), r)
  }

  /** A plugin resolves exactly when it has an eligible artifact; there is only one, and that is what it gets. */
  lemma ResolvesToTheEligible(records: seq<Record>, id: string, preferences: Preferences, x: Record)
    requires DistinctKeys(records)
    ensures ResolveOne(records, id, preferences) == Ok(x) <==> EligibleFor(records, id, preferences, x)
  {
    var candidates, artifacts, preferred := Candidates(records, id), Artifacts(records, id), Preferred(preferences, id);
    CandidatesExactly(records, id);
    CandidatesAreOneEach(records, id);
    if Pick(candidates, preferred) == Ok(x) {
      PickedIsEligible(candidates, artifacts, preferred);
    }
    if Eligible(artifacts, preferred, x) {
      EligibleIsPicked(candidates, artifacts, preferred, x);
    }
  }

  ghost predicate HasEligible(records: seq<Record>, id: string, preferences: Preferences) {
    exists x :: EligibleFor(records, id, preferences, x)
  }

  ghost predicate AllEligible(records: seq<Record>, ids: seq<string>, preferences: Preferences) {
    forall i | 0 <= i < |ids| :: HasEligible(records, ids[i], preferences)
  }

  /** `out` holds the eligible artifact of every id, in the order of the ids. */
  ghost predicate InOrder(records: seq<Record>, ids: seq<string>, preferences: Preferences, out: seq<Record>) {
    |out| == |ids| && forall i | 0 <= i < |ids| :: EligibleFor(records, ids[i], preferences, out[i])
  }

  lemma {:induction false} ResolvesInOrder(records: seq<Record>, ids: seq<string>, preferences: Preferences,
                                           out: seq<Record>)
    requires DistinctKeys(records)
    ensures ResolveAll(records, ids, preferences) == Ok(out) <==> InOrder(records, ids, preferences, out)
  {
    if ids != [] {
      if out != [] {
        ResolvesToTheEligible(records, ids[0], preferences, out[0]);
        ResolvesInOrder(records, ids[1..], preferences, out[1..]);
        assert out == [out[0]] + out[1..];
        InOrderSplits(records, ids, preferences, out);
      }
    }
  }

  lemma InOrderSplits(records: seq<Record>, ids: seq<string>, preferences: Preferences, out: seq<Record>)
    requires ids != [] && out != []
    ensures InOrder(records, ids, preferences, out)
       <==> EligibleFor(records, ids[0], preferences, out[0]) && InOrder(records, ids[1..], preferences, out[1..])
  {
    var rest, later := ids[1..], out[1..];
    if EligibleFor(records, ids[0], preferences, out[0]) && InOrder(records, rest, preferences, later) {
      forall i | 0 <= i < |ids| ensures EligibleFor(records, ids[i], preferences, out[i]) {
        if i > 0 {
          assert EligibleFor(records, rest[i - 1], preferences, later[i - 1]);
        }
      }
    }
    if InOrder(records, ids, preferences, out) {
      forall i | 0 <= i < |rest| ensures EligibleFor(records, rest[i], preferences, later[i]) {
        assert EligibleFor(records, ids[i + 1], preferences, out[i + 1]);
      }
    }
  }

  lemma {:induction false} EligibleFillOrder(records: seq<Record>, ids: seq<string>, preferences: Preferences)
    returns (out: seq<Record>)
    requires AllEligible(records, ids, preferences)
    ensures InOrder(records, ids, preferences, out)
  {
    out := [];
    for n := 0 to |ids|
      invariant |out| == n
      invariant forall i | 0 <= i < n :: EligibleFor(records, ids[i], preferences, out[i])
    {
      assert HasEligible(records, ids[n], preferences);
      var x :| EligibleFor(records, ids[n], preferences, x);
      out := out + [x];
    }
  }

  lemma OrderHasEligible(records: seq<Record>, ids: seq<string>, preferences: Preferences, out: seq<Record>)
    requires InOrder(records, ids, preferences, out)
    ensures AllEligible(records, ids, preferences)
  {
    forall i | 0 <= i < |ids| ensures HasEligible(records, ids[i], preferences) {
      assert EligibleFor(records, ids[i], preferences, out[i]);
    }
  }

  lemma ResolvesExactly(records: seq<Record>, ids: seq<string>, preferences: Preferences)
    requires DistinctKeys(records)
    ensures var r := ResolveAll(records, ids, preferences);
            && (r.Ok? <==> AllEligible(records, ids, preferences))
            && (r.Ok? ==> InOrder(records, ids, preferences, r.value))
  {
    var r := ResolveAll(records, ids, preferences);
    if r.Ok? {
      ResolvesInOrder(records, ids, preferences, r.value);
      OrderHasEligible(records, ids, preferences, r.value);
    } else if AllEligible(records, ids, preferences) {
      var out := EligibleFillOrder(records, ids, preferences);
      ResolvesInOrder(records, ids, preferences, out);
    }
  }

  /**
    The catalog resolves exactly when every enabled selection has an eligible artifact; it then holds one record
    per enabled selection, in order, each the eligible one.
   */
  lemma CatalogResolvesExactly(accepted: seq<Record>, selections: seq<Selection>, preferences: Preferences)
    ensures var ids, r := EnabledIds(selections), ResolveCatalog(Kept(accepted), selections, preferences);
            && (r.Ok? <==> AllEligible(Kept(accepted), ids, preferences))
            && (r.Ok? ==> InOrder(Kept(accepted), ids, preferences, r.value))
  {
    ScanGivesDistinctKeys(accepted);
    ResolvesExactly(Kept(accepted), EnabledIds(selections), preferences);
  }
}
