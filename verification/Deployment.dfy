/** Changing the preferred deployment of a plugin while the service runs. */
module Deployment {
  import opened Wrappers
  import opened Text
  import opened Inventory
  import opened Catalog

  const U64_MAX: nat := 0xFFFF_FFFF_FFFF_FFFF

  /** `runtime.lock.json`: absent, naming a registry generation, or cut by a failed write. */
  datatype LockFile = Missing | Names(generation: nat) | Garbled

  /** Saving preferences writes a pending file, removes the old file and renames: where that stops. */
  datatype SaveFault = Intact | BeforeRemoval | AtRename

  /** A failed write of the lock file may leave anything behind. */
  datatype WriteFault = Written | Cut(left: LockFile)

  /** What everything outside this code answers during one operation. */
  datatype World = World(
    scan: Option<seq<Record>>,
    save: SaveFault,
    prepared: bool,
    lockReadable: bool,
    lockWrite: WriteFault,
    coreTaken: bool,
    reload: bool,
    lockRestore: WriteFault,
    undo: SaveFault
  )

  datatype Operation = Set(pluginId: string, deployment: Deployment) | Clear(pluginId: string) | Reload

  /** `core` is the registry generation of the running Core. */
  datatype State = State(
    disk: Option<Preferences>,
    memory: Preferences,
    lockFile: LockFile,
    core: Option<nat>,
    catalog: seq<Record>
  )

  datatype Outcome = Outcome(state: State, ok: bool)

  // ---------------------------------------------------------------- what one operation does

  /** A missing preference file reads as no preferences. */
  function Stored(disk: Option<Preferences>): Preferences {
    match disk
    case None => map[]
    case Some(preferences) => preferences
  }

  function SavedTo(disk: Option<Preferences>, next: Preferences, fault: SaveFault): Option<Preferences> {
    match fault
    case Intact => Some(next)
    case BeforeRemoval => disk
    case AtRename => None
  }

  predicate IsEnabled(configured: seq<Selection>, pluginId: string) {
    exists s <- configured :: s.enabled && Trim(s.id) == Trim(pluginId)
  }

  /** The key is the id as the caller wrote it. */
  function Next(memory: Preferences, op: Operation): Preferences {
    match op
    case Set(id, deployment) => memory[id := deployment]
    case Clear(id) => memory - {id}
    case Reload => memory
  }

  function LoadCatalog(configured: seq<Selection>, preferences: Preferences, w: World): Option<seq<Record>> {
    if w.scan == None then None
    else match ResolveCatalog(Kept(w.scan.value), configured, preferences)
      case Ok(catalog) => Some(catalog)
      case Err(_) => None
  }

  /** What the configuration answers: which plugins are enabled, and the catalog that preferences load. */
  datatype Config = Config(
    enabled: string -> bool,
    load: (Preferences, World) -> Option<seq<Record>>
  )

  function ServiceConfig(configured: seq<Selection>): Config {
    Config(id => IsEnabled(configured, id), (preferences, w) => LoadCatalog(configured, preferences, w))
  }

  function NextGeneration(g: nat): nat {
    if g < U64_MAX then g + 1 else g
  }

  function PreviousLock(lockFile: LockFile, w: World): Option<LockFile> {
    if lockFile.Missing? || !w.lockReadable then None else Some(lockFile)
  }

  function Put(fault: WriteFault, content: LockFile): LockFile {
    if fault.Cut? then fault.left else content
  }

  /** Lock file, Core and catalog after a reload. */
  function Reloaded(s: State, catalog: seq<Record>, w: World): Outcome {
    if s.core == None || !w.prepared then Outcome(s, false)
    else
      var g := NextGeneration(s.core.value);
      var written := Put(w.lockWrite, Names(g));
      if w.lockWrite.Cut? then Outcome(s.(lockFile := written), false)
      else if w.coreTaken then Outcome(s.(lockFile := written, core := None), false)
      else if w.reload then Outcome(s.(lockFile := written, core := Some(g), catalog := catalog), true)
      else
        var previous := PreviousLock(s.lockFile, w);
        Outcome(s.(lockFile := Put(w.lockRestore, if previous.Some? then previous.value else Missing)), false)
  }

  /** A change whose catalog could be loaded: save, reload, and on failure put the previous preferences back. */
  function Changed(s: State, next: Preferences, catalog: seq<Record>, w: World): Outcome {
    var saved := s.(disk := SavedTo(s.disk, next, w.save));
    if !w.save.Intact? then Outcome(saved, false)
    else
      var r := Reloaded(saved, catalog, w);
      if r.ok then Outcome(r.state.(memory := next), true)
      else Outcome(r.state.(disk := SavedTo(r.state.disk, s.memory, w.undo)), false)
  }

  /** The catalog the operation works towards, if it gets that far. */
  function Target(config: Config, s: State, op: Operation, w: World): Option<seq<Record>> {
    if !op.Reload? && !config.enabled(op.pluginId) then None
    else config.load(Next(s.memory, op), w)
  }

  function Step(config: Config, s: State, op: Operation, w: World): Outcome {
    match Target(config, s, op, w)
    case None => Outcome(s, false)
    case Some(catalog) =>
      if op.Reload? then Reloaded(s, catalog, w) else Changed(s, Next(s.memory, op), catalog, w)
  }

  /** The state after operations run one at a time, and how many of them succeeded. */
  function Run(config: Config, s: State, ops: seq<(Operation, World)>): (State, nat) {
    if ops == [] then (s, 0)
    else Extended(config, Run(config, s, ops[..|ops| - 1]), ops[|ops| - 1])
  }

  function Extended(config: Config, before: (State, nat), last: (Operation, World)): (State, nat) {
    var out := Step(config, before.0, last.0, last.1);
    (out.state, if out.ok then before.1 + 1 else before.1)
  }

  lemma RunExtends(config: Config, s: State, ops: seq<(Operation, World)>, n: nat)
    requires n < |ops|
    ensures Run(config, s, ops[..n + 1]) == Extended(config, Run(config, s, ops[..n]), ops[n])
  {
    assert ops[..n + 1][..n] == ops[..n];
  }

  // ---------------------------------------------------------------- the service

  class ServiceRuntime {
    const config: Config
    var disk: Option<Preferences>
    var memory: Preferences
    var lockFile: LockFile
    var core: Option<nat>
    var catalog: seq<Record>

    constructor (configured: seq<Selection>, s: State)
      ensures config == ServiceConfig(configured) && Now() == s
    {
      config := ServiceConfig(configured);
      disk, memory, lockFile, core, catalog := s.disk, s.memory, s.lockFile, s.core, s.catalog;
    }

    function Now(): State
      reads this
    {
      State(disk, memory, lockFile, core, catalog)
    }

    method SaveDeploymentState(next: Preferences, fault: SaveFault) returns (ok: bool)
      modifies `disk
      ensures ok == fault.Intact? && disk == SavedTo(old(disk), next, fault)
    {
      if fault.BeforeRemoval? {
        return false;
      }
      if disk.Some? {
        disk := None;
      }
      if fault.AtRename? {
        return false;
      }
      disk := Some(next);
      ok := true;
    }

    method WriteRuntimeLock(generation: nat, fault: WriteFault) returns (ok: bool)
      modifies `lockFile
      ensures ok == fault.Written? && lockFile == Put(fault, Names(generation))
    {
      lockFile := Put(fault, Names(generation));
      ok := fault.Written?;
    }

    /** Brings back what was there before; with nothing to bring back and nothing there, nothing can fail. */
    method RestoreRuntimeLock(previous: Option<LockFile>, fault: WriteFault) returns (ok: bool)
      modifies `lockFile
      ensures ok <==> fault.Written? || (previous == None && old(lockFile) == Missing)
      ensures ok ==> lockFile == (if previous.Some? then previous.value else Missing)
      ensures !ok ==> lockFile == fault.left
    {
      match previous {
        case Some(content) =>
          lockFile := Put(fault, content);
          ok := fault.Written?;
        case None =>
          if lockFile != Missing {
            lockFile := Put(fault, Missing);
            return fault.Written?;
          }
          ok := true;
      }
    }

    method ReloadCatalog(newCatalog: seq<Record>, w: World) returns (ok: bool)
      modifies `lockFile, `core, `catalog
      ensures Outcome(Now(), ok) == Reloaded(old(Now()), newCatalog, w)
    {
      if core == None {
        return false;
      }
      var generation := NextGeneration(core.value);
      if !w.prepared {
        return false;
      }
      var previous := PreviousLock(lockFile, w);
      var written := WriteRuntimeLock(generation, w.lockWrite);
      if !written {
        return false;
      }
      if w.coreTaken {
        core := None;
        return false;
      }
      if !w.reload {
        var restored := RestoreRuntimeLock(previous, w.lockRestore);
        return false;
      }
      core := Some(generation);
      catalog := newCatalog;
      ok := true;
    }

    method PluginReload(w: World) returns (ok: bool)
      modifies this
      ensures Outcome(Now(), ok) == Step(config, old(Now()), Reload, w)
    {
      var newCatalog := config.load(memory, w);
      if newCatalog == None {
        return false;
      }
      ok := ReloadCatalog(newCatalog.value, w);
    }

    method ChangePluginDeployment(op: Operation, w: World) returns (ok: bool)
      requires !op.Reload?
      modifies this
      ensures Outcome(Now(), ok) == Step(config, old(Now()), op, w)
    {
      if !config.enabled(op.pluginId) {
        return false;
      }
      var previous := memory;
      var next := Next(previous, op);
      var newCatalog := config.load(next, w);
      if newCatalog == None {
        return false;
      }
      var saved := SaveDeploymentState(next, w.save);
      if !saved {
        return false;
      }
      ok := ReloadCatalog(newCatalog.value, w);
      if ok {
        memory := next;
      } else {
        var restored := SaveDeploymentState(previous, w.undo);
      }
    }

    method Handle(op: Operation, w: World) returns (ok: bool)
      modifies this
      ensures Outcome(Now(), ok) == Step(config, old(Now()), op, w)
    {
      if op.Reload? {
        ok := PluginReload(w);
      } else {
        ok := ChangePluginDeployment(op, w);
      }
    }

    method Serve(ops: seq<(Operation, World)>) returns (succeeded: nat)
      modifies this
      ensures (Now(), succeeded) == Run(config, old(Now()), ops)
    {
      succeeded := 0;
      for n := 0 to |ops|
        invariant (Now(), succeeded) == Run(config, old(Now()), ops[..n])
      {
        RunExtends(config, old(Now()), ops, n);
        var ok := Handle(ops[n].0, ops[n].1);
        if ok {
          succeeded := succeeded + 1;
        }
      }
      assert ops[..|ops|] == ops;
    }
  }

  // ---------------------------------------------------------------- disk and memory

  ghost predicate DiskAgrees(s: State) {
    Stored(s.disk) == s.memory
  }

  /** No Core, no prepared reload, a cut write of the lock file, the Core taken meanwhile, or the reload refused. */
  ghost predicate ReloadFails(s: State, w: World) {
    s.core == None || !w.prepared || w.lockWrite.Cut? || w.coreTaken || !w.reload
  }

  /**
    The failures of saving that separate disk from memory: the old file gone before the new one is in place, or the
    new preferences left in place after the reload they were for has failed.
   */
  ghost predicate SaveLost(s: State, next: Preferences, w: World) {
    match w.save
    case BeforeRemoval => false
    case AtRename => s.memory != map[]
    case Intact =>
      && ReloadFails(s, w)
      && (w.undo.BeforeRemoval? ==> next != s.memory)
      && (w.undo.AtRename? ==> s.memory != map[])
      && !w.undo.Intact?
  }

  ghost predicate DiskLost(config: Config, s: State, op: Operation, w: World) {
    var catalog := Target(config, s, op, w);
    !op.Reload? && catalog.Some? && SaveLost(s, Next(s.memory, op), w)
  }

  lemma ReloadIgnoresDisk(s: State, disk: Option<Preferences>, catalog: seq<Record>, w: World)
    ensures Reloaded(s.(disk := disk), catalog, w).ok == Reloaded(s, catalog, w).ok
    ensures Reloaded(s, catalog, w).state.disk == s.disk && Reloaded(s, catalog, w).state.memory == s.memory
  {
  }

  lemma ChangeKeepsAgreement(s: State, next: Preferences, catalog: seq<Record>, w: World)
    requires DiskAgrees(s)
    ensures DiskAgrees(Changed(s, next, catalog, w).state) <==> !SaveLost(s, next, w)
  {
    ReloadIgnoresDisk(s, Some(next), catalog, w);
    ReloadIgnoresDisk(s.(disk := Some(next)), Some(next), catalog, w);
  }

  /** One operation keeps disk and memory in agreement exactly when saving does not fail in one of those ways. */
  lemma DiskStep(config: Config, s: State, op: Operation, w: World)
    requires DiskAgrees(s)
    ensures DiskAgrees(Step(config, s, op, w).state) <==> !DiskLost(config, s, op, w)
  {
    var catalog := Target(config, s, op, w);
    if catalog.Some? {
      ChangeKeepsAgreement(s, Next(s.memory, op), catalog.value, w);
      ReloadIgnoresDisk(s, s.disk, catalog.value, w);
    }
  }

  /** Whatever happened before, a change that succeeds brings disk and memory together again. */
  lemma SuccessHeals(config: Config, s: State, op: Operation, w: World)
    requires !op.Reload? && Step(config, s, op, w).ok
    ensures DiskAgrees(Step(config, s, op, w).state)
  {
    var next := Next(s.memory, op);
    ReloadIgnoresDisk(s.(disk := Some(next)), Some(next), Target(config, s, op, w).value, w);
  }

  /** Disk and memory agree after any run in which no save was lost. */
  lemma {:induction false} DiskFollowsMemory(config: Config, s: State, ops: seq<(Operation, World)>)
    requires DiskAgrees(s)
    requires forall n | 0 <= n < |ops| :: !DiskLost(config, Run(config, s, ops[..n]).0, ops[n].0, ops[n].1)
    ensures DiskAgrees(Run(config, s, ops).0)
  {
    if ops != [] {
      var last := |ops| - 1;
      var front := ops[..last];
      forall n | 0 <= n < last ensures !DiskLost(config, Run(config, s, front[..n]).0, front[n].0, front[n].1) {
        assert front[..n] == ops[..n];
      }
      DiskFollowsMemory(config, s, front);
      DiskStep(config, Run(config, s, front).0, ops[last].0, ops[last].1);
    }
  }

  // ---------------------------------------------------------------- lock file and Core

  ghost predicate LockAgrees(s: State) {
    s.core.Some? ==> s.lockFile == Names(s.core.value)
  }

  /** The failures that separate the lock file from the Core: a cut write, and a rollback that cannot put it back. */
  ghost predicate ReloadLosesLock(s: State, w: World) {
    && s.core.Some? && w.prepared
    && match w.lockWrite
       case Cut(left) => left != Names(s.core.value)
       case Written =>
         && !w.coreTaken && !w.reload
         && match w.lockRestore
            case Cut(left) => left != Names(s.core.value)
            case Written => !w.lockReadable
  }

  ghost predicate LockLost(config: Config, s: State, op: Operation, w: World) {
    Target(config, s, op, w).Some? && (op.Reload? || w.save.Intact?) && ReloadLosesLock(s, w)
  }

  lemma ReloadKeepsLock(s: State, catalog: seq<Record>, w: World)
    requires LockAgrees(s)
    ensures LockAgrees(Reloaded(s, catalog, w).state) <==> !ReloadLosesLock(s, w)
  {
  }

  lemma ChangeKeepsLock(s: State, next: Preferences, catalog: seq<Record>, w: World)
    requires LockAgrees(s)
    ensures LockAgrees(Changed(s, next, catalog, w).state) <==> !(w.save.Intact? && ReloadLosesLock(s, w))
  {
    var saved := s.(disk := SavedTo(s.disk, next, w.save));
    ReloadKeepsLock(saved, catalog, w);
  }

  /** One operation keeps the lock file naming the Core's generation exactly when no such failure happens. */
  lemma LockStep(config: Config, s: State, op: Operation, w: World)
    requires LockAgrees(s)
    ensures LockAgrees(Step(config, s, op, w).state) <==> !LockLost(config, s, op, w)
  {
    var catalog := Target(config, s, op, w);
    if catalog.Some? {
      ReloadKeepsLock(s, catalog.value, w);
      ChangeKeepsLock(s, Next(s.memory, op), catalog.value, w);
    }
  }

  /** The lock file names the Core's generation after any run in which it was not lost. */
  lemma {:induction false} LockFollowsCore(config: Config, s: State, ops: seq<(Operation, World)>)
    requires LockAgrees(s)
    requires forall n | 0 <= n < |ops| :: !LockLost(config, Run(config, s, ops[..n]).0, ops[n].0, ops[n].1)
    ensures LockAgrees(Run(config, s, ops).0)
  {
    if ops != [] {
      var last := |ops| - 1;
      var front := ops[..last];
      forall n | 0 <= n < last ensures !LockLost(config, Run(config, s, front[..n]).0, front[n].0, front[n].1) {
        assert front[..n] == ops[..n];
      }
      LockFollowsCore(config, s, front);
      LockStep(config, Run(config, s, front).0, ops[last].0, ops[last].1);
    }
  }

  // ---------------------------------------------------------------- success and failure

  lemma ReloadedIsAllOrNothing(s: State, catalog: seq<Record>, w: World)
    ensures var out := Reloaded(s, catalog, w); var t := out.state;
            && t.memory == s.memory && t.disk == s.disk
            && (out.ok ==> s.core.Some? && t.core == Some(NextGeneration(s.core.value)) && t.catalog == catalog)
            && (!out.ok ==> t.catalog == s.catalog && (t.core == s.core || (w.coreTaken && t.core == None)))
  {
  }

  /** All preferences but one are as before. */
  ghost predicate OthersKept(before: Preferences, after: Preferences, id: string) {
    forall other | other != id :: Preferred(after, other) == Preferred(before, other)
  }

  /** What the caller asked for: one preference set, one dropped, or none touched. */
  ghost predicate Requested(before: Preferences, op: Operation, after: Preferences) {
    match op
    case Set(id, deployment) => id in after && after[id] == deployment && OthersKept(before, after, id)
    case Clear(id) => id !in after && OthersKept(before, after, id)
    case Reload => after == before
  }

  /**
    Success raises the generation, except at the top of its range, and installs exactly the preferences asked for, in
    memory and on disk, and the catalog they load. Failure leaves catalog, preferences and generation as they were.
   */
  lemma AllOrNothing(config: Config, s: State, op: Operation, w: World)
    ensures var out := Step(config, s, op, w); var t := out.state;
            && (out.ok ==>
                  && s.core.Some? && t.core == Some(NextGeneration(s.core.value))
                  && Requested(s.memory, op, t.memory) && Some(t.catalog) == config.load(t.memory, w)
                  && (if op.Reload? then t.disk == s.disk else Stored(t.disk) == t.memory))
            && (!out.ok ==>
                  && t.catalog == s.catalog && t.memory == s.memory
                  && (t.core == s.core || (w.coreTaken && t.core == None)))
  {
    var catalog, next := Target(config, s, op, w), Next(s.memory, op);
    if catalog.Some? {
      ReloadedIsAllOrNothing(s, catalog.value, w);
      ReloadedIsAllOrNothing(s.(disk := Some(next)), catalog.value, w);
    }
    NextIsRequested(s.memory, op);
  }

  lemma NextIsRequested(before: Preferences, op: Operation)
    ensures Requested(before, op, Next(before, op))
  {
  }

  /** The artifacts found by the scan have an eligible one for every enabled plugin. */
  ghost predicate Loads(configured: seq<Selection>, preferences: Preferences, w: World) {
    w.scan.Some? && AllEligible(Kept(w.scan.value), EnabledIds(configured), preferences)
  }

  /**
    When an operation succeeds: the plugin is enabled by its trimmed id, the preferences asked for load, and nothing
    fails in saving, in writing the lock file or in reloading the Core.
   */
  lemma SucceedsExactly(configured: seq<Selection>, s: State, op: Operation, w: World, next: Preferences)
    requires Requested(s.memory, op, next)
    ensures Step(ServiceConfig(configured), s, op, w).ok <==>
              && (op.Reload? || (w.save.Intact?
                                 && exists n :: 0 <= n < |configured| && configured[n].enabled
                                                && Trim(configured[n].id) == Trim(op.pluginId)))
              && Loads(configured, next, w) && !ReloadFails(s, w)
  {
    NextIsRequested(s.memory, op);
    SameRequest(s.memory, op, next, Next(s.memory, op));
    LoadsExactly(configured, next, w);
    OkExactly(ServiceConfig(configured), s, op, w);
    if !op.Reload? {
      EnabledExactly(configured, op.pluginId);
    }
  }

  lemma OkExactly(config: Config, s: State, op: Operation, w: World)
    ensures Step(config, s, op, w).ok <==>
              Target(config, s, op, w).Some? && (op.Reload? || w.save.Intact?) && !ReloadFails(s, w)
  {
  }

  lemma EnabledExactly(configured: seq<Selection>, id: string)
    ensures IsEnabled(configured, id) <==>
              exists n :: 0 <= n < |configured| && configured[n].enabled && Trim(configured[n].id) == Trim(id)
  {
    if n :| 0 <= n < |configured| && configured[n].enabled && Trim(configured[n].id) == Trim(id) {
      assert configured[n] in configured;
    }
  }

  lemma LoadsExactly(configured: seq<Selection>, preferences: Preferences, w: World)
    ensures LoadCatalog(configured, preferences, w).Some? <==> Loads(configured, preferences, w)
  {
    if w.scan.Some? {
      CatalogResolvesExactly(w.scan.value, configured, preferences);
    }
  }

  /** A request leaves no choice. */
  lemma SameRequest(before: Preferences, op: Operation, a: Preferences, b: Preferences)
    requires Requested(before, op, a) && Requested(before, op, b)
    ensures a == b
  {
    forall id ensures Preferred(a, id) == Preferred(b, id) {
      assert Preferred(before, id) == Preferred(before, id);
    }
    forall id ensures id in a <==> id in b {
      assert Preferred(a, id) == Preferred(b, id);
    }
    forall id | id in a ensures a[id] == b[id] {
      assert Preferred(a, id) == Preferred(b, id);
    }
  }

  /** While the Core is there, its generation counts the operations that succeeded, up to the top of the range. */
  lemma {:induction false} GenerationCountsSuccesses(config: Config, s: State, ops: seq<(Operation, World)>)
    requires s.core.Some? && s.core.value <= U64_MAX
    ensures var (t, n) := Run(config, s, ops);
            t.core.Some? ==>
              t.core.value == if s.core.value + n <= U64_MAX then s.core.value + n else U64_MAX
  {
    if ops != [] {
      var last := |ops| - 1;
      GenerationCountsSuccesses(config, s, ops[..last]);
      var before := Run(config, s, ops[..last]);
      AllOrNothing(config, before.0, ops[last].0, ops[last].1);
    }
  }

  // ---------------------------------------------------------------- preferred deployments are active

  /** One active record per enabled plugin, in order, each in its preferred deployment if it has one. */
  ghost predicate Honoured(ids: seq<string>, preferences: Preferences, catalog: seq<Record>) {
    && |catalog| == |ids|
    && forall i | 0 <= i < |ids| ::
         catalog[i].pluginId == ids[i] && (ids[i] in preferences ==> catalog[i].deployment == preferences[ids[i]])
  }

  lemma LoadedIsHonoured(configured: seq<Selection>, preferences: Preferences, w: World)
    requires LoadCatalog(configured, preferences, w).Some?
    ensures Honoured(EnabledIds(configured), preferences, LoadCatalog(configured, preferences, w).value)
  {
    var ids, records := EnabledIds(configured), Kept(w.scan.value);
    CatalogResolvesExactly(w.scan.value, configured, preferences);
    OrderIsHonoured(records, ids, preferences, LoadCatalog(configured, preferences, w).value);
  }

  lemma OrderIsHonoured(records: seq<Record>, ids: seq<string>, preferences: Preferences, out: seq<Record>)
    requires InOrder(records, ids, preferences, out)
    ensures Honoured(ids, preferences, out)
  {
    forall i | 0 <= i < |ids|
      ensures out[i].pluginId == ids[i] && (ids[i] in preferences ==> out[i].deployment == preferences[ids[i]])
    {
      assert EligibleFor(records, ids[i], preferences, out[i]);
    }
  }

  /** In every run, faults or not, every enabled plugin with a preference is active in its preferred deployment. */
  lemma {:induction false} PreferredIsActive(configured: seq<Selection>, s: State, ops: seq<(Operation, World)>)
    requires Honoured(EnabledIds(configured), s.memory, s.catalog)
    ensures var t := Run(ServiceConfig(configured), s, ops).0; Honoured(EnabledIds(configured), t.memory, t.catalog)
  {
    if ops != [] {
      var last := |ops| - 1;
      var before := Run(ServiceConfig(configured), s, ops[..last]).0;
      var op, w := ops[last].0, ops[last].1;
      PreferredIsActive(configured, s, ops[..last]);
      AllOrNothing(ServiceConfig(configured), before, op, w);
      if Step(ServiceConfig(configured), before, op, w).ok {
        LoadedIsHonoured(configured, Step(ServiceConfig(configured), before, op, w).state.memory, w);
      }
    }
  }

  // ---------------------------------------------------------------- ids that are not trimmed

  lemma EnabledSplits(first: Selection, rest: seq<Selection>, pluginId: string)
    ensures IsEnabled([first] + rest, pluginId) <==>
              (first.enabled && Trim(first.id) == Trim(pluginId)) || IsEnabled(rest, pluginId)
  {
    var all := [first] + rest;
    assert first in all && forall s <- rest :: s in all;
    assert forall s <- all :: s == first || s in rest;
  }

  lemma IdsSplit(first: Selection, rest: seq<Selection>, id: string)
    ensures id in EnabledIds([first] + rest) <==> (first.enabled && Trim(first.id) == id) || id in EnabledIds(rest)
  {
    assert ([first] + rest)[1..] == rest;
  }

  lemma {:induction false} EnabledIsResolved(configured: seq<Selection>, pluginId: string)
    ensures IsEnabled(configured, pluginId) <==> Trim(pluginId) in EnabledIds(configured)
  {
    if configured != [] {
      var first, rest := configured[0], configured[1..];
      EnabledIsResolved(rest, pluginId);
      assert configured == [first] + rest;
      EnabledSplits(first, rest, pluginId);
      IdsSplit(first, rest, Trim(pluginId));
    }
  }

  lemma {:induction false} ResolvedIdsAreTrimmed(configured: seq<Selection>)
    ensures forall id <- EnabledIds(configured) :: Trimmed(id)
  {
    if configured != [] {
      ResolvedIdsAreTrimmed(configured[1..]);
      TrimFixpoint(configured[0].id);
    }
  }

  lemma {:induction false} UnreadKeyIsIgnored(records: seq<Record>, ids: seq<string>, a: Preferences, b: Preferences)
    requires forall id <- ids :: Preferred(a, id) == Preferred(b, id)
    ensures ResolveAll(records, ids, a) == ResolveAll(records, ids, b)
  {
    if ids != [] {
      assert ids[0] in ids;
      UnreadKeyIsIgnored(records, ids[1..], a, b);
    }
  }

  lemma UntrimmedChangeIsIgnored(configured: seq<Selection>, preferences: Preferences, op: Operation, w: World)
    requires !op.Reload? && !Trimmed(op.pluginId)
    ensures LoadCatalog(configured, Next(preferences, op), w) == LoadCatalog(configured, preferences, w)
  {
    var ids, next := EnabledIds(configured), Next(preferences, op);
    ResolvedIdsAreTrimmed(configured);
    assert forall id <- ids :: id != op.pluginId;
    if w.scan.Some? {
      UnreadKeyIsIgnored(Kept(w.scan.value), ids, next, preferences);
    }
  }

  /** Some record of the plugin is active, and all of them in this deployment. */
  ghost predicate ActiveAs(catalog: seq<Record>, id: string, d: Deployment) {
    && (exists r <- catalog :: r.pluginId == id)
    && (forall r <- catalog | r.pluginId == id :: r.deployment == d)
  }

  /** Some record of the plugin is active, and all of them are the one eligible artifact under this preference. */
  ghost predicate ActiveEligible(catalog: seq<Record>, records: seq<Record>, id: string,
                                 preferred: Option<Deployment>)
  {
    && (exists r <- catalog :: r.pluginId == id)
    && (forall r <- catalog | r.pluginId == id :: Eligible(Artifacts(records, id), preferred, r))
  }

  /** What a successful operation loads is, for every enabled plugin, its eligible artifact. */
  lemma LoadedIsEligible(configured: seq<Selection>, preferences: Preferences, w: World, id: string)
    requires LoadCatalog(configured, preferences, w).Some? && id in EnabledIds(configured)
    ensures var catalog, records := LoadCatalog(configured, preferences, w).value, Kept(w.scan.value);
            ActiveEligible(catalog, records, id, Preferred(preferences, id))
  {
    var ids, records := EnabledIds(configured), Kept(w.scan.value);
    CatalogResolvesExactly(w.scan.value, configured, preferences);
    var out := LoadCatalog(configured, preferences, w).value;
    OrderIsEligible(records, ids, preferences, out, id);
  }

  lemma OrderIsEligible(records: seq<Record>, ids: seq<string>, preferences: Preferences, out: seq<Record>, id: string)
    requires InOrder(records, ids, preferences, out) && id in ids
    ensures ActiveEligible(out, records, id, Preferred(preferences, id))
  {
    var n :| 0 <= n < |ids| && ids[n] == id;
    assert EligibleFor(records, ids[n], preferences, out[n]) && out[n] in out;
    forall r | r in out && r.pluginId == id ensures Eligible(Artifacts(records, id), Preferred(preferences, id), r) {
      var m :| 0 <= m < |out| && out[m] == r;
      assert EligibleFor(records, ids[m], preferences, out[m]);
    }
  }

  /**
    The plugin id of a change is compared trimmed but stored as written. A successful change of a trimmed id takes
    effect: the plugin is active in the deployment it was set to, or, after a clear, as without a preference. One of an
    id with white space at an end is accepted, stored and reported as a success, but loads the catalog that the
    previous preferences resolve to.
   */
  lemma ChangeTakesEffect(configured: seq<Selection>, s: State, op: Operation, w: World)
    requires !op.Reload? && Step(ServiceConfig(configured), s, op, w).ok
    ensures var t, id := Step(ServiceConfig(configured), s, op, w).state, op.pluginId;
            && w.scan.Some?
            && (Trimmed(id) && op.Set? ==>
                  ActiveAs(t.catalog, id, op.deployment)
                  && ActiveEligible(t.catalog, Kept(w.scan.value), id, Some(op.deployment)))
            && (Trimmed(id) && op.Clear? ==> ActiveEligible(t.catalog, Kept(w.scan.value), id, None))
            && (!Trimmed(id) ==> Some(t.catalog) == LoadCatalog(configured, s.memory, w))
  {
    OkExactly(ServiceConfig(configured), s, op, w);
    if Trimmed(op.pluginId) {
      TrimmedChangeTakesEffect(configured, s, op, w);
    } else {
      AllOrNothing(ServiceConfig(configured), s, op, w);
      NextIsLoaded(ServiceConfig(configured), s, op, w);
      UntrimmedChangeIsIgnored(configured, s.memory, op, w);
    }
  }

  lemma TrimmedChangeTakesEffect(configured: seq<Selection>, s: State, op: Operation, w: World)
    requires !op.Reload? && Step(ServiceConfig(configured), s, op, w).ok && Trimmed(op.pluginId)
    ensures var t, id := Step(ServiceConfig(configured), s, op, w).state, op.pluginId;
            && w.scan.Some?
            && ActiveEligible(t.catalog, Kept(w.scan.value), id, if op.Set? then Some(op.deployment) else None)
            && (op.Set? ==> ActiveAs(t.catalog, id, op.deployment))
  {
    var t := Step(ServiceConfig(configured), s, op, w).state;
    OkExactly(ServiceConfig(configured), s, op, w);
    AllOrNothing(ServiceConfig(configured), s, op, w);
    TrimmedIsResolved(configured, op.pluginId);
    PreferenceIsActive(configured, t.memory, w, op.pluginId);
  }

  lemma TrimmedIsResolved(configured: seq<Selection>, id: string)
    requires IsEnabled(configured, id) && Trimmed(id)
    ensures id in EnabledIds(configured)
  {
    TrimFixpoint(id);
    EnabledIsResolved(configured, id);
  }

  /** Loading makes an enabled plugin active as its preference says. */
  lemma PreferenceIsActive(configured: seq<Selection>, preferences: Preferences, w: World, id: string)
    requires LoadCatalog(configured, preferences, w).Some? && id in EnabledIds(configured)
    ensures var catalog := LoadCatalog(configured, preferences, w).value;
            && w.scan.Some?
            && ActiveEligible(catalog, Kept(w.scan.value), id, Preferred(preferences, id))
            && (id in preferences ==> ActiveAs(catalog, id, preferences[id]))
  {
    LoadedIsEligible(configured, preferences, w, id);
    if id in preferences {
      EligibleIsActive(LoadCatalog(configured, preferences, w).value, Kept(w.scan.value), id, preferences);
    }
  }

  lemma EligibleIsActive(catalog: seq<Record>, records: seq<Record>, id: string, preferences: Preferences)
    requires ActiveEligible(catalog, records, id, Preferred(preferences, id)) && id in preferences
    ensures ActiveAs(catalog, id, preferences[id])
  {
  }

  lemma NextIsLoaded(config: Config, s: State, op: Operation, w: World)
    requires Step(config, s, op, w).ok
    ensures Step(config, s, op, w).state.memory == Next(s.memory, op)
  {
    AllOrNothing(config, s, op, w);
    NextIsRequested(s.memory, op);
    SameRequest(s.memory, op, Step(config, s, op, w).state.memory, Next(s.memory, op));
  }

  lemma BothAreKept(builtin: Record, abi: Record)
    requires builtin.pluginId == abi.pluginId && builtin.deployment.Builtin? && abi.deployment.Abi?
    ensures forall r :: r in Kept([builtin, abi]) <==> r == builtin || r == abi
  {
    var accepted := [builtin, abi];
    DebugNamesDiffer(Builtin, Abi);
    forall r ensures r in Kept(accepted) <==> r == builtin || r == abi {
      KeptExactly(accepted, r);
      Grouping.CountPair(CandidateKey, builtin, abi, CandidateKey(r));
    }
  }

  lemma BuiltinIsEligible(builtin: Record, abi: Record, records: seq<Record>)
    requires builtin.pluginId == abi.pluginId && builtin.deployment.Builtin? && abi.deployment.Abi?
    requires builtin.surface == abi.surface && forall r :: r in records <==> r == builtin || r == abi
    ensures EligibleFor(records, builtin.pluginId, map[], builtin)
  {
    assert Artifacts(records, builtin.pluginId) == {builtin, abi};
  }

  lemma BuiltinIsLoaded(builtin: Record, abi: Record, configured: seq<Selection>, w: World)
    requires builtin.pluginId == abi.pluginId && builtin.deployment.Builtin? && abi.deployment.Abi?
    requires builtin.surface == abi.surface && EnabledIds(configured) == [builtin.pluginId]
    requires w.scan == Some([builtin, abi])
    ensures LoadCatalog(configured, map[], w) == Some([builtin])
  {
    var records, id := Kept([builtin, abi]), builtin.pluginId;
    BothAreKept(builtin, abi);
    ScanGivesDistinctKeys([builtin, abi]);
    BuiltinIsEligible(builtin, abi, records);
    ResolvesToTheEligible(records, id, map[], builtin);
    ResolveStep(records, id, [], map[]);
    assert [id] + [] == [id] && [builtin] + [] == [builtin];
  }

  lemma OneEnabled(id: string)
    ensures EnabledIds([Selection(id, true)]) == [Trim(id)]
  {
    assert [Selection(id, true)][1..] == [];
  }

  /**
    The failing family, for every untrimmed id (`Text.PaddedIsUntrimmed` gives some): a plugin with a builtin and an
    ABI artifact is set to ABI, nothing goes wrong, the change is reported as done, and the builtin stays the active
    one.
   */
  lemma UntrimmedSetFails(id: string, builtin: Record, abi: Record, s: State, w: World)
    requires !Trimmed(id) && builtin.pluginId == Trim(id) && abi.pluginId == Trim(id)
    requires builtin.deployment.Builtin? && abi.deployment.Abi? && builtin.surface == abi.surface
    requires w.scan == Some([builtin, abi]) && w.save.Intact? && w.prepared && w.lockWrite.Written?
    requires !w.coreTaken && w.reload && s.core.Some? && s.memory == map[]
    ensures var out := Step(ServiceConfig([Selection(id, true)]), s, Set(id, Abi), w);
            out.ok && out.state.catalog == [builtin] && out.state.memory == map[id := Abi]
  {
    var configured := [Selection(id, true)];
    OneEnabled(id);
    BuiltinIsLoaded(builtin, abi, configured, w);
    UntrimmedChangeIsIgnored(configured, map[], Set(id, Abi), w);
    assert configured[0] in configured;
    SetSucceeds(ServiceConfig(configured), s, id, Abi, [builtin], w);
  }

  lemma SetSucceeds(config: Config, s: State, id: string, deployment: Deployment, catalog: seq<Record>, w: World)
    requires config.enabled(id) && config.load(s.memory[id := deployment], w) == Some(catalog)
    requires w.save.Intact? && !ReloadFails(s, w)
    ensures var out := Step(config, s, Set(id, deployment), w);
            out.ok && out.state.catalog == catalog && out.state.memory == s.memory[id := deployment]
  {
  }
}
