/** Driving the managed runner processes to a desired set. */
module RunnerSupervisor {
  import opened Wrappers
  import opened Text

  /** `runtime` stands for everything else a runner is described by. */
  datatype Spec = Spec(runnerId: string, pluginId: string, runtime: string)

  datatype ProcessState = Running | Exited(code: int) | Failed | Stopped

  /** `child` is the process handle, by process id. */
  datatype Runner = Runner(
    spec: Spec,
    child: Option<nat>,
    state: ProcessState,
    restarts: nat,
    lastError: Option<string>)

  type Runners = map<string, Runner>

  datatype Trouble = AlreadyRunning | UnknownRunner | SpawnFailed | StopFailed

  datatype Error = Error(trouble: Trouble, runnerId: string)

  /** What asking for the exit status of a child answers. */
  datatype Probe = StillRunning | ExitedWith(code: int) | Unreadable(message: string)

  /** How stopping a child goes. */
  datatype StopCourse = HasExited | InTime | Killed | KillFailed

  /** The operating system during one operation, runner by runner. */
  datatype World = World(probe: string -> Probe, stop: string -> StopCourse, spawn: string -> Option<nat>)

  // ---------------------------------------------------------------- one runner

  function At(m: Runners, id: string): Option<Runner> {
    if id in m then Some(m[id]) else None
  }

  function Wanted(desired: map<string, Spec>, id: string): Option<Spec> {
    if id in desired then Some(desired[id]) else None
  }

  function Fresh(spec: Spec, child: nat): Runner {
    Runner(spec, Some(child), Running, 0, None)
  }

  function Refreshed(r: Runner, p: Probe): Runner {
    if r.child.None? then r
    else match p
      case StillRunning => r.(state := Running)
      case ExitedWith(code) => r.(state := Exited(code), child := None)
      case Unreadable(message) => r.(state := Failed, lastError := Some(message))
  }

  predicate StopFails(r: Runner, course: StopCourse) {
    r.child.Some? && course.KillFailed?
  }

  /** A failed kill has already given the handle away and leaves the state as it was. */
  function AfterStop(r: Runner, course: StopCourse): Runner {
    if StopFails(r, course) then r.(child := None) else r.(child := None, state := Stopped)
  }

  /** The first phase of reconciling: what is left of a runner that is not wanted as it is. */
  function Cleared(r: Option<Runner>, want: Option<Spec>, course: StopCourse): Option<Runner> {
    if r.None? || want == Some(r.value.spec) then r
    else if StopFails(r.value, course) then Some(AfterStop(r.value, course))
    else None
  }

  /** The second phase: what is wanted and does not run is spawned. */
  predicate NeedsStart(r: Option<Runner>, want: Option<Spec>) {
    want.Some? && (r.None? || !r.value.state.Running?)
  }

  function Filled(r: Option<Runner>, want: Option<Spec>, spawn: Option<nat>): Option<Runner> {
    if NeedsStart(r, want) && spawn.Some? then Some(Fresh(want.value, spawn.value)) else r
  }

  function Probed(m: Runners, id: string, w: World): Option<Runner> {
    if id in m then Some(Refreshed(m[id], w.probe(id))) else None
  }

  function Halfway(m: Runners, desired: map<string, Spec>, w: World, id: string): Option<Runner> {
    Cleared(Probed(m, id, w), Wanted(desired, id), w.stop(id))
  }

  /** What reconciling makes of one runner id. */
  function Settled(m: Runners, desired: map<string, Spec>, w: World, id: string): Option<Runner> {
    Filled(Halfway(m, desired, w, id), Wanted(desired, id), w.spawn(id))
  }

  predicate StopErrs(r: Option<Runner>, want: Option<Spec>, course: StopCourse) {
    r.Some? && want != Some(r.value.spec) && StopFails(r.value, course)
  }

  predicate SpawnErrs(r: Option<Runner>, want: Option<Spec>, spawn: Option<nat>) {
    NeedsStart(r, want) && spawn.None?
  }

  predicate IsStopped(r: Option<Runner>, want: Option<Spec>) {
    r.Some? && want != Some(r.value.spec) && r.value.child.Some?
  }

  predicate IsSpawned(r: Option<Runner>, want: Option<Spec>, spawn: Option<nat>) {
    NeedsStart(r, want) && spawn.Some?
  }

  /** First phase: the runners whose child is told to stop, and those where that fails. */
  function Unwanted(m: Runners, desired: map<string, Spec>): set<string> {
    set id | id in m && IsStopped(At(m, id), Wanted(desired, id))
  }

  function Unstoppable(m: Runners, desired: map<string, Spec>, w: World): set<string> {
    set id | id in m && StopErrs(At(m, id), Wanted(desired, id), w.stop(id))
  }

  /** Second phase: the ids that get a child, and those where spawning fails. */
  function Startable(m: Runners, desired: map<string, Spec>, w: World): set<string> {
    set id | id in desired && IsSpawned(At(m, id), Wanted(desired, id), w.spawn(id))
  }

  function Unspawnable(m: Runners, desired: map<string, Spec>, w: World): set<string> {
    set id | id in desired && SpawnErrs(At(m, id), Wanted(desired, id), w.spawn(id))
  }

  /** One error of this kind for every one of these runner ids, and no other. */
  ghost predicate Report(errors: seq<Error>, ids: set<string>, trouble: Trouble) {
    && |errors| == |ids|
    && (forall id <- ids :: Error(trouble, id) in errors)
    && (forall e <- errors :: e.trouble == trouble && e.runnerId in ids)
  }

  lemma OneTaken(base: multiset<string>, all: set<string>, todo: set<string>, id: string)
    requires id in todo
    ensures base + multiset(all - (todo - {id}))
         == if id in all then base + multiset(all - todo) + multiset{id} else base + multiset(all - todo)
  {
    assert all - (todo - {id}) == (all - todo) + (if id in all then {id} else {});
    assert multiset((all - todo) + {id}) == multiset(all - todo) + multiset{id} by {
      assert id !in all - todo;
    }
  }

  lemma OneReported(errors: seq<Error>, failing: set<string>, todo: set<string>, id: string, trouble: Trouble)
    requires id in todo && Report(errors, failing - todo, trouble)
    ensures Report(if id in failing then errors + [Error(trouble, id)] else errors, failing - (todo - {id}), trouble)
  {
    assert failing - (todo - {id}) == (failing - todo) + (if id in failing then {id} else {});
  }

  /** Where the first phase stands when the runner ids in `todo` are still to come. */
  ghost predicate ClearInv(before: Runners, base: multiset<string>, desired: map<string, Spec>, w: World,
                            todo: set<string>, m: Runners, errors: seq<Error>, log: multiset<string>)
  {
    && (forall id :: At(m, id) == if id in todo then At(before, id)
                                  else Cleared(At(before, id), Wanted(desired, id), w.stop(id)))
    && Report(errors, Unstoppable(before, desired, w) - todo, StopFailed)
    && log == base + multiset(Unwanted(before, desired) - todo)
  }

  lemma ClearStarts(before: Runners, base: multiset<string>, desired: map<string, Spec>, w: World)
    ensures ClearInv(before, base, desired, w, before.Keys, before, [], base)
  {
    assert Unstoppable(before, desired, w) - before.Keys == {} && Unwanted(before, desired) - before.Keys == {};
  }

  lemma ClearEnds(before: Runners, base: multiset<string>, desired: map<string, Spec>, w: World,
                  m: Runners, errors: seq<Error>, log: multiset<string>)
    requires ClearInv(before, base, desired, w, {}, m, errors, log)
    ensures forall id :: At(m, id) == Cleared(At(before, id), Wanted(desired, id), w.stop(id))
    ensures Report(errors, Unstoppable(before, desired, w), StopFailed)
    ensures log == base + multiset(Unwanted(before, desired))
  {
    assert Unstoppable(before, desired, w) - {} == Unstoppable(before, desired, w);
    assert Unwanted(before, desired) - {} == Unwanted(before, desired);
  }

  lemma ClearStep(before: Runners, base: multiset<string>, desired: map<string, Spec>, w: World, todo: set<string>,
                  m: Runners, errors: seq<Error>, log: multiset<string>, id: string,
                  next: Runners, error: Option<Error>, nextLog: multiset<string>)
    requires ClearInv(before, base, desired, w, todo, m, errors, log) && id in todo && todo <= before.Keys
    requires At(next, id) == Cleared(At(before, id), Wanted(desired, id), w.stop(id))
    requires forall other | other != id :: At(next, other) == At(m, other)
    requires error == if StopErrs(At(before, id), Wanted(desired, id), w.stop(id)) then Some(Error(StopFailed, id))
                      else None
    requires nextLog == if IsStopped(At(before, id), Wanted(desired, id)) then log + multiset{id} else log
    ensures ClearInv(before, base, desired, w, todo - {id}, next,
                     if error.Some? then errors + [error.value] else errors, nextLog)
  {
    OneTaken(base, Unwanted(before, desired), todo, id);
    OneReported(errors, Unstoppable(before, desired, w), todo, id, StopFailed);
  }

  /** Where the second phase stands when the runner ids in `todo` are still to come. */
  ghost predicate FillInv(before: Runners, base: multiset<string>, desired: map<string, Spec>, w: World,
                            todo: set<string>, m: Runners, errors: seq<Error>, log: multiset<string>)
  {
    && (forall id :: At(m, id) == if id in todo then At(before, id)
                                  else Filled(At(before, id), Wanted(desired, id), w.spawn(id)))
    && Report(errors, Unspawnable(before, desired, w) - todo, SpawnFailed)
    && log == base + multiset(Startable(before, desired, w) - todo)
  }

  lemma FillStarts(before: Runners, base: multiset<string>, desired: map<string, Spec>, w: World)
    ensures FillInv(before, base, desired, w, desired.Keys, before, [], base)
  {
    assert Unspawnable(before, desired, w) - desired.Keys == {} && Startable(before, desired, w) - desired.Keys == {};
  }

  lemma FillEnds(before: Runners, base: multiset<string>, desired: map<string, Spec>, w: World,
                  m: Runners, errors: seq<Error>, log: multiset<string>)
    requires FillInv(before, base, desired, w, {}, m, errors, log)
    ensures forall id :: At(m, id) == Filled(At(before, id), Wanted(desired, id), w.spawn(id))
    ensures Report(errors, Unspawnable(before, desired, w), SpawnFailed)
    ensures log == base + multiset(Startable(before, desired, w))
  {
    assert Unspawnable(before, desired, w) - {} == Unspawnable(before, desired, w);
    assert Startable(before, desired, w) - {} == Startable(before, desired, w);
  }

  lemma FillStep(before: Runners, base: multiset<string>, desired: map<string, Spec>, w: World, todo: set<string>,
                  m: Runners, errors: seq<Error>, log: multiset<string>, id: string,
                  next: Runners, error: Option<Error>, nextLog: multiset<string>)
    requires FillInv(before, base, desired, w, todo, m, errors, log) && id in todo && todo <= desired.Keys
    requires At(next, id) == Filled(At(before, id), Wanted(desired, id), w.spawn(id))
    requires forall other | other != id :: At(next, other) == At(m, other)
    requires error == if SpawnErrs(At(before, id), Wanted(desired, id), w.spawn(id)) then Some(Error(SpawnFailed, id))
                      else None
    requires nextLog == if IsSpawned(At(before, id), Wanted(desired, id), w.spawn(id)) then log + multiset{id} else log
    ensures FillInv(before, base, desired, w, todo - {id}, next,
                     if error.Some? then errors + [error.value] else errors, nextLog)
  {
    OneTaken(base, Startable(before, desired, w), todo, id);
    OneReported(errors, Unspawnable(before, desired, w), todo, id, SpawnFailed);
  }

  /** Over the whole of a reconciliation. */
  function Stops(m: Runners, desired: map<string, Spec>, w: World): set<string> {
    set id | id in m && IsStopped(Probed(m, id, w), Wanted(desired, id))
  }

  function StopErrors(m: Runners, desired: map<string, Spec>, w: World): set<string> {
    set id | id in m && StopErrs(Probed(m, id, w), Wanted(desired, id), w.stop(id))
  }

  function Spawns(m: Runners, desired: map<string, Spec>, w: World): set<string> {
    set id | id in desired && IsSpawned(Halfway(m, desired, w, id), Wanted(desired, id), w.spawn(id))
  }

  function SpawnErrors(m: Runners, desired: map<string, Spec>, w: World): set<string> {
    set id | id in desired && SpawnErrs(Halfway(m, desired, w, id), Wanted(desired, id), w.spawn(id))
  }

  // ---------------------------------------------------------------- the order of ids

  /** The ids are walked in order; this one comes first. */
  ghost predicate IsLeast(ids: set<string>, id: string) {
    id in ids && forall other <- ids :: other == id || Lt(id, other)
  }

  lemma LesserOfTwo(a: string, b: string, other: string)
    requires Lt(b, a) && (other == a || Lt(a, other))
    ensures Lt(b, other)
  {
    if Lt(a, other) {
      LtTransitive(b, a, other);
    }
  }

  method Least(ids: set<string>) returns (id: string)
    requires ids != {}
    ensures IsLeast(ids, id)
  {
    id :| id in ids;
    var rest := ids - {id};
    while rest != {}
      invariant rest <= ids && IsLeast(ids - rest, id)
      decreases |rest|
    {
      var next :| next in rest;
      LtTotal(id, next);
      ghost var before, seen := id, ids - rest;
      if Lt(next, id) {
        id := next;
        forall other | other in seen ensures Lt(next, other) {
          LesserOfTwo(before, next, other);
        }
      }
      rest := rest - {next};
      assert ids - rest == seen + {next};
    }
    assert ids - rest == ids;
  }

  ghost predicate InIdOrder(errors: seq<Error>) {
    forall i, j | 0 <= i < j < |errors| :: Lt(errors[i].runnerId, errors[j].runnerId)
  }

  /** Errors in order, all of ids before those still to come. */
  ghost predicate OrderInv(errors: seq<Error>, todo: set<string>) {
    InIdOrder(errors) && forall e <- errors, id <- todo :: Lt(e.runnerId, id)
  }

  lemma OrderStep(errors: seq<Error>, todo: set<string>, id: string, error: Option<Error>)
    requires OrderInv(errors, todo) && IsLeast(todo, id) && (error.Some? ==> error.value.runnerId == id)
    ensures OrderInv(if error.Some? then errors + [error.value] else errors, todo - {id})
  {
    forall i | 0 <= i < |errors| ensures Lt(errors[i].runnerId, id) {
      assert errors[i] in errors;
    }
  }

  // ---------------------------------------------------------------- all runners

  /** Later descriptions of a runner id replace earlier ones. */
  function Desired(specs: seq<Spec>): map<string, Spec> {
    if specs == [] then map[]
    else Desired(specs[..|specs| - 1])[specs[|specs| - 1].runnerId := specs[|specs| - 1]]
  }

  /** Each id has the last description given for it. */
  lemma {:induction false} DesiredIsTheLast(specs: seq<Spec>, n: nat)
    requires n < |specs| && forall k | n < k < |specs| :: specs[k].runnerId != specs[n].runnerId
    ensures specs[n].runnerId in Desired(specs) && Desired(specs)[specs[n].runnerId] == specs[n]
  {
    if n < |specs| - 1 {
      DesiredIsTheLast(specs[..|specs| - 1], n);
    }
  }

  function Started(m: Runners, spec: Spec, w: World): Runners {
    var r := At(m, spec.runnerId);
    if (r.Some? && r.value.state.Running?) || w.spawn(spec.runnerId).None? then m
    else m[spec.runnerId := Fresh(spec, w.spawn(spec.runnerId).value)]
  }

  function Halted(m: Runners, id: string, w: World): Runners {
    if id in m then m[id := AfterStop(m[id], w.stop(id))] else m
  }

  /** Stopped, and spawned again with one more restart if both go well. */
  function Restarted(m: Runners, id: string, w: World): Runners {
    if id in m && !StopFails(m[id], w.stop(id)) && w.spawn(id).Some?
    then m[id := Fresh(m[id].spec, w.spawn(id).value).(restarts := m[id].restarts + 1)]
    else Halted(m, id, w)
  }

  function Reconciled(m: Runners, desired: map<string, Spec>, w: World): Runners {
    map id | id in m.Keys + desired.Keys && Settled(m, desired, w, id).Some? :: Settled(m, desired, w, id).value
  }

  function Listed(m: Runners, w: World): Runners {
    map id | id in m :: Refreshed(m[id], w.probe(id))
  }

  function WithChild(m: Runners): set<string> {
    set id | id in m && m[id].child.Some?
  }

  function ShutDown(m: Runners, w: World): Runners {
    map id | id in m :: AfterStop(m[id], w.stop(id))
  }

  ghost predicate KeysMatch(m: Runners) {
    forall id <- m :: m[id].spec.runnerId == id
  }

  // ---------------------------------------------------------------- the supervisor

  class Supervisor {
    var runners: Runners
    /** How many children were spawned, and how many told to stop, so far, by runner id. */
    var spawned: multiset<string>
    var stopped: multiset<string>

    constructor ()
      ensures runners == map[] && spawned == multiset{} && stopped == multiset{}
    {
      runners := map[];
      spawned, stopped := multiset{}, multiset{};
    }

    method SpawnChild(spec: Spec, w: World) returns (child: Result<nat, Error>)
      modifies `spawned
      ensures w.spawn(spec.runnerId).Some? ==>
                child == Ok(w.spawn(spec.runnerId).value) && spawned == old(spawned) + multiset{spec.runnerId}
      ensures w.spawn(spec.runnerId).None? ==>
                child == Err(Error(SpawnFailed, spec.runnerId)) && spawned == old(spawned)
    {
      match w.spawn(spec.runnerId) {
        case None => child := Err(Error(SpawnFailed, spec.runnerId));
        case Some(pid) =>
          spawned := spawned + multiset{spec.runnerId};
          child := Ok(pid);
      }
    }

    method StopChild(id: string, course: StopCourse) returns (error: Option<Error>)
      requires id in runners
      modifies `runners, `stopped
      ensures runners == old(runners)[id := AfterStop(old(runners[id]), course)]
      ensures error == if StopFails(old(runners[id]), course)
                       then Some(Error(StopFailed, old(runners[id]).spec.runnerId))
                       else None
      ensures stopped == old(stopped) + (if old(runners[id]).child.Some? then multiset{id} else multiset{})
    {
      var runner := runners[id];
      if runner.child.None? {
        runners := runners[id := runner.(state := Stopped)];
        return None;
      }
      stopped := stopped + multiset{id};
      runner := runner.(child := None);
      runners := runners[id := runner];
      if course.KillFailed? {
        return Some(Error(StopFailed, runner.spec.runnerId));
      }
      runners := runners[id := runner.(state := Stopped)];
      error := None;
    }

    method Start(spec: Spec, w: World) returns (error: Option<Error>)
      modifies this
      ensures var r, id := At(old(runners), spec.runnerId), spec.runnerId;
              error == if r.Some? && r.value.state.Running? then Some(Error(AlreadyRunning, id))
                       else if w.spawn(id).None? then Some(Error(SpawnFailed, id)) else None
      ensures runners == Started(old(runners), spec, w)
      ensures error.Some? ==> spawned == old(spawned)
    {
      if spec.runnerId in runners && runners[spec.runnerId].state.Running? {
        return Some(Error(AlreadyRunning, spec.runnerId));
      }
      var child := SpawnChild(spec, w);
      if child.Err? {
        return Some(child.error);
      }
      runners := runners[spec.runnerId := Runner(spec, Some(child.value), Running, 0, None)];
      error := None;
    }

    /** Counts restarts; a failed spawn leaves the runner stopped. */
    method Restart(id: string, w: World) returns (error: Option<Error>)
      requires KeysMatch(runners)
      modifies this
      ensures error == if id !in old(runners) then Some(Error(UnknownRunner, id))
                       else if StopFails(old(runners[id]), w.stop(id)) then Some(Error(StopFailed, id))
                       else if w.spawn(id).None? then Some(Error(SpawnFailed, id)) else None
      ensures runners == Restarted(old(runners), id, w)
    {
      if id !in runners {
        return Some(Error(UnknownRunner, id));
      }
      error := StopChild(id, w.stop(id));
      if error.Some? {
        return;
      }
      var child := SpawnChild(runners[id].spec, w);
      if child.Err? {
        return Some(child.error);
      }
      var runner := runners[id].(child := Some(child.value), state := Running);
      runner := runner.(restarts := runner.restarts + 1, lastError := None);
      runners := runners[id := runner];
    }

    method Stop(id: string, w: World) returns (error: Option<Error>)
      requires KeysMatch(runners)
      modifies this
      ensures error == if id !in old(runners) then Some(Error(UnknownRunner, id))
                       else if StopFails(old(runners[id]), w.stop(id)) then Some(Error(StopFailed, id)) else None
      ensures runners == Halted(old(runners), id, w)
    {
      if id !in runners {
        return Some(Error(UnknownRunner, id));
      }
      error := StopChild(id, w.stop(id));
      if error.Some? {
        return;
      }
      runners := runners[id := runners[id].(state := Stopped)];
    }

    /** Asks the child of one runner for its exit status. */
    method RefreshRunner(id: string, probe: Probe)
      requires id in runners
      modifies `runners
      ensures runners == old(runners)[id := Refreshed(old(runners)[id], probe)]
    {
      var runner := runners[id];
      if runner.child.None? {
        assert runners == runners[id := runner];
        return;
      }
      match probe {
        case ExitedWith(code) =>
          runner := runner.(state := Exited(code));
          runner := runner.(child := None);
        case StillRunning => runner := runner.(state := Running);
        case Unreadable(message) =>
          runner := runner.(state := Failed);
          runner := runner.(lastError := Some(message));
      }
      runners := runners[id := runner];
    }

    /** Asks every child for its exit status. */
    method RefreshAll(w: World)
      modifies `runners
      ensures forall id :: At(runners, id) == Probed(old(runners), id, w)
    {
      var todo := runners.Keys;
      while todo != {}
        invariant todo <= runners.Keys
        invariant forall id ::
          At(runners, id) == if id in todo then At(old(runners), id) else Probed(old(runners), id, w)
        decreases |todo|
      {
        var id :| id in todo;
        todo := todo - {id};
        assert At(runners, id) == Some(runners[id]);
        RefreshRunner(id, w.probe(id));
      }
    }

    /** The runners in the order of their ids, each as its probe says. */
    method List(w: World) returns (snapshots: seq<Runner>)
      modifies `runners
      ensures runners == Listed(old(runners), w)
      ensures |snapshots| == |runners|
      ensures KeysMatch(old(runners)) ==>
                && (forall r <- snapshots :: At(runners, r.spec.runnerId) == Some(r))
                && forall i, j | 0 <= i < j < |snapshots| :: Lt(snapshots[i].spec.runnerId, snapshots[j].spec.runnerId)
    {
      ghost var before := runners;
      RefreshAll(w);
      IsListed(before, w, runners);
      var todo := runners.Keys;
      snapshots := [];
      while todo != {}
        invariant runners == Listed(before, w) && todo <= runners.Keys && |snapshots| + |todo| == |runners|
        invariant KeysMatch(before) ==> SnapshotInv(runners, snapshots, todo)
        decreases |todo|
      {
        var id := Least(todo);
        if KeysMatch(before) {
          SnapshotStep(runners, snapshots, todo, id);
        }
        snapshots := snapshots + [runners[id]];
        todo := todo - {id};
      }
    }

    /** Every child is stopped; a failed kill is not reported. */
    method Shutdown(w: World)
      modifies `runners, `stopped
      ensures runners == ShutDown(old(runners), w)
      ensures stopped == old(stopped) + multiset(WithChild(old(runners)))
    {
      ghost var before, base := runners, stopped;
      var todo := runners.Keys;
      assert WithChild(before) - todo == {};
      while todo != {}
        invariant todo <= before.Keys && ShutdownInv(before, base, w, todo, runners, stopped)
        decreases |todo|
      {
        var id := Least(todo);
        ghost var now, log := runners, stopped;
        var error := StopChild(id, w.stop(id));
        ShutdownStep(before, base, w, todo, now, log, id, runners, stopped);
        todo := todo - {id};
      }
      assert WithChild(before) - todo == WithChild(before);
    }

    /** A runner that is not wanted, or not as it is, is stopped and removed. */
    method ClearOne(id: string, desired: map<string, Spec>, w: World) returns (error: Option<Error>)
      requires id in runners && KeysMatch(runners)
      modifies `runners, `stopped
      ensures At(runners, id) == Cleared(At(old(runners), id), Wanted(desired, id), w.stop(id))
      ensures forall other | other != id :: At(runners, other) == At(old(runners), other)
      ensures KeysMatch(runners) && old(runners.Keys) - {id} <= runners.Keys
      ensures error == if StopErrs(At(old(runners), id), Wanted(desired, id), w.stop(id))
                       then Some(Error(StopFailed, id)) else None
      ensures stopped == if IsStopped(At(old(runners), id), Wanted(desired, id)) then old(stopped) + multiset{id}
                         else old(stopped)
    {
      var shouldRemove := id !in desired;
      var shouldReplace := id in desired && runners[id].spec != desired[id];
      if !shouldRemove && !shouldReplace {
        return None;
      }
      error := StopChild(id, w.stop(id));
      if error.Some? {
        return;
      }
      runners := runners - {id};
    }

    /** First phase: clears all runners. */
    method ClearUnwanted(desired: map<string, Spec>, w: World) returns (errors: seq<Error>)
      requires KeysMatch(runners)
      modifies `runners, `stopped
      ensures forall id :: At(runners, id) == Cleared(At(old(runners), id), Wanted(desired, id), w.stop(id))
      ensures Report(errors, Unstoppable(old(runners), desired, w), StopFailed) && InIdOrder(errors)
      ensures stopped == old(stopped) + multiset(Unwanted(old(runners), desired))
    {
      ghost var before, base := runners, stopped;
      var todo := runners.Keys;
      errors := [];
      ClearStarts(before, base, desired, w);
      while todo != {}
        invariant todo <= runners.Keys && todo <= before.Keys && KeysMatch(runners)
        invariant OrderInv(errors, todo)
        invariant ClearInv(before, base, desired, w, todo, runners, errors, stopped)
        decreases |todo|
      {
        var id := Least(todo);
        ghost var now, log := runners, stopped;
        assert At(now, id) == At(before, id);
        var error := ClearOne(id, desired, w);
        ClearStep(before, base, desired, w, todo, now, errors, log, id, runners, error, stopped);
        OrderStep(errors, todo, id, error);
        errors := if error.Some? then errors + [error.value] else errors;
        todo := todo - {id};
      }
      ClearEnds(before, base, desired, w, runners, errors, stopped);
    }

    method FillOne(id: string, spec: Spec, w: World) returns (error: Option<Error>)
      requires spec.runnerId == id
      modifies `runners, `spawned
      ensures At(runners, id) == Filled(At(old(runners), id), Some(spec), w.spawn(id))
      ensures forall other | other != id :: At(runners, other) == At(old(runners), other)
      ensures error == if NeedsStart(At(old(runners), id), Some(spec)) && w.spawn(id).None?
                       then Some(Error(SpawnFailed, id))
                       else None
      ensures spawned == if IsSpawned(At(old(runners), id), Some(spec), w.spawn(id)) then old(spawned) + multiset{id}
                         else old(spawned)
    {
      if id in runners && runners[id].state.Running? {
        return None;
      }
      var child := SpawnChild(spec, w);
      match child {
        case Ok(pid) =>
          runners := runners[id := Runner(spec, Some(pid), Running, 0, None)];
          error := None;
        case Err(reason) =>
          error := Some(reason);
      }
    }

    /** Second phase: what is wanted and does not run is spawned. */
    method FillMissing(desired: map<string, Spec>, w: World) returns (errors: seq<Error>)
      requires forall id <- desired :: desired[id].runnerId == id
      modifies `runners, `spawned
      ensures forall id :: At(runners, id) == Filled(At(old(runners), id), Wanted(desired, id), w.spawn(id))
      ensures Report(errors, Unspawnable(old(runners), desired, w), SpawnFailed) && InIdOrder(errors)
      ensures spawned == old(spawned) + multiset(Startable(old(runners), desired, w))
    {
      ghost var before, base := runners, spawned;
      var todo := desired.Keys;
      errors := [];
      FillStarts(before, base, desired, w);
      while todo != {}
        invariant todo <= desired.Keys
        invariant OrderInv(errors, todo)
        invariant FillInv(before, base, desired, w, todo, runners, errors, spawned)
        decreases |todo|
      {
        var id := Least(todo);
        ghost var now, log := runners, spawned;
        assert At(now, id) == At(before, id);
        var error := FillOne(id, desired[id], w);
        FillStep(before, base, desired, w, todo, now, errors, log, id, runners, error, spawned);
        OrderStep(errors, todo, id, error);
        errors := if error.Some? then errors + [error.value] else errors;
        todo := todo - {id};
      }
      FillEnds(before, base, desired, w, runners, errors, spawned);
    }

    /** The first `split` errors are those of the first phase, each phase in the order of ids. */
    method Reconcile(specs: seq<Spec>, w: World) returns (errors: seq<Error>, ghost split: nat)
      requires KeysMatch(runners)
      modifies this
      ensures runners == Reconciled(old(runners), Desired(specs), w)
      ensures split <= |errors| && Report(errors[..split], StopErrors(old(runners), Desired(specs), w), StopFailed)
      ensures Report(errors[split..], SpawnErrors(old(runners), Desired(specs), w), SpawnFailed)
      ensures InIdOrder(errors[..split]) && InIdOrder(errors[split..])
      ensures stopped == old(stopped) + multiset(Stops(old(runners), Desired(specs), w))
      ensures spawned == old(spawned) + multiset(Spawns(old(runners), Desired(specs), w))
    {
      var desired := CollectDesired(specs);
      RefreshAll(w);
      RefreshKeepsKeys(old(runners), runners, w);
      assert Unwanted(runners, desired) == Stops(old(runners), desired, w);
      assert Unstoppable(runners, desired, w) == StopErrors(old(runners), desired, w);
      errors := ClearUnwanted(desired, w);
      assert Startable(runners, desired, w) == Spawns(old(runners), desired, w);
      assert Unspawnable(runners, desired, w) == SpawnErrors(old(runners), desired, w);
      var spawnErrors := FillMissing(desired, w);
      split := |errors|;
      assert (errors + spawnErrors)[..split] == errors && (errors + spawnErrors)[split..] == spawnErrors;
      errors := errors + spawnErrors;
      IsReconciled(old(runners), desired, w, runners);
    }
  }

  lemma IsReconciled(m: Runners, desired: map<string, Spec>, w: World, next: Runners)
    requires forall id :: At(next, id) == Settled(m, desired, w, id)
    ensures next == Reconciled(m, desired, w)
  {
    forall id ensures id in next <==> id in Reconciled(m, desired, w) {
      assert At(next, id) == Settled(m, desired, w, id);
    }
    forall id | id in next ensures next[id] == Reconciled(m, desired, w)[id] {
      assert At(next, id) == Settled(m, desired, w, id);
    }
  }

  lemma IsListed(before: Runners, w: World, after: Runners)
    requires forall id :: At(after, id) == Probed(before, id, w)
    ensures after == Listed(before, w)
  {
    forall id
      ensures (id in after <==> id in before) && (id in after ==> after[id] == Refreshed(before[id], w.probe(id)))
    {
      assert At(after, id) == Probed(before, id, w);
    }
  }

  /** Snapshots of the ids already walked. */
  ghost predicate SnapshotInv(m: Runners, snapshots: seq<Runner>, todo: set<string>) {
    && KeysMatch(m) && (forall r <- snapshots :: At(m, r.spec.runnerId) == Some(r))
    && (forall i, j | 0 <= i < j < |snapshots| :: Lt(snapshots[i].spec.runnerId, snapshots[j].spec.runnerId))
    && (forall r <- snapshots, id <- todo :: Lt(r.spec.runnerId, id))
  }

  lemma SnapshotStep(m: Runners, snapshots: seq<Runner>, todo: set<string>, id: string)
    requires SnapshotInv(m, snapshots, todo) && IsLeast(todo, id) && id in m
    ensures SnapshotInv(m, snapshots + [m[id]], todo - {id})
  {
    forall i | 0 <= i < |snapshots| ensures Lt(snapshots[i].spec.runnerId, id) {
      assert snapshots[i] in snapshots;
    }
  }

  /** Where the shutdown stands when the runner ids in `todo` are still to come. */
  ghost predicate ShutdownInv(before: Runners, base: multiset<string>, w: World, todo: set<string>, m: Runners,
                              log: multiset<string>)
  {
    && m.Keys == before.Keys
    && (forall id <- before :: m[id] == if id in todo then before[id] else AfterStop(before[id], w.stop(id)))
    && log == base + multiset(WithChild(before) - todo)
  }

  lemma ShutdownStep(before: Runners, base: multiset<string>, w: World, todo: set<string>, m: Runners,
                     log: multiset<string>, id: string, next: Runners, nextLog: multiset<string>)
    requires ShutdownInv(before, base, w, todo, m, log) && id in todo && id in before
    requires next == m[id := AfterStop(before[id], w.stop(id))]
    requires nextLog == log + (if before[id].child.Some? then multiset{id} else multiset{})
    ensures ShutdownInv(before, base, w, todo - {id}, next, nextLog)
  {
    OneTaken(base, WithChild(before), todo, id);
  }

  lemma RefreshKeepsKeys(before: Runners, after: Runners, w: World)
    requires KeysMatch(before) && forall id :: At(after, id) == Probed(before, id, w)
    ensures KeysMatch(after) && after.Keys == before.Keys
  {
    forall id ensures (id in after <==> id in before) && (id in after ==> after[id].spec.runnerId == id) {
      assert At(after, id) == Probed(before, id, w);
    }
  }

  method CollectDesired(specs: seq<Spec>) returns (desired: map<string, Spec>)
    ensures desired == Desired(specs) && forall id <- desired :: desired[id].runnerId == id
  {
    desired := map[];
    for n := 0 to |specs|
      invariant desired == Desired(specs[..n]) && forall id <- desired :: desired[id].runnerId == id
    {
      assert specs[..n + 1][..n] == specs[..n];
      desired := desired[specs[n].runnerId := specs[n]];
    }
    assert specs[..|specs|] == specs;
  }

  // ---------------------------------------------------------------- what reconciling achieves

  // The facts about one runner id before a reconciliation, and what the operating system says of it.

  predicate Unchanged(m: Runners, desired: map<string, Spec>, id: string) {
    id in m && id in desired && m[id].spec == desired[id]
  }

  /** There is a child, and it has not exited. */
  predicate HasChild(m: Runners, w: World, id: string) {
    id in m && m[id].child.Some? && !w.probe(id).ExitedWith?
  }

  predicate CannotBeStopped(m: Runners, desired: map<string, Spec>, w: World, id: string) {
    HasChild(m, w, id) && !Unchanged(m, desired, id) && w.stop(id).KillFailed?
  }

  /** The child was seen running; or there is none, and the state says running all the same. */
  predicate CountsAsRunning(m: Runners, w: World, id: string) {
    id in m && if m[id].child.Some? then w.probe(id).StillRunning? else m[id].state.Running?
  }

  /** What the probe shows of a child. */
  function Seen(r: Runner, p: Probe): ProcessState {
    if r.child.None? then r.state
    else if p.ExitedWith? then Exited(p.code)
    else if p.Unreadable? then Failed
    else Running
  }

  /** An existing runner that reconciling does not replace. */
  ghost predicate Remains(m: Runners, desired: map<string, Spec>, w: World, id: string, r: Runner)
    requires id in m
  {
    && r.spec == m[id].spec && r.restarts == m[id].restarts && r.state == Seen(m[id], w.probe(id))
    && r.child == (if HasChild(m, w, id) && !CannotBeStopped(m, desired, w, id) then m[id].child else None)
    && r.lastError == (if m[id].child.Some? && w.probe(id).Unreadable? then Some(w.probe(id).message)
                       else m[id].lastError)
  }

  /**
    What one reconciliation does, from the facts alone. It stops the children of the runners that are not wanted as
    they are, and spawns every wanted runner that is not seen running, or was stopped for it. What is spawned starts
    afresh; an unchanged runner, or one that cannot be stopped, remains as the probe shows it; all others are gone.
   */
  lemma ReconcileExactly(m: Runners, desired: map<string, Spec>, w: World, id: string)
    ensures var stays := Unchanged(m, desired, id) || CannotBeStopped(m, desired, w, id);
            var starts := id in desired && !(stays && CountsAsRunning(m, w, id));
            && (id in Stops(m, desired, w) <==> HasChild(m, w, id) && !Unchanged(m, desired, id))
            && (id in StopErrors(m, desired, w) <==> CannotBeStopped(m, desired, w, id))
            && (id in Spawns(m, desired, w) <==> starts && w.spawn(id).Some?)
            && (id in SpawnErrors(m, desired, w) <==> starts && w.spawn(id).None?)
            && var r := At(Reconciled(m, desired, w), id);
               if starts && w.spawn(id).Some? then r == Some(Runner(desired[id], w.spawn(id), Running, 0, None))
               else if stays then r.Some? && Remains(m, desired, w, id, r.value)
               else r.None?
  {
    assert At(Reconciled(m, desired, w), id) == Settled(m, desired, w, id);
  }

  /** A child that has exited is replaced, or its runner is shown as exited and named in an error. */
  lemma ExitIsNoticed(m: Runners, desired: map<string, Spec>, w: World, id: string, code: int)
    requires Unchanged(m, desired, id) && m[id].child.Some? && w.probe(id) == ExitedWith(code)
    ensures if w.spawn(id).Some?
            then id in Spawns(m, desired, w)
                 && At(Reconciled(m, desired, w), id) == Some(Runner(desired[id], w.spawn(id), Running, 0, None))
            else id in SpawnErrors(m, desired, w)
                 && At(Reconciled(m, desired, w), id)
                    == Some(m[id].(child := None, state := Exited(code)))
  {
    ReconcileExactly(m, desired, w, id);
  }

  /** A listing shows an exit without a child, and a child that cannot be asked as failed with the reason. */
  lemma ListShowsTheProbe(m: Runners, w: World, id: string)
    requires id in m
    ensures id in Listed(m, w)
    ensures var r, was := Listed(m, w)[id], m[id];
            && r.spec == was.spec && r.restarts == was.restarts && r.state == Seen(was, w.probe(id))
            && r.child == (if HasChild(m, w, id) then was.child else None)
            && r.lastError == (if was.child.Some? && w.probe(id).Unreadable? then Some(w.probe(id).message)
                               else was.lastError)
  {
  }

  /** The runner id is not as desired. */
  ghost predicate Misses(m: Runners, desired: map<string, Spec>, id: string) {
    if id in desired then !(id in m && m[id].spec == desired[id] && m[id].state.Running?) else id in m
  }

  ghost predicate Quiet(m: Runners, desired: map<string, Spec>, w: World) {
    StopErrors(m, desired, w) == {} && SpawnErrors(m, desired, w) == {}
  }

  /** Every runner id that is not as desired afterwards is named in an error. */
  lemma MissesAreNamed(m: Runners, desired: map<string, Spec>, w: World, id: string)
    requires Misses(Reconciled(m, desired, w), desired, id)
    ensures id in StopErrors(m, desired, w) || id in SpawnErrors(m, desired, w)
  {
    assert At(Reconciled(m, desired, w), id) == Settled(m, desired, w, id);
  }

  /** The child was spawned by this reconciliation, or has just been seen running. */
  ghost predicate TrulyRuns(m: Runners, w: World, id: string, r: Runner) {
    r.child.Some? && (r.child == w.spawn(id) || (id in m && r.child == m[id].child && w.probe(id).StillRunning?))
  }

  /**
    Without an error the runners are exactly the desired ones, each running with its desired description; and every
    child is one that was just spawned or just seen running.
   */
  lemma Converges(m: Runners, desired: map<string, Spec>, w: World)
    requires Quiet(m, desired, w)
    ensures Reconciled(m, desired, w).Keys == desired.Keys
    ensures forall id <- desired ::
              var r := Reconciled(m, desired, w)[id];
              r.spec == desired[id] && r.state.Running? && (r.child.Some? ==> TrulyRuns(m, w, id, r))
  {
    var next := Reconciled(m, desired, w);
    forall id ensures !Misses(next, desired, id) {
      if Misses(next, desired, id) {
        MissesAreNamed(m, desired, w, id);
      }
    }
    forall id ensures id in next <==> id in desired {
      assert !Misses(next, desired, id);
    }
    forall id | id in desired
      ensures next[id].spec == desired[id] && next[id].state.Running?
      ensures next[id].child.Some? ==> TrulyRuns(m, w, id, next[id])
    {
      assert !Misses(next, desired, id);
      ReconcileExactly(m, desired, w, id);
    }
  }

  /** A child that still runs, of a runner whose description is unchanged, is left alone. */
  lemma RunningIsKept(m: Runners, desired: map<string, Spec>, w: World, id: string)
    requires id in m && id in desired && m[id].spec == desired[id] && m[id].child.Some? && w.probe(id).StillRunning?
    ensures At(Reconciled(m, desired, w), id) == Some(m[id].(state := Running))
    ensures id !in Stops(m, desired, w) && id !in Spawns(m, desired, w)
  {
    assert At(Reconciled(m, desired, w), id) == Settled(m, desired, w, id);
  }

  /** Reconciling again to the same descriptions, with no exit in between, stops and spawns nothing. */
  lemma SecondRunIsIdle(m: Runners, desired: map<string, Spec>, w: World, again: World)
    requires Quiet(m, desired, w) && forall id :: again.probe(id).StillRunning?
    ensures var next := Reconciled(m, desired, w);
            && Reconciled(next, desired, again) == next
            && Stops(next, desired, again) == {} && Spawns(next, desired, again) == {} && Quiet(next, desired, again)
  {
    var next := Reconciled(m, desired, w);
    Converges(m, desired, w);
    forall id ensures Probed(next, id, again) == At(next, id) {
    }
    forall id ensures At(next, id) == Settled(next, desired, again, id) {
    }
    IsReconciled(next, desired, again, next);
  }

  // ---------------------------------------------------------------- runners that have lost their child

  /** Running, says the state, but there is no child. */
  ghost predicate Orphan(r: Runner) {
    r.state.Running? && r.child.None?
  }

  ghost predicate NoOrphan(m: Runners) {
    forall id <- m :: !Orphan(m[id])
  }

  datatype Operation =
    | DoStart(spec: Spec)
    | DoList
    | DoRestart(id: string)
    | DoStop(id: string)
    | DoReconcile(specs: seq<Spec>)
    | DoShutdown

  function Apply(m: Runners, op: Operation, w: World): Runners {
    match op
    case DoStart(spec) => Started(m, spec, w)
    case DoList => Listed(m, w)
    case DoShutdown => ShutDown(m, w)
    case DoRestart(id) => Restarted(m, id, w)
    case DoStop(id) => Halted(m, id, w)
    case DoReconcile(specs) => Reconciled(m, Desired(specs), w)
  }

  /** A kill fails on a runner in the running state. */
  ghost predicate LosesChild(m: Runners, op: Operation, w: World) {
    match op
    case DoStart(_) => false
    case DoList => false
    case DoShutdown => exists id <- m :: m[id].state.Running? && StopFails(m[id], w.stop(id))
    case DoRestart(id) => id in m && m[id].state.Running? && StopFails(m[id], w.stop(id))
    case DoStop(id) => id in m && m[id].state.Running? && StopFails(m[id], w.stop(id))
    case DoReconcile(specs) =>
      exists id <- StopErrors(m, Desired(specs), w) :: Refreshed(m[id], w.probe(id)).state.Running?
  }

  lemma ReconcileMakesOrphans(m: Runners, desired: map<string, Spec>, w: World, id: string)
    requires NoOrphan(m)
    ensures id in Reconciled(m, desired, w) && Orphan(Reconciled(m, desired, w)[id])
       <==> id in StopErrors(m, desired, w) && Refreshed(m[id], w.probe(id)).state.Running?
  {
    assert At(Reconciled(m, desired, w), id) == Settled(m, desired, w, id);
  }

  /** An operation leaves a runner marked as running without a child exactly when a kill of a running one fails. */
  lemma OrphansComeFromFailedKills(m: Runners, op: Operation, w: World)
    requires NoOrphan(m)
    ensures NoOrphan(Apply(m, op, w)) <==> !LosesChild(m, op, w)
  {
    match op {
      case DoStart(spec) =>
      case DoList =>
      case DoShutdown =>
        if LosesChild(m, op, w) {
          var id :| id in m && m[id].state.Running? && StopFails(m[id], w.stop(id));
          assert Orphan(Apply(m, op, w)[id]);
        }
      case DoRestart(id) =>
        if LosesChild(m, op, w) {
          assert Orphan(Apply(m, op, w)[id]);
        }
      case DoStop(id) =>
        if LosesChild(m, op, w) {
          assert Orphan(Apply(m, op, w)[id]);
        }
      case DoReconcile(specs) =>
        forall id ensures id in Apply(m, op, w) && Orphan(Apply(m, op, w)[id])
                     <==> id in StopErrors(m, Desired(specs), w) && Refreshed(m[id], w.probe(id)).state.Running?
        {
          ReconcileMakesOrphans(m, Desired(specs), w, id);
        }
    }
  }

  /** An orphan with a wanted description is never found out: no probe, start or reconciliation replaces it. */
  lemma OrphansStay(m: Runners, desired: map<string, Spec>, spec: Spec, w: World, id: string)
    requires id in m && Orphan(m[id]) && id in desired && m[id].spec == desired[id] && spec.runnerId == id
    ensures At(Reconciled(m, desired, w), id) == Some(m[id])
    ensures id !in Spawns(m, desired, w) && id !in StopErrors(m, desired, w) && id !in SpawnErrors(m, desired, w)
    ensures Started(m, spec, w) == m
  {
    assert At(Reconciled(m, desired, w), id) == Settled(m, desired, w, id);
  }

  lemma {:induction false} DesiredMatches(specs: seq<Spec>)
    ensures forall id <- Desired(specs) :: Desired(specs)[id].runnerId == id
  {
    if specs != [] {
      DesiredMatches(specs[..|specs| - 1]);
    }
  }

  /** Every operation keeps the runners filed under their own id. */
  lemma KeysAreKept(m: Runners, op: Operation, w: World)
    requires KeysMatch(m)
    ensures KeysMatch(Apply(m, op, w))
  {
    if op.DoReconcile? {
      var next := Apply(m, op, w);
      DesiredMatches(op.specs);
      forall id | id in next ensures next[id].spec.runnerId == id {
        assert At(next, id) == Settled(m, Desired(op.specs), w, id);
      }
    }
  }

  function Run(m: Runners, ops: seq<(Operation, World)>): Runners {
    if ops == [] then m else Apply(Run(m, ops[..|ops| - 1]), ops[|ops| - 1].0, ops[|ops| - 1].1)
  }

  /** No kill of a running runner fails anywhere in the run. */
  ghost predicate KillsWork(m: Runners, ops: seq<(Operation, World)>) {
    ops == []
    || (var front, last := ops[..|ops| - 1], ops[|ops| - 1];
        KillsWork(m, front) && !LosesChild(Run(m, front), last.0, last.1))
  }

  lemma {:induction false} RunsKeepChildren(m: Runners, ops: seq<(Operation, World)>)
    requires NoOrphan(m) && KillsWork(m, ops)
    ensures NoOrphan(Run(m, ops))
  {
    if ops != [] {
      var front, last := ops[..|ops| - 1], ops[|ops| - 1];
      RunsKeepChildren(m, front);
      OrphansComeFromFailedKills(Run(m, front), last.0, last.1);
    }
  }

  /** After any run in which kills work, an error-free reconciliation leaves every desired runner with a child. */
  lemma ConvergesWithChildren(ops: seq<(Operation, World)>, specs: seq<Spec>, w: World)
    requires KillsWork(map[], ops) && Quiet(Run(map[], ops), Desired(specs), w)
    ensures var next := Reconciled(Run(map[], ops), Desired(specs), w);
            && next.Keys == Desired(specs).Keys
            && forall id <- next ::
                 next[id].spec == Desired(specs)[id] && next[id].state.Running?
                 && TrulyRuns(Run(map[], ops), w, id, next[id])
  {
    var m, desired := Run(map[], ops), Desired(specs);
    RunsKeepChildren(map[], ops);
    Converges(m, desired, w);
    forall id | id in Reconciled(m, desired, w) ensures !Orphan(Reconciled(m, desired, w)[id]) {
      ReconcileMakesOrphans(m, desired, w, id);
    }
  }
}
