/** The lifecycle actor that starts, watches, restarts and stops one event source. */
module EventSource {
  import opened Wrappers

  const U32_MAX: nat := 0xFFFF_FFFF

  datatype Phase = Starting | Running | Restarting | Stopping | Stopped | Failed

  datatype Health = Healthy | Degraded(error: string) | Unhealthy(error: string)

  datatype Label = UnknownHealth | HealthyLabel | DegradedLabel | UnhealthyLabel

  datatype Command = Restart | Shutdown

  /** `start` panics, or returns a future and the source then reports its health (a panic there is unhealthy). */
  datatype StartOutcome = Started(health: Health) | StartPanicked(message: string)

  /** A panic, an error, a panicking future and a timeout of `shutdown` all end in a message. */
  datatype StopOutcome = Clean | StopFailed(message: string)

  /**
    What reaches the actor at an await point: the source's future ends, the health interval ticks, or the command
    channel yields a command or closes. A command comes with how `shutdown` and a later `start` will go.
   */
  datatype Turn =
    | Ended(message: string)
    | Tick(health: Health)
    | Received(command: Option<Command>, stop: StopOutcome, start: StartOutcome)

  /** What the actor does to the source and its future, generation by generation. */
  datatype Event =
    | Launch(generation: nat, ok: bool)
    | Exit
    | Handle(restart: bool)
    | Fire(generation: nat)
    | Stop(clean: bool)
    | Drop

  datatype Status = Status(state: Phase, health: Label, lastError: Option<string>, reconnects: nat)

  /** Awaiting in the select loop, awaiting a command only, or returned. */
  datatype Mode = Up | Down | Over

  /** `held` is the number of source futures the actor owns. */
  datatype Snapshot = Snapshot(mode: Mode, status: Status, log: seq<Event>, held: nat)

  // ---------------------------------------------------------------- the flat state machine

  function LabelOf(h: Health): Label {
    match h
    case Healthy => HealthyLabel
    case Degraded(_) => DegradedLabel
    case Unhealthy(_) => UnhealthyLabel
  }

  function WithFailure(s: Status, message: string): Status {
    s.(state := Failed, lastError := Some(message))
  }

  function WithHealth(s: Status, h: Health): Status {
    s.(health := LabelOf(h), lastError := if h.Healthy? then s.lastError else Some(h.error))
  }

  function Saturating(n: nat): nat {
    if n < U32_MAX then n + 1 else U32_MAX
  }

  function Launches(log: seq<Event>): nat {
    if log == [] then 0 else Launches(log[..|log| - 1]) + (if log[|log| - 1].Launch? then 1 else 0)
  }

  /** The status once a command is handled and `shutdown` has gone this way. */
  function ToldStatus(s: Status, restart: bool, stop: StopOutcome): Status {
    var told := if restart then s.(reconnects := Saturating(s.reconnects), state := Restarting)
                else s.(state := Stopping);
    match stop
    case StopFailed(message) => WithFailure(told, message)
    case Clean => if restart then told else told.(state := Stopped)
  }

  /** A handled command fires the token of the current generation and then calls `shutdown`. */
  function Obeyed(s: Snapshot, restart: bool, stop: StopOutcome): Snapshot {
    s.(status := ToldStatus(s.status, restart, stop),
       log := s.log + [Handle(restart), Fire(Launches(s.log)), Stop(stop.Clean?)])
  }

  function Dropped(s: Snapshot): Snapshot {
    if s.held == 0 then s else s.(held := s.held - 1, log := s.log + [Drop])
  }

  function Launched(s: Snapshot, start: StartOutcome): Snapshot {
    var log := s.log + [Launch(Launches(s.log) + 1, start.Started?)];
    var starting := s.status.(state := Starting);
    match start
    case StartPanicked(message) => s.(mode := Down, status := WithFailure(starting, message), log := log)
    case Started(health) =>
      s.(mode := Up, status := WithHealth(starting, health).(state := Running), log := log, held := s.held + 1)
  }

  function Advance(s: Snapshot, turn: Turn): Snapshot {
    if s.mode.Over? then s
    else match turn
      case Tick(health) => if s.mode.Up? then s.(status := WithHealth(s.status, health)) else s
      case Ended(message) =>
        if s.mode.Up? then s.(mode := Down, status := WithFailure(s.status, message), log := s.log + [Exit]) else s
      case Received(command, stop, start) =>
        var restart := command == Some(Restart);
        var obeyed := Obeyed(s, restart, stop);
        if !restart then Dropped(obeyed).(mode := Over)
        else if s.mode.Up? && stop.StopFailed? then obeyed.(mode := Down)
        else Launched(Dropped(obeyed), start)
  }

  const CREATED := Snapshot(Down, Status(Starting, UnknownHealth, None, 0), [], 0)

  function Run(first: StartOutcome, turns: seq<Turn>): Snapshot {
    if turns == [] then Launched(CREATED, first) else Advance(Run(first, turns[..|turns| - 1]), turns[|turns| - 1])
  }

  ghost predicate Follows(path: seq<Snapshot>, turns: seq<Turn>, n: nat)
    requires n < |turns| && |path| == |turns| + 1
  {
    path[n + 1] == Advance(path[n], turns[n])
  }

  /** The snapshots of the flat machine, turn by turn. */
  ghost predicate IsPath(path: seq<Snapshot>, turns: seq<Turn>) {
    |path| == |turns| + 1 && forall n | 0 <= n < |turns| :: Follows(path, turns, n)
  }

  lemma PathOf(first: StartOutcome, turns: seq<Turn>) returns (path: seq<Snapshot>)
    ensures IsPath(path, turns) && path[0] == Launched(CREATED, first) && path[|turns|] == Run(first, turns)
  {
    path := seq(|turns| + 1, n requires 0 <= n <= |turns| => Run(first, turns[..n]));
    forall n | 0 <= n < |turns| ensures Follows(path, turns, n) {
      assert turns[..n + 1][..n] == turns[..n];
    }
    assert turns[..|turns|] == turns;
  }

  lemma TickStep(path: seq<Snapshot>, turns: seq<Turn>, n: nat)
    requires IsPath(path, turns) && n < |turns| && path[n].mode.Up? && turns[n].Tick?
    ensures path[n + 1] == path[n].(status := WithHealth(path[n].status, turns[n].health))
  {
    assert Follows(path, turns, n);
  }

  lemma EndStep(path: seq<Snapshot>, turns: seq<Turn>, n: nat)
    requires IsPath(path, turns) && n < |turns| && path[n].mode.Up? && turns[n].Ended?
    ensures path[n + 1]
         == Snapshot(Down, WithFailure(path[n].status, turns[n].message), path[n].log + [Exit], path[n].held)
  {
    assert Follows(path, turns, n);
  }

  lemma DeafStep(path: seq<Snapshot>, turns: seq<Turn>, n: nat)
    requires IsPath(path, turns) && n < |turns| && path[n].mode.Down? && !turns[n].Received?
    ensures path[n + 1] == path[n]
  {
    assert Follows(path, turns, n);
  }

  /** `after` is the snapshot when the command has been handled. */
  lemma CommandStep(path: seq<Snapshot>, turns: seq<Turn>, n: nat, after: Snapshot)
    requires IsPath(path, turns) && n < |turns| && !path[n].mode.Over? && turns[n].Received?
    requires after == Obeyed(path[n], turns[n].command == Some(Restart), turns[n].stop)
    ensures path[n + 1]
         == if turns[n].command != Some(Restart) then Dropped(after).(mode := Over)
            else if path[n].mode.Up? && after.status.state.Failed? then after.(mode := Down)
            else Launched(Dropped(after), turns[n].start)
  {
    assert Follows(path, turns, n);
  }

  lemma {:induction false} OverForGood(path: seq<Snapshot>, turns: seq<Turn>, n: nat, m: nat)
    requires IsPath(path, turns) && n <= m <= |turns| && path[n].mode.Over?
    ensures path[m] == path[n]
    decreases m - n
  {
    if n < m {
      assert Follows(path, turns, n);
      OverForGood(path, turns, n + 1, m);
    }
  }

  lemma LaunchesAfter(log: seq<Event>, e: Event)
    ensures Launches(log + [e]) == Launches(log) + (if e.Launch? then 1 else 0)
  {
    assert (log + [e])[..|log|] == log;
  }

  lemma LaunchesAfterStop(log: seq<Event>, restart: bool, generation: nat, clean: bool)
    ensures Launches(log + [Handle(restart), Fire(generation), Stop(clean)]) == Launches(log)
  {
    LaunchesAfter(log, Handle(restart));
    LaunchesAfter(log + [Handle(restart)], Fire(generation));
    LaunchesAfter(log + [Handle(restart)] + [Fire(generation)], Stop(clean));
    assert log + [Handle(restart), Fire(generation), Stop(clean)]
        == log + [Handle(restart)] + [Fire(generation)] + [Stop(clean)];
  }

  // ---------------------------------------------------------------- the actor

  class SourceActor {
    var status: Status
    var log: seq<Event>
    var held: nat

    constructor ()
      ensures Now(Down) == CREATED
    {
      status := Status(Starting, UnknownHealth, None, 0);
      log := [];
      held := 0;
    }

    function Now(mode: Mode): Snapshot
      reads this
    {
      Snapshot(mode, status, log, held)
    }

    method Set(state: Phase)
      modifies `status
      ensures status == old(status).(state := state)
    {
      status := status.(state := state);
    }

    method Fail(message: string)
      modifies `status
      ensures status == WithFailure(old(status), message)
    {
      status := status.(state := Failed);
      status := status.(lastError := Some(message));
    }

    method UpdateHealth(health: Health)
      modifies `status
      ensures status == WithHealth(old(status), health)
    {
      status := status.(health := LabelOf(health));
      if health.Degraded? || health.Unhealthy? {
        status := status.(lastError := Some(health.error));
      }
    }

    method Reconnect()
      modifies `status
      ensures status == old(status).(reconnects := Saturating(old(status).reconnects), state := Restarting)
    {
      status := status.(reconnects := Saturating(status.reconnects));
      status := status.(state := Restarting);
    }

    method StopSource(stop: StopOutcome, terminal: bool)
      modifies `status, `log
      ensures status == (if stop.StopFailed? then WithFailure(old(status), stop.message)
                         else if terminal then old(status).(state := Stopped) else old(status))
      ensures log == old(log) + [Stop(stop.Clean?)]
    {
      log := log + [Stop(stop.Clean?)];
      if stop.StopFailed? {
        Fail(stop.message);
        return;
      }
      if terminal {
        Set(Stopped);
      }
    }

    method HandleCommand(command: Option<Command>, generation: nat, stop: StopOutcome) returns (again: bool)
      requires generation == Launches(log)
      modifies `status, `log
      ensures again == (command == Some(Restart))
      ensures status == ToldStatus(old(status), again, stop)
      ensures log == old(log) + [Handle(again), Fire(generation), Stop(stop.Clean?)]
    {
      again := command == Some(Restart);
      log := log + [Handle(again)];
      if again {
        Reconnect();
        log := log + [Fire(generation)];
        StopSource(stop, false);
      } else {
        Set(Stopping);
        log := log + [Fire(generation)];
        StopSource(stop, true);
      }
      assert log == old(log) + [Handle(again), Fire(generation), Stop(stop.Clean?)];
    }

    method DropFuture()
      modifies `held, `log
      ensures Now(Down) == Dropped(old(Now(Down))) && Launches(log) == Launches(old(log))
    {
      LaunchesAfter(log, Drop);
      if held > 0 {
        held := held - 1;
        log := log + [Drop];
      }
    }

    /** Only commands reach the actor here. */
    method WaitCommand(turns: seq<Turn>, at: nat, generation: nat, ghost path: seq<Snapshot>)
      returns (next: nat, heard: bool, again: bool)
      requires IsPath(path, turns) && at <= |turns| && path[at] == Now(Down) && generation == Launches(log)
      modifies `status, `log
      ensures at <= next <= |turns| && generation == Launches(log)
      ensures !heard ==> next == |turns| && path[next] == Now(Down)
      ensures heard ==>
                && at < next && turns[next - 1].Received?
                && path[next] == (if again then Launched(Dropped(Now(Down)), turns[next - 1].start)
                                  else Dropped(Now(Down)).(mode := Over))
    {
      next := at;
      while next < |turns| && !turns[next].Received?
        invariant at <= next <= |turns| && path[next] == Now(Down) && generation == Launches(log)
      {
        DeafStep(path, turns, next);
        next := next + 1;
      }
      heard, again := false, false;
      if next < |turns| {
        LaunchesAfterStop(log, turns[next].command == Some(Restart), generation, turns[next].stop.Clean?);
        again := HandleCommand(turns[next].command, generation, turns[next].stop);
        CommandStep(path, turns, next, Now(Down));
        heard, next := true, next + 1;
      }
    }

    /** The select loop takes a command, whatever it is. */
    method TakeCommand(turns: seq<Turn>, at: nat, generation: nat, ghost path: seq<Snapshot>) returns (again: bool)
      requires IsPath(path, turns) && at < |turns| && turns[at].Received?
      requires path[at] == Now(Up) && generation == Launches(log)
      modifies `status, `log
      ensures generation == Launches(log)
      ensures !again ==> path[at + 1] == Dropped(Now(Down)).(mode := Over)
      ensures again && status.state.Failed? ==> path[at + 1] == Now(Down)
      ensures again && !status.state.Failed? ==> path[at + 1] == Launched(Dropped(Now(Down)), turns[at].start)
    {
      LaunchesAfterStop(log, turns[at].command == Some(Restart), generation, turns[at].stop.Clean?);
      again := HandleCommand(turns[at].command, generation, turns[at].stop);
      CommandStep(path, turns, at, Now(Up));
    }

    /** The source's future has ended. */
    method TakeEnd(turns: seq<Turn>, at: nat, generation: nat, ghost path: seq<Snapshot>)
      requires IsPath(path, turns) && at < |turns| && turns[at].Ended?
      requires path[at] == Now(Up) && generation == Launches(log)
      modifies `status, `log
      ensures generation == Launches(log) && status.state.Failed? && path[at + 1] == Now(Down)
    {
      EndStep(path, turns, at);
      LaunchesAfter(log, Exit);
      log := log + [Exit];
      Fail(turns[at].message);
    }

    /**
      The select loop. `done` is false when the turns run out; otherwise the loop broke after a restart or the end of
      the source's future (`again`), or it returned.
     */
    method Watch(turns: seq<Turn>, at: nat, generation: nat, ghost path: seq<Snapshot>)
      returns (next: nat, done: bool, again: bool)
      requires IsPath(path, turns) && at <= |turns| && path[at] == Now(Up) && generation == Launches(log)
      modifies `status, `log
      ensures at <= next <= |turns| && generation == Launches(log)
      ensures !done ==> next == |turns| && path[next] == Now(Up)
      ensures done ==> at < next
      ensures done && !again ==> path[next] == Dropped(Now(Down)).(mode := Over)
      ensures done && again && status.state.Failed? ==> path[next] == Now(Down)
      ensures done && again && !status.state.Failed? ==>
                turns[next - 1].Received? && path[next] == Launched(Dropped(Now(Down)), turns[next - 1].start)
    {
      next := at;
      while next < |turns|
        invariant at <= next <= |turns| && path[next] == Now(Up) && generation == Launches(log)
      {
        match turns[next] {
          case Tick(health) =>
            TickStep(path, turns, next);
            UpdateHealth(health);
          case Ended(message) =>
            TakeEnd(turns, next, generation, path);
            return next + 1, true, true;
          case Received(command, stop, start) =>
            again := TakeCommand(turns, next, generation, path);
            return next + 1, true, again;
        }
        next := next + 1;
      }
      done, again := false, false;
    }

    /** `start`, and what is set around it. */
    method StartSource(start: StartOutcome, generation: nat)
      requires generation == Launches(log) + 1
      modifies this
      ensures Now(if start.Started? then Up else Down) == Launched(old(Now(Down)), start)
      ensures generation == Launches(log)
    {
      Set(Starting);
      LaunchesAfter(log, Launch(generation, start.Started?));
      log := log + [Launch(generation, start.Started?)];
      match start {
        case StartPanicked(message) =>
          Fail(message);
        case Started(health) =>
          held := held + 1;
          UpdateHealth(health);
          Set(Running);
      }
    }

    /** From a start, failed or not, until the future is to be dropped or the turns run out. */
    method Attend(turns: seq<Turn>, at: nat, generation: nat, ghost path: seq<Snapshot>, up: bool)
      returns (next: nat, done: bool, again: bool, mode: Mode)
      requires IsPath(path, turns) && at <= |turns| && path[at] == Now(if up then Up else Down)
      requires generation == Launches(log)
      modifies `status, `log
      ensures at <= next <= |turns| && generation == Launches(log)
      ensures !done ==> next == |turns| && path[next] == Now(mode)
      ensures done && again ==>
                at < next && turns[next - 1].Received?
                && path[next] == Launched(Dropped(Now(Down)), turns[next - 1].start)
      ensures done && !again ==> path[next] == Dropped(Now(Down)).(mode := Over)
    {
      next := at;
      if up {
        next, done, again := Watch(turns, at, generation, path);
        if !done || !again || !status.state.Failed? {
          return next, done, again, Up;
        }
      }
      mode := Down;
      next, done, again := WaitCommand(turns, next, generation, path);
    }

    /** One round of the outer loop: `again` when it comes round, else the mode in which the run stands. */
    method RunGeneration(start: StartOutcome, turns: seq<Turn>, at: nat, generation: nat, ghost path: seq<Snapshot>)
      returns (next: nat, again: bool, mode: Mode)
      requires IsPath(path, turns) && at <= |turns| && path[at] == Launched(Now(Down), start)
      requires generation == Launches(log) + 1
      modifies this
      ensures at <= next <= |turns| && generation == Launches(log)
      ensures again ==> at < next && turns[next - 1].Received?
                        && path[next] == Launched(Now(Down), turns[next - 1].start)
      ensures !again ==> path[next] == Now(mode) && (next == |turns| || mode.Over?)
    {
      var done;
      StartSource(start, generation);
      next, done, again, mode := Attend(turns, at, generation, path, start.Started?);
      if !done {
        return next, false, mode;
      }
      DropFuture();
      mode := Over;
    }

    /** The nested loops of the actor do what the flat machine does. */
    method RunSourceActor(first: StartOutcome, turns: seq<Turn>) returns (mode: Mode)
      requires Now(Down) == CREATED
      modifies this
      ensures Now(mode) == Run(first, turns)
    {
      var at, start, generation, again := 0, first, 0, true;
      ghost var path := PathOf(first, turns);
      mode := Down;
      while again
        invariant at <= |turns| && generation == Launches(log)
        invariant again ==> path[at] == Launched(Now(Down), start)
        invariant !again ==> path[at] == Now(mode) && (at == |turns| || mode.Over?)
        decreases |turns| - at, again
      {
        generation := generation + 1;
        at, again, mode := RunGeneration(start, turns, at, generation, path);
        if again {
          start := turns[at - 1].start;
        }
      }
      if mode.Over? {
        OverForGood(path, turns, at, |turns|);
      }
    }
  }

  // ---------------------------------------------------------------- what every run of the actor keeps

  datatype Counts = Counts(restarts: nat, handled: nat, fired: nat, stopped: nat, held: int)

  function Add(c: Counts, e: Event): Counts {
    match e
    case Launch(_, ok) => c.(held := if ok then c.held + 1 else c.held)
    case Exit => c
    case Handle(restart) => c.(handled := c.handled + 1, restarts := if restart then c.restarts + 1 else c.restarts)
    case Fire(_) => c.(fired := c.fired + 1)
    case Stop(_) => c.(stopped := c.stopped + 1)
    case Drop => c.(held := c.held - 1)
  }

  /** Futures created minus futures dropped is `held`. */
  function Tally(log: seq<Event>): Counts {
    if log == [] then Counts(0, 0, 0, 0, 0) else Add(Tally(log[..|log| - 1]), log[|log| - 1])
  }

  /** The log ends with a handled restart, the firing of the current token and a call of `shutdown`. */
  ghost predicate StoppedForRestart(log: seq<Event>) {
    && |log| >= 3 && log[|log| - 1].Stop?
    && log[|log| - 2] == Fire(Launches(log[..|log| - 3])) && log[|log| - 3] == Handle(true)
  }

  ghost predicate LegalNext(log: seq<Event>, e: Event) {
    match e
    case Launch(g, ok) =>
      && g == Launches(log) + 1 && Tally(log).held == 0
      && (log == [] || StoppedForRestart(if log[|log| - 1].Drop? then log[..|log| - 1] else log))
    case Exit => Tally(log).held == 1
    case Handle(_) => log != []
    case Fire(g) => log != [] && log[|log| - 1].Handle? && g == Launches(log)
    case Stop(_) => log != [] && log[|log| - 1].Fire?
    case Drop => log != [] && log[|log| - 1].Stop? && Tally(log).held == 1
  }

  /**
    A source is started only when no future of it is left, and never again before a restart was handled that fired
    the token of the generation before and called `shutdown`.
   */
  ghost predicate Legal(log: seq<Event>) {
    log == [] || (Legal(log[..|log| - 1]) && LegalNext(log[..|log| - 1], log[|log| - 1]))
  }

  lemma Appended(log: seq<Event>, e: Event)
    ensures Legal(log + [e]) <==> Legal(log) && LegalNext(log, e)
    ensures Tally(log + [e]) == Add(Tally(log), e)
    ensures Launches(log + [e]) == Launches(log) + (if e.Launch? then 1 else 0)
  {
    assert (log + [e])[..|log|] == log;
  }

  lemma {:induction false} LegalPrefix(log: seq<Event>, n: nat)
    requires Legal(log) && n <= |log|
    ensures Legal(log[..n])
    decreases |log|
  {
    if n < |log| {
      assert log[..|log| - 1][..n] == log[..n];
      LegalPrefix(log[..|log| - 1], n);
    } else {
      assert log[..n] == log;
    }
  }

  /** At most one future of the source is alive at any moment. */
  lemma {:induction false} OneFuture(log: seq<Event>)
    requires Legal(log)
    ensures 0 <= Tally(log).held <= 1
  {
    if log != [] {
      OneFuture(log[..|log| - 1]);
    }
  }

  ghost predicate Sound(s: Snapshot) {
    var c, launches := Tally(s.log), Launches(s.log);
    && launches >= 1 && s.log != [] && Legal(s.log) && c.held == s.held
    && c.handled == c.fired == c.stopped
    && launches - 1 <= c.restarts <= 2 * (launches - 1) + (if s.mode.Up? then 0 else 1)
    && s.status.reconnects == (if c.restarts <= U32_MAX then c.restarts else U32_MAX)
    && match s.mode
       case Up => s.status.state.Running? && s.held == 1
       case Down => s.status.state.Failed?
       case Over => (s.status.state.Stopped? || s.status.state.Failed?) && s.held == 0
  }

  /** The state between handling a command and whatever follows. */
  ghost predicate Told(s: Snapshot, restart: bool) {
    var c, launches, n := Tally(s.log), Launches(s.log), |s.log|;
    && launches >= 1 && Legal(s.log) && c.held == s.held && 0 <= s.held <= 1
    && c.handled == c.fired == c.stopped
    && n >= 3 && s.log[n - 1].Stop? && s.log[n - 2] == Fire(launches) && s.log[n - 3] == Handle(restart)
    && Launches(s.log[..n - 3]) == launches
    && s.status.reconnects == (if c.restarts <= U32_MAX then c.restarts else U32_MAX)
  }

  lemma ObeyedIsTold(s: Snapshot, restart: bool, stop: StopOutcome)
    requires Sound(s)
    ensures var t := Obeyed(s, restart, stop);
            && Told(t, restart) && Launches(t.log) == Launches(s.log)
            && Tally(t.log).restarts == Tally(s.log).restarts + (if restart then 1 else 0)
  {
    var g := Launches(s.log);
    var one, two := s.log + [Handle(restart)], s.log + [Handle(restart)] + [Fire(g)];
    var three := two + [Stop(stop.Clean?)];
    OneFuture(s.log);
    Appended(s.log, Handle(restart));
    Appended(one, Fire(g));
    Appended(two, Stop(stop.Clean?));
    assert Obeyed(s, restart, stop).log == three;
    assert three[..|three| - 3] == s.log;
  }

  lemma DroppedIsFree(s: Snapshot, restart: bool)
    requires Told(s, restart)
    ensures var t := Dropped(s);
            && t.held == 0 && Tally(t.log) == Tally(s.log).(held := 0) && Launches(t.log) == Launches(s.log)
            && Legal(t.log) && t.status == s.status && (restart ==> LegalNext(t.log, Launch(Launches(t.log) + 1, true)))
  {
    Appended(s.log, Drop);
    if s.held > 0 {
      assert Dropped(s).log[..|s.log|] == s.log;
    }
  }

  lemma LaunchIsLegal(log: seq<Event>, ok: bool)
    requires Legal(log) && LegalNext(log, Launch(Launches(log) + 1, true))
    ensures var e := Launch(Launches(log) + 1, ok);
            && Legal(log + [e]) && Tally(log + [e]) == Add(Tally(log), e) && Launches(log + [e]) == Launches(log) + 1
  {
    var e := Launch(Launches(log) + 1, ok);
    assert LegalNext(log, e);
    Appended(log, e);
  }

  lemma LaunchedIsSound(s: Snapshot, start: StartOutcome)
    requires s.held == 0 && Tally(s.log).held == 0
    requires var c := Tally(s.log); c.handled == c.fired == c.stopped
    requires Launches(s.log) <= Tally(s.log).restarts <= 2 * Launches(s.log)
    requires s.status.reconnects == (if Tally(s.log).restarts <= U32_MAX then Tally(s.log).restarts else U32_MAX)
    requires var log, e := Launched(s, start).log, Launch(Launches(s.log) + 1, start.Started?);
             log != [] && Legal(log) && Tally(log) == Add(Tally(s.log), e) && Launches(log) == Launches(s.log) + 1
    ensures Sound(Launched(s, start))
  {
    var t := Launched(s, start);
    assert t.status.reconnects == s.status.reconnects;
    match start
    case StartPanicked(_) =>
    case Started(_) =>
  }

  lemma ExitIsSound(s: Snapshot, message: string)
    requires Sound(s) && s.mode.Up?
    ensures Sound(Advance(s, Ended(message)))
  {
    Appended(s.log, Exit);
  }

  lemma RelaunchIsSound(s: Snapshot, start: StartOutcome)
    requires Told(s, true) && Launches(s.log) <= Tally(s.log).restarts <= 2 * Launches(s.log)
    ensures Sound(Launched(Dropped(s), start))
  {
    DroppedIsFree(s, true);
    LaunchIsLegal(Dropped(s).log, start.Started?);
    LaunchedIsSound(Dropped(s), start);
  }

  lemma CommandIsSound(s: Snapshot, turn: Turn)
    requires Sound(s) && !s.mode.Over? && turn.Received?
    ensures Sound(Advance(s, turn))
  {
    var restart := turn.command == Some(Restart);
    var obeyed := Obeyed(s, restart, turn.stop);
    ObeyedIsTold(s, restart, turn.stop);
    DroppedIsFree(obeyed, restart);
    if restart && !(s.mode.Up? && turn.stop.StopFailed?) {
      RelaunchIsSound(obeyed, turn.start);
    }
  }

  lemma TurnIsSound(s: Snapshot, turn: Turn)
    requires Sound(s)
    ensures Sound(Advance(s, turn))
  {
    if turn.Received? && !s.mode.Over? {
      CommandIsSound(s, turn);
    } else if turn.Ended? && s.mode.Up? {
      ExitIsSound(s, turn.message);
    }
  }

  lemma {:induction false} RunIsSound(first: StartOutcome, turns: seq<Turn>)
    ensures Sound(Run(first, turns))
  {
    if turns == [] {
      FirstIsSound(first);
    } else {
      RunIsSound(first, turns[..|turns| - 1]);
      TurnIsSound(Run(first, turns[..|turns| - 1]), turns[|turns| - 1]);
    }
  }

  lemma FirstIsSound(first: StartOutcome)
    ensures Sound(Launched(CREATED, first))
  {
    var none: seq<Event>, e := [], Launch(1, first.Started?);
    assert Launches(none) == 0 && Tally(none) == Counts(0, 0, 0, 0, 0) && Legal(none);
    LaunchIsLegal(none, first.Started?);
    assert Launched(CREATED, first).log == none + [e];
    LaunchedIsSound(CREATED, first);
  }

  lemma RunIsLegal(first: StartOutcome, turns: seq<Turn>)
    ensures Legal(Run(first, turns).log)
  {
    RunIsSound(first, turns);
  }

  // ---------------------------------------------------------------- the main results

  /** At every moment of every run at most one future of the source is alive. */
  lemma AtMostOneFuture(first: StartOutcome, turns: seq<Turn>, n: nat)
    requires n <= |Run(first, turns).log|
    ensures 0 <= Tally(Run(first, turns).log[..n]).held <= 1
  {
    RunIsLegal(first, turns);
    LegalPrefix(Run(first, turns).log, n);
    OneFuture(Run(first, turns).log[..n]);
  }

  /** Right before entry `n`: a handled restart, the firing of generation `g`, a call of `shutdown`, maybe a drop. */
  ghost predicate RestartedBefore(log: seq<Event>, n: nat, g: nat)
    requires n <= |log|
  {
    var m := if n > 0 && log[n - 1].Drop? then n - 1 else n;
    m >= 3 && log[m - 3] == Handle(true) && log[m - 2] == Fire(g) && log[m - 1].Stop?
  }

  lemma LaunchIsPreceded(log: seq<Event>, e: Event)
    requires log != [] && e.Launch? && LegalNext(log, e)
    ensures e.generation == Launches(log) + 1 && RestartedBefore(log, |log|, Launches(log))
  {
    var before := if log[|log| - 1].Drop? then log[..|log| - 1] else log;
    StopDoesNotLaunch(before);
    if log[|log| - 1].Drop? {
      Appended(before, Drop);
      assert before + [Drop] == log;
    }
  }

  /** Every start but the first comes right after a handled restart that fired the last token and called `shutdown`. */
  ghost predicate RestartsPrecede(log: seq<Event>) {
    forall n | 0 < n < |log| && log[n].Launch? ::
      log[n].generation >= 1 && RestartedBefore(log, n, log[n].generation - 1)
  }

  lemma RestartPrecedesLaunch(first: StartOutcome, turns: seq<Turn>)
    ensures RestartsPrecede(Run(first, turns).log)
  {
    RunIsLegal(first, turns);
    LegalMeansRestarts(Run(first, turns).log);
  }

  lemma LegalMeansRestarts(log: seq<Event>)
    requires Legal(log)
    ensures RestartsPrecede(log)
  {
    forall n | 0 < n < |log| && log[n].Launch?
      ensures log[n].generation >= 1 && RestartedBefore(log, n, log[n].generation - 1)
    {
      LaunchAnywhereIsPreceded(log, n);
    }
  }

  lemma LaunchAnywhereIsPreceded(log: seq<Event>, n: nat)
    requires Legal(log) && 0 < n < |log| && log[n].Launch?
    ensures log[n].generation >= 1 && RestartedBefore(log, n, log[n].generation - 1)
  {
    var front := log[..n];
    LegalPrefix(log, n + 1);
    assert log[..n + 1] == front + [log[n]];
    Appended(front, log[n]);
    LaunchIsPreceded(front, log[n]);
    RestartedInPrefix(log, n, Launches(front));
  }

  lemma RestartedInPrefix(log: seq<Event>, n: nat, g: nat)
    requires n <= |log| && RestartedBefore(log[..n], n, g)
    ensures RestartedBefore(log, n, g)
  {
  }

  lemma StopDoesNotLaunch(log: seq<Event>)
    requires StoppedForRestart(log)
    ensures Launches(log[..|log| - 3]) == Launches(log)
  {
    var one, two := log[..|log| - 1], log[..|log| - 2];
    assert one[..|one| - 1] == two && Launches(one) == Launches(log);
    assert two[..|two| - 1] == log[..|log| - 3] && Launches(two) == Launches(one);
  }

  /** Starts, handled commands, fired tokens and stops in step; the reconnect counter saturates. */
  lemma CommandsAreCounted(first: StartOutcome, turns: seq<Turn>)
    ensures var s := Run(first, turns); var c, starts := Tally(s.log), Launches(s.log);
            && c.stopped == c.handled == c.fired
            && starts - 1 <= c.restarts <= 2 * starts - 1
            && s.status.reconnects == (if c.restarts <= U32_MAX then c.restarts else U32_MAX)
  {
    RunIsSound(first, turns);
  }

  /** A shutdown, or the closing of the command channel, is final: stopped or failed, nothing held, no further start. */
  lemma ShutdownIsFinal(first: StartOutcome, turns: seq<Turn>, n: nat)
    requires n < |turns| && turns[n].Received? && turns[n].command != Some(Restart)
    ensures var s := Run(first, turns);
            && s.mode.Over? && (s.status.state.Stopped? || s.status.state.Failed?) && s.held == 0
            && s == Run(first, turns[..n + 1])
  {
    var path := PathOf(first, turns);
    var upTo := PathOf(first, turns[..n + 1]);
    SamePath(path, upTo, turns, n + 1);
    assert Follows(path, turns, n);
    OverForGood(path, turns, n + 1, |turns|);
    RunIsSound(first, turns);
  }

  lemma {:induction false} SamePath(path: seq<Snapshot>, upTo: seq<Snapshot>, turns: seq<Turn>, n: nat)
    requires n <= |turns| && IsPath(path, turns) && |upTo| == n + 1 && upTo[0] == path[0]
    requires IsPath(upTo, turns[..n])
    ensures upTo[n] == path[n]
  {
    for m := 0 to n
      invariant upTo[m] == path[m]
    {
      assert Follows(path, turns, m) && Follows(upTo, turns[..n], m);
    }
  }

  // ---------------------------------------------------------------- what the status shows

  function OfHealth(h: Health): seq<string> {
    if h.Healthy? then [] else [h.error]
  }

  function OfStart(start: StartOutcome): seq<string> {
    if start.StartPanicked? then [start.message] else OfHealth(start.health)
  }

  /** The trouble reported during a turn, in order, given the mode before and whether the source was started in it. */
  function Reported(mode: Mode, turn: Turn, started: bool): seq<string> {
    match turn
    case Tick(health) => if mode.Up? then OfHealth(health) else []
    case Ended(message) => if mode.Up? then [message] else []
    case Received(_, stop, start) =>
      if mode.Over? then []
      else (if stop.StopFailed? then [stop.message] else []) + (if started then OfStart(start) else [])
  }

  /** The health reported during a turn. */
  function HealthSeen(mode: Mode, turn: Turn, started: bool): seq<Health> {
    match turn
    case Tick(health) => if mode.Up? then [health] else []
    case Ended(_) => []
    case Received(_, _, start) => if started && start.Started? then [start.health] else []
  }

  /** The source was started in the turn between these two snapshots. */
  predicate StartedBetween(before: Snapshot, after: Snapshot) {
    Launches(after.log) > Launches(before.log)
  }

  function Troubles(first: StartOutcome, turns: seq<Turn>): seq<string> {
    if turns == [] then OfStart(first)
    else
      var before, turn := Run(first, turns[..|turns| - 1]), turns[|turns| - 1];
      Troubles(first, turns[..|turns| - 1]) + Reported(before.mode, turn, StartedBetween(before, Run(first, turns)))
  }

  function Healths(first: StartOutcome, turns: seq<Turn>): seq<Health> {
    if turns == [] then (if first.Started? then [first.health] else [])
    else
      var before, turn := Run(first, turns[..|turns| - 1]), turns[|turns| - 1];
      Healths(first, turns[..|turns| - 1]) + HealthSeen(before.mode, turn, StartedBetween(before, Run(first, turns)))
  }

  function Newest<T>(all: seq<T>): Option<T> {
    if all == [] then None else Some(all[|all| - 1])
  }

  /**
    A restart starts the source again in the same turn, unless it came while the source was running and `shutdown`
    failed: then the actor only waits for the next command. Nothing else starts it.
   */
  lemma RestartStartsAgain(first: StartOutcome, turns: seq<Turn>, turn: Turn)
    ensures var before, after := Run(first, turns), Run(first, turns + [turn]);
            StartedBetween(before, after) <==>
              && !before.mode.Over? && turn.Received? && turn.command == Some(Restart)
              && !(before.mode.Up? && turn.stop.StopFailed?)
  {
    var before := Run(first, turns);
    assert (turns + [turn])[..|turns|] == turns;
    LaunchesOfTurn(before, turn);
  }

  lemma LaunchesOfTurn(s: Snapshot, turn: Turn)
    ensures Launches(Advance(s, turn).log) == Launches(s.log) +
              if !s.mode.Over? && turn.Received? && turn.command == Some(Restart)
                 && !(s.mode.Up? && turn.stop.StopFailed?) then 1 else 0
  {
    LaunchesAfter(s.log, Exit);
    if !s.mode.Over? && turn.Received? {
      var restart := turn.command == Some(Restart);
      var obeyed := Obeyed(s, restart, turn.stop);
      LaunchesAfterStop(s.log, restart, Launches(s.log), turn.stop.Clean?);
      LaunchesAfter(obeyed.log, Drop);
      LaunchesAfter(Dropped(obeyed).log, Launch(Launches(Dropped(obeyed).log) + 1, turn.start.Started?));
    }
  }

  /** The newest of what was there before and what a turn adds. */
  lemma NewestOf<T>(before: seq<T>, added: seq<T>)
    ensures Newest(before + added) == if added == [] then Newest(before) else Newest(added)
  {
    assert before + [] == before;
  }

  /** The last error is the newest of these troubles, the label that of the newest of these reports. */
  ghost predicate Shows(status: Status, troubles: seq<string>, healths: seq<Health>) {
    && status.lastError == Newest(troubles)
    && status.health == if healths == [] then UnknownHealth else LabelOf(healths[|healths| - 1])
  }

  lemma CommandIsShown(s: Snapshot, turn: Turn, troubles: seq<string>, healths: seq<Health>)
    requires Shows(s.status, troubles, healths) && turn.Received?
    ensures var t := Advance(s, turn); var started := StartedBetween(s, t);
            Shows(t.status, troubles + Reported(s.mode, turn, started), healths + HealthSeen(s.mode, turn, started))
  {
    var started := StartedBetween(s, Advance(s, turn));
    LaunchesOfTurn(s, turn);
    NewestOf(troubles, Reported(s.mode, turn, started));
    NewestOf(healths, HealthSeen(s.mode, turn, started));
  }

  lemma TurnIsShown(s: Snapshot, turn: Turn, troubles: seq<string>, healths: seq<Health>)
    requires Shows(s.status, troubles, healths)
    ensures var t := Advance(s, turn); var started := StartedBetween(s, t);
            Shows(t.status, troubles + Reported(s.mode, turn, started), healths + HealthSeen(s.mode, turn, started))
  {
    if turn.Received? {
      CommandIsShown(s, turn, troubles, healths);
    } else {
      NewestOf(troubles, Reported(s.mode, turn, false));
      NewestOf(healths, HealthSeen(s.mode, turn, false));
    }
  }

  /**
    Over any run the last error is the newest message of all troubles: panics, exits, failed stops, and health that is
    not healthy. A healthy report does not clear it. The health label is that of the newest report.
   */
  lemma {:induction false} StatusShowsTheNewest(first: StartOutcome, turns: seq<Turn>)
    ensures Shows(Run(first, turns).status, Troubles(first, turns), Healths(first, turns))
  {
    if turns != [] {
      var front, turn := turns[..|turns| - 1], turns[|turns| - 1];
      StatusShowsTheNewest(first, front);
      TurnIsShown(Run(first, front), turn, Troubles(first, front), Healths(first, front));
      assert Run(first, turns) == Advance(Run(first, front), turn);
    }
  }
}
