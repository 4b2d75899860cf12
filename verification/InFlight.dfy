/** How many requests of one client session are in flight: the limit is checked and the entry made under two locks. */
module InFlight {
  import opened Wrappers
  import opened Locks
  import opened Wire
  import opened ClientSession
  import opened ClientSafety
  import opened ClientDuties

  // ---------------------------------------------------------------- the limit check

  /** The calls that have an entry. */
  ghost function Registered(calls: seq<Call>): set<nat> {
    set k | 0 <= k < |calls| && calls[k].slot.Registered?
  }

  lemma {:induction false} DifferentValues(m: map<nat, nat>)
    requires forall i, j | i in m && j in m && i != j :: m[i] != m[j]
    ensures |m| == |m.Values|
  {
    if m.Keys != {} {
      var i :| i in m;
      var rest := m - {i};
      DifferentValues(rest);
      assert m == rest[i := m[i]];
      assert m.Values == rest.Values + {m[i]} && m[i] !in rest.Values;
    } else {
      assert m == map[] && m.Values == {};
    }
  }

  lemma EntriesAreCounted(s: State)
    requires TableOk(s)
    ensures |s.pending| == |Registered(s.calls)|
  {
    forall k: nat ensures k in s.pending.Values <==> k in Registered(s.calls) {
      if k < |s.calls| {
        InValues(s, k);
      }
    }
    assert forall k <- Registered(s.calls) :: k in s.pending.Values;
    assert s.pending.Values == Registered(s.calls);
    DifferentValues(s.pending);
  }

  /** A call is refused for the limit exactly when that many calls have entries, and goes on otherwise. */
  lemma RefusedExactlyWhenFull(s: State, k: nat)
    requires Reachable(s) && CallEnabled(s, k, Check)
    ensures CallApply(s, k, Check).calls[k].phase
         == if |Registered(s.calls)| >= s.maxInFlight then Finished(Err(LimitExceeded)) else WantInsert
  {
    ReachableIsSafe(s);
    EntriesAreCounted(s);
  }

  // ---------------------------------------------------------------- one call at a time

  /** Between taking the lock for the check and making the entry. */
  predicate Entering(p: CallPhase) {
    p.Checking? || p.WantInsert? || p.Inserting?
  }

  /** No two calls are on their way in at the same time. */
  ghost predicate OneEnters(calls: seq<Call>) {
    forall j, k | 0 <= j < |calls| && 0 <= k < |calls| && Entering(calls[j].phase) && Entering(calls[k].phase) :: j == k
  }

  ghost predicate WithinLimit(maxInFlight: nat, calls: seq<Call>, entries: nat) {
    && entries <= maxInFlight
    && forall k | 0 <= k < |calls| && (calls[k].phase.WantInsert? || calls[k].phase.Inserting?) :: entries < maxInFlight
  }

  lemma FewerEntries(m: map<nat, nat>, id: nat)
    ensures |m - {id}| <= |m|
  {
    if id in m {
      assert m == (m - {id})[id := m[id]];
    } else {
      assert m - {id} == m;
    }
  }

  lemma CallTable(s: State, k: nat, move: CallStep)
    requires CallEnabled(s, k, move) && !move.Insert?
    ensures CallApply(s, k, move).pending
         == if move.Undo? || move.Forget? then s.pending - {RequestId(k)} else s.pending
  {
  }

  lemma InsertTable(s: State, k: nat)
    requires CallEnabled(s, k, Insert)
    ensures CallApply(s, k, Insert).pending == s.pending[RequestId(k) := k]
  {
  }

  lemma OtherTable(s: State, step: Step)
    requires Enabled(s, step) && !step.ByCall?
    ensures var after := Apply(s, step).pending;
            after == s.pending || after == map[] || exists id :: after == s.pending - {id}
  {
    match step
    case ByReader(step) =>
      if step.Deliver? && Newest(s).id in s.pending {
        assert ReaderApply(s, step).pending == s.pending - {Newest(s).id};
      }
    case ByCancel(c, act) =>
      if act.CRemove? {
        assert CancelApply(s, c, act).pending == s.pending - {s.cancels[c].id};
      }
    case _ =>
  }

  lemma OneEntryMore(m: map<nat, nat>, id: nat, k: nat)
    ensures |m[id := k]| <= |m| + 1
  {
    if id in m {
      assert m[id := k].Keys == m.Keys;
      assert |m[id := k].Keys| == |m[id := k]| && |m.Keys| == |m|;
    }
  }

  lemma EntriesMove(s: State, step: Step)
    requires Enabled(s, step)
    ensures var before, after := |s.pending|, |Apply(s, step).pending|;
            after <= before || (step.ByCall? && step.move.Insert? && after == before + 1)
  {
    match step
    case ByCall(k, move) => CallEntries(s, k, move);
    case _ => OtherEntries(s, step);
  }

  lemma CallEntries(s: State, k: nat, move: CallStep)
    requires CallEnabled(s, k, move)
    ensures var before, after := |s.pending|, |CallApply(s, k, move).pending|;
            after <= before || (move.Insert? && after == before + 1)
  {
    if move.Insert? {
      InsertTable(s, k);
      OneEntryMore(s.pending, RequestId(k), k);
    } else {
      CallTable(s, k, move);
      FewerEntries(s.pending, RequestId(k));
    }
  }

  lemma OtherEntries(s: State, step: Step)
    requires Enabled(s, step) && !step.ByCall?
    ensures |Apply(s, step).pending| <= |s.pending|
  {
    OtherTable(s, step);
    var after := Apply(s, step).pending;
    if id :| after == s.pending - {id} {
      FewerEntries(s.pending, id);
    }
  }

  lemma LimitKept(s: State, step: Step)
    requires OneEnters(s.calls) && WithinLimit(s.maxInFlight, s.calls, |s.pending|) && Enabled(s, step)
    ensures var s' := Apply(s, step); WithinLimit(s'.maxInFlight, s'.calls, |s'.pending|)
  {
    EntriesMove(s, step);
    LimitIsFixed(s, step);
    var s' := Apply(s, step);
    forall k | 0 <= k < |s'.calls| && (s'.calls[k].phase.WantInsert? || s'.calls[k].phase.Inserting?)
      ensures |s'.pending| < s'.maxInFlight
    {
      EnteringMoves(s, step, k);
      assert step.ByCall? && step.k != k ==> !Entering(s.calls[step.k].phase);
    }
  }

  /** Who is past the check now was so before, or has just passed it. */
  lemma EnteringMoves(s: State, step: Step, k: nat)
    requires Enabled(s, step) && k < |Apply(s, step).calls|
    requires var phase := Apply(s, step).calls[k].phase; phase.WantInsert? || phase.Inserting?
    ensures k < |s.calls| && Entering(s.calls[k].phase)
    ensures !(step.ByCall? && step.k == k) ==> Apply(s, step).calls[k].phase == s.calls[k].phase
    ensures step.ByCall? && step.k == k ==>
              !step.move.Insert? && (step.move.Check? ==> |s.pending| < s.maxInFlight)
              && (step.move.Check? || s.calls[k].phase.WantInsert?)
  {
    if k < |s.calls| {
      PhaseMoves(s, step, k);
    } else {
      NewCallsWait(s, step, k);
    }
  }

  lemma NewCallsWait(s: State, step: Step, k: nat)
    requires Enabled(s, step) && |s.calls| <= k < |Apply(s, step).calls|
    ensures Apply(s, step).calls[k].phase.WantCheck? || Apply(s, step).calls[k].phase.Finished?
  {
    match step
    case ByCall(j, move) => CallMoves(s, j, move);
    case _ =>
  }

  lemma {:induction false} RunKeepsLimit(maxInFlight: nat, steps: seq<Step>, n: nat)
    requires n <= |steps| && Exec(maxInFlight, steps).Some?
    requires forall i | 0 <= i <= |steps| :: OneEnters(After(maxInFlight, steps, i).calls)
    ensures var s := After(maxInFlight, steps, n);
            s.maxInFlight == maxInFlight && WithinLimit(maxInFlight, s.calls, |s.pending|)
  {
    if n > 0 {
      RunKeepsLimit(maxInFlight, steps, n - 1);
      AfterNext(maxInFlight, steps, n - 1);
      LimitKept(After(maxInFlight, steps, n - 1), steps[n - 1]);
      LimitIsFixed(After(maxInFlight, steps, n - 1), steps[n - 1]);
    }
  }

  /** While calls enter one at a time, there are never more entries than the limit. */
  lemma SingleFileKeepsTheLimit(maxInFlight: nat, steps: seq<Step>)
    requires Exec(maxInFlight, steps).Some?
    requires forall i | 0 <= i <= |steps| :: OneEnters(After(maxInFlight, steps, i).calls)
    ensures |Exec(maxInFlight, steps).value.pending| <= maxInFlight
  {
    RunKeepsLimit(maxInFlight, steps, |steps|);
    assert steps[..|steps|] == steps;
  }

  // ---------------------------------------------------------------- all calls at once

  /** The entries of the first `n` calls. */
  function Entries(n: nat): map<nat, nat> {
    if n == 0 then map[] else Entries(n - 1)[n := n - 1]
  }

  lemma {:induction false} EntriesAreInOrder(n: nat)
    ensures |Entries(n)| == n && forall id <- Entries(n) :: id <= n
  {
    if n > 0 {
      EntriesAreInOrder(n - 1);
    }
  }

  /** `n` calls, of which the first ones have passed the check, and the first of those have their entries. */
  function Crowd(maxInFlight: nat, n: nat, checked: nat, entered: nat): State {
    Init(maxInFlight).(calls := seq(n, k requires 0 <= k < n => Member(k, checked, entered)),
                       pending := Entries(entered))
  }

  function Member(k: nat, checked: nat, entered: nat): Call {
    Call(Known(false), Decodes(""), if k < entered then WantEncode else if k < checked then WantInsert else WantCheck,
         if k < entered then Slot.Registered else Vacant)
  }

  lemma ReachStep(s: State, step: Step)
    requires Reachable(s) && Enabled(s, step)
    ensures Reachable(Apply(s, step))
  {
    var steps :| Exec(s.maxInFlight, steps) == Some(s);
    assert (steps + [step])[..|steps + [step]| - 1] == steps;
    assert Exec(s.maxInFlight, steps + [step]) == Some(Apply(s, step));
    LimitIsFixed(s, step);
  }

  lemma {:induction false} Climb(holds: nat -> bool, n: nat)
    requires holds(0) && forall k: nat | k < n && holds(k) :: holds(k + 1)
    ensures holds(n)
  {
    if n > 0 {
      Climb(holds, n - 1);
    }
  }

  lemma NextSends(maxInFlight: nat, n: nat)
    requires n + 1 < U64_SIZE && Reachable(Crowd(maxInFlight, n, 0, 0))
    ensures Reachable(Crowd(maxInFlight, n + 1, 0, 0))
  {
    ReachStep(Crowd(maxInFlight, n, 0, 0), Send(Known(false), Decodes("")));
    CrowdGrows(maxInFlight, n);
  }

  lemma CrowdGrows(maxInFlight: nat, n: nat)
    requires n + 1 < U64_SIZE
    ensures Apply(Crowd(maxInFlight, n, 0, 0), Send(Known(false), Decodes(""))) == Crowd(maxInFlight, n + 1, 0, 0)
  {
    assert Crowd(maxInFlight, n + 1, 0, 0).calls
        == Crowd(maxInFlight, n, 0, 0).calls + [Call(Known(false), Decodes(""), WantCheck, Vacant)];
  }

  lemma FreeAgain(a: Actor)
    ensures Without(map[Pending := a], a) == map[]
  {
  }

  lemma NextChecks(maxInFlight: nat, n: nat, k: nat)
    requires k < n && maxInFlight >= 1
    requires Reachable(Crowd(maxInFlight, n, k, 0))
    ensures Reachable(Crowd(maxInFlight, n, k + 1, 0))
  {
    var s := Crowd(maxInFlight, n, k, 0);
    ReachStep(s, ByCall(k, TakeCheck));
    var taken := Apply(s, ByCall(k, TakeCheck));
    ReachStep(taken, ByCall(k, Check));
    FreeAgain(Caller(k));
    assert Apply(taken, ByCall(k, Check)).calls == Crowd(maxInFlight, n, k + 1, 0).calls;
  }

  lemma NextEnters(maxInFlight: nat, n: nat, k: nat)
    requires k < n < U64_SIZE && Reachable(Crowd(maxInFlight, n, n, k))
    ensures Reachable(Crowd(maxInFlight, n, n, k + 1))
  {
    var s := Crowd(maxInFlight, n, n, k);
    ReachStep(s, ByCall(k, TakeInsert));
    var taken := Apply(s, ByCall(k, TakeInsert));
    assert taken == s.(calls := s.calls[k := Member(k, n, k).(phase := Inserting)], table := map[Pending := Caller(k)]);
    ReachStep(taken, ByCall(k, Insert));
    InsertsNext(maxInFlight, n, k, taken);
  }

  lemma InsertsNext(maxInFlight: nat, n: nat, k: nat, taken: State)
    requires k < n < U64_SIZE
    requires var s := Crowd(maxInFlight, n, n, k);
             taken == s.(calls := s.calls[k := Member(k, n, k).(phase := Inserting)],
                         table := map[Pending := Caller(k)])
    ensures CallApply(taken, k, Insert) == Crowd(maxInFlight, n, n, k + 1)
  {
    FreeAgain(Caller(k));
    EntriesAreInOrder(k);
    assert RequestId(k) == k + 1 && k + 1 !in Entries(k);
    assert CallApply(taken, k, Insert).calls == Crowd(maxInFlight, n, n, k + 1).calls;
  }

  lemma Nobody(maxInFlight: nat)
    ensures Reachable(Crowd(maxInFlight, 0, 0, 0))
  {
    assert Exec(maxInFlight, []) == Some(Init(maxInFlight));
    assert Crowd(maxInFlight, 0, 0, 0) == Init(maxInFlight);
  }

  lemma AllSend(maxInFlight: nat, n: nat)
    requires n < U64_SIZE
    ensures Reachable(Crowd(maxInFlight, n, 0, 0))
  {
    var sent := (k: nat) => Reachable(Crowd(maxInFlight, k, 0, 0));
    Nobody(maxInFlight);
    forall k: nat | k < n && sent(k) ensures sent(k + 1) {
      NextSends(maxInFlight, k);
    }
    Climb(sent, n);
  }

  lemma AllCheck(maxInFlight: nat, n: nat)
    requires maxInFlight >= 1 && Reachable(Crowd(maxInFlight, n, 0, 0))
    ensures Reachable(Crowd(maxInFlight, n, n, 0))
  {
    var checked := (k: nat) => Reachable(Crowd(maxInFlight, n, k, 0));
    forall k: nat | k < n && checked(k) ensures checked(k + 1) {
      NextChecks(maxInFlight, n, k);
    }
    Climb(checked, n);
  }

  lemma AllEnter(maxInFlight: nat, n: nat)
    requires n < U64_SIZE && Reachable(Crowd(maxInFlight, n, n, 0))
    ensures Reachable(Crowd(maxInFlight, n, n, n))
  {
    var entered := (k: nat) => Reachable(Crowd(maxInFlight, n, n, k));
    forall k: nat | k < n && entered(k) ensures entered(k + 1) {
      NextEnters(maxInFlight, n, k);
    }
    Climb(entered, n);
  }

  /** Calls that all check before any of them enters: whatever the limit, any number of them gets in. */
  lemma CrowdBreaksTheLimit(maxInFlight: nat, n: nat) returns (s: State)
    requires maxInFlight >= 1 && n < U64_SIZE
    ensures Reachable(s) && s.maxInFlight == maxInFlight && |s.pending| == n
  {
    AllSend(maxInFlight, n);
    AllCheck(maxInFlight, n);
    AllEnter(maxInFlight, n);
    EntriesAreInOrder(n);
    s := Crowd(maxInFlight, n, n, n);
  }
}
