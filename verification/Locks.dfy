/** Async locks and who waits for whom. Both ends of a control connection use the same ranking. */
module Locks {
  import opened Wrappers

  datatype Lock = Mutate | Encode | Payload | Writer | Pending

  function Rank(l: Lock): nat {
    match l
    case Mutate => 0
    case Encode => 1
    case Payload => 2
    case Writer => 3
    case Pending => 4
  }

  predicate Holds<A(==)>(table: map<Lock, A>, a: A, l: Lock) {
    l in table && table[l] == a
  }

  /** Nothing is held by `a` any more. */
  function Without<A(==)>(table: map<Lock, A>, a: A): map<Lock, A> {
    map l | l in table && table[l] != a :: table[l]
  }

  /** `a` sits at an await point for a lock that `b` holds. */
  ghost predicate WaitsFor<A>(table: map<Lock, A>, wants: A -> Option<Lock>, a: A, b: A) {
    Blocked(table, wants, a) && table[wants(a).value] == b
  }

  ghost predicate Blocked<A>(table: map<Lock, A>, wants: A -> Option<Lock>, a: A) {
    wants(a).Some? && wants(a).value in table
  }

  /** Whoever holds a lock waits only for a lock of higher rank. */
  ghost predicate Ranked<A>(table: map<Lock, A>, wants: A -> Option<Lock>) {
    forall l | l in table && wants(table[l]).Some? :: Rank(l) < Rank(wants(table[l]).value)
  }

  ghost predicate WaitChain<A>(table: map<Lock, A>, wants: A -> Option<Lock>, chain: seq<A>) {
    |chain| >= 2 && forall i | 0 <= i < |chain| - 1 :: WaitsFor(table, wants, chain[i], chain[i + 1])
  }

  lemma {:induction false} RanksRise<A>(table: map<Lock, A>, wants: A -> Option<Lock>, chain: seq<A>)
    requires Ranked(table, wants) && WaitChain(table, wants, chain)
    ensures wants(chain[0]).Some?
    ensures wants(chain[|chain| - 1]).Some? ==>
              Rank(wants(chain[0]).value) < Rank(wants(chain[|chain| - 1]).value)
    decreases |chain|
  {
    assert WaitsFor(table, wants, chain[0], chain[1]);
    if |chain| > 2 {
      var rest := chain[1..];
      forall i | 0 <= i < |rest| - 1 ensures WaitsFor(table, wants, rest[i], rest[i + 1]) {
        assert WaitsFor(table, wants, chain[i + 1], chain[i + 2]);
      }
      assert WaitsFor(table, wants, chain[1], chain[2]);
      RanksRise(table, wants, rest);
    }
  }

  /** Ranked waiting has no cycle of any length. */
  lemma NoWaitCycle<A>(table: map<Lock, A>, wants: A -> Option<Lock>, chain: seq<A>)
    requires Ranked(table, wants) && WaitChain(table, wants, chain)
    ensures chain[0] != chain[|chain| - 1]
  {
    RanksRise(table, wants, chain);
    assert WaitsFor(table, wants, chain[0], chain[1]);
  }

  /** Following the holders from any waiter reaches a holder that is not blocked: there is always someone to run. */
  lemma {:induction false} SomeoneCanProceed<A>(table: map<Lock, A>, wants: A -> Option<Lock>, a: A) returns (b: A)
    requires Ranked(table, wants)
    ensures !Blocked(table, wants, b)
    ensures b == a || exists l | l in table :: table[l] == b
    decreases if wants(a).Some? then 5 - Rank(wants(a).value) else 0
  {
    if Blocked(table, wants, a) {
      var holder := table[wants(a).value];
      b := SomeoneCanProceed(table, wants, holder);
    } else {
      b := a;
    }
  }
}
