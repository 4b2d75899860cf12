/** Sorting a sequence and splitting it into runs of one key, for any element, order and key. */
module Grouping {

  // ---------------------------------------------------------------- sorting

  ghost predicate TotalPreorder<T(!new)>(le: (T, T) -> bool) {
    && (forall a, b :: le(a, b) || le(b, a))
    && (forall a, b, c :: le(a, b) && le(b, c) ==> le(a, c))
  }

  ghost predicate Ordered<T>(le: (T, T) -> bool, s: seq<T>) {
    forall i, j | 0 <= i < j < |s| :: le(s[i], s[j])
  }

  /** Put `x` behind everything that is not greater, so that equivalent elements keep their order. */
  function Insert<T>(le: (T, T) -> bool, s: seq<T>, x: T): seq<T> {
    if s == [] || le(s[|s| - 1], x) then s + [x]
    else Insert(le, s[..|s| - 1], x) + [s[|s| - 1]]
  }

  /** A stable sort, standing for the library's. */
  function Sorted<T>(le: (T, T) -> bool, s: seq<T>): seq<T> {
    if s == [] then [] else Insert(le, Sorted(le, s[..|s| - 1]), s[|s| - 1])
  }

  lemma InsertedIsBelow<T>(le: (T, T) -> bool, front: seq<T>, x: T, last: T)
    requires multiset(Insert(le, front, x)) == multiset(front) + multiset{x}
    requires le(x, last) && forall i | 0 <= i < |front| :: le(front[i], last)
    ensures forall i | 0 <= i < |Insert(le, front, x)| :: le(Insert(le, front, x)[i], last)
  {
    var inserted := Insert(le, front, x);
    forall i | 0 <= i < |inserted| ensures le(inserted[i], last) {
      assert inserted[i] in multiset(inserted);
      assert inserted[i] in multiset(front) || inserted[i] == x;
    }
  }

  lemma {:induction false} InsertAdds<T>(le: (T, T) -> bool, s: seq<T>, x: T)
    ensures multiset(Insert(le, s, x)) == multiset(s) + multiset{x}
  {
    if s != [] {
      InsertAdds(le, s[..|s| - 1], x);
      assert s == s[..|s| - 1] + [s[|s| - 1]];
    }
  }

  lemma {:induction false} InsertKeepsOrder<T(!new)>(le: (T, T) -> bool, s: seq<T>, x: T)
    requires TotalPreorder(le) && Ordered(le, s)
    ensures Ordered(le, Insert(le, s, x))
  {
    if s != [] && !le(s[|s| - 1], x) {
      var front, last := s[..|s| - 1], s[|s| - 1];
      InsertKeepsOrder(le, front, x);
      InsertAdds(le, front, x);
      InsertedIsBelow(le, front, x, last);
    }
  }

  lemma {:induction false} SortedIsOrdered<T(!new)>(le: (T, T) -> bool, s: seq<T>)
    requires TotalPreorder(le)
    ensures Ordered(le, Sorted(le, s)) && multiset(Sorted(le, s)) == multiset(s)
  {
    if s != [] {
      assert s == s[..|s| - 1] + [s[|s| - 1]];
      SortedIsOrdered(le, s[..|s| - 1]);
      InsertKeepsOrder(le, Sorted(le, s[..|s| - 1]), s[|s| - 1]);
      InsertAdds(le, Sorted(le, s[..|s| - 1]), s[|s| - 1]);
    }
  }

  // ---------------------------------------------------------------- runs

  /** Length of the first run of elements with one key. */
  function Run<T, K(==)>(key: T -> K, s: seq<T>): (n: nat)
    requires s != []
    ensures 1 <= n <= |s|
    ensures forall i | 0 <= i < n :: key(s[i]) == key(s[0])
    ensures n < |s| ==> key(s[n]) != key(s[0])
  {
    if |s| > 1 && key(s[1]) == key(s[0]) then
      var n := Run(key, s[1..]);
      assert forall i | 1 <= i < n + 1 :: s[i] == s[1..][i - 1];
      n + 1
    else 1
  }

  /** The elements that are a run of their own. */
  function Singles<T, K(==)>(key: T -> K, s: seq<T>): seq<T>
    decreases |s|
  {
    if s == [] then []
    else
      var n := Run(key, s);
      (if n == 1 then [s[0]] else []) + Singles(key, s[n..])
  }

  /** The first element of every longer run. */
  function Leaders<T, K(==)>(key: T -> K, s: seq<T>): seq<T>
    decreases |s|
  {
    if s == [] then []
    else
      var n := Run(key, s);
      (if n == 1 then [] else [s[0]]) + Leaders(key, s[n..])
  }

  lemma RunIs<T, K>(key: T -> K, s: seq<T>, n: nat)
    requires 1 <= n <= |s| && (forall i | 0 <= i < n :: key(s[i]) == key(s[0]))
    requires n < |s| ==> key(s[n]) != key(s[0])
    ensures Run(key, s) == n
  {
  }

  /** One run, from `i` to `j`, peeled off. */
  lemma PeelRun<T, K>(key: T -> K, s: seq<T>, i: nat, j: nat)
    requires i < j <= |s| && (forall k | i <= k < j :: key(s[k]) == key(s[i]))
    requires j < |s| ==> key(s[j]) != key(s[i])
    ensures Singles(key, s[i..]) == (if j - i == 1 then [s[i]] else []) + Singles(key, s[j..])
    ensures Leaders(key, s[i..]) == (if j - i == 1 then [] else [s[i]]) + Leaders(key, s[j..])
  {
    var rest := s[i..];
    assert forall k | 0 <= k < j - i :: rest[k] == s[i + k];
    assert j < |s| ==> rest[j - i] == s[j];
    RunIs(key, rest, j - i);
    assert rest[j - i..] == s[j..];
  }

  lemma AppendFirst<T>(a: seq<T>, x: T, b: seq<T>)
    ensures a + ([x] + b) == a + [x] + b
  {
  }

  method SplitRuns<T, K(==)>(key: T -> K, s: seq<T>) returns (singles: seq<T>, leaders: seq<T>)
    ensures singles == Singles(key, s) && leaders == Leaders(key, s)
  {
    singles, leaders := [], [];
    var i := 0;
    assert s[0..] == s;
    while i < |s|
      invariant 0 <= i <= |s|
      invariant singles + Singles(key, s[i..]) == Singles(key, s)
      invariant leaders + Leaders(key, s[i..]) == Leaders(key, s)
    {
      var j := RunEnd(key, s, i);
      PeelRun(key, s, i, j);
      if j - i == 1 {
        AppendFirst(singles, s[i], Singles(key, s[j..]));
        singles := singles + [s[i]];
      } else {
        AppendFirst(leaders, s[i], Leaders(key, s[j..]));
        leaders := leaders + [s[i]];
      }
      assert [] + Singles(key, s[j..]) == Singles(key, s[j..]) && [] + Leaders(key, s[j..]) == Leaders(key, s[j..]);
      i := j;
    }
  }

  method RunEnd<T, K(==)>(key: T -> K, s: seq<T>, i: nat) returns (j: nat)
    requires i < |s|
    ensures i < j <= |s| && (forall k | i <= k < j :: key(s[k]) == key(s[i]))
    ensures j < |s| ==> key(s[j]) != key(s[i])
  {
    j := i + 1;
    while j < |s| && key(s[j]) == key(s[j - 1])
      invariant i < j <= |s|
      invariant forall k | i <= k < j :: key(s[k]) == key(s[i])
    {
      j := j + 1;
    }
  }

  // ---------------------------------------------------------------- counting keys

  function Count<T, K(==)>(key: T -> K, s: seq<T>, k: K): nat {
    if s == [] then 0
    else Count(key, s[..|s| - 1], k) + (if key(s[|s| - 1]) == k then 1 else 0)
  }

  lemma {:induction false} CountPair<T, K>(key: T -> K, a: T, b: T, k: K)
    ensures Count(key, [a, b], k) == (if key(a) == k then 1 else 0) + (if key(b) == k then 1 else 0)
  {
    CountSplit(key, [a], [b], k);
    assert [a, b] == [a] + [b];
    assert Count(key, [a][..0], k) == 0 && Count(key, [b][..0], k) == 0;
  }

  lemma {:induction false} CountSplit<T, K>(key: T -> K, a: seq<T>, b: seq<T>, k: K)
    ensures Count(key, a + b, k) == Count(key, a, k) + Count(key, b, k)
  {
    if b == [] {
      assert a + b == a;
    } else {
      assert (a + b)[..|a + b| - 1] == a + b[..|b| - 1];
      CountSplit(key, a, b[..|b| - 1], k);
    }
  }

  lemma WithoutOne<T>(b: seq<T>, i: nat)
    requires i < |b|
    ensures multiset(b) == multiset(b[..i] + b[i + 1..]) + multiset{b[i]}
  {
    assert b == b[..i] + [b[i]] + b[i + 1..];
  }

  lemma LessOne<T>(a: multiset<T>, b: multiset<T>, x: T)
    requires a + multiset{x} == b + multiset{x}
    ensures a == b
  {
    assert a == a + multiset{x} - multiset{x};
    assert b == b + multiset{x} - multiset{x};
  }

  lemma CountWithoutOne<T, K>(key: T -> K, b: seq<T>, i: nat, k: K)
    requires i < |b|
    ensures Count(key, b, k) == Count(key, b[..i] + b[i + 1..], k) + (if key(b[i]) == k then 1 else 0)
  {
    var tail := [b[i]] + b[i + 1..];
    assert b == b[..i] + tail;
    CountSplit(key, b[..i], tail, k);
    CountSplit(key, [b[i]], b[i + 1..], k);
    CountSplit(key, b[..i], b[i + 1..], k);
    assert Count(key, [b[i]][..0], k) == 0;
  }

  lemma {:induction false} CountSame<T, K>(key: T -> K, a: seq<T>, b: seq<T>, k: K)
    requires multiset(a) == multiset(b)
    ensures Count(key, a, k) == Count(key, b, k)
    decreases |a|
  {
    if a == [] {
      assert |multiset(b)| == 0;
    } else {
      var front, last := a[..|a| - 1], a[|a| - 1];
      assert a == front + [last];
      assert last in multiset(b);
      var i :| 0 <= i < |b| && b[i] == last;
      WithoutOne(b, i);
      assert multiset(a) == multiset(front) + multiset{last};
      LessOne(multiset(front), multiset(b[..i] + b[i + 1..]), last);
      CountSame(key, front, b[..i] + b[i + 1..], k);
      CountWithoutOne(key, b, i, k);
    }
  }

  /** An element is counted at least as often as there are places with its key. */
  lemma CountAt<T, K>(key: T -> K, s: seq<T>, i: nat)
    requires i < |s|
    ensures Count(key, s, key(s[i])) >= 1
    ensures Count(key, s, key(s[i])) == 1 <==> forall j | 0 <= j < |s| && j != i :: key(s[j]) != key(s[i])
  {
    var k, rest := key(s[i]), s[..i] + s[i + 1..];
    CountWithoutOne(key, s, i, k);
    if forall j | 0 <= j < |s| && j != i :: key(s[j]) != k {
      CountAbsent(key, rest, k);
    } else {
      var j :| 0 <= j < |s| && j != i && key(s[j]) == k;
      var at := if j < i then j else j - 1;
      assert rest[at] == s[j];
      CountWithoutOne(key, rest, at, k);
    }
  }

  lemma {:induction false} CountUniform<T, K>(key: T -> K, s: seq<T>, k: K, c: K)
    requires forall i | 0 <= i < |s| :: key(s[i]) == c
    ensures Count(key, s, k) == if c == k then |s| else 0
  {
    if s != [] {
      CountUniform(key, s[..|s| - 1], k, c);
    }
  }

  lemma {:induction false} CountAbsent<T, K>(key: T -> K, s: seq<T>, k: K)
    requires forall i | 0 <= i < |s| :: key(s[i]) != k
    ensures Count(key, s, k) == 0
  {
    if s != [] {
      CountAbsent(key, s[..|s| - 1], k);
    }
  }

  // ---------------------------------------------------------------- what a split keeps

  /** Equal keys stand together, and keys rise. */
  ghost predicate Rising<T, K>(lt: (K, K) -> bool, key: T -> K, s: seq<T>) {
    forall i, j | 0 <= i < j < |s| :: key(s[i]) == key(s[j]) || lt(key(s[i]), key(s[j]))
  }

  ghost predicate StrictlyRising<T, K>(lt: (K, K) -> bool, key: T -> K, s: seq<T>) {
    forall i, j | 0 <= i < j < |s| :: lt(key(s[i]), key(s[j]))
  }

  ghost predicate StrictOrder<K(!new)>(lt: (K, K) -> bool) {
    && (forall a :: !lt(a, a))
    && (forall a, b, c :: lt(a, b) && lt(b, c) ==> lt(a, c))
  }

  /** Behind the first run every key is greater. */
  lemma RunSplits<T, K(!new)>(lt: (K, K) -> bool, key: T -> K, s: seq<T>)
    requires StrictOrder(lt) && s != [] && Rising(lt, key, s)
    ensures Rising(lt, key, s[Run(key, s)..])
    ensures forall x <- s[Run(key, s)..] :: lt(key(s[0]), key(x))
  {
    var n := Run(key, s);
    forall i | n <= i < |s| ensures lt(key(s[0]), key(s[i])) {
      assert lt(key(s[0]), key(s[n]));
    }
  }

  lemma CountBehind<T, K>(key: T -> K, s: seq<T>, n: nat, k: K, c: K)
    requires n <= |s| && forall i | 0 <= i < n :: key(s[i]) == c
    requires k == c ==> forall i | n <= i < |s| :: key(s[i]) != k
    ensures Count(key, s, k) == if k == c then n else Count(key, s[n..], k)
  {
    assert s == s[..n] + s[n..];
    CountSplit(key, s[..n], s[n..], k);
    CountUniform(key, s[..n], k, c);
    if k == c {
      CountAbsent(key, s[n..], k);
    }
  }

  lemma CountBehindRun<T, K(!new)>(lt: (K, K) -> bool, key: T -> K, s: seq<T>, k: K)
    requires StrictOrder(lt) && s != [] && Rising(lt, key, s)
    ensures Count(key, s, k) == if k == key(s[0]) then Run(key, s) else Count(key, s[Run(key, s)..], k)
  {
    var n := Run(key, s);
    RunSplits(lt, key, s);
    forall i | n <= i < |s| ensures key(s[i]) != key(s[0]) {
      assert s[n..][i - n] == s[i];
    }
    CountBehind(key, s, n, k, key(s[0]));
  }

  lemma InEitherPart<T>(s: seq<T>, n: nat, x: T)
    requires n <= |s|
    ensures x in s <==> x in s[..n] || x in s[n..]
  {
    assert s == s[..n] + s[n..];
  }

  lemma SinglesStep<T, K>(key: T -> K, s: seq<T>, x: T)
    requires s != []
    ensures x in Singles(key, s) <==> (Run(key, s) == 1 && x == s[0]) || x in Singles(key, s[Run(key, s)..])
  {
  }

  /** A single is exactly an element whose key occurs once. */
  lemma {:induction false} SingleExactly<T(!new), K(!new)>(lt: (K, K) -> bool, key: T -> K, s: seq<T>, x: T)
    requires StrictOrder(lt) && Rising(lt, key, s)
    ensures x in Singles(key, s) <==> x in s && Count(key, s, key(x)) == 1
    decreases |s|
  {
    if s != [] {
      var n := Run(key, s);
      RunSplits(lt, key, s);
      CountBehindRun(lt, key, s, key(x));
      SingleExactly(lt, key, s[n..], x);
      SinglesStep(key, s, x);
      InEitherPart(s, n, x);
      assert x in s[..n] ==> key(x) == key(s[0]);
      assert n == 1 ==> s[..n] == [s[0]];
    }
  }

  lemma {:induction false} SinglesRise<T(!new), K(!new)>(lt: (K, K) -> bool, key: T -> K, s: seq<T>)
    requires StrictOrder(lt) && Rising(lt, key, s)
    ensures StrictlyRising(lt, key, Singles(key, s))
    decreases |s|
  {
    if s != [] {
      var rest := s[Run(key, s)..];
      RunSplits(lt, key, s);
      SinglesRise(lt, key, rest);
      var later := Singles(key, rest);
      forall j | 0 <= j < |later| ensures lt(key(s[0]), key(later[j])) {
        SingleExactly(lt, key, rest, later[j]);
      }
    }
  }

  lemma {:induction false} LeaderIsRepeated<T(!new), K(!new)>(lt: (K, K) -> bool, key: T -> K, s: seq<T>, x: T)
    requires StrictOrder(lt) && Rising(lt, key, s) && x in Leaders(key, s)
    ensures x in s && Count(key, s, key(x)) >= 2
    decreases |s|
  {
    var n := Run(key, s);
    CountBehindRun(lt, key, s, key(x));
    if !(n > 1 && x == s[0]) {
      RunSplits(lt, key, s);
      LeaderIsRepeated(lt, key, s[n..], x);
      assert lt(key(s[0]), key(x));
    }
  }

  /** A leader stands before every element of its key. */
  lemma {:induction false} LeaderStandsFirst<T(!new), K(!new)>(lt: (K, K) -> bool, key: T -> K, s: seq<T>, x: T)
    returns (i: nat)
    requires StrictOrder(lt) && Rising(lt, key, s) && x in Leaders(key, s)
    ensures i < |s| && s[i] == x && forall j | 0 <= j < |s| && key(s[j]) == key(x) :: i <= j
    decreases |s|
  {
    var n := Run(key, s);
    if n > 1 && x == s[0] {
      i := 0;
    } else {
      var rest := s[n..];
      RunSplits(lt, key, s);
      var k := LeaderStandsFirst(lt, key, rest, x);
      assert rest[k] in rest;
      StandsLater(key, s, n, k, x);
      i := n + k;
    }
  }

  lemma StandsLater<T, K>(key: T -> K, s: seq<T>, n: nat, k: nat, x: T)
    requires n + k < |s| && forall j | 0 <= j < n :: key(s[j]) != key(x)
    requires forall j | 0 <= j < |s[n..]| && key(s[n..][j]) == key(x) :: k <= j
    ensures forall j | 0 <= j < |s| && key(s[j]) == key(x) :: n + k <= j
  {
    forall j | 0 <= j < |s| && key(s[j]) == key(x) ensures n + k <= j {
      assert j >= n ==> s[n..][j - n] == s[j];
    }
  }

  /** In an ordered sequence the leader is least among the elements of its key. */
  lemma LeaderIsLeast<T(!new), K(!new)>(le: (T, T) -> bool, lt: (K, K) -> bool, key: T -> K, s: seq<T>, x: T, y: T)
    requires StrictOrder(lt) && Rising(lt, key, s) && Ordered(le, s)
    requires x in Leaders(key, s) && y in s && key(x) == key(y)
    ensures x == y || le(x, y)
  {
    var i := LeaderStandsFirst(lt, key, s, x);
  }

  /** Every key that occurs more than once has a leader. */
  lemma {:induction false} RepeatedHasLeader<T(!new), K(!new)>(lt: (K, K) -> bool, key: T -> K, s: seq<T>, k: K)
    returns (l: T)
    requires StrictOrder(lt) && Rising(lt, key, s) && Count(key, s, k) >= 2
    ensures l in Leaders(key, s) && key(l) == k
    decreases |s|
  {
    RunSplits(lt, key, s);
    CountBehindRun(lt, key, s, k);
    if k == key(s[0]) {
      l := s[0];
    } else {
      l := RepeatedHasLeader(lt, key, s[Run(key, s)..], k);
    }
  }

  lemma {:induction false} LeadersRise<T(!new), K(!new)>(lt: (K, K) -> bool, key: T -> K, s: seq<T>)
    requires StrictOrder(lt) && Rising(lt, key, s)
    ensures StrictlyRising(lt, key, Leaders(key, s))
    decreases |s|
  {
    if s != [] {
      var rest := s[Run(key, s)..];
      RunSplits(lt, key, s);
      LeadersRise(lt, key, rest);
      var later := Leaders(key, rest);
      forall j | 0 <= j < |later| ensures lt(key(s[0]), key(later[j])) {
        LeaderIsRepeated(lt, key, rest, later[j]);
      }
    }
  }

  function Keys<T, K>(key: T -> K, s: seq<T>): (ks: seq<K>)
    ensures |ks| == |s| && forall i | 0 <= i < |s| :: ks[i] == key(s[i])
  {
    seq(|s|, i requires 0 <= i < |s| => key(s[i]))
  }

  ghost predicate StrictSequence<K>(lt: (K, K) -> bool, a: seq<K>) {
    forall i, j | 0 <= i < j < |a| :: lt(a[i], a[j])
  }

  lemma HasElement<K>(s: seq<K>)
    ensures s != [] ==> exists k :: k in s
  {
    assert s != [] ==> s[0] in s;
  }

  /** Strictly rising sequences with the same elements are the same. */
  lemma {:induction false} SameElementsSameSequence<K(!new)>(lt: (K, K) -> bool, a: seq<K>, b: seq<K>)
    requires StrictOrder(lt) && StrictSequence(lt, a) && StrictSequence(lt, b)
    requires forall k :: k in a <==> k in b
    ensures a == b
    decreases |a|
  {
    if a == [] || b == [] {
      HasElement(a);
      HasElement(b);
    } else {
      FirstIsSame(lt, a, b);
      forall k ensures k in a[1..] <==> k in b[1..] {
        assert k in a <==> k == a[0] || k in a[1..];
        assert k in b <==> k == b[0] || k in b[1..];
        assert k in a[1..] ==> lt(a[0], k);
        assert k in b[1..] ==> lt(b[0], k);
      }
      SameElementsSameSequence(lt, a[1..], b[1..]);
      assert a == [a[0]] + a[1..] && b == [b[0]] + b[1..];
    }
  }

  lemma FirstIsSame<K(!new)>(lt: (K, K) -> bool, a: seq<K>, b: seq<K>)
    requires StrictOrder(lt) && StrictSequence(lt, a) && StrictSequence(lt, b) && a != [] && b != []
    requires forall k :: k in a <==> k in b
    ensures a[0] == b[0]
  {
    assert a[0] in b && b[0] in a;
    var i :| 0 <= i < |b| && b[i] == a[0];
    var j :| 0 <= j < |a| && a[j] == b[0];
  }
}
