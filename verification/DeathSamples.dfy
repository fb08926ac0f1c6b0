// The sample of a profiling phase: which of the phase's deaths RecordDeath keeps, depending on
// its random numbers, and that this makes every death equally likely.
module DeathSamples {
  import opened TrackedDeaths

  /** The death that is kept, when the random number of death i leaves the remainder r[i]
      modulo i + 1: the last one with remainder 0. */
  function Kept(r: seq<nat>): (k: nat)
    requires r != []
    ensures k < |r|
  {
    if |r| == 1 || r[|r| - 1] == 0 then |r| - 1 else Kept(r[..|r| - 1])
  }

  /** The remainders that n random numbers can leave. */
  predicate Possible(r: seq<nat>, n: nat)
  {
    |r| == n && forall i :: 0 <= i < n ==> r[i] <= i
  }

  // ------------------------------------------------------------ counting

  /** The sequences of a set with one more element, which is c. */
  ghost function With(s: set<seq<nat>>, c: nat): set<seq<nat>>
  {
    set r | r in s :: r + [c]
  }

  /** The sequences of a set with one more element, from low up to high. */
  ghost function Within(s: set<seq<nat>>, low: nat, high: nat): set<seq<nat>>
    requires low <= high
    decreases high
  {
    if low == high then {} else Within(s, low, high - 1) + With(s, high - 1)
  }

  /** Which sequences these are. */
  ghost predicate EndsWithin(r: seq<nat>, s: set<seq<nat>>, low: nat, high: nat)
  {
    r != [] && r[..|r| - 1] in s && low <= r[|r| - 1] < high
  }

  lemma WithMembers(s: set<seq<nat>>, c: nat, r: seq<nat>)
    ensures r in With(s, c) <==> EndsWithin(r, s, c, c + 1)
  {
    if r in With(s, c) {
      var q :| q in s && r == q + [c];
      assert r[..|r| - 1] == q;
    }
    if EndsWithin(r, s, c, c + 1) {
      assert r == r[..|r| - 1] + [c];
    }
  }

  lemma {:induction false} WithinMembers(s: set<seq<nat>>, low: nat, high: nat, r: seq<nat>)
    requires low <= high
    ensures r in Within(s, low, high) <==> EndsWithin(r, s, low, high)
    decreases high
  {
    hide With;
    if low < high {
      WithinMembers(s, low, high - 1, r);
      WithMembers(s, high - 1, r);
    }
  }

  lemma {:induction false} WithCount(s: set<seq<nat>>, c: nat)
    ensures |With(s, c)| == |s|
  {
    if s == {} {
      assert With(s, c) == {};
    } else {
      var q :| q in s;
      WithCount(s - {q}, c);
      WithOneMore(s, q, c);
    }
  }

  lemma WithOneMore(s: set<seq<nat>>, q: seq<nat>, c: nat)
    requires q in s
    ensures With(s, c) == With(s - {q}, c) + {q + [c]} && q + [c] !in With(s - {q}, c)
  {
    hide With;
    forall r
      ensures r in With(s, c) <==> r in With(s - {q}, c) + {q + [c]}
    {
      WithMembers(s, c, r);
      WithMembers(s - {q}, c, r);
      assert (q + [c])[..|q + [c]| - 1] == q;
      if r != [] && r[..|r| - 1] == q && r[|r| - 1] == c {
        assert r == q + [c];
      }
    }
    WithMembers(s - {q}, c, q + [c]);
    assert (q + [c])[..|q + [c]| - 1] == q;
  }

  lemma Product(n: int, k: int)
    ensures n * k + n == n * (k + 1) && n * 0 == 0
  {
  }

  lemma WithinDisjoint(s: set<seq<nat>>, low: nat, high: nat)
    requires low < high
    ensures |Within(s, low, high)| == |Within(s, low, high - 1)| + |With(s, high - 1)|
  {
    hide With;
    var a, b := Within(s, low, high - 1), With(s, high - 1);
    forall r | r in a
      ensures r !in b
    {
      WithinMembers(s, low, high - 1, r);
      WithMembers(s, high - 1, r);
    }
    assert |a + b| == |a| + |b|;
  }

  lemma {:induction false} WithinCount(s: set<seq<nat>>, low: nat, high: nat)
    requires low <= high
    ensures |Within(s, low, high)| == |s| * (high - low)
    decreases high
  {
    Product(|s|, high - 1 - low);
    if low < high {
      hide With, Within;
      WithinCount(s, low, high - 1);
      WithCount(s, high - 1);
      WithinDisjoint(s, low, high);
    }
  }

  // ------------------------------------------------------------ every death is as likely

  /** All the remainders that n random numbers can leave. */
  ghost function All(n: nat): set<seq<nat>>
  {
    if n == 0 then {[]} else Within(All(n - 1), 0, n)
  }

  /** Those for which death k is kept. */
  ghost function Keeping(n: nat, k: nat): set<seq<nat>>
    requires k < n
  {
    if k == n - 1 then With(All(n - 1), 0) else Within(Keeping(n - 1, k), 1, n)
  }

  lemma {:induction false} AllMembers(n: nat, r: seq<nat>)
    ensures r in All(n) <==> Possible(r, n)
  {
    if n > 0 {
      WithinMembers(All(n - 1), 0, n, r);
      if r != [] {
        AllMembers(n - 1, r[..|r| - 1]);
      }
    }
  }

  lemma {:induction false} KeepingMembers(n: nat, k: nat, r: seq<nat>)
    requires k < n
    ensures r in Keeping(n, k) <==> Possible(r, n) && Kept(r) == k
  {
    hide With, Within, All;
    if k == n - 1 {
      WithMembers(All(n - 1), 0, r);
    } else {
      WithinMembers(Keeping(n - 1, k), 1, n, r);
    }
    if r != [] {
      AllMembers(n - 1, r[..|r| - 1]);
      if k < n - 1 {
        KeepingMembers(n - 1, k, r[..|r| - 1]);
      }
    }
  }

  function Factorial(n: nat): (f: nat)
    ensures f > 0
  {
    if n == 0 then 1 else n * Factorial(n - 1)
  }

  lemma {:induction false} AllCount(n: nat)
    ensures |All(n)| == Factorial(n)
  {
    if n > 0 {
      hide Within;
      AllCount(n - 1);
      WithinCount(All(n - 1), 0, n);
      assert |All(n)| == Factorial(n - 1) * n == Factorial(n);
    }
  }

  lemma {:induction false} KeepingCount(n: nat, k: nat)
    requires k < n
    ensures |Keeping(n, k)| == Factorial(n - 1)
  {
    hide With, Within, All;
    if k == n - 1 {
      AllCount(n - 1);
      WithCount(All(n - 1), 0);
    } else {
      KeepingCount(n - 1, k);
      WithinCount(Keeping(n - 1, k), 1, n);
    }
  }

  /** Of the remainders that the random numbers of n deaths can leave, the same part, one in n,
      makes each of the deaths the sample. */
  lemma SampleIsUniform(n: nat, k: nat)
    requires k < n
    ensures forall r :: r in All(n) <==> Possible(r, n)
    ensures forall r :: r in Keeping(n, k) <==> Possible(r, n) && Kept(r) == k
    ensures n * |Keeping(n, k)| == |All(n)|
  {
    forall r
      ensures r in All(n) <==> Possible(r, n)
      ensures r in Keeping(n, k) <==> Possible(r, n) && Kept(r) == k
    {
      AllMembers(n, r);
      KeepingMembers(n, k, r);
    }
    AllCount(n);
    KeepingCount(n, k);
  }

  // ------------------------------------------------------------ the deaths of a phase

  /** The remainders that the random numbers of a phase leave. */
  function Remainders(randoms: seq<nat>): (r: seq<nat>)
    ensures Possible(r, |randoms|)
  {
    seq(|randoms|, i requires 0 <= i < |randoms| => randoms[i] % (i + 1))
  }

  lemma KeptNext(randoms: seq<nat>, i: nat)
    requires i < |randoms|
    ensures Kept(Remainders(randoms[..i + 1])) == if randoms[i] % (i + 1) == 0 then i else Kept(Remainders(randoms[..i]))
  {
    assert Remainders(randoms[..i + 1])[..i] == Remainders(randoms[..i]);
  }

  /** Recording the deaths of a phase keeps the sample that the random numbers choose. */
  method RecordPhase(data: DeathData, deaths: seq<Death>, randoms: seq<nat>, ghost numbers: seq<int>, ghost phases: seq<seq<Death>>)
    requires data.Holds(numbers, phases, []) && |randoms| == |deaths| <= INT_MAX
    modifies data
    ensures data.Holds(numbers, phases, deaths)
    ensures deaths != [] ==> Death(data.queueSample, data.runSample) == deaths[Kept(Remainders(randoms))]
  {
    hide Recorded, Tells, Flat, Kept, Remainders;
    var i := 0;
    while i < |deaths|
      invariant i <= |deaths| && data.Holds(numbers, phases, deaths[..i])
      invariant i > 0 ==> Death(data.queueSample, data.runSample) == deaths[Kept(Remainders(randoms[..i]))]
    {
      data.RecordDeath(deaths[i].queue, deaths[i].run, randoms[i], numbers, phases, deaths[..i]);
      KeptNext(randoms, i);
      assert deaths[..i + 1] == deaths[..i] + [Death(deaths[i].queue, deaths[i].run)];
      i := i + 1;
    }
    assert deaths[..i] == deaths && randoms[..i] == randoms;
  }
}
