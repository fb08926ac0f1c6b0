// tracked_objects.cc: the tally of a task's deaths over profiling phases, and the deltas
// that a snapshot emits for each phase.
module TrackedDeaths {
  const INT_MAX: int := 0x7FFF_FFFF

  /** The int32 that an arithmetic result wraps to. */
  function Wrap(x: int): (r: int)
    ensures -0x8000_0000 <= r <= INT_MAX
    ensures -0x8000_0000 <= x <= INT_MAX ==> r == x
  {
    (x + 0x8000_0000) % 0x1_0000_0000 - 0x8000_0000
  }

  lemma WrapAdd(x: int, y: int)
    ensures Wrap(Wrap(x) + y) == Wrap(x + y)
    ensures Wrap(x - Wrap(y)) == Wrap(x - y)
  {
    var p := WrapQuotient(x);
    var q := WrapQuotient(y);
    hide Wrap;
    WrapMultiple(Wrap(x) + y, p);
    WrapMultiple(x - y, q);
  }

  lemma WrapQuotient(x: int) returns (q: int)
    ensures x == Wrap(x) + 0x1_0000_0000 * q
  {
    q := (x + 0x8000_0000) / 0x1_0000_0000;
  }

  lemma WrapMultiple(x: int, q: int)
    ensures Wrap(x + 0x1_0000_0000 * q) == Wrap(x)
  {
  }

  type int32 = x: int | -0x8000_0000 <= x <= INT_MAX

  /** One death: how long the task was queued and how long it ran. */
  datatype Death = Death(queue: int32, run: int32)

  datatype DeathDataSnapshot = DeathDataSnapshot(
    count: int,
    runSum: int32, runMax: int32, runSample: int32,
    queueSum: int32, queueMax: int32, queueSample: int32)

  /** DeathDataSnapshot::Delta. */
  function Delta(now: DeathDataSnapshot, older: DeathDataSnapshot): DeathDataSnapshot
  {
    DeathDataSnapshot(now.count - older.count,
                      Wrap(now.runSum - older.runSum), now.runMax, now.runSample,
                      Wrap(now.queueSum - older.queueSum), now.queueMax, now.queueSample)
  }

  /** The snapshots of the phases completed so far, the last one first. */
  datatype Snapshots =
    | NoPhase
    | Phase(profilingPhase: int, data: DeathDataSnapshot, prev: Snapshots)

  // ------------------------------------------------------------ what the tally means

  function SumQueue(deaths: seq<Death>): int
  {
    if deaths == [] then 0 else SumQueue(deaths[..|deaths| - 1]) + deaths[|deaths| - 1].queue
  }

  function SumRun(deaths: seq<Death>): int
  {
    if deaths == [] then 0 else SumRun(deaths[..|deaths| - 1]) + deaths[|deaths| - 1].run
  }

  /** The largest queue duration, or 0. */
  function MaxQueue(deaths: seq<Death>): int32
  {
    if deaths == [] then 0
    else
      var m, q := MaxQueue(deaths[..|deaths| - 1]), deaths[|deaths| - 1].queue;
      if m < q then q else m
  }

  function MaxRun(deaths: seq<Death>): int32
  {
    if deaths == [] then 0
    else
      var m, r := MaxRun(deaths[..|deaths| - 1]), deaths[|deaths| - 1].run;
      if m < r then r else m
  }

  /** A count that stops at INT_MAX. */
  function Clamp(n: nat): (c: int)
    ensures n > 0 ==> c > 0
  {
    if n < INT_MAX then n else INT_MAX
  }

  /** All the deaths of some phases, in order. */
  function Flat(phases: seq<seq<Death>>): seq<Death>
  {
    if phases == [] then [] else Flat(phases[..|phases| - 1]) + phases[|phases| - 1]
  }

  /** The cumulative part of a snapshot tells all deaths, the maxima only those of the
      last phase, and the sample is one of that phase's deaths. */
  ghost predicate Tells(data: DeathDataSnapshot, all: seq<Death>, phase: seq<Death>)
  {
    data.count == Clamp(|all|) && data.runSum == Wrap(SumRun(all)) && data.queueSum == Wrap(SumQueue(all))
    && data.runMax == MaxRun(phase) && data.queueMax == MaxQueue(phase)
    && (phase != [] ==> Death(data.queueSample, data.runSample) in phase)
  }

  /** The snapshots of some completed phases with these numbers and deaths. */
  ghost predicate Recorded(s: Snapshots, numbers: seq<int>, phases: seq<seq<Death>>)
    requires |numbers| == |phases|
    decreases |phases|
  {
    if phases == [] then s == NoPhase
    else
      var n := |phases| - 1;
      s.Phase? && s.profilingPhase == numbers[n] && Tells(s.data, Flat(phases), phases[n])
      && Recorded(s.prev, numbers[..n], phases[..n])
  }

  // ------------------------------------------------------------ the class

  class DeathData {
    var count: int
    var sampleProbabilityCount: int
    var runSum: int32
    var queueSum: int32
    var runMax: int32
    var queueMax: int32
    var runSample: int32
    var queueSample: int32
    var lastPhaseSnapshot: Snapshots

    function Current(): DeathDataSnapshot
      reads this
    {
      DeathDataSnapshot(count, runSum, runMax, runSample, queueSum, queueMax, queueSample)
    }

    /** After some completed phases, with the deaths of the current one. */
    ghost predicate Holds(numbers: seq<int>, phases: seq<seq<Death>>, current: seq<Death>)
      reads this
    {
      |numbers| == |phases| && Recorded(lastPhaseSnapshot, numbers, phases)
      && Tells(Current(), Flat(phases) + current, current) && sampleProbabilityCount == Clamp(|current|)
    }

    constructor ()
      ensures Holds([], [], [])
    {
      count, sampleProbabilityCount, runSum, queueSum := 0, 0, 0, 0;
      runMax, queueMax, runSample, queueSample := 0, 0, 0, 0;
      lastPhaseSnapshot := NoPhase;
    }

    method RecordDeath(queueDuration: int32, runDuration: int32, randomNumber: nat,
           ghost numbers: seq<int>, ghost phases: seq<seq<Death>>, ghost current: seq<Death>)
      requires Holds(numbers, phases, current)
      modifies this
      ensures Holds(numbers, phases, current + [Death(queueDuration, runDuration)])
      ensures lastPhaseSnapshot == old(lastPhaseSnapshot)
      ensures Death(queueSample, runSample) ==
          if randomNumber % Clamp(|current| + 1) == 0 then Death(queueDuration, runDuration) else old(Death(queueSample, runSample))
    {
      hide Recorded, Flat, Wrap, Tells, Clamp;
      ghost var before, probabilityBefore := Current(), sampleProbabilityCount;
      if count < INT_MAX {
        count := count + 1;
      }
      TellsCount(before, Flat(phases) + current, current);
      CountsUp(before.count, |Flat(phases) + current|);
      var probabilityCount := sampleProbabilityCount;
      if probabilityCount < INT_MAX {
        probabilityCount := probabilityCount + 1;
      }
      CountsUp(probabilityBefore, |current|);
      sampleProbabilityCount := probabilityCount;
      queueSum := Wrap(queueSum + queueDuration);
      runSum := Wrap(runSum + runDuration);
      if queueMax < queueDuration {
        queueMax := queueDuration;
      }
      if runMax < runDuration {
        runMax := runDuration;
      }
      if randomNumber % probabilityCount == 0 {
        queueSample := queueDuration;
        runSample := runDuration;
      }
      FirstIsSampled(randomNumber);
      TellsNext(before, Current(), Flat(phases) + current, current, Death(queueDuration, runDuration));
      assert Flat(phases) + (current + [Death(queueDuration, runDuration)]) == Flat(phases) + current + [Death(queueDuration, runDuration)];
    }

    method OnProfilingPhaseCompleted(profilingPhase: int, ghost numbers: seq<int>, ghost phases: seq<seq<Death>>, ghost current: seq<Death>)
      requires Holds(numbers, phases, current)
      modifies this
      ensures Holds(numbers + [profilingPhase], phases + [current], [])
    {
      hide Wrap, SumRun, SumQueue;
      ghost var n, p := numbers + [profilingPhase], phases + [current];
      assert n[..|numbers|] == numbers && p[..|phases|] == phases;
      assert Flat(p) == Flat(phases) + current && Flat(p) + [] == Flat(p);
      lastPhaseSnapshot := Phase(profilingPhase, Current(), lastPhaseSnapshot);
      sampleProbabilityCount := 0;
      runMax := 0;
      queueMax := 0;
    }
  }

  lemma TellsCount(data: DeathDataSnapshot, all: seq<Death>, phase: seq<Death>)
    requires Tells(data, all, phase)
    ensures data.count == Clamp(|all|)
  {
  }

  lemma CountsUp(count: int, n: nat)
    requires count == Clamp(n)
    ensures Clamp(n + 1) == (if count < INT_MAX then count + 1 else count) && 0 <= count && Clamp(n + 1) > 0
    ensures n == 0 ==> Clamp(n + 1) == 1
  {
  }

  /** One death more: new counts, sums and maxima, and either the old sample or the death. */
  lemma TellsNext(data: DeathDataSnapshot, next: DeathDataSnapshot, all: seq<Death>, phase: seq<Death>, death: Death)
    requires Tells(data, all, phase) && next.count == Clamp(|all| + 1)
    requires next.runSum == Wrap(data.runSum + death.run) && next.queueSum == Wrap(data.queueSum + death.queue)
    requires next.runMax == (if data.runMax < death.run then death.run else data.runMax)
    requires next.queueMax == (if data.queueMax < death.queue then death.queue else data.queueMax)
    requires var sample := Death(next.queueSample, next.runSample);
        sample == death || (phase != [] && sample == Death(data.queueSample, data.runSample))
    ensures Tells(next, all + [death], phase + [death])
  {
    hide Wrap, SumRun, SumQueue, MaxRun, MaxQueue, Clamp;
    OneMore(all, death);
    OneMore(phase, death);
    WrapAdd(SumQueue(all), death.queue);
    WrapAdd(SumRun(all), death.run);
  }

  lemma FirstIsSampled(n: nat)
    ensures n % 1 == 0
  {
  }

  lemma OneMore(deaths: seq<Death>, death: Death)
    ensures SumRun(deaths + [death]) == SumRun(deaths) + death.run
    ensures SumQueue(deaths + [death]) == SumQueue(deaths) + death.queue
    ensures MaxRun(deaths + [death]) == if MaxRun(deaths) < death.run then death.run else MaxRun(deaths)
    ensures MaxQueue(deaths + [death]) == if MaxQueue(deaths) < death.queue then death.queue else MaxQueue(deaths)
  {
    assert (deaths + [death])[..|deaths|] == deaths;
  }

  // ------------------------------------------------------------ the deltas of the phases

  datatype TaskSnapshot = TaskSnapshot(profilingPhase: int, data: DeathDataSnapshot)

  /** The delta that the walk takes at a snapshot. */
  function Head(s: Snapshots): DeathDataSnapshot
    requires s.Phase?
  {
    if s.prev.Phase? then Delta(s.data, s.prev.data) else s.data
  }

  /** The walk of SnapshotExecutedTasks over the snapshots of one task, the current phase
      first: what it emits, without the phases in which the task did not die. */
  function Emitted(s: Snapshots): seq<TaskSnapshot>
  {
    if s == NoPhase then []
    else
      var data := Head(s);
      (if data.count > 0 then [TaskSnapshot(s.profilingPhase, data)] else []) + Emitted(s.prev)
  }

  method Walk(s: Snapshots) returns (out: seq<TaskSnapshot>)
    ensures out == Emitted(s)
  {
    hide Delta;
    out := [];
    var phase := s;
    while phase.Phase?
      invariant out + Emitted(phase) == Emitted(s)
      decreases phase
    {
      var data := if phase.prev.Phase? then Delta(phase.data, phase.prev.data) else phase.data;
      ghost var before := out;
      if data.count > 0 {
        out := out + [TaskSnapshot(phase.profilingPhase, data)];
        assert out + Emitted(phase.prev) == before + ([TaskSnapshot(phase.profilingPhase, data)] + Emitted(phase.prev));
      } else {
        assert [] + Emitted(phase.prev) == Emitted(phase.prev);
      }
      phase := phase.prev;
    }
  }

  /** The sums, maxima and sample of just these deaths. */
  ghost predicate Figures(data: DeathDataSnapshot, phase: seq<Death>)
  {
    data.runSum == Wrap(SumRun(phase)) && data.queueSum == Wrap(SumQueue(phase))
    && data.runMax == MaxRun(phase) && data.queueMax == MaxQueue(phase)
    && Death(data.queueSample, data.runSample) in phase
  }

  /** What is emitted for a phase tells exactly that phase's own deaths. */
  ghost predicate Own(data: DeathDataSnapshot, phase: seq<Death>)
  {
    data.count == |phase| && Figures(data, phase)
  }

  lemma {:induction false} SumAppend(a: seq<Death>, b: seq<Death>)
    ensures SumRun(a + b) == SumRun(a) + SumRun(b) && SumQueue(a + b) == SumQueue(a) + SumQueue(b)
    decreases |b|
  {
    if b == [] {
      assert a + b == a;
    } else {
      var n := |b| - 1;
      assert (a + b)[..|a + b| - 1] == a + b[..n];
      SumAppend(a, b[..n]);
    }
  }

  /** The difference of two cumulative snapshots is the later phase: its sums are right
      modulo 2^32 even when they have wrapped, and its count up to what the clamp leaves. */
  lemma DeltaIsOwn(now: DeathDataSnapshot, older: DeathDataSnapshot, before: seq<Death>, phase: seq<Death>, last: seq<Death>)
    requires Tells(now, before + phase, phase) && Tells(older, before, last)
    ensures Delta(now, older).count == Counted(|phase|, |before|)
    ensures phase != [] ==> Figures(Delta(now, older), phase)
  {
    hide Wrap, SumRun, SumQueue, MaxRun, MaxQueue;
    SumAppend(before, phase);
    DifferenceWraps(SumRun(before), SumRun(phase));
    DifferenceWraps(SumQueue(before), SumQueue(phase));
  }

  /** How many of own deaths are counted when there were others before: those that still
      fit below the clamp. */
  function Counted(own: nat, before: nat): (r: nat)
    ensures Clamp(before) + r == Clamp(before + own)
    ensures r == own <==> own == 0 || before + own <= INT_MAX
    ensures r > 0 <==> own > 0 && before < INT_MAX
  {
    if before + own <= INT_MAX then own else if before < INT_MAX then INT_MAX - before else 0
  }

  /** The delta of a phase has the right count just when the phase is empty or all deaths
      together stay below the clamp; from then on a phase with deaths counts too few, and
      once the clamp was reached before it, none: it is not emitted at all. */
  lemma ClampedCountIsWrong(now: DeathDataSnapshot, older: DeathDataSnapshot, before: seq<Death>, phase: seq<Death>, last: seq<Death>)
    requires Tells(now, before + phase, phase) && Tells(older, before, last)
    ensures Delta(now, older).count == |phase| <==> phase == [] || |before + phase| <= INT_MAX
    ensures Delta(now, older).count > 0 <==> phase != [] && |before| < INT_MAX
  {
    DeltaIsOwn(now, older, before, phase, last);
  }

  lemma DifferenceWraps(x: int, y: int)
    ensures Wrap(Wrap(x + y) - Wrap(x)) == Wrap(y)
  {
    hide Wrap;
    WrapAdd(x + y, -Wrap(x));
    WrapAdd(x + y, x);
  }

  /** The phases in which the task died, the last first. */
  function NonEmpty(numbers: seq<int>, phases: seq<seq<Death>>): (r: seq<(int, seq<Death>)>)
    requires |numbers| == |phases|
    decreases |phases|
  {
    if phases == [] then []
    else
      var n := |phases| - 1;
      (if phases[n] == [] then [] else [(numbers[n], phases[n])]) + NonEmpty(numbers[..n], phases[..n])
  }

  /** The phases with deaths that began before the count was clamped, each with the number
      of deaths before it, the last first. */
  function Unclamped(numbers: seq<int>, phases: seq<seq<Death>>): (r: seq<(int, seq<Death>, nat)>)
    requires |numbers| == |phases|
    decreases |phases|
  {
    if phases == [] then []
    else
      var n := |phases| - 1;
      var before := |Flat(phases[..n])|;
      (if phases[n] == [] || before >= INT_MAX then [] else [(numbers[n], phases[n], before)]) + Unclamped(numbers[..n], phases[..n])
  }

  lemma HeadTells(s: Snapshots, numbers: seq<int>, phases: seq<seq<Death>>)
    requires |numbers| == |phases| > 0 && Recorded(s, numbers, phases)
    ensures var n := |phases| - 1;
        Head(s).count == Counted(|phases[n]|, |Flat(phases[..n])|) && (phases[n] != [] ==> Figures(Head(s), phases[n]))
  {
    hide Figures, Wrap, SumRun, SumQueue, Delta, MaxRun, MaxQueue;
    var n := |phases| - 1;
    if n > 0 {
      DeltaIsOwn(s.data, s.prev.data, Flat(phases[..n]), phases[n], phases[n - 1]);
    } else {
      assert phases == [phases[0]] && phases[..0] == [];
      assert Flat(phases) == [] + phases[0] == phases[0];
      FirstTells(s.data, phases[0]);
    }
  }

  lemma FirstTells(data: DeathDataSnapshot, phase: seq<Death>)
    requires Tells(data, phase, phase)
    ensures data.count == Counted(|phase|, 0) && (phase != [] ==> Figures(data, phase))
  {
  }

  /** The walk gives the last phase its own count just when the phase is empty or all deaths
      are at most INT_MAX, and reports nothing for it just when it is empty or the count had
      reached INT_MAX before. */
  lemma ClampedPhaseIsLost(s: Snapshots, numbers: seq<int>, phases: seq<seq<Death>>)
    requires |numbers| == |phases| > 0 && Recorded(s, numbers, phases)
    ensures var n := |phases| - 1;
        Head(s).count == |phases[n]| <==> phases[n] == [] || |Flat(phases)| <= INT_MAX
    ensures var n := |phases| - 1;
        Emitted(s) == Emitted(s.prev) <==> phases[n] == [] || |Flat(phases[..n])| >= INT_MAX
  {
    hide Figures, Tells, Delta;
    HeadTells(s, numbers, phases);
    assert Emitted(s) == (if Head(s).count > 0 then [TaskSnapshot(s.profilingPhase, Head(s))] else []) + Emitted(s.prev);
    assert Head(s).count > 0 ==> |Emitted(s)| == |Emitted(s.prev)| + 1;
  }

  /** For any deaths and phase ends, exactly the phases with deaths that began before the
      count was clamped are emitted, each with its own sums and maxima, a sample from its
      own deaths, and as many of them as the clamp leaves. */
  lemma {:induction false} EmitsUnclamped(s: Snapshots, numbers: seq<int>, phases: seq<seq<Death>>)
    requires |numbers| == |phases| && Recorded(s, numbers, phases)
    ensures var want, got := Unclamped(numbers, phases), Emitted(s);
        |got| == |want| && forall k :: 0 <= k < |got| ==>
        got[k].profilingPhase == want[k].0 && Figures(got[k].data, want[k].1)
        && got[k].data.count == Counted(|want[k].1|, want[k].2)
    decreases |phases|
  {
    hide Tells, Figures, Delta, Flat, Counted;
    if phases != [] {
      var n := |phases| - 1;
      EmitsUnclamped(s.prev, numbers[..n], phases[..n]);
      HeadTells(s, numbers, phases);
    }
  }

  /** Every phase with deaths is emitted, with just its own figures. */
  ghost predicate Faithful(got: seq<TaskSnapshot>, want: seq<(int, seq<Death>)>)
  {
    |got| == |want|
    && forall k :: 0 <= k < |got| ==> got[k].profilingPhase == want[k].0 && Own(got[k].data, want[k].1)
  }

  lemma {:induction false} NothingClamped(numbers: seq<int>, phases: seq<seq<Death>>)
    requires |numbers| == |phases| && |Flat(phases)| <= INT_MAX
    ensures var all, some := NonEmpty(numbers, phases), Unclamped(numbers, phases);
        |all| == |some| && forall k :: 0 <= k < |all| ==>
        all[k].0 == some[k].0 && all[k].1 == some[k].1 && |all[k].1| + some[k].2 <= INT_MAX
    decreases |phases|
  {
    if phases != [] {
      var n := |phases| - 1;
      NothingClamped(numbers[..n], phases[..n]);
    }
  }

  function CountAll(want: seq<(int, seq<Death>)>): nat
  {
    if want == [] then 0 else |want[0].1| + CountAll(want[1..])
  }

  lemma {:induction false} CountsFlat(numbers: seq<int>, phases: seq<seq<Death>>)
    requires |numbers| == |phases|
    ensures CountAll(NonEmpty(numbers, phases)) == |Flat(phases)|
    decreases |phases|
  {
    if phases != [] {
      var n := |phases| - 1;
      var rest := NonEmpty(numbers[..n], phases[..n]);
      CountsFlat(numbers[..n], phases[..n]);
      if phases[n] == [] {
        assert NonEmpty(numbers, phases) == rest;
      } else {
        assert NonEmpty(numbers, phases)[1..] == rest;
      }
    }
  }

  lemma {:induction false} FaithfulCounts(got: seq<TaskSnapshot>, want: seq<(int, seq<Death>)>)
    requires Faithful(got, want)
    ensures TotalCount(got) == CountAll(want)
  {
    if got != [] {
      FaithfulCounts(got[1..], want[1..]);
    }
  }

  /** For any deaths and phase ends, exactly the phases with deaths are emitted, each with its
      own count, sums and maxima and a sample from its own deaths, if and only if there were
      at most INT_MAX deaths. */
  lemma EmitsOwnPhases(s: Snapshots, numbers: seq<int>, phases: seq<seq<Death>>)
    requires |numbers| == |phases| && Recorded(s, numbers, phases)
    ensures Faithful(Emitted(s), NonEmpty(numbers, phases)) <==> |Flat(phases)| <= INT_MAX
  {
    hide Recorded, Figures, Emitted, NonEmpty, Unclamped, Flat, CountAll, TotalCount;
    if |Flat(phases)| <= INT_MAX {
      EmitsUnclamped(s, numbers, phases);
      NothingClamped(numbers, phases);
    } else if Faithful(Emitted(s), NonEmpty(numbers, phases)) {
      FaithfulCounts(Emitted(s), NonEmpty(numbers, phases));
      CountsFlat(numbers, phases);
      DeltasTelescope(s, numbers, phases);
      assert false;
    }
  }

  function TotalCount(out: seq<TaskSnapshot>): int
  {
    if out == [] then 0 else out[0].data.count + TotalCount(out[1..])
  }

  function TotalRun(out: seq<TaskSnapshot>): int
  {
    if out == [] then 0 else out[0].data.runSum + TotalRun(out[1..])
  }

  function TotalQueue(out: seq<TaskSnapshot>): int
  {
    if out == [] then 0 else out[0].data.queueSum + TotalQueue(out[1..])
  }

  /** The deaths of the phases that began before the count was clamped. */
  function Reported(phases: seq<seq<Death>>): seq<Death>
  {
    if phases == [] then []
    else
      var n := |phases| - 1;
      Reported(phases[..n]) + if |Flat(phases[..n])| < INT_MAX then phases[n] else []
  }

  lemma {:induction false} AllReported(phases: seq<seq<Death>>)
    requires |Flat(phases)| <= INT_MAX
    ensures Reported(phases) == Flat(phases)
    decreases |phases|
  {
    if phases != [] {
      AllReported(phases[..|phases| - 1]);
    }
  }

  /** The emitted counts telescope to the number of all deaths as far as it is counted, and
      both emitted sums, modulo 2^32, to those of the phases that are reported. */
  lemma {:induction false} DeltasTelescope(s: Snapshots, numbers: seq<int>, phases: seq<seq<Death>>)
    requires |numbers| == |phases| && Recorded(s, numbers, phases)
    ensures TotalCount(Emitted(s)) == Clamp(|Flat(phases)|)
    ensures Wrap(TotalRun(Emitted(s))) == Wrap(SumRun(Reported(phases)))
    ensures Wrap(TotalQueue(Emitted(s))) == Wrap(SumQueue(Reported(phases)))
    ensures |Flat(phases)| <= INT_MAX ==> Reported(phases) == Flat(phases)
    decreases |phases|
  {
    hide Wrap, SumRun, SumQueue, MaxRun, MaxQueue, Tells, Emitted, Delta, TotalRun, TotalQueue, TotalCount, Counted, Clamp;
    EmitStep(s);
    NothingSums();
    if phases != [] {
      var n := |phases| - 1;
      DeltasTelescope(s.prev, numbers[..n], phases[..n]);
      HeadTells(s, numbers, phases);
      var before, own := Reported(phases[..n]), phases[n];
      if Head(s).count > 0 {
        SumAppend(before, own);
        SumsWrap(TotalRun(Emitted(s.prev)), SumRun(before), SumRun(own));
        SumsWrap(TotalQueue(Emitted(s.prev)), SumQueue(before), SumQueue(own));
      } else {
        assert Reported(phases) == before;
      }
    }
    if |Flat(phases)| <= INT_MAX {
      AllReported(phases);
    }
  }

  lemma NothingSums()
    ensures SumRun([]) == 0 == SumQueue([]) && Clamp(0) == 0
  {
  }

  lemma SumsWrap(t: int, u: int, x: int)
    requires Wrap(t) == Wrap(u)
    ensures Wrap(Wrap(x) + t) == Wrap(u + x)
  {
    hide Wrap;
    WrapAdd(x, t);
    WrapAdd(t, x);
    WrapAdd(u, x);
  }

  /** What one snapshot adds to the totals. */
  lemma EmitStep(s: Snapshots)
    ensures s.NoPhase? ==> TotalCount(Emitted(s)) == 0 == TotalRun(Emitted(s)) == TotalQueue(Emitted(s))
    ensures s.Phase? ==> TotalCount(Emitted(s)) == (if Head(s).count > 0 then Head(s).count else 0) + TotalCount(Emitted(s.prev))
    ensures s.Phase? ==> TotalRun(Emitted(s)) == (if Head(s).count > 0 then Head(s).runSum else 0) + TotalRun(Emitted(s.prev))
    ensures s.Phase? ==> TotalQueue(Emitted(s)) == (if Head(s).count > 0 then Head(s).queueSum else 0) + TotalQueue(Emitted(s.prev))
  {
    hide Delta;
    if s.Phase? {
      assert Head(s).count > 0 ==> Emitted(s)[1..] == Emitted(s.prev);
      assert Head(s).count <= 0 ==> Emitted(s) == Emitted(s.prev);
    }
  }

  /** The snapshot of one task in the current phase, and its walk: every completed phase and
      the current one is reported with exactly its own deaths, and nothing is lost, if and
      only if there were at most INT_MAX deaths; otherwise the totals are still those of the
      deaths that are counted. */
  method SnapshotExecutedTask(death: DeathData, currentPhase: int,
         ghost numbers: seq<int>, ghost phases: seq<seq<Death>>, ghost current: seq<Death>)
    returns (out: seq<TaskSnapshot>)
    requires death.Holds(numbers, phases, current)
    ensures Faithful(out, NonEmpty(numbers + [currentPhase], phases + [current])) <==> |Flat(phases) + current| <= INT_MAX
    ensures TotalCount(out) == Clamp(|Flat(phases) + current|)
    ensures Wrap(TotalRun(out)) == Wrap(SumRun(Reported(phases + [current])))
    ensures Wrap(TotalQueue(out)) == Wrap(SumQueue(Reported(phases + [current])))
    ensures |Flat(phases) + current| <= INT_MAX ==> Reported(phases + [current]) == Flat(phases) + current
  {
    hide Tells, Faithful, Wrap, SumRun, SumQueue, Emitted, NonEmpty, TotalCount, TotalRun, TotalQueue, Reported;
    var s := Phase(currentPhase, death.Current(), death.lastPhaseSnapshot);
    ghost var n, p := numbers + [currentPhase], phases + [current];
    assert n[..|numbers|] == numbers && p[..|phases|] == phases;
    assert Flat(p) == Flat(phases) + current;
    EmitsOwnPhases(s, n, p);
    DeltasTelescope(s, n, p);
    out := Walk(s);
  }
}
