// tracked_objects.cc: stopwatches that nest on a thread, each of which leaves out the time
// of those started and stopped inside it.
module TaskStopwatches {
  import opened TrackedDeaths

  /** A TrackedTime in milliseconds, modulo 2^32; 0 is null. */
  type Time = t: nat | t < 0x1_0000_0000

  datatype StopwatchState = CREATED | RUNNING | STOPPED

  /** The duration between two times, or 0 if one is null. */
  function Wallclock(start: Time, end: Time): int32
  {
    if start != 0 && end != 0 then Wrap(end - start) else 0
  }

  class ThreadData {
    var currentStopwatch: TaskStopwatch?

    constructor ()
      ensures currentStopwatch == null
    {
      currentStopwatch := null;
    }
  }

  class TaskStopwatch {
    var state: StopwatchState
    var startTime: Time
    var wallclockDurationMs: int32
    var excludedDurationMs: int32
    var currentThreadData: ThreadData?
    var parent: TaskStopwatch?
    var child: TaskStopwatch?

    constructor ()
      ensures state == CREATED && wallclockDurationMs == 0 && excludedDurationMs == 0
      ensures parent == null && child == null && currentThreadData == null
    {
      state, startTime, wallclockDurationMs, excludedDurationMs := CREATED, 0, 0, 0;
      currentThreadData, parent, child := null, null, null;
    }

    /** The stopwatch may have another one started inside it. */
    predicate Open()
      reads this
    {
      state == RUNNING && child == null
    }

    method Start(now: Time, thread: ThreadData?)
      requires state == CREATED && child == null && parent == null && excludedDurationMs == 0 == wallclockDurationMs
      requires thread != null && thread.currentStopwatch != null ==> thread.currentStopwatch != this && thread.currentStopwatch.Open()
      modifies this, thread, if thread == null then null else thread.currentStopwatch
      ensures Open() && startTime == now && excludedDurationMs == 0 == wallclockDurationMs && currentThreadData == thread
      ensures thread == null ==> parent == null
      ensures thread != null ==> thread.currentStopwatch == this && parent == old(thread.currentStopwatch)
      ensures parent != null ==>
          parent.child == this && parent.state == RUNNING
          && parent.excludedDurationMs == old(thread.currentStopwatch.excludedDurationMs)
      ensures parent != null ==>
          parent.startTime == old(thread.currentStopwatch.startTime)
          && parent.parent == old(thread.currentStopwatch.parent)
          && parent.currentThreadData == old(thread.currentStopwatch.currentThreadData)
          && parent.wallclockDurationMs == old(thread.currentStopwatch.wallclockDurationMs)
    {
      state := RUNNING;
      startTime := now;
      currentThreadData := thread;
      if currentThreadData == null {
        return;
      }
      parent := currentThreadData.currentStopwatch;
      if parent != null {
        parent.child := this;
      }
      currentThreadData.currentStopwatch := this;
    }

    method Stop(now: Time)
      requires Open() && wallclockDurationMs == 0
      requires currentThreadData != null ==> currentThreadData.currentStopwatch == this
      requires parent != null ==> currentThreadData != null && parent != this && parent.state == RUNNING && parent.child == this
      modifies this, currentThreadData, parent
      ensures state == STOPPED && wallclockDurationMs == Wallclock(startTime, now) && excludedDurationMs == old(excludedDurationMs)
      ensures startTime == old(startTime)
      ensures old(currentThreadData) != null ==> old(currentThreadData).currentStopwatch == old(parent)
      ensures var p := old(parent); p != null ==> p.Open() && p.excludedDurationMs == Wrap(old(parent.excludedDurationMs) + wallclockDurationMs)
      ensures var p := old(parent);
          p != null ==>
          p.startTime == old(parent.startTime) && p.parent == old(parent.parent)
          && p.currentThreadData == old(parent.currentThreadData)
          && p.wallclockDurationMs == old(parent.wallclockDurationMs)
    {
      state := STOPPED;
      if startTime != 0 && now != 0 {
        wallclockDurationMs := Wrap(now - startTime);
      }
      if currentThreadData == null {
        return;
      }
      currentThreadData.currentStopwatch := parent;
      if parent == null {
        return;
      }
      parent.child := null;
      parent.excludedDurationMs := Wrap(parent.excludedDurationMs + wallclockDurationMs);
      parent := null;
    }

    function RunDurationMs(): int32
      requires state == STOPPED
      reads this
    {
      Wrap(wallclockDurationMs - excludedDurationMs)
    }
  }

  // ------------------------------------------------------------ well-nested runs

  /** A stopwatch's run: when it is started and stopped, and the stopwatches inside. */
  datatype Nest = Nest(start: Time, end: Time, inside: seq<Nest>)

  function Wall(n: Nest): int32
  {
    Wallclock(n.start, n.end)
  }

  function WallAll(nests: seq<Nest>): int
  {
    if nests == [] then 0 else Wall(nests[0]) + WallAll(nests[1..])
  }

  /** What RunDurationMs gives in the end. */
  function RunDuration(n: Nest): int32
  {
    Wrap(Wall(n) - Wrap(WallAll(n.inside)))
  }

  /** The sum of the run durations of a stopwatch and all stopwatches inside, at any depth. */
  function Total(n: Nest): int
    decreases n
  {
    RunDuration(n) + TotalAll(n.inside)
  }

  function TotalAll(nests: seq<Nest>): int
    decreases nests
  {
    if nests == [] then 0 else Total(nests[0]) + TotalAll(nests[1..])
  }

  lemma WrapSame(x: int, y: int, z: int)
    requires Wrap(x) == Wrap(y)
    ensures Wrap(x + z) == Wrap(y + z)
  {
    hide Wrap;
    WrapAdd(x, z);
    WrapAdd(y, z);
  }

  /** No time is lost and none counted twice: the run durations of all the stopwatches of
      a nest add up to the wallclock duration of the outermost, modulo 2^32. */
  lemma {:induction false} RunDurationsAddUp(n: Nest)
    ensures Wrap(Total(n)) == Wall(n)
    decreases n
  {
    hide Wrap, Wallclock;
    TotalsAddUp(n.inside);
    var w, x := Wall(n), WallAll(n.inside);
    WrapAdd(0, x);
    WrapAdd(w, x);
    WrapAdd(w - x, TotalAll(n.inside));
    WrapSame(TotalAll(n.inside), x, w - x);
    WrapOfInt32(w);
    assert RunDuration(n) == Wrap(w - x);
  }

  lemma WrapOfInt32(w: int32)
    ensures Wrap(w) == w
  {
  }

  lemma {:induction false} TotalsAddUp(nests: seq<Nest>)
    ensures Wrap(TotalAll(nests)) == Wrap(WallAll(nests))
    decreases nests
  {
    hide Wrap, Wallclock;
    if nests != [] {
      RunDurationsAddUp(nests[0]);
      TotalsAddUp(nests[1..]);
      WrapAdd(Total(nests[0]), TotalAll(nests[1..]));
      WrapSame(TotalAll(nests[1..]), WallAll(nests[1..]), Wall(nests[0]));
    }
  }

  ghost predicate AllStopped(ws: seq<TaskStopwatch>)
    reads ws
  {
    forall w :: w in ws ==> w.state == STOPPED
  }

  /** The sum of what RunDurationMs gives for some objects. */
  ghost function Durations(ws: seq<TaskStopwatch>): int
    requires AllStopped(ws)
    reads ws
  {
    if ws == [] then 0 else ws[0].RunDurationMs() + Durations(ws[1..])
  }

  lemma {:induction false} DurationsAppend(v: seq<TaskStopwatch>, w: seq<TaskStopwatch>)
    requires AllStopped(v) && AllStopped(w)
    ensures AllStopped(v + w) && Durations(v + w) == Durations(v) + Durations(w)
  {
    if v == [] {
      assert v + w == w;
    } else {
      DurationsAppend(v[1..], w);
      assert (v + w)[1..] == v[1..] + w;
    }
  }

  /** Running a nest on a thread: the objects end with the durations of the nest, and the
      stopwatch that was running before goes on, with this one's time left out. The run
      durations of all the objects together are this one's wallclock duration. */
  method Run(n: Nest, thread: ThreadData) returns (w: TaskStopwatch, ghost all: seq<TaskStopwatch>)
    requires thread.currentStopwatch != null ==> thread.currentStopwatch.Open() && thread.currentStopwatch.wallclockDurationMs == 0
    modifies thread, thread.currentStopwatch
    ensures fresh(w) && w.state == STOPPED && w.wallclockDurationMs == Wall(n) && w.RunDurationMs() == RunDuration(n)
    ensures thread.currentStopwatch == old(thread.currentStopwatch)
    ensures Continues(thread.currentStopwatch, old(Mark(thread.currentStopwatch)), Wall(n))
    ensures w in all && fresh(all) && AllStopped(all) && |all| == Size(n)
    ensures Durations(all) == Total(n) && Wrap(Durations(all)) == w.wallclockDurationMs
    decreases n
  {
    hide Wrap, Wallclock, AllStopped, Durations;
    w := new TaskStopwatch();
    w.Start(n.start, thread);
    ghost var inner := RunAll(n.inside, thread);
    WrapNothing(WallAll(n.inside));
    w.Stop(n.end);
    DurationsCons(w, inner);
    all := [w] + inner;
    RunDurationsAddUp(n);
  }

  lemma NoDurations()
    ensures AllStopped([]) && Durations([]) == 0
  {
  }

  lemma DurationsCons(w: TaskStopwatch, rest: seq<TaskStopwatch>)
    requires w.state == STOPPED && AllStopped(rest)
    ensures AllStopped([w] + rest) && Durations([w] + rest) == w.RunDurationMs() + Durations(rest)
  {
    assert ([w] + rest)[1..] == rest;
  }

  /** The number of stopwatches in a nest. */
  function Size(n: Nest): nat
    decreases n
  {
    1 + SizeAll(n.inside)
  }

  function SizeAll(nests: seq<Nest>): nat
    decreases nests
  {
    if nests == [] then 0 else Size(nests[0]) + SizeAll(nests[1..])
  }

  lemma WrapNothing(x: int)
    ensures Wrap(0 + x) == Wrap(x)
  {
  }

  method RunAll(nests: seq<Nest>, thread: ThreadData) returns (ghost all: seq<TaskStopwatch>)
    requires thread.currentStopwatch != null ==> thread.currentStopwatch.Open() && thread.currentStopwatch.wallclockDurationMs == 0
    modifies thread, thread.currentStopwatch
    ensures thread.currentStopwatch == old(thread.currentStopwatch)
    ensures Continues(thread.currentStopwatch, old(Mark(thread.currentStopwatch)), WallAll(nests))
    ensures fresh(all) && AllStopped(all) && |all| == SizeAll(nests) && Durations(all) == TotalAll(nests)
    decreases nests
  {
    hide Wrap, Wallclock, AllStopped, Durations;
    if nests == [] {
      ContinuesZero(thread.currentStopwatch);
      NoDurations();
      return [];
    }
    ghost var before := Mark(thread.currentStopwatch);
    var w;
    ghost var first;
    w, first := Run(nests[0], thread);
    ghost var rest := RunAll(nests[1..], thread);
    if thread.currentStopwatch != null {
      WrapAdd(before.excluded + Wall(nests[0]), WallAll(nests[1..]));
    }
    DurationsAppend(first, rest);
    all := first + rest;
  }

  /** What a running stopwatch has recorded. */
  datatype Marked = Nothing | Marked(start: Time, excluded: int32, parent: TaskStopwatch?, thread: ThreadData?)

  function Mark(w: TaskStopwatch?): Marked
    reads w
  {
    if w == null then Nothing else Marked(w.startTime, w.excludedDurationMs, w.parent, w.currentThreadData)
  }

  /** The stopwatch runs on, and duration more is left out. */
  predicate Continues(w: TaskStopwatch?, before: Marked, duration: int)
    reads w
  {
    w != null && before.Marked? ==>
      w.Open() && w.wallclockDurationMs == 0 && Mark(w) == before.(excluded := Wrap(before.excluded + duration))
  }

  lemma ContinuesZero(w: TaskStopwatch?)
    requires w != null ==> w.Open() && w.wallclockDurationMs == 0
    ensures Continues(w, Mark(w), 0)
  {
  }
}
