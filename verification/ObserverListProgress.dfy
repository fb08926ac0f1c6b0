// The calls of an ObserverListThreadSafe get done: what AddObserver and RemoveObserver have
// begun takes effect with the thread's next step, wrappers can end and waiting tasks can
// run, and every thread can come to rest by itself.
module ObserverListProgress {
  import opened ObserverList
  import opened ObserverListThreadSafe
  import opened ObserverListDelivery
  import opened ObserverListNotify

  // ------------------------------------------------------------ calls take effect

  lemma {:induction false} LocalStays(states: seq<State>, steps: seq<Step>, a: nat, j: nat, t: Thread)
    requires Run(states, steps) && a < j <= |steps| && forall i :: a < i < j ==> steps[i].t != t
    ensures LocalOf(states[j], t) == LocalOf(states[a + 1], t)
    decreases j
  {
    hide Apply, Enabled, Init;
    if a + 1 < j {
      LocalStays(states, steps, a, j - 1, t);
      LocalsKept(states[j - 1], steps[j - 1], t);
    }
  }

  lemma AddBegun(s: State, t: Thread, obs: Observer, made: Ctx)
    requires Enabled(s, AddLock(t, obs, made))
    ensures PcOf(Apply(s, AddLock(t, obs, made)), t).Adding? && PcOf(Apply(s, AddLock(t, obs, made)), t).obs == obs
  {
  }

  /** A thread that calls AddObserver has the observer registered after its next step. */
  lemma AddTakesEffect(states: seq<State>, steps: seq<Step>, t: Thread, obs: Observer, a: nat, b: nat)
    requires Run(states, steps) && NextOwn(steps, a, b) && steps[a].AddLock? && steps[a].t == t && steps[a].obs == obs
    ensures Adds(states[b], steps[b], t, obs) && Registered(states[b + 1], t, obs)
  {
    hide Inv, Apply, Init, Registered;
    AddBegun(states[a], t, obs, steps[a].made);
    LocalStays(states, steps, a, b, t);
    RunInv(states, steps, b);
    RefinesSetsOfObservers(states[b], steps[b], t, obs);
  }

  lemma RemovalBegun(s: State, t: Thread, obs: Observer)
    requires Enabled(s, RemoveLock(t, obs)) && t in s.lists
    ensures PcOf(Apply(s, RemoveLock(t, obs)), t) == Removing(s.lists[t], obs)
  {
  }

  /** A thread that calls RemoveObserver no longer has the observer registered: at once if
      it has no context, and otherwise after its next step. */
  lemma RemoveTakesEffect(states: seq<State>, steps: seq<Step>, t: Thread, obs: Observer, a: nat, b: nat)
    requires Run(states, steps) && a < |steps| && steps[a] == RemoveLock(t, obs)
    ensures t !in states[a].lists ==> !Registered(states[a + 1], t, obs)
    ensures t in states[a].lists && NextOwn(steps, a, b) ==>
        Removes(states[b], steps[b], t, obs) && !Registered(states[b + 1], t, obs)
  {
    hide Inv, Apply, Init, Registered;
    if t !in states[a].lists {
      RunInv(states, steps, a);
      RefinesSetsOfObservers(states[a], steps[a], t, obs);
    } else if NextOwn(steps, a, b) {
      RemovalBegun(states[a], t, obs);
      LocalStays(states, steps, a, b, t);
      RunInv(states, steps, b);
      RefinesSetsOfObservers(states[b], steps[b], t, obs);
    }
  }

  /** While an observer is being called it may itself add and remove observers, notify, and
      run further tasks; after it returns its wrapper goes on. */
  lemma CalledMayCall(states: seq<State>, steps: seq<Step>, a: nat, b: nat)
    requires Run(states, steps) && NextOwn(steps, a, b) && Called(states[a], steps[a]).Some?
    ensures MayCall(states[b], steps[a].t)
    ensures steps[b].AddLock? || steps[b].RemoveLock? || steps[b].Notify? || steps[b].WrapperLock? || steps[b].CallbackReturns?
    ensures steps[b].CallbackReturns? ==> Enabled(states[b + 1], GetNext(steps[a].t))
  {
    CallBegins(states[a], steps[a]);
    LocalStays(states, steps, a, b, steps[a].t);
  }

  lemma CallBegins(s: State, step: Step)
    requires Enabled(s, step) && Called(s, step).Some?
    ensures MayCall(Apply(s, step), step.t) && FramesOf(Apply(s, step), step.t) != []
  {
  }

  // ------------------------------------------------------------ wrappers can end

  /** The second run continues the first with GetNext and returning callbacks of thread t,
      whose wrappers all live on up to the last step. */
  ghost predicate GoesOn(states: seq<State>, steps: seq<Step>, more: seq<State>, moreSteps: seq<Step>, t: Thread)
    requires |states| == |steps| + 1
  {
    Run(more, moreSteps) && |steps| < |moreSteps| && states == more[..|states|] && steps == moreSteps[..|steps|]
    && (forall i :: |steps| <= i < |moreSteps| ==> moreSteps[i] in {GetNext(t), CallbackReturns(t)})
    && (forall i :: |steps| <= i < |moreSteps| ==> |FramesOf(more[i], t)| == |FramesOf(states[|steps|], t)|)
  }

  /** What is left for the innermost wrapper of t: the slots not yet looked at. */
  ghost function SlotsLeft(s: State, t: Thread): nat
    requires FramesOf(s, t) != []
  {
    var size, index := |ContextOf(s, FramesOf(s, t)[0].ctx).slots|, FramesOf(s, t)[0].cursor.index;
    if index < size then size - index else 0
  }

  lemma Append(states: seq<State>, steps: seq<Step>, step: Step)
    requires Run(states, steps) && Enabled(states[|steps|], step)
    ensures Run(states + [Apply(states[|steps|], step)], steps + [step])
  {
    hide Apply, Enabled, Init;
    var more, moreSteps := states + [Apply(states[|steps|], step)], steps + [step];
    forall i | 0 <= i < |moreSteps|
      ensures Enabled(more[i], moreSteps[i]) && more[i + 1] == Apply(more[i], moreSteps[i])
    {
      if i < |steps| {
        assert more[i] == states[i] && more[i + 1] == states[i + 1] && moreSteps[i] == steps[i];
      }
    }
  }

  /** A callback of the innermost wrapper returns. */
  lemma CallbackStep(s: State, t: Thread)
    requires Enabled(s, CallbackReturns(t))
    ensures var s' := Apply(s, CallbackReturns(t));
        PcOf(s', t).Ready? && |FramesOf(s', t)| == |FramesOf(s, t)| && FramesOf(s', t)[1..] == FramesOf(s, t)[1..]
        && !FramesOf(s', t)[0].inCallback && SlotsLeft(s', t) == SlotsLeft(s, t)
  {
  }

  /** GetNext of the innermost wrapper ends it, or leaves fewer slots to look at. */
  lemma NextStep(s: State, t: Thread)
    requires Enabled(s, GetNext(t))
    ensures var s' := Apply(s, GetNext(t));
        (FramesOf(s', t) == FramesOf(s, t)[1..] && (PcOf(s', t).Ready? || PcOf(s', t).Unlisting?))
        || (PcOf(s', t).Ready? && |FramesOf(s', t)| == |FramesOf(s, t)| && FramesOf(s', t)[1..] == FramesOf(s, t)[1..]
            && SlotsLeft(s', t) < SlotsLeft(s, t))
  {
    hide Closed;
  }

  /** Whatever has happened before, the innermost wrapper of a thread can end: it is enough
      that its callbacks return and that the thread goes on with it. */
  lemma {:induction false} CanEnd(states: seq<State>, steps: seq<Step>, t: Thread) returns (more: seq<State>, moreSteps: seq<Step>)
    requires Run(states, steps) && PcOf(states[|steps|], t).Ready? && FramesOf(states[|steps|], t) != []
    ensures GoesOn(states, steps, more, moreSteps, t) && moreSteps[|moreSteps| - 1] == GetNext(t)
    ensures FramesOf(more[|moreSteps|], t) == FramesOf(states[|steps|], t)[1..]
    ensures PcOf(more[|moreSteps|], t).Ready? || PcOf(more[|moreSteps|], t).Unlisting?
    decreases SlotsLeft(states[|steps|], t), One(FramesOf(states[|steps|], t)[0].inCallback)
  {
    hide Apply, Init, SlotsLeft;
    var s := states[|steps|];
    var step := if FramesOf(s, t)[0].inCallback then CallbackReturns(t) else GetNext(t);
    more, moreSteps := states + [Apply(s, step)], steps + [step];
    Append(states, steps, step);
    if step.GetNext? {
      NextStep(s, t);
    } else {
      CallbackStep(s, t);
    }
    if |FramesOf(Apply(s, step), t)| == |FramesOf(s, t)| {
      var last, lastSteps := CanEnd(more, moreSteps, t);
      assert more == last[..|more|] && moreSteps == lastSteps[..|moreSteps|];
      assert last[|steps|] == more[|steps|] == s && lastSteps[|steps|] == step;
      more, moreSteps := last, lastSteps;
    }
  }

  /** A thread that is free to run a task can run any that waits for it: take it and, if its
      context is still current, begin a wrapper and end it, with no step of other threads
      and nothing removed in between. */
  lemma WaitingTaskCanRun(states: seq<State>, steps: seq<Step>, t: Thread, c: Ctx) returns (more: seq<State>, moreSteps: seq<Step>)
    requires Run(states, steps) && c in states[|steps|].tasks && MayCall(states[|steps|], t) && Listed(states[|steps|], t, c)
    ensures var a := |steps|;
        Run(more, moreSteps) && a + 2 < |moreSteps| && states == more[..a + 1] && steps == moreSteps[..a]
        && moreSteps[a] == WrapperLock(t, c) && moreSteps[a + 1] == WrapperBegin(t)
        && (forall i :: a + 2 <= i < |moreSteps| ==> moreSteps[i] in {GetNext(t), CallbackReturns(t)})
        && Ends(more, moreSteps, t, |FramesOf(states[a], t)|, a + 1, |moreSteps| - 1)
  {
    hide Apply, Enabled, Init, Listed, MayCall, Inv;
    var a := |steps|;
    var s := states[a];
    RunInv(states, steps, a);
    BeginSteps(s, t, c);
    var s1 := Apply(s, WrapperLock(t, c));
    var s2 := Apply(s1, WrapperBegin(t));
    Append(states, steps, WrapperLock(t, c));
    var locked, lockedSteps := states + [s1], steps + [WrapperLock(t, c)];
    Append(locked, lockedSteps, WrapperBegin(t));
    var begun, begunSteps := locked + [s2], lockedSteps + [WrapperBegin(t)];
    more, moreSteps := CanEnd(begun, begunSteps, t);
  }

  lemma BeginSteps(s: State, t: Thread, c: Ctx)
    requires Inv(s) && c in s.tasks && MayCall(s, t) && Listed(s, t, c)
    ensures Enabled(s, WrapperLock(t, c))
    ensures var s1 := Apply(s, WrapperLock(t, c));
        Enabled(s1, WrapperBegin(t)) && FramesOf(s1, t) == FramesOf(s, t)
        && var s2 := Apply(s1, WrapperBegin(t)); PcOf(s2, t).Ready? && |FramesOf(s2, t)| == |FramesOf(s, t)| + 1
  {
    hide ContextInv;
    assert LocalInv(s, t);
  }

  // ------------------------------------------------------------ threads can come to rest

  /** The step that ends, or goes on with, the call that a thread is in. */
  function Finishing(s: State, t: Thread): (step: Step)
    ensures step.t == t
  {
    match PcOf(s, t)
    case Adding(_, _) => AddFinish(t)
    case Removing(_, _) => RemoveFinish(t)
    case Starting(_) => WrapperBegin(t)
    case Unlisting(_) => Unlist(t)
    case _ => Delete(t)
  }

  /** How many steps it may take until the thread is between calls. */
  function StepsLeft(pc: Pc): nat
  {
    match pc
    case Ready => 0
    case Adding(_, _) => 1
    case Starting(_) => 1
    case Deleting(_) => 1
    case _ => 2
  }

  /** The wrappers of a thread, with the one that it is about to begin. */
  function Wrappers(s: State, t: Thread): nat
  {
    |FramesOf(s, t)| + One(PcOf(s, t).Starting?)
  }

  lemma FinishingStep(s: State, t: Thread)
    requires !PcOf(s, t).Ready? && (PcOf(s, t).Adding? ==> |ContextOf(s, PcOf(s, t).ctx).slots| < SIZE_MAX)
    ensures Enabled(s, Finishing(s, t))
    ensures var s' := Apply(s, Finishing(s, t));
        Wrappers(s', t) == Wrappers(s, t) && StepsLeft(PcOf(s', t)) < StepsLeft(PcOf(s, t)) && !PcOf(s', t).Adding?
  {
  }

  /** The second run continues the first with steps of thread t alone. */
  ghost predicate Alone(states: seq<State>, steps: seq<Step>, more: seq<State>, moreSteps: seq<Step>, t: Thread)
    requires |states| == |steps| + 1
  {
    Run(more, moreSteps) && |steps| <= |moreSteps| && states == more[..|states|] && steps == moreSteps[..|steps|]
    && forall i :: |steps| <= i < |moreSteps| ==> moreSteps[i].t == t
  }

  /** After any run every thread can come to rest by its own steps, whatever the others have
      begun: no thread waits for another. The one exception is a call of AddObserver on a
      list that fills its vector. */
  lemma {:induction false} CanComeToRest(states: seq<State>, steps: seq<Step>, t: Thread) returns (more: seq<State>, moreSteps: seq<Step>)
    requires Run(states, steps)
    requires var s := states[|steps|]; PcOf(s, t).Adding? ==> |ContextOf(s, PcOf(s, t).ctx).slots| < SIZE_MAX
    ensures Alone(states, steps, more, moreSteps, t)
    ensures LocalOf(more[|moreSteps|], t) == Local(Ready, [])
    decreases Wrappers(states[|steps|], t), StepsLeft(PcOf(states[|steps|], t))
  {
    hide Apply, Enabled, Init, SlotsLeft, StepsLeft;
    var s := states[|steps|];
    if !PcOf(s, t).Ready? {
      FinishingStep(s, t);
      Append(states, steps, Finishing(s, t));
      more, moreSteps := CanComeToRest(states + [Apply(s, Finishing(s, t))], steps + [Finishing(s, t)], t);
    } else if FramesOf(s, t) != [] {
      var next, nextSteps := CanEnd(states, steps, t);
      more, moreSteps := CanComeToRest(next, nextSteps, t);
    } else {
      more, moreSteps := states, steps;
    }
  }
}
