// What a notification of an ObserverListThreadSafe delivers: each running NotifyWrapper is
// a frame on its thread's stack, under which callbacks may add and remove observers and
// run further wrappers.
module ObserverListDelivery {
  import opened DeferredRemoval
  import opened ObserverList
  import opened ObserverListThreadSafe

  /** The frame of thread t that has h frames below it. */
  function FrameAt(s: State, t: Thread, h: nat): Frame
    requires h < |FramesOf(s, t)|
  {
    FramesOf(s, t)[|FramesOf(s, t)| - 1 - h]
  }

  /** The slots over which that frame iterates. */
  function SlotsAt(s: State, t: Thread, h: nat): seq<Option<Observer>>
    requires h < |FramesOf(s, t)|
  {
    ContextOf(s, FrameAt(s, t, h).ctx).slots
  }

  /** The step is a GetNext of just that frame. */
  predicate TopNext(s: State, step: Step, t: Thread, h: nat)
  {
    step == GetNext(t) && |FramesOf(s, t)| == h + 1
  }

  /** The frame holds the observer in slot k. */
  predicate Holding(s: State, t: Thread, h: nat, k: nat, obs: Observer)
  {
    h < |FramesOf(s, t)| && k < |SlotsAt(s, t, h)| && SlotsAt(s, t, h)[k] == Some(obs)
  }

  /** The frame stays the same frame, and goes on holding the observer in its slot. */
  predicate StillHolding(s: State, s': State, t: Thread, h: nat, k: nat, obs: Observer)
    requires h < |FramesOf(s, t)|
  {
    Holding(s', t, h, k, obs) && FrameAt(s', t, h).ctx == FrameAt(s, t, h).ctx
    && FrameAt(s', t, h).cursor.limit == FrameAt(s, t, h).cursor.limit
  }

  // ------------------------------------------------------------ one step

  lemma FrameOwned(s: State, t: Thread, h: nat)
    requires Inv(s) && h < |FramesOf(s, t)|
    ensures var c := FrameAt(s, t, h).ctx;
        Owns(s, t, c) && s.contexts[c].depth == Count(FramesOf(s, t), c) > 0 && Distinct(s.contexts[c].slots)
  {
    hide Leaving, PcInv, Full, Distinct;
    var i := |FramesOf(s, t)| - 1 - h;
    var c := FrameAt(s, t, h).ctx;
    assert LocalInv(s, t) && FramesOf(s, t)[i] in FramesOf(s, t);
    assert ContextInv(s, t, c);
    FrameCounts(FramesOf(s, t), i);
  }

  /** A step of another thread. */
  lemma OtherThread(s: State, step: Step, t: Thread, h: nat, k: nat, obs: Observer)
    requires Inv(s) && Enabled(s, step) && step.t != t && Holding(s, t, h, k, obs)
    ensures StillHolding(s, Apply(s, step), t, h, k, obs)
    ensures FrameAt(Apply(s, step), t, h) == FrameAt(s, t, h)
  {
    hide Inv, Apply, Enabled;
    FrameOwned(s, t, h);
    OthersUntouched(s, step, t);
    assert Owns(Apply(s, step), t, FrameAt(s, t, h).ctx);
  }

  lemma StaysWhenRemoved(slots: seq<Option<Observer>>, other: Observer, depth: nat, k: nat)
    requires k < |slots| && slots[k].Some? && slots[k] != Some(other) && depth > 0
    ensures k < |Removed(slots, other, depth)| && Removed(slots, other, depth)[k] == slots[k]
  {
  }

  lemma StaysWhenAdded(slots: seq<Option<Observer>>, other: Observer, k: nat)
    requires k < |slots|
    ensures k < |Added(slots, other)| && Added(slots, other)[k] == slots[k]
  {
  }

  /** The thread adds or removes an observer of some list. */
  lemma FramesUnderChange(s: State, step: Step, t: Thread, h: nat, k: nat, obs: Observer)
    requires Inv(s) && Enabled(s, step) && step.t == t && Holding(s, t, h, k, obs) && !Removes(s, step, t, obs)
    requires step.AddFinish? || step.RemoveFinish?
    ensures FramesOf(Apply(s, step), t) == FramesOf(s, t)
    ensures StillHolding(s, Apply(s, step), t, h, k, obs)
  {
    hide Inv, Removed, Added;
    FrameOwned(s, t, h);
    var c := FrameAt(s, t, h).ctx;
    if step.RemoveFinish? {
      StaysWhenRemoved(s.contexts[c].slots, PcOf(s, t).obs, s.contexts[c].depth, k);
    } else {
      StaysWhenAdded(s.contexts[c].slots, PcOf(s, t).obs, k);
    }
  }

  /** The steps that leave the thread's frames and every slot alone. */
  lemma SlotsLeftAlone(s: State, step: Step, c: Ctx)
    requires Enabled(s, step) && c in s.contexts
    requires step.AddLock? || step.RemoveLock? || step.Notify? || step.WrapperLock? || step.Unlist? || step.Delete?
    ensures FramesOf(Apply(s, step), step.t) == FramesOf(s, step.t)
    ensures c in Apply(s, step).contexts && Apply(s, step).contexts[c].slots == s.contexts[c].slots
  {
  }

  lemma FramesLeftAlone(s: State, step: Step, t: Thread, h: nat, k: nat, obs: Observer)
    requires Inv(s) && Enabled(s, step) && step.t == t && Holding(s, t, h, k, obs)
    requires step.AddLock? || step.RemoveLock? || step.Notify? || step.WrapperLock? || step.Unlist? || step.Delete?
    ensures FramesOf(Apply(s, step), t) == FramesOf(s, t)
    ensures StillHolding(s, Apply(s, step), t, h, k, obs)
  {
    hide Inv, Apply, Enabled, Distinct, Count;
    FrameOwned(s, t, h);
    SlotsLeftAlone(s, step, FrameAt(s, t, h).ctx);
  }

  /** A further wrapper begins on top, or the callback of the top frame returns. */
  lemma FramesOnTop(s: State, step: Step, t: Thread, h: nat, k: nat, obs: Observer)
    requires Inv(s) && Enabled(s, step) && step.t == t && Holding(s, t, h, k, obs)
    requires step.CallbackReturns? || step.WrapperBegin?
    ensures StillHolding(s, Apply(s, step), t, h, k, obs)
    ensures FrameAt(Apply(s, step), t, h).cursor == FrameAt(s, t, h).cursor
  {
    hide Inv, Start;
    FrameOwned(s, t, h);
  }

  /** GetNext of the top frame finds an observer. */
  lemma TopAdvances(s: State, t: Thread, h: nat, k: nat, obs: Observer)
    requires Inv(s) && Enabled(s, GetNext(t)) && Holding(s, t, h, k, obs)
    requires var top := FramesOf(s, t)[0]; Delivered(ContextOf(s, top.ctx).slots, top.cursor).Some?
    ensures StillHolding(s, Apply(s, GetNext(t)), t, h, k, obs)
    ensures FrameAt(Apply(s, GetNext(t)), t, h).cursor
         == if TopNext(s, GetNext(t), t, h) then Advanced(SlotsAt(s, t, h), FrameAt(s, t, h).cursor) else FrameAt(s, t, h).cursor
  {
    hide Inv, Delivered, Target, Closed, WrapperEnded;
    FrameOwned(s, t, h);
  }

  /** The top frame ends above the frame at height h: the list is not compacted under it. */
  lemma TopEnds(s: State, t: Thread, h: nat, k: nat, obs: Observer)
    requires Inv(s) && Enabled(s, GetNext(t)) && Holding(s, t, h, k, obs) && h + 1 < |FramesOf(s, t)|
    ensures FramesOf(WrapperEnded(s, t), t) == FramesOf(s, t)[1..]
    ensures StillHolding(s, WrapperEnded(s, t), t, h, k, obs)
    ensures FrameAt(WrapperEnded(s, t), t, h) == FrameAt(s, t, h)
  {
    hide Inv, Delivered, Advanced, Compacted, Count;
    FrameOwned(s, t, h);
    var frames, c := FramesOf(s, t), FrameAt(s, t, h).ctx;
    assert frames[1..][|frames| - 2 - h] == FrameAt(s, t, h);
    FrameCounts(frames[1..], |frames| - 2 - h);
    CountTail(frames, c);
  }

  lemma EndsOnlyWithNull(s: State, t: Thread)
    requires Enabled(s, GetNext(t))
    ensures var top := FramesOf(s, t)[0];
        if Delivered(ContextOf(s, top.ctx).slots, top.cursor).Some? then |FramesOf(Apply(s, GetNext(t)), t)| == |FramesOf(s, t)|
        else Apply(s, GetNext(t)) == WrapperEnded(s, t) && |FramesOf(WrapperEnded(s, t), t)| == |FramesOf(s, t)| - 1
  {
    hide Delivered, Advanced, Closed;
  }

  /** GetNext of the top frame, while the frame at height h lives on. */
  lemma FrameNext(s: State, t: Thread, h: nat, k: nat, obs: Observer)
    requires Inv(s) && Enabled(s, GetNext(t)) && Holding(s, t, h, k, obs)
    requires h < |FramesOf(Apply(s, GetNext(t)), t)|
    ensures StillHolding(s, Apply(s, GetNext(t)), t, h, k, obs)
    ensures !TopNext(s, GetNext(t), t, h) ==> FrameAt(Apply(s, GetNext(t)), t, h).cursor == FrameAt(s, t, h).cursor
    ensures TopNext(s, GetNext(t), t, h) ==> Delivered(SlotsAt(s, t, h), FrameAt(s, t, h).cursor).Some?
    ensures TopNext(s, GetNext(t), t, h) ==>
        FrameAt(Apply(s, GetNext(t)), t, h).cursor == Advanced(SlotsAt(s, t, h), FrameAt(s, t, h).cursor)
  {
    hide Inv, Delivered, Advanced, StillHolding, Apply;
    EndsOnlyWithNull(s, t);
    var top := FramesOf(s, t)[0];
    if Delivered(ContextOf(s, top.ctx).slots, top.cursor).Some? {
      TopAdvances(s, t, h, k, obs);
    } else {
      TopEnds(s, t, h, k, obs);
    }
  }

  lemma CountTail(frames: seq<Frame>, c: Ctx)
    requires frames != []
    ensures Count(frames, c) == Count(frames[1..], c) + if frames[0].ctx == c then 1 else 0
  {
  }

  /** Any step of any thread that lets the frame live and does not remove the observer. */
  lemma FrameStep(s: State, step: Step, t: Thread, h: nat, k: nat, obs: Observer)
    requires Inv(s) && Enabled(s, step) && Holding(s, t, h, k, obs) && !Removes(s, step, t, obs)
    requires h < |FramesOf(Apply(s, step), t)|
    ensures StillHolding(s, Apply(s, step), t, h, k, obs)
    ensures !TopNext(s, step, t, h) ==> FrameAt(Apply(s, step), t, h).cursor == FrameAt(s, t, h).cursor
    ensures TopNext(s, step, t, h) ==> Delivered(SlotsAt(s, t, h), FrameAt(s, t, h).cursor).Some?
    ensures TopNext(s, step, t, h) ==>
        FrameAt(Apply(s, step), t, h).cursor == Advanced(SlotsAt(s, t, h), FrameAt(s, t, h).cursor)
  {
    hide Inv, Apply, Enabled, Delivered, Advanced, Removes;
    if step.t != t {
      OtherThread(s, step, t, h, k, obs);
    } else if step.GetNext? {
      FrameNext(s, t, h, k, obs);
    } else if step.CallbackReturns? || step.WrapperBegin? {
      FramesOnTop(s, step, t, h, k, obs);
    } else if step.AddFinish? || step.RemoveFinish? {
      FramesUnderChange(s, step, t, h, k, obs);
    } else {
      FramesLeftAlone(s, step, t, h, k, obs);
    }
  }

  /** A step of the frame calls the observer just if it delivers its slot; and it does not
      pass over the slot. */
  lemma CalledFromSlot(s: State, step: Step, t: Thread, h: nat, k: nat, obs: Observer)
    requires Inv(s) && Enabled(s, step) && TopNext(s, step, t, h) && Holding(s, t, h, k, obs)
    ensures var i := Delivered(SlotsAt(s, t, h), FrameAt(s, t, h).cursor);
        (Called(s, step) == Some(obs) <==> i == Some(k))
        && (i.Some? ==> (i.value < k <==> Advanced(SlotsAt(s, t, h), FrameAt(s, t, h).cursor).index <= k))
        && (i.Some? && i.value > k ==> FrameAt(s, t, h).cursor.index > k)
        && (i.None? && k < FrameAt(s, t, h).cursor.limit ==> FrameAt(s, t, h).cursor.index > k)
  {
    hide Inv;
    FrameOwned(s, t, h);
  }

  // ------------------------------------------------------------ whole frames

  /** The wrapper that thread t begins at step b, with h frames below it, has not ended in
      state j. */
  ghost predicate Lives(states: seq<State>, steps: seq<Step>, t: Thread, h: nat, b: nat, j: nat)
    requires Run(states, steps)
  {
    b < j <= |steps| && steps[b] == WrapperBegin(t) && |FramesOf(states[b], t)| == h
    && forall i :: b < i <= j ==> h < |FramesOf(states[i], t)|
  }

  /** Step i is a call of the observer by that wrapper. */
  ghost predicate Calls(states: seq<State>, steps: seq<Step>, t: Thread, h: nat, i: nat, obs: Observer)
    requires Run(states, steps) && i < |steps|
  {
    TopNext(states[i], steps[i], t, h) && Called(states[i], steps[i]) == Some(obs)
  }

  /** Step i is the only call of the observer by that wrapper between b and j. */
  ghost predicate OnlyCall(states: seq<State>, steps: seq<Step>, t: Thread, h: nat, b: nat, j: nat, i: nat, obs: Observer)
    requires Run(states, steps) && j <= |steps|
  {
    b < i < j && Calls(states, steps, t, h, i, obs)
    && forall m :: b < m < j && Calls(states, steps, t, h, m, obs) ==> m == i
  }

  ghost predicate CalledOnce(states: seq<State>, steps: seq<Step>, t: Thread, h: nat, b: nat, j: nat, obs: Observer)
    requires Run(states, steps) && j <= |steps|
  {
    exists i :: OnlyCall(states, steps, t, h, b, j, i, obs)
  }

  ghost predicate NeverCalled(states: seq<State>, steps: seq<Step>, t: Thread, h: nat, b: nat, j: nat, obs: Observer)
    requires Run(states, steps) && j <= |steps|
  {
    forall i :: b < i < j ==> !Calls(states, steps, t, h, i, obs)
  }

  /** No vector outgrows size_t. */
  lemma {:induction false} SizesFit(states: seq<State>, steps: seq<Step>, j: nat, c: Ctx)
    requires Run(states, steps) && j <= |steps|
    ensures |ContextOf(states[j], c).slots| <= SIZE_MAX
    decreases j
  {
    hide Enabled, Apply;
    if j > 0 {
      SizesFit(states, steps, j - 1, c);
      SizeStep(states[j - 1], steps[j - 1], c);
    }
  }

  lemma SizeStep(s: State, step: Step, c: Ctx)
    requires Enabled(s, step) && |ContextOf(s, c).slots| <= SIZE_MAX
    ensures |ContextOf(Apply(s, step), c).slots| <= SIZE_MAX
  {
    hide Delivered, Advanced, Compacted, Start, IndexOf;
  }

  /** The wrapper finds a registered observer in a slot below its limit. */
  lemma Begins(states: seq<State>, steps: seq<Step>, t: Thread, h: nat, b: nat, obs: Observer) returns (k: nat)
    requires Run(states, steps) && Lives(states, steps, t, h, b, b + 1) && Registered(states[b], t, obs)
    ensures Holding(states[b + 1], t, h, k, obs)
    ensures FrameAt(states[b + 1], t, h).cursor.index == 0 && k < FrameAt(states[b + 1], t, h).cursor.limit
  {
    hide Inv;
    var s := states[b];
    var c := PcOf(s, t).ctx;
    RunInv(states, steps, b);
    StartingListed(s, t);
    SizesFit(states, steps, b, c);
    k :| 0 <= k < |s.contexts[c].slots| && s.contexts[c].slots[k] == Some(obs);
    assert states[b + 1] == Apply(s, steps[b]);
  }

  lemma StartingListed(s: State, t: Thread)
    requires Inv(s) && PcOf(s, t).Starting?
    ensures Listed(s, t, PcOf(s, t).ctx) && Owns(s, t, PcOf(s, t).ctx)
  {
    hide ContextInv;
    assert LocalInv(s, t);
  }

  /** As long as the observer is not removed the wrapper holds it in the same slot, and has
      called it once if the cursor is past that slot, and otherwise not at all. */
  lemma {:induction false} HeldOrCalled(states: seq<State>, steps: seq<Step>, t: Thread, h: nat, b: nat, j: nat, k: nat, obs: Observer)
    requires Run(states, steps) && Lives(states, steps, t, h, b, j) && NoRemoval(states, steps, t, obs, b, j)
    requires Holding(states[b + 1], t, h, k, obs) && FrameAt(states[b + 1], t, h).cursor.index == 0
    ensures StillHolding(states[b + 1], states[j], t, h, k, obs)
    ensures FrameAt(states[j], t, h).cursor.index <= k ==> NeverCalled(states, steps, t, h, b, j, obs)
    ensures FrameAt(states[j], t, h).cursor.index > k ==> CalledOnce(states, steps, t, h, b, j, obs)
    decreases j
  {
    hide Inv, Apply, Enabled, Removes, Delivered, Advanced, Called;
    if j > b + 1 {
      var m := j - 1;
      assert Lives(states, steps, t, h, b, m) && NoRemoval(states, steps, t, obs, b, m);
      HeldOrCalled(states, steps, t, h, b, m, k, obs);
      RunInv(states, steps, m);
      assert states[j] == Apply(states[m], steps[m]);
      FrameStep(states[m], steps[m], t, h, k, obs);
      if TopNext(states[m], steps[m], t, h) {
        CalledFromSlot(states[m], steps[m], t, h, k, obs);
      }
      CallsOneMore(states, steps, t, h, b, m, k, obs);
    }
  }

  /** Counting the calls over one step more. */
  lemma CallsOneMore(states: seq<State>, steps: seq<Step>, t: Thread, h: nat, b: nat, m: nat, k: nat, obs: Observer)
    requires Run(states, steps) && b < m < |steps| && h < |FramesOf(states[m], t)| && h < |FramesOf(states[m + 1], t)|
    requires var p := FrameAt(states[m], t, h).cursor.index;
        (p <= k ==> NeverCalled(states, steps, t, h, b, m, obs)) && (p > k ==> CalledOnce(states, steps, t, h, b, m, obs))
    requires var p, q := FrameAt(states[m], t, h).cursor.index, FrameAt(states[m + 1], t, h).cursor.index;
        Calls(states, steps, t, h, m, obs) <==> p <= k < q
    requires FrameAt(states[m], t, h).cursor.index > k ==> FrameAt(states[m + 1], t, h).cursor.index > k
    ensures var q := FrameAt(states[m + 1], t, h).cursor.index;
        (q <= k ==> NeverCalled(states, steps, t, h, b, m + 1, obs)) && (q > k ==> CalledOnce(states, steps, t, h, b, m + 1, obs))
  {
    hide Calls;
    var p, q := FrameAt(states[m], t, h).cursor.index, FrameAt(states[m + 1], t, h).cursor.index;
    if p > k {
      var i :| OnlyCall(states, steps, t, h, b, m, i, obs);
      assert OnlyCall(states, steps, t, h, b, m + 1, i, obs);
    } else if q > k {
      assert OnlyCall(states, steps, t, h, b, m + 1, m, obs);
    }
  }

  /** A task that finds its context current begins to notify with the thread's next step. */
  lemma TaskBegins(states: seq<State>, steps: seq<Step>, t: Thread, c: Ctx, a: nat, b: nat)
    requires Run(states, steps) && a < b < |steps| && steps[a] == WrapperLock(t, c) && Listed(states[a], t, c)
    requires steps[b].t == t && forall i :: a < i < b ==> steps[i].t != t
    ensures steps[b] == WrapperBegin(t) && PcOf(states[b], t) == Starting(c)
  {
    StaysStarting(states, steps, t, c, a, b);
  }

  lemma {:induction false} StaysStarting(states: seq<State>, steps: seq<Step>, t: Thread, c: Ctx, a: nat, j: nat)
    requires Run(states, steps) && a < j <= |steps| && steps[a] == WrapperLock(t, c) && Listed(states[a], t, c)
    requires forall i :: a < i < j ==> steps[i].t != t
    ensures PcOf(states[j], t) == Starting(c)
    decreases j
  {
    var m := j - 1;
    if a < m {
      hide Apply, Enabled;
      StaysStarting(states, steps, t, c, a, m);
      LocalsKept(states[m], steps[m], t);
    } else {
      LockedStarts(states[a], t, c);
    }
  }

  lemma LockedStarts(s: State, t: Thread, c: Ctx)
    requires Enabled(s, WrapperLock(t, c)) && Listed(s, t, c)
    ensures PcOf(Apply(s, WrapperLock(t, c)), t) == Starting(c)
  {
  }

  /** The wrapper ends at step e: its GetNext returns null. */
  ghost predicate Ends(states: seq<State>, steps: seq<Step>, t: Thread, h: nat, b: nat, e: nat)
    requires Run(states, steps)
  {
    e < |steps| && Lives(states, steps, t, h, b, e) && TopNext(states[e], steps[e], t, h)
    && |FramesOf(states[e + 1], t)| == h
  }

  /** Every observer that a thread has registered when a notification begins on it, and does
      not remove before the notification ends, is called by it exactly once: whatever other
      observers come and go, whatever further notifications run inside, and whatever the
      other threads do. */
  lemma RegisteredCalledOnce(states: seq<State>, steps: seq<Step>, t: Thread, h: nat, b: nat, e: nat, obs: Observer)
    requires Run(states, steps) && Ends(states, steps, t, h, b, e)
    requires Registered(states[b], t, obs) && NoRemoval(states, steps, t, obs, b, e)
    ensures CalledOnce(states, steps, t, h, b, e + 1, obs)
  {
    hide Inv, Apply, Enabled, Removes, Delivered, Advanced, Called, Registered;
    assert Lives(states, steps, t, h, b, b + 1);
    var k := Begins(states, steps, t, h, b, obs);
    HeldOrCalled(states, steps, t, h, b, e, k, obs);
    RunInv(states, steps, e);
    assert states[e + 1] == Apply(states[e], steps[e]);
    EndsOnlyWithNull(states[e], t);
    CalledFromSlot(states[e], steps[e], t, h, k, obs);
    var i :| OnlyCall(states, steps, t, h, b, e, i, obs);
    assert OnlyCall(states, steps, t, h, b, e + 1, i, obs);
  }
}
