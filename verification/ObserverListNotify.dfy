// What Notify of an ObserverListThreadSafe brings about: one task for each context of the
// map, which waits until its thread runs it, and then calls the observers of its context.
module ObserverListNotify {
  import opened ObserverList
  import opened ObserverListThreadSafe
  import opened ObserverListDelivery

  // ------------------------------------------------------------ the tasks

  /** The step posts a task for context c. */
  predicate Posts(s: State, step: Step, c: Ctx)
  {
    step.Notify? && c in s.lists.Values
  }

  /** The step takes a task for context c from those waiting. */
  predicate Takes(step: Step, c: Ctx)
  {
    step.WrapperLock? && step.ctx == c
  }

  function One(b: bool): nat
  {
    if b then 1 else 0
  }

  /** Notify posts one task for each context of the map, and does nothing else. */
  lemma NotifyPosts(s: State, t: Thread, c: Ctx)
    requires Enabled(s, Notify(t))
    ensures Apply(s, Notify(t)).tasks[c] == s.tasks[c] + if c in s.lists.Values then 1 else 0
    ensures Apply(s, Notify(t)) == s.(tasks := Apply(s, Notify(t)).tasks)
  {
  }

  /** Only Notify adds tasks, and only the start of a wrapper takes one. */
  lemma TaskCount(s: State, step: Step, c: Ctx)
    requires Enabled(s, step)
    ensures Apply(s, step).tasks[c] == s.tasks[c] + One(Posts(s, step, c)) - One(Takes(step, c))
  {
    hide Added, Removed, Closed, Advanced, Delivered, Start, ContextOf, Listed;
    if step.Notify? {
      NotifyPosts(s, step.t, c);
    }
  }

  /** The number of tasks that the first j steps have posted for c. */
  ghost function Posted(states: seq<State>, steps: seq<Step>, c: Ctx, j: nat): nat
    requires j <= |steps| <= |states|
  {
    if j == 0 then 0 else Posted(states, steps, c, j - 1) + One(Posts(states[j - 1], steps[j - 1], c))
  }

  /** The number of tasks for c that they have taken. */
  ghost function Taken(steps: seq<Step>, c: Ctx, j: nat): nat
    requires j <= |steps|
  {
    if j == 0 then 0 else Taken(steps, c, j - 1) + One(Takes(steps[j - 1], c))
  }

  /** The tasks that wait are those posted and not yet taken. */
  lemma {:induction false} WaitingTasks(states: seq<State>, steps: seq<Step>, c: Ctx, j: nat)
    requires Run(states, steps) && j <= |steps|
    ensures states[j].tasks[c] == Posted(states, steps, c, j) - Taken(steps, c, j)
  {
    hide Apply, Enabled, Posts, Takes;
    if j > 0 {
      WaitingTasks(states, steps, c, j - 1);
      TaskCount(states[j - 1], steps[j - 1], c);
    }
  }

  lemma {:induction false} PostedGrows(states: seq<State>, steps: seq<Step>, c: Ctx, i: nat, j: nat)
    requires i <= j <= |steps| <= |states|
    ensures Posted(states, steps, c, i) <= Posted(states, steps, c, j)
    ensures i < j && Posts(states[i], steps[i], c) ==> Posted(states, steps, c, i) < Posted(states, steps, c, j)
    decreases j
  {
    if i < j {
      PostedGrows(states, steps, c, i, j - 1);
    }
  }

  lemma {:induction false} TakenGrows(steps: seq<Step>, c: Ctx, i: nat, j: nat)
    requires i <= j <= |steps|
    ensures Taken(steps, c, i) <= Taken(steps, c, j)
    ensures i < j && Takes(steps[i], c) ==> Taken(steps, c, i) < Taken(steps, c, j)
    decreases j
  {
    if i < j {
      TakenGrows(steps, c, i, j - 1);
    }
  }

  /** Step a takes the task that step n has posted for c: a task runner runs the tasks of
      one context in the order in which they were posted. */
  ghost predicate TakesPost(states: seq<State>, steps: seq<Step>, c: Ctx, n: nat, a: nat)
    requires |steps| <= |states|
  {
    n < |steps| && a < |steps| && Posts(states[n], steps[n], c) && Takes(steps[a], c)
    && Taken(steps, c, a) == Posted(states, steps, c, n)
  }

  /** A task is taken after it is posted, and once. */
  lemma TakenOnceLater(states: seq<State>, steps: seq<Step>, c: Ctx, n: nat, a: nat, m: nat, b: nat)
    requires Run(states, steps) && TakesPost(states, steps, c, n, a) && TakesPost(states, steps, c, m, b)
    ensures n < a && (n == m <==> a == b)
  {
    hide Apply, Enabled, Init, Posts, Takes;
    TakeNeedsTask(states, steps, c, a);
    if a <= n {
      PostedGrows(states, steps, c, a, n);
    }
    if a < b {
      TakenGrows(steps, c, a, b);
    } else if b < a {
      TakenGrows(steps, c, b, a);
    }
    if n < m {
      PostedGrows(states, steps, c, n, m);
    } else if m < n {
      PostedGrows(states, steps, c, m, n);
    }
  }

  lemma TakeNeedsTask(states: seq<State>, steps: seq<Step>, c: Ctx, a: nat)
    requires Run(states, steps) && a < |steps| && Takes(steps[a], c)
    ensures Taken(steps, c, a) < Posted(states, steps, c, a)
  {
    assert c in states[a].tasks;
    WaitingTasks(states, steps, c, a);
  }

  /** Every wrapper runs a task that some Notify has posted. */
  lemma EveryTaskPosted(states: seq<State>, steps: seq<Step>, c: Ctx, a: nat)
    requires Run(states, steps) && a < |steps| && Takes(steps[a], c)
    ensures exists n :: TakesPost(states, steps, c, n, a)
  {
    TakeNeedsTask(states, steps, c, a);
    var n := PostOfRank(states, steps, c, a, Taken(steps, c, a));
    assert TakesPost(states, steps, c, n, a);
  }

  lemma {:induction false} PostOfRank(states: seq<State>, steps: seq<Step>, c: Ctx, j: nat, rank: nat) returns (n: nat)
    requires j <= |steps| <= |states| && rank < Posted(states, steps, c, j)
    ensures n < j && Posts(states[n], steps[n], c) && Posted(states, steps, c, n) == rank
    decreases j
  {
    if rank < Posted(states, steps, c, j - 1) {
      n := PostOfRank(states, steps, c, j - 1, rank);
    } else {
      n := j - 1;
    }
  }

  lemma {:induction false} TakeOfRank(steps: seq<Step>, c: Ctx, j: nat, rank: nat) returns (a: nat)
    requires j <= |steps| && rank < Taken(steps, c, j)
    ensures a < j && Takes(steps[a], c) && Taken(steps, c, a) == rank
    decreases j
  {
    if rank < Taken(steps, c, j - 1) {
      a := TakeOfRank(steps, c, j - 1, rank);
    } else {
      a := j - 1;
    }
  }

  // ------------------------------------------------------------ waiting tasks can run


  lemma {:induction false} TasksKeepContexts(states: seq<State>, steps: seq<Step>, j: nat, c: Ctx)
    requires Run(states, steps) && j <= |steps| && c in states[j].tasks
    ensures c in states[j].contexts
  {
    hide Apply, Enabled, Inv;
    if j > 0 {
      var s, step := states[j - 1], steps[j - 1];
      RunInv(states, steps, j - 1);
      TaskCount(s, step, c);
      if Posts(s, step, c) {
        ListedHasContext(s, c);
      } else {
        assert c in s.tasks;
        TasksKeepContexts(states, steps, j - 1, c);
      }
      ContextKept(s, step, c);
    }
  }

  lemma ListedHasContext(s: State, c: Ctx)
    requires Inv(s) && c in s.lists.Values
    ensures c in s.contexts
  {
    hide ContextInv, PcInv;
    var u: Thread :| u in s.lists && s.lists[u] == c;
    assert LocalInv(s, u);
  }

  lemma ContextKept(s: State, step: Step, c: Ctx)
    requires Inv(s) && Enabled(s, step) && c in s.contexts
    ensures c in Apply(s, step).contexts && Apply(s, step).contexts[c].owner == s.contexts[c].owner
  {
    hide Inv, Added, Removed, Closed, Advanced, Delivered, Start;
  }

  /** A posted task waits until it is taken, and its thread can take it whenever it is
      free to run a task. */
  lemma TakenOrWaiting(states: seq<State>, steps: seq<Step>, c: Ctx, n: nat, j: nat)
    requires Run(states, steps) && n < j <= |steps| && Posts(states[n], steps[n], c)
    ensures (exists a :: 0 <= a < j && TakesPost(states, steps, c, n, a))
         || (c in states[j].contexts && c in states[j].tasks
             && var t := states[j].contexts[c].owner; MayCall(states[j], t) ==> Enabled(states[j], WrapperLock(t, c)))
  {
    hide Apply, Init, Posts, Takes, MayCall;
    PostedGrows(states, steps, c, n, j);
    WaitingTasks(states, steps, c, j);
    if Posted(states, steps, c, n) < Taken(steps, c, j) {
      var a := TakeOfRank(steps, c, j, Posted(states, steps, c, n));
      assert TakesPost(states, steps, c, n, a);
    } else {
      TasksKeepContexts(states, steps, j, c);
    }
  }

  // ------------------------------------------------------------ from Notify to the calls

  /** While an observer stays registered it stays in the same context. */
  lemma SameContext(s: State, step: Step, t: Thread, obs: Observer)
    requires Inv(s) && Enabled(s, step) && Registered(s, t, obs) && !Removes(s, step, t, obs)
    ensures Current(Apply(s, step), t) == Current(s, t)
  {
    hide Apply, LocalInv, Registered;
    assert LocalInv(s, t);
    if t == step.t {
      OwnContext(s, step, obs);
    } else {
      OthersUntouched(s, step, t);
    }
  }

  lemma OwnContext(s: State, step: Step, obs: Observer)
    requires LocalInv(s, step.t) && Enabled(s, step) && Registered(s, step.t, obs) && !Removes(s, step, step.t, obs)
    ensures Current(Apply(s, step), step.t) == Current(s, step.t)
  {
    hide ContextInv, Start, Delivered, Advanced, Closed, Added, Removed;
    if step.RemoveFinish? {
      RegisteredListed(s, step.t, obs);
    }
  }

  /** An observer is registered in the context of the map, unless it is being removed. */
  lemma RegisteredListed(s: State, t: Thread, obs: Observer)
    requires LocalInv(s, t) && Registered(s, t, obs)
    ensures var c := Current(s, t).value; Listed(s, t, c) || PcOf(s, t) == Removing(c, obs)
  {
    hide ListInv;
    var c := Current(s, t).value;
    assert Owns(s, t, c) && ContextInv(s, t, c);
  }

  /** Notify posts a task for every registered observer that is not just being removed. */
  lemma PostedForRegistered(s: State, u: Thread, t: Thread, obs: Observer)
    requires Inv(s) && Enabled(s, Notify(u)) && Registered(s, t, obs)
    ensures var c := Current(s, t).value; Posts(s, Notify(u), c) || PcOf(s, t) == Removing(c, obs)
  {
    hide LocalInv, Registered;
    assert LocalInv(s, t);
    RegisteredListed(s, t, obs);
  }

  lemma {:induction false} StaysInContext(states: seq<State>, steps: seq<Step>, t: Thread, obs: Observer, n: nat, j: nat)
    requires Run(states, steps) && n < j <= |steps| && steps[n].Notify? && Registered(states[n], t, obs)
    requires NoRemoval(states, steps, t, obs, n, j)
    ensures Registered(states[j], t, obs) && Current(states[j], t) == Current(states[n], t)
    decreases j
  {
    hide Inv, Apply, Enabled, Registered, Current, Init;
    var m := j - 1;
    if n < m {
      hide Removes;
      assert NoRemoval(states, steps, t, obs, n, m);
      StaysInContext(states, steps, t, obs, n, m);
    }
    RunInv(states, steps, m);
    RefinesSetsOfObservers(states[m], steps[m], t, obs);
    SameContext(states[m], steps[m], t, obs);
  }

  /** The task that a Notify has posted finds the observers registered then, and not
      removed since, in its context, and its context current. */
  lemma TaskFindsRegistered(states: seq<State>, steps: seq<Step>, t: Thread, obs: Observer, n: nat, a: nat)
    requires Run(states, steps) && n < |steps| && Registered(states[n], t, obs)
    requires TakesPost(states, steps, Current(states[n], t).value, n, a) && NoRemoval(states, steps, t, obs, n, a)
    ensures var c := Current(states[n], t).value; n < a && steps[a] == WrapperLock(t, c) && Listed(states[a], t, c)
  {
    var c := Current(states[n], t).value;
    hide LocalInv, Registered, Apply, Init, Removes, Current;
    TakenOnceLater(states, steps, c, n, a, n, a);
    StaysInContext(states, steps, t, obs, n, a);
    RunInv(states, steps, a);
    assert LocalInv(states[a], t);
    RegisteredListed(states[a], t, obs);
    CurrentOwned(states[a], t, obs);
  }

  lemma CurrentOwned(s: State, t: Thread, obs: Observer)
    requires LocalInv(s, t) && Registered(s, t, obs)
    ensures Owns(s, t, Current(s, t).value)
    ensures PcOf(s, t).Ready? ==> Listed(s, t, Current(s, t).value)
  {
    hide ContextInv;
  }

  /** Step b is the thread's next step after step a. */
  ghost predicate NextOwn(steps: seq<Step>, a: nat, b: nat)
  {
    a < b < |steps| && steps[b].t == steps[a].t && forall i :: a < i < b ==> steps[i].t != steps[a].t
  }

  /** The thread that takes such a task begins a wrapper with its next step. */
  lemma PostedTaskBegins(states: seq<State>, steps: seq<Step>, t: Thread, obs: Observer, n: nat, a: nat, b: nat)
    requires Run(states, steps) && n < |steps| && Registered(states[n], t, obs)
    requires TakesPost(states, steps, Current(states[n], t).value, n, a) && NextOwn(steps, a, b)
    requires NoRemoval(states, steps, t, obs, n, a)
    ensures steps[a].t == t && steps[b] == WrapperBegin(t)
  {
    hide Apply, Enabled, Removes, Init, Listed;
    TaskFindsRegistered(states, steps, t, obs, n, a);
    TaskBegins(states, steps, t, Current(states[n], t).value, a, b);
  }

  /** For every Notify, and every observer that some thread t has registered then: t takes
      the task posted for its context later, begins a wrapper with its next step, and when
      that wrapper has ended it has called the observer exactly once, unless t has removed
      the observer in the meantime. */
  lemma NotifiedExactlyOnce(states: seq<State>, steps: seq<Step>, t: Thread, obs: Observer, n: nat, a: nat, b: nat, e: nat)
    requires Run(states, steps) && n < |steps| && Registered(states[n], t, obs)
    requires TakesPost(states, steps, Current(states[n], t).value, n, a) && NextOwn(steps, a, b)
    requires Ends(states, steps, t, |FramesOf(states[b], t)|, b, e) && NoRemoval(states, steps, t, obs, n, e)
    ensures n < a < b < e && steps[a].t == t
    ensures CalledOnce(states, steps, t, |FramesOf(states[b], t)|, b, e + 1, obs)
  {
    hide Inv, Apply, Enabled, Registered, Removes, Current, Init, Listed;
    assert NoRemoval(states, steps, t, obs, n, a) && NoRemoval(states, steps, t, obs, n, b);
    TaskFindsRegistered(states, steps, t, obs, n, a);
    assert NoRemoval(states, steps, t, obs, b, e);
    StaysInContext(states, steps, t, obs, n, b);
    RegisteredCalledOnce(states, steps, t, |FramesOf(states[b], t)|, b, e, obs);
  }
}
