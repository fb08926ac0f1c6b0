// ObserverListThreadSafe: any number of threads add and remove observers, post
// notifications and run the posted NotifyWrapper tasks. A section under list_lock_ is
// one step; so is each piece of code between two such sections. Contexts have
// identities that are never used again.
module ObserverListThreadSafe {
  import opened DeferredRemoval
  import opened ObserverList

  type Thread = nat
  type Ctx = nat

  /** An ObserverListContext: its task runner belongs to the thread that created it. */
  datatype Context = Context(owner: Thread, slots: seq<Option<Observer>>, depth: nat, alive: bool)

  /** A running NotifyWrapper: its iterator, and whether it is inside method.Run(obs). */
  datatype Frame = Frame(ctx: Ctx, cursor: Cursor, inCallback: bool)

  /** Where a thread is between two steps of one call. */
  datatype Pc =
    | Ready
    | Adding(ctx: Ctx, obs: Observer)      // AddObserver has left the lock
    | Removing(ctx: Ctx, obs: Observer)    // RemoveObserver has left the lock
    | Starting(ctx: Ctx)                   // NotifyWrapper has found its context current
    | Unlisting(ctx: Ctx)                  // NotifyWrapper found the list empty at its end
    | Deleting(ctx: Ctx)                   // about to delete the context

  /** frames is the thread's stack of wrappers, innermost first. */
  datatype Local = Local(pc: Pc, frames: seq<Frame>)

  datatype State = State(
    lists: map<Thread, Ctx>,          // observer_lists_
    contexts: map<Ctx, Context>,      // every context created so far
    tasks: multiset<Ctx>,             // NotifyWrapper tasks not yet run
    threads: map<Thread, Local>,
    notifyAll: bool)

  datatype Step =
    | AddLock(t: Thread, obs: Observer, made: Ctx)
    | AddFinish(t: Thread)
    | RemoveLock(t: Thread, obs: Observer)
    | RemoveFinish(t: Thread)
    | Notify(t: Thread)
    | WrapperLock(t: Thread, ctx: Ctx)
    | WrapperBegin(t: Thread)
    | GetNext(t: Thread)
    | CallbackReturns(t: Thread)
    | Unlist(t: Thread)
    | Delete(t: Thread)

  function LocalOf(s: State, t: Thread): Local
  {
    if t in s.threads then s.threads[t] else Local(Ready, [])
  }

  function PcOf(s: State, t: Thread): Pc
  {
    LocalOf(s, t).pc
  }

  function FramesOf(s: State, t: Thread): seq<Frame>
  {
    LocalOf(s, t).frames
  }

  function Goto(s: State, t: Thread, pc: Pc): State
  {
    s.(threads := s.threads[t := LocalOf(s, t).(pc := pc)])
  }

  function SetFrames(s: State, t: Thread, frames: seq<Frame>): State
  {
    s.(threads := s.threads[t := LocalOf(s, t).(frames := frames)])
  }

  function Put(s: State, c: Ctx, context: Context): State
  {
    s.(contexts := s.contexts[c := context])
  }

  /** The context that the map has for a thread. */
  predicate Listed(s: State, t: Thread, c: Ctx)
  {
    t in s.lists && s.lists[t] == c
  }

  /** A thread may call the list, or run a task, at top level and from a callback. */
  predicate MayCall(s: State, t: Thread)
  {
    PcOf(s, t).Ready? && (FramesOf(s, t) == [] || FramesOf(s, t)[0].inCallback)
  }

  predicate Init(s: State)
  {
    s.lists == map[] && s.contexts == map[] && s.tasks == multiset{} && s.threads == map[]
  }

  predicate Enabled(s: State, step: Step)
  {
    var pc, frames := PcOf(s, step.t), FramesOf(s, step.t);
    match step
    case AddLock(t, obs, made) => MayCall(s, t) && made !in s.contexts
    case AddFinish(t) => pc.Adding? && |ContextOf(s, pc.ctx).slots| < SIZE_MAX
    case RemoveLock(t, obs) => MayCall(s, t)
    case RemoveFinish(t) => pc.Removing?
    case Notify(t) => MayCall(s, t)
    case WrapperLock(t, c) => MayCall(s, t) && c in s.tasks && c in s.contexts && s.contexts[c].owner == t
    case WrapperBegin(t) => pc.Starting?
    case GetNext(t) => pc.Ready? && frames != [] && !frames[0].inCallback
    case CallbackReturns(t) => pc.Ready? && frames != [] && frames[0].inCallback
    case Unlist(t) => pc.Unlisting?
    case Delete(t) => pc.Deleting?
  }

  /** The contexts that a step dereferences. */
  function Touched(s: State, step: Step): set<Ctx>
    requires Enabled(s, step)
  {
    var pc, frames := PcOf(s, step.t), FramesOf(s, step.t);
    match step
    case AddLock(t, obs, made) => if t in s.lists then {s.lists[t]} else {}
    case AddFinish(t) => {pc.ctx}
    case RemoveLock(t, obs) => if t in s.lists then {s.lists[t]} else {}
    case RemoveFinish(t) => {pc.ctx}
    case Notify(t) => s.lists.Values
    case WrapperLock(t, c) => {}
    case WrapperBegin(t) => {pc.ctx}
    case GetNext(t) => {frames[0].ctx}
    case CallbackReturns(t) => {}
    case Unlist(t) => {}
    case Delete(t) => {pc.ctx}
  }

  /** What a step finds at a context; TouchedAlive shows that no step of a run finds a
      context that does not exist or has been deleted. */
  function ContextOf(s: State, c: Ctx): Context
  {
    if c in s.contexts then s.contexts[c] else Context(0, [], 0, false)
  }

  /** AddObserver, under the lock: finds or makes the thread's context. */
  function AddLocked(s: State, t: Thread, obs: Observer, made: Ctx): State
  {
    if t in s.lists then Goto(s, t, Adding(s.lists[t], obs))
    else Goto(Put(s, made, Context(t, [], 0, true)).(lists := s.lists[t := made]), t, Adding(made, obs))
  }

  /** list->AddObserver(obs) */
  function AddFinished(s: State, t: Thread): State
    requires PcOf(s, t).Adding?
  {
    var c := PcOf(s, t).ctx;
    var x := ContextOf(s, c);
    Goto(Put(s, c, x.(slots := Added(x.slots, PcOf(s, t).obs))), t, Ready)
  }

  /** RemoveObserver, under the lock: takes the list off the map if it loses its last observer. */
  function RemoveLocked(s: State, t: Thread, obs: Observer): State
  {
    if t !in s.lists then s
    else
      var x := ContextOf(s, s.lists[t]);
      var last := Some(obs) in x.slots && |x.slots| == 1;
      Goto(if last then s.(lists := s.lists - {t}) else s, t, Removing(s.lists[t], obs))
  }

  /** list->RemoveObserver(obs), and the test of the size behind it */
  function RemoveFinished(s: State, t: Thread): State
    requires PcOf(s, t).Removing?
  {
    var c := PcOf(s, t).ctx;
    var x := ContextOf(s, c);
    var slots := Removed(x.slots, PcOf(s, t).obs, x.depth);
    Goto(Put(s, c, x.(slots := slots)), t, if |slots| == 0 then Deleting(c) else Ready)
  }

  /** Notify: one task for each context of the map. */
  function Notified(s: State): State
  {
    s.(tasks := s.tasks + multiset(s.lists.Values))
  }

  /** NotifyWrapper, under the lock: goes on only if its context is the thread's current one. */
  function WrapperLocked(s: State, t: Thread, c: Ctx): State
  {
    var s' := s.(tasks := s.tasks - multiset{c});
    if Listed(s, t, c) then Goto(s', t, Starting(c)) else s'
  }

  /** The iterator of NotifyWrapper is made. */
  function WrapperBegun(s: State, t: Thread): State
    requires PcOf(s, t).Starting?
  {
    var c := PcOf(s, t).ctx;
    var x := ContextOf(s, c);
    var frame := Frame(c, Start(x.slots, s.notifyAll), false);
    Goto(SetFrames(Put(s, c, x.(depth := x.depth + 1)), t, [frame] + FramesOf(s, t)), t, Ready)
  }

  /** GetNext returns null: the iterator ends, and then comes the test of the size. */
  function WrapperEnded(s: State, t: Thread): State
    requires FramesOf(s, t) != []
  {
    var c := FramesOf(s, t)[0].ctx;
    var x := ContextOf(s, c);
    var depth := if x.depth > 0 then x.depth - 1 else 0;
    var slots := Closed(x.slots, depth);
    Goto(SetFrames(Put(s, c, x.(depth := depth, slots := slots)), t, FramesOf(s, t)[1..]), t, if |slots| == 0 then Unlisting(c) else Ready)
  }

  /** GetNext, and the start of the callback or the end of the wrapper's loop. */
  function NextGot(s: State, t: Thread): State
    requires FramesOf(s, t) != []
  {
    var frame := FramesOf(s, t)[0];
    var x := ContextOf(s, frame.ctx);
    if Delivered(x.slots, frame.cursor).Some? then
      SetFrames(s, t, [frame.(cursor := Advanced(x.slots, frame.cursor), inCallback := true)] + FramesOf(s, t)[1..])
    else WrapperEnded(s, t)
  }

  function CallbackReturned(s: State, t: Thread): State
    requires FramesOf(s, t) != []
  {
    SetFrames(s, t, [FramesOf(s, t)[0].(inCallback := false)] + FramesOf(s, t)[1..])
  }

  /** The end of NotifyWrapper, under the lock: its context leaves the map if it is still there. */
  function Unlisted(s: State, t: Thread): State
    requires PcOf(s, t).Unlisting?
  {
    var c := PcOf(s, t).ctx;
    Goto(if Listed(s, t, c) then s.(lists := s.lists - {t}) else s, t, Deleting(c))
  }

  function Deleted(s: State, t: Thread): State
    requires PcOf(s, t).Deleting?
  {
    var c := PcOf(s, t).ctx;
    Goto(Put(s, c, ContextOf(s, c).(alive := false)), t, Ready)
  }

  function Apply(s: State, step: Step): State
    requires Enabled(s, step)
  {
    match step
    case AddLock(t, obs, made) => AddLocked(s, t, obs, made)
    case AddFinish(t) => AddFinished(s, t)
    case RemoveLock(t, obs) => RemoveLocked(s, t, obs)
    case RemoveFinish(t) => RemoveFinished(s, t)
    case Notify(t) => Notified(s)
    case WrapperLock(t, c) => WrapperLocked(s, t, c)
    case WrapperBegin(t) => WrapperBegun(s, t)
    case GetNext(t) => NextGot(s, t)
    case CallbackReturns(t) => CallbackReturned(s, t)
    case Unlist(t) => Unlisted(s, t)
    case Delete(t) => Deleted(s, t)
  }

  // ------------------------------------------------------------ the invariant

  /** The number of wrappers that iterate over c. */
  function Count(frames: seq<Frame>, c: Ctx): nat
  {
    if frames == [] then 0 else (if frames[0].ctx == c then 1 else 0) + Count(frames[1..], c)
  }

  lemma {:induction false} FrameCounts(frames: seq<Frame>, i: nat)
    requires i < |frames|
    ensures Count(frames, frames[i].ctx) > 0
  {
    if i > 0 {
      FrameCounts(frames[1..], i - 1);
    }
  }

  ghost predicate AllNull(slots: seq<Option<Observer>>)
  {
    forall k :: 0 <= k < |slots| ==> slots[k].None?
  }

  /** Context c is owned by thread t. */
  predicate Owns(s: State, t: Thread, c: Ctx)
  {
    c in s.contexts && s.contexts[c].owner == t
  }

  /** The list of a context, whose iterators are the frames of its owner. */
  ghost predicate ListInv(x: Context, frames: seq<Frame>, c: Ctx)
  {
    x.depth == Count(frames, c) && Distinct(x.slots) && (x.depth == 0 ==> Full(x.slots))
    && (x.depth > 0 ==> x.alive && |x.slots| > 0)
  }

  /** A context that its thread can no longer reach through the map is on its way out. */
  ghost predicate Leaving(x: Context, pc: Pc, c: Ctx)
  {
    (pc.Removing? && pc.ctx == c && x.slots == [Some(pc.obs)])
    || ((pc == Unlisting(c) || pc == Deleting(c)) && x.slots == [])
    || (x.depth > 0 && AllNull(x.slots))
  }

  ghost predicate ContextInv(s: State, t: Thread, c: Ctx)
    requires Owns(s, t, c)
  {
    var x, pc := s.contexts[c], PcOf(s, t);
    ListInv(x, FramesOf(s, t), c)
    && (x.alive && !Listed(s, t, c) ==> Leaving(x, pc, c))
    && (Listed(s, t, c) ==> x.alive && (x.slots == [] ==> (pc.Adding? && pc.ctx == c) || pc == Unlisting(c)))
  }

  ghost predicate PcInv(s: State, t: Thread)
  {
    var pc := PcOf(s, t);
    match pc
    case Ready => true
    case Adding(c, obs) => Listed(s, t, c)
    case Starting(c) => Listed(s, t, c)
    case Removing(c, obs) =>
      Owns(s, t, c) && s.contexts[c].alive && (t in s.lists ==> Listed(s, t, c) && s.contexts[c].slots != [Some(obs)])
    case Unlisting(c) => Owns(s, t, c) && s.contexts[c].alive && s.contexts[c].slots == []
    case Deleting(c) => Owns(s, t, c) && s.contexts[c].alive && s.contexts[c].slots == [] && !Listed(s, t, c)
  }

  /** What holds of one thread: it reads only what the thread itself changes. */
  ghost predicate LocalInv(s: State, t: Thread)
  {
    PcInv(s, t)
    && (t in s.lists ==> Owns(s, t, s.lists[t]))
    && (forall f :: f in FramesOf(s, t) ==> Owns(s, t, f.ctx))
    && (forall c: Ctx :: Owns(s, t, c) ==> ContextInv(s, t, c))
  }

  ghost predicate Inv(s: State)
  {
    forall t: Thread :: LocalInv(s, t)
  }

  lemma InitInv(s: State)
    requires Init(s)
    ensures Inv(s)
  {
  }

  /** A step dereferences only contexts that exist and have not been deleted. */
  lemma TouchedAlive(s: State, step: Step, c: Ctx)
    requires Inv(s) && Enabled(s, step) && c in Touched(s, step)
    ensures c in s.contexts && s.contexts[c].alive
  {
    hide Distinct, Full, Leaving;
    var t := step.t;
    assert LocalInv(s, t);
    if step.Notify? {
      var u: Thread :| u in s.lists && s.lists[u] == c;
      assert LocalInv(s, u) && ContextInv(s, u, c);
    } else if step.GetNext? {
      assert FramesOf(s, t)[0] in FramesOf(s, t) && ContextInv(s, t, c);
      FrameCounts(FramesOf(s, t), 0);
    } else if step.WrapperBegin? || step.AddFinish? || step.AddLock? || step.RemoveLock? {
      assert ContextInv(s, t, c);
    }
  }

  /** What thread u sees of the state. */
  ghost predicate SameView(s: State, s': State, u: Thread)
  {
    LocalOf(s', u) == LocalOf(s, u)
    && (u in s'.lists <==> u in s.lists) && (u in s.lists ==> s'.lists[u] == s.lists[u])
    && forall c: Ctx :: (Owns(s', u, c) <==> Owns(s, u, c)) && (Owns(s, u, c) ==> s'.contexts[c] == s.contexts[c])
  }

  lemma SameViewKeeps(s: State, s': State, u: Thread)
    requires LocalInv(s, u) && SameView(s, s', u)
    ensures LocalInv(s', u)
  {
    hide Distinct, Full, ListInv, Leaving;
    forall c: Ctx | Owns(s', u, c)
      ensures ContextInv(s', u, c)
    {
      assert ContextInv(s, u, c);
    }
  }

  /** The context that a step may change. */
  function Focus(s: State, step: Step): Ctx
    requires Enabled(s, step)
  {
    if step.AddLock? then step.made
    else if step.WrapperLock? then step.ctx
    else if step.GetNext? then FramesOf(s, step.t)[0].ctx
    else if PcOf(s, step.t).Ready? then 0
    else PcOf(s, step.t).ctx
  }

  lemma OwnFocus(s: State, step: Step)
    requires LocalInv(s, step.t) && Enabled(s, step)
    requires !step.Notify? && !step.CallbackReturns? && !step.AddLock? && !step.RemoveLock?
    ensures Owns(s, step.t, Focus(s, step))
  {
    hide ContextInv;
    assert step.GetNext? ==> FramesOf(s, step.t)[0] in FramesOf(s, step.t);
  }

  lemma LocalsKept(s: State, step: Step, u: Thread)
    requires Enabled(s, step) && u != step.t
    ensures LocalOf(Apply(s, step), u) == LocalOf(s, u)
  {
    hide Inv, Added, Removed, Closed, Advanced, Delivered, Start, ContextOf, Listed, WrapperEnded;
    if step.GetNext? {
      EndLocalsKept(s, step.t, u);
    }
  }

  lemma EndLocalsKept(s: State, t: Thread, u: Thread)
    requires FramesOf(s, t) != [] && u != t
    ensures LocalOf(WrapperEnded(s, t), u) == LocalOf(s, u)
  {
    hide Closed, ContextOf;
  }

  lemma ListsKept(s: State, step: Step, u: Thread)
    requires Enabled(s, step) && u != step.t
    ensures u in Apply(s, step).lists <==> u in s.lists
    ensures u in s.lists ==> Apply(s, step).lists[u] == s.lists[u]
  {
    hide Inv, Added, Removed, Closed, Advanced, Delivered, Start;
  }

  lemma OtherContextsKept(s: State, step: Step, c: Ctx)
    requires Enabled(s, step)
    requires c != Focus(s, step) || step.Notify? || step.CallbackReturns? || step.RemoveLock?
    ensures c in Apply(s, step).contexts <==> c in s.contexts
    ensures c in s.contexts ==> Apply(s, step).contexts[c] == s.contexts[c]
  {
    hide Inv, Added, Removed, Closed, Advanced, Delivered, Start;
  }

  lemma OwnersKept(s: State, step: Step, c: Ctx)
    requires LocalInv(s, step.t) && Enabled(s, step)
    ensures c in s.contexts ==> c in Apply(s, step).contexts && Apply(s, step).contexts[c].owner == s.contexts[c].owner
    ensures c !in s.contexts && c in Apply(s, step).contexts ==> Apply(s, step).contexts[c].owner == step.t
  {
    hide Inv, Added, Removed, Closed, Advanced, Delivered, Start;
  }

  /** A step of one thread changes nothing that another thread's invariant reads. */
  lemma OthersUntouched(s: State, step: Step, u: Thread)
    requires Inv(s) && Enabled(s, step) && u != step.t
    ensures SameView(s, Apply(s, step), u)
  {
    hide ContextInv, Apply, Focus, Touched;
    LocalsKept(s, step, u);
    ListsKept(s, step, u);
    forall c: Ctx
      ensures Owns(Apply(s, step), u, c) <==> Owns(s, u, c)
      ensures Owns(s, u, c) ==> Apply(s, step).contexts[c] == s.contexts[c]
    {
      OwnersKept(s, step, c);
      if c != Focus(s, step) || step.Notify? || step.CallbackReturns? || step.RemoveLock? {
        OtherContextsKept(s, step, c);
      } else if step.AddLock? {
        MadeIsNew(s, step);
      } else {
        assert LocalInv(s, step.t);
        OwnFocus(s, step);
      }
    }
  }

  lemma MadeIsNew(s: State, step: Step)
    requires Enabled(s, step) && step.AddLock?
    ensures Focus(s, step) !in s.contexts
  {
  }

  // ------------------------------------------------------------ one lemma for each step

  lemma AddLockKeeps(s: State, t: Thread, obs: Observer, made: Ctx)
    requires LocalInv(s, t) && MayCall(s, t) && made !in s.contexts
    ensures LocalInv(AddLocked(s, t, obs, made), t)
  {
    hide Distinct, Full;
    var s' := AddLocked(s, t, obs, made);
    forall c: Ctx | Owns(s', t, c)
      ensures ContextInv(s', t, c)
    {
      if c == made {
        NoFrames(s, t, c);
        NewListInv(s', t, c);
      } else {
        assert ContextInv(s, t, c);
      }
    }
  }

  lemma NoFrames(s: State, t: Thread, c: Ctx)
    requires LocalInv(s, t) && c !in s.contexts
    ensures Count(FramesOf(s, t), c) == 0
  {
    NotCounted(FramesOf(s, t), c);
  }

  lemma {:induction false} NotCounted(frames: seq<Frame>, c: Ctx)
    requires forall f :: f in frames ==> f.ctx != c
    ensures Count(frames, c) == 0
  {
    if frames != [] {
      NotCounted(frames[1..], c);
    }
  }

  lemma NewListInv(s: State, t: Thread, c: Ctx)
    requires Owns(s, t, c) && s.contexts[c] == Context(t, [], 0, true) && Count(FramesOf(s, t), c) == 0
    ensures ListInv(s.contexts[c], FramesOf(s, t), c)
  {
  }

  lemma AddedIsList(x: Context, frames: seq<Frame>, c: Ctx, obs: Observer)
    requires ListInv(x, frames, c)
    ensures ListInv(x.(slots := Added(x.slots, obs)), frames, c) && Added(x.slots, obs) != []
  {
  }

  /** A context that the call in progress is not about, and that the step leaves alone. */
  lemma ContextStill(s: State, s': State, t: Thread, c: Ctx)
    requires Owns(s, t, c) && Owns(s', t, c) && ContextInv(s, t, c)
    requires s'.contexts[c] == s.contexts[c] && (Listed(s', t, c) <==> Listed(s, t, c))
    requires Count(FramesOf(s', t), c) == Count(FramesOf(s, t), c)
    requires PcOf(s, t).Ready? || PcOf(s, t).ctx != c
    ensures ContextInv(s', t, c)
  {
  }

  lemma AddFinishKeeps(s: State, t: Thread)
    requires LocalInv(s, t) && PcOf(s, t).Adding?
    ensures LocalInv(AddFinished(s, t), t)
  {
    hide ListInv, Leaving, Added, ContextInv;
    var s' := AddFinished(s, t);
    forall c: Ctx | Owns(s', t, c)
      ensures ContextInv(s', t, c)
    {
      if c == PcOf(s, t).ctx {
        AddFinishContext(s, t);
      } else {
        ContextStill(s, s', t, c);
      }
    }
  }

  lemma AddFinishContext(s: State, t: Thread)
    requires LocalInv(s, t) && PcOf(s, t).Adding?
    ensures var c := PcOf(s, t).ctx; Owns(AddFinished(s, t), t, c) && ContextInv(AddFinished(s, t), t, c)
  {
    hide ListInv, Added;
    var c := PcOf(s, t).ctx;
    assert ContextInv(s, t, c);
    AddedIsList(s.contexts[c], FramesOf(s, t), c, PcOf(s, t).obs);
  }

  lemma OneObserver(slots: seq<Option<Observer>>, obs: Observer)
    requires Some(obs) in slots && |slots| == 1
    ensures slots == [Some(obs)]
  {
  }

  lemma RemoveLockKeeps(s: State, t: Thread, obs: Observer)
    requires LocalInv(s, t) && MayCall(s, t)
    ensures LocalInv(RemoveLocked(s, t, obs), t)
  {
    hide ListInv, ContextInv, Leaving;
    var s' := RemoveLocked(s, t, obs);
    if t in s.lists {
      forall c: Ctx | Owns(s', t, c)
        ensures ContextInv(s', t, c)
      {
        if c == s.lists[t] {
          RemoveLockContext(s, t, obs);
        } else {
          ContextStill(s, s', t, c);
        }
      }
      assert s.contexts[s.lists[t]].alive by { ListedAlive(s, t); }
    }
  }

  lemma ListedAlive(s: State, t: Thread)
    requires LocalInv(s, t) && t in s.lists
    ensures Owns(s, t, s.lists[t]) && s.contexts[s.lists[t]].alive
  {
    assert ContextInv(s, t, s.lists[t]);
  }

  lemma RemoveLockContext(s: State, t: Thread, obs: Observer)
    requires LocalInv(s, t) && MayCall(s, t) && t in s.lists
    ensures var c := s.lists[t]; Owns(RemoveLocked(s, t, obs), t, c) && ContextInv(RemoveLocked(s, t, obs), t, c)
  {
    hide ListInv;
    var c := s.lists[t];
    assert ContextInv(s, t, c);
    if Some(obs) in s.contexts[c].slots && |s.contexts[c].slots| == 1 {
      OneObserver(s.contexts[c].slots, obs);
    }
  }

  lemma RemovedIsList(x: Context, frames: seq<Frame>, c: Ctx, obs: Observer)
    requires ListInv(x, frames, c)
    ensures ListInv(x.(slots := Removed(x.slots, obs, x.depth)), frames, c)
    ensures x.slots == [Some(obs)] && x.depth == 0 ==> Removed(x.slots, obs, x.depth) == []
    ensures x.slots == [Some(obs)] && x.depth > 0 ==> AllNull(Removed(x.slots, obs, x.depth))
    ensures |x.slots| > 1 || (|x.slots| == 1 && x.slots != [Some(obs)]) ==> Removed(x.slots, obs, x.depth) != []
    ensures Removed(x.slots, obs, x.depth) == [] && x.slots != [] ==> x.slots == [Some(obs)]
    ensures AllNull(x.slots) ==> AllNull(Removed(x.slots, obs, x.depth))
    ensures x.slots == [] ==> Removed(x.slots, obs, x.depth) == []
  {
  }

  lemma RemoveFinishKeeps(s: State, t: Thread)
    requires LocalInv(s, t) && PcOf(s, t).Removing?
    ensures LocalInv(RemoveFinished(s, t), t)
  {
    hide ListInv, Leaving, Removed, ContextInv;
    var s' := RemoveFinished(s, t);
    RemoveFinishContext(s, t);
    forall c: Ctx | Owns(s', t, c)
      ensures ContextInv(s', t, c)
    {
      if c != PcOf(s, t).ctx {
        ContextStill(s, s', t, c);
      }
    }
  }

  lemma RemoveFinishContext(s: State, t: Thread)
    requires LocalInv(s, t) && PcOf(s, t).Removing?
    ensures var c := PcOf(s, t).ctx; Owns(RemoveFinished(s, t), t, c) && ContextInv(RemoveFinished(s, t), t, c)
    ensures PcInv(RemoveFinished(s, t), t)
  {
    hide ListInv, Removed, AllNull;
    var c, obs := PcOf(s, t).ctx, PcOf(s, t).obs;
    var x := s.contexts[c];
    assert ContextInv(s, t, c);
    RemovedIsList(x, FramesOf(s, t), c, obs);
    assert x.depth > 0 ==> x.slots != [] by { DepthMeansSlots(x, FramesOf(s, t), c); }
  }

  lemma DepthMeansSlots(x: Context, frames: seq<Frame>, c: Ctx)
    requires ListInv(x, frames, c)
    ensures x.depth > 0 ==> x.slots != [] && x.alive
    ensures x.depth == Count(frames, c)
  {
  }

  lemma WrapperLockKeeps(s: State, t: Thread, c: Ctx)
    requires LocalInv(s, t) && MayCall(s, t)
    ensures LocalInv(WrapperLocked(s, t, c), t)
  {
    hide ListInv, Leaving, ContextInv;
    var s' := WrapperLocked(s, t, c);
    forall d: Ctx | Owns(s', t, d)
      ensures ContextInv(s', t, d)
    {
      ContextStill(s, s', t, d);
    }
  }

  lemma OneFrameMore(frames: seq<Frame>, f: Frame, c: Ctx)
    ensures Count([f] + frames, c) == Count(frames, c) + if f.ctx == c then 1 else 0
  {
    assert ([f] + frames)[1..] == frames;
  }

  lemma WrapperBeginKeeps(s: State, t: Thread)
    requires LocalInv(s, t) && PcOf(s, t).Starting?
    ensures LocalInv(WrapperBegun(s, t), t)
  {
    hide ListInv, Leaving, ContextInv, Count, Start;
    var s', c := WrapperBegun(s, t), PcOf(s, t).ctx;
    WrapperBeginContext(s, t);
    assert FramesOf(s', t) == [FramesOf(s', t)[0]] + FramesOf(s, t);
    forall d: Ctx | Owns(s', t, d)
      ensures ContextInv(s', t, d)
    {
      OneFrameMore(FramesOf(s, t), FramesOf(s', t)[0], d);
      if d != c {
        ContextStill(s, s', t, d);
      }
    }
  }

  lemma WrapperBeginContext(s: State, t: Thread)
    requires LocalInv(s, t) && PcOf(s, t).Starting?
    ensures var c := PcOf(s, t).ctx; Owns(WrapperBegun(s, t), t, c) && ContextInv(WrapperBegun(s, t), t, c)
  {
    hide Distinct, Full, Count, Start, AllNull;
    var s', c := WrapperBegun(s, t), PcOf(s, t).ctx;
    assert ContextInv(s, t, c);
    OneFrameMore(FramesOf(s, t), FramesOf(s', t)[0], c);
    assert FramesOf(s', t) == [FramesOf(s', t)[0]] + FramesOf(s, t);
  }

  lemma UnlistKeeps(s: State, t: Thread)
    requires LocalInv(s, t) && PcOf(s, t).Unlisting?
    ensures LocalInv(Unlisted(s, t), t)
  {
    hide ListInv, Leaving, ContextInv, Count;
    var s', c := Unlisted(s, t), PcOf(s, t).ctx;
    UnlistContext(s, t);
    forall d: Ctx | Owns(s', t, d)
      ensures ContextInv(s', t, d)
    {
      if d != c {
        ContextStill(s, s', t, d);
      }
    }
  }

  lemma UnlistContext(s: State, t: Thread)
    requires LocalInv(s, t) && PcOf(s, t).Unlisting?
    ensures var c := PcOf(s, t).ctx; Owns(Unlisted(s, t), t, c) && ContextInv(Unlisted(s, t), t, c)
  {
    hide ListInv;
    assert ContextInv(s, t, PcOf(s, t).ctx);
  }

  lemma DeleteKeeps(s: State, t: Thread)
    requires LocalInv(s, t) && PcOf(s, t).Deleting?
    ensures LocalInv(Deleted(s, t), t)
  {
    hide ListInv, Leaving, ContextInv, Count;
    var s', c := Deleted(s, t), PcOf(s, t).ctx;
    DeleteContext(s, t);
    forall d: Ctx | Owns(s', t, d)
      ensures ContextInv(s', t, d)
    {
      if d != c {
        ContextStill(s, s', t, d);
      }
    }
  }

  lemma DeleteContext(s: State, t: Thread)
    requires LocalInv(s, t) && PcOf(s, t).Deleting?
    ensures var c := PcOf(s, t).ctx; Owns(Deleted(s, t), t, c) && ContextInv(Deleted(s, t), t, c)
  {
    assert ContextInv(s, t, PcOf(s, t).ctx);
  }

  /** Changing the cursor of the innermost wrapper does not change the counts. */
  lemma SameCounts(frames: seq<Frame>, f: Frame, c: Ctx)
    requires frames != [] && f.ctx == frames[0].ctx
    ensures Count([f] + frames[1..], c) == Count(frames, c)
  {
    OneFrameMore(frames[1..], f, c);
  }

  lemma CursorKeeps(s: State, t: Thread, f: Frame)
    requires LocalInv(s, t) && PcOf(s, t).Ready? && FramesOf(s, t) != [] && f.ctx == FramesOf(s, t)[0].ctx
    ensures LocalInv(SetFrames(s, t, [f] + FramesOf(s, t)[1..]), t)
  {
    hide ListInv, Leaving, ContextInv, Count;
    var s' := SetFrames(s, t, [f] + FramesOf(s, t)[1..]);
    assert FramesOf(s, t)[0] in FramesOf(s, t);
    forall d: Ctx | Owns(s', t, d)
      ensures ContextInv(s', t, d)
    {
      SameCounts(FramesOf(s, t), f, d);
      ContextStill(s, s', t, d);
    }
  }

  lemma ClosedIsList(x: Context, frames: seq<Frame>, c: Ctx)
    requires ListInv(x, frames, c) && frames != [] && frames[0].ctx == c
    ensures x.depth > 0
    ensures ListInv(x.(depth := x.depth - 1, slots := Closed(x.slots, x.depth - 1)), frames[1..], c)
    ensures x.depth > 1 ==> Closed(x.slots, x.depth - 1) == x.slots
    ensures AllNull(x.slots) && x.depth == 1 ==> Closed(x.slots, x.depth - 1) == []
  {
    CompactedIsFull(x.slots);
    CompactedDistinct(x.slots);
    if AllNull(x.slots) {
      NothingLive(x.slots);
      FullLive(Compacted(x.slots));
    }
  }

  lemma EndOfWrapperKeeps(s: State, t: Thread)
    requires LocalInv(s, t) && PcOf(s, t).Ready? && FramesOf(s, t) != []
    ensures LocalInv(WrapperEnded(s, t), t)
  {
    hide ListInv, Leaving, ContextInv, Count, Closed, Delivered;
    var s', c := WrapperEnded(s, t), FramesOf(s, t)[0].ctx;
    assert FramesOf(s, t)[0] in FramesOf(s, t);
    EndOfWrapperContext(s, t);
    forall d: Ctx | Owns(s', t, d)
      ensures ContextInv(s', t, d)
    {
      if d != c {
        OuterCounts(FramesOf(s, t), d);
        ContextStill(s, s', t, d);
      }
    }
  }

  lemma OuterCounts(frames: seq<Frame>, c: Ctx)
    requires frames != [] && frames[0].ctx != c
    ensures Count(frames[1..], c) == Count(frames, c)
  {
  }

  lemma EndOfWrapperContext(s: State, t: Thread)
    requires LocalInv(s, t) && PcOf(s, t).Ready? && FramesOf(s, t) != []
    ensures var c := FramesOf(s, t)[0].ctx; Owns(WrapperEnded(s, t), t, c) && ContextInv(WrapperEnded(s, t), t, c)
    ensures PcInv(WrapperEnded(s, t), t)
  {
    hide ListInv, Closed, Delivered, AllNull;
    var s', c := WrapperEnded(s, t), FramesOf(s, t)[0].ctx;
    var x := s.contexts[c];
    assert FramesOf(s, t)[0] in FramesOf(s, t);
    assert ContextInv(s, t, c);
    ClosedIsList(x, FramesOf(s, t), c);
    DepthMeansSlots(x, FramesOf(s, t), c);
    assert FramesOf(s', t) == FramesOf(s, t)[1..];
  }

  lemma GetNextKeeps(s: State, t: Thread)
    requires LocalInv(s, t) && PcOf(s, t).Ready? && FramesOf(s, t) != []
    ensures LocalInv(NextGot(s, t), t)
  {
    hide LocalInv, Delivered, Advanced, Closed;
    var frame := FramesOf(s, t)[0];
    var x := ContextOf(s, frame.ctx);
    if Delivered(x.slots, frame.cursor).Some? {
      CursorKeeps(s, t, frame.(cursor := Advanced(x.slots, frame.cursor), inCallback := true));
    } else {
      EndOfWrapperKeeps(s, t);
    }
  }

  /** Every step of every thread keeps the invariant of every thread. */
  lemma StepInv(s: State, step: Step)
    requires Inv(s) && Enabled(s, step)
    ensures Inv(Apply(s, step))
  {
    hide Apply, LocalInv, SameView, Touched;
    assert LocalInv(s, step.t);
    forall u: Thread
      ensures LocalInv(Apply(s, step), u)
    {
      if u != step.t {
        OthersUntouched(s, step, u);
        assert LocalInv(s, u);
        SameViewKeeps(s, Apply(s, step), u);
      } else {
        OwnStepKeeps(s, step);
      }
    }
  }

  lemma OwnStepKeeps(s: State, step: Step)
    requires LocalInv(s, step.t) && Enabled(s, step)
    ensures LocalInv(Apply(s, step), step.t)
  {
    hide LocalInv, AddLocked, AddFinished, RemoveLocked, RemoveFinished, Notified, WrapperLocked, WrapperBegun, NextGot, Unlisted, Deleted;
    match step
    case AddLock(t, obs, made) => AddLockKeeps(s, t, obs, made);
    case AddFinish(t) => AddFinishKeeps(s, t);
    case RemoveLock(t, obs) => RemoveLockKeeps(s, t, obs);
    case RemoveFinish(t) => RemoveFinishKeeps(s, t);
    case Notify(t) => NotifyKeeps(s, t);
    case WrapperLock(t, c) => WrapperLockKeeps(s, t, c);
    case WrapperBegin(t) => WrapperBeginKeeps(s, t);
    case GetNext(t) => GetNextKeeps(s, t);
    case CallbackReturns(t) => CursorKeeps(s, t, FramesOf(s, t)[0].(inCallback := false));
    case Unlist(t) => UnlistKeeps(s, t);
    case Delete(t) => DeleteKeeps(s, t);
  }

  lemma NotifyKeeps(s: State, t: Thread)
    requires LocalInv(s, t) && MayCall(s, t)
    ensures LocalInv(Notified(s), t)
  {
    hide ListInv, Leaving;
    var s' := Notified(s);
    forall c: Ctx | Owns(s', t, c)
      ensures ContextInv(s', t, c)
    {
      assert ContextInv(s, t, c);
    }
  }

  // ------------------------------------------------------------ who is registered

  /** The context through which thread t adds and removes observers. */
  function Current(s: State, t: Thread): (r: Option<Ctx>)
  {
    if PcOf(s, t).Removing? then Some(PcOf(s, t).ctx)
    else if t in s.lists then Some(s.lists[t])
    else None
  }

  /** Thread t has added obs and not removed it since. */
  predicate Registered(s: State, t: Thread, obs: Observer)
  {
    var c := Current(s, t);
    c.Some? && c.value in s.contexts && Some(obs) in s.contexts[c.value].slots
  }

  /** The step by which a call of AddObserver(obs) on thread t takes effect. */
  predicate Adds(s: State, step: Step, t: Thread, obs: Observer)
  {
    step == AddFinish(t) && PcOf(s, t).Adding? && PcOf(s, t).obs == obs
  }

  /** The step by which a call of RemoveObserver(obs) on thread t takes effect. */
  predicate Removes(s: State, step: Step, t: Thread, obs: Observer)
  {
    (step == RemoveFinish(t) && PcOf(s, t).Removing? && PcOf(s, t).obs == obs)
    || (step == RemoveLock(t, obs) && t !in s.lists)
  }

  /** What a step must do to the registrations, if every thread simply had a set of them. */
  predicate RegisteredNext(s: State, step: Step, t: Thread, obs: Observer)
  {
    Adds(s, step, t, obs) || (Registered(s, t, obs) && !Removes(s, step, t, obs))
  }

  lemma RegisteredUnseen(s: State, s': State, u: Thread, obs: Observer)
    requires LocalInv(s, u) && SameView(s, s', u)
    ensures Registered(s', u, obs) <==> Registered(s, u, obs)
  {
  }

  lemma AddedMembers(slots: seq<Option<Observer>>, obs: Observer, other: Observer)
    ensures Some(other) in Added(slots, obs) <==> other == obs || Some(other) in slots
  {
  }

  lemma RemovedMembers(slots: seq<Option<Observer>>, obs: Observer, depth: nat, other: Observer)
    requires Distinct(slots)
    ensures Some(other) in Removed(slots, obs, depth) <==> other != obs && Some(other) in slots
  {
    var k := IndexOf(slots, obs);
    if k < |slots| {
      var before, after := slots[..k], slots[k + 1..];
      assert slots == before + [Some(obs)] + after;
      assert Some(obs) !in before && Some(obs) !in after;
      assert slots[k := None] == before + [None] + after;
    }
  }

  lemma ClosedMembers(slots: seq<Option<Observer>>, depth: nat, obs: Observer)
    ensures Some(obs) in Closed(slots, depth) <==> Some(obs) in slots
  {
    CompactedIsFull(slots);
    LiveMember(slots, obs);
    LiveMember(Compacted(slots), obs);
  }

  lemma NotInNulls(slots: seq<Option<Observer>>, obs: Observer)
    requires AllNull(slots)
    ensures Some(obs) !in slots
  {
  }

  lemma OwnRegistration(s: State, step: Step, obs: Observer)
    requires LocalInv(s, step.t) && Enabled(s, step)
    ensures Registered(Apply(s, step), step.t, obs) <==> RegisteredNext(s, step, step.t, obs)
  {
    hide LocalInv, Registered, AddLocked, AddFinished, RemoveLocked, RemoveFinished, Notified,
         WrapperLocked, WrapperBegun, WrapperEnded, NextGot, CallbackReturned, Unlisted, Deleted;
    var t := step.t;
    match step
    case AddLock(_, other, made) => OwnAddLock(s, t, other, made, obs);
    case AddFinish(_) => OwnAdd(s, t, obs);
    case RemoveLock(_, other) => OwnRemoveLock(s, t, other, obs);
    case RemoveFinish(_) => OwnRemoval(s, t, obs);
    case GetNext(_) => OwnGetNext(s, t, obs);
    case _ => OwnOther(s, step, obs);
  }

  lemma OwnAddLock(s: State, t: Thread, other: Observer, made: Ctx, obs: Observer)
    requires LocalInv(s, t) && MayCall(s, t) && made !in s.contexts
    ensures Registered(AddLocked(s, t, other, made), t, obs) <==> Registered(s, t, obs)
  {
    hide ContextInv;
  }

  lemma OwnAdd(s: State, t: Thread, obs: Observer)
    requires LocalInv(s, t) && PcOf(s, t).Adding?
    ensures Registered(AddFinished(s, t), t, obs) <==> obs == PcOf(s, t).obs || Registered(s, t, obs)
  {
    hide ContextInv, Added;
    AddedMembers(s.contexts[PcOf(s, t).ctx].slots, PcOf(s, t).obs, obs);
  }

  lemma OwnRemoveLock(s: State, t: Thread, other: Observer, obs: Observer)
    requires LocalInv(s, t) && MayCall(s, t)
    ensures Registered(RemoveLocked(s, t, other), t, obs) <==> Registered(s, t, obs)
    ensures t !in s.lists ==> !Registered(s, t, obs)
  {
    hide ContextInv;
  }

  lemma OwnGetNext(s: State, t: Thread, obs: Observer)
    requires LocalInv(s, t) && PcOf(s, t).Ready? && FramesOf(s, t) != []
    ensures Registered(NextGot(s, t), t, obs) <==> Registered(s, t, obs)
  {
    hide ContextInv, Closed, Advanced, Delivered;
    assert FramesOf(s, t)[0] in FramesOf(s, t);
    var x := s.contexts[FramesOf(s, t)[0].ctx];
    ClosedMembers(x.slots, if x.depth > 0 then x.depth - 1 else 0, obs);
  }

  lemma OwnOther(s: State, step: Step, obs: Observer)
    requires LocalInv(s, step.t) && Enabled(s, step)
    requires step.Notify? || step.WrapperLock? || step.WrapperBegin? || step.CallbackReturns? || step.Unlist? || step.Delete?
    ensures Registered(Apply(s, step), step.t, obs) <==> Registered(s, step.t, obs)
  {
    hide ContextInv, Start;
  }

  lemma OwnRemoval(s: State, t: Thread, obs: Observer)
    requires LocalInv(s, t) && PcOf(s, t).Removing?
    ensures Registered(RemoveFinished(s, t), t, obs) <==> obs != PcOf(s, t).obs && Registered(s, t, obs)
  {
    hide Removed, AllNull;
    var c := PcOf(s, t).ctx;
    var x := s.contexts[c];
    assert ContextInv(s, t, c);
    RemovedMembers(x.slots, PcOf(s, t).obs, x.depth, obs);
    if !Listed(s, t, c) && AllNull(x.slots) {
      NotInNulls(x.slots, obs);
    }
  }

  /** The lists, contexts and frames together refine one set of observers for each thread:
      AddObserver adds to the caller's set, RemoveObserver takes from it, and no other
      step of any thread changes any of the sets. */
  lemma RefinesSetsOfObservers(s: State, step: Step, t: Thread, obs: Observer)
    requires Inv(s) && Enabled(s, step)
    ensures Registered(Apply(s, step), t, obs) <==> RegisteredNext(s, step, t, obs)
  {
    hide Apply, LocalInv, Registered;
    assert LocalInv(s, t) && LocalInv(s, step.t);
    if t == step.t {
      OwnRegistration(s, step, obs);
    } else {
      OthersUntouched(s, step, t);
      RegisteredUnseen(s, Apply(s, step), t, obs);
    }
  }

  /** The observer that a step of thread t calls. */
  function Called(s: State, step: Step): (r: Option<Observer>)
  {
    if step.GetNext? && FramesOf(s, step.t) != [] && FramesOf(s, step.t)[0].ctx in s.contexts then
      var x := s.contexts[FramesOf(s, step.t)[0].ctx];
      var k := Delivered(x.slots, FramesOf(s, step.t)[0].cursor);
      if k.Some? then x.slots[k.value] else None
    else None
  }

  /** Only an observer that the calling thread itself has registered is called. */
  lemma CalledIsRegistered(s: State, step: Step)
    requires Inv(s) && Enabled(s, step) && Called(s, step).Some?
    ensures Registered(s, step.t, Called(s, step).value)
  {
    hide ListInv, Delivered;
    var t := step.t;
    var c := FramesOf(s, t)[0].ctx;
    assert LocalInv(s, t);
    assert FramesOf(s, t)[0] in FramesOf(s, t);
    assert ContextInv(s, t, c);
    TouchedAlive(s, step, c);
  }

  // ------------------------------------------------------------ whole runs

  ghost predicate Run(states: seq<State>, steps: seq<Step>)
  {
    |states| == |steps| + 1 && Init(states[0])
    && forall i :: 0 <= i < |steps| ==> Enabled(states[i], steps[i]) && states[i + 1] == Apply(states[i], steps[i])
  }

  lemma {:induction false} RunInv(states: seq<State>, steps: seq<Step>, i: nat)
    requires Run(states, steps) && i <= |steps|
    ensures Inv(states[i])
  {
    hide Apply, Inv, Enabled;
    if i == 0 {
      InitInv(states[0]);
    } else {
      RunInv(states, steps, i - 1);
      StepInv(states[i - 1], steps[i - 1]);
    }
  }

  /** A deleted context is never alive again. */
  lemma {:induction false} DeadStaysDead(states: seq<State>, steps: seq<Step>, i: nat, j: nat, c: Ctx)
    requires Run(states, steps) && i <= j <= |steps|
    requires c in states[i].contexts && !states[i].contexts[c].alive
    ensures c in states[j].contexts && !states[j].contexts[c].alive
    decreases j
  {
    hide Inv, Enabled, Apply;
    if i < j {
      DeadStaysDead(states, steps, i, j - 1, c);
      RunInv(states, steps, j - 1);
      DeadStep(states[j - 1], steps[j - 1], c);
    }
  }

  lemma DeadStep(s: State, step: Step, c: Ctx)
    requires Enabled(s, step) && c in s.contexts && !s.contexts[c].alive
    ensures c in Apply(s, step).contexts && !Apply(s, step).contexts[c].alive
  {
    hide Added, Removed, Closed, Advanced, Delivered, Start;
  }

  /** No step of any thread dereferences a context that an earlier step has deleted; in
      particular no context is deleted twice. */
  lemma NoUseAfterDelete(states: seq<State>, steps: seq<Step>, i: nat, j: nat)
    requires Run(states, steps) && i < j < |steps| && steps[i].Delete?
    ensures PcOf(states[i], steps[i].t).Deleting?
    ensures PcOf(states[i], steps[i].t).ctx !in Touched(states[j], steps[j])
    ensures steps[j].Delete? ==> PcOf(states[i], steps[i].t).ctx != PcOf(states[j], steps[j].t).ctx
  {
    hide Inv;
    var c := PcOf(states[i], steps[i].t).ctx;
    RunInv(states, steps, i);
    RunInv(states, steps, j);
    DeadStaysDead(states, steps, i + 1, j, c);
    if c in Touched(states[j], steps[j]) {
      TouchedAlive(states[j], steps[j], c);
    }
  }

  ghost predicate NoRemoval(states: seq<State>, steps: seq<Step>, t: Thread, obs: Observer, i: nat, j: nat)
    requires j <= |steps| < |states|
  {
    forall k :: i < k < j ==> !Removes(states[k], steps[k], t, obs)
  }

  lemma {:induction false} RegisteredByAdd(states: seq<State>, steps: seq<Step>, j: nat, t: Thread, obs: Observer)
    requires Run(states, steps) && j <= |steps| && Registered(states[j], t, obs)
    ensures exists i :: 0 <= i < j && Adds(states[i], steps[i], t, obs) && NoRemoval(states, steps, t, obs, i, j)
  {
    hide Inv, Apply, Enabled, Registered, Adds, Removes;
    if j == 0 {
      NothingRegistered(states[0], t, obs);
    } else {
      var m := j - 1;
      RunInv(states, steps, m);
      RefinesSetsOfObservers(states[m], steps[m], t, obs);
      if Adds(states[m], steps[m], t, obs) {
        assert NoRemoval(states, steps, t, obs, m, j);
      } else {
        RegisteredByAdd(states, steps, m, t, obs);
        var i :| 0 <= i < m && Adds(states[i], steps[i], t, obs) && NoRemoval(states, steps, t, obs, i, m);
        assert NoRemoval(states, steps, t, obs, i, j);
      }
    }
  }

  lemma NothingRegistered(s: State, t: Thread, obs: Observer)
    requires Init(s)
    ensures !Registered(s, t, obs)
  {
  }

  /** An observer is called only on a thread that has added it, and no removal by that
      thread has taken effect since: a removed observer is called again only if it is
      added again. */
  lemma CalledOnAddingThread(states: seq<State>, steps: seq<Step>, j: nat)
    requires Run(states, steps) && j < |steps| && Called(states[j], steps[j]).Some?
    ensures var t, obs := steps[j].t, Called(states[j], steps[j]).value;
        exists i :: 0 <= i < j && Adds(states[i], steps[i], t, obs) && NoRemoval(states, steps, t, obs, i, j)
  {
    hide Inv, Registered, Adds, Removes;
    RunInv(states, steps, j);
    CalledIsRegistered(states[j], steps[j]);
    RegisteredByAdd(states, steps, j, steps[j].t, Called(states[j], steps[j]).value);
  }

  ghost predicate AtRest(s: State)
  {
    forall t: Thread :: PcOf(s, t).Ready? && FramesOf(s, t) == []
  }

  lemma RestingContext(s: State, c: Ctx)
    requires Inv(s) && AtRest(s) && c in s.contexts && s.contexts[c].alive
    ensures var x := s.contexts[c]; Listed(s, x.owner, c) && x.depth == 0 && Full(x.slots) && x.slots != []
  {
    var t := s.contexts[c].owner;
    assert PcOf(s, t).Ready? && FramesOf(s, t) == [];
    assert LocalInv(s, t) && Owns(s, t, c) && ContextInv(s, t, c);
  }

  /** When no thread is in a call, nothing is leaked: the contexts not yet deleted are
      those of the map, each holding its thread's registered observers and no null. */
  lemma NothingLeakedAtRest(states: seq<State>, steps: seq<Step>, j: nat, c: Ctx)
    requires Run(states, steps) && j <= |steps| && AtRest(states[j])
    ensures (c in states[j].contexts && states[j].contexts[c].alive) <==> c in states[j].lists.Values
    ensures c in states[j].lists.Values ==> Full(states[j].contexts[c].slots) && states[j].contexts[c].slots != []
  {
    hide ContextInv;
    var s := states[j];
    RunInv(states, steps, j);
    if c in s.contexts && s.contexts[c].alive {
      RestingContext(s, c);
    }
    if c in s.lists.Values {
      var t: Thread :| t in s.lists && s.lists[t] == c;
      assert LocalInv(s, t);
      ListedAlive(s, t);
      RestingContext(s, c);
    }
  }

  /** AssertEmpty holds at rest exactly when every added observer has been removed. */
  lemma EmptyWhenAllRemoved(states: seq<State>, steps: seq<Step>, j: nat)
    requires Run(states, steps) && j <= |steps| && AtRest(states[j])
    ensures states[j].lists == map[] <==> forall t: Thread, obs: Observer :: !Registered(states[j], t, obs)
  {
    hide ContextInv;
    var s := states[j];
    RunInv(states, steps, j);
    if s.lists != map[] {
      var t: Thread :| t in s.lists;
      assert LocalInv(s, t);
      ListedAlive(s, t);
      RestingContext(s, s.lists[t]);
      assert s.contexts[s.lists[t]].slots[0].Some?;
      assert Registered(s, t, s.contexts[s.lists[t]].slots[0].value);
    } else {
      forall t: Thread, obs: Observer
        ensures !Registered(s, t, obs)
      {
        assert PcOf(s, t).Ready?;
      }
    }
  }

  /** The map holds a context once, so that deleting its values deletes each once. */
  lemma ListsInjective(states: seq<State>, steps: seq<Step>, j: nat, t: Thread, u: Thread)
    requires Run(states, steps) && j <= |steps|
    requires t in states[j].lists && u in states[j].lists && states[j].lists[t] == states[j].lists[u]
    ensures t == u
  {
    RunInv(states, steps, j);
    assert LocalInv(states[j], t) && LocalInv(states[j], u);
  }
}
