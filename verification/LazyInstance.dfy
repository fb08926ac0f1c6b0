// LazyInstance: any number of threads call Pointer() on one static object. Every
// load, compare-and-swap and store is one step; steps of different threads
// interleave freely and are sequentially consistent.
module LazyInstance {

  type Thread = nat

  /** The state word: 0, 1 while an instance is being created, or a pointer. */
  const CREATING: int := 1

  /** The test value & kLazyInstanceCreatedMask: some bit other than the lowest is set. */
  predicate Created(word: int)
  {
    word != 0 && word != CREATING
  }

  /** Where a thread is within Pointer(). */
  datatype Pc =
    | Idle                      // not in a call
    | TryCreate                 // saw no instance; about to compare-and-swap
    | Spinning                  // lost the race; waits in NeedsLazyInstance
    | Constructing              // won the race; Traits::New is running
    | Constructed(p: int)       // Traits::New has returned p; the store is next
    | Registering               // the store is done; the at-exit callback is next
    | Reading                   // about to return instance()

  datatype State = State(word: int, pcs: map<Thread, Pc>, callbacks: nat, registerOnExit: bool)

  function PcOf(s: State, t: Thread): Pc
  {
    if t in s.pcs then s.pcs[t] else Idle
  }

  function Goto(s: State, t: Thread, pc: Pc): State
  {
    s.(pcs := s.pcs[t := pc])
  }

  /** One atomic action. New carries the pointer that the constructor returns. */
  datatype Step =
    | Load(t: Thread)
    | CompareAndSwap(t: Thread)
    | Spin(t: Thread)
    | New(t: Thread, p: int)
    | Store(t: Thread)
    | Register(t: Thread)
    | Return(t: Thread)
    | OnExit

  ghost predicate Init(s: State)
  {
    s.word == 0 && s.callbacks == 0 && forall t: Thread :: PcOf(s, t) == Idle
  }

  /** OnExit runs from the at-exit manager, when no thread uses the instance. */
  ghost predicate Enabled(s: State, step: Step)
  {
    match step
    case Load(t) => PcOf(s, t).Idle?
    case CompareAndSwap(t) => PcOf(s, t).TryCreate?
    case Spin(t) => PcOf(s, t).Spinning?
    case New(t, p) => PcOf(s, t).Constructing? && Created(p)
    case Store(t) => PcOf(s, t).Constructed?
    case Register(t) => PcOf(s, t).Registering?
    case Return(t) => PcOf(s, t).Reading?
    case OnExit => s.callbacks > 0 && forall t: Thread :: PcOf(s, t) == Idle
  }

  ghost function Apply(s: State, step: Step): State
    requires Enabled(s, step)
  {
    match step
    case Load(t) => Goto(s, t, if Created(s.word) then Reading else TryCreate)
    case CompareAndSwap(t) =>
      if s.word == 0 then Goto(s, t, Constructing).(word := CREATING) else Goto(s, t, Spinning)
    case Spin(t) => if s.word == CREATING then s else Goto(s, t, Reading)
    case New(t, p) => Goto(s, t, Constructed(p))
    case Store(t) => Goto(s, t, Registering).(word := PcOf(s, t).p)
    case Register(t) => Goto(s, t, Reading).(callbacks := if s.registerOnExit then s.callbacks + 1 else s.callbacks)
    case Return(t) => Goto(s, t, Idle)
    case OnExit => s.(word := 0, callbacks := s.callbacks - 1)
  }

  // ------------------------------------------------------------ the invariant

  predicate Creator(pc: Pc)
  {
    pc.Constructing? || pc.Constructed?
  }

  predicate Finished(pc: Pc)
  {
    pc.Registering? || pc.Reading?
  }

  ghost predicate Inv(s: State)
  {
    (forall t: Thread :: PcOf(s, t).Constructed? ==> Created(PcOf(s, t).p))
    && (forall t: Thread, u: Thread :: Creator(PcOf(s, t)) && Creator(PcOf(s, u)) ==> t == u)
    && (forall t: Thread :: Creator(PcOf(s, t)) ==> s.word == CREATING)
    && (s.word == CREATING ==> exists t: Thread :: Creator(PcOf(s, t)))
    && (forall t: Thread :: Finished(PcOf(s, t)) ==> Created(s.word))
    && (forall t: Thread :: PcOf(s, t).Spinning? ==> s.word != 0)
    && (forall t: Thread, u: Thread :: PcOf(s, t).Registering? && PcOf(s, u).Registering? ==> t == u)
    && (forall t: Thread :: PcOf(s, t).Registering? ==> s.callbacks == 0)
    && s.callbacks <= 1 && (s.callbacks == 1 ==> Created(s.word) && s.registerOnExit)
    && (Created(s.word) && s.registerOnExit && s.callbacks == 0 ==> exists t: Thread :: PcOf(s, t).Registering?)
  }

  lemma InitInv(s: State)
    requires Init(s)
    ensures Inv(s)
  {
  }

  /** A step of thread t that changes no other thread. */
  lemma OthersStay(s: State, step: Step)
    requires Enabled(s, step)
    ensures step.OnExit? ==> Apply(s, step).pcs == s.pcs
    ensures !step.OnExit? ==> forall u: Thread :: u != step.t ==> PcOf(Apply(s, step), u) == PcOf(s, u)
  {
  }

  /** A step that neither takes nor gives up the creating state keeps its creator. */
  lemma CreatorStays(s: State, step: Step)
    requires Inv(s) && Enabled(s, step) && s.word == CREATING && !step.Store?
    ensures exists t: Thread :: Creator(PcOf(Apply(s, step), t))
  {
    OthersStay(s, step);
    var u: Thread :| Creator(PcOf(s, u));
    assert Creator(PcOf(Apply(s, step), u));
  }

  /** A step that does not register the callback keeps the thread that will. */
  lemma RegistrarStays(s: State, step: Step)
    requires Inv(s) && Enabled(s, step) && !step.Register?
    requires Created(s.word) && s.registerOnExit && s.callbacks == 0
    ensures exists t: Thread :: PcOf(Apply(s, step), t).Registering?
  {
    OthersStay(s, step);
    var u: Thread :| PcOf(s, u).Registering?;
    assert PcOf(Apply(s, step), u).Registering?;
  }

  lemma SwapInv(s: State, t: Thread)
    requires Inv(s) && Enabled(s, CompareAndSwap(t))
    ensures Inv(Apply(s, CompareAndSwap(t)))
  {
    var s' := Apply(s, CompareAndSwap(t));
    OthersStay(s, CompareAndSwap(t));
    if s.word == CREATING {
      CreatorStays(s, CompareAndSwap(t));
    }
    if Created(s.word) && s.registerOnExit && s.callbacks == 0 {
      RegistrarStays(s, CompareAndSwap(t));
    }
    assert s.word == 0 ==> Creator(PcOf(s', t));
  }

  lemma ExitInv(s: State)
    requires Inv(s) && Enabled(s, OnExit)
    ensures Inv(Apply(s, OnExit))
  {
    assert forall t: Thread :: PcOf(Apply(s, OnExit), t) == PcOf(s, t);
  }

  /** Every step of every thread keeps the invariant. */
  lemma StepInv(s: State, step: Step)
    requires Inv(s) && Enabled(s, step)
    ensures Inv(Apply(s, step))
  {
    OthersStay(s, step);
    match step
    case CompareAndSwap(t) => SwapInv(s, t);
    case OnExit => ExitInv(s);
    case Store(t) =>
      assert PcOf(Apply(s, step), t).Registering?;
    case _ =>
      if s.word == CREATING {
        CreatorStays(s, step);
      } else if Created(s.word) && s.registerOnExit && s.callbacks == 0 && !step.Register? {
        RegistrarStays(s, step);
      }
  }

  // ------------------------------------------------------------ whole runs

  ghost predicate Run(states: seq<State>, steps: seq<Step>)
  {
    |states| == |steps| + 1 && Init(states[0])
    && forall i :: 0 <= i < |steps| ==> Enabled(states[i], steps[i]) && states[i + 1] == Apply(states[i], steps[i])
  }

  lemma {:induction false} RunInv(states: seq<State>, steps: seq<Step>, i: nat)
    requires Run(states, steps) && i <= |steps|
    ensures Inv(states[i])
  {
    if i == 0 {
      InitInv(states[0]);
    } else {
      RunInv(states, steps, i - 1);
      StepInv(states[i - 1], steps[i - 1]);
    }
  }

  ghost predicate NoExit(steps: seq<Step>, i: nat, j: nat)
    requires j <= |steps|
  {
    forall k :: i <= k < j ==> !steps[k].OnExit?
  }

  /** The state word moves from 0 to creating to a pointer, and only OnExit resets it. */
  lemma WordMoves(states: seq<State>, steps: seq<Step>, i: nat)
    requires Run(states, steps) && i < |steps|
    ensures var v, w := states[i].word, states[i + 1].word;
            w == v || (v == 0 && w == CREATING) || (v == CREATING && Created(w)) || (steps[i].OnExit? && w == 0)
  {
    RunInv(states, steps, i);
    RunInv(states, steps, i + 1);
    var t: Thread := if steps[i].OnExit? then 0 else steps[i].t;
    assert steps[i].Store? ==> Creator(PcOf(states[i], t));
  }

  /** Once there is an instance, it stays until OnExit. */
  lemma {:induction false} WordStays(states: seq<State>, steps: seq<Step>, i: nat, j: nat)
    requires Run(states, steps) && i <= j <= |steps| && NoExit(steps, i, j)
    ensures Created(states[i].word) ==> states[j].word == states[i].word
    ensures states[i].word != 0 ==> states[j].word != 0
    decreases j - i
  {
    if i < j {
      WordMoves(states, steps, i);
      WordStays(states, steps, i + 1, j);
    }
  }

  /** The constructor is started at most once between two calls of OnExit: two
      compare-and-swaps that win have an OnExit between them. */
  lemma CreationStartsOnce(states: seq<State>, steps: seq<Step>, i: nat, j: nat)
    requires Run(states, steps) && i < j < |steps|
    requires steps[i].CompareAndSwap? && states[i].word == 0
    requires steps[j].CompareAndSwap? && states[j].word == 0
    ensures exists k :: i < k < j && steps[k].OnExit?
  {
    if NoExit(steps, i + 1, j) {
      WordStays(states, steps, i + 1, j);
      assert false;
    }
  }

  /** The constructor has returned: its pointer is in the state word, or about to be. */
  ghost predicate Built(s: State)
  {
    Created(s.word) || exists t: Thread :: PcOf(s, t).Constructed?
  }

  /** What is built stays built until OnExit, and meanwhile no constructor can run. */
  lemma BuiltOneStep(s: State, step: Step)
    requires Inv(s) && Enabled(s, step) && Built(s) && !step.OnExit?
    ensures Built(Apply(s, step)) && !step.New?
  {
    OthersStay(s, step);
    if !Created(s.word) {
      var u: Thread :| PcOf(s, u).Constructed?;
      assert step.t != u ==> PcOf(Apply(s, step), u).Constructed?;
    }
  }

  lemma {:induction false} BuiltStays(states: seq<State>, steps: seq<Step>, i: nat, j: nat)
    requires Run(states, steps) && i <= j <= |steps| && NoExit(steps, i, j) && Built(states[i])
    ensures Built(states[j])
    decreases j - i
  {
    if i < j {
      RunInv(states, steps, i);
      BuiltOneStep(states[i], steps[i]);
      BuiltStays(states, steps, i + 1, j);
    }
  }

  /** Of any two constructor calls, by whatever threads, the instance of the first has been
      deleted by OnExit before the second runs. */
  lemma ConstructorRunsOnce(states: seq<State>, steps: seq<Step>, i: nat, j: nat)
    requires Run(states, steps) && i < j < |steps| && steps[i].New? && steps[j].New?
    ensures exists k :: i < k < j && steps[k].OnExit?
  {
    if NoExit(steps, i + 1, j) {
      assert PcOf(states[i + 1], steps[i].t).Constructed?;
      BuiltStays(states, steps, i + 1, j);
      RunInv(states, steps, j);
      BuiltOneStep(states[j], steps[j]);
      assert false;
    }
  }

  /** A pointer that a thread holds to store was returned by its own constructor call. */
  lemma {:induction false} ConstructedByNew(states: seq<State>, steps: seq<Step>, j: nat, t: Thread)
    requires Run(states, steps) && j <= |steps| && PcOf(states[j], t).Constructed?
    ensures exists k :: 0 <= k < j && steps[k] == New(t, PcOf(states[j], t).p) && NoExit(steps, k, j)
  {
    var i := j - 1;
    if steps[i] == New(t, PcOf(states[j], t).p) {
      assert NoExit(steps, i, j);
    } else {
      assert PcOf(states[i], t) == PcOf(states[j], t);
      ConstructedByNew(states, steps, i, t);
      var k :| 0 <= k < i && steps[k] == New(t, PcOf(states[j], t).p) && NoExit(steps, k, i);
      assert NoExit(steps, k, j);
    }
  }

  /** The pointer in the state word was returned by a constructor call since the last OnExit. */
  lemma {:induction false} WordByNew(states: seq<State>, steps: seq<Step>, j: nat)
    requires Run(states, steps) && j <= |steps| && Created(states[j].word)
    ensures exists k, t :: 0 <= k < j && steps[k] == New(t, states[j].word) && NoExit(steps, k, j)
  {
    var i := j - 1;
    RunInv(states, steps, i);
    if steps[i].Store? {
      var t := steps[i].t;
      ConstructedByNew(states, steps, i, t);
      var k :| 0 <= k < i && steps[k] == New(t, PcOf(states[i], t).p) && NoExit(steps, k, i);
      assert NoExit(steps, k, j) && steps[k] == New(t, states[j].word);
    } else {
      assert states[i].word == states[j].word;
      WordByNew(states, steps, i);
      var k, t :| 0 <= k < i && steps[k] == New(t, states[i].word) && NoExit(steps, k, i);
      assert NoExit(steps, k, j) && steps[k] == New(t, states[j].word);
    }
  }

  /** No call returns before a constructor call has finished, and what it returns is
      what that constructor call returned. */
  lemma ReturnAfterConstruction(states: seq<State>, steps: seq<Step>, j: nat)
    requires Run(states, steps) && j < |steps| && steps[j].Return?
    ensures Created(states[j].word)
    ensures exists k, t :: 0 <= k < j && steps[k] == New(t, states[j].word) && NoExit(steps, k, j)
  {
    RunInv(states, steps, j);
    assert Finished(PcOf(states[j], steps[j].t));
    WordByNew(states, steps, j);
  }

  /** All calls that return before the next OnExit return the same instance. */
  lemma SameInstance(states: seq<State>, steps: seq<Step>, i: nat, j: nat)
    requires Run(states, steps) && i <= j < |steps|
    requires steps[i].Return? && steps[j].Return? && NoExit(steps, i, j)
    ensures states[i].word == states[j].word
  {
    ReturnAfterConstruction(states, steps, i);
    WordStays(states, steps, i, j);
  }

  /** OnExit deletes an instance that was built, and is registered once for it. */
  lemma ExitDeletesInstance(states: seq<State>, steps: seq<Step>, j: nat)
    requires Run(states, steps) && j < |steps| && steps[j].OnExit?
    ensures states[j].callbacks == 1
    ensures exists k, t :: 0 <= k < j && steps[k] == New(t, states[j].word) && NoExit(steps, k, j)
  {
    RunInv(states, steps, j);
    WordByNew(states, steps, j);
  }

  /** When no thread is inside Pointer(), OnExit is pending exactly when there is an
      instance to delete, so no instance is leaked and none is deleted twice. */
  lemma ExitPendingForInstance(states: seq<State>, steps: seq<Step>, j: nat)
    requires Run(states, steps) && j <= |steps| && forall t: Thread :: PcOf(states[j], t) == Idle
    ensures states[j].callbacks == if Created(states[j].word) && states[j].registerOnExit then 1 else 0
    ensures states[j].word != CREATING
  {
    RunInv(states, steps, j);
  }

  /** No thread waits for ever on a creator that has gone: while a thread can only
      spin, another one can run or finish the constructor. */
  lemma SpinnersHaveCreator(states: seq<State>, steps: seq<Step>, j: nat, t: Thread)
    requires Run(states, steps) && j <= |steps| && PcOf(states[j], t).Spinning?
    ensures Created(states[j].word) || exists u: Thread :: u != t && Creator(PcOf(states[j], u))
  {
    RunInv(states, steps, j);
  }

  // ------------------------------------------------------------ operator==

  /** The comparison with a pointer p, for an instance that is built in place at buf. */
  function EqualsPointer(word: int, buf: int, p: int): bool
  {
    if word == 0 then p == 0 else if word == CREATING then p == buf else p == word
  }

  /** Before creation starts the instance equals only null, and from then on it equals
      only its buffer, even while another thread is still running the constructor. */
  lemma ComparisonKnowsCreation(states: seq<State>, steps: seq<Step>, j: nat, buf: int, p: int)
    requires Run(states, steps) && j <= |steps| && Created(buf)
    requires forall k :: 0 <= k < j && steps[k].New? ==> steps[k].p == buf
    ensures EqualsPointer(states[j].word, buf, p) == (p == if states[j].word == 0 then 0 else buf)
  {
    if Created(states[j].word) {
      WordByNew(states, steps, j);
    }
  }

  // ------------------------------------------------------------ calls return

  predicate By(step: Step, t: Thread)
  {
    !step.OnExit? && step.t == t
  }

  /** A thread keeps its place until its own next step, and no OnExit comes while it is in
      a call. */
  lemma {:induction false} PlaceKept(states: seq<State>, steps: seq<Step>, i: nat, j: nat, t: Thread)
    requires Run(states, steps) && i <= j <= |steps| && !PcOf(states[i], t).Idle?
    requires forall k :: i <= k < j ==> !By(steps[k], t)
    ensures PcOf(states[j], t) == PcOf(states[i], t) && NoExit(steps, i, j)
    decreases j - i
  {
    if i < j {
      OthersStay(states[i], steps[i]);
      PlaceKept(states, steps, i + 1, j, t);
    }
  }

  /** A call that finds an instance returns it with the thread's next step, without a
      compare-and-swap. */
  lemma FastPath(states: seq<State>, steps: seq<Step>, i: nat, j: nat, t: Thread)
    requires Run(states, steps) && i < j < |steps| && steps[i] == Load(t) && Created(states[i].word)
    requires By(steps[j], t) && forall k :: i < k < j ==> !By(steps[k], t)
    ensures steps[j] == Return(t) && states[j].word == states[i].word
  {
    PlaceKept(states, steps, i + 1, j, t);
    WordStays(states, steps, i + 1, j);
  }

  /** The step that brings the call of thread t nearer to its end: its own, or that of the
      creator u for which it spins. */
  function Towards(s: State, t: Thread, u: Thread, p: int): (step: Step)
    ensures By(step, t) || By(step, u)
  {
    match PcOf(s, t)
    case Idle => Load(t)
    case TryCreate => CompareAndSwap(t)
    case Constructing => New(t, p)
    case Constructed(_) => Store(t)
    case Registering => Register(t)
    case Reading => Return(t)
    case Spinning =>
      if s.word != CREATING then Spin(t) else if PcOf(s, u).Constructing? then New(u, p) else Store(u)
  }

  /** How many steps the call of t still takes, if it waits for u. */
  function StepsLeft(s: State, t: Thread, u: Thread): nat
  {
    match PcOf(s, t)
    case Idle => 6
    case TryCreate => 5
    case Constructing => 4
    case Constructed(_) => 3
    case Registering => 2
    case Reading => 1
    case Spinning => if s.word != CREATING then 2 else if PcOf(s, u).Constructing? then 4 else 3
  }

  lemma StepTowards(s: State, t: Thread, u: Thread, p: int)
    requires Inv(s) && Created(p) && (s.word == CREATING ==> Creator(PcOf(s, u)))
    ensures var step := Towards(s, t, u, p);
        Enabled(s, step) && StepsLeft(s, t, u) > 0 && (step != Return(t) ==> StepsLeft(Apply(s, step), t, u) < StepsLeft(s, t, u))
        && (step != Return(t) && Apply(s, step).word == CREATING && s.word == CREATING ==> Creator(PcOf(Apply(s, step), u)))
  {
  }

  lemma Append(states: seq<State>, steps: seq<Step>, step: Step)
    requires Run(states, steps) && Enabled(states[|steps|], step)
    ensures Run(states + [Apply(states[|steps|], step)], steps + [step])
  {
    var more, moreSteps := states + [Apply(states[|steps|], step)], steps + [step];
    forall i | 0 <= i < |moreSteps|
      ensures Enabled(more[i], moreSteps[i]) && more[i + 1] == Apply(more[i], moreSteps[i])
    {
      if i < |steps| {
        assert more[i] == states[i] && more[i + 1] == states[i + 1] && moreSteps[i] == steps[i];
      }
    }
  }

  lemma {:induction false} ReturnFor(states: seq<State>, steps: seq<Step>, t: Thread, u: Thread, p: int)
      returns (more: seq<State>, moreSteps: seq<Step>)
    requires Run(states, steps) && Created(p) && (states[|steps|].word == CREATING ==> Creator(PcOf(states[|steps|], u)))
    ensures Run(more, moreSteps) && |steps| < |moreSteps| <= |steps| + StepsLeft(states[|steps|], t, u)
    ensures states == more[..|states|] && steps == moreSteps[..|steps|] && moreSteps[|moreSteps| - 1] == Return(t)
    ensures forall i :: |steps| <= i < |moreSteps| ==> By(moreSteps[i], t) || By(moreSteps[i], u)
    decreases StepsLeft(states[|steps|], t, u)
  {
    hide Apply, Enabled, Inv, StepsLeft, Init;
    var s := states[|steps|];
    var step := Towards(s, t, u, p);
    RunInv(states, steps, |steps|);
    StepTowards(s, t, u, p);
    var s' := Apply(s, step);
    Append(states, steps, step);
    var next, nextSteps := states + [s'], steps + [step];
    more, moreSteps := next, nextSteps;
    if step != Return(t) {
      var v := if s'.word == CREATING && s.word != CREATING then t else u;
      if s.word != CREATING {
        SwapWon(s, t, u, p);
      }
      more, moreSteps := ReturnFor(next, nextSteps, t, v, p);
      assert next == more[..|next|] && nextSteps == moreSteps[..|nextSteps|];
      assert more[..|states|] == next[..|states|] && moreSteps[..|steps|] == nextSteps[..|steps|];
      assert moreSteps[|steps|] == nextSteps[|steps|];
    }
  }

  /** Whoever brings the word to creating is the creator. */
  lemma SwapWon(s: State, t: Thread, u: Thread, p: int)
    requires Inv(s) && Created(p) && s.word != CREATING && Enabled(s, Towards(s, t, u, p))
    ensures var s' := Apply(s, Towards(s, t, u, p));
        s'.word == CREATING ==> Creator(PcOf(s', t)) && StepsLeft(s', t, t) == StepsLeft(s', t, u)
  {
  }

  /** No call waits for ever: after any run, every thread can return from Pointer() within six
      steps, which are its own and those of one other thread, the one that is creating. */
  lemma CanReturn(states: seq<State>, steps: seq<Step>, t: Thread, p: int) returns (u: Thread, more: seq<State>, moreSteps: seq<Step>)
    requires Run(states, steps) && Created(p)
    ensures Run(more, moreSteps) && |steps| < |moreSteps| <= |steps| + 6
    ensures states == more[..|states|] && steps == moreSteps[..|steps|] && moreSteps[|moreSteps| - 1] == Return(t)
    ensures forall i :: |steps| <= i < |moreSteps| ==> By(moreSteps[i], t) || By(moreSteps[i], u)
    ensures u == t || (states[|steps|].word == CREATING && Creator(PcOf(states[|steps|], u)))
  {
    RunInv(states, steps, |steps|);
    u := t;
    if states[|steps|].word == CREATING {
      u :| Creator(PcOf(states[|steps|], u));
    }
    more, moreSteps := ReturnFor(states, steps, t, u, p);
  }
}
