// Runs of one ObserverListBase with any number of iterators, nested or interleaved:
// between the calls of an iterator, observers are added and removed and other
// iterators come and go.
module ObserverListRuns {
  import opened DeferredRemoval
  import opened ObserverList

  type Id = nat

  datatype State = State(
    slots: seq<Option<Observer>>,
    depth: nat,
    alive: bool,
    notifyAll: bool,
    cursors: map<Id, Cursor>)

  datatype Event =
    | Begin(id: Id)          // Iterator::Iterator
    | Next(id: Id)           // GetNext
    | End(id: Id)            // Iterator::~Iterator
    | Add(obs: Observer)
    | Remove(obs: Observer)
    | Clear
    | Destroy                // ~ObserverListBase

  predicate Init(s: State)
  {
    s.slots == [] && s.depth == 0 && s.alive && s.cursors == map[]
  }

  predicate Enabled(s: State, e: Event)
  {
    match e
    case Begin(id) => s.alive && id !in s.cursors
    case Next(id) => id in s.cursors
    case End(id) => id in s.cursors && (s.alive ==> s.depth > 0)
    case Add(obs) => s.alive && |s.slots| < SIZE_MAX
    case Remove(obs) => s.alive
    case Clear => s.alive
    case Destroy => s.alive
  }

  function Apply(s: State, e: Event): State
    requires Enabled(s, e)
  {
    match e
    case Begin(id) => s.(cursors := s.cursors[id := Start(s.slots, s.notifyAll)], depth := s.depth + 1)
    case Next(id) => if s.alive then s.(cursors := s.cursors[id := Advanced(s.slots, s.cursors[id])]) else s
    case End(id) =>
      var t := s.(cursors := s.cursors - {id});
      if s.alive then t.(depth := s.depth - 1, slots := Closed(s.slots, s.depth - 1)) else t
    case Add(obs) => s.(slots := Added(s.slots, obs))
    case Remove(obs) => s.(slots := Removed(s.slots, obs, s.depth))
    case Clear => s.(slots := Cleared(s.slots, s.depth))
    case Destroy => s.(alive := false)
  }

  /** The slot that an event delivers to iterator id. */
  function SlotOf(s: State, e: Event, id: Id): (r: Option<nat>)
    requires Enabled(s, e)
    ensures r.Some? ==> r.value < |s.slots| && s.slots[r.value].Some?
  {
    if e == Next(id) && s.alive then Delivered(s.slots, s.cursors[id]) else None
  }

  // ------------------------------------------------------------ what every event keeps

  ghost predicate Inv(s: State)
  {
    Distinct(s.slots) && (s.alive ==> s.depth == |s.cursors|) && (s.depth == 0 ==> Full(s.slots))
  }

  /** The observers of the list: those added and not yet removed, oldest first. */
  function Observers(s: State): seq<Observer>
  {
    Live(s.slots)
  }

  /** What an event does to a plain list that is changed at once. */
  function PlainList(list: seq<Observer>, e: Event): seq<Observer>
  {
    match e
    case Add(obs) => if obs in list then list else list + [obs]
    case Remove(obs) => Without(list, obs)
    case Clear => []
    case _ => list
  }

  lemma AddedKeeps(slots: seq<Option<Observer>>, obs: Observer)
    requires Distinct(slots)
    ensures Distinct(Added(slots, obs)) && SlotsKeep(slots, Added(slots, obs))
    ensures Full(slots) ==> Full(Added(slots, obs))
    ensures Live(Added(slots, obs)) == PlainList(Live(slots), Add(obs))
  {
    LiveMember(slots, obs);
    LiveAppend(slots, [Some(obs)]);
    assert Live([Some(obs)]) == [obs];
  }

  lemma RemovedKeeps(slots: seq<Option<Observer>>, obs: Observer, depth: nat)
    requires Distinct(slots)
    ensures Distinct(Removed(slots, obs, depth))
    ensures depth > 0 ==> SlotsKeep(slots, Removed(slots, obs, depth))
    ensures depth == 0 && Full(slots) ==> Full(Removed(slots, obs, depth))
    ensures Live(Removed(slots, obs, depth)) == Without(Live(slots), obs)
  {
    hide Live, Without;
    var k := IndexOf(slots, obs);
    if k < |slots| {
      RemovedFromLive(slots, k);
    } else {
      LiveMember(slots, obs);
      WithoutAbsent(Live(slots), obs);
    }
  }

  lemma ClearedKeeps(slots: seq<Option<Observer>>, depth: nat)
    ensures Distinct(Cleared(slots, depth)) && Live(Cleared(slots, depth)) == []
    ensures depth > 0 ==> SlotsKeep(slots, Cleared(slots, depth))
    ensures depth == 0 ==> Full(Cleared(slots, depth))
  {
    NothingLive(Cleared(slots, depth));
  }

  lemma ClosedKeeps(slots: seq<Option<Observer>>, depth: nat)
    requires Distinct(slots)
    ensures Distinct(Closed(slots, depth)) && Live(Closed(slots, depth)) == Live(slots)
    ensures depth == 0 ==> Full(Closed(slots, depth))
    ensures depth > 0 ==> SlotsKeep(slots, Closed(slots, depth))
  {
    CompactedIsFull(slots);
    CompactedDistinct(slots);
  }

  lemma SlotsKept(s: State, e: Event)
    requires Distinct(s.slots) && (s.depth == 0 ==> Full(s.slots)) && Enabled(s, e)
    ensures Distinct(Apply(s, e).slots) && (Apply(s, e).depth == 0 ==> Full(Apply(s, e).slots))
  {
    hide Live, Distinct, Full, Added, Removed, Cleared, Closed, Advanced, Start, SlotsKeep;
    match e
    case Add(obs) => AddedKeeps(s.slots, obs);
    case Remove(obs) => RemovedKeeps(s.slots, obs, s.depth);
    case Clear => ClearedKeeps(s.slots, s.depth);
    case End(id) =>
      if s.alive {
        ClosedKeeps(s.slots, s.depth - 1);
      }
    case _ =>
  }

  /** Every event keeps the invariant. */
  lemma EventKeeps(s: State, e: Event)
    requires Inv(s) && Enabled(s, e)
    ensures Inv(Apply(s, e))
  {
    hide Live, Distinct, Full, Added, Removed, Cleared, Closed, Advanced, Start, SlotsKeep;
    SlotsKept(s, e);
    match e
    case Begin(id) => CountKeys(s.cursors, id, Start(s.slots, s.notifyAll));
    case Next(id) => CountKeys(s.cursors, id, Advanced(s.slots, s.cursors[id]));
    case End(id) => CountKeys(s.cursors, id, s.cursors[id]);
    case _ =>
  }

  /** Every event does to the observers what it would do to a plain list that is changed
      at once: deferring the removals is not visible. */
  lemma DeferralIsInvisible(s: State, e: Event)
    requires Inv(s) && Enabled(s, e)
    ensures Observers(Apply(s, e)) == PlainList(Observers(s), e)
  {
    hide Live, Without, Distinct, Full, Added, Removed, Cleared, Closed, Advanced, Start, SlotsKeep;
    match e
    case Add(obs) => AddedKeeps(s.slots, obs);
    case Remove(obs) => RemovedKeeps(s.slots, obs, s.depth);
    case Clear => ClearedKeeps(s.slots, s.depth);
    case End(id) =>
      if s.alive {
        ClosedKeeps(s.slots, s.depth - 1);
      }
    case _ =>
  }

  /** While an iterator lives and the list does, slots do not move: they only turn null
      or are appended; and the cursor of the iterator only moves forward. */
  lemma SlotsStayOneStep(s: State, e: Event, id: Id)
    requires Inv(s) && Enabled(s, e)
    requires id in s.cursors && Apply(s, e).alive && e != End(id)
    ensures SlotsKeep(s.slots, Apply(s, e).slots)
    ensures id in Apply(s, e).cursors && Apply(s, e).cursors[id].limit == s.cursors[id].limit
    ensures s.cursors[id].index <= Apply(s, e).cursors[id].index
    ensures s.cursors[id].index <= |s.slots| ==> Apply(s, e).cursors[id].index <= |Apply(s, e).slots|
    ensures |Apply(s, e).slots| > |s.slots| ==> Apply(s, e).cursors[id] == s.cursors[id]
    ensures var k := SlotOf(s, e, id); k.Some? ==> s.cursors[id].index <= k.value < Apply(s, e).cursors[id].index
  {
    hide Live, Distinct, Full, Added, Removed, Cleared, Closed, Start;
    assert |s.cursors| > 0;
    match e
    case Add(obs) => AddedKeeps(s.slots, obs);
    case Remove(obs) => RemovedKeeps(s.slots, obs, s.depth);
    case Clear => ClearedKeeps(s.slots, s.depth);
    case End(other) =>
      assert id in (s.cursors - {other}).Keys;
      assert s.cursors.Keys == (s.cursors - {other}).Keys + {other};
      ClosedKeeps(s.slots, s.depth - 1);
    case _ =>
  }

  // ------------------------------------------------------------ whole runs

  ghost predicate Run(states: seq<State>, events: seq<Event>)
  {
    |states| == |events| + 1 && Init(states[0])
    && forall i :: 0 <= i < |events| ==> Enabled(states[i], events[i]) && states[i + 1] == Apply(states[i], events[i])
  }

  lemma {:induction false} RunInv(states: seq<State>, events: seq<Event>, i: nat)
    requires Run(states, events) && i <= |events|
    ensures Inv(states[i])
  {
    if i > 0 {
      RunInv(states, events, i - 1);
      EventKeeps(states[i - 1], events[i - 1]);
    }
  }

  /** The vector never outgrows size_t, so the limit of NOTIFY_ALL is never reached. */
  lemma {:induction false} SizeFits(states: seq<State>, events: seq<Event>, i: nat)
    requires Run(states, events) && i <= |events|
    ensures |states[i].slots| <= SIZE_MAX
  {
    if i > 0 {
      SizeFits(states, events, i - 1);
    }
  }

  /** Iterator id begins at event b and neither it nor the list ends before event e. */
  ghost predicate Iteration(states: seq<State>, events: seq<Event>, id: Id, b: nat, e: nat)
    requires Run(states, events)
  {
    b < e <= |events| && events[b] == Begin(id)
    && (forall k :: b < k < e ==> events[k] != End(id)) && forall k :: b < k <= e ==> states[k].alive
  }

  /** Event i of the run returns slot k to iterator id. */
  ghost predicate Returns(states: seq<State>, events: seq<Event>, id: Id, i: nat, k: nat)
    requires Run(states, events) && i < |events|
  {
    SlotOf(states[i], events[i], id) == Some(k)
  }

  lemma Begins(states: seq<State>, events: seq<Event>, id: Id, b: nat, e: nat)
    requires Run(states, events) && Iteration(states, events, id, b, e)
    ensures states[b].alive && states[b + 1].slots == states[b].slots
    ensures id in states[b + 1].cursors && states[b + 1].cursors[id] == Start(states[b].slots, states[b].notifyAll)
    ensures id !in states[b].cursors
  {
  }

  lemma SlotsKeepTransitive<T>(x: seq<Option<T>>, y: seq<Option<T>>, z: seq<Option<T>>)
    requires SlotsKeep(x, y) && SlotsKeep(y, z)
    ensures SlotsKeep(x, z)
  {
  }

  /** Slots do not move and the cursor does not go back, over any part of an iteration. */
  lemma {:induction false} SlotsStay(states: seq<State>, events: seq<Event>, id: Id, b: nat, i: nat, j: nat)
    requires Run(states, events) && Iteration(states, events, id, b, j) && b < i <= j
    ensures SlotsKeep(states[i].slots, states[j].slots)
    ensures id in states[i].cursors && id in states[j].cursors
    ensures states[i].cursors[id].index <= states[j].cursors[id].index
    ensures states[i].cursors[id].limit == states[j].cursors[id].limit == Start(states[b].slots, states[b].notifyAll).limit
    ensures states[j].cursors[id].index <= |states[j].slots|
    decreases j
  {
    hide Inv, Apply, Enabled, SlotsKeep, Start, SlotOf;
    if j == b + 1 {
      Begins(states, events, id, b, j);
      StartsAtZero(states[b].slots, states[b].notifyAll);
      SlotsKeepSelf(states[j].slots);
    } else {
      var m := j - 1;
      assert Iteration(states, events, id, b, m);
      SlotsStay(states, events, id, b, if i == j then m else i, m);
      RunInv(states, events, m);
      SlotsStayOneStep(states[m], events[m], id);
      if i == j {
        SlotsKeepSelf(states[j].slots);
      } else {
        SlotsKeepTransitive(states[i].slots, states[m].slots, states[j].slots);
      }
    }
  }

  lemma SlotsKeepSelf<T>(x: seq<Option<T>>)
    ensures SlotsKeep(x, x)
  {
  }

  /** An event that returns slot k moves the cursor over k and not over an entry before it. */
  lemma ReturnedSlot(states: seq<State>, events: seq<Event>, id: Id, b: nat, i: nat, k: nat)
    requires Run(states, events) && Iteration(states, events, id, b, i + 1) && b < i
    requires Returns(states, events, id, i, k)
    ensures id in states[i].cursors && id in states[i + 1].cursors
    ensures states[i].cursors[id].index <= k < states[i + 1].cursors[id].index
    ensures k < states[i].cursors[id].limit
  {
    hide Inv, Apply, Enabled, SlotsKeep, Start;
    assert Iteration(states, events, id, b, i);
    SlotsStay(states, events, id, b, i, i);
    RunInv(states, events, i);
    assert states[i + 1].alive && states[i + 1] == Apply(states[i], events[i]);
    SlotsStayOneStep(states[i], events[i], id);
  }

  /** An iterator returns a slot at most once, and slots in increasing order. */
  lemma ReturnedInOrder(states: seq<State>, events: seq<Event>, id: Id, b: nat, i: nat, j: nat, k: nat, m: nat)
    requires Run(states, events) && Iteration(states, events, id, b, j + 1) && b < i < j
    requires Returns(states, events, id, i, k) && Returns(states, events, id, j, m)
    ensures k < m
  {
    hide Inv, Apply, Enabled, SlotsKeep, Start, SlotOf;
    assert Iteration(states, events, id, b, i + 1) && Iteration(states, events, id, b, j);
    ReturnedSlot(states, events, id, b, i, k);
    ReturnedSlot(states, events, id, b, j, m);
    SlotsStay(states, events, id, b, i + 1, j);
  }

  /** What GetNext passes over without returning it was null. */
  lemma PassedOverNull(s: State, e: Event, id: Id, k: nat)
    requires Inv(s) && Enabled(s, e) && id in s.cursors && s.alive && e != End(id) && Apply(s, e).alive
    requires s.cursors[id].index <= k < |s.slots|
    requires id in Apply(s, e).cursors && k < Apply(s, e).cursors[id].index
    ensures SlotOf(s, e, id) == Some(k) || s.slots[k].None?
  {
  }

  /** Every slot behind the cursor has been returned, or is null by now. */
  lemma {:induction false} BehindTheCursor(states: seq<State>, events: seq<Event>, id: Id, b: nat, j: nat, k: nat)
    requires Run(states, events) && Iteration(states, events, id, b, j)
    requires id in states[j].cursors && k < states[j].cursors[id].index && k < |states[j].slots|
    ensures states[j].slots[k].None? || exists i :: b < i < j && Returns(states, events, id, i, k)
    decreases j
  {
    hide Inv, Apply, Enabled, Start, SlotOf, Returns;
    if j == b + 1 {
      Begins(states, events, id, b, j);
      StartsAtZero(states[b].slots, states[b].notifyAll);
    } else {
      var m := j - 1;
      assert Iteration(states, events, id, b, m);
      SlotsStay(states, events, id, b, m, j);
      SlotsStay(states, events, id, b, m, m);
      RunInv(states, events, m);
      SlotsStayOneStep(states[m], events[m], id);
      if k < |states[m].slots| {
        if k < states[m].cursors[id].index {
          BehindTheCursor(states, events, id, b, m, k);
        } else {
          PassedOverNull(states[m], events[m], id, k);
          assert SlotOf(states[m], events[m], id) == Some(k) ==> Returns(states, events, id, m, k) by { ReturnsDef(states, events, id, m, k); }
        }
      }
    }
  }

  lemma StartsAtZero(slots: seq<Option<Observer>>, notifyAll: bool)
    ensures Start(slots, notifyAll).index == 0
  {
  }

  lemma ReturnsDef(states: seq<State>, events: seq<Event>, id: Id, i: nat, k: nat)
    requires Run(states, events) && i < |events|
    ensures Returns(states, events, id, i, k) <==> SlotOf(states[i], events[i], id) == Some(k)
  {
  }

  /** GetNext returns null to iterator id at event e: the notification is over. */
  ghost predicate Finishes(states: seq<State>, events: seq<Event>, id: Id, b: nat, e: nat)
    requires Run(states, events)
  {
    e < |events| && Iteration(states, events, id, b, e) && events[e] == Next(id) && SlotOf(states[e], events[e], id) == None
  }

  /** The last GetNext has passed every slot below the limit. */
  lemma NothingLeft(s: State, id: Id, k: nat)
    requires id in s.cursors && s.alive && Enabled(s, Next(id)) && SlotOf(s, Next(id), id) == None
    requires s.cursors[id].index <= k < |s.slots| && k < s.cursors[id].limit
    ensures s.slots[k].None?
  {
  }

  /** The observer that was in slot k for the whole of an iteration is returned from it
      exactly once: for NOTIFY_ALL any slot, otherwise the slots there at the start. */
  lemma SlotReturnedExactlyOnce(states: seq<State>, events: seq<Event>, id: Id, b: nat, e: nat, k: nat)
    requires Run(states, events) && Finishes(states, events, id, b, e)
    requires k < |states[e].slots| && states[e].slots[k].Some?
    requires k < Start(states[b].slots, states[b].notifyAll).limit
    ensures exists i :: b < i < e && Returns(states, events, id, i, k)
    ensures forall i, j :: b < i <= e && b < j <= e && Returns(states, events, id, i, k) && Returns(states, events, id, j, k) ==> i == j
  {
    hide Inv, Apply, Enabled, Start, SlotOf, Returns;
    SlotsStay(states, events, id, b, e, e);
    if states[e].cursors[id].index <= k {
      NothingLeft(states[e], id, k);
    } else {
      BehindTheCursor(states, events, id, b, e, k);
    }
    forall i, j | b < i < j <= e && Returns(states, events, id, i, k) && Returns(states, events, id, j, k)
      ensures false
    {
      ReturnsDef(states, events, id, j, k);
      if j < e {
        assert Iteration(states, events, id, b, j + 1);
        ReturnedInOrder(states, events, id, b, i, j, k, k);
      }
    }
  }

  /** No event of (b, e) removes observer obs. */
  ghost predicate NeverRemoved(events: seq<Event>, obs: Observer, b: nat, e: nat)
    requires e <= |events|
  {
    forall i :: b < i < e ==> events[i] != Remove(obs) && events[i] != Clear
  }

  lemma KeptOneStep(s: State, e: Event, id: Id, k: nat, obs: Observer)
    requires Inv(s) && Enabled(s, e) && id in s.cursors && Apply(s, e).alive && e != End(id)
    requires k < |s.slots| && s.slots[k] == Some(obs) && e != Remove(obs) && e != Clear
    ensures k < |Apply(s, e).slots| && Apply(s, e).slots[k] == Some(obs)
  {
    SlotsStayOneStep(s, e, id);
    match e
    case Remove(other) =>
    case End(other) =>
      assert |s.cursors - {other}| > 0 by {
        assert id in (s.cursors - {other}).Keys;
        CountKeys(s.cursors, other, s.cursors[other]);
      }
    case _ =>
  }

  /** An observer stays in its slot until it is removed. */
  lemma {:induction false} StaysInSlot(states: seq<State>, events: seq<Event>, id: Id, b: nat, i: nat, j: nat, k: nat, obs: Observer)
    requires Run(states, events) && Iteration(states, events, id, b, j) && b < i <= j && NeverRemoved(events, obs, b, j)
    requires k < |states[i].slots| && states[i].slots[k] == Some(obs)
    ensures k < |states[j].slots| && states[j].slots[k] == Some(obs)
    decreases j
  {
    hide Inv, Apply, Enabled, Start, SlotOf, Returns, SlotsKeep;
    if i < j {
      var m := j - 1;
      assert Iteration(states, events, id, b, m) && NeverRemoved(events, obs, b, m);
      StaysInSlot(states, events, id, b, i, m, k, obs);
      SlotsStay(states, events, id, b, m, m);
      RunInv(states, events, m);
      assert states[j].alive && states[j] == Apply(states[m], events[m]);
      KeptOneStep(states[m], events[m], id, k, obs);
    }
  }

  /** Event i hands observer obs to iterator id. */
  ghost predicate Notifies(states: seq<State>, events: seq<Event>, id: Id, i: nat, obs: Observer)
    requires Run(states, events) && i < |events|
  {
    var k := SlotOf(states[i], events[i], id);
    k.Some? && states[i].slots[k.value] == Some(obs)
  }

  /** In a run without null observers an observer is in one slot. */
  lemma OneSlot(s: State, k: nat, m: nat)
    requires Inv(s) && k < |s.slots| && m < |s.slots| && s.slots[k].Some? && s.slots[k] == s.slots[m]
    ensures k == m
  {
  }

  /** An observer registered when the iterator is made, and not removed before it has
      finished, is notified by it exactly once. */
  lemma PresentNotifiedExactlyOnce(states: seq<State>, events: seq<Event>, id: Id, b: nat, e: nat, obs: Observer)
    requires Run(states, events) && Finishes(states, events, id, b, e)
    requires obs in Observers(states[b]) && NeverRemoved(events, obs, b, e)
    ensures exists i :: b < i < e && Notifies(states, events, id, i, obs)
    ensures forall i, j :: b < i < e && b < j < e && Notifies(states, events, id, i, obs) && Notifies(states, events, id, j, obs) ==> i == j
  {
    hide Inv, Apply, Enabled, SlotOf, Returns, SlotsKeep, Live;
    LiveMember(states[b].slots, obs);
    SizeFits(states, events, b);
    var k :| 0 <= k < |states[b].slots| && states[b].slots[k] == Some(obs);
    Begins(states, events, id, b, e);
    StaysInSlot(states, events, id, b, b + 1, e, k, obs);
    SlotReturnedExactlyOnce(states, events, id, b, e, k);
    forall i | b < i < e
      ensures Notifies(states, events, id, i, obs) <==> Returns(states, events, id, i, k)
    {
      assert Iteration(states, events, id, b, i) && NeverRemoved(events, obs, b, i);
      StaysInSlot(states, events, id, b, b + 1, i, k, obs);
      RunInv(states, events, i);
      ReturnsDef(states, events, id, i, k);
      var m := SlotOf(states[i], events[i], id);
      if m.Some? && states[i].slots[m.value] == Some(obs) {
        OneSlot(states[i], k, m.value);
      }
    }
  }

  /** An iterator never notifies an observer that is not registered at that moment. */
  lemma OnlyRegisteredNotified(states: seq<State>, events: seq<Event>, id: Id, i: nat, obs: Observer)
    requires Run(states, events) && i < |events| && Notifies(states, events, id, i, obs)
    ensures obs in Observers(states[i])
  {
    LiveMember(states[i].slots, obs);
  }

  /** With NOTIFY_EXISTING_ONLY, what is notified was registered at the start. */
  lemma ExistingOnly(states: seq<State>, events: seq<Event>, id: Id, b: nat, i: nat, obs: Observer)
    requires Run(states, events) && i < |events| && Iteration(states, events, id, b, i + 1) && b < i
    requires !states[b].notifyAll && Notifies(states, events, id, i, obs)
    ensures obs in Observers(states[b])
  {
    hide Inv, Apply, Enabled, SlotOf, Returns, Live;
    var k := SlotOf(states[i], events[i], id).value;
    ReturnsDef(states, events, id, i, k);
    ReturnedSlot(states, events, id, b, i, k);
    assert Iteration(states, events, id, b, i);
    SlotsStay(states, events, id, b, b + 1, i);
    Begins(states, events, id, b, i);
    LiveMember(states[b].slots, obs);
    assert states[b].slots[k] == Some(obs);
  }

  /** With NOTIFY_ALL, an observer added during the iteration and not removed before its
      end is notified as well. */
  lemma AddedAreNotified(states: seq<State>, events: seq<Event>, id: Id, b: nat, e: nat, obs: Observer)
    requires Run(states, events) && Finishes(states, events, id, b, e)
    requires states[b].notifyAll && obs in Observers(states[e])
    ensures exists i :: b < i < e && Notifies(states, events, id, i, obs)
  {
    hide Inv, Apply, Enabled, SlotOf, Returns, Live;
    LiveMember(states[e].slots, obs);
    SizeFits(states, events, e);
    var k :| 0 <= k < |states[e].slots| && states[e].slots[k] == Some(obs);
    SlotReturnedExactlyOnce(states, events, id, b, e, k);
    var i :| b < i < e && Returns(states, events, id, i, k);
    ReturnsDef(states, events, id, i, k);
    SlotsStay(states, events, id, b, i, e);
    assert Notifies(states, events, id, i, obs);
  }

  /** At depth zero the vector holds just the registered observers, with no null. */
  lemma NullsGoneAtDepthZero(states: seq<State>, events: seq<Event>, i: nat)
    requires Run(states, events) && i <= |events| && states[i].depth == 0
    ensures |states[i].slots| == |Observers(states[i])|
    ensures forall k :: 0 <= k < |states[i].slots| ==> states[i].slots[k] == Some(Observers(states[i])[k])
  {
    RunInv(states, events, i);
    FullLive(states[i].slots);
  }

  // ------------------------------------------------------------ iterations can finish

  lemma Append(states: seq<State>, events: seq<Event>, e: Event)
    requires Run(states, events) && Enabled(states[|events|], e)
    ensures Run(states + [Apply(states[|events|], e)], events + [e])
  {
    hide Apply, Enabled, Init;
    var more, moreEvents := states + [Apply(states[|events|], e)], events + [e];
    forall i | 0 <= i < |moreEvents|
      ensures Enabled(more[i], moreEvents[i]) && more[i + 1] == Apply(more[i], moreEvents[i])
    {
      if i < |events| {
        assert more[i] == states[i] && more[i + 1] == states[i + 1] && moreEvents[i] == events[i];
      }
    }
  }

  /** The second run goes on from the first with the event e alone. */
  ghost predicate GoesOn(states: seq<State>, events: seq<Event>, more: seq<State>, moreEvents: seq<Event>, e: Event)
    requires |states| == |events| + 1
  {
    Run(more, moreEvents) && |events| <= |moreEvents| && states == more[..|states|] && events == moreEvents[..|events|]
    && forall i :: |events| <= i < |moreEvents| ==> moreEvents[i] == e
  }

  /** How many slots GetNext may still return. */
  function SlotsLeft(s: State, id: Id): nat
    requires id in s.cursors
  {
    if s.cursors[id].index < |s.slots| then |s.slots| - s.cursors[id].index else 0
  }

  lemma NextStep(s: State, id: Id)
    requires s.alive && id in s.cursors
    ensures Enabled(s, Next(id)) && Apply(s, Next(id)).alive && id in Apply(s, Next(id)).cursors
    ensures SlotOf(s, Next(id), id).Some? ==> SlotsLeft(Apply(s, Next(id)), id) < SlotsLeft(s, id)
  {
  }

  /** An iteration finishes when its iterator alone goes on, whatever has happened before. */
  lemma {:induction false} CanFinish(states: seq<State>, events: seq<Event>, id: Id, b: nat) returns (more: seq<State>, moreEvents: seq<Event>)
    requires Run(states, events) && Iteration(states, events, id, b, |events|)
    ensures GoesOn(states, events, more, moreEvents, Next(id)) && |events| < |moreEvents|
    ensures Finishes(more, moreEvents, id, b, |moreEvents| - 1)
    decreases var s := states[|events|]; if id in s.cursors then SlotsLeft(s, id) else 0
  {
    hide Apply, Enabled, Init, SlotsLeft, SlotOf;
    var s := states[|events|];
    SlotsStay(states, events, id, b, |events|, |events|);
    NextStep(s, id);
    Append(states, events, Next(id));
    more, moreEvents := states + [Apply(s, Next(id))], events + [Next(id)];
    if SlotOf(s, Next(id), id).Some? {
      var last, lastEvents := CanFinish(more, moreEvents, id, b);
      assert more == last[..|more|] && moreEvents == lastEvents[..|moreEvents|];
      assert states == last[..|states|] && events == lastEvents[..|events|] && lastEvents[|events|] == Next(id);
      more, moreEvents := last, lastEvents;
    }
  }

  lemma BeginStep(s: State, id: Id)
    requires s.alive && id !in s.cursors
    ensures Enabled(s, Begin(id)) && Apply(s, Begin(id)).alive
  {
  }

  /** A list that lives can be notified after any run: a new iterator finishes, and by then
      has notified each of the list's observers, and it can be destroyed. */
  lemma CanNotify(states: seq<State>, events: seq<Event>, id: Id) returns (more: seq<State>, moreEvents: seq<Event>)
    requires Run(states, events) && states[|events|].alive && id !in states[|events|].cursors
    ensures Run(more, moreEvents) && |events| < |moreEvents| && states == more[..|states|] && events == moreEvents[..|events|]
    ensures Finishes(more, moreEvents, id, |events|, |moreEvents| - 1) && Enabled(more[|moreEvents|], End(id))
    ensures forall obs :: obs in Observers(states[|events|]) ==>
        exists i :: |events| < i < |moreEvents| && Notifies(more, moreEvents, id, i, obs)
  {
    hide Apply, Init, SlotsLeft, SlotOf, Observers, Returns, Notifies;
    var b, s := |events|, states[|events|];
    BeginStep(s, id);
    Append(states, events, Begin(id));
    more, moreEvents := CanFinish(states + [Apply(s, Begin(id))], events + [Begin(id)], id, b);
    var e := |moreEvents| - 1;
    SlotsStay(more, moreEvents, id, b, e, e);
    NextStep(more[e], id);
    RunInv(more, moreEvents, |moreEvents|);
    assert |more[|moreEvents|].cursors| > 0;
    forall obs | obs in Observers(s)
      ensures exists i :: b < i < |moreEvents| && Notifies(more, moreEvents, id, i, obs)
    {
      assert more[b] == s && NeverRemoved(moreEvents, obs, b, e);
      PresentNotifiedExactlyOnce(more, moreEvents, id, b, e, obs);
    }
  }
}
