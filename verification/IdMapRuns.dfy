// Runs of one IDMap with any number of iterators, nested or interleaved: between the calls
// of an iterator, ids are removed and replaced, and other iterators come, are copied and go.
module IdMapRuns {
  import opened DeferredRemoval
  import opened IdMap

  type Id = nat

  /** The fields of the map, and the position of each iterator that lives. */
  datatype State = State(store: Store, iters: map<Id, nat>)

  datatype Event =
    | Begin(it: Id)                    // Iterator::Iterator
    | Copy(it: Id, source: Id)         // the copy constructor
    | Advance(it: Id)
    | End(it: Id)                      // Iterator::~Iterator
    | AddNew(id: Key, d: Data, at: nat)
    | RemoveId(id: Key)
    | ReplaceId(id: Key, d: Data)
    | ClearAll

  predicate Init(s: State)
  {
    s.store == Store(map[], [], 0, {}, s.store.own) && s.iters == map[]
  }

  predicate Enabled(s: State, e: Event)
  {
    match e
    case Begin(it) => it !in s.iters
    case Copy(it, source) => it !in s.iters && source in s.iters
    case Advance(it) => it in s.iters && s.iters[it] < |s.store.order|
    case End(it) => it in s.iters && s.store.depth > 0
    case AddNew(id, d, at) => s.store.depth == 0 && id !in s.store.data && at <= |s.store.order|
    case _ => true
  }

  /** Where an iterator comes to rest when it looks from position k on. */
  function Rest(s: State, k: nat): nat
  {
    Skip(s.store.order, s.store.removed, k)
  }

  function Opened(s: State, it: Id, k: nat): State
  {
    State(s.store.(depth := s.store.depth + 1), s.iters[it := Rest(s, k)])
  }

  function Apply(s: State, e: Event): State
    requires Enabled(s, e)
  {
    match e
    case Begin(it) => Opened(s, it, 0)
    case Copy(it, source) => Opened(s, it, s.iters[source])
    case Advance(it) => s.(iters := s.iters[it := Rest(s, s.iters[it] + 1)])
    case End(it) => State(AfterClose(s.store), s.iters - {it})
    case AddNew(id, d, at) => s.(store := AfterAdd(s.store, id, d, at))
    case RemoveId(id) => s.(store := AfterRemove(s.store, id))
    case ReplaceId(id, d) => s.(store := AfterReplace(s.store, id, d))
    case ClearAll => s.(store := AfterClear(s.store))
  }

  // ------------------------------------------------------------ what every event keeps

  ghost predicate Inv(s: State)
  {
    Consistent(s.store) && s.store.depth == |s.iters| && forall it :: it in s.iters ==> s.iters[it] <= |s.store.order|
  }

  /** What an event does to a plain map that is changed at once. */
  function PlainMap(m: Table, e: Event, keepsOnClear: bool): Table
  {
    match e
    case AddNew(id, d, at) => m[id := d]
    case RemoveId(id) => m - {id}
    case ReplaceId(id, d) => if id in m then m[id := d] else m
    case ClearAll => if keepsOnClear then m else map[]
    case _ => m
  }

  /** The store stays consistent, and to its users it changes as a plain map would. */
  lemma StoreKept(s: State, e: Event)
    requires Consistent(s.store) && Enabled(s, e)
    ensures Consistent(Apply(s, e).store)
    ensures Shown(Apply(s, e).store) == PlainMap(Shown(s.store), e, s.store.depth == 0 && !s.store.own)
  {
    hide Lists, Kept, Without, Skip;
    match e
    case End(it) => CloseKeeps(s.store);
    case AddNew(id, d, at) => AddKeeps(s.store, id, d, at);
    case RemoveId(id) => RemoveKeeps(s.store, id);
    case ReplaceId(id, d) => ReplaceKeeps(s.store, id, d);
    case ClearAll => ClearKeeps(s.store);
    case _ =>
  }

  /** Under iteration the table keeps its ids and their order, and the ids that wait to be
      removed only become more, unless the last iterator goes. */
  lemma TableStaysOneStep(s: State, e: Event)
    requires Inv(s) && Enabled(s, e) && s.store.depth > 0 && Apply(s, e).store.depth > 0
    ensures Apply(s, e).store.order == s.store.order && Apply(s, e).store.data.Keys == s.store.data.Keys
    ensures s.store.removed <= Apply(s, e).store.removed
    ensures forall id :: id in Apply(s, e).store.removed ==> id in s.store.removed || e == RemoveId(id) || e == ClearAll
  {
    hide Lists, Kept, Without;
  }

  /** Every event keeps the invariant. */
  lemma EventKeeps(s: State, e: Event)
    requires Inv(s) && Enabled(s, e)
    ensures Inv(Apply(s, e))
  {
    hide Consistent, Shown, Lists, AfterClose, AfterAdd, AfterRemove, AfterReplace, AfterClear;
    StoreKept(s, e);
    DepthOf(s, e);
    var t := Apply(s, e);
    match e
    case Begin(it) => CountKeys(s.iters, it, Rest(s, 0));
    case Copy(it, source) => CountKeys(s.iters, it, Rest(s, s.iters[source]));
    case Advance(it) => CountKeys(s.iters, it, Rest(s, s.iters[it] + 1));
    case End(it) =>
      CountKeys(s.iters, it, s.iters[it]);
      if t.store.depth > 0 {
        TableStaysOneStep(s, e);
      }
    case _ =>
      if s.store.depth > 0 {
        TableStaysOneStep(s, e);
      }
  }

  lemma DepthOf(s: State, e: Event)
    requires Enabled(s, e)
    ensures Apply(s, e).store.depth == if e.Begin? || e.Copy? then s.store.depth + 1 else if e.End? then s.store.depth - 1 else s.store.depth
  {
  }

  /** Every event does to the map its users see what it would do to a plain map that is
      changed at once: deferring the removals is not visible. */
  lemma DeferralIsInvisible(s: State, e: Event)
    requires Inv(s) && Enabled(s, e)
    ensures Shown(Apply(s, e).store) == PlainMap(Shown(s.store), e, s.store.depth == 0 && !s.store.own)
  {
    StoreKept(s, e);
  }

  // ------------------------------------------------------------ whole runs

  ghost predicate Run(states: seq<State>, events: seq<Event>)
  {
    |states| == |events| + 1 && Init(states[0])
    && forall i :: 0 <= i < |events| ==> Enabled(states[i], events[i]) && states[i + 1] == Apply(states[i], events[i])
  }

  lemma {:induction false} RunInv(states: seq<State>, events: seq<Event>, i: nat)
    requires Run(states, events) && i <= |events|
    ensures Inv(states[i])
  {
    if i > 0 {
      RunInv(states, events, i - 1);
      EventKeeps(states[i - 1], events[i - 1]);
    }
  }

  /** Without iterators the table is what its users see: no removal waits. */
  lemma NothingWaitsAtRest(states: seq<State>, events: seq<Event>, i: nat)
    requires Run(states, events) && i <= |events| && states[i].iters == map[]
    ensures states[i].store.data == Shown(states[i].store) && |states[i].store.order| == |Shown(states[i].store)|
  {
    RunInv(states, events, i);
    MinusLaws(states[i].store.data, {}, 0);
  }

  /** Iterator it is made by event b, as new or as a copy, and does not go before event e. */
  ghost predicate Iteration(states: seq<State>, events: seq<Event>, it: Id, b: nat, e: nat)
    requires Run(states, events)
  {
    b < e <= |events| && (events[b] == Begin(it) || (events[b].Copy? && events[b].it == it))
    && forall k :: b < k < e ==> events[k] != End(it)
  }

  /** One step of an iteration: the table stays and the iterator's position does not go
      back; it moves only by Advance, over ids that wait to be removed and the one it was at. */
  lemma IteratorOneStep(s: State, e: Event, it: Id)
    requires Inv(s) && Enabled(s, e) && it in s.iters && e != End(it)
    ensures it in Apply(s, e).iters && Apply(s, e).store.depth > 0
    ensures Apply(s, e).store.order == s.store.order && Apply(s, e).store.data.Keys == s.store.data.Keys
    ensures s.store.removed <= Apply(s, e).store.removed
    ensures var p, q := s.iters[it], Apply(s, e).iters[it];
            if e == Advance(it) then p < q && q == Rest(s, p + 1) else p == q
  {
    hide Lists, Consistent, AfterAdd, AfterRemove, AfterReplace, AfterClear;
    EventKeeps(s, e);
    assert it in Apply(s, e).iters;
    assert |s.iters| > 0 && |Apply(s, e).iters| > 0;
    TableStaysOneStep(s, e);
  }

  /** Over any part of an iteration, with whatever iterators come and go in it, the table
      keeps its ids and their order, what waits to be removed goes on waiting, and the
      iterator does not go back. */
  lemma {:induction false} TableStays(states: seq<State>, events: seq<Event>, it: Id, b: nat, i: nat, j: nat)
    requires Run(states, events) && Iteration(states, events, it, b, j) && b < i <= j
    ensures it in states[i].iters && it in states[j].iters
    ensures states[i].store.order == states[j].store.order && states[i].store.data.Keys == states[j].store.data.Keys
    ensures states[i].store.removed <= states[j].store.removed
    ensures states[i].iters[it] <= states[j].iters[it] <= |states[j].store.order|
    ensures i < j && events[j - 1] == Advance(it) ==> states[i].iters[it] < states[j].iters[it]
    decreases j
  {
    hide Inv, Rest;
    RunInv(states, events, j);
    InvBounds(states[j]);
    var m := j - 1;
    assert states[j] == Apply(states[m], events[m]);
    if b < m {
      hide Apply, Enabled;
      assert Iteration(states, events, it, b, m);
      TableStays(states, events, it, b, if i == j then m else i, m);
      RunInv(states, events, m);
      IteratorOneStep(states[m], events[m], it);
    }
  }

  lemma InvBounds(s: State)
    requires Inv(s)
    ensures Lists(s.store.order, s.store.data)
    ensures forall it :: it in s.iters ==> s.iters[it] <= |s.store.order|
  {
  }

  /** Event i - 1 brings iterator it to an id: when it is made, or by Advance. */
  ghost predicate Visits(states: seq<State>, events: seq<Event>, it: Id, i: nat, id: Key)
    requires Run(states, events) && 0 < i <= |events|
  {
    (events[i - 1] == Begin(it) || (events[i - 1].Copy? && events[i - 1].it == it) || events[i - 1] == Advance(it))
    && it in states[i].iters && states[i].iters[it] < |states[i].store.order|
    && states[i].store.order[states[i].iters[it]] == id
  }

  /** An id that an iterator comes to is in the map as its users see it, and within an
      iteration the iterator comes to no id twice. */
  lemma VisitsLiveOnce(states: seq<State>, events: seq<Event>, it: Id, b: nat, i: nat, e: nat, id: Key)
    requires Run(states, events) && Iteration(states, events, it, b, e) && b < i <= e && Visits(states, events, it, i, id)
    ensures id in Shown(states[i].store)
    ensures forall j :: i < j <= e ==> !Visits(states, events, it, j, id)
  {
    hide Inv;
    assert Iteration(states, events, it, b, i);
    TableStays(states, events, it, b, i, i);
    RunInv(states, events, i);
    RunInv(states, events, i - 1);
    InvBounds(states[i]);
    ComesToLive(states[i - 1], events[i - 1], it);
    forall j | i < j <= e
      ensures !Visits(states, events, it, j, id)
    {
      assert Iteration(states, events, it, b, j);
      NoSecondVisit(states, events, it, b, i, j, id);
    }
  }

  lemma NoSecondVisit(states: seq<State>, events: seq<Event>, it: Id, b: nat, i: nat, j: nat, id: Key)
    requires Run(states, events) && Iteration(states, events, it, b, j) && b < i < j && Visits(states, events, it, i, id)
    ensures !Visits(states, events, it, j, id)
  {
    hide Inv, Apply;
    assert Iteration(states, events, it, b, j - 1);
    TableStays(states, events, it, b, i, j);
    TableStays(states, events, it, b, i, j - 1);
    RunInv(states, events, j);
    InvBounds(states[j]);
  }

  /** An iterator that has just moved or been made is at an id that does not wait. */
  lemma ComesToLive(s: State, e: Event, it: Id)
    requires Inv(s) && Enabled(s, e)
    requires e == Begin(it) || (e.Copy? && e.it == it) || e == Advance(it)
    ensures Apply(s, e).store.removed == s.store.removed && Apply(s, e).store.order == s.store.order && it in Apply(s, e).iters
    ensures var p := Apply(s, e).iters[it]; p < |s.store.order| ==> s.store.order[p] !in s.store.removed
  {
  }

  /** From its first position on, the positions an iterator has passed were visited, or
      their ids are removed by now. */
  lemma {:induction false} BehindTheIterator(states: seq<State>, events: seq<Event>, it: Id, b: nat, j: nat, k: nat)
    requires Run(states, events) && Iteration(states, events, it, b, j)
    requires it in states[b + 1].iters && it in states[j].iters
    requires states[b + 1].iters[it] <= k < states[j].iters[it] && k < |states[j].store.order|
    ensures states[j].store.order[k] in states[j].store.removed
            || exists i :: b < i <= j && Visits(states, events, it, i, states[j].store.order[k])
    decreases j
  {
    hide Inv, Apply, Enabled, Visits;
    var m := j - 1;
    if b < m {
      assert Iteration(states, events, it, b, m);
      TableStays(states, events, it, b, m, j);
      TableStays(states, events, it, b, m, m);
      RunInv(states, events, m);
      IteratorOneStep(states[m], events[m], it);
      if k < states[m].iters[it] {
        BehindTheIterator(states, events, it, b, m, k);
      } else if k == states[m].iters[it] {
        AtTheIterator(states, events, it, b, m);
      }
    }
  }

  /** The position an iterator is at has been visited. */
  lemma {:induction false} AtTheIterator(states: seq<State>, events: seq<Event>, it: Id, b: nat, j: nat)
    requires Run(states, events) && Iteration(states, events, it, b, j)
    requires it in states[j].iters && states[j].iters[it] < |states[j].store.order|
    ensures exists i :: b < i <= j && Visits(states, events, it, i, states[j].store.order[states[j].iters[it]])
    decreases j
  {
    hide Inv, Apply, Enabled;
    if j == b + 1 || events[j - 1] == Advance(it) {
      assert Visits(states, events, it, j, states[j].store.order[states[j].iters[it]]);
    } else {
      var m := j - 1;
      assert Iteration(states, events, it, b, m);
      TableStays(states, events, it, b, m, j);
      RunInv(states, events, m);
      IteratorOneStep(states[m], events[m], it);
      AtTheIterator(states, events, it, b, m);
    }
  }

  /** Iterator it, made by event b, is at the end in state e. */
  ghost predicate AtEnd(states: seq<State>, events: seq<Event>, it: Id, b: nat, e: nat)
    requires Run(states, events)
  {
    Iteration(states, events, it, b, e) && it in states[e].iters && states[e].iters[it] == |states[e].store.order|
  }

  /** An iterator at the end has come exactly once to every id that is still live, from its
      first position on. */
  lemma LiveVisitedOnce(states: seq<State>, events: seq<Event>, it: Id, b: nat, e: nat, k: nat)
    requires Run(states, events) && AtEnd(states, events, it, b, e) && it in states[b + 1].iters
    requires states[b + 1].iters[it] <= k < |states[e].store.order| && states[e].store.order[k] in Shown(states[e].store)
    ensures exists i :: b < i <= e && Visits(states, events, it, i, states[e].store.order[k])
    ensures forall i, j :: b < i < j <= e && Visits(states, events, it, i, states[e].store.order[k]) ==> !Visits(states, events, it, j, states[e].store.order[k])
  {
    hide Inv, Apply, Enabled, Visits;
    BehindTheIterator(states, events, it, b, e, k);
    var id := states[e].store.order[k];
    forall i, j | b < i < j <= e && Visits(states, events, it, i, id)
      ensures !Visits(states, events, it, j, id)
    {
      VisitsLiveOnce(states, events, it, b, i, e, id);
    }
  }

  /** No event of (b, e) removes the id. */
  ghost predicate NeverRemoved(events: seq<Event>, id: Key, b: nat, e: nat)
    requires e <= |events|
  {
    forall i :: b < i < e ==> events[i] != RemoveId(id) && events[i] != ClearAll
  }

  /** An id that no one removes during an iteration is live to its end. */
  lemma {:induction false} StaysLive(states: seq<State>, events: seq<Event>, it: Id, b: nat, e: nat, id: Key)
    requires Run(states, events) && Iteration(states, events, it, b, e) && NeverRemoved(events, id, b, e)
    requires id in Shown(states[b].store)
    ensures id in Shown(states[e].store)
    decreases e
  {
    hide Inv, Consistent;
    var m := e - 1;
    RunInv(states, events, m);
    DeferralIsInvisible(states[m], events[m]);
    if b < m {
      assert Iteration(states, events, it, b, m) && NeverRemoved(events, id, b, m);
      StaysLive(states, events, it, b, m, id);
    }
  }

  /** An id that is in the map when an iterator is made, and is not removed before the
      iterator is at the end, has been visited by it, exactly once. */
  lemma NeverRemovedVisitedOnce(states: seq<State>, events: seq<Event>, it: Id, b: nat, e: nat, id: Key)
    requires Run(states, events) && AtEnd(states, events, it, b, e) && events[b] == Begin(it)
    requires id in Shown(states[b].store) && NeverRemoved(events, id, b, e)
    ensures exists i :: b < i <= e && Visits(states, events, it, i, id)
    ensures forall i, j :: b < i < j <= e && Visits(states, events, it, i, id) ==> !Visits(states, events, it, j, id)
  {
    hide Inv, Visits, Consistent;
    StaysLive(states, events, it, b, e, id);
    RunInv(states, events, e);
    InvBounds(states[e]);
    var k :| 0 <= k < |states[e].store.order| && states[e].store.order[k] == id;
    TableStays(states, events, it, b, b + 1, e);
    assert states[b + 1] == Apply(states[b], events[b]);
    LiveVisitedOnce(states, events, it, b, e, k);
  }

  // ------------------------------------------------------------ iterations can finish

  lemma Append(states: seq<State>, events: seq<Event>, e: Event)
    requires Run(states, events) && Enabled(states[|events|], e)
    ensures Run(states + [Apply(states[|events|], e)], events + [e])
  {
    hide Apply, Enabled, Init;
    var more, moreEvents := states + [Apply(states[|events|], e)], events + [e];
    forall i | 0 <= i < |moreEvents|
      ensures Enabled(more[i], moreEvents[i]) && more[i + 1] == Apply(more[i], moreEvents[i])
    {
      if i < |events| {
        assert more[i] == states[i] && more[i + 1] == states[i + 1] && moreEvents[i] == events[i];
      }
    }
  }

  /** The second run goes on from the first with the event e alone. */
  ghost predicate GoesOn(states: seq<State>, events: seq<Event>, more: seq<State>, moreEvents: seq<Event>, e: Event)
    requires |states| == |events| + 1
  {
    Run(more, moreEvents) && |events| <= |moreEvents| && states == more[..|states|] && events == moreEvents[..|events|]
    && forall i :: |events| <= i < |moreEvents| ==> moreEvents[i] == e
  }

  lemma AdvanceStep(s: State, it: Id)
    requires it in s.iters && s.iters[it] < |s.store.order|
    ensures Enabled(s, Advance(it)) && it in Apply(s, Advance(it)).iters
    ensures s.iters[it] < Apply(s, Advance(it)).iters[it] <= |s.store.order|
    ensures Apply(s, Advance(it)).store.order == s.store.order
  {
  }

  /** An iterator comes to the end when it alone goes on, whatever has happened before. */
  lemma {:induction false} CanFinish(states: seq<State>, events: seq<Event>, it: Id, b: nat) returns (more: seq<State>, moreEvents: seq<Event>)
    requires Run(states, events) && Iteration(states, events, it, b, |events|)
    requires var s := states[|events|]; it in s.iters && s.iters[it] <= |s.store.order|
    ensures GoesOn(states, events, more, moreEvents, Advance(it))
    ensures AtEnd(more, moreEvents, it, b, |moreEvents|)
    decreases |states[|events|].store.order| - states[|events|].iters[it]
  {
    hide Apply, Enabled, Init;
    var s := states[|events|];
    more, moreEvents := states, events;
    if s.iters[it] < |s.store.order| {
      AdvanceStep(s, it);
      Append(states, events, Advance(it));
      more, moreEvents := states + [Apply(s, Advance(it))], events + [Advance(it)];
      var last, lastEvents := CanFinish(more, moreEvents, it, b);
      assert more == last[..|more|] && moreEvents == lastEvents[..|moreEvents|];
      assert states == last[..|states|] && events == lastEvents[..|events|] && lastEvents[|events|] == Advance(it);
      more, moreEvents := last, lastEvents;
    }
  }

  lemma BeginStep(s: State, it: Id)
    requires it !in s.iters
    ensures Enabled(s, Begin(it)) && it in Apply(s, Begin(it)).iters && Apply(s, Begin(it)).iters[it] <= |Apply(s, Begin(it)).store.order|
  {
  }

  /** After any run a new iterator can visit every id of the map, come to the end, and be
      destroyed. */
  lemma CanVisitAll(states: seq<State>, events: seq<Event>, it: Id) returns (more: seq<State>, moreEvents: seq<Event>)
    requires Run(states, events) && it !in states[|events|].iters
    ensures Run(more, moreEvents) && |events| < |moreEvents| && states == more[..|states|] && events == moreEvents[..|events|]
    ensures moreEvents[|events|] == Begin(it) && AtEnd(more, moreEvents, it, |events|, |moreEvents|)
    ensures Enabled(more[|moreEvents|], End(it))
    ensures forall id :: id in Shown(states[|events|].store) ==>
        exists i :: |events| < i <= |moreEvents| && Visits(more, moreEvents, it, i, id)
  {
    hide Apply, Init, Shown, Visits, Consistent;
    var b, s := |events|, states[|events|];
    BeginStep(s, it);
    Append(states, events, Begin(it));
    more, moreEvents := CanFinish(states + [Apply(s, Begin(it))], events + [Begin(it)], it, b);
    RunInv(more, moreEvents, |moreEvents|);
    assert |more[|moreEvents|].iters| > 0;
    forall id | id in Shown(s.store)
      ensures exists i :: b < i <= |moreEvents| && Visits(more, moreEvents, it, i, id)
    {
      assert more[b] == s && NeverRemoved(moreEvents, id, b, |moreEvents|);
      NeverRemovedVisitedOnce(more, moreEvents, it, b, |moreEvents|, id);
    }
  }
}
