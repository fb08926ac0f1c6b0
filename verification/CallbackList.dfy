// CallbackListBase: callbacks in a linked list, removed by destroying the subscription.
// The list's iterators stay at the end once they reach it, which an index would not.
module CallbackList {
  import opened DeferredRemoval

  type Callback = nat
  type Id = nat

  /** A list node's entry; the subscription that owns it is known by its number. */
  datatype Entry = Entry(subscription: nat, callback: Callback)

  type Nodes = seq<Option<Entry>>

  /** A std::list iterator: at a node, or at the end. */
  datatype Place = At(k: nat) | End

  function Begin(nodes: Nodes): Place
  {
    if nodes == [] then End else At(0)
  }

  /** ++iter */
  function Next(nodes: Nodes, k: nat): Place
  {
    if k + 1 < |nodes| then At(k + 1) else End
  }

  /** Past the null callbacks. */
  function Skip(nodes: Nodes, p: Place): (r: Place)
    ensures p.At? && r.At? ==> p.k <= r.k && (p.k < |nodes| ==> r.k < |nodes|)
    ensures r.At? ==> p.At? && (r.k < |nodes| ==> nodes[r.k].Some?)
    decreases if p.At? then |nodes| - p.k else 0
  {
    if p.At? && p.k < |nodes| && nodes[p.k].None? then Skip(nodes, Next(nodes, p.k)) else p
  }

  /** The node whose callback GetNext returns, and where the iterator is then. */
  function Delivered(nodes: Nodes, p: Place): (r: Option<nat>)
    ensures r.Some? ==> r.value < |nodes| && nodes[r.value].Some? && p.At? && p.k <= r.value
  {
    var q := Skip(nodes, p);
    if q.At? && q.k < |nodes| then Some(q.k) else None
  }

  function Advanced(nodes: Nodes, p: Place): Place
  {
    var q := Skip(nodes, p);
    if q.At? && q.k < |nodes| then Next(nodes, q.k) else q
  }

  /** The node of a subscription, or the length. */
  function NodeOf(nodes: Nodes, subscription: nat): (k: nat)
    ensures k <= |nodes| && (k < |nodes| ==> nodes[k].Some? && nodes[k].value.subscription == subscription)
    ensures k == |nodes| ==> forall j :: 0 <= j < |nodes| && nodes[j].Some? ==> nodes[j].value.subscription != subscription
  {
    if nodes == [] || (nodes[0].Some? && nodes[0].value.subscription == subscription) then 0 else 1 + NodeOf(nodes[1..], subscription)
  }

  /** The list after the subscription of node k is destroyed. */
  function Dropped(nodes: Nodes, k: nat, active: nat): Nodes
    requires k < |nodes|
  {
    if active > 0 then nodes[k := None] else nodes[..k] + nodes[k + 1..]
  }

  lemma CompactedStep(nodes: Nodes, k: nat)
    requires k <= |nodes|
    ensures k == |nodes| ==> Compacted(nodes[k..]) == []
    ensures k < |nodes| ==> Compacted(nodes[k..]) == (if nodes[k].Some? then [nodes[k]] else []) + Compacted(nodes[k + 1..])
  {
    if k < |nodes| {
      assert nodes[k..][0] == nodes[k] && nodes[k..][1..] == nodes[k + 1..];
    }
  }

  lemma FullStep(nodes: Nodes, k: nat)
    requires k < |nodes|
    ensures Full(nodes[..k + 1]) <==> Full(nodes[..k]) && nodes[k].Some?
  {
    assert nodes[..k + 1] == nodes[..k] + [nodes[k]];
  }

  lemma NothingFull(nodes: Nodes)
    ensures Full(nodes[..0])
  {
  }

  function Closed(nodes: Nodes, active: nat): Nodes
  {
    if active == 0 then Compacted(nodes) else nodes
  }

  // ------------------------------------------------------------ the classes

  class CallbackListBase {
    var callbacks: Nodes
    var activeIteratorCount: nat
    var removalRuns: nat        // how often removal_callback_ has been run
    const hasRemovalCallback: bool

    constructor (hasRemovalCallback: bool)
      ensures callbacks == [] && activeIteratorCount == 0 && removalRuns == 0
    {
      callbacks, activeIteratorCount, removalRuns := [], 0, 0;
      this.hasRemovalCallback := hasRemovalCallback;
    }

    method Add(subscription: nat, cb: Callback)
      modifies `callbacks
      ensures callbacks == old(callbacks) + [Some(Entry(subscription, cb))]
    {
      callbacks := callbacks + [Some(Entry(subscription, cb))];
    }

    /** The destructor of a subscription. */
    method Unsubscribe(subscription: nat)
      requires NodeOf(callbacks, subscription) < |callbacks|
      modifies `callbacks, `removalRuns
      ensures callbacks == Dropped(old(callbacks), NodeOf(old(callbacks), subscription), activeIteratorCount)
      ensures removalRuns == old(removalRuns) + if activeIteratorCount == 0 && hasRemovalCallback then 1 else 0
    {
      var k := NodeOf(callbacks, subscription);
      if activeIteratorCount != 0 {
        callbacks := callbacks[k := None];
      } else {
        callbacks := callbacks[..k] + callbacks[k + 1..];
        if hasRemovalCallback {
          removalRuns := removalRuns + 1;
        }
      }
    }

    /** Compact: the removal callback is run once if any node goes. */
    method Compact()
      modifies `callbacks, `removalRuns
      ensures callbacks == Compacted(old(callbacks))
      ensures removalRuns == old(removalRuns) + if hasRemovalCallback && !Full(old(callbacks)) then 1 else 0
    {
      hide Compacted, Full;
      NothingFull(callbacks);
      var kept: Nodes := [];
      var it := 0;
      var updated := false;
      ghost var before := callbacks;
      assert before[0..] == before && kept + Compacted(before) == Compacted(before);
      while it < |callbacks|
        invariant it <= |callbacks| && callbacks == before && removalRuns == old(removalRuns)
        invariant kept + Compacted(before[it..]) == Compacted(before)
        invariant updated <==> !Full(before[..it])
      {
        ghost var front, rest := kept, Compacted(before[it + 1..]);
        FullStep(before, it);
        CompactedStep(before, it);
        if callbacks[it].None? {
          updated := true;
        } else {
          kept := kept + [callbacks[it]];
          assert kept + rest == front + ([callbacks[it]] + rest);
        }
        it := it + 1;
      }
      CompactedStep(before, it);
      assert kept + [] == kept && before[..it] == before;
      callbacks := kept;
      if updated && hasRemovalCallback {
        removalRuns := removalRuns + 1;
      }
    }
  }

  class Iterator {
    const list: CallbackListBase
    var listIter: Place

    constructor (list: CallbackListBase)
      modifies list`activeIteratorCount
      ensures this.list == list && listIter == Begin(list.callbacks)
      ensures list.activeIteratorCount == old(list.activeIteratorCount) + 1
    {
      this.list := list;
      listIter := Begin(list.callbacks);
      new;
      list.activeIteratorCount := list.activeIteratorCount + 1;
    }

    constructor Copy(iter: Iterator)
      modifies iter.list`activeIteratorCount
      ensures list == iter.list && listIter == iter.listIter
      ensures list.activeIteratorCount == old(iter.list.activeIteratorCount) + 1
    {
      list := iter.list;
      listIter := iter.listIter;
      new;
      list.activeIteratorCount := list.activeIteratorCount + 1;
    }

    method GetNext() returns (cb: Option<Callback>)
      requires listIter.At? ==> listIter.k < |list.callbacks|
      modifies `listIter
      ensures listIter == Advanced(list.callbacks, old(listIter))
      ensures listIter.At? ==> listIter.k < |list.callbacks|
      ensures var k := Delivered(list.callbacks, old(listIter)); cb == if k.Some? then Some(list.callbacks[k.value].value.callback) else None
    {
      var nodes := list.callbacks;
      while listIter != End && nodes[listIter.k] == None
        invariant listIter.At? ==> listIter.k < |nodes|
        invariant Skip(nodes, listIter) == old(Skip(nodes, listIter))
        decreases if listIter.At? then |nodes| - listIter.k else 0
      {
        listIter := Next(nodes, listIter.k);
      }
      cb := None;
      if listIter != End {
        cb := Some(nodes[listIter.k].value.callback);
        listIter := Next(nodes, listIter.k);
      }
    }

    /** The destructor. */
    method Close()
      requires list.activeIteratorCount > 0
      modifies list`activeIteratorCount, list`callbacks, list`removalRuns
      ensures list.activeIteratorCount == old(list.activeIteratorCount) - 1
      ensures list.callbacks == Closed(old(list.callbacks), list.activeIteratorCount)
      ensures var runs := list.activeIteratorCount == 0 && list.hasRemovalCallback && !Full(old(list.callbacks));
          list.removalRuns == old(list.removalRuns) + if runs then 1 else 0
    {
      list.activeIteratorCount := list.activeIteratorCount - 1;
      if list.activeIteratorCount == 0 {
        list.Compact();
      }
    }
  }

  // ------------------------------------------------------------ runs

  datatype State = State(nodes: Nodes, active: nat, places: map<Id, Place>)

  datatype Event =
    | Start(id: Id)
    | Copy(id: Id, source: Id)   // the copy constructor
    | GetNext(id: Id)
    | Close(id: Id)
    | Add(subscription: nat, callback: Callback)
    | Unsubscribe(subscription: nat)

  predicate Init(s: State)
  {
    s == State([], 0, map[])
  }

  /** A subscription is destroyed once, and its number is not used again while it lives. */
  predicate Enabled(s: State, e: Event)
  {
    match e
    case Start(id) => id !in s.places
    case Copy(id, source) => id !in s.places && source in s.places
    case GetNext(id) => id in s.places
    case Close(id) => id in s.places && s.active > 0
    case Add(subscription, callback) => NodeOf(s.nodes, subscription) == |s.nodes|
    case Unsubscribe(subscription) => NodeOf(s.nodes, subscription) < |s.nodes|
  }

  function Apply(s: State, e: Event): State
    requires Enabled(s, e)
  {
    match e
    case Start(id) => s.(places := s.places[id := Begin(s.nodes)], active := s.active + 1)
    case Copy(id, source) => s.(places := s.places[id := s.places[source]], active := s.active + 1)
    case GetNext(id) => s.(places := s.places[id := Advanced(s.nodes, s.places[id])])
    case Close(id) => State(Closed(s.nodes, s.active - 1), s.active - 1, s.places - {id})
    case Add(subscription, callback) => s.(nodes := s.nodes + [Some(Entry(subscription, callback))])
    case Unsubscribe(subscription) => s.(nodes := Dropped(s.nodes, NodeOf(s.nodes, subscription), s.active))
  }

  /** No two nodes belong to the same subscription. */
  ghost predicate Unique(nodes: Nodes)
  {
    forall i, j :: 0 <= i < j < |nodes| && nodes[i].Some? && nodes[j].Some? ==> nodes[i].value.subscription != nodes[j].value.subscription
  }

  ghost predicate Inv(s: State)
  {
    s.active == |s.places| && (s.active == 0 ==> Full(s.nodes)) && Unique(s.nodes)
    && forall id :: id in s.places && s.places[id].At? ==> s.places[id].k < |s.nodes|
  }

  /** What an event does to a plain list of entries that is changed at once. */
  function PlainList(list: seq<Entry>, e: Event): seq<Entry>
  {
    match e
    case Add(subscription, callback) => list + [Entry(subscription, callback)]
    case Unsubscribe(subscription) => Other(list, subscription)
    case _ => list
  }

  function Other(list: seq<Entry>, subscription: nat): seq<Entry>
  {
    if list == [] then []
    else (if list[0].subscription == subscription then [] else [list[0]]) + Other(list[1..], subscription)
  }

  // ------------------------------------------------------------ what every event keeps

  /** One entry at the head of the live ones, or none. */
  lemma LiveStep(nodes: Nodes)
    requires nodes != []
    ensures nodes[0].Some? ==> Live(nodes) == [nodes[0].value] + Live(nodes[1..]) && Live(nodes)[1..] == Live(nodes[1..])
    ensures nodes[0].None? ==> Live(nodes) == Live(nodes[1..])
  {
  }

  lemma {:induction false} NoneToDrop(nodes: Nodes, subscription: nat)
    requires forall j :: 0 <= j < |nodes| && nodes[j].Some? ==> nodes[j].value.subscription != subscription
    ensures Other(Live(nodes), subscription) == Live(nodes)
  {
    if nodes != [] {
      var tail := nodes[1..];
      assert forall j :: 0 <= j < |tail| ==> tail[j] == nodes[j + 1];
      NoneToDrop(tail, subscription);
      LiveStep(nodes);
    }
  }

  lemma {:induction false} DropIsOther(nodes: Nodes, k: nat)
    requires k < |nodes| && nodes[k].Some? && Unique(nodes)
    ensures Live(nodes[k := None]) == Other(Live(nodes), nodes[k].value.subscription)
  {
    var sub := nodes[k].value.subscription;
    var tail := nodes[1..];
    if k == 0 {
      assert nodes[0 := None][1..] == tail;
      assert forall j :: 0 <= j < |tail| ==> tail[j] == nodes[j + 1];
      NoneToDrop(tail, sub);
      LiveStep(nodes);
      LiveStep(nodes[0 := None]);
    } else {
      assert forall j :: 0 <= j < |tail| ==> tail[j] == nodes[j + 1];
      DropIsOther(tail, k - 1);
      assert nodes[k := None][1..] == tail[k - 1 := None];
      LiveStep(nodes);
      LiveStep(nodes[k := None]);
    }
  }

  lemma DroppedKeeps(nodes: Nodes, k: nat, active: nat)
    requires k < |nodes| && nodes[k].Some? && Unique(nodes)
    ensures Unique(Dropped(nodes, k, active)) && Live(Dropped(nodes, k, active)) == Other(Live(nodes), nodes[k].value.subscription)
    ensures active == 0 && Full(nodes) ==> Full(Dropped(nodes, k, active))
  {
    hide Live, Other;
    RemovalIsDeferred(nodes, k);
    DropIsOther(nodes, k);
  }

  lemma {:induction false} CompactedUnique(nodes: Nodes)
    requires Unique(nodes)
    ensures Unique(Compacted(nodes))
    ensures forall x :: x in Compacted(nodes) ==> x in nodes
  {
    if nodes != [] {
      var tail := nodes[1..];
      assert forall j :: 0 <= j < |tail| ==> tail[j] == nodes[j + 1];
      CompactedUnique(tail);
      if nodes[0].Some? {
        forall x | x in Compacted(tail) && x.Some?
          ensures x.value.subscription != nodes[0].value.subscription
        {
          var j :| 0 <= j < |tail| && tail[j] == x;
          assert nodes[j + 1] == x;
        }
        UniqueCons(nodes[0], Compacted(tail));
      } else {
        assert Compacted(nodes) == Compacted(tail);
      }
    }
  }

  lemma UniqueCons(x: Option<Entry>, rest: Nodes)
    requires Unique(rest) && x.Some? && forall y :: y in rest && y.Some? ==> y.value.subscription != x.value.subscription
    ensures Unique([x] + rest)
  {
    assert forall j :: 0 < j < |[x] + rest| ==> ([x] + rest)[j] == rest[j - 1];
  }

  lemma NodesKept(s: State, e: Event)
    requires Inv(s) && Enabled(s, e)
    ensures Unique(Apply(s, e).nodes) && (Apply(s, e).active == 0 ==> Full(Apply(s, e).nodes))
    ensures Live(Apply(s, e).nodes) == PlainList(Live(s.nodes), e)
  {
    hide Live, Other, Advanced, Compacted, NodeOf;
    match e
    case Add(subscription, callback) => AddKeeps(s.nodes, subscription, callback);
    case Unsubscribe(subscription) => DroppedKeeps(s.nodes, NodeOf(s.nodes, subscription), s.active);
    case Close(id) =>
      CompactedIsFull(s.nodes);
      CompactedUnique(s.nodes);
    case _ =>
  }

  lemma AddKeeps(nodes: Nodes, subscription: nat, callback: Callback)
    requires Unique(nodes) && NodeOf(nodes, subscription) == |nodes|
    ensures var r := nodes + [Some(Entry(subscription, callback))];
        Unique(r) && (Full(nodes) ==> Full(r)) && Live(r) == Live(nodes) + [Entry(subscription, callback)]
  {
    var x: Nodes := [Some(Entry(subscription, callback))];
    LiveAppend(nodes, x);
    assert Live(x) == [Entry(subscription, callback)] by { assert x[1..] == []; }
  }

  /** Every event does to the callbacks what it does to a plain list: that removals wait
      for the iterators is not visible. */
  lemma DeferralIsInvisible(s: State, e: Event)
    requires Inv(s) && Enabled(s, e)
    ensures Live(Apply(s, e).nodes) == PlainList(Live(s.nodes), e)
  {
    NodesKept(s, e);
  }

  lemma AdvancedInside(nodes: Nodes, p: Place)
    requires p.At? ==> p.k < |nodes|
    ensures Advanced(nodes, p).At? ==> Advanced(nodes, p).k < |nodes|
    ensures p.At? && Advanced(nodes, p).At? ==> p.k < Advanced(nodes, p).k
    ensures p == End ==> Advanced(nodes, p) == End
  {
  }

  lemma EventKeeps(s: State, e: Event)
    requires Inv(s) && Enabled(s, e)
    ensures Inv(Apply(s, e))
  {
    hide Unique, Full, Compacted, Advanced, NodeOf, Live;
    NodesKept(s, e);
    match e
    case Start(id) => CountKeys(s.places, id, Begin(s.nodes));
    case Copy(id, source) => CountKeys(s.places, id, s.places[source]);
    case GetNext(id) =>
      CountKeys(s.places, id, Advanced(s.nodes, s.places[id]));
      AdvancedInside(s.nodes, s.places[id]);
    case Close(id) => CountKeys(s.places, id, s.places[id]);
    case Unsubscribe(subscription) => assert s.active == 0 ==> s.places == map[];
    case _ =>
  }

  // ------------------------------------------------------------ whole runs

  ghost predicate Run(states: seq<State>, events: seq<Event>)
  {
    |states| == |events| + 1 && Init(states[0])
    && forall i :: 0 <= i < |events| ==> Enabled(states[i], events[i]) && states[i + 1] == Apply(states[i], events[i])
  }

  lemma {:induction false} RunInv(states: seq<State>, events: seq<Event>, i: nat)
    requires Run(states, events) && i <= |events|
    ensures Inv(states[i])
  {
    if i > 0 {
      RunInv(states, events, i - 1);
      EventKeeps(states[i - 1], events[i - 1]);
    }
  }

  /** Iterator id lives from state m to state e. */
  ghost predicate Alive(states: seq<State>, events: seq<Event>, id: Id, m: nat, e: nat)
    requires Run(states, events)
  {
    m <= e <= |events| && id in states[m].places && forall k :: m <= k < e ==> events[k] != Close(id)
  }

  /** Event i returns the callback of node k to iterator id. */
  ghost predicate Returns(states: seq<State>, events: seq<Event>, id: Id, i: nat, k: nat)
    requires Run(states, events) && i < |events|
  {
    events[i] == GetNext(id) && id in states[i].places && Delivered(states[i].nodes, states[i].places[id]) == Some(k)
  }

  /** Node k is still ahead of a place in a list of n nodes. */
  predicate Ahead(p: Place, k: nat)
  {
    p.At? && p.k <= k
  }

  /** While an iterator lives nodes keep their position, and what was passed stays passed. */
  lemma NodeStays(s: State, e: Event, id: Id, k: nat)
    requires Inv(s) && Enabled(s, e) && id in s.places && e != Close(id) && k < |s.nodes|
    ensures k < |Apply(s, e).nodes| && (Apply(s, e).nodes[k] == s.nodes[k] || Apply(s, e).nodes[k].None?)
    ensures id in Apply(s, e).places && (Ahead(Apply(s, e).places[id], k) ==> Ahead(s.places[id], k))
    ensures e != GetNext(id) ==> Apply(s, e).places[id] == s.places[id]
  {
    hide Unique, Full, Compacted, Advanced, NodeOf;
    AdvancedInside(s.nodes, s.places[id]);
    if e.Close? {
      assert id in (s.places - {e.id}).Keys;
      CountKeys(s.places, e.id, s.places[e.id]);
    }
    assert |s.places| > 0;
  }

  /** GetNext passes a node only if it is null or it returns it. */
  lemma PassedOrReturned(s: State, id: Id, k: nat)
    requires Inv(s) && id in s.places && k < |s.nodes| && Ahead(s.places[id], k)
    ensures Ahead(Advanced(s.nodes, s.places[id]), k) || s.nodes[k].None? || Delivered(s.nodes, s.places[id]) == Some(k)
    ensures Delivered(s.nodes, s.places[id]) == Some(k) ==> !Ahead(Advanced(s.nodes, s.places[id]), k)
    ensures Delivered(s.nodes, s.places[id]) == None && s.nodes[k].Some? ==> false
  {
    SkipPasses(s.nodes, s.places[id], k);
  }

  lemma {:induction false} SkipPasses(nodes: Nodes, p: Place, k: nat)
    requires p.At? && p.k <= k < |nodes|
    ensures Ahead(Skip(nodes, p), k) || nodes[k].None?
    ensures nodes[k].Some? ==> Skip(nodes, p).At?
    decreases |nodes| - p.k
  {
    if nodes[p.k].None? && p.k < k {
      SkipPasses(nodes, Next(nodes, p.k), k);
    }
  }

  /** A node that was ahead of the iterator is still ahead, or null, or has been returned. */
  lemma {:induction false} BehindTheIterator(states: seq<State>, events: seq<Event>, id: Id, m: nat, j: nat, k: nat)
    requires Run(states, events) && Alive(states, events, id, m, j)
    requires k < |states[m].nodes| && Ahead(states[m].places[id], k)
    ensures id in states[j].places && k < |states[j].nodes|
    ensures states[j].nodes[k] == states[m].nodes[k] || states[j].nodes[k].None?
    ensures Ahead(states[j].places[id], k) || states[j].nodes[k].None? || exists i :: m <= i < j && Returns(states, events, id, i, k)
    decreases j
  {
    hide Inv, Enabled, Delivered, Advanced;
    if m < j {
      var i := j - 1;
      BehindTheIterator(states, events, id, m, i, k);
      RunInv(states, events, i);
      NodeStays(states[i], events[i], id, k);
      if Ahead(states[i].places[id], k) && events[i] == GetNext(id) {
        PassedOrReturned(states[i], id, k);
        assert Delivered(states[i].nodes, states[i].places[id]) == Some(k) ==> Returns(states, events, id, i, k);
      }
    }
  }

  /** What an iterator has passed it does not return. */
  lemma {:induction false} NotReturnedAgain(states: seq<State>, events: seq<Event>, id: Id, m: nat, j: nat, k: nat)
    requires Run(states, events) && Alive(states, events, id, m, j) && j < |events|
    requires k < |states[m].nodes| && !Ahead(states[m].places[id], k)
    ensures id in states[j].places && k < |states[j].nodes| && !Ahead(states[j].places[id], k) && !Returns(states, events, id, j, k)
    decreases j
  {
    hide Inv, Enabled, Apply;
    if m < j {
      NotReturnedAgain(states, events, id, m, j - 1, k);
      RunInv(states, events, j - 1);
      NodeStays(states[j - 1], events[j - 1], id, k);
    }
  }

  /** GetNext returns NULL to iterator id at event e. */
  ghost predicate Finishes(states: seq<State>, events: seq<Event>, id: Id, m: nat, e: nat)
    requires Run(states, events)
  {
    e < |events| && Alive(states, events, id, m, e) && events[e] == GetNext(id)
    && id in states[e].places && Delivered(states[e].nodes, states[e].places[id]) == None
  }

  /** A callback that is ahead of an iterator, and not removed before the iterator has
      finished, is run by it exactly once from then on: all callbacks there when the
      iterator is made, and those added while it is not at the end. */
  lemma AheadRunExactlyOnce(states: seq<State>, events: seq<Event>, id: Id, m: nat, e: nat, k: nat)
    requires Run(states, events) && Finishes(states, events, id, m, e)
    requires k < |states[m].nodes| && Ahead(states[m].places[id], k) && k < |states[e].nodes| && states[e].nodes[k].Some?
    ensures exists i :: m <= i < e && Returns(states, events, id, i, k)
    ensures forall i, j :: m <= i < j <= e && Returns(states, events, id, i, k) ==> !Returns(states, events, id, j, k)
  {
    hide Inv, Enabled, Apply, Delivered;
    BehindTheIterator(states, events, id, m, e, k);
    RunInv(states, events, e);
    if Ahead(states[e].places[id], k) {
      PassedOrReturned(states[e], id, k);
    }
    forall i, j | m <= i < j <= e && Returns(states, events, id, i, k)
      ensures !Returns(states, events, id, j, k)
    {
      RunInv(states, events, i);
      BehindTheIterator(states, events, id, m, i, k);
      AfterReturn(states, events, id, m, i, k);
      assert Alive(states, events, id, i + 1, j);
      NotReturnedAgain(states, events, id, i + 1, j, k);
    }
  }

  lemma AfterReturn(states: seq<State>, events: seq<Event>, id: Id, m: nat, i: nat, k: nat)
    requires Run(states, events) && m <= i < |events| && Returns(states, events, id, i, k) && Inv(states[i]) && k < |states[i].nodes|
    ensures id in states[i + 1].places && k < |states[i + 1].nodes| && !Ahead(states[i + 1].places[id], k)
  {
    PassedOrReturned(states[i], id, k);
  }

  /** At the start every callback is ahead. */
  lemma AllAheadAtStart(s: State, id: Id, k: nat)
    requires Enabled(s, Start(id)) && k < |s.nodes|
    ensures Ahead(Apply(s, Start(id)).places[id], k) && Apply(s, Start(id)).nodes == s.nodes
  {
  }

  /** A callback whose subscription is not destroyed stays in its node. */
  lemma KeptOneStep(s: State, e: Event, id: Id, k: nat)
    requires Inv(s) && Enabled(s, e) && id in s.places && e != Close(id)
    requires k < |s.nodes| && s.nodes[k].Some? && e != Unsubscribe(s.nodes[k].value.subscription)
    ensures k < |Apply(s, e).nodes| && Apply(s, e).nodes[k] == s.nodes[k]
  {
    hide Full, Compacted, Advanced, Live;
    NodeStays(s, e, id, k);
    if e.Close? {
      assert id in Apply(s, e).places;
      EventKeeps(s, e);
      assert |Apply(s, e).places| > 0;
    }
  }

  /** No event of [m, e) destroys the subscription. */
  ghost predicate NeverUnsubscribed(events: seq<Event>, subscription: nat, m: nat, e: nat)
    requires e <= |events|
  {
    forall i :: m <= i < e ==> events[i] != Unsubscribe(subscription)
  }

  lemma {:induction false} StaysInNode(states: seq<State>, events: seq<Event>, id: Id, m: nat, j: nat, k: nat)
    requires Run(states, events) && Alive(states, events, id, m, j)
    requires k < |states[m].nodes| && states[m].nodes[k].Some?
    requires NeverUnsubscribed(events, states[m].nodes[k].value.subscription, m, j)
    ensures id in states[j].places && k < |states[j].nodes| && states[j].nodes[k] == states[m].nodes[k]
    decreases j
  {
    hide Inv, Enabled, Apply;
    if m < j {
      StaysInNode(states, events, id, m, j - 1, k);
      RunInv(states, events, j - 1);
      NodeStays(states[j - 1], events[j - 1], id, k);
      KeptOneStep(states[j - 1], events[j - 1], id, k);
    }
  }

  /** A callback that is in the list when an iterator is made, and whose subscription is not
      destroyed before the iterator has finished, is run by it exactly once. */
  lemma PresentRunExactlyOnce(states: seq<State>, events: seq<Event>, id: Id, b: nat, e: nat, k: nat)
    requires Run(states, events) && b < e < |events| && events[b] == Start(id) && Finishes(states, events, id, b + 1, e)
    requires k < |states[b].nodes| && states[b].nodes[k].Some?
    requires NeverUnsubscribed(events, states[b].nodes[k].value.subscription, b + 1, e)
    ensures exists i :: b < i < e && Returns(states, events, id, i, k)
    ensures forall i, j :: b < i < j <= e && Returns(states, events, id, i, k) ==> !Returns(states, events, id, j, k)
    ensures forall i :: b < i <= e ==> k < |states[i].nodes| && states[i].nodes[k] == states[b].nodes[k]
  {
    hide Inv, Apply, Delivered, Returns;
    assert states[b + 1] == Apply(states[b], events[b]);
    AllAheadAtStart(states[b], id, k);
    forall i | b < i <= e
      ensures k < |states[i].nodes| && states[i].nodes[k] == states[b].nodes[k]
    {
      StaysInNode(states, events, id, b + 1, i, k);
    }
    AheadRunExactlyOnce(states, events, id, b + 1, e, k);
  }

  /** A copy of an iterator runs, exactly once and whatever the original does meanwhile, the
      callbacks that were ahead of the original when it was made and whose subscriptions are
      not destroyed before it has finished; and none that was behind. */
  lemma CopyRunsWhatWasAhead(states: seq<State>, events: seq<Event>, id: Id, source: Id, b: nat, e: nat, k: nat)
    requires Run(states, events) && b < e < |events| && events[b] == Copy(id, source) && Finishes(states, events, id, b + 1, e)
    requires k < |states[b].nodes| && states[b].nodes[k].Some?
    requires NeverUnsubscribed(events, states[b].nodes[k].value.subscription, b + 1, e)
    ensures source in states[b].places
    ensures Ahead(states[b].places[source], k) <==> exists i :: b < i < e && Returns(states, events, id, i, k)
    ensures forall i, j :: b < i < j <= e && Returns(states, events, id, i, k) ==> !Returns(states, events, id, j, k)
  {
    hide Inv, Apply, Delivered, Returns;
    assert states[b + 1] == Apply(states[b], events[b]);
    CopyIsThere(states[b], id, source);
    if Ahead(states[b].places[source], k) {
      StaysInNode(states, events, id, b + 1, e, k);
      AheadRunExactlyOnce(states, events, id, b + 1, e, k);
    } else {
      forall i | b < i <= e
        ensures !Returns(states, events, id, i, k)
      {
        assert Alive(states, events, id, b + 1, i);
        NotReturnedAgain(states, events, id, b + 1, i, k);
      }
    }
  }

  lemma CopyIsThere(s: State, id: Id, source: Id)
    requires Enabled(s, Copy(id, source))
    ensures var t := Apply(s, Copy(id, source)); t.nodes == s.nodes && t.places == s.places[id := s.places[source]]
  {
  }

  /** A callback added while an iterator is at the end is never run by it, unlike one
      added before: the iterator does not see the new node. */
  lemma AddedAtEndNotRun(states: seq<State>, events: seq<Event>, id: Id, m: nat, j: nat)
    requires Run(states, events) && m < |events| && events[m].Add? && Alive(states, events, id, m, j) && m < j < |events|
    ensures states[m].places[id] == End ==> !Returns(states, events, id, j, |states[m].nodes|)
    ensures states[m].places[id].At? ==> Ahead(states[m + 1].places[id], |states[m].nodes|)
  {
    RunInv(states, events, m);
    if states[m].places[id] == End {
      assert Alive(states, events, id, m + 1, j);
      NotReturnedAgain(states, events, id, m + 1, j, |states[m].nodes|);
    }
  }

  /** Null callbacks are gone when the last iterator is. */
  lemma NullsGone(states: seq<State>, events: seq<Event>, i: nat)
    requires Run(states, events) && i <= |events| && states[i].active == 0
    ensures |states[i].nodes| == |Live(states[i].nodes)|
  {
    RunInv(states, events, i);
    FullLive(states[i].nodes);
  }

  // ------------------------------------------------------------ iterations can finish

  lemma Append(states: seq<State>, events: seq<Event>, e: Event)
    requires Run(states, events) && Enabled(states[|events|], e)
    ensures Run(states + [Apply(states[|events|], e)], events + [e])
  {
    hide Apply, Enabled, Init;
    var more, moreEvents := states + [Apply(states[|events|], e)], events + [e];
    forall i | 0 <= i < |moreEvents|
      ensures Enabled(more[i], moreEvents[i]) && more[i + 1] == Apply(more[i], moreEvents[i])
    {
      if i < |events| {
        assert more[i] == states[i] && more[i + 1] == states[i + 1] && moreEvents[i] == events[i];
      }
    }
  }

  /** The second run goes on from the first with the event e alone. */
  ghost predicate GoesOn(states: seq<State>, events: seq<Event>, more: seq<State>, moreEvents: seq<Event>, e: Event)
    requires |states| == |events| + 1
  {
    Run(more, moreEvents) && |events| <= |moreEvents| && states == more[..|states|] && events == moreEvents[..|events|]
    && forall i :: |events| <= i < |moreEvents| ==> moreEvents[i] == e
  }

  /** How many nodes GetNext may still return. */
  function NodesLeft(s: State, id: Id): nat
    requires id in s.places
  {
    if s.places[id].At? && s.places[id].k < |s.nodes| then |s.nodes| - s.places[id].k else 0
  }

  lemma NextStep(s: State, id: Id)
    requires id in s.places
    ensures Enabled(s, GetNext(id)) && id in Apply(s, GetNext(id)).places
    ensures Delivered(s.nodes, s.places[id]).Some? ==> NodesLeft(Apply(s, GetNext(id)), id) < NodesLeft(s, id)
  {
  }

  /** An iteration finishes when its iterator alone goes on, whatever has happened before. */
  lemma {:induction false} CanFinish(states: seq<State>, events: seq<Event>, id: Id, m: nat) returns (more: seq<State>, moreEvents: seq<Event>)
    requires Run(states, events) && Alive(states, events, id, m, |events|) && id in states[|events|].places
    ensures GoesOn(states, events, more, moreEvents, GetNext(id)) && |events| < |moreEvents|
    ensures Finishes(more, moreEvents, id, m, |moreEvents| - 1)
    decreases NodesLeft(states[|events|], id)
  {
    hide Apply, Enabled, Init, NodesLeft, Delivered;
    var s := states[|events|];
    NextStep(s, id);
    Append(states, events, GetNext(id));
    more, moreEvents := states + [Apply(s, GetNext(id))], events + [GetNext(id)];
    if Delivered(s.nodes, s.places[id]).Some? {
      var last, lastEvents := CanFinish(more, moreEvents, id, m);
      assert more == last[..|more|] && moreEvents == lastEvents[..|moreEvents|];
      assert states == last[..|states|] && events == lastEvents[..|events|] && lastEvents[|events|] == GetNext(id);
      more, moreEvents := last, lastEvents;
    }
  }

  lemma StartStep(s: State, id: Id)
    requires id !in s.places
    ensures Enabled(s, Start(id)) && id in Apply(s, Start(id)).places
  {
  }

  /** After any run a new iterator can run every callback of the list, and finish, and be
      destroyed. */
  lemma CanRunAll(states: seq<State>, events: seq<Event>, id: Id) returns (more: seq<State>, moreEvents: seq<Event>)
    requires Run(states, events) && id !in states[|events|].places
    ensures Run(more, moreEvents) && |events| + 1 < |moreEvents| && states == more[..|states|] && events == moreEvents[..|events|]
    ensures moreEvents[|events|] == Start(id) && Finishes(more, moreEvents, id, |events| + 1, |moreEvents| - 1)
    ensures Enabled(more[|moreEvents|], Close(id))
    ensures forall k: nat :: k < |states[|events|].nodes| && states[|events|].nodes[k].Some? ==>
        exists i :: |events| < i < |moreEvents| && Returns(more, moreEvents, id, i, k)
  {
    hide Apply, Init, NodesLeft, Delivered, Returns;
    var b, s := |events|, states[|events|];
    StartStep(s, id);
    Append(states, events, Start(id));
    more, moreEvents := CanFinish(states + [Apply(s, Start(id))], events + [Start(id)], id, b + 1);
    var e := |moreEvents| - 1;
    NextStep(more[e], id);
    RunInv(more, moreEvents, |moreEvents|);
    assert |more[|moreEvents|].places| > 0;
    forall k: nat | k < |s.nodes| && s.nodes[k].Some?
      ensures exists i :: b < i < |moreEvents| && Returns(more, moreEvents, id, i, k)
    {
      assert more[b] == s && NeverUnsubscribed(moreEvents, s.nodes[k].value.subscription, b + 1, e);
      PresentRunExactlyOnce(more, moreEvents, id, b, e, k);
    }
  }
}
