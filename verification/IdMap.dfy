// IDMap: objects under ids in a hash map, with removals deferred while iterators live. The
// hash map's iteration order is arbitrary, but stays as it is while nothing is inserted or
// erased: order lists the ids of the table in that order.
module IdMap {
  import opened DeferredRemoval

  type Key = int
  type Data = nat
  type Table = map<Key, Data>

  ghost predicate NoTwice(order: seq<Key>)
  {
    forall i, j :: 0 <= i < j < |order| ==> order[i] != order[j]
  }

  /** order lists just the ids of the table, each once. */
  ghost predicate Lists(order: seq<Key>, data: Table)
  {
    NoTwice(order) && |order| == |data| && forall k :: k in order <==> k in data
  }

  function Entry(data: Table, id: Key): Option<Data>
  {
    if id in data then Some(data[id]) else None
  }

  lemma SomeElement(s: set<Key>)
    requires s != {}
    ensures exists k: Key :: k in s
  {
    assert (forall k: Key :: k !in s) ==> s == {};
  }

  /** The table without some ids. */
  function Minus(data: Table, ids: set<Key>): Table
  {
    data - ids
  }

  lemma MinusLaws(data: Table, ids: set<Key>, id: Key)
    ensures Minus(data, {}) == data
    ensures Minus(data, ids + {id}) == Minus(Minus(data, ids), {id})
    ensures id !in data ==> Minus(data, ids) == Minus(Minus(data, ids), {id})
    ensures id in data && id !in ids ==> id in Minus(data, ids)
  {
  }

  /** The first position from k on whose id is not waiting to be removed, or the size. */
  function Skip(order: seq<Key>, removed: set<Key>, k: nat): (r: nat)
    ensures k <= r && (k <= |order| ==> r <= |order|)
    ensures r < |order| ==> order[r] !in removed
    ensures forall j :: k <= j < r ==> j < |order| && order[j] in removed
    decreases |order| - k
  {
    if k < |order| && order[k] in removed then Skip(order, removed, k + 1) else k
  }

  lemma {:induction false} WithoutMembers(order: seq<Key>, id: Key)
    requires NoTwice(order)
    ensures NoTwice(Without(order, id)) && forall k :: k in Without(order, id) <==> k in order && k != id
    ensures |Without(order, id)| == if id in order then |order| - 1 else |order|
  {
    if order != [] {
      var tail := order[1..];
      assert forall j :: 0 <= j < |tail| ==> tail[j] == order[j + 1];
      WithoutMembers(tail, id);
      assert order == [order[0]] + tail;
      assert order[0] !in tail;
      if order[0] == id {
        assert Without(order, id) == Without(tail, id);
      } else {
        assert Without(order, id) == [order[0]] + Without(tail, id);
        NoTwiceCons(order[0], Without(tail, id));
      }
    }
  }

  lemma NoTwiceCons(x: Key, rest: seq<Key>)
    requires NoTwice(rest) && x !in rest
    ensures NoTwice([x] + rest)
  {
    assert forall j :: 0 < j < |[x] + rest| ==> ([x] + rest)[j] == rest[j - 1];
  }

  /** Erasing one entry of the table. */
  lemma ErasedLists(order: seq<Key>, data: Table, id: Key)
    requires Lists(order, data) && id in data
    ensures Lists(Without(order, id), Minus(data, {id}))
  {
    WithoutMembers(order, id);
    assert (data - {id}).Keys == data.Keys - {id};
    assert |(data - {id}).Keys| == |data.Keys| - 1;
  }

  lemma InsertedLists(order: seq<Key>, data: Table, id: Key, d: Data, at: nat)
    requires Lists(order, data) && id !in data && at <= |order|
    ensures Lists(order[..at] + [id] + order[at..], data[id := d])
  {
    hide NoTwice;
    InsertNoTwice(order, id, at);
    assert order == order[..at] + order[at..];
    assert data[id := d].Keys == data.Keys + {id};
  }

  lemma InsertNoTwice(order: seq<Key>, id: Key, at: nat)
    requires NoTwice(order) && id !in order && at <= |order|
    ensures NoTwice(order[..at] + [id] + order[at..])
  {
    var u := order[..at] + [id] + order[at..];
    forall i, j | 0 <= i < j < |u|
      ensures u[i] != u[j]
    {
      assert i != at ==> u[i] == order[if i < at then i else i - 1];
      assert j != at ==> u[j] == order[if j < at then j else j - 1];
    }
  }

  /** An order without some ids. */
  function Kept(order: seq<Key>, ids: set<Key>): seq<Key>
  {
    if order == [] then [] else (if order[0] in ids then [] else [order[0]]) + Kept(order[1..], ids)
  }

  lemma {:induction false} KeptAll(order: seq<Key>)
    ensures Kept(order, {}) == order
  {
    if order != [] {
      KeptAll(order[1..]);
    }
  }

  lemma {:induction false} KeptOneLess(order: seq<Key>, ids: set<Key>, id: Key)
    ensures Kept(order, ids + {id}) == Without(Kept(order, ids), id)
  {
    if order != [] {
      var head := if order[0] in ids then [] else [order[0]];
      KeptOneLess(order[1..], ids, id);
      assert Kept(order, ids) == head + Kept(order[1..], ids);
      WithoutAppend(head, Kept(order[1..], ids), id);
      assert Kept(order, ids + {id}) == Without(head, id) + Kept(order[1..], ids + {id});
    }
  }

  // ------------------------------------------------------------ what the operations do

  /** The fields of a map. */
  datatype Store = Store(data: Table, order: seq<Key>, depth: nat, removed: set<Key>, own: bool)

  /** The map as its users see it: without the ids that wait to be removed. */
  function Shown(s: Store): Table
  {
    Minus(s.data, s.removed)
  }

  ghost predicate Consistent(s: Store)
  {
    Lists(s.order, s.data) && s.removed <= s.data.Keys && (s.depth == 0 ==> s.removed == {})
  }

  /** The hash map puts a new entry anywhere in its order: at position at, say. */
  function AfterAdd(s: Store, id: Key, d: Data, at: nat): Store
    requires at <= |s.order|
  {
    s.(data := s.data[id := d], order := s.order[..at] + [id] + s.order[at..])
  }

  function AfterRemove(s: Store, id: Key): Store
  {
    if id !in s.data then s
    else if s.depth == 0 then s.(data := Minus(s.data, {id}), order := Without(s.order, id))
    else s.(removed := s.removed + {id})
  }

  function AfterReplace(s: Store, id: Key, d: Data): Store
  {
    if id in s.data then s.(data := s.data[id := d]) else s
  }

  function AfterClear(s: Store): Store
  {
    if s.depth > 0 then s.(removed := s.removed + s.data.Keys)
    else if s.own then s.(data := map[], order := [])
    else s
  }

  function AfterCompact(s: Store): Store
  {
    s.(data := Minus(s.data, s.removed), order := Kept(s.order, s.removed), removed := {})
  }

  /** One iterator less. */
  function AfterClose(s: Store): Store
    requires s.depth > 0
  {
    var t := s.(depth := s.depth - 1);
    if t.depth == 0 then AfterCompact(t) else t
  }

  lemma AddKeeps(s: Store, id: Key, d: Data, at: nat)
    requires Consistent(s) && s.depth == 0 && id !in s.data && at <= |s.order|
    ensures Consistent(AfterAdd(s, id, d, at)) && Shown(AfterAdd(s, id, d, at)) == Shown(s)[id := d]
  {
    hide Lists;
    InsertedLists(s.order, s.data, id, d, at);
  }

  lemma RemoveKeeps(s: Store, id: Key)
    requires Consistent(s)
    ensures Consistent(AfterRemove(s, id)) && Shown(AfterRemove(s, id)) == Minus(Shown(s), {id})
    ensures s.depth > 0 ==> AfterRemove(s, id).data == s.data && AfterRemove(s, id).order == s.order
  {
    hide Lists, Minus;
    MinusLaws(s.data, s.removed, id);
    MinusLaws(s.data, {}, id);
    MinusLaws(Minus(s.data, {id}), {}, id);
    if id in s.data && s.depth == 0 {
      ErasedLists(s.order, s.data, id);
    }
  }

  lemma ReplaceKeeps(s: Store, id: Key, d: Data)
    requires Consistent(s)
    ensures Consistent(AfterReplace(s, id, d)) && AfterReplace(s, id, d).data.Keys == s.data.Keys
    ensures Shown(AfterReplace(s, id, d)) == if id in Shown(s) then Shown(s)[id := d] else Shown(s)
  {
    if id in s.data {
      assert s.data[id := d].Keys == s.data.Keys;
      assert |s.data[id := d]| == |s.data|;
    }
  }

  lemma ClearKeeps(s: Store)
    requires Consistent(s)
    ensures Consistent(AfterClear(s)) && Shown(AfterClear(s)) == if s.depth > 0 || s.own then map[] else Shown(s)
    ensures s.depth > 0 ==> AfterClear(s).data == s.data && AfterClear(s).order == s.order
  {
  }

  /** Erasing the waiting ids one after another. */
  lemma {:induction false} CompactionLists(s: Store, ids: set<Key>)
    requires Lists(s.order, s.data) && ids <= s.data.Keys
    ensures Lists(Kept(s.order, ids), Minus(s.data, ids))
    decreases |ids|
  {
    hide Lists, Minus, Kept;
    if ids == {} {
      KeptAll(s.order);
      MinusLaws(s.data, {}, 0);
    } else {
      SomeElement(ids);
      var id :| id in ids;
      var rest := ids - {id};
      assert ids == rest + {id};
      CompactionLists(s, rest);
      KeptOneLess(s.order, rest, id);
      MinusLaws(s.data, rest, id);
      ErasedLists(Kept(s.order, rest), Minus(s.data, rest), id);
    }
  }

  lemma CloseKeeps(s: Store)
    requires Consistent(s) && s.depth > 0
    ensures Consistent(AfterClose(s)) && Shown(AfterClose(s)) == Shown(s)
    ensures s.depth > 1 ==> AfterClose(s) == s.(depth := s.depth - 1)
    ensures s.depth == 1 ==> AfterClose(s).data == Shown(s)
  {
    hide Lists, Kept, Minus;
    CompactionLists(s, s.removed);
    MinusLaws(Minus(s.data, s.removed), {}, 0);
  }

  // ------------------------------------------------------------ the class

  class IDMap {
    var data: Table
    var order: seq<Key>      // the hash map's iteration order
    var iterationDepth: nat
    var removedIds: set<Key>
    var nextId: Key
    const ownPointer: bool   // IDMapOwnPointer rather than IDMapExternalPointer

    function Fields(): Store
      reads this
    {
      Store(data, order, iterationDepth, removedIds, ownPointer)
    }

    ghost predicate Valid()
      reads this
    {
      Consistent(Fields())
    }

    function Live(): Table
      reads this
    {
      Shown(Fields())
    }

    constructor (ownPointer: bool)
      ensures Valid() && Live() == map[] && iterationDepth == 0 && nextId == 1 && this.ownPointer == ownPointer
    {
      data, order, iterationDepth, removedIds, nextId := map[], [], 0, {}, 1;
      this.ownPointer := ownPointer;
    }

    method AddWithID(d: Data, id: Key, at: nat)
      requires Valid() && id !in data && iterationDepth == 0 && at <= |order|
      modifies `data, `order
      ensures Valid() && Live() == old(Live())[id := d] && Fields() == AfterAdd(old(Fields()), id, d, at)
    {
      AddKeeps(Fields(), id, d, at);
      order := order[..at] + [id] + order[at..];
      data := data[id := d];
    }

    method Add(d: Data, at: nat) returns (id: Key)
      requires Valid() && nextId !in data && iterationDepth == 0 && at <= |order|
      modifies `data, `order, `nextId
      ensures Valid() && id == old(nextId) && nextId == id + 1 && Live() == old(Live())[id := d]
      ensures Fields() == AfterAdd(old(Fields()), id, d, at)
    {
      id := nextId;
      AddWithID(d, id, at);
      nextId := nextId + 1;
    }

    /** Remove: at once, or when the last iterator goes; either way the id is gone. */
    method Remove(id: Key)
      requires Valid()
      modifies `data, `order, `removedIds
      ensures Valid() && Live() == Minus(old(Live()), {id}) && Fields() == AfterRemove(old(Fields()), id)
      ensures iterationDepth > 0 ==> data == old(data) && order == old(order) && removedIds == old(removedIds) + (if id in data then {id} else {})
      ensures iterationDepth == 0 ==> data == Minus(old(data), {id}) && removedIds == {}
    {
      hide Lists;
      RemoveKeeps(Fields(), id);
      if id !in data {
        return;
      }
      if iterationDepth == 0 {
        order := Without(order, id);
        data := Minus(data, {id});
      } else {
        removedIds := removedIds + {id};
      }
    }

    /** Replace: gives back the old value; the entry stays where it is. */
    method Replace(id: Key, d: Data) returns (r: Option<Data>)
      requires Valid()
      modifies `data
      ensures Valid() && r == Entry(old(data), id) && Fields() == AfterReplace(old(Fields()), id, d)
      ensures Live() == if id in old(Live()) then old(Live())[id := d] else old(Live())
    {
      hide Lists;
      ReplaceKeeps(Fields(), id, d);
      if id !in data {
        return None;
      }
      r := Some(data[id]);
      data := data[id := d];
    }

    /** Lookup: an id that waits to be removed is still found, and only then the answer
        differs from the users' view. */
    method Lookup(id: Key) returns (r: Option<Data>)
      requires Valid()
      ensures r == Entry(data, id)
      ensures r == Entry(Live(), id) <==> id !in removedIds
    {
      r := if id in data then Some(data[id]) else None;
    }

    /** size() is the number of live ids. */
    method Size() returns (n: nat)
      requires Valid()
      ensures n == |Live()|
    {
      assert Live().Keys == data.Keys - removedIds;
      assert data.Keys == Live().Keys + removedIds;
      n := |data| - |removedIds|;
    }

    /** Clear: no id is left, except that between iterations a map that does not own its
        objects is not changed at all. */
    method Clear()
      requires Valid()
      modifies `data, `order, `removedIds
      ensures Valid() && Live() == if iterationDepth > 0 || ownPointer then map[] else old(Live())
      ensures Fields() == AfterClear(old(Fields()))
      ensures iterationDepth > 0 ==> data == old(data) && order == old(order)
    {
      hide Lists;
      ClearKeeps(Fields());
      if iterationDepth == 0 {
        if ownPointer {
          data := map[];
          order := [];
        }
      } else {
        removedIds := removedIds + data.Keys;
      }
    }

    /** Compact: the removals that were waiting are done, with no change to the live ids. */
    method Compact()
      requires Lists(order, data) && removedIds <= data.Keys && iterationDepth == 0
      modifies `data, `order, `removedIds
      ensures Valid() && removedIds == {} && data == Live() == old(Live())
      ensures Fields() == AfterCompact(old(Fields()))
    {
      hide Lists, Minus, Kept;
      var todo := removedIds;
      ghost var done: set<Key> := {};
      MinusLaws(data, {}, 0);
      KeptAll(order);
      while todo != {}
        invariant done !! todo && done + todo == removedIds == old(removedIds)
        invariant Lists(order, data) && data == Minus(old(data), done) && order == Kept(old(order), done)
        decreases |todo|
      {
        SomeElement(todo);
        var id :| id in todo;
        MinusLaws(old(data), done, id);
        KeptOneLess(old(order), done, id);
        ErasedLists(order, data, id);
        order := Without(order, id);
        data := Minus(data, {id});
        todo, done := todo - {id}, done + {id};
      }
      assert done == removedIds;
      MinusLaws(data, {}, 0);
      removedIds := {};
    }
  }

  /** IDMap::Iterator; iter_ is the position in the table's order. */
  class Iterator {
    const map_: IDMap
    var iter: nat

    ghost predicate Valid()
      reads this, map_
    {
      map_.Valid() && iter <= |map_.order| && map_.iterationDepth > 0
    }

    constructor (m: IDMap)
      requires m.Valid()
      modifies m`iterationDepth
      ensures Valid() && map_ == m && m.iterationDepth == old(m.iterationDepth) + 1
      ensures iter == Skip(m.order, m.removedIds, 0)
    {
      map_ := m;
      iter := 0;
      new;
      map_.iterationDepth := map_.iterationDepth + 1;
      SkipRemovedEntries();
    }

    /** The copy constructor: a second iterator from the same place on. */
    constructor Copy(other: Iterator)
      requires other.Valid()
      modifies other.map_`iterationDepth
      ensures Valid() && map_ == other.map_ && map_.iterationDepth == old(other.map_.iterationDepth) + 1
      ensures iter == Skip(map_.order, map_.removedIds, other.iter)
    {
      map_ := other.map_;
      iter := other.iter;
      new;
      map_.iterationDepth := map_.iterationDepth + 1;
      SkipRemovedEntries();
    }

    method SkipRemovedEntries()
      requires Valid()
      modifies `iter
      ensures Valid() && iter == Skip(map_.order, map_.removedIds, old(iter))
    {
      ghost var start := iter;
      while iter < |map_.data| && map_.order[iter] in map_.removedIds
        invariant iter <= |map_.order| == |map_.data|
        invariant Skip(map_.order, map_.removedIds, iter) == Skip(map_.order, map_.removedIds, start)
      {
        iter := iter + 1;
      }
    }

    method IsAtEnd() returns (r: bool)
      requires Valid()
      ensures r == (iter == |map_.order|)
    {
      r := iter == |map_.data|;
    }

    method GetCurrentKey() returns (id: Key)
      requires Valid() && iter < |map_.order|
      ensures id == map_.order[iter] && id in map_.data
    {
      id := map_.order[iter];
    }

    method Advance()
      requires Valid() && iter < |map_.order|
      modifies `iter
      ensures Valid() && iter == Skip(map_.order, map_.removedIds, old(iter) + 1)
    {
      iter := iter + 1;
      SkipRemovedEntries();
    }

    /** The destructor. */
    method Close()
      requires Valid()
      modifies map_
      ensures map_.Valid() && map_.iterationDepth == old(map_.iterationDepth) - 1 && map_.Live() == old(map_.Live())
      ensures map_.Fields() == AfterClose(old(map_.Fields()))
      ensures map_.iterationDepth == 0 ==> map_.data == map_.Live()
      ensures map_.iterationDepth > 0 ==> map_.data == old(map_.data) && map_.order == old(map_.order) && map_.removedIds == old(map_.removedIds)
    {
      hide Lists, Kept;
      map_.iterationDepth := map_.iterationDepth - 1;
      if map_.iterationDepth == 0 {
        map_.Compact();
      }
    }
  }
}
