// ObserverListBase and its Iterator: observers are held in a vector in which a removal
// during a notification leaves a null. The value functions say what each operation does
// to the vector; the methods are proved against them, and the runs over them follow.
module ObserverList {
  import opened DeferredRemoval

  type Observer = nat

  /** The largest size_t. */
  const SIZE_MAX: nat := 0xFFFF_FFFF_FFFF_FFFF

  // ------------------------------------------------------------ the operations on values

  /** The vector after AddObserver: an observer that is there already is not added. */
  function Added(slots: seq<Option<Observer>>, obs: Observer): seq<Option<Observer>>
  {
    if Some(obs) in slots then slots else slots + [Some(obs)]
  }

  /** The first slot that holds obs, or the size. */
  function IndexOf(slots: seq<Option<Observer>>, obs: Observer): (k: nat)
    ensures k <= |slots|
    ensures k < |slots| ==> slots[k] == Some(obs)
    ensures forall j :: 0 <= j < k ==> slots[j] != Some(obs)
  {
    if slots == [] || slots[0] == Some(obs) then 0 else 1 + IndexOf(slots[1..], obs)
  }

  /** The vector after RemoveObserver, with depth notifications in progress. */
  function Removed(slots: seq<Option<Observer>>, obs: Observer, depth: nat): seq<Option<Observer>>
  {
    var k := IndexOf(slots, obs);
    if k == |slots| then slots
    else if depth > 0 then slots[k := None]
    else slots[..k] + slots[k + 1..]
  }

  function Cleared(slots: seq<Option<Observer>>, depth: nat): seq<Option<Observer>>
  {
    if depth > 0 then seq(|slots|, _ => None) else []
  }

  /** An iterator: the next slot to look at, and the slot to stop before. */
  datatype Cursor = Cursor(index: nat, limit: nat)

  function Start(slots: seq<Option<Observer>>, notifyAll: bool): Cursor
  {
    Cursor(0, if notifyAll then SIZE_MAX else |slots|)
  }

  function Min(a: nat, b: nat): nat
  {
    if a <= b then a else b
  }

  /** The slot that GetNext stops at. */
  function Target(slots: seq<Option<Observer>>, c: Cursor): nat
  {
    NextLive(slots, c.index, Min(c.limit, |slots|))
  }

  /** The slot that GetNext returns, if any. */
  function Delivered(slots: seq<Option<Observer>>, c: Cursor): (r: Option<nat>)
    ensures r.Some? ==> c.index <= r.value < |slots| && r.value < c.limit && slots[r.value].Some?
  {
    var k := Target(slots, c);
    if k < Min(c.limit, |slots|) then Some(k) else None
  }

  function Advanced(slots: seq<Option<Observer>>, c: Cursor): Cursor
  {
    var k := Target(slots, c);
    c.(index := if k < Min(c.limit, |slots|) then k + 1 else k)
  }

  // ------------------------------------------------------------ the classes

  class ObserverListBase {
    var observers: seq<Option<Observer>>
    var notifyDepth: nat
    var alive: bool            // the weak pointers of iterators are valid
    const notifyAll: bool

    constructor (notifyAll: bool)
      ensures observers == [] && notifyDepth == 0 && alive && this.notifyAll == notifyAll
    {
      observers, notifyDepth, alive := [], 0, true;
      this.notifyAll := notifyAll;
    }

    method Find(obs: Option<Observer>) returns (k: nat)
      ensures k <= |observers|
      ensures k < |observers| ==> observers[k] == obs
      ensures forall j :: 0 <= j < k ==> observers[j] != obs
    {
      k := 0;
      while k < |observers| && observers[k] != obs
        invariant k <= |observers|
        invariant forall j :: 0 <= j < k ==> observers[j] != obs
      {
        k := k + 1;
      }
    }

    method HasObserver(obs: Option<Observer>) returns (r: bool)
      ensures r == (obs in observers)
    {
      var k := Find(obs);
      r := k < |observers|;
    }

    method AddObserver(obs: Observer)
      requires |observers| < SIZE_MAX
      modifies `observers
      ensures observers == Added(old(observers), obs)
    {
      var k := Find(Some(obs));
      if k != |observers| {
        return;
      }
      observers := observers + [Some(obs)];
    }

    method RemoveObserver(obs: Observer)
      modifies `observers
      ensures observers == Removed(old(observers), obs, notifyDepth)
    {
      var k := Find(Some(obs));
      assert k == IndexOf(observers, obs);
      if k != |observers| {
        if notifyDepth != 0 {
          observers := observers[k := None];
        } else {
          observers := observers[..k] + observers[k + 1..];
        }
      }
    }

    method Clear()
      modifies `observers
      ensures observers == Cleared(old(observers), notifyDepth)
    {
      if notifyDepth != 0 {
        var k := 0;
        while k < |observers|
          invariant k <= |observers| == |old(observers)|
          invariant forall j :: 0 <= j < k ==> observers[j] == None
        {
          observers := observers[k := None];
          k := k + 1;
        }
      } else {
        observers := [];
      }
    }

    /** Compact: the live slots are moved to the front, and what is behind them is erased. */
    method Compact()
      modifies `observers
      ensures observers == Compacted(old(observers))
    {
      var write, read := 0, 0;
      ghost var before := observers;
      assert before[0..] == before && observers[..0] + Compacted(before) == Compacted(before);
      while read < |observers|
        invariant write <= read <= |observers| == |before| && observers[read..] == before[read..]
        invariant observers[..write] + Compacted(before[read..]) == Compacted(before)
      {
        ghost var front, rest := observers[..write], before[read + 1..];
        var obs := observers[read];
        assert obs == before[read..][0] && before[read..][1..] == rest;
        if obs.Some? {
          observers := observers[write := obs];
          assert observers[..write + 1] + Compacted(rest) == front + ([obs] + Compacted(rest));
          write := write + 1;
        } else {
          assert Compacted(before[read..]) == Compacted(rest);
        }
        read := read + 1;
        assert observers[read..] == before[read..];
      }
      assert before[read..] == [] && observers[..write] + [] == observers[..write];
      observers := observers[..write];
    }
  }

  class Iterator {
    const list: ObserverListBase
    var index: nat
    const maxIndex: nat

    ghost function Position(): Cursor
      reads this
    {
      Cursor(index, maxIndex)
    }

    constructor (list: ObserverListBase)
      requires list.alive
      modifies list`notifyDepth
      ensures this.list == list && Position() == Start(list.observers, list.notifyAll)
      ensures list.notifyDepth == old(list.notifyDepth) + 1
    {
      this.list := list;
      index := 0;
      maxIndex := if list.notifyAll then SIZE_MAX else |list.observers|;
      new;
      list.notifyDepth := list.notifyDepth + 1;
    }

    method GetNext() returns (obs: Option<Observer>)
      modifies `index
      ensures !list.alive ==> obs == None && Position() == old(Position())
      ensures list.alive ==> Position() == Advanced(list.observers, old(Position()))
      ensures list.alive ==> var k := Delivered(list.observers, old(Position())); obs == if k.Some? then list.observers[k.value] else None
    {
      if !list.alive {
        return None;
      }
      var observers := list.observers;
      var max := Min(maxIndex, |observers|);
      while index < max && observers[index] == None
        invariant NextLive(observers, index, max) == old(NextLive(observers, index, max))
      {
        index := index + 1;
      }
      if index < max {
        obs := observers[index];
        index := index + 1;
      } else {
        obs := None;
      }
    }

    /** The destructor. */
    method Close()
      requires list.alive ==> list.notifyDepth > 0
      modifies list`notifyDepth, list`observers
      ensures !list.alive ==> list.notifyDepth == old(list.notifyDepth) && list.observers == old(list.observers)
      ensures list.alive ==> list.notifyDepth == old(list.notifyDepth) - 1
      ensures list.alive ==> list.observers == Closed(old(list.observers), list.notifyDepth)
    {
      if list.alive {
        list.notifyDepth := list.notifyDepth - 1;
        if list.notifyDepth == 0 {
          list.Compact();
        }
      }
    }
  }

  /** The vector after an iterator ends and depth others are left. */
  function Closed(slots: seq<Option<Observer>>, depth: nat): seq<Option<Observer>>
  {
    if depth == 0 then Compacted(slots) else slots
  }
}
