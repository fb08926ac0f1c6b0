// Lists whose removals are deferred while someone iterates: a removed entry becomes
// a null slot, and the null slots go when the last iterator does.
module DeferredRemoval {

  datatype Option<T> = None | Some(value: T)

  /** The entries that are still there, in order. */
  function Live<T>(slots: seq<Option<T>>): (r: seq<T>)
    ensures |r| <= |slots|
  {
    if slots == [] then []
    else (if slots[0].Some? then [slots[0].value] else []) + Live(slots[1..])
  }

  /** Removal of the null slots. */
  function Compacted<T>(slots: seq<Option<T>>): (r: seq<Option<T>>)
    ensures |r| <= |slots|
  {
    if slots == [] then []
    else (if slots[0].Some? then [slots[0]] else []) + Compacted(slots[1..])
  }

  ghost predicate Full<T>(slots: seq<Option<T>>)
  {
    forall k :: 0 <= k < |slots| ==> slots[k].Some?
  }

  lemma {:induction false} CompactedIsFull<T>(slots: seq<Option<T>>)
    ensures Full(Compacted(slots)) && Live(Compacted(slots)) == Live(slots)
  {
    if slots != [] {
      CompactedIsFull(slots[1..]);
      var rest := Compacted(slots[1..]);
      if slots[0].Some? {
        assert Compacted(slots) == [slots[0]] + rest;
        assert Compacted(slots)[1..] == rest;
      } else {
        assert Compacted(slots) == rest;
      }
    }
  }

  lemma {:induction false} LiveAppend<T>(a: seq<Option<T>>, b: seq<Option<T>>)
    ensures Live(a + b) == Live(a) + Live(b)
  {
    if a == [] {
      assert a + b == b;
    } else {
      var head := if a[0].Some? then [a[0].value] else [];
      LiveAppend(a[1..], b);
      assert (a + b)[1..] == a[1..] + b && (a + b)[0] == a[0];
      assert Live(a + b) == head + Live(a[1..] + b);
      assert Live(a) == head + Live(a[1..]);
    }
  }

  lemma {:induction false} LiveMember<T>(slots: seq<Option<T>>, x: T)
    ensures x in Live(slots) <==> Some(x) in slots
  {
    if slots != [] {
      LiveMember(slots[1..], x);
      assert slots == [slots[0]] + slots[1..];
    }
  }

  /** Without null slots, slots and entries are the same. */
  lemma {:induction false} FullLive<T>(slots: seq<Option<T>>)
    requires Full(slots)
    ensures |Live(slots)| == |slots|
    ensures forall k :: 0 <= k < |slots| ==> Live(slots)[k] == slots[k].value
  {
    if slots != [] {
      FullLive(slots[1..]);
      assert forall k :: 0 < k < |slots| ==> slots[k] == slots[1..][k - 1];
    }
  }

  /** Dropping slot k, or making it null, removes the same entry from the list. */
  lemma RemovalIsDeferred<T>(slots: seq<Option<T>>, k: nat)
    requires k < |slots| && slots[k].Some?
    ensures Live(slots[k := None]) == Live(slots[..k]) + Live(slots[k + 1..])
    ensures Live(slots[..k] + slots[k + 1..]) == Live(slots[..k]) + Live(slots[k + 1..])
    ensures Live(slots) == Live(slots[..k]) + [slots[k].value] + Live(slots[k + 1..])
  {
    assert slots[k := None] == slots[..k] + ([None] + slots[k + 1..]);
    LiveAppend(slots[..k], [None] + slots[k + 1..]);
    LiveAppend(slots[..k], slots[k + 1..]);
    assert slots == slots[..k] + ([slots[k]] + slots[k + 1..]);
    LiveAppend(slots[..k], [slots[k]] + slots[k + 1..]);
    LiveAppend([slots[k]], slots[k + 1..]);
  }

  lemma {:induction false} NothingLive<T>(slots: seq<Option<T>>)
    requires forall k :: 0 <= k < |slots| ==> slots[k].None?
    ensures Live(slots) == []
  {
    if slots != [] {
      NothingLive(slots[1..]);
    }
  }

  /** The first slot from i on, below limit, that still has an entry; else limit or i. */
  function NextLive<T>(slots: seq<Option<T>>, i: nat, limit: nat): (k: nat)
    requires limit <= |slots|
    ensures i <= k
    ensures i <= limit ==> k <= limit
    ensures k < limit ==> slots[k].Some?
    ensures forall j :: i <= j < k ==> j < limit && slots[j].None?
    decreases limit - i
  {
    if i < limit && slots[i].None? then NextLive(slots, i + 1, limit) else i
  }

  ghost predicate Distinct<T>(slots: seq<Option<T>>)
  {
    forall i, j :: 0 <= i < |slots| && 0 <= j < |slots| && slots[i].Some? && slots[i] == slots[j] ==> i == j
  }

  /** Slots only turn null or are appended. */
  ghost predicate SlotsKeep<T>(old_: seq<Option<T>>, now: seq<Option<T>>)
  {
    |old_| <= |now| && forall k :: 0 <= k < |old_| ==> now[k] == old_[k] || now[k].None?
  }

  /** A list without its entry x. */
  function Without<T(==)>(list: seq<T>, x: T): seq<T>
  {
    if list == [] then [] else (if list[0] == x then [] else [list[0]]) + Without(list[1..], x)
  }

  lemma {:induction false} WithoutAbsent<T>(list: seq<T>, x: T)
    requires x !in list
    ensures Without(list, x) == list
  {
    if list != [] {
      WithoutAbsent(list[1..], x);
    }
  }

  lemma {:induction false} WithoutAppend<T>(a: seq<T>, b: seq<T>, x: T)
    ensures Without(a + b, x) == Without(a, x) + Without(b, x)
  {
    if a == [] {
      assert a + b == b;
    } else {
      assert (a + b)[1..] == a[1..] + b;
      WithoutAppend(a[1..], b, x);
    }
  }

  lemma WithoutSelf<T>(x: T)
    ensures Without([x], x) == []
  {
  }

  /** Of distinct entries, losing slot k is losing its value from the list. */
  lemma RemovedFromLive<T>(slots: seq<Option<T>>, k: nat)
    requires k < |slots| && slots[k].Some? && Distinct(slots)
    ensures Live(slots[k := None]) == Without(Live(slots), slots[k].value)
    ensures Live(slots[..k] + slots[k + 1..]) == Without(Live(slots), slots[k].value)
  {
    hide Live, Without;
    var x := slots[k].value;
    var a, b := Live(slots[..k]), Live(slots[k + 1..]);
    RemovalIsDeferred(slots, k);
    LiveMember(slots[..k], x);
    LiveMember(slots[k + 1..], x);
    assert Some(x) !in slots[..k];
    assert Some(x) !in slots[k + 1..];
    WithoutAbsent(a, x);
    WithoutAbsent(b, x);
    WithoutAppend(a + [x], b, x);
    WithoutAppend(a, [x], x);
    WithoutSelf(x);
    assert Without(Live(slots), x) == a + [] + b;
  }

  lemma {:induction false} CompactedDistinct<T>(slots: seq<Option<T>>)
    requires Distinct(slots)
    ensures Distinct(Compacted(slots))
    ensures forall s :: s in Compacted(slots) ==> s in slots
  {
    if slots != [] {
      var rest := slots[1..];
      assert forall i :: 0 <= i < |rest| ==> rest[i] == slots[i + 1];
      CompactedDistinct(rest);
      if slots[0].Some? {
        assert slots[0] !in rest;
        assert Compacted(slots) == [slots[0]] + Compacted(rest);
      }
    }
  }

  /** The number of keys of a map after one is set or taken out. */
  lemma CountKeys<K, T>(m: map<K, T>, k: K, v: T)
    ensures |m[k := v]| == if k in m then |m| else |m| + 1
    ensures k in m ==> |m - {k}| == |m| - 1
  {
    assert m[k := v].Keys == m.Keys + {k};
    assert k in m ==> m.Keys == (m - {k}).Keys + {k};
  }
}
