// values.cc: trees of dictionaries and lists, whose entries are addressed by paths of
// keys with dots between them. A dictionary owns its children, so it is modelled as the
// value of its tree; a DictionaryValue is an object that holds one.
module Values {
  import opened DeferredRemoval
  import opened Strings

  datatype Value =
    | Null
    | Boolean(b: bool)
    | Integer(i: int)
    | Double(d: real)
    | Text(s: string)
    | Binary(bytes: seq<bv8>)
    | List(items: seq<Value>)
    | Dict(entries: Dictionary)

  type Dictionary = map<string, Value>

  // ------------------------------------------------------------ paths

  /** Where the first dot is, or the length. */
  function Dot(path: string): (k: nat)
    ensures k <= |path| && (k < |path| ==> path[k] == '.') && '.' !in path[..k]
  {
    if path == "" || path[0] == '.' then 0 else 1 + Dot(path[1..])
  }

  /** The keys of a path: at least one, possibly empty. */
  function Keys(path: string): (keys: seq<string>)
    ensures |keys| > 0
    decreases |path|
  {
    var k := Dot(path);
    if k == |path| then [path] else [path[..k]] + Keys(path[k + 1..])
  }

  /** Neither list of keys begins with the other. */
  predicate Incomparable(p: seq<string>, q: seq<string>)
  {
    !(p <= q) && !(q <= p)
  }

  lemma IncomparableTails(p: seq<string>, q: seq<string>)
    requires Incomparable(p, q) && p != [] && q != [] && p[0] == q[0]
    ensures Incomparable(p[1..], q[1..]) && |p| > 1 && |q| > 1
  {
    assert p == [p[0]] + p[1..] && q == [q[0]] + q[1..];
  }

  // ------------------------------------------------------------ what the operations mean

  /** The entry at a list of keys. */
  function Lookup(d: Dictionary, keys: seq<string>): Option<Value>
    requires keys != []
    decreases |keys|
  {
    if keys[0] !in d then None
    else if |keys| == 1 then Some(d[keys[0]])
    else if d[keys[0]].Dict? then Lookup(d[keys[0]].entries, keys[1..])
    else None
  }

  /** The entry stored at a list of keys; what is in the way and not a dictionary is
      replaced by one. */
  function Stored(d: Dictionary, keys: seq<string>, v: Value): Dictionary
    requires keys != []
    decreases |keys|
  {
    if |keys| == 1 then d[keys[0] := v]
    else
      var child := if keys[0] in d && d[keys[0]].Dict? then d[keys[0]].entries else map[];
      d[keys[0] := Dict(Stored(child, keys[1..], v))]
  }

  /** The entry at a list of keys taken out, with the dictionaries that this empties if
      prune is set. */
  function Taken(d: Dictionary, keys: seq<string>, prune: bool): Dictionary
    requires keys != []
    decreases |keys|
  {
    if keys[0] !in d then d
    else if |keys| == 1 then d - {keys[0]}
    else if !d[keys[0]].Dict? then d
    else if Lookup(d[keys[0]].entries, keys[1..]).None? then d
    else
      var child := Taken(d[keys[0]].entries, keys[1..], prune);
      if prune && child == map[] then d - {keys[0]} else d[keys[0] := Dict(child)]
  }

  // ------------------------------------------------------------ set and get

  /** What was set is found again. */
  lemma {:induction false} GetAfterSet(d: Dictionary, keys: seq<string>, v: Value)
    requires keys != []
    ensures Lookup(Stored(d, keys, v), keys) == Some(v)
    decreases |keys|
  {
    if |keys| > 1 {
      var child := if keys[0] in d && d[keys[0]].Dict? then d[keys[0]].entries else map[];
      GetAfterSet(child, keys[1..], v);
    }
  }

  /** Below what was set, the entries are those of the new value. */
  lemma {:induction false} GetBelowSet(d: Dictionary, keys: seq<string>, v: Value, more: seq<string>)
    requires keys != [] && more != []
    ensures Lookup(Stored(d, keys, v), keys + more) == if v.Dict? then Lookup(v.entries, more) else None
    decreases |keys|
  {
    assert (keys + more)[1..] == keys[1..] + more;
    if |keys| == 1 {
      assert keys[1..] + more == more;
    } else {
      var child := if keys[0] in d && d[keys[0]].Dict? then d[keys[0]].entries else map[];
      GetBelowSet(child, keys[1..], v, more);
    }
  }

  lemma {:induction false} LookupEmpty(keys: seq<string>)
    requires keys != []
    ensures Lookup(map[], keys) == None
  {
  }

  /** Every path that is not comparable keeps its entry. */
  lemma {:induction false} SetElsewhere(d: Dictionary, p: seq<string>, v: Value, q: seq<string>)
    requires p != [] && q != [] && Incomparable(p, q)
    ensures Lookup(Stored(d, p, v), q) == Lookup(d, q)
    decreases |p|
  {
    if p[0] == q[0] {
      IncomparableTails(p, q);
      var child := if p[0] in d && d[p[0]].Dict? then d[p[0]].entries else map[];
      SetElsewhere(child, p[1..], v, q[1..]);
      LookupEmpty(q[1..]);
    }
  }

  // ------------------------------------------------------------ remove

  /** The entry is gone. */
  lemma {:induction false} GetAfterRemove(d: Dictionary, keys: seq<string>, prune: bool)
    requires keys != []
    ensures Lookup(Taken(d, keys, prune), keys) == None
    decreases |keys|
  {
    if |keys| > 1 && keys[0] in d && d[keys[0]].Dict? {
      GetAfterRemove(d[keys[0]].entries, keys[1..], prune);
    }
  }

  /** A removal that finds nothing changes nothing. */
  lemma {:induction false} RemoveMissing(d: Dictionary, keys: seq<string>, prune: bool)
    requires keys != [] && Lookup(d, keys).None?
    ensures Taken(d, keys, prune) == d
  {
  }

  lemma {:induction false} LookupOfEmptied(d: Dictionary, keys: seq<string>, prune: bool, q: seq<string>)
    requires keys != [] && q != [] && Taken(d, keys, prune) == map[]
    ensures Lookup(Taken(d, keys, prune), q) == None
  {
    LookupEmpty(q);
  }

  /** Every path that is not comparable keeps its entry, pruned or not. */
  lemma {:induction false} RemoveElsewhere(d: Dictionary, p: seq<string>, prune: bool, q: seq<string>)
    requires p != [] && q != [] && Incomparable(p, q)
    ensures Lookup(Taken(d, p, prune), q) == Lookup(d, q)
    decreases |p|
  {
    if p[0] == q[0] {
      IncomparableTails(p, q);
      if p[0] in d && d[p[0]].Dict? && Lookup(d[p[0]].entries, p[1..]).Some? {
        RemoveElsewhere(d[p[0]].entries, p[1..], prune, q[1..]);
        if prune && Taken(d[p[0]].entries, p[1..], prune) == map[] {
          LookupOfEmptied(d[p[0]].entries, p[1..], prune, q[1..]);
        }
      }
    }
  }

  /** After RemovePath has removed something, no dictionary on the path is empty. */
  lemma {:induction false} NoEmptyOnPath(d: Dictionary, p: seq<string>, n: nat)
    requires p != [] && Lookup(d, p).Some? && 0 < n < |p|
    ensures Lookup(Taken(d, p, true), p[..n]) != Some(Dict(map[]))
    decreases |p|
  {
    var child := d[p[0]].entries;
    assert p[..n][0] == p[0];
    if n > 1 {
      NoEmptyOnPath(child, p[1..], n - 1);
      assert p[..n][1..] == p[1..][..n - 1];
      assert p[..n][0] == p[0] && |p[..n]| > 1;
    }
  }

  /** Remove without pruning keeps every dictionary on the path. */
  lemma {:induction false} RemoveKeepsParents(d: Dictionary, p: seq<string>, n: nat)
    requires p != [] && Lookup(d, p).Some? && 0 < n < |p|
    ensures var parent := Lookup(Taken(d, p, false), p[..n]); parent.Some? && parent.value.Dict?
    decreases |p|
  {
    var child := d[p[0]].entries;
    assert p[..n][0] == p[0];
    if n > 1 {
      RemoveKeepsParents(child, p[1..], n - 1);
      assert p[..n][1..] == p[1..][..n - 1];
      assert |p[..n]| > 1;
    }
  }

  // ------------------------------------------------------------ copies without empty children

  /** CopyWithoutEmptyChildren, whose result may be NULL. */
  function Pruned(v: Value): Option<Value>
    decreases v
  {
    match v
    case List(items) =>
      var copy := PrunedItems(items);
      if copy == [] then None else Some(List(copy))
    case Dict(entries) =>
      var copy := map k | k in entries && Pruned(entries[k]).Some? :: Pruned(entries[k]).value;
      if copy == map[] then None else Some(Dict(copy))
    case _ => Some(v)
  }

  function PrunedItems(items: seq<Value>): seq<Value>
    decreases items
  {
    if items == [] then []
    else
      var first := Pruned(items[0]);
      (if first.Some? then [first.value] else []) + PrunedItems(items[1..])
  }

  /** DeepCopyWithoutEmptyChildren: a dictionary of nothing but empty children gives an
      empty one. */
  function DeepCopyWithoutEmptyChildren(d: Dictionary): Dictionary
  {
    map k | k in d && Pruned(d[k]).Some? :: Pruned(d[k]).value
  }

  /** No empty list or dictionary at any depth below. */
  predicate NoEmptyChildren(v: Value)
    decreases v
  {
    match v
    case List(items) => forall k :: 0 <= k < |items| ==> Solid(items[k]) && NoEmptyChildren(items[k])
    case Dict(entries) => forall k :: k in entries ==> Solid(entries[k]) && NoEmptyChildren(entries[k])
    case _ => true
  }

  predicate Solid(v: Value)
  {
    !(v.List? && v.items == []) && !(v.Dict? && v.entries == map[])
  }

  lemma {:induction false} PrunedHasNoEmpty(v: Value)
    ensures Pruned(v).Some? ==> Solid(Pruned(v).value) && NoEmptyChildren(Pruned(v).value)
    decreases v
  {
    match v
    case List(items) => PrunedItemsSolid(items);
    case Dict(entries) =>
      forall k | k in entries
        ensures Pruned(entries[k]).Some? ==> Solid(Pruned(entries[k]).value) && NoEmptyChildren(Pruned(entries[k]).value)
      {
        PrunedHasNoEmpty(entries[k]);
      }
    case _ =>
  }

  lemma {:induction false} PrunedItemsSolid(items: seq<Value>)
    ensures forall x :: x in PrunedItems(items) ==> Solid(x) && NoEmptyChildren(x)
    decreases items
  {
    if items != [] {
      PrunedHasNoEmpty(items[0]);
      PrunedItemsSolid(items[1..]);
    }
  }

  /** A value without empty children is copied whole. */
  lemma {:induction false} PrunedKeepsSolid(v: Value)
    requires NoEmptyChildren(v) && Solid(v)
    ensures Pruned(v) == Some(v)
    decreases v
  {
    match v
    case List(items) => PrunedItemsKeep(items);
    case Dict(entries) =>
      forall k | k in entries
        ensures Pruned(entries[k]) == Some(entries[k])
      {
        PrunedKeepsSolid(entries[k]);
      }
      assert (map k | k in entries && Pruned(entries[k]).Some? :: Pruned(entries[k]).value) == entries;
    case _ =>
  }

  lemma {:induction false} PrunedItemsKeep(items: seq<Value>)
    requires forall k :: 0 <= k < |items| ==> Solid(items[k]) && NoEmptyChildren(items[k])
    ensures PrunedItems(items) == items
    decreases items
  {
    if items != [] {
      PrunedKeepsSolid(items[0]);
      assert forall k :: 0 <= k < |items[1..]| ==> items[1..][k] == items[k + 1];
      PrunedItemsKeep(items[1..]);
      assert items == [items[0]] + items[1..];
    }
  }

  /** The copy has no empty list or dictionary at any depth, copying again changes
      nothing, and a tree without them is copied as it is. */
  lemma CopyIsPrunedOnce(d: Dictionary)
    ensures NoEmptyChildren(Dict(DeepCopyWithoutEmptyChildren(d)))
    ensures DeepCopyWithoutEmptyChildren(DeepCopyWithoutEmptyChildren(d)) == DeepCopyWithoutEmptyChildren(d)
    ensures NoEmptyChildren(Dict(d)) ==> DeepCopyWithoutEmptyChildren(d) == d
  {
    var copy := DeepCopyWithoutEmptyChildren(d);
    forall k | k in d
      ensures Pruned(d[k]).Some? ==> Solid(Pruned(d[k]).value) && NoEmptyChildren(Pruned(d[k]).value)
    {
      PrunedHasNoEmpty(d[k]);
    }
    CopyKeepsSolid(copy);
    if NoEmptyChildren(Dict(d)) {
      CopyKeepsSolid(d);
    }
  }

  lemma CopyKeepsSolid(d: Dictionary)
    requires NoEmptyChildren(Dict(d))
    ensures DeepCopyWithoutEmptyChildren(d) == d
  {
    forall k | k in d
      ensures Pruned(d[k]) == Some(d[k])
    {
      PrunedKeepsSolid(d[k]);
    }
  }

  /** Under every path the copy has the copy of the entry, or nothing if that is empty:
      so every entry that is neither list nor dictionary is kept in its place. */
  lemma {:induction false} CopyKeepsLeaves(d: Dictionary, p: seq<string>)
    requires p != []
    ensures Lookup(DeepCopyWithoutEmptyChildren(d), p) == if Lookup(d, p).Some? then Pruned(Lookup(d, p).value) else None
    decreases |p|
  {
    if |p| > 1 && p[0] in d {
      if d[p[0]].Dict? {
        var child := d[p[0]].entries;
        CopyKeepsLeaves(child, p[1..]);
        if DeepCopyWithoutEmptyChildren(child) == map[] {
          LookupEmpty(p[1..]);
        }
      } else {
        PrunedShape(d[p[0]]);
      }
    }
  }

  lemma PrunedShape(v: Value)
    ensures Pruned(v).Some? ==> (Pruned(v).value.Dict? <==> v.Dict?)
  {
  }

  /** Something below is neither a list nor a dictionary. */
  predicate HasLeaf(v: Value)
    decreases v
  {
    match v
    case List(items) => exists k :: 0 <= k < |items| && HasLeaf(items[k])
    case Dict(entries) => exists k :: k in entries && HasLeaf(entries[k])
    case _ => true
  }

  /** Just the values without any leaf are left out. */
  lemma {:induction false} LeafIsKept(v: Value)
    ensures Pruned(v).Some? <==> HasLeaf(v)
    decreases v
  {
    match v
    case List(items) =>
      forall k | 0 <= k < |items|
        ensures Pruned(items[k]).Some? <==> HasLeaf(items[k])
      {
        LeafIsKept(items[k]);
      }
      ItemIsKept(items);
    case Dict(entries) =>
      forall k | k in entries
        ensures Pruned(entries[k]).Some? <==> HasLeaf(entries[k])
      {
        LeafIsKept(entries[k]);
      }
      var copy := map k | k in entries && Pruned(entries[k]).Some? :: Pruned(entries[k]).value;
      if HasLeaf(v) {
        var k :| k in entries && HasLeaf(entries[k]);
        assert k in copy;
      }
    case _ =>
  }

  lemma {:induction false} ItemIsKept(items: seq<Value>)
    ensures PrunedItems(items) != [] <==> exists k :: 0 <= k < |items| && Pruned(items[k]).Some?
  {
    if items != [] {
      ItemIsKept(items[1..]);
      assert items == [items[0]] + items[1..];
      assert forall k :: 0 < k < |items| ==> items[k] == items[1..][k - 1];
      assert forall k :: 0 <= k < |items[1..]| ==> items[1..][k] == items[k + 1];
    }
  }

  lemma {:induction false} PrunedItemsAppend(a: seq<Value>, b: seq<Value>)
    ensures PrunedItems(a + b) == PrunedItems(a) + PrunedItems(b)
  {
    hide Pruned;
    if a == [] {
      assert a + b == b;
    } else {
      PrunedItemsAppend(a[1..], b);
      assert (a + b)[0] == a[0] && (a + b)[1..] == a[1..] + b;
    }
  }

  /** The copy of a list is, in order, the copies of its items that have a leaf. */
  lemma CopiesOfItems(before: seq<Value>, item: Value, after: seq<Value>)
    ensures HasLeaf(item) <==> Pruned(item).Some?
    ensures PrunedItems([]) == [] && PrunedItems(before + [item] + after)
        == PrunedItems(before) + (if HasLeaf(item) then [Pruned(item).value] else []) + PrunedItems(after)
    ensures HasLeaf(List(before + [item] + after)) ==>
        Pruned(List(before + [item] + after)) == Some(List(PrunedItems(before + [item] + after)))
  {
    hide HasLeaf, Pruned, PrunedItems;
    LeafIsKept(item);
    LeafIsKept(List(before + [item] + after));
    PrunedItemsAppend(before + [item], after);
    PrunedItemsAppend(before, [item]);
    SingleItem(item);
    PrunedList(before + [item] + after);
  }

  lemma SingleItem(item: Value)
    ensures PrunedItems([]) == [] && PrunedItems([item]) == if Pruned(item).Some? then [Pruned(item).value] else []
  {
    hide Pruned;
    assert [item][1..] == [];
  }

  lemma PrunedList(items: seq<Value>)
    ensures Pruned(List(items)).Some? ==> Pruned(List(items)) == Some(List(PrunedItems(items)))
  {
  }

  // ------------------------------------------------------------ merge

  /** MergeDictionary: dictionaries under the same key are merged, everything else of the
      second is copied over. */
  function Merged(a: Dictionary, b: Dictionary): Dictionary
  {
    map k | k in a.Keys + b.Keys :: if k in b then MergedEntry(if k in a then Some(a[k]) else None, b[k]) else a[k]
  }

  /** What becomes of one entry, given the one that is there already. */
  function MergedEntry(a: Option<Value>, b: Value): Value
    decreases b
  {
    if b.Dict? && a.Some? && a.value.Dict? then
      var x, y := a.value.entries, b.entries;
      Dict(map k | k in x.Keys + y.Keys :: if k in y then MergedEntry(if k in x then Some(x[k]) else None, y[k]) else x[k])
    else b
  }

  lemma {:induction false} EntryTwice(a: Option<Value>, b: Value)
    ensures MergedEntry(Some(MergedEntry(a, b)), b) == MergedEntry(a, b)
    decreases b
  {
    if b.Dict? {
      var y := b.entries;
      var x := if a.Some? && a.value.Dict? then a.value.entries else map[];
      forall k | k in y
        ensures var old_ := if k in x then Some(x[k]) else None;
            MergedEntry(Some(MergedEntry(old_, y[k])), y[k]) == MergedEntry(old_, y[k])
        ensures MergedEntry(Some(MergedEntry(None, y[k])), y[k]) == y[k]
      {
        EntryTwice(if k in x then Some(x[k]) else None, y[k]);
        EntryTwice(None, y[k]);
      }
    }
  }

  /** Merging the same dictionary twice is merging it once. */
  lemma MergeTwice(a: Dictionary, b: Dictionary)
    ensures Merged(Merged(a, b), b) == Merged(a, b)
  {
    forall k | k in b
      ensures MergedEntry(Some(Merged(a, b)[k]), b[k]) == Merged(a, b)[k]
    {
      EntryTwice(if k in a then Some(a[k]) else None, b[k]);
    }
  }

  lemma EntryMerged(a: Option<Value>, b: Value)
    ensures MergedEntry(a, b) == if b.Dict? && a.Some? && a.value.Dict? then Dict(Merged(a.value.entries, b.entries)) else b
  {
  }

  /** Some key of the path before the last leads to what is not a dictionary. */
  ghost predicate InTheWay(d: Dictionary, p: seq<string>)
  {
    exists n :: 0 < n < |p| && Lookup(d, p[..n]).Some? && !Lookup(d, p[..n]).value.Dict?
  }

  lemma InTheWayBelow(d: Dictionary, p: seq<string>)
    requires |p| > 1 && p[0] in d && d[p[0]].Dict?
    ensures InTheWay(d, p) <==> InTheWay(d[p[0]].entries, p[1..])
  {
    var child := d[p[0]].entries;
    forall n | 1 < n < |p|
      ensures Lookup(d, p[..n]) == Lookup(child, p[1..][..n - 1])
    {
      assert p[..n][1..] == p[1..][..n - 1];
    }
    if InTheWay(d, p) {
      var n :| 0 < n < |p| && Lookup(d, p[..n]).Some? && !Lookup(d, p[..n]).value.Dict?;
      assert n > 1 && Lookup(child, p[1..][..n - 1]) == Lookup(d, p[..n]);
    }
    if InTheWay(child, p[1..]) {
      var n :| 0 < n < |p[1..]| && Lookup(child, p[1..][..n]).Some? && !Lookup(child, p[1..][..n]).value.Dict?;
      assert p[1..][..n] == p[1..][..n + 1 - 1] && Lookup(d, p[..n + 1]) == Lookup(child, p[1..][..n]);
    }
  }

  lemma InTheWayFirst(d: Dictionary, p: seq<string>)
    requires p != []
    ensures |p| == 1 || p[0] !in d ==> !InTheWay(d, p)
    ensures |p| > 1 && p[0] in d && !d[p[0]].Dict? ==> InTheWay(d, p)
  {
    assert p[..1] == [p[0]];
  }

  /** What the merge has at any path: where the second dictionary has an entry, that one,
      merged with the first's if both are dictionaries; elsewhere the first's entry, unless
      the second has something else than a dictionary on the way there. */
  lemma {:induction false} MergeEverywhere(a: Dictionary, b: Dictionary, p: seq<string>)
    requires p != []
    ensures Lookup(Merged(a, b), p) ==
            if Lookup(b, p).Some? then Some(MergedEntry(Lookup(a, p), Lookup(b, p).value))
            else if InTheWay(b, p) then None
            else Lookup(a, p)
    decreases |p|
  {
    hide InTheWay;
    InTheWayFirst(b, p);
    if |p| > 1 {
      if p[0] in b && b[p[0]].Dict? {
        InTheWayBelow(b, p);
        EntryMerged(if p[0] in a then Some(a[p[0]]) else None, b[p[0]]);
        if p[0] in a && a[p[0]].Dict? {
          MergeEverywhere(a[p[0]].entries, b[p[0]].entries, p[1..]);
        } else {
          assert Lookup(Merged(a, b), p) == Lookup(b, p);
          if Lookup(b, p).Some? {
            EntryMerged(None, Lookup(b, p).value);
          }
        }
      }
    }
  }

  /** At the path the first and the last dictionary have dictionaries x and y, of which x has
      something that merging keeps, and the middle one has something else. */
  ghost predicate Conflict(a: Dictionary, b: Dictionary, c: Dictionary, p: seq<string>)
  {
    p != [] && Lookup(a, p).Some? && Lookup(a, p).value.Dict? && Lookup(c, p).Some? && Lookup(c, p).value.Dict?
    && Lookup(b, p).Some? && !Lookup(b, p).value.Dict?
    && Merged(Lookup(a, p).value.entries, Lookup(c, p).value.entries) != Lookup(c, p).value.entries
  }

  /** Merging is associative if and only if there is no such path. */
  lemma MergeAssociates(a: Dictionary, b: Dictionary, c: Dictionary)
    ensures Merged(Merged(a, b), c) == Merged(a, Merged(b, c)) <==> forall p :: !Conflict(a, b, c, p)
  {
    hide Merged, Conflict;
    forall p | Conflict(a, b, c, p)
      ensures Merged(Merged(a, b), c) != Merged(a, Merged(b, c))
    {
      ConflictDiffers(a, b, c, p);
    }
    if forall p :: !Conflict(a, b, c, p) {
      AssociatesBelow(a, b, Dict(c));
    }
  }

  /** So it is not associative in general. */
  lemma MergeNotAssociative()
    ensures var a, b, c := map["k" := Dict(map["m" := Null])], map["k" := Null], map["k" := Dict(map[])];
        Merged(Merged(a, b), c) != Merged(a, Merged(b, c))
  {
    var a, b, c := map["k" := Dict(map["m" := Null])], map["k" := Null], map["k" := Dict(map[])];
    assert "m" in Merged(map["m" := Null], map[]);
    assert Conflict(a, b, c, ["k"]);
    ConflictDiffers(a, b, c, ["k"]);
  }

  lemma ConflictDiffers(a: Dictionary, b: Dictionary, c: Dictionary, p: seq<string>)
    requires Conflict(a, b, c, p)
    ensures Merged(Merged(a, b), c) != Merged(a, Merged(b, c))
  {
    hide Merged, MergedEntry, Lookup, InTheWay;
    var x, y := Lookup(a, p).value, Lookup(c, p).value;
    MergeEverywhere(a, b, p);
    MergeEverywhere(Merged(a, b), c, p);
    MergeEverywhere(b, c, p);
    MergeEverywhere(a, Merged(b, c), p);
    EntryMerged(Some(x), Lookup(b, p).value);
    EntryMerged(Lookup(b, p), y);
    EntryMerged(Some(x), y);
  }

  lemma ConflictBelow(a: Dictionary, b: Dictionary, c: Dictionary, k: string, p: seq<string>)
    requires k in a && a[k].Dict? && k in b && b[k].Dict? && k in c && c[k].Dict?
    requires Conflict(a[k].entries, b[k].entries, c[k].entries, p)
    ensures Conflict(a, b, c, [k] + p)
  {
    hide Merged;
    assert ([k] + p)[1..] == p;
  }

  /** One entry of both merges. */
  lemma MergedAt(a: Dictionary, b: Dictionary, k: string)
    ensures Entry(Merged(a, b), k) == if k in b then Some(MergedEntry(Entry(a, k), b[k])) else Entry(a, k)
  {
  }

  function Entry(d: Dictionary, k: string): Option<Value>
  {
    if k in d then Some(d[k]) else None
  }

  lemma SameEntries(d: Dictionary, e: Dictionary)
    requires forall k :: Entry(d, k) == Entry(e, k)
    ensures d == e
  {
    forall k
      ensures k in d <==> k in e
      ensures k in d ==> d[k] == e[k]
    {
      assert Entry(d, k) == Entry(e, k);
    }
  }

  lemma {:induction false} AssociatesBelow(a: Dictionary, b: Dictionary, c: Value)
    requires c.Dict? && forall p :: !Conflict(a, b, c.entries, p)
    ensures Merged(Merged(a, b), c.entries) == Merged(a, Merged(b, c.entries))
    decreases c
  {
    hide Merged, MergedEntry, Conflict;
    var left, right := Merged(Merged(a, b), c.entries), Merged(a, Merged(b, c.entries));
    forall k
      ensures Entry(left, k) == Entry(right, k)
    {
      MergedAt(a, b, k);
      MergedAt(Merged(a, b), c.entries, k);
      MergedAt(b, c.entries, k);
      MergedAt(a, Merged(b, c.entries), k);
      if k in c.entries {
        var y := c.entries[k];
        if k in a && a[k].Dict? && k in b && b[k].Dict? && y.Dict? {
          forall p
            ensures !Conflict(a[k].entries, b[k].entries, y.entries, p)
          {
            if Conflict(a[k].entries, b[k].entries, y.entries, p) {
              ConflictBelow(a, b, c.entries, k, p);
              assert false;
            }
          }
          AssociatesBelow(a[k].entries, b[k].entries, y);
        }
        EntryAssociates(a, b, c.entries, k);
      }
    }
    SameEntries(left, right);
  }

  /** Under one key, given that the dictionaries there associate. */
  lemma EntryAssociates(a: Dictionary, b: Dictionary, c: Dictionary, k: string)
    requires k in c && !Conflict(a, b, c, [k])
    requires k in a && a[k].Dict? && k in b && b[k].Dict? && c[k].Dict? ==>
        Merged(Merged(a[k].entries, b[k].entries), c[k].entries) == Merged(a[k].entries, Merged(b[k].entries, c[k].entries))
    ensures var ab := if k in b then Some(MergedEntry(Entry(a, k), b[k])) else Entry(a, k);
        MergedEntry(ab, c[k]) == MergedEntry(Entry(a, k), MergedEntry(Entry(b, k), c[k]))
  {
    hide Merged, MergedEntry;
    EntryMerged(Entry(b, k), c[k]);
    EntryMerged(Entry(a, k), MergedEntry(Entry(b, k), c[k]));
    EntryMerged(Entry(a, k), c[k]);
    if k in b {
      EntryMerged(Entry(a, k), b[k]);
      EntryMerged(Some(MergedEntry(Entry(a, k), b[k])), c[k]);
    }
  }

  // ------------------------------------------------------------ equality and copies

  /** The order of the keys in a dictionary. */
  predicate Less(x: string, y: string)
  {
    y != "" && (x == "" || x[0] < y[0] || (x[0] == y[0] && Less(x[1..], y[1..])))
  }

  lemma {:induction false} LessIsStrict(x: string, y: string)
    ensures x == y ==> !Less(x, y)
    ensures Less(x, y) ==> !Less(y, x)
    ensures x != y ==> Less(x, y) || Less(y, x)
  {
    if x != "" && y != "" && x[0] == y[0] {
      LessIsStrict(x[1..], y[1..]);
      assert x == [x[0]] + x[1..] && y == [y[0]] + y[1..];
    }
  }

  lemma {:induction false} LessTransitive(x: string, y: string, z: string)
    requires Less(x, y) && Less(y, z)
    ensures Less(x, z)
  {
    if x != "" && x[0] == y[0] == z[0] {
      LessTransitive(x[1..], y[1..], z[1..]);
    }
  }

  ghost predicate Sorted(keys: seq<string>)
  {
    forall i, j :: 0 <= i < j < |keys| ==> Less(keys[i], keys[j])
  }

  /** A sorted list of keys with one more key. */
  function Inserted(keys: seq<string>, key: string): seq<string>
  {
    if keys == [] || Less(key, keys[0]) then [key] + keys else [keys[0]] + Inserted(keys[1..], key)
  }

  lemma SortedCons(key: string, keys: seq<string>)
    requires Sorted(keys) && forall k :: k in keys ==> Less(key, k)
    ensures Sorted([key] + keys)
  {
    hide Less;
    var all := [key] + keys;
    forall i, j | 0 <= i < j < |all|
      ensures Less(all[i], all[j])
    {
      assert all[j] == keys[j - 1] && keys[j - 1] in keys;
    }
  }

  lemma {:induction false} InsertedSorted(keys: seq<string>, key: string)
    requires Sorted(keys) && key !in keys
    ensures Sorted(Inserted(keys, key)) && forall k :: k in Inserted(keys, key) <==> k == key || k in keys
  {
    hide Less;
    if keys == [] {
    } else if Less(key, keys[0]) {
      forall k | k in keys
        ensures Less(key, k)
      {
        var i :| 0 <= i < |keys| && keys[i] == k;
        if i > 0 {
          LessTransitive(key, keys[0], keys[i]);
        }
      }
      SortedCons(key, keys);
    } else {
      var tail := keys[1..];
      assert keys == [keys[0]] + tail;
      assert forall i :: 0 <= i < |tail| ==> tail[i] == keys[i + 1];
      LessIsStrict(key, keys[0]);
      InsertedSorted(tail, key);
      SortedCons(keys[0], Inserted(tail, key));
    }
  }

  lemma FirstIsIn(s: seq<string>)
    ensures s != [] ==> s[0] in s
  {
  }

  /** Sorted lists of the same keys are the same list. */
  lemma {:induction false} SortedOnce(s: seq<string>, t: seq<string>)
    requires Sorted(s) && Sorted(t) && forall k :: k in s <==> k in t
    ensures s == t
  {
    hide Less;
    FirstIsIn(t);
    if s == [] {
    } else {
      assert s[0] in t && t[0] in s;
      var i :| 0 <= i < |t| && t[i] == s[0];
      var j :| 0 <= j < |s| && s[j] == t[0];
      LessIsStrict(s[0], t[0]);
      assert s[0] == t[0];
      SortedTail(s);
      SortedTail(t);
      SortedOnce(s[1..], t[1..]);
      assert s == [s[0]] + s[1..] && t == [t[0]] + t[1..];
    }
  }

  lemma SortedTail(s: seq<string>)
    requires Sorted(s) && s != []
    ensures Sorted(s[1..]) && forall k :: k in s[1..] <==> k in s && k != s[0]
  {
    hide Less;
    assert s == [s[0]] + s[1..];
    LessIsStrict(s[0], s[0]);
    forall k | k in s[1..]
      ensures k != s[0]
    {
      var i :| 0 <= i < |s[1..]| && s[1..][i] == k;
      assert s[1..][i] == s[i + 1];
    }
  }

  /** The keys in the order in which a dictionary's iterator comes to them. */
  method SortedKeys(d: Dictionary) returns (keys: seq<string>)
    ensures Sorted(keys) && forall k :: k in keys <==> k in d
  {
    keys := [];
    var rest := d.Keys;
    while rest != {}
      invariant Sorted(keys) && forall k :: k in keys <==> k in d && k !in rest
      invariant rest <= d.Keys
      decreases |rest|
    {
      hide Sorted, Less, Inserted;
      var key :| key in rest;
      InsertedSorted(keys, key);
      keys := Inserted(keys, key);
      rest := rest - {key};
    }
  }

  /** Value::Equals, for values that are not NULL pointers: true just for the same tree. */
  method Equals(a: Value, b: Value) returns (r: bool)
    ensures r <==> a == b
    decreases a, 1
  {
    match (a, b)
    case (List(s), List(t)) =>
      r := ListEquals(a, b);
    case (Dict(m), Dict(n)) =>
      r := DictionaryEquals(a, b);
    case (_, _) =>
      r := a == b;
  }

  /** ListValue::Equals: both lists are walked until one ends or the elements differ. */
  method ListEquals(a: Value, b: Value) returns (r: bool)
    requires a.List? && b.List?
    ensures r <==> a == b
    decreases a, 0
  {
    var i := 0;
    while i < |a.items| && i < |b.items|
      invariant i <= |a.items| && i <= |b.items| && a.items[..i] == b.items[..i]
    {
      var same := Equals(a.items[i], b.items[i]);
      if !same {
        return false;
      }
      i := i + 1;
    }
    r := i == |a.items| && i == |b.items|;
  }

  /** DictionaryValue::Equals: the entries of both are walked in the order of their keys,
      until one ends or keys or values differ. */
  method DictionaryEquals(a: Value, b: Value) returns (r: bool)
    requires a.Dict? && b.Dict?
    ensures r <==> a == b
    decreases a, 0
  {
    hide Sorted;
    var m, n := a.entries, b.entries;
    var left := SortedKeys(m);
    var right := SortedKeys(n);
    if m.Keys == n.Keys {
      SortedOnce(left, right);
    }
    var i := 0;
    while i < |left| && i < |right|
      invariant i <= |left| && i <= |right| && left[..i] == right[..i]
      invariant forall k :: k in left[..i] ==> k in m && k in n && m[k] == n[k]
    {
      assert left[i] in left && right[i] in right;
      if left[i] != right[i] {
        return false;
      }
      var same := Equals(m[left[i]], n[right[i]]);
      if !same {
        return false;
      }
      assert left[..i + 1] == left[..i] + [left[i]];
      i := i + 1;
    }
    r := i == |left| && i == |right|;
    if r {
      assert left[..i] == left && right[..i] == right;
      assert m == n;
    }
  }

  /** DeepCopy. */
  function DeepCopy(v: Value): Value
  {
    match v
    case List(items) => List(seq(|items|, i requires 0 <= i < |items| => DeepCopy(items[i])))
    case Dict(entries) => Dict(map k | k in entries :: DeepCopy(entries[k]))
    case _ => v
  }

  /** A deep copy is the same tree as its original. */
  lemma {:induction false} DeepCopyEquals(v: Value)
    ensures DeepCopy(v) == v
    decreases v
  {
    match v
    case List(items) =>
      forall i | 0 <= i < |items|
        ensures DeepCopy(items[i]) == items[i]
      {
        DeepCopyEquals(items[i]);
      }
      assert DeepCopy(v).items == items;
    case Dict(entries) =>
      forall k | k in entries
        ensures DeepCopy(entries[k]) == entries[k]
      {
        DeepCopyEquals(entries[k]);
      }
      assert DeepCopy(v).entries == entries;
    case _ =>
  }

  // ------------------------------------------------------------ the class

  lemma StoredAt(d: Dictionary, path: string, v: Value)
    requires Dot(path) == |path|
    ensures Stored(d, Keys(path), v) == d[path := v]
  {
  }

  lemma StoredBelow(d: Dictionary, path: string, v: Value)
    requires Dot(path) < |path|
    ensures var key, rest := path[..Dot(path)], path[Dot(path) + 1..];
        Stored(d, Keys(path), v) == d[key := Dict(Stored(if key in d && d[key].Dict? then d[key].entries else map[], Keys(rest), v))]
  {
    hide Stored, Dot;
    var key, rest := path[..Dot(path)], path[Dot(path) + 1..];
    assert Keys(path) == [key] + Keys(rest);
    StoredStep(d, key, Keys(rest), v);
  }

  lemma StoredStep(d: Dictionary, key: string, rest: seq<string>, v: Value)
    requires rest != []
    ensures Stored(d, [key] + rest, v) == d[key := Dict(Stored(if key in d && d[key].Dict? then d[key].entries else map[], rest, v))]
  {
    assert ([key] + rest)[1..] == rest;
  }

  lemma KeysNoDot(path: string)
    requires '.' !in path
    ensures Keys(path) == [path]
  {
    assert Dot(path) == |path|;
  }

  lemma {:induction false} KeysAppend(a: string, b: string)
    ensures Keys(a + "." + b) == Keys(a) + Keys(b)
    decreases |a|
  {
    hide Keys, Dot;
    var path := a + "." + b;
    var k := Dot(a);
    DotOf(path, k);
    KeysStep(path);
    KeysStep(a);
    if k == |a| {
      assert path[..k] == a && path[k + 1..] == b;
    } else {
      KeysAppend(a[k + 1..], b);
      assert path[..k] == a[..k] && path[k + 1..] == a[k + 1..] + "." + b;
    }
  }

  lemma KeysStep(path: string)
    ensures Keys(path) == if Dot(path) == |path| then [path] else [path[..Dot(path)]] + Keys(path[Dot(path) + 1..])
  {
    hide Dot;
  }

  lemma {:induction false} DotOf(path: string, k: nat)
    requires k < |path| && path[k] == '.' && '.' !in path[..k]
    ensures Dot(path) == k
  {
    if k > 0 {
      assert path[..k][0] == path[0] && path[1..][..k - 1] == path[..k][1..];
      DotOf(path[1..], k - 1);
    }
  }

  /** A removal by the last key from the dictionary that the keys before lead to. */
  lemma {:induction false} TakenFromParent(d: Dictionary, parent: seq<string>, key: string)
    requires parent != []
    ensures Lookup(d, parent + [key]).Some? <==> Lookup(d, parent).Some? && Lookup(d, parent).value.Dict? && key in Lookup(d, parent).value.entries
    ensures Lookup(d, parent + [key]).Some? ==> Taken(d, parent + [key], false) == Stored(d, parent, Dict(Lookup(d, parent).value.entries - {key}))
    ensures Lookup(d, parent + [key]).Some? ==> Lookup(d, parent + [key]).value == Lookup(d, parent).value.entries[key]
    decreases |parent|
  {
    assert (parent + [key])[1..] == parent[1..] + [key];
    if |parent| == 1 {
      assert parent[1..] + [key] == [key];
    } else if parent[0] in d && d[parent[0]].Dict? {
      TakenFromParent(d[parent[0]].entries, parent[1..], key);
    }
  }

  class DictionaryValue {
    var dictionary: Dictionary

    constructor ()
      ensures dictionary == map[]
    {
      dictionary := map[];
    }

    method SetWithoutPathExpansion(key: string, v: Value)
      modifies this
      ensures dictionary == old(dictionary)[key := v]
    {
      dictionary := dictionary[key := v];
    }

    /** Get: walks down one key at a time. */
    method Get(path: string) returns (r: Option<Value>)
      ensures r == Lookup(dictionary, Keys(path))
    {
      var currentPath, current := path, dictionary;
      var delimiter := Dot(currentPath);
      while delimiter != |currentPath|
        invariant delimiter == Dot(currentPath)
        invariant Lookup(current, Keys(currentPath)) == Lookup(dictionary, Keys(path))
        decreases |currentPath|
      {
        var key := currentPath[..delimiter];
        if key !in current || !current[key].Dict? {
          return None;
        }
        current := current[key].entries;
        currentPath := currentPath[delimiter + 1..];
        delimiter := Dot(currentPath);
      }
      r := if currentPath in current then Some(current[currentPath]) else None;
    }

    /** Set: what the walk down leaves in each dictionary is put together on the way back. */
    method Set(path: string, v: Value)
      modifies this
      ensures dictionary == Stored(old(dictionary), Keys(path), v)
    {
      dictionary := SetIn(dictionary, path, v);
    }

    static method SetIn(d: Dictionary, path: string, v: Value) returns (r: Dictionary)
      ensures r == Stored(d, Keys(path), v)
      decreases |path|
    {
      hide Stored, Keys;
      var delimiter := Dot(path);
      if delimiter == |path| {
        StoredAt(d, path, v);
        return d[path := v];
      }
      var key := path[..delimiter];
      var child := map[];
      if key in d && d[key].Dict? {
        child := d[key].entries;
      }
      StoredBelow(d, path, v);
      child := SetIn(child, path[delimiter + 1..], v);
      r := d[key := Dict(child)];
    }

    method RemoveWithoutPathExpansion(key: string) returns (r: Option<Value>)
      modifies this
      ensures r == if key in old(dictionary) then Some(old(dictionary)[key]) else None
      ensures dictionary == old(dictionary) - {key}
    {
      if key !in dictionary {
        assert dictionary - {key} == dictionary;
        return None;
      }
      r := Some(dictionary[key]);
      dictionary := dictionary - {key};
    }

    /** Remove: leaves the dictionaries on the path, even when it empties one. */
    method Remove(path: string) returns (r: Option<Value>)
      modifies this
      ensures r == Lookup(old(dictionary), Keys(path))
      ensures dictionary == Taken(old(dictionary), Keys(path), false)
    {
      hide LastDot;
      var delimiter := LastDot(path);
      if delimiter == |path| {
        KeysNoDot(path);
        assert path !in dictionary ==> dictionary - {path} == dictionary;
        r := RemoveWithoutPathExpansion(path);
        return;
      }
      var parent, key := path[..delimiter], path[delimiter + 1..];
      assert path == parent + "." + key;
      KeysAppend(parent, key);
      KeysNoDot(key);
      TakenFromParent(dictionary, Keys(parent), key);
      var sub := Get(parent);
      if sub.None? || !sub.value.Dict? || key !in sub.value.entries {
        RemoveMissing(dictionary, Keys(path), false);
        return None;
      }
      r := Some(sub.value.entries[key]);
      Set(parent, Dict(sub.value.entries - {key}));
    }

    /** RemovePath: also removes the dictionaries on the path that become empty. */
    method RemovePath(path: string) returns (r: Option<Value>)
      modifies this
      ensures r == Lookup(old(dictionary), Keys(path))
      ensures dictionary == Taken(old(dictionary), Keys(path), true)
    {
      r, dictionary := RemoveIn(dictionary, path);
    }

    static method RemoveIn(d: Dictionary, path: string) returns (r: Option<Value>, rest: Dictionary)
      ensures r == Lookup(d, Keys(path)) && rest == Taken(d, Keys(path), true)
      decreases |path|
    {
      var delimiter := Dot(path);
      if delimiter == |path| {
        return if path in d then Some(d[path]) else None, d - {path};
      }
      var subdictPath := path[..delimiter];
      if subdictPath !in d || !d[subdictPath].Dict? {
        return None, d;
      }
      var subdict;
      r, subdict := RemoveIn(d[subdictPath].entries, path[delimiter + 1..]);
      if r.None? {
        return None, d;
      }
      rest := if subdict == map[] then d - {subdictPath} else d[subdictPath := Dict(subdict)];
    }

    /** MergeDictionary. */
    method MergeDictionary(other: DictionaryValue)
      modifies this
      ensures dictionary == Merged(old(dictionary), old(other.dictionary))
    {
      dictionary := MergeInto(dictionary, other.dictionary);
    }

    static method MergeInto(a: Dictionary, b: Dictionary) returns (r: Dictionary)
      ensures r == Merged(a, b)
      decreases Dict(b)
    {
      hide Merged, Part;
      r := a;
      MergeNone(a, b);
      var rest := b.Keys;
      ghost var done := {};
      while rest != {}
        invariant done !! rest && done + rest == b.Keys && r == Merged(a, Part(b, done))
        decreases |rest|
      {
        var key :| key in rest;
        MergeNext(a, b, done, key);
        rest, done := rest - {key}, done + {key};
        var mergeValue := b[key];
        if mergeValue.Dict? && key in r && r[key].Dict? {
          var sub := MergeInto(r[key].entries, mergeValue.entries);
          r := r[key := Dict(sub)];
        } else {
          r := r[key := mergeValue];
        }
      }
      PartAll(b);
      assert done == b.Keys;
    }
  }

  /** The entries of b under some keys. */
  function Part(b: Dictionary, keys: set<string>): Dictionary
  {
    map k | k in b && k in keys :: b[k]
  }

  lemma PartAll(b: Dictionary)
    ensures Part(b, b.Keys) == b
  {
  }

  lemma MergeNone(a: Dictionary, b: Dictionary)
    ensures Merged(a, Part(b, {})) == a
  {
  }

  /** One entry more of the second dictionary. */
  lemma MergeNext(a: Dictionary, b: Dictionary, done: set<string>, key: string)
    requires key in b && key !in done
    ensures var r := Merged(a, Part(b, done));
        var entry := if b[key].Dict? && key in r && r[key].Dict? then Dict(Merged(r[key].entries, b[key].entries)) else b[key];
        Merged(a, Part(b, done + {key})) == r[key := entry]
  {
    hide MergedEntry;
    var r := Merged(a, Part(b, done));
    assert key in r <==> key in a;
    EntryMerged(if key in a then Some(a[key]) else None, b[key]);
  }

  /** What the operations on paths mean for each other: a path reads back what was set,
      and every path that is not comparable with it reads as before; after RemovePath it
      reads nothing, nothing empty is left on it, and the same others read as before. */
  lemma PathLaws(d: Dictionary, path: string, v: Value, other: string)
    ensures Lookup(Stored(d, Keys(path), v), Keys(path)) == Some(v)
    ensures Lookup(Taken(d, Keys(path), true), Keys(path)) == None
    ensures Incomparable(Keys(path), Keys(other)) ==> Lookup(Stored(d, Keys(path), v), Keys(other)) == Lookup(d, Keys(other))
    ensures Incomparable(Keys(path), Keys(other)) ==> Lookup(Taken(d, Keys(path), true), Keys(other)) == Lookup(d, Keys(other))
    ensures Lookup(d, Keys(path)).Some? ==>
        forall n :: 0 < n < |Keys(path)| ==>
        Lookup(Taken(d, Keys(path), true), Keys(path)[..n]) != Some(Dict(map[]))
  {
    var p, q := Keys(path), Keys(other);
    GetAfterSet(d, p, v);
    GetAfterRemove(d, p, true);
    if Incomparable(p, q) {
      SetElsewhere(d, p, v, q);
      RemoveElsewhere(d, p, true, q);
    }
    if Lookup(d, p).Some? {
      forall n | 0 < n < |p|
        ensures Lookup(Taken(d, p, true), p[..n]) != Some(Dict(map[]))
      {
        NoEmptyOnPath(d, p, n);
      }
    }
  }
}
