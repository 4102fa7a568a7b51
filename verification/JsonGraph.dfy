/** The recogniser of JSON values among arbitrary JavaScript values, which may share objects or be
    cyclic. Objects live in a heap; what a value contains is described by the paths into it. */
module JsonGraph {
  import opened Text

  type Ref = nat

  /** A JavaScript value; `Other` is a function, a symbol, a bigint or undefined. */
  datatype Value = Null | Str | Bool | Num(finite: bool) | Other | Object(ref: Ref)

  datatype Slot = Hole | Own(value: Value)

  /** An array with its slots, or an object whose prototype is `Object.prototype` or null when plain. */
  datatype HeapObject = Array(slots: seq<Slot>) | Record(plain: bool, fields: seq<Value>)

  type Heap = map<Ref, HeapObject>

  /** Reading a hole gives undefined. */
  function SlotValue(s: Slot): Value {
    match s case Hole => Other case Own(v) => v
  }

  function Items(o: HeapObject): seq<Value> {
    match o
    case Array(slots) => seq(|slots|, (i: nat) requires i < |slots| => SlotValue(slots[i]))
    case Record(_, fields) => fields
  }

  predicate Points(h: Heap, v: Value) {
    v.Object? ==> v.ref in h
  }

  /** Every reference points to an object. */
  predicate Closed(h: Heap) {
    forall r, i | r in h && 0 <= i < |Items(h[r])| :: Points(h, Items(h[r])[i])
  }

  class WeakSet {
    var members: set<Ref>

    constructor ()
      ensures members == {}
    {
      members := {};
    }

    predicate Has(r: Ref)
      reads this
    {
      r in members
    }

    method Add(r: Ref)
      modifies this
      ensures members == old(members) + {r}
    {
      members := members + {r};
    }
  }

  /** The value at the end of a path, which names the position taken in each container. */
  function Follow(h: Heap, v: Value, path: seq<nat>): (end: Option<Value>)
    requires Closed(h) && Points(h, v)
    ensures end.Some? ==> Points(h, end.value)
    decreases path
  {
    if path == [] then Some(v)
    else if v.Object? then FollowInto(h, Items(h[v.ref]), path)
    else None
  }

  predicate AllPoint(h: Heap, items: seq<Value>) {
    forall i | 0 <= i < |items| :: Points(h, items[i])
  }

  /** The same from a list of values; the first step picks one of them. */
  function FollowInto(h: Heap, items: seq<Value>, path: seq<nat>): (end: Option<Value>)
    requires Closed(h) && AllPoint(h, items) && path != []
    ensures end.Some? ==> Points(h, end.value)
    decreases path, 0
  {
    if path[0] < |items| then Follow(h, items[path[0]], path[1..]) else None
  }

  /** What is asked of a value apart from what it contains. */
  predicate LocallyJson(h: Heap, v: Value)
    requires Points(h, v)
  {
    match v
    case Null => true
    case Str => true
    case Bool => true
    case Num(finite) => finite
    case Other => false
    case Object(r) =>
      match h[r]
      case Array(slots) => forall i | 0 <= i < |slots| :: slots[i].Own?
      case Record(plain, _) => plain
  }

  /** `v` is a tree of JSON values: every node at the end of a path is one, no path is longer than
      `height`, no object is reached by two paths, and none is in `seen`. */
  ghost predicate JsonTree(h: Heap, v: Value, height: int, seen: set<Ref>)
    requires Closed(h) && Points(h, v)
  {
    && (forall p | Follow(h, v, p).Some? :: NodeOk(h, Follow(h, v, p).value, |p|, height, seen))
    && (forall p, q | Follow(h, v, p).Some? && Follow(h, v, p).value.Object? && Follow(h, v, q) == Follow(h, v, p) ::
          p == q)
  }

  predicate NodeOk(h: Heap, v: Value, depth: nat, height: int, seen: set<Ref>)
    requires Points(h, v)
  {
    depth <= height && LocallyJson(h, v) && (v.Object? ==> v.ref !in seen)
  }

  /** The objects reached from `v`. */
  ghost function Reached(h: Heap, v: Value): set<Ref>
    requires Closed(h) && Points(h, v)
  {
    set r | r in h && Reaches(h, v, r)
  }

  ghost predicate Reaches(h: Heap, v: Value, r: Ref)
    requires Closed(h) && Points(h, v)
  {
    exists p :: Follow(h, v, p) == Some(Object(r))
  }

  /** The same two notions for a list of values. */
  ghost predicate JsonForest(h: Heap, items: seq<Value>, height: int, seen: set<Ref>)
    requires Closed(h) && AllPoint(h, items)
  {
    && (forall p | p != [] && FollowInto(h, items, p).Some? ::
          NodeOk(h, FollowInto(h, items, p).value, |p| - 1, height, seen))
    && (forall p, q | p != [] && q != [] && FollowInto(h, items, p).Some? && FollowInto(h, items, p).value.Object?
                      && FollowInto(h, items, q) == FollowInto(h, items, p) :: p == q)
  }

  ghost function ReachedFrom(h: Heap, items: seq<Value>): set<Ref>
    requires Closed(h) && AllPoint(h, items)
  {
    set r | r in h && ReachesFrom(h, items, r)
  }

  ghost predicate ReachesFrom(h: Heap, items: seq<Value>, r: Ref)
    requires Closed(h) && AllPoint(h, items)
  {
    exists p | p != [] :: FollowInto(h, items, p) == Some(Object(r))
  }

  lemma {:induction false} LeafTree(h: Heap, v: Value, height: int, seen: set<Ref>)
    requires Closed(h) && Points(h, v) && !v.Object?
    ensures JsonTree(h, v, height, seen) <==> height >= 0 && LocallyJson(h, v)
    ensures Reached(h, v) == {}
  {
  }

  lemma {:induction false} ObjectReached(h: Heap, r: Ref)
    requires Closed(h) && r in h
    ensures Reached(h, Object(r)) == {r} + ReachedFrom(h, Items(h[r]))
  {
    var v, items := Object(r), Items(h[r]);
    assert Follow(h, v, []) == Some(v);
    forall s | s in Reached(h, v) ensures s in {r} + ReachedFrom(h, items) {
      var p :| Follow(h, v, p) == Some(Object(s));
      if p != [] {
        assert FollowInto(h, items, p) == Some(Object(s));
      }
    }
    forall s | s in ReachedFrom(h, items) ensures s in Reached(h, v) {
      var p :| p != [] && FollowInto(h, items, p) == Some(Object(s));
      assert Follow(h, v, p) == Some(Object(s));
    }
  }

  /** Following a path into a longer list of items: either into the earlier ones or below the last. */
  lemma {:induction false} IntoPrefix(h: Heap, items: seq<Value>, n: nat, p: seq<nat>)
    requires Closed(h) && AllPoint(h, items) && n < |items| && p != []
    ensures p[0] < n ==> FollowInto(h, items[..n + 1], p) == FollowInto(h, items[..n], p)
    ensures p[0] == n ==> FollowInto(h, items[..n + 1], p) == Follow(h, items[n], p[1..])
    ensures p[0] > n ==> FollowInto(h, items[..n + 1], p) == None
    ensures p[0] >= n ==> FollowInto(h, items[..n], p) == None
  {
  }

  lemma {:induction false} ForestReached(h: Heap, items: seq<Value>, n: nat)
    requires Closed(h) && AllPoint(h, items) && n < |items|
    ensures ReachedFrom(h, items[..n + 1]) == ReachedFrom(h, items[..n]) + Reached(h, items[n])
  {
    forall r | r in ReachedFrom(h, items[..n + 1])
      ensures r in ReachedFrom(h, items[..n]) + Reached(h, items[n])
    {
      var p :| p != [] && FollowInto(h, items[..n + 1], p) == Some(Object(r));
      IntoPrefix(h, items, n, p);
    }
    forall r | r in ReachedFrom(h, items[..n]) ensures r in ReachedFrom(h, items[..n + 1]) {
      var p :| p != [] && FollowInto(h, items[..n], p) == Some(Object(r));
      IntoPrefix(h, items, n, p);
    }
    forall r | r in Reached(h, items[n]) ensures r in ReachedFrom(h, items[..n + 1]) {
      var p :| Follow(h, items[n], p) == Some(Object(r));
      IntoPrefix(h, items, n, [n] + p);
    }
  }

  lemma {:induction false} ForestShrinks(h: Heap, items: seq<Value>, n: nat, height: int, seen: set<Ref>)
    requires Closed(h) && AllPoint(h, items) && n < |items|
    requires JsonForest(h, items[..n + 1], height, seen)
    ensures JsonForest(h, items[..n], height, seen)
    ensures JsonTree(h, items[n], height, seen + ReachedFrom(h, items[..n]))
  {
    var more, fewer := items[..n + 1], items[..n];
    forall p | p != [] && FollowInto(h, fewer, p).Some? ensures FollowInto(h, more, p) == FollowInto(h, fewer, p) {
      IntoPrefix(h, items, n, p);
    }
    forall p | Follow(h, items[n], p).Some?
      ensures NodeOk(h, Follow(h, items[n], p).value, |p|, height, seen + ReachedFrom(h, fewer))
    {
      IntoPrefix(h, items, n, [n] + p);
    }
    forall p, q | Follow(h, items[n], p).Some? && Follow(h, items[n], p).value.Object?
                  && Follow(h, items[n], q) == Follow(h, items[n], p)
      ensures p == q
    {
      IntoPrefix(h, items, n, [n] + p);
      IntoPrefix(h, items, n, [n] + q);
      assert [n] + p == [n] + q;
      assert p == ([n] + p)[1..] && q == ([n] + q)[1..];
    }
  }

  lemma {:induction false} ForestGrows(h: Heap, items: seq<Value>, n: nat, height: int, seen: set<Ref>)
    requires Closed(h) && AllPoint(h, items) && n < |items|
    requires JsonForest(h, items[..n], height, seen)
    requires JsonTree(h, items[n], height, seen + ReachedFrom(h, items[..n]))
    ensures JsonForest(h, items[..n + 1], height, seen)
  {
    var more, fewer := items[..n + 1], items[..n];
    forall p | p != [] && FollowInto(h, more, p).Some?
      ensures NodeOk(h, FollowInto(h, more, p).value, |p| - 1, height, seen)
    {
      IntoPrefix(h, items, n, p);
    }
    forall p, q | p != [] && q != [] && FollowInto(h, more, p).Some? && FollowInto(h, more, p).value.Object?
                  && FollowInto(h, more, q) == FollowInto(h, more, p)
      ensures p == q
    {
      WhichPart(h, items, n, height, seen, p);
      WhichPart(h, items, n, height, seen, q);
      if p[0] == n {
        assert p == [n] + p[1..] && q == [n] + q[1..];
      }
    }
  }

  /** An object is met among the earlier items or below the new one, not both. */
  lemma {:induction false} WhichPart(h: Heap, items: seq<Value>, n: nat, height: int, seen: set<Ref>, p: seq<nat>)
    requires Closed(h) && AllPoint(h, items) && n < |items| && p != []
    requires JsonTree(h, items[n], height, seen + ReachedFrom(h, items[..n]))
    requires FollowInto(h, items[..n + 1], p).Some? && FollowInto(h, items[..n + 1], p).value.Object?
    ensures p[0] < n ==> FollowInto(h, items[..n + 1], p) == FollowInto(h, items[..n], p)
    ensures p[0] < n <==> FollowInto(h, items[..n + 1], p).value.ref in ReachedFrom(h, items[..n])
    ensures p[0] >= n ==> p[0] == n && FollowInto(h, items[..n + 1], p) == Follow(h, items[n], p[1..])
  {
  }

  lemma {:induction false} ForestPrefix(h: Heap, items: seq<Value>, n: nat, height: int, seen: set<Ref>)
    requires Closed(h) && AllPoint(h, items) && n <= |items|
    requires JsonForest(h, items, height, seen)
    ensures JsonForest(h, items[..n], height, seen)
  {
  }

  /** In a forest every item is a tree that avoids what the items before it reach. */
  lemma {:induction false} ItemsOfForest(h: Heap, items: seq<Value>, i: nat, height: int, seen: set<Ref>)
    requires Closed(h) && AllPoint(h, items) && i < |items|
    ensures JsonForest(h, items, height, seen) ==> JsonTree(h, items[i], height, seen + ReachedFrom(h, items[..i]))
  {
    if JsonForest(h, items, height, seen) {
      ForestPrefix(h, items, i + 1, height, seen);
      ForestShrinks(h, items, i, height, seen);
    }
  }

  /** Accepts exactly the JSON trees that fit in the remaining depth and meet no seen object; then
      the objects of the tree, and no others, have been added. */
  method IsJsonCompatible(h: Heap, value: Value, maxDepth: int, seen: WeakSet, depth: nat := 0) returns (ok: bool)
    requires Closed(h) && Points(h, value)
    modifies seen
    ensures ok <==> JsonTree(h, value, maxDepth - depth, old(seen.members))
    ensures old(seen.members) <= seen.members <= old(seen.members) + Reached(h, value)
    ensures ok ==> seen.members == old(seen.members) + Reached(h, value)
    decreases maxDepth + 1 - depth, 0
  {
    if depth > maxDepth {
      assert Follow(h, value, []) == Some(value);
      return false;
    }
    if !value.Object? {
      LeafTree(h, value, maxDepth - depth, seen.members);
      return match value case Null => true case Str => true case Bool => true case Num(finite) => finite case Other => false;
    }
    assert Follow(h, value, []) == Some(value);
    if seen.Has(value.ref) {
      return false;
    }
    ObjectReached(h, value.ref);
    seen.Add(value.ref);
    match h[value.ref] {
    case Array(slots) =>
      for index := 0 to |slots|
        invariant forall i | 0 <= i < index :: slots[i].Own?
      {
        if slots[index].Hole? {
          return false;
        }
      }
    case Record(plain, _) =>
      if !plain {
        return false;
      }
    }
    ok := EveryJsonCompatible(h, Items(h[value.ref]), maxDepth, seen, depth + 1);
    TreeExact(h, value.ref, maxDepth - depth, old(seen.members));
  }

  lemma {:induction false} TreeExact(h: Heap, r: Ref, height: int, seen: set<Ref>)
    requires Closed(h) && r in h && height >= 0 && LocallyJson(h, Object(r)) && r !in seen
    ensures JsonTree(h, Object(r), height, seen) <==> JsonForest(h, Items(h[r]), height - 1, seen + {r})
  {
  }

  /** The `every` over the items, which stops at the first one refused. */
  method EveryJsonCompatible(h: Heap, items: seq<Value>, maxDepth: int, seen: WeakSet, depth: nat) returns (ok: bool)
    requires Closed(h) && AllPoint(h, items)
    modifies seen
    ensures ok <==> JsonForest(h, items, maxDepth - depth, old(seen.members))
    ensures old(seen.members) <= seen.members <= old(seen.members) + ReachedFrom(h, items)
    ensures ok ==> seen.members == old(seen.members) + ReachedFrom(h, items)
    decreases maxDepth + 1 - depth, 1
  {
    ghost var before := seen.members;
    for i := 0 to |items|
      invariant JsonForest(h, items[..i], maxDepth - depth, before)
      invariant seen.members == before + ReachedFrom(h, items[..i])
    {
      ForestReached(h, items, i);
      ok := IsJsonCompatible(h, items[i], maxDepth, seen, depth);
      if !ok {
        ItemsOfForest(h, items, i, maxDepth - depth, before);
        ReachedMore(h, items, i + 1);
        return;
      }
      ForestGrows(h, items, i, maxDepth - depth, before);
    }
    assert items[..|items|] == items;
    return true;
  }

  lemma {:induction false} ReachedMore(h: Heap, items: seq<Value>, n: nat)
    requires Closed(h) && AllPoint(h, items) && n <= |items|
    ensures ReachedFrom(h, items[..n]) <= ReachedFrom(h, items)
  {
    forall r | r in ReachedFrom(h, items[..n]) ensures r in ReachedFrom(h, items) {
      var p :| p != [] && FollowInto(h, items[..n], p) == Some(Object(r));
      assert FollowInto(h, items, p) == Some(Object(r));
    }
  }

  lemma {:induction false} FollowFurther(h: Heap, v: Value, p: seq<nat>, q: seq<nat>)
    requires Closed(h) && Points(h, v) && Follow(h, v, p).Some?
    ensures Follow(h, v, p + q) == Follow(h, Follow(h, v, p).value, q)
    decreases p
  {
    if p == [] {
      assert p + q == q;
    } else {
      assert (p + q)[1..] == p[1..] + q;
      FollowFurther(h, Items(h[v.ref])[p[0]], p[1..], q);
    }
  }

  /** A value from which some object leads back to itself is refused, whatever the depth allowed. */
  lemma {:induction false} CyclesAreRefused(h: Heap, v: Value, p: seq<nat>, q: seq<nat>, height: int, seen: set<Ref>)
    requires Closed(h) && Points(h, v) && q != []
    requires Follow(h, v, p).Some? && Follow(h, v, p).value.Object?
    requires Follow(h, Follow(h, v, p).value, q) == Follow(h, v, p)
    ensures !JsonTree(h, v, height, seen)
  {
    FollowFurther(h, v, p, q);
    assert |p + q| != |p|;
  }

  /** What is accepted once is refused when offered again with the same seen set, unless it holds no
      object; and any part of what is accepted would be accepted alone. */
  lemma {:induction false} PartsOfTrees(h: Heap, v: Value, p: seq<nat>, height: int, seen: set<Ref>)
    requires Closed(h) && Points(h, v) && JsonTree(h, v, height, seen) && Follow(h, v, p).Some?
    ensures JsonTree(h, Follow(h, v, p).value, height - |p|, seen)
    ensures v.Object? ==> !JsonTree(h, v, height, seen + Reached(h, v))
  {
    var w := Follow(h, v, p).value;
    forall q | Follow(h, w, q).Some? ensures NodeOk(h, Follow(h, w, q).value, |q|, height - |p|, seen) {
      FollowFurther(h, v, p, q);
    }
    forall q, r | Follow(h, w, q).Some? && Follow(h, w, q).value.Object? && Follow(h, w, r) == Follow(h, w, q)
      ensures q == r
    {
      FollowFurther(h, v, p, q);
      FollowFurther(h, v, p, r);
      assert q == (p + q)[|p|..] && r == (p + r)[|p|..];
    }
    assert Follow(h, v, []) == Some(v);
  }

  lemma {:induction false} LeafEnds(h: Heap, r: Ref, p: seq<nat>)
    requires Closed(h) && r in h && Items(h[r]) == [] && Follow(h, Object(r), p).Some?
    ensures p == []
  {
  }

  /** Sharing alone is enough to be refused: an array holding one empty object twice, whose parts all are
      JSON values at an admitted depth. */
  lemma {:induction false} SharingIsRefused(height: int)
    ensures var h := map[0 := Array([Own(Object(1)), Own(Object(1))]), 1 := Record(true, [])];
            && Closed(h) && !JsonTree(h, Object(0), height, {})
            && (height >= 1 ==>
                  forall p | Follow(h, Object(0), p).Some? :: NodeOk(h, Follow(h, Object(0), p).value, |p|, height, {}))
  {
    var h := map[0 := Array([Own(Object(1)), Own(Object(1))]), 1 := Record(true, [])];
    assert Follow(h, Object(1), []) == Some(Object(1));
    assert [0][1..] == [] && [1][1..] == [];
    assert Follow(h, Object(0), [0]) == Some(Object(1)) && Follow(h, Object(0), [1]) == Some(Object(1));
    assert [0][0] != [1][0];
    forall p | height >= 1 && Follow(h, Object(0), p).Some?
      ensures NodeOk(h, Follow(h, Object(0), p).value, |p|, height, {})
    {
      if p != [] {
        assert Follow(h, Object(0), p) == Follow(h, Object(1), p[1..]);
        LeafEnds(h, 1, p[1..]);
      }
    }
  }

  // ----- the same, read off the constructors -----

  /** A path into an object picks a field, a path into an array a slot; there is nothing else to pick. */
  lemma {:induction false} RecordPaths(h: Heap, r: Ref, plain: bool, fields: seq<Value>, p: seq<nat>)
    requires Closed(h) && r in h && h[r] == Record(plain, fields)
    ensures forall i | 0 <= i < |fields| :: Points(h, fields[i])
    ensures Follow(h, Object(r), p)
         == if p == [] then Some(Object(r)) else if p[0] < |fields| then Follow(h, fields[p[0]], p[1..]) else None
  {
    assert Items(h[r]) == fields;
  }

  lemma {:induction false} ArrayPaths(h: Heap, r: Ref, slots: seq<Slot>, p: seq<nat>)
    requires Closed(h) && r in h && h[r] == Array(slots)
    ensures forall i | 0 <= i < |slots| && slots[i].Own? :: Points(h, slots[i].value)
    ensures Follow(h, Object(r), p)
         == if p == [] then Some(Object(r))
            else if p[0] < |slots| then Follow(h, if slots[p[0]].Own? then slots[p[0]].value else Other, p[1..])
            else None
  {
    forall i | 0 <= i < |slots| && slots[i].Own? ensures Points(h, slots[i].value) {
      assert Items(h[r])[i] == slots[i].value;
    }
  }

  /** The values held by an object that has no holes. */
  function Held(o: HeapObject): (values: seq<Value>)
    requires o.Array? ==> forall i | 0 <= i < |o.slots| :: o.slots[i].Own?
    ensures o.Record? ==> values == o.fields
    ensures o.Array? ==> |values| == |o.slots| && forall i | 0 <= i < |o.slots| :: o.slots[i] == Own(values[i])
  {
    match o
    case Array(slots) => seq(|slots|, i requires 0 <= i < |slots| => slots[i].value)
    case Record(_, fields) => fields
  }

  lemma {:induction false} HeldPoint(h: Heap, r: Ref)
    requires Closed(h) && r in h && LocallyJson(h, Object(r))
    ensures Held(h[r]) == Items(h[r]) && AllPoint(h, Held(h[r]))
  {
  }

  /** No object is reached from two of the values. */
  ghost predicate Apart(h: Heap, values: seq<Value>)
    requires Closed(h) && AllPoint(h, values)
  {
    forall i, j | 0 <= i < j < |values| :: Reached(h, values[i]) !! Reached(h, values[j])
  }

  ghost predicate EachTree(h: Heap, values: seq<Value>, height: int, seen: set<Ref>)
    requires Closed(h) && AllPoint(h, values)
  {
    forall i | 0 <= i < |values| :: JsonTree(h, values[i], height, seen)
  }

  lemma {:induction false} ItemPath(h: Heap, values: seq<Value>, i: nat, p: seq<nat>)
    requires Closed(h) && AllPoint(h, values) && i < |values|
    ensures FollowInto(h, values, [i] + p) == Follow(h, values[i], p)
  {
    assert ([i] + p)[1..] == p;
  }

  /** A list of values is a forest exactly when each is a tree and no two share an object. */
  lemma {:induction false} ForestIsTrees(h: Heap, values: seq<Value>, height: int, seen: set<Ref>)
    requires Closed(h) && AllPoint(h, values)
    ensures JsonForest(h, values, height, seen) <==> EachTree(h, values, height, seen) && Apart(h, values)
  {
    if JsonForest(h, values, height, seen) {
      forall i | 0 <= i < |values| ensures JsonTree(h, values[i], height, seen) {
        TreeOfForest(h, values, i, height, seen);
      }
      forall i, j | 0 <= i < j < |values| ensures Reached(h, values[i]) !! Reached(h, values[j]) {
        ForestIsApart(h, values, i, j, height, seen);
      }
    }
    if EachTree(h, values, height, seen) && Apart(h, values) {
      TreesAreForest(h, values, height, seen);
    }
  }

  lemma {:induction false} TreeOfForest(h: Heap, values: seq<Value>, i: nat, height: int, seen: set<Ref>)
    requires Closed(h) && AllPoint(h, values) && i < |values| && JsonForest(h, values, height, seen)
    ensures JsonTree(h, values[i], height, seen)
  {
    forall p | Follow(h, values[i], p).Some? ensures NodeOk(h, Follow(h, values[i], p).value, |p|, height, seen) {
      ItemPath(h, values, i, p);
    }
    forall p, q | Follow(h, values[i], p).Some? && Follow(h, values[i], p).value.Object?
                  && Follow(h, values[i], q) == Follow(h, values[i], p)
      ensures p == q
    {
      ItemPath(h, values, i, p);
      ItemPath(h, values, i, q);
      assert [i] + p == [i] + q;
      assert p == ([i] + p)[1..] == ([i] + q)[1..] == q;
    }
  }

  lemma {:induction false} ForestIsApart(h: Heap, values: seq<Value>, i: nat, j: nat, height: int, seen: set<Ref>)
    requires Closed(h) && AllPoint(h, values) && i < j < |values| && JsonForest(h, values, height, seen)
    ensures Reached(h, values[i]) !! Reached(h, values[j])
  {
    if r :| r in Reached(h, values[i]) && r in Reached(h, values[j]) {
      var p :| Follow(h, values[i], p) == Some(Object(r));
      var q :| Follow(h, values[j], q) == Some(Object(r));
      assert ([i] + p)[0] != ([j] + q)[0];
      ItemPath(h, values, i, p);
      ItemPath(h, values, j, q);
    }
  }

  lemma {:induction false} SameReach(h: Heap, values: seq<Value>, p: seq<nat>, q: seq<nat>, height: int, seen: set<Ref>)
    requires Closed(h) && AllPoint(h, values) && EachTree(h, values, height, seen) && Apart(h, values)
    requires p != [] && q != [] && FollowInto(h, values, p).Some? && FollowInto(h, values, p).value.Object?
    requires FollowInto(h, values, q) == FollowInto(h, values, p)
    ensures p == q
  {
    var r := FollowInto(h, values, p).value.ref;
    assert Follow(h, values[p[0]], p[1..]) == Some(Object(r)) == Follow(h, values[q[0]], q[1..]);
    assert Reaches(h, values[p[0]], r) && Reaches(h, values[q[0]], r);
    assert r in Reached(h, values[p[0]]) && r in Reached(h, values[q[0]]);
    assert JsonTree(h, values[p[0]], height, seen);
    assert p == [p[0]] + p[1..] && q == [q[0]] + q[1..];
  }

  lemma {:induction false} TreesAreForest(h: Heap, values: seq<Value>, height: int, seen: set<Ref>)
    requires Closed(h) && AllPoint(h, values) && EachTree(h, values, height, seen) && Apart(h, values)
    ensures JsonForest(h, values, height, seen)
  {
    forall p | p != [] && FollowInto(h, values, p).Some?
      ensures NodeOk(h, FollowInto(h, values, p).value, |p| - 1, height, seen)
    {
      assert JsonTree(h, values[p[0]], height, seen);
      assert Follow(h, values[p[0]], p[1..]) == FollowInto(h, values, p);
    }
    forall p, q | p != [] && q != [] && FollowInto(h, values, p).Some? && FollowInto(h, values, p).value.Object?
                  && FollowInto(h, values, q) == FollowInto(h, values, p)
      ensures p == q
    {
      SameReach(h, values, p, q, height, seen);
    }
  }

  /** What is accepted, constructor by constructor: scalars but for numbers that are not finite; an array
      without holes or a plain object that has not been seen, whose values are each accepted one level
      lower and share no object. */
  lemma {:induction false} AcceptedByShape(h: Heap, v: Value, height: int, seen: set<Ref>)
    requires Closed(h) && Points(h, v)
    ensures v == Null || v == Str || v == Bool ==> (JsonTree(h, v, height, seen) <==> height >= 0)
    ensures v.Num? ==> (JsonTree(h, v, height, seen) <==> height >= 0 && v.finite)
    ensures v == Other ==> !JsonTree(h, v, height, seen)
    ensures v.Object? ==>
              (JsonTree(h, v, height, seen)
               <==> && height >= 0 && v.ref !in seen
                    && (match h[v.ref]
                        case Array(slots) => forall i | 0 <= i < |slots| :: slots[i].Own?
                        case Record(plain, _) => plain)
                    && AllPoint(h, Held(h[v.ref])) && EachTree(h, Held(h[v.ref]), height - 1, seen + {v.ref})
                    && Apart(h, Held(h[v.ref])))
  {
    assert Follow(h, v, []) == Some(v);
    if !v.Object? {
      LeafTree(h, v, height, seen);
    } else if height >= 0 && LocallyJson(h, v) && v.ref !in seen {
      TreeExact(h, v.ref, height, seen);
      HeldPoint(h, v.ref);
      ForestIsTrees(h, Held(h[v.ref]), height - 1, seen + {v.ref});
    }
  }

  /** An object or an array is refused when a field or a slot leads back to it. */
  lemma {:induction false} LoopsAreRefused(h: Heap, r: Ref, i: nat, q: seq<nat>, height: int, seen: set<Ref>)
    requires Closed(h) && r in h && i < (match h[r] case Array(slots) => |slots| case Record(_, fields) => |fields|)
    requires h[r].Array? ==> h[r].slots[i].Own?
    requires var v := match h[r] case Array(slots) => slots[i].value case Record(_, fields) => fields[i];
             Points(h, v) && Follow(h, v, q) == Some(Object(r))
    ensures !JsonTree(h, Object(r), height, seen)
  {
    match h[r] {
      case Array(slots) => ArrayPaths(h, r, slots, [i] + q);
      case Record(plain, fields) => RecordPaths(h, r, plain, fields, [i] + q);
    }
    assert ([i] + q)[1..] == q;
    assert Follow(h, Object(r), []) == Some(Object(r));
    CyclesAreRefused(h, Object(r), [], [i] + q, height, seen);
  }
}
