/** Resolution of scoped configuration through a cache whose entries live for a minute. The stored
    layers and the ancestry of a scope are read in one step, and a resolution is one step. */
module ConfigResolution {
  import opened Text
  import opened OverrideLayers

  const GLOBAL := "00000000-0000-0000-0000-000000000000"
  const TTL_MS := 60000

  /** One of the object types, or the id of a scope node: neither holds a colon. */
  type Id = s: string | ':' !in s witness ""

  /** A resolved configuration; the object type, name and scope it was asked for are left out. */
  datatype EffectiveConfig<V> = EffectiveConfig(
    value: map<string, V>, contributingLayers: seq<Layer<V>>, isDefault: bool, locked: bool)

  /** `NotFound` and `Incomplete` are exceptions. */
  datatype Resolution<V> = Resolved(config: EffectiveConfig<V>) | NotFound | Incomplete

  datatype Entry<V> = Entry(value: EffectiveConfig<V>, expiresAt: int)

  type Rows<V> = map<(Id, string), seq<Layer<V>>>

  function Key(objectType: string, name: string, scope: string): string {
    Prefix(objectType, name) + scope
  }

  function Prefix(objectType: string, name: string): string {
    objectType + "::" + name + "::"
  }

  function Distinct(xs: seq<string>): seq<string> {
    if xs == [] then []
    else
      var before := Distinct(xs[..|xs| - 1]);
      if xs[|xs| - 1] in before then before else before + [xs[|xs| - 1]]
  }

  predicate AllGlobal<V>(layers: seq<Layer<V>>) {
    forall i | 0 <= i < |layers| :: ScopeOf(GLOBAL, layers[i]) == GLOBAL
  }

  /** The layers of an object reduced at a scope with this ancestry, root first. */
  function Reduced<V>(scopeIds: seq<string>, candidates: seq<Layer<V>>): Resolution<V> {
    var ordered := Ordered(GLOBAL, scopeIds, candidates);
    match Applied(Nothing, ordered)
    case Failed => Incomplete
    case Nothing => NotFound
    case Defined(value) =>
      if ordered == [] then NotFound
      else Resolved(EffectiveConfig(value, ordered,
                                    AllGlobal(ordered), ordered[|ordered| - 1].locked))
  }

  /** What is stored now says about an object at a scope, without the cache. */
  function Uncached<V>(rows: Rows<V>, ancestry: Id -> seq<string>, objectType: Id, name: string,
          scope: Id): Resolution<V> {
    if (objectType, name) !in rows then NotFound
    else Reduced(Distinct([GLOBAL] + ancestry(scope)), rows[(objectType, name)])
  }

  class ConfigResolutionCache<V> {
    var store: map<string, Entry<V>>

    constructor ()
      ensures store == map[]
    {
      store := map[];
    }

    method Get(objectType: string, name: string, scope: string, now: int) returns (value: Option<EffectiveConfig<V>>)
      modifies this
      ensures value == Fresh(old(store), Key(objectType, name, scope), now)
      ensures store == Swept(old(store), Key(objectType, name, scope), now)
    {
      var k := Key(objectType, name, scope);
      if k !in store {
        return None;
      }
      var entry := store[k];
      if entry.expiresAt <= now {
        store := store - {k};
        return None;
      }
      return Some(entry.value);
    }

    method Set(objectType: string, name: string, scope: string, value: EffectiveConfig<V>, now: int)
      modifies this
      ensures store == old(store)[Key(objectType, name, scope) := Entry(value, now + TTL_MS)]
    {
      store := store[Key(objectType, name, scope) := Entry(value, now + TTL_MS)];
    }

    method Invalidate(objectType: string, name: string)
      modifies this
      ensures store == Without(old(store), Prefix(objectType, name))
    {
      var prefix := Prefix(objectType, name);
      var keys := store.Keys;
      while keys != {}
        invariant keys <= store.Keys <= old(store).Keys
        invariant forall k | k in store :: store[k] == old(store)[k]
        invariant forall k | k in old(store) :: k in store <==> k in keys || !StartsWith(k, prefix)
        decreases keys
      {
        var k :| k in keys;
        if StartsWith(k, prefix) {
          store := store - {k};
        }
        keys := keys - {k};
      }
    }
  }

  /** The entry of a key if it has not expired. */
  function Fresh<V>(store: map<string, Entry<V>>, k: string, now: int): Option<EffectiveConfig<V>> {
    if k in store && store[k].expiresAt > now then Some(store[k].value) else None
  }

  function Swept<V>(store: map<string, Entry<V>>, k: string, now: int): map<string, Entry<V>> {
    if k in store && store[k].expiresAt <= now then store - {k} else store
  }

  function Without<V>(store: map<string, Entry<V>>, prefix: string): map<string, Entry<V>> {
    map k | k in store && !StartsWith(k, prefix) :: store[k]
  }

  class ScopedConfigResolver<V> {
    const cache: ConfigResolutionCache<V>

    constructor ()
      ensures fresh(cache) && cache.store == map[]
    {
      cache := new ConfigResolutionCache();
    }

    method Resolve(rows: Rows<V>, ancestry: Id -> seq<string>, objectType: Id, name: string, scope: Id, now: int)
      returns (r: Resolution<V>)
      modifies cache
      ensures (cache.store, r) == Resolving(old(cache.store), rows, ancestry, objectType, name, scope, now)
    {
      var cached := cache.Get(objectType, name, scope, now);
      if cached.Some? {
        return Resolved(cached.value);
      }
      var scopeIds := Distinct([GLOBAL] + ancestry(scope));
      if (objectType, name) !in rows || rows[(objectType, name)] == [] {
        NoCandidates<V>(scopeIds);
        return NotFound;
      }
      r := ReduceLayers(scopeIds, rows[(objectType, name)]);
      if r.Resolved? {
        cache.Set(objectType, name, scope, r.config, now);
      }
    }

    method ReduceLayers(scopeIds: seq<string>, candidates: seq<Layer<V>>) returns (r: Resolution<V>)
      ensures r == Reduced(scopeIds, candidates)
    {
      var ordered := Ordered(GLOBAL, scopeIds, candidates);
      var value, contributingLayers := ApplyLayers(ordered);
      if value.Failed? {
        return Incomplete;
      }
      if value == Nothing {
        return NotFound;
      }
      FailsOnIncomplete(Nothing, ordered);
      var winner := ordered[|ordered| - 1];
      return Resolved(EffectiveConfig(value.fields, contributingLayers, AllGlobal(ordered), winner.locked));
    }

    /** The loop of the reduction; the exception of an incomplete layer ends it. */
    method ApplyLayers(ordered: seq<Layer<V>>) returns (value: Value<V>, contributingLayers: seq<Layer<V>>)
      ensures value == Applied(Nothing, ordered)
      ensures !value.Failed? ==> contributingLayers == ordered
    {
      value, contributingLayers := Nothing, [];
      for i := 0 to |ordered|
        invariant value == Applied(Nothing, ordered[..i]) && !value.Failed?
        invariant contributingLayers == ordered[..i]
      {
        assert ordered[..i + 1][..i] == ordered[..i];
        value := ApplyOverride(value, ordered[i]);
        if value.Failed? {
          IncompleteLayer(ordered, i);
          return;
        }
        contributingLayers := contributingLayers + [ordered[i]];
      }
      assert ordered[..|ordered|] == ordered;
    }
  }

  /** One layer that cannot be applied makes all of them fail. */
  lemma {:induction false} IncompleteLayer<V>(layers: seq<Layer<V>>, i: nat)
    requires i < |layers| && Applied(Nothing, layers[..i + 1]).Failed?
    ensures Applied(Nothing, layers).Failed?
  {
    FailsOnIncomplete(Nothing, layers[..i + 1]);
    FailsOnIncomplete(Nothing, layers);
  }

  lemma {:induction false} NoCandidates<V>(scopeIds: seq<string>)
    ensures Ordered<V>(GLOBAL, scopeIds, []) == []
    decreases |scopeIds|
  {
    if scopeIds != [] {
      NoCandidates<V>(scopeIds[..|scopeIds| - 1]);
    }
  }

  /** The cache after a resolution, and what it returns. */
  function Resolving<V>(store: map<string, Entry<V>>, rows: Rows<V>, ancestry: Id -> seq<string>,
                        objectType: Id, name: string, scope: Id, now: int): (map<string, Entry<V>>, Resolution<V>)
  {
    var k := Key(objectType, name, scope);
    match Fresh(store, k, now)
    case Some(config) => (store, Resolved(config))
    case None =>
      var r := Uncached(rows, ancestry, objectType, name, scope);
      var swept := Swept(store, k, now);
      (if r.Resolved? then swept[k := Entry(r.config, now + TTL_MS)] else swept, r)
  }

  // ----- what a resolution is -----

  lemma {:induction false} DistinctElements(xs: seq<string>, x: string)
    ensures x in Distinct(xs) <==> x in xs
    decreases |xs|
  {
    if xs != [] {
      DistinctElements(xs[..|xs| - 1], x);
      assert xs == xs[..|xs| - 1] + [xs[|xs| - 1]];
    }
  }

  lemma {:induction false} DistinctOnce(xs: seq<string>)
    ensures forall i, j | 0 <= i < j < |Distinct(xs)| :: Distinct(xs)[i] != Distinct(xs)[j]
    decreases |xs|
  {
    if xs != [] {
      DistinctOnce(xs[..|xs| - 1]);
    }
  }

  /** A resolution succeeds exactly when some layer applies and every layer that applies is complete;
      then each key has the setting of the most specific layer that settles it. */
  lemma {:induction false} ResolutionMeaning<V>(scopeIds: seq<string>, candidates: seq<Layer<V>>, key: string)
    ensures var ordered := Ordered(GLOBAL, scopeIds, candidates);
            Reduced(scopeIds, candidates).Resolved? <==> ordered != [] && AllWellFormed(ordered)
    ensures var ordered := Ordered(GLOBAL, scopeIds, candidates);
            var r := Reduced(scopeIds, candidates);
            r.Resolved? ==>
              && (if key in r.config.value then Some(r.config.value[key]) else None) == MostSpecific(ordered, key)
              && r.config.contributingLayers == ordered
              && (r.config.isDefault <==> forall l | l in ordered :: ScopeOf(GLOBAL, l) == GLOBAL)
              && r.config.locked == ordered[|ordered| - 1].locked
  {
    var ordered := Ordered(GLOBAL, scopeIds, candidates);
    FailsOnIncomplete(Nothing, ordered);
    if ordered != [] && AllWellFormed(ordered) {
      MostSpecificWins(ordered, key);
    }
  }

  /** With one row per scope a resolution does not depend on the order the rows were loaded in. */
  lemma {:induction false} ResolutionIgnoresOrder<V(!new)>(scopeIds: seq<string>, a: seq<Layer<V>>, b: seq<Layer<V>>)
    requires SameRows(a, b) && OneRowPerScope(GLOBAL, a) && OneRowPerScope(GLOBAL, b)
    ensures Reduced(scopeIds, a) == Reduced(scopeIds, b)
  {
    OrderIndependent(GLOBAL, scopeIds, a, b);
  }

  // ----- keys -----

  lemma {:induction false} SplitFirst(first: Id, rest: string)
    ensures Split(first + "::" + rest, ':') == [first, ""] + Split(rest, ':')
  {
    assert first + "::" + rest == first + [':'] + ("" + [':'] + rest);
    SplitConcat(first, ':', "" + [':'] + rest);
    SplitConcat("", ':', rest);
    SplitWhole(first, ':');
  }

  lemma {:induction false} SplitLast(name: string, last: Id)
    ensures Split(name + "::" + last, ':') == Split(name, ':') + ["", last]
  {
    assert name + "::" + last == name + [':'] + ("" + [':'] + last);
    SplitConcat(name, ':', "" + [':'] + last);
    SplitConcat("", ':', last);
    SplitWhole(last, ':');
  }

  lemma {:induction false} SplitKey(objectType: Id, name: string, scope: Id)
    ensures Split(Key(objectType, name, scope), ':') == [objectType, ""] + Split(name, ':') + ["", scope]
  {
    assert Key(objectType, name, scope) == objectType + "::" + (name + "::" + scope);
    SplitFirst(objectType, name + "::" + scope);
    SplitLast(name, scope);
  }

  /** A key names its object type, its object and its scope, whatever colons the name holds. */
  lemma {:induction false} KeyInjective(t: Id, n: string, s: Id, t2: Id, n2: string, s2: Id)
    requires Key(t, n, s) == Key(t2, n2, s2)
    ensures t == t2 && n == n2 && s == s2
  {
    SplitKey(t, n, s);
    SplitKey(t2, n2, s2);
    var parts := Split(Key(t, n, s), ':');
    assert t == parts[0] == t2 && s == parts[|parts| - 1] == s2;
    assert Split(n, ':') == parts[2..|parts| - 2] == Split(n2, ':');
    JoinSplit(n, ':');
    JoinSplit(n2, ':');
  }

  /** With colons in scope ids every two objects of one type whose names differ by a suffix share keys. */
  lemma {:induction false} KeysCollide(t: string, n: string, a: string, b: string)
    ensures Key(t, n, a + "::" + b) == Key(t, n + "::" + a, b)
  {
    assert t + "::" + n + "::" + (a + "::" + b) == t + "::" + (n + "::" + a) + "::" + b;
  }

  lemma {:induction false} FirstColon(t: Id, rest: string, i: nat)
    requires i <= |t|
    ensures (t + "::" + rest)[i] == ':' <==> i == |t|
  {
  }

  lemma {:induction false} TypesOfPrefix(t: Id, rest: string, t2: Id, rest2: string)
    requires StartsWith(t2 + "::" + rest2, t + "::" + rest)
    ensures t == t2 && StartsWith(rest2, rest)
  {
    var key, prefix := t2 + "::" + rest2, t + "::" + rest;
    FirstColon(t, rest, if |t| <= |t2| then |t| else |t2|);
    FirstColon(t2, rest2, if |t| <= |t2| then |t| else |t2|);
    assert t == prefix[..|t|] == key[..|t|] == t2;
    assert rest == prefix[|t| + 2..] == key[|t| + 2..|prefix|] == rest2[..|rest|];
  }

  lemma {:induction false} NamesOfPrefix(n: string, n2: string, s2: Id)
    ensures StartsWith(n2 + "::" + s2, n + "::") <==> StartsWith(n2 + "::", n + "::")
  {
    var key, prefix := n2 + "::" + s2, n + "::";
    if |prefix| <= |key| && |n2| < |n| {
      assert key[|n| + 1] == s2[|n| - |n2| - 1] != ':';
      assert prefix[|n| + 1] == ':';
    }
    if |n| <= |n2| {
      assert key[..|prefix|] == (n2 + "::")[..|prefix|];
    }
  }

  /** An invalidation removes the keys of the object at every scope, and besides them only those of objects
      of its type whose names continue its name with two colons. */
  lemma {:induction false} PrefixCovers(t: Id, n: string, t2: Id, n2: string, s2: Id)
    ensures StartsWith(Key(t2, n2, s2), Prefix(t, n)) <==> t == t2 && StartsWith(n2 + "::", n + "::")
  {
    assert Key(t2, n2, s2) == t2 + "::" + (n2 + "::" + s2);
    assert Prefix(t, n) == t + "::" + (n + "::");
    NamesOfPrefix(n, n2, s2);
    if StartsWith(Key(t2, n2, s2), Prefix(t, n)) {
      TypesOfPrefix(t, n + "::", t2, n2 + "::" + s2);
    }
    if t == t2 && StartsWith(n2 + "::" + s2, n + "::") {
      assert Key(t2, n2, s2)[..|Prefix(t, n)|] == t + "::" + (n2 + "::" + s2)[..|n| + 2];
    }
  }

  // ----- runs -----

  /** Rows that were in force until some moment. */
  datatype Past<V> = Past(rows: Rows<V>, until: int)

  datatype World<V> = World(now: int, rows: Rows<V>, store: map<string, Entry<V>>, past: seq<Past<V>>)

  datatype Step<V> =
    | Resolve(objectType: Id, name: string, scope: Id)
    | Write(objectType: Id, name: string, layers: seq<Layer<V>>, invalidates: bool)
    | Tick(ms: nat)

  function Next<V>(w: World<V>, step: Step<V>, ancestry: Id -> seq<string>): World<V> {
    match step
    case Resolve(t, n, s) => w.(store := Resolving(w.store, w.rows, ancestry, t, n, s, w.now).0)
    case Write(t, n, layers, invalidates) =>
      World(w.now, w.rows[(t, n) := layers], if invalidates then Without(w.store, Prefix(t, n)) else w.store,
            w.past + [Past(w.rows, w.now)])
    case Tick(ms) => w.(now := w.now + ms)
  }

  function Run<V>(w: World<V>, steps: seq<Step<V>>, ancestry: Id -> seq<string>): World<V> {
    if steps == [] then w else Next(Run(w, steps[..|steps| - 1], ancestry), steps[|steps| - 1], ancestry)
  }

  function Start<V>(now: int, rows: Rows<V>): World<V> {
    World(now, rows, map[], [])
  }

  /** Every entry is what is stored now. */
  ghost predicate Exact<V>(w: World<V>, ancestry: Id -> seq<string>) {
    forall t: Id, n: string, s: Id | Key(t, n, s) in w.store ::
      Uncached(w.rows, ancestry, t, n, s) == Resolved(w.store[Key(t, n, s)].value)
  }

  lemma {:induction false} ResolveKeepsExact<V>(w: World<V>, ancestry: Id -> seq<string>, t: Id, n: string, s: Id)
    requires Exact(w, ancestry)
    ensures Exact(Next(w, Resolve(t, n, s), ancestry), ancestry)
  {
    var x := Next(w, Resolve(t, n, s), ancestry);
    forall t2: Id, n2: string, s2: Id | Key(t2, n2, s2) in x.store
      ensures Uncached(x.rows, ancestry, t2, n2, s2) == Resolved(x.store[Key(t2, n2, s2)].value)
    {
      if Key(t2, n2, s2) == Key(t, n, s) {
        KeyInjective(t, n, s, t2, n2, s2);
      }
    }
  }

  lemma {:induction false} WriteKeepsExact<V>(w: World<V>, ancestry: Id -> seq<string>, t: Id, n: string,
          layers: seq<Layer<V>>)
    requires Exact(w, ancestry)
    ensures Exact(Next(w, Write(t, n, layers, true), ancestry), ancestry)
  {
    forall s: Id ensures StartsWith(Key(t, n, s), Prefix(t, n)) {
      PrefixCovers(t, n, t, n, s);
    }
  }

  lemma {:induction false} RunsAreExact<V>(now: int, rows: Rows<V>, steps: seq<Step<V>>, ancestry: Id -> seq<string>)
    requires forall i | 0 <= i < |steps| && steps[i].Write? :: steps[i].invalidates
    ensures Exact(Run(Start(now, rows), steps, ancestry), ancestry)
    decreases |steps|
  {
    if steps != [] {
      RunsAreExact(now, rows, steps[..|steps| - 1], ancestry);
      var w := Run(Start(now, rows), steps[..|steps| - 1], ancestry);
      match steps[|steps| - 1] {
        case Resolve(t, n, s) => ResolveKeepsExact(w, ancestry, t, n, s);
        case Write(t, n, layers, _) => WriteKeepsExact(w, ancestry, t, n, layers);
        case Tick(_) =>
      }
    }
  }

  /** When every write is followed by an invalidation, resolving through the cache is resolving
      without it, after any run. */
  lemma {:induction false} CachedIsUncached<V>(now: int, rows: Rows<V>, steps: seq<Step<V>>,
          ancestry: Id -> seq<string>,
                            t: Id, n: string, s: Id)
    requires forall i | 0 <= i < |steps| && steps[i].Write? :: steps[i].invalidates
    ensures var w := Run(Start(now, rows), steps, ancestry);
            Resolving(w.store, w.rows, ancestry, t, n, s, w.now).1 == Uncached(w.rows, ancestry, t, n, s)
  {
    RunsAreExact(now, rows, steps, ancestry);
  }

  /** What resolution without the cache gives now, or gave at some moment after `since`. */
  ghost predicate GivenSince<V>(w: World<V>, ancestry: Id -> seq<string>, t: Id, n: string, s: Id,
          r: Resolution<V>, since: int) {
    || r == Uncached(w.rows, ancestry, t, n, s)
    || exists i | 0 <= i < |w.past| :: w.past[i].until >= since && r == Uncached(w.past[i].rows, ancestry, t, n, s)
  }

  /** Every entry was given at some moment since it was set. */
  ghost predicate Recent<V>(w: World<V>, ancestry: Id -> seq<string>) {
    forall t: Id, n: string, s: Id | Key(t, n, s) in w.store ::
      && w.store[Key(t, n, s)].expiresAt - TTL_MS <= w.now
      && GivenSince(w, ancestry, t, n, s, Resolved(w.store[Key(t, n, s)].value), w.store[Key(t, n, s)].expiresAt - TTL_MS)
  }

  lemma {:induction false} ResolveKeepsRecent<V>(w: World<V>, ancestry: Id -> seq<string>, t: Id, n: string, s: Id)
    requires Recent(w, ancestry)
    ensures Recent(Next(w, Resolve(t, n, s), ancestry), ancestry)
  {
    var x := Next(w, Resolve(t, n, s), ancestry);
    forall t2: Id, n2: string, s2: Id | Key(t2, n2, s2) in x.store
      ensures x.store[Key(t2, n2, s2)].expiresAt - TTL_MS <= x.now
      ensures GivenSince(x, ancestry, t2, n2, s2, Resolved(x.store[Key(t2, n2, s2)].value), x.store[Key(t2, n2, s2)].expiresAt - TTL_MS)
    {
      var k := Key(t2, n2, s2);
      if k == Key(t, n, s) {
        KeyInjective(t, n, s, t2, n2, s2);
      }
      if k in w.store && x.store[k] == w.store[k] {
        assert GivenSince(w, ancestry, t2, n2, s2, Resolved(w.store[k].value), w.store[k].expiresAt - TTL_MS);
      }
    }
  }

  lemma {:induction false} WriteKeepsRecent<V>(w: World<V>, ancestry: Id -> seq<string>, t: Id, n: string,
          layers: seq<Layer<V>>, invalidates: bool)
    requires Recent(w, ancestry)
    ensures Recent(Next(w, Write(t, n, layers, invalidates), ancestry), ancestry)
  {
    var x := Next(w, Write(t, n, layers, invalidates), ancestry);
    assert x.past[|w.past|] == Past(w.rows, w.now);
    forall t2: Id, n2: string, s2: Id | Key(t2, n2, s2) in x.store
      ensures x.store[Key(t2, n2, s2)].expiresAt - TTL_MS <= x.now
      ensures GivenSince(x, ancestry, t2, n2, s2, Resolved(x.store[Key(t2, n2, s2)].value), x.store[Key(t2, n2, s2)].expiresAt - TTL_MS)
    {
      var k := Key(t2, n2, s2);
      var since, r := w.store[k].expiresAt - TTL_MS, Resolved(w.store[k].value);
      assert GivenSince(w, ancestry, t2, n2, s2, r, since);
      if i :| 0 <= i < |w.past| && w.past[i].until >= since && r == Uncached(w.past[i].rows, ancestry, t2, n2, s2) {
        assert x.past[i] == w.past[i];
      }
    }
  }

  lemma {:induction false} TickKeepsRecent<V>(w: World<V>, ancestry: Id -> seq<string>, ms: nat)
    requires Recent(w, ancestry)
    ensures Recent(Next(w, Tick(ms), ancestry), ancestry)
  {
  }

  lemma {:induction false} RunsAreRecent<V>(now: int, rows: Rows<V>, steps: seq<Step<V>>, ancestry: Id -> seq<string>)
    ensures Recent(Run(Start(now, rows), steps, ancestry), ancestry)
    decreases |steps|
  {
    if steps != [] {
      RunsAreRecent(now, rows, steps[..|steps| - 1], ancestry);
      var w := Run(Start(now, rows), steps[..|steps| - 1], ancestry);
      match steps[|steps| - 1] {
        case Resolve(t, n, s) => ResolveKeepsRecent(w, ancestry, t, n, s);
        case Write(t, n, layers, invalidates) => WriteKeepsRecent(w, ancestry, t, n, layers, invalidates);
        case Tick(ms) => TickKeepsRecent(w, ancestry, ms);
      }
    }
  }

  /** When writes are not followed by an invalidation, what is returned is still what resolution
      without the cache gave at some moment less than a minute ago. */
  lemma {:induction false} StaleForUnderAMinute<V>(now: int, rows: Rows<V>, steps: seq<Step<V>>,
          ancestry: Id -> seq<string>,
                                t: Id, n: string, s: Id)
    ensures var w := Run(Start(now, rows), steps, ancestry);
            GivenSince(w, ancestry, t, n, s, Resolving(w.store, w.rows, ancestry, t, n, s, w.now).1, w.now - TTL_MS + 1)
  {
    RunsAreRecent(now, rows, steps, ancestry);
    var w := Run(Start(now, rows), steps, ancestry);
    if Fresh(w.store, Key(t, n, s), w.now).Some? {
      var entry := w.store[Key(t, n, s)];
      assert GivenSince(w, ancestry, t, n, s, Resolved(entry.value), entry.expiresAt - TTL_MS);
    }
  }
}
