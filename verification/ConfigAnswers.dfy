/** What a resolution answers, said of the stored rows and the ancestry of the scope alone. */
module ConfigAnswers {
  import opened Text
  import opened OverrideLayers
  import opened ConfigResolution

  type RowsOf<V> = seq<Layer<V>>

  /** A row without a scope, or with the global one. */
  predicate IsGlobal<V>(l: Layer<V>) {
    l.scope == None || l.scope == Some("00000000-0000-0000-0000-000000000000")
  }

  /** The row is global or belongs to the scope or one above it. */
  predicate Applies<V>(l: Layer<V>, ancestry: seq<string>) {
    IsGlobal(l) || (l.scope.Some? && l.scope.value in ancestry)
  }

  /** A replacing row has its definition, a merging one its patch. */
  predicate Complete<V>(l: Layer<V>) {
    match l.strategy
    case Replace => l.definition.Some?
    case Merge => l.overrides.Some?
  }

  /** The first place of a scope in the ancestry. */
  function Place(ancestry: seq<string>, scope: string): (k: nat)
    requires scope in ancestry
    ensures k < |ancestry| && ancestry[k] == scope && forall i | 0 <= i < k :: ancestry[i] != scope
  {
    if ancestry[0] == scope then 0 else Place(ancestry[1..], scope) + 1
  }

  /** Global rows come first, then the scopes in the order of the ancestry. */
  function Rank<V>(l: Layer<V>, ancestry: seq<string>): nat
    requires Applies(l, ancestry)
  {
    if IsGlobal(l) then 0 else Place(ancestry, l.scope.value) + 1
  }

  /** `index` lists the rows that apply, each once, by rank and then in the order they were loaded in. */
  ghost predicate Lists<V>(index: seq<nat>, rows: RowsOf<V>, ancestry: seq<string>) {
    && (forall k | 0 <= k < |index| :: index[k] < |rows| && Applies(rows[index[k]], ancestry))
    && (forall n | 0 <= n < |rows| && Applies(rows[n], ancestry) :: n in index)
    && (forall i, j | 0 <= i < j < |index| ::
          Before(Rank(rows[index[i]], ancestry), index[i], Rank(rows[index[j]], ancestry), index[j]))
  }

  predicate Before(rank: nat, n: nat, rank2: nat, n2: nat) {
    rank < rank2 || (rank == rank2 && n < n2)
  }

  /** The rows at these places. */
  function Picked<V>(rows: RowsOf<V>, index: seq<nat>): RowsOf<V>
    requires forall k | 0 <= k < |index| :: index[k] < |rows|
  {
    seq(|index|, k requires 0 <= k < |index| => rows[index[k]])
  }

  // ----- the places of the rows that apply -----

  /** The places, from one on, of the candidates of a scope. */
  function IndexAt<V>(scope: string, candidates: RowsOf<V>, from: nat): (index: seq<nat>)
    requires from <= |candidates|
    ensures forall k | 0 <= k < |index| :: from <= index[k] < |candidates| && ScopeOf(GLOBAL, candidates[index[k]]) == scope
    ensures forall i, j | 0 <= i < j < |index| :: index[i] < index[j]
    ensures forall n | from <= n < |candidates| && ScopeOf(GLOBAL, candidates[n]) == scope :: n in index
    decreases |candidates| - from
  {
    if from == |candidates| then []
    else (if ScopeOf(GLOBAL, candidates[from]) == scope then [from] else []) + IndexAt(scope, candidates, from + 1)
  }

  lemma {:induction false} PickedConcat<V>(rows: RowsOf<V>, a: seq<nat>, b: seq<nat>)
    requires forall k | 0 <= k < |a| :: a[k] < |rows|
    requires forall k | 0 <= k < |b| :: b[k] < |rows|
    ensures Picked(rows, a + b) == Picked(rows, a) + Picked(rows, b)
  {
  }

  lemma {:induction false} PickedHere<V>(scope: string, candidates: RowsOf<V>, from: nat)
    requires from < |candidates|
    ensures Picked(candidates, IndexAt(scope, candidates, from))
         == (if ScopeOf(GLOBAL, candidates[from]) == scope then [candidates[from]] else [])
            + Picked(candidates, IndexAt(scope, candidates, from + 1))
  {
    if ScopeOf(GLOBAL, candidates[from]) == scope {
      PickedConcat(candidates, [from], IndexAt(scope, candidates, from + 1));
      assert Picked(candidates, [from]) == [candidates[from]];
    } else {
      assert IndexAt(scope, candidates, from) == IndexAt(scope, candidates, from + 1);
    }
  }

  lemma {:induction false} PickedAt<V>(scope: string, candidates: RowsOf<V>, from: nat)
    requires from <= |candidates|
    ensures Picked(candidates, IndexAt(scope, candidates, from)) == AtScope(GLOBAL, scope, candidates[from..])
    decreases |candidates| - from
  {
    if from < |candidates| {
      PickedHere(scope, candidates, from);
      PickedAt(scope, candidates, from + 1);
      AtScopeFront(scope, candidates[from], candidates[from..], candidates[from + 1..]);
    }
  }

  lemma {:induction false} AtScopeFront<V>(scope: string, l: Layer<V>, layers: RowsOf<V>, rest: RowsOf<V>)
    requires layers == [l] + rest
    ensures AtScope(GLOBAL, scope, layers) == (if ScopeOf(GLOBAL, l) == scope then [l] else []) + AtScope(GLOBAL, scope, rest)
  {
    assert layers[1..] == rest;
  }

  function OrderedIndex<V>(scopeIds: seq<string>, candidates: RowsOf<V>): (index: seq<nat>)
    ensures forall k | 0 <= k < |index| :: index[k] < |candidates| && ScopeOf(GLOBAL, candidates[index[k]]) in scopeIds
    decreases |scopeIds|
  {
    if scopeIds == [] then []
    else
      var last := |scopeIds| - 1;
      OrderedIndex(scopeIds[..last], candidates) + IndexAt(scopeIds[last], candidates, 0)
  }

  lemma {:induction false} PickedOrdered<V>(scopeIds: seq<string>, candidates: RowsOf<V>)
    ensures Picked(candidates, OrderedIndex(scopeIds, candidates)) == Ordered(GLOBAL, scopeIds, candidates)
    decreases |scopeIds|
  {
    if scopeIds != [] {
      var last := |scopeIds| - 1;
      PickedOrdered(scopeIds[..last], candidates);
      PickedAt(scopeIds[last], candidates, 0);
      assert candidates[0..] == candidates;
    }
  }

  lemma {:induction false} OrderedIndexCovers<V>(scopeIds: seq<string>, candidates: RowsOf<V>, n: nat)
    requires n < |candidates| && ScopeOf(GLOBAL, candidates[n]) in scopeIds
    ensures n in OrderedIndex(scopeIds, candidates)
    decreases |scopeIds|
  {
    var last := |scopeIds| - 1;
    assert scopeIds == scopeIds[..last] + [scopeIds[last]];
    if ScopeOf(GLOBAL, candidates[n]) != scopeIds[last] {
      OrderedIndexCovers(scopeIds[..last], candidates, n);
    }
  }

  /** Places of one list of scopes are places of a longer one. */
  lemma {:induction false} PlaceInPrefix(scopeIds: seq<string>, scope: string)
    requires scopeIds != [] && scope in scopeIds[..|scopeIds| - 1]
    ensures scope in scopeIds && Place(scopeIds, scope) == Place(scopeIds[..|scopeIds| - 1], scope)
  {
    var before := scopeIds[..|scopeIds| - 1];
    assert scopeIds[0] == before[0];
    if before[0] != scope {
      assert before[1..] == scopeIds[1..][..|scopeIds| - 2] && scope in before[1..];
      PlaceInPrefix(scopeIds[1..], scope);
    }
  }

  lemma {:induction false} OrderedIndexIncreases<V>(scopeIds: seq<string>, candidates: RowsOf<V>, i: nat, j: nat)
    requires forall k, l | 0 <= k < l < |scopeIds| :: scopeIds[k] != scopeIds[l]
    requires i < j < |OrderedIndex(scopeIds, candidates)|
    ensures var index := OrderedIndex(scopeIds, candidates);
            var x, y := ScopeOf(GLOBAL, candidates[index[i]]), ScopeOf(GLOBAL, candidates[index[j]]);
            Before(Place(scopeIds, x), index[i], Place(scopeIds, y), index[j])
    decreases |scopeIds|
  {
    var last := |scopeIds| - 1;
    var before := OrderedIndex(scopeIds[..last], candidates);
    var index := OrderedIndex(scopeIds, candidates);
    var x, y := ScopeOf(GLOBAL, candidates[index[i]]), ScopeOf(GLOBAL, candidates[index[j]]);
    if j < |before| {
      OrderedIndexIncreases(scopeIds[..last], candidates, i, j);
      PlaceInPrefix(scopeIds, x);
      PlaceInPrefix(scopeIds, y);
    } else if i < |before| {
      PlaceInPrefix(scopeIds, x);
      assert y == scopeIds[last] && Place(scopeIds, y) == last;
    }
  }

  // ----- each scope once, where it occurs first -----

  /** A scope that is listed once keeps its order of first occurrence. */
  lemma {:induction false} DistinctKeepsOrder(xs: seq<string>, x: string, y: string)
    requires x in Distinct(xs) && y in Distinct(xs)
    ensures x in xs && y in xs
    ensures Place(Distinct(xs), x) < Place(Distinct(xs), y) <==> Place(xs, x) < Place(xs, y)
    decreases |xs|
  {
    var before, last := xs[..|xs| - 1], xs[|xs| - 1];
    DistinctElements(xs, x);
    DistinctElements(xs, y);
    DistinctElements(before, x);
    DistinctElements(before, y);
    DistinctElements(before, last);
    if x in before { PlaceInPrefix(xs, x); }
    if y in before { PlaceInPrefix(xs, y); }
    if last !in Distinct(before) {
      assert Distinct(xs)[..|Distinct(xs)| - 1] == Distinct(before);
      if x in before { PlaceInPrefix(Distinct(xs), x); }
      if y in before { PlaceInPrefix(Distinct(xs), y); }
    }
    if x in before && y in before {
      DistinctKeepsOrder(before, x, y);
    }
  }

  lemma {:induction false} SamePlace(xs: seq<string>, x: string, y: string)
    requires x in xs && y in xs
    ensures Place(xs, x) == Place(xs, y) <==> x == y
  {
  }

  /** Among the scopes looked at, the place of a row's scope is its rank. */
  lemma {:induction false} PlaceIsRank<V>(l: Layer<V>, ancestry: seq<string>)
    ensures Applies(l, ancestry) <==> ScopeOf(GLOBAL, l) in [GLOBAL] + ancestry
    ensures Applies(l, ancestry) ==> Place([GLOBAL] + ancestry, ScopeOf(GLOBAL, l)) == Rank(l, ancestry)
  {
    assert ([GLOBAL] + ancestry)[1..] == ancestry;
  }

  lemma {:induction false} IndexLists<V>(rows: RowsOf<V>, ancestry: seq<string>)
    ensures Lists(OrderedIndex(Distinct([GLOBAL] + ancestry), rows), rows, ancestry)
  {
    var xs := [GLOBAL] + ancestry;
    var scopeIds := Distinct(xs);
    var index := OrderedIndex(scopeIds, rows);
    DistinctOnce(xs);
    forall n | 0 <= n < |rows| ensures Applies(rows[n], ancestry) <==> n in index {
      PlaceIsRank(rows[n], ancestry);
      DistinctElements(xs, ScopeOf(GLOBAL, rows[n]));
      if Applies(rows[n], ancestry) {
        OrderedIndexCovers(scopeIds, rows, n);
      }
    }
    assert forall k | 0 <= k < |index| :: index[k] in index;
    forall i, j | 0 <= i < j < |index|
      ensures Before(Rank(rows[index[i]], ancestry), index[i], Rank(rows[index[j]], ancestry), index[j])
    {
      var l, m := rows[index[i]], rows[index[j]];
      var x, y := ScopeOf(GLOBAL, l), ScopeOf(GLOBAL, m);
      OrderedIndexIncreases(scopeIds, rows, i, j);
      PlaceIsRank(l, ancestry);
      PlaceIsRank(m, ancestry);
      DistinctKeepsOrder(xs, x, y);
      SamePlace(scopeIds, x, y);
      SamePlace(xs, x, y);
    }
  }

  // ----- the answer -----

  ghost predicate Settling<V>(l: Layer<V>, key: string) {
    l.strategy == Replace || (l.overrides.Some? && key in l.overrides.value)
  }

  /** What a complete row that settles the key says of it. */
  function Says<V>(l: Layer<V>, key: string): Option<V> {
    var fields := match l.strategy
      case Replace => if l.definition.Some? then l.definition.value else map[]
      case Merge => if l.overrides.Some? then l.overrides.value else map[];
    if key in fields then Some(fields[key]) else None
  }

  /** A value of a key that no row settles is absent; otherwise the last row that settles it decides. */
  ghost predicate LastDecides<V>(layers: RowsOf<V>, value: map<string, V>, key: string) {
    var found := if key in value then Some(value[key]) else None;
    || (found == None && forall l | l in layers :: !Settling(l, key))
    || exists i | 0 <= i < |layers| ::
         && Settling(layers[i], key) && found == Says(layers[i], key)
         && forall j | i < j < |layers| :: !Settling(layers[j], key)
  }

  lemma {:induction false} DecidedBefore<V>(before: RowsOf<V>, last: Layer<V>, value: map<string, V>, key: string)
    requires LastDecides(before, value, key) && !Settling(last, key)
    ensures LastDecides(before + [last], value, key)
  {
    var layers := before + [last];
    if i :| 0 <= i < |before| && Settling(before[i], key)
            && (if key in value then Some(value[key]) else None) == Says(before[i], key)
            && forall j | i < j < |before| :: !Settling(before[j], key) {
      assert layers[i] == before[i];
      forall j | i < j < |layers| ensures !Settling(layers[j], key) {
        assert j < |before| ==> layers[j] == before[j];
      }
    }
  }

  lemma {:induction false} SettlingSays<V>(l: Layer<V>, key: string)
    requires WellFormed(l)
    ensures Settles(l, key) <==> Settling(l, key)
    ensures Setting(l, key) == Says(l, key)
  {
  }

  lemma {:induction false} MostSpecificIsLast<V>(layers: RowsOf<V>, value: map<string, V>, key: string)
    requires AllWellFormed(layers)
    requires (if key in value then Some(value[key]) else None) == MostSpecific(layers, key)
    ensures LastDecides(layers, value, key)
    decreases |layers|
  {
    if layers != [] {
      var before, last := layers[..|layers| - 1], layers[|layers| - 1];
      SettlingSays(last, key);
      if !Settles(last, key) {
        MostSpecificIsLast(before, value, key);
        DecidedBefore(before, last, value, key);
        assert layers == before + [last];
      }
    }
  }

  ghost predicate SomeApplies<V>(rows: RowsOf<V>, ancestry: seq<string>) {
    exists n | 0 <= n < |rows| :: Applies(rows[n], ancestry)
  }

  ghost predicate AllComplete<V>(rows: RowsOf<V>, ancestry: seq<string>) {
    forall n | 0 <= n < |rows| && Applies(rows[n], ancestry) :: Complete(rows[n])
  }

  /** The layers are the rows that apply, global ones first and then in the order of the ancestry. */
  ghost predicate AreApplied<V>(layers: RowsOf<V>, rows: RowsOf<V>, ancestry: seq<string>) {
    exists index :: Lists(index, rows, ancestry) && layers == Picked(rows, index)
  }

  /** The answer for these rows and this ancestry. */
  ghost predicate Answers<V>(r: Resolution<V>, rows: RowsOf<V>, ancestry: seq<string>) {
    && (r.Resolved? <==> SomeApplies(rows, ancestry) && AllComplete(rows, ancestry))
    && (r.NotFound? <==> !SomeApplies(rows, ancestry))
    && (r.Resolved? ==>
          var layers := r.config.contributingLayers;
          && layers != [] && AreApplied(layers, rows, ancestry)
          && (forall key :: LastDecides(layers, r.config.value, key))
          && (r.config.isDefault <==> forall l | l in layers :: IsGlobal(l))
          && r.config.locked == layers[|layers| - 1].locked)
  }

  /** Every row that applies is a layer, and every layer is such a row. */
  lemma {:induction false} AppliedRow<V>(layers: RowsOf<V>, rows: RowsOf<V>, ancestry: seq<string>, n: nat)
    requires AreApplied(layers, rows, ancestry) && n < |rows| && Applies(rows[n], ancestry)
    ensures exists k :: 0 <= k < |layers| && layers[k] == rows[n]
  {
    var index :| Lists(index, rows, ancestry) && layers == Picked(rows, index);
    assert n in index;
    var k :| 0 <= k < |index| && index[k] == n;
    assert layers[k] == rows[n];
  }

  lemma {:induction false} LayerApplies<V>(layers: RowsOf<V>, rows: RowsOf<V>, ancestry: seq<string>, k: nat)
    requires AreApplied(layers, rows, ancestry) && k < |layers|
    ensures exists n :: 0 <= n < |rows| && Applies(rows[n], ancestry) && layers[k] == rows[n]
  {
    var index :| Lists(index, rows, ancestry) && layers == Picked(rows, index);
    assert layers[k] == rows[index[k]];
  }

  lemma {:induction false} AppliedRows<V>(layers: RowsOf<V>, rows: RowsOf<V>, ancestry: seq<string>)
    requires AreApplied(layers, rows, ancestry)
    ensures layers != [] <==> SomeApplies(rows, ancestry)
    ensures AllWellFormed(layers) <==> AllComplete(rows, ancestry)
  {
    if layers != [] {
      LayerApplies(layers, rows, ancestry, 0);
    }
    forall n | 0 <= n < |rows| && Applies(rows[n], ancestry)
      ensures layers != [] && (AllWellFormed(layers) ==> Complete(rows[n]))
    {
      AppliedRow(layers, rows, ancestry, n);
    }
    forall k | 0 <= k < |layers| && AllComplete(rows, ancestry) ensures WellFormed(layers[k]) {
      LayerApplies(layers, rows, ancestry, k);
    }
  }

  lemma {:induction false} OrderedAreApplied<V>(rows: RowsOf<V>, ancestry: seq<string>)
    ensures AreApplied(Ordered(GLOBAL, Distinct([GLOBAL] + ancestry), rows), rows, ancestry)
  {
    IndexLists(rows, ancestry);
    PickedOrdered(Distinct([GLOBAL] + ancestry), rows);
  }

  /** The value and the flags, given the layers. */
  lemma {:induction false} ReducedConfig<V>(scopeIds: seq<string>, rows: RowsOf<V>)
    ensures var r, ordered := Reduced(scopeIds, rows), Ordered(GLOBAL, scopeIds, rows);
            && (r.Resolved? <==> ordered != [] && AllWellFormed(ordered))
            && (r.NotFound? <==> ordered == [])
            && (r.Resolved? ==>
                  && r.config.contributingLayers == ordered
                  && (forall key :: LastDecides(ordered, r.config.value, key))
                  && (r.config.isDefault <==> forall l | l in ordered :: IsGlobal(l))
                  && r.config.locked == ordered[|ordered| - 1].locked)
  {
    var r, ordered := Reduced(scopeIds, rows), Ordered(GLOBAL, scopeIds, rows);
    FailsOnIncomplete(Nothing, ordered);
    ResolutionMeaning(scopeIds, rows, "");
    forall key | r.Resolved? ensures LastDecides(ordered, r.config.value, key) {
      ResolutionMeaning(scopeIds, rows, key);
      MostSpecificIsLast(ordered, r.config.value, key);
    }
    assert forall l: Layer<V> :: IsGlobal(l) <==> ScopeOf(GLOBAL, l) == GLOBAL;
  }

  lemma {:induction false} ReducedAnswers<V>(rows: RowsOf<V>, ancestry: seq<string>)
    ensures Answers(Reduced(Distinct([GLOBAL] + ancestry), rows), rows, ancestry)
  {
    var scopeIds := Distinct([GLOBAL] + ancestry);
    OrderedAreApplied(rows, ancestry);
    AppliedRows(Ordered(GLOBAL, scopeIds, rows), rows, ancestry);
    ReducedConfig(scopeIds, rows);
  }

  /** Resolving with an empty cache gives the answer for the rows stored and the scope's ancestry. */
  lemma {:induction false} ResolvingAnswers<V>(rows: Rows<V>, ancestry: Id -> seq<string>, objectType: Id, name: string,
          scope: Id, now: int)
    ensures Answers(Resolving(map[], rows, ancestry, objectType, name, scope, now).1,
                    if (objectType, name) in rows then rows[(objectType, name)] else [], ancestry(scope))
  {
    if (objectType, name) in rows {
      ReducedAnswers(rows[(objectType, name)], ancestry(scope));
    }
  }

  /** So does resolving through the cache after any run whose writes are followed by an invalidation. */
  lemma {:induction false} EveryRunAnswers<V>(now: int, stored: Rows<V>, steps: seq<Step<V>>, ancestry: Id -> seq<string>,
          objectType: Id, name: string, scope: Id)
    requires forall i | 0 <= i < |steps| && steps[i].Write? :: steps[i].invalidates
    ensures var w := Run(Start(now, stored), steps, ancestry);
            Answers(Resolving(w.store, w.rows, ancestry, objectType, name, scope, w.now).1,
                    if (objectType, name) in w.rows then w.rows[(objectType, name)] else [], ancestry(scope))
  {
    var w := Run(Start(now, stored), steps, ancestry);
    CachedIsUncached(now, stored, steps, ancestry, objectType, name, scope);
    ResolvingAnswers(w.rows, ancestry, objectType, name, scope, w.now);
  }

  // ----- how long an answer is kept -----

  function Elapsed<V>(steps: seq<Step<V>>): nat {
    if steps == [] then 0 else Elapsed(steps[..|steps| - 1]) + if steps[|steps| - 1].Tick? then steps[|steps| - 1].ms else 0
  }

  /** The step invalidates the object, or one whose name and two colons begin its name and two colons. */
  predicate Drops<V>(step: Step<V>, objectType: Id, name: string) {
    step.Write? && step.invalidates && step.objectType == objectType && StartsWith(name + "::", step.name + "::")
  }

  predicate SameKey<V>(step: Step<V>, objectType: Id, name: string, scope: Id) {
    step.Resolve? && step.objectType == objectType && step.name == name && step.scope == scope
  }

  lemma {:induction false} EntryStays<V>(w: World<V>, step: Step<V>, ancestry: Id -> seq<string>, t: Id, n: string, s: Id)
    requires Key(t, n, s) in w.store && !Drops(step, t, n)
    requires SameKey(step, t, n, s) ==> w.store[Key(t, n, s)].expiresAt > w.now
    ensures var x := Next(w, step, ancestry);
            Key(t, n, s) in x.store && x.store[Key(t, n, s)] == w.store[Key(t, n, s)]
  {
    match step {
      case Resolve(t2, n2, s2) =>
        if Key(t2, n2, s2) == Key(t, n, s) {
          KeyInjective(t, n, s, t2, n2, s2);
        }
      case Write(t2, n2, _, _) => PrefixCovers(t2, n2, t, n, s);
      case Tick(_) =>
    }
  }

  /** An entry stays until it is invalidated, and while it is not read again after it has expired. */
  lemma {:induction false} EntryKept<V>(w: World<V>, steps: seq<Step<V>>, ancestry: Id -> seq<string>, t: Id, n: string, s: Id)
    requires Key(t, n, s) in w.store && forall i | 0 <= i < |steps| :: !Drops(steps[i], t, n)
    requires w.now + Elapsed(steps) < w.store[Key(t, n, s)].expiresAt || forall i | 0 <= i < |steps| :: !SameKey(steps[i], t, n, s)
    ensures var x := Run(w, steps, ancestry);
            && x.now == w.now + Elapsed(steps)
            && Key(t, n, s) in x.store && x.store[Key(t, n, s)] == w.store[Key(t, n, s)]
    decreases |steps|
  {
    if steps != [] {
      var before, last := steps[..|steps| - 1], steps[|steps| - 1];
      EntryKept(w, before, ancestry, t, n, s);
      EntryStays(Run(w, before, ancestry), last, ancestry, t, n, s);
    }
  }

  /** An answer that was resolved is given again, without a look at the rows, for exactly a minute unless an
      invalidation drops it; at the end of the minute the rows are looked at again. */
  lemma {:induction false} KeptForAMinute<V>(w: World<V>, steps: seq<Step<V>>, ancestry: Id -> seq<string>, t: Id, n: string,
          s: Id, config: EffectiveConfig<V>)
    requires Key(t, n, s) in w.store ==> w.store[Key(t, n, s)].expiresAt <= w.now
    requires Uncached(w.rows, ancestry, t, n, s) == Resolved(config)
    requires forall i | 0 <= i < |steps| :: !Drops(steps[i], t, n)
    ensures var x := Run(Next(w, Resolve(t, n, s), ancestry), steps, ancestry);
            && (Elapsed(steps) < 60000 ==>
                  Resolving(x.store, x.rows, ancestry, t, n, s, x.now) == (x.store, Resolved(config)))
            && (Elapsed(steps) >= 60000 && (forall i | 0 <= i < |steps| :: !SameKey(steps[i], t, n, s)) ==>
                  Resolving(x.store, x.rows, ancestry, t, n, s, x.now).1 == Uncached(x.rows, ancestry, t, n, s))
  {
    var y := Next(w, Resolve(t, n, s), ancestry);
    assert y.store[Key(t, n, s)] == Entry(config, w.now + 60000) && y.now == w.now;
    if Elapsed(steps) < 60000 || forall i | 0 <= i < |steps| :: !SameKey(steps[i], t, n, s) {
      EntryKept(y, steps, ancestry, t, n, s);
    }
  }

  /** A resolution touches the entry of its own key alone: it is written anew, and dropped when it has expired
      and there is nothing to write. */
  lemma {:induction false} OwnEntryOnly<V>(w: World<V>, ancestry: Id -> seq<string>, t: Id, n: string, s: Id, k: string)
    ensures var x := Next(w, Resolve(t, n, s), ancestry);
            && (k != Key(t, n, s) ==> (k in x.store <==> k in w.store) && (k in w.store ==> x.store[k] == w.store[k]))
            && (!Uncached(w.rows, ancestry, t, n, s).Resolved? && (Key(t, n, s) in w.store ==> w.store[Key(t, n, s)].expiresAt <= w.now)
                ==> Key(t, n, s) !in x.store)
            && x.rows == w.rows && x.now == w.now
  {
  }
}
