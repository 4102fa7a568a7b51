/** Configuration layers from the root scope to the leaf: each replaces or extends what is below it. */
module OverrideLayers {
  import opened Text

  datatype Strategy = Replace | Merge

  /** One stored layer; a layer without a scope belongs to the global one. */
  datatype Layer<V> = Layer(
    rowId: string, scope: Option<string>, strategy: Strategy,
    definition: Option<map<string, V>>, overrides: Option<map<string, V>>, locked: bool)

  /** What the layers applied so far amount to. `Failed` is the exception of an incomplete layer. */
  datatype Value<V> = Nothing | Defined(fields: map<string, V>) | Failed

  predicate WellFormed<V>(l: Layer<V>) {
    if l.strategy.Replace? then l.definition.Some? else l.overrides.Some?
  }

  function ApplyOverride<V>(base: Value<V>, l: Layer<V>): Value<V> {
    if base.Failed? || !WellFormed(l) then Failed
    else
      match l.strategy
      case Replace => Defined(l.definition.value)
      case Merge => Defined((if base.Defined? then base.fields else map[]) + l.overrides.value)
  }

  function Applied<V>(base: Value<V>, layers: seq<Layer<V>>): Value<V> {
    if layers == [] then base
    else ApplyOverride(Applied(base, layers[..|layers| - 1]), layers[|layers| - 1])
  }

  predicate AllWellFormed<V>(layers: seq<Layer<V>>) {
    forall i | 0 <= i < |layers| :: WellFormed(layers[i])
  }

  lemma {:induction false} AppliedConcat<V>(base: Value<V>, a: seq<Layer<V>>, b: seq<Layer<V>>)
    ensures Applied(base, a + b) == Applied(Applied(base, a), b)
    decreases |b|
  {
    if b == [] {
      assert a + b == a;
    } else {
      assert (a + b)[..|a + b| - 1] == a + b[..|b| - 1];
      AppliedConcat(base, a, b[..|b| - 1]);
    }
  }

  /** Applying fails exactly when some layer is incomplete. */
  lemma {:induction false} FailsOnIncomplete<V>(base: Value<V>, layers: seq<Layer<V>>)
    requires !base.Failed?
    ensures Applied(base, layers).Failed? <==> !AllWellFormed(layers)
    ensures Applied(base, layers) == Nothing <==> base == Nothing && layers == []
    decreases |layers|
  {
    if layers != [] {
      FailsOnIncomplete(base, layers[..|layers| - 1]);
    }
  }

  /** What lies rootward of a replacing layer matters only by being complete or not. */
  lemma {:induction false} ReplaceHides<V>(a: seq<Layer<V>>, r: Layer<V>, b: seq<Layer<V>>)
    requires r.strategy.Replace?
    ensures Applied(Nothing, a + [r] + b) == if AllWellFormed(a) then Applied(Nothing, [r] + b) else Failed
  {
    AppliedConcat(Nothing, a + [r], b);
    AppliedConcat(Nothing, a, [r]);
    AppliedConcat(Nothing, [r], b);
    FailsOnIncomplete(Nothing, a);
    assert [r][..0] == [];
    StaysFailed(b);
  }

  lemma {:induction false} StaysFailed<V>(layers: seq<Layer<V>>)
    ensures Applied(Failed, layers) == Failed
    decreases |layers|
  {
    if layers != [] {
      StaysFailed(layers[..|layers| - 1]);
    }
  }

  /** A layer settles a key by replacing everything or by naming the key in its patch. */
  predicate Settles<V>(l: Layer<V>, key: string)
    requires WellFormed(l)
  {
    l.strategy.Replace? || key in l.overrides.value
  }

  function Setting<V>(l: Layer<V>, key: string): Option<V>
    requires WellFormed(l)
  {
    var fields := if l.strategy.Replace? then l.definition.value else l.overrides.value;
    if key in fields then Some(fields[key]) else None
  }

  /** The setting of the last, that is the most specific, layer that settles the key. */
  function MostSpecific<V>(layers: seq<Layer<V>>, key: string): Option<V>
    requires AllWellFormed(layers)
  {
    if layers == [] then None
    else if Settles(layers[|layers| - 1], key) then Setting(layers[|layers| - 1], key)
    else MostSpecific(layers[..|layers| - 1], key)
  }

  lemma {:induction false} MostSpecificWins<V>(layers: seq<Layer<V>>, key: string)
    requires layers != [] && AllWellFormed(layers)
    ensures Applied(Nothing, layers).Defined?
    ensures var fields := Applied(Nothing, layers).fields;
            (if key in fields then Some(fields[key]) else None) == MostSpecific(layers, key)
    decreases |layers|
  {
    var before := layers[..|layers| - 1];
    if before != [] {
      MostSpecificWins(before, key);
    }
  }

  // ----- which layers apply, and in which order -----

  function ScopeOf<V>(global: string, l: Layer<V>): string {
    if l.scope.Some? then l.scope.value else global
  }

  /** The candidates of one scope, in the order given. */
  function AtScope<V>(global: string, scope: string, candidates: seq<Layer<V>>): seq<Layer<V>> {
    if candidates == [] then []
    else (if ScopeOf(global, candidates[0]) == scope then [candidates[0]] else []) + AtScope(global, scope, candidates[1..])
  }

  /** The candidates of the listed scopes, stably sorted by the position of their scope. The array of
      scopes comes from a set, so a scope is listed once. */
  function Ordered<V>(global: string, scopeIds: seq<string>, candidates: seq<Layer<V>>): seq<Layer<V>> {
    if scopeIds == [] then []
    else
      var last := |scopeIds| - 1;
      Ordered(global, scopeIds[..last], candidates) + AtScope(global, scopeIds[last], candidates)
  }

  predicate OneRowPerScope<V>(global: string, candidates: seq<Layer<V>>) {
    forall i, j | 0 <= i < j < |candidates| :: ScopeOf(global, candidates[i]) != ScopeOf(global, candidates[j])
  }

  lemma {:induction false} AtScopeElements<V>(global: string, scope: string, candidates: seq<Layer<V>>, l: Layer<V>)
    ensures l in AtScope(global, scope, candidates) <==> l in candidates && ScopeOf(global, l) == scope
    ensures |AtScope(global, scope, candidates)| <= |candidates|
  {
    if candidates != [] {
      AtScopeElements(global, scope, candidates[1..], l);
      assert candidates == [candidates[0]] + candidates[1..];
    }
  }

  /** The layers that apply are the candidates whose scope is listed. */
  lemma {:induction false} OrderedElements<V>(global: string, scopeIds: seq<string>, candidates: seq<Layer<V>>,
          l: Layer<V>)
    ensures l in Ordered(global, scopeIds, candidates) <==> l in candidates && ScopeOf(global, l) in scopeIds
    decreases |scopeIds|
  {
    if scopeIds != [] {
      var last := |scopeIds| - 1;
      OrderedElements(global, scopeIds[..last], candidates, l);
      AtScopeElements(global, scopeIds[last], candidates, l);
      assert scopeIds == scopeIds[..last] + [scopeIds[last]];
    }
  }

  /** The layers run from the root to the leaf: positions in the list of scopes never fall. */
  lemma {:induction false} RootToLeaf<V>(global: string, scopeIds: seq<string>, candidates: seq<Layer<V>>,
          i: nat, j: nat)
    returns (p: nat, q: nat)
    requires i < j < |Ordered(global, scopeIds, candidates)|
    ensures p <= q < |scopeIds|
    ensures scopeIds[p] == ScopeOf(global, Ordered(global, scopeIds, candidates)[i])
    ensures scopeIds[q] == ScopeOf(global, Ordered(global, scopeIds, candidates)[j])
    decreases |scopeIds|
  {
    var last := |scopeIds| - 1;
    var before := Ordered(global, scopeIds[..last], candidates);
    var l, m := Ordered(global, scopeIds, candidates)[i], Ordered(global, scopeIds, candidates)[j];
    if j < |before| {
      p, q := RootToLeaf(global, scopeIds[..last], candidates, i, j);
    } else {
      q := last;
      assert m == AtScope(global, scopeIds[last], candidates)[j - |before|];
      AtScopeElements(global, scopeIds[last], candidates, m);
      OrderedElements(global, scopeIds, candidates, l);
      p :| 0 <= p < |scopeIds| && scopeIds[p] == ScopeOf(global, l);
    }
  }

  /** With one row per scope there is at most one candidate of a scope. */
  lemma {:induction false} AtScopeOne<V>(global: string, scope: string, candidates: seq<Layer<V>>)
    requires OneRowPerScope(global, candidates)
    ensures |AtScope(global, scope, candidates)| <= 1
  {
    if candidates != [] {
      var rest := candidates[1..];
      assert forall i | 0 <= i < |rest| :: rest[i] == candidates[i + 1];
      AtScopeOne(global, scope, rest);
      if ScopeOf(global, candidates[0]) == scope && AtScope(global, scope, rest) != [] {
        AtScopeElements(global, scope, rest, AtScope(global, scope, rest)[0]);
        assert false;
      }
    }
  }

  ghost predicate SameRows<V>(a: seq<Layer<V>>, b: seq<Layer<V>>) {
    (forall l | l in a :: l in b) && (forall l | l in b :: l in a)
  }

  lemma {:induction false} ShortAndSame<A>(x: seq<A>, y: seq<A>)
    requires |x| <= 1 && |y| <= 1
    requires (forall l | l in x :: l in y) && (forall l | l in y :: l in x)
    ensures x == y
  {
    assert x != [] ==> x[0] in x;
    assert y != [] ==> y[0] in y;
  }

  lemma {:induction false} AtScopeSame<V(!new)>(global: string, scope: string, a: seq<Layer<V>>, b: seq<Layer<V>>)
    requires SameRows(a, b) && OneRowPerScope(global, a) && OneRowPerScope(global, b)
    ensures AtScope(global, scope, a) == AtScope(global, scope, b)
  {
    AtScopeOne(global, scope, a);
    AtScopeOne(global, scope, b);
    forall l: Layer<V> ensures l in AtScope(global, scope, a) <==> l in AtScope(global, scope, b) {
      AtScopeElements(global, scope, a, l);
      AtScopeElements(global, scope, b, l);
    }
    ShortAndSame(AtScope(global, scope, a), AtScope(global, scope, b));
  }

  /** With one row per scope the layers come out the same whatever the order they were loaded in. */
  lemma {:induction false} OrderIndependent<V(!new)>(global: string, scopeIds: seq<string>, a: seq<Layer<V>>,
          b: seq<Layer<V>>)
    requires SameRows(a, b) && OneRowPerScope(global, a) && OneRowPerScope(global, b)
    ensures Ordered(global, scopeIds, a) == Ordered(global, scopeIds, b)
    decreases |scopeIds|
  {
    if scopeIds != [] {
      OrderIndependent(global, scopeIds[..|scopeIds| - 1], a, b);
      AtScopeSame(global, scopeIds[|scopeIds| - 1], a, b);
    }
  }

  lemma {:induction false} TwoRowsOfOneScope<V>(global: string, x: Layer<V>, y: Layer<V>)
    requires ScopeOf(global, x) == global == ScopeOf(global, y)
    ensures Ordered(global, [global], [x, y]) == [x, y]
  {
    assert [global][..0] == [];
    assert [x, y][1..] == [y] && [y][1..] == [];
    assert AtScope(global, global, [y]) == [y];
    assert AtScope(global, global, [x, y]) == [x] + [y];
  }

  /** With two rows of one scope the order can decide. */
  lemma {:induction false} OrderMattersWithinScope(global: string) returns (a: seq<Layer<int>>, b: seq<Layer<int>>)
    ensures SameRows(a, b) && |a| == |b|
    ensures Applied(Nothing, Ordered(global, [global], a)) != Applied(Nothing, Ordered(global, [global], b))
  {
    var one := Layer("1", None, Replace, Some(map["k" := 1]), None, false);
    var two := Layer("2", None, Replace, Some(map["k" := 2]), None, false);
    a, b := [one, two], [two, one];
    TwoRowsOfOneScope(global, one, two);
    TwoRowsOfOneScope(global, two, one);
    MostSpecificWins(a, "k");
    MostSpecificWins(b, "k");
    assert MostSpecific(a, "k") == Some(2) && MostSpecific(b, "k") == Some(1);
  }
}
