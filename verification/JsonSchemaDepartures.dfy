/** Where the translation rejects what the schema allows. */
module JsonSchemaDepartures {
  import opened Text
  import opened JsonValues
  import opened JsonSchemaToZod
  import opened JsonSchemaValidity
  import opened JsonSchemaPromise

  function Typed(name: string): Json { JObject(map["type" := JString(name)]) }

  /** A composite enum member is allowed by the schema and refused by the literal compiled from it. */
  lemma {:induction false} CompositeEnumMemberRefused()
    ensures var schema, v := JObject(map["enum" := JArray([JObject(map[])])]), JObject(map[]);
      Valid(schema, v, false, NoOther()) && !Keeps(Compile(schema), Some(v))
  {
    var v := JObject(map[]);
    EnumIsExact([v], v, false);
  }

  /** A schema of an enum alone allows its members, and accepts a member exactly when it is primitive. */
  lemma {:induction false} EnumIsExact(members: seq<Json>, v: Json, wide: bool)
    requires v in members
    ensures var schema := JObject(map["enum" := JArray(members)]);
      Valid(schema, v, wide, NoOther()) && (Keeps(Compile(schema), Some(v)) <==> Primitive(v))
  {
    var m := map["enum" := JArray(members)];
    var schema := JObject(m);
    assert EnumMembers(m) == members && Variants(m) == [];
    KeywordsAbsent(schema, v, wide, NoOther());
    ValidFromParts(schema, v, wide, NoOther());
    if Primitive(v) {
      EnumAccepted(m, v);
    }
    var zs := Literals(members);
    UnionKeeps(zs, Some(v));
    DescribeKeeps(UnionOf(zs), m, Some(v));
    assert Compile(schema) == Describe(UnionOf(zs), m);
    assert forall z | z in zs :: z.ZLiteral?;
  }

  /** Such a schema refuses nothing it allows exactly when all its members are primitive. */
  lemma {:induction false} EnumKeepsPromise(members: seq<Json>, wide: bool)
    requires members != []
    ensures var schema := JObject(map["enum" := JArray(members)]);
      (forall v | Valid(schema, v, wide, NoOther()) :: Keeps(Compile(schema), Some(v)))
      <==> forall e | e in members :: Primitive(e)
  {
    var schema := JObject(map["enum" := JArray(members)]);
    assert EnumMembers(schema.fields) == members;
    forall v: Json ensures Valid(schema, v, wide, NoOther()) <==> v in members {
      if v in members {
        EnumIsExact(members, v, wide);
      }
    }
    forall v | v in members ensures Keeps(Compile(schema), Some(v)) <==> Primitive(v) {
      EnumIsExact(members, v, wide);
    }
  }

  function Tuple(ps: seq<Json>, item: Json): Json {
    JObject(map["type" := JString("array"), "prefixItems" := JArray(ps), "items" := item])
  }

  /** The compiled array holds every item to `items`. */
  lemma {:induction false} TupleKeeps(ps: seq<Json>, item: Json, v: Json)
    ensures Keeps(Compile(Tuple(ps, item)), Some(v))
       <==> v.JArray? && forall i | 0 <= i < |v.items| :: Keeps(Compile(item), Some(v.items[i]))
  {
    var m := Tuple(ps, item).fields;
    assert Variants(m) == [] && EnumMembers(m) == [];
    assert FromType(Tuple(ps, item), JString("array")) == ZArray(Compile(item));
    DescribeKeeps(ZArray(Compile(item)), m, Some(v));
    ArrayKeeps(Compile(item), v);
  }

  lemma {:induction false} ArrayKeeps(element: Zod, v: Json)
    ensures Keeps(ZArray(element), Some(v))
       <==> v.JArray? && forall i | 0 <= i < |v.items| :: Keeps(element, Some(v.items[i]))
  {
    if v.JArray? && forall i | 0 <= i < |v.items| :: Keeps(element, Some(v.items[i])) {
      forall w | w in v.items ensures Keeps(element, Some(w)) {
        var i :| 0 <= i < |v.items| && v.items[i] == w;
      }
    }
  }

  predicate ItemAllowed(ps: seq<Json>, item: Json, i: nat, w: Json, wide: bool, rest: Reading) {
    Valid(if i < |ps| then ps[i] else item, w, wide, rest)
  }

  /** The schema lets the leading items answer to their own schemas. */
  lemma {:induction false} TupleValid(ps: seq<Json>, item: Json, v: Json, wide: bool, rest: Reading)
    requires rest(Tuple(ps, item).fields, v)
    ensures Valid(Tuple(ps, item), v, wide, rest)
       <==> v.JArray? && forall i | 0 <= i < |v.items| :: ItemAllowed(ps, item, i, v.items[i], wide, rest)
  {
    var schema := Tuple(ps, item);
    var m := schema.fields;
    assert EnumMembers(m) == [] && RequiredNames(m) == {} && Subschemas(m, "prefixItems") == ps;
    KeywordsAbsent(schema, v, wide, rest);
    if v.JArray? {
      ItemsByPosition(schema, ps, v.items, wide, rest);
      if PrefixItemsHold(schema, v, wide, rest) && ItemsHold(schema, v, wide, rest) {
        ValidFromParts(schema, v, wide, rest);
      }
    }
  }

  lemma {:induction false} ItemsByPosition(schema: Json, ps: seq<Json>, items: seq<Json>, wide: bool, rest: Reading)
    requires schema.JObject? && "items" in schema.fields && Subschemas(schema.fields, "prefixItems") == ps
    ensures PrefixItemsHold(schema, JArray(items), wide, rest) && ItemsHold(schema, JArray(items), wide, rest)
       <==> forall i | 0 <= i < |items| :: ItemAllowed(ps, schema.fields["items"], i, items[i], wide, rest)
  {
    if forall i | 0 <= i < |items| :: ItemAllowed(ps, schema.fields["items"], i, items[i], wide, rest) {
      forall i | 0 <= i < |ps| && i < |items| ensures Valid(ps[i], items[i], wide, rest) {
        assert ItemAllowed(ps, schema.fields["items"], i, items[i], wide, rest);
      }
      forall i | |ps| <= i < |items| ensures Valid(schema.fields["items"], items[i], wide, rest) {
        assert ItemAllowed(ps, schema.fields["items"], i, items[i], wide, rest);
      }
    }
  }

  ghost predicate Satisfiable(schema: Json, wide: bool, rest: Reading) {
    exists w :: Valid(schema, w, wide, rest)
  }

  /** Some valid array has an item at this position. */
  ghost predicate Occurs(ps: seq<Json>, i: nat, wide: bool, rest: Reading) {
    forall j | 0 <= j < i && j < |ps| :: Satisfiable(ps[j], wide, rest)
  }

  /** Whatever the schema allows at the position, `items` accepts. */
  ghost predicate PositionKept(ps: seq<Json>, item: Json, i: nat, wide: bool, rest: Reading) {
    forall w | ItemAllowed(ps, item, i, w, wide, rest) :: Keeps(Compile(item), Some(w))
  }

  ghost predicate PromiseKept(schema: Json, wide: bool, rest: Reading) {
    forall v | Valid(schema, v, wide, rest) :: Keeps(Compile(schema), Some(v))
  }

  /** Values that the schema allows at the positions before `i`. */
  lemma {:induction false} Witnesses(ps: seq<Json>, i: nat, wide: bool, rest: Reading) returns (ws: seq<Json>)
    requires i <= |ps| && Occurs(ps, i, wide, rest)
    ensures |ws| == i && forall j | 0 <= j < i :: Valid(ps[j], ws[j], wide, rest)
  {
    if i == 0 {
      ws := [];
    } else {
      var before := Witnesses(ps, i - 1, wide, rest);
      assert Satisfiable(ps[i - 1], wide, rest);
      var w :| Valid(ps[i - 1], w, wide, rest);
      ws := before + [w];
    }
  }

  lemma {:induction false} PositionNeeded(ps: seq<Json>, item: Json, i: nat, w: Json, wide: bool, rest: Reading)
    requires forall v :: rest(Tuple(ps, item).fields, v)
    requires PromiseKept(Tuple(ps, item), wide, rest) && i <= |ps| && Occurs(ps, i, wide, rest)
    requires ItemAllowed(ps, item, i, w, wide, rest)
    ensures Keeps(Compile(item), Some(w))
  {
    var before := Witnesses(ps, i, wide, rest);
    var v := JArray(before + [w]);
    forall j | 0 <= j < |v.items| ensures ItemAllowed(ps, item, j, v.items[j], wide, rest) {
      assert j < i ==> v.items[j] == before[j];
    }
    TupleValid(ps, item, v, wide, rest);
    TupleKeeps(ps, item, v);
    assert v.items[i] == w;
  }

  /** An array schema with `prefixItems` refuses nothing it allows if and only if `items` accepts what each
      position allows, as far as valid arrays reach: the leading positions, and the one after them. */
  lemma {:induction false} PrefixItemsKeepPromise(ps: seq<Json>, item: Json, wide: bool, rest: Reading)
    requires forall v :: rest(Tuple(ps, item).fields, v)
    ensures PromiseKept(Tuple(ps, item), wide, rest)
       <==> forall i: nat | i <= |ps| && Occurs(ps, i, wide, rest) :: PositionKept(ps, item, i, wide, rest)
  {
    if PromiseKept(Tuple(ps, item), wide, rest) {
      forall i: nat | i <= |ps| && Occurs(ps, i, wide, rest) ensures PositionKept(ps, item, i, wide, rest) {
        forall w | ItemAllowed(ps, item, i, w, wide, rest) ensures Keeps(Compile(item), Some(w)) {
          PositionNeeded(ps, item, i, w, wide, rest);
        }
      }
    }
    if forall i: nat | i <= |ps| && Occurs(ps, i, wide, rest) :: PositionKept(ps, item, i, wide, rest) {
      forall v | Valid(Tuple(ps, item), v, wide, rest) ensures Keeps(Compile(Tuple(ps, item)), Some(v)) {
        TupleValid(ps, item, v, wide, rest);
        TupleKeeps(ps, item, v);
        forall i: nat | i < |v.items| ensures Keeps(Compile(item), Some(v.items[i])) {
          ItemKept(ps, item, v.items, i, wide, rest);
        }
      }
    }
  }

  lemma {:induction false} ItemKept(ps: seq<Json>, item: Json, items: seq<Json>, i: nat, wide: bool, rest: Reading)
    requires forall k: nat | k <= |ps| && Occurs(ps, k, wide, rest) :: PositionKept(ps, item, k, wide, rest)
    requires i < |items| && forall k | 0 <= k < |items| :: ItemAllowed(ps, item, k, items[k], wide, rest)
    ensures Keeps(Compile(item), Some(items[i]))
  {
    var k := if i < |ps| then i else |ps|;
    forall j | 0 <= j < k && j < |ps| ensures Satisfiable(ps[j], wide, rest) {
      assert ItemAllowed(ps, item, j, items[j], wide, rest);
    }
    assert Occurs(ps, k, wide, rest);
    assert ItemAllowed(ps, item, i, items[i], wide, rest);
    assert ItemAllowed(ps, item, k, items[i], wide, rest);
  }

  /** When `items` is translatable the position after the leading ones is kept; when these are all
      satisfiable the promise is a matter of each of them. */
  lemma {:induction false} TranslatableItemsKeepPromise(ps: seq<Json>, item: Json, wide: bool, rest: Reading)
    requires forall v :: rest(Tuple(ps, item).fields, v)
    requires Translatable(item) && forall i | 0 <= i < |ps| :: Satisfiable(ps[i], wide, rest)
    ensures PromiseKept(Tuple(ps, item), wide, rest)
       <==> forall i, w | 0 <= i < |ps| && Valid(ps[i], w, wide, rest) :: Keeps(Compile(item), Some(w))
  {
    PrefixItemsKeepPromise(ps, item, wide, rest);
    forall w | ItemAllowed(ps, item, |ps|, w, wide, rest) ensures Keeps(Compile(item), Some(w)) {
      NeverOverconstrains(item, w, wide, rest);
    }
    assert PositionKept(ps, item, |ps|, wide, rest);
    if forall i, w | 0 <= i < |ps| && Valid(ps[i], w, wide, rest) :: Keeps(Compile(item), Some(w)) {
      forall i: nat | i <= |ps| ensures PositionKept(ps, item, i, wide, rest) {
        forall w | i < |ps| && ItemAllowed(ps, item, i, w, wide, rest) ensures Keeps(Compile(item), Some(w)) {
          assert Valid(ps[i], w, wide, rest);
        }
      }
    }
    if forall i: nat | i <= |ps| && Occurs(ps, i, wide, rest) :: PositionKept(ps, item, i, wide, rest) {
      forall i, w | 0 <= i < |ps| && Valid(ps[i], w, wide, rest) ensures Keeps(Compile(item), Some(w)) {
        assert Occurs(ps, i, wide, rest) && PositionKept(ps, item, i, wide, rest);
        assert ItemAllowed(ps, item, i, w, wide, rest);
      }
    }
  }

  /** With no other keyword an entry of a type list accepts what has the type it names, or everything. */
  lemma {:induction false} EntryKeeps(schema: Json, ty: Json, v: Json)
    requires schema.JObject? && schema.fields.Keys == {"type"} && !ty.JArray?
    ensures Keeps(FromType(schema, ty), Some(v)) <==> TypeName(ty) ==> HasType(ty.s, v, true)
  {
    if ty == JString("array") {
      assert FromType(schema, ty) == ZArray(ZAny);
    } else if ty == JString("object") {
      assert FromType(schema, ty) == ObjectFromSchema(schema) == ZLoose(map[]);
    }
  }

  /** Some entry names a type of v, or no type. */
  ghost predicate Takes(entries: seq<Json>, v: Json) {
    exists e | e in entries :: TypeName(e) ==> HasType(e.s, v, true)
  }

  function ListOfList(inner: seq<Json>): Json { JObject(map["type" := JArray([JArray(inner)])]) }

  /** Read as constraining nothing, a list inside a type list still constrains: what is accepted is what
      the inner list accepts. */
  lemma {:induction false} NestedListKeeps(inner: seq<Json>, v: Json)
    requires forall e | e in inner :: !e.JArray?
    ensures Valid(ListOfList(inner), v, false, NoOther())
    ensures Keeps(Compile(ListOfList(inner)), Some(v))
       <==> NonNull(inner) == [] || Takes(inner, v)
  {
    var outer := [JArray(inner)];
    var m := map["type" := JArray(outer)];
    var schema := JObject(m);
    KeywordsAbsent(schema, v, false, NoOther());
    assert !TypeName(outer[0]);
    ValidFromParts(schema, v, false, NoOther());
    assert Compile(schema) == Describe(FromType(schema, JArray(outer)), m);
    DescribeKeeps(FromType(schema, JArray(outer)), m, Some(v));
    assert NonNull(outer) == outer by { assert outer[1..] == []; }
    TypeListKeeps(schema, outer, Some(v));
    InnerListKeeps(schema, inner, v);
  }

  lemma {:induction false} InnerListKeeps(schema: Json, inner: seq<Json>, v: Json)
    requires schema.JObject? && schema.fields.Keys == {"type"} && forall e | e in inner :: !e.JArray?
    ensures Keeps(FromType(schema, JArray(inner)), Some(v)) <==> NonNull(inner) == [] || Takes(inner, v)
  {
    TypeListKeeps(schema, inner, Some(v));
    if NonNull(inner) != [] && Keeps(FromType(schema, JArray(inner)), Some(v)) {
      if HasString(inner, "null") && v == JNull {
        assert HasType("null", v, true);
      } else {
        var i :| 0 <= i < |NonNull(inner)| && Keeps(FromType(schema, NonNull(inner)[i]), Some(v));
        EntryKeeps(schema, NonNull(inner)[i], v);
      }
    }
    if Takes(inner, v) {
      InnerListTakes(schema, inner, v);
    }
  }

  lemma {:induction false} InnerListTakes(schema: Json, inner: seq<Json>, v: Json)
    requires schema.JObject? && schema.fields.Keys == {"type"} && forall e | e in inner :: !e.JArray?
    requires Takes(inner, v)
    ensures Keeps(FromType(schema, JArray(inner)), Some(v))
  {
    var e :| e in inner && (TypeName(e) ==> HasType(e.s, v, true));
    if e == JString("null") {
      NullTaken(schema, inner, v);
    } else {
      EntryKeeps(schema, e, v);
      EntryTaken(schema, inner, e, v);
    }
  }

  lemma {:induction false} EntryTaken(schema: Json, inner: seq<Json>, e: Json, v: Json)
    requires schema.JObject? && e in inner && e != JString("null") && Keeps(FromType(schema, e), Some(v))
    ensures Keeps(FromType(schema, JArray(inner)), Some(v))
  {
    TypeListKeeps(schema, inner, Some(v));
    assert e in NonNull(inner);
  }

  lemma {:induction false} NullTaken(schema: Json, inner: seq<Json>, v: Json)
    requires schema.JObject? && JString("null") in inner && HasType("null", v, true)
    ensures Keeps(FromType(schema, JArray(inner)), Some(v))
  {
    TypeListKeeps(schema, inner, Some(v));
  }

  /** The inner list names every type, or holds something that names none. */
  predicate NamesEverything(inner: seq<Json>) {
    || NonNull(inner) == []
    || (exists e | e in inner :: !TypeName(e))
    || EveryTypeIn(inner)
  }

  predicate EveryTypeIn(inner: seq<Json>) {
    && JString("object") in inner && JString("array") in inner && JString("string") in inner
    && JString("boolean") in inner && JString("null") in inner
    && (JString("number") in inner || JString("integer") in inner)
  }

  /** Such a schema, which allows everything, refuses nothing exactly when its inner list names every type,
      is empty but for "null", or has an entry that is no type name. */
  lemma {:induction false} NestedListKeepsPromise(inner: seq<Json>)
    requires forall e | e in inner :: !e.JArray?
    ensures (forall v | Valid(ListOfList(inner), v, false, NoOther()) :: Keeps(Compile(ListOfList(inner)), Some(v)))
       <==> NamesEverything(inner)
  {
    forall v: Json
      ensures Valid(ListOfList(inner), v, false, NoOther())
      ensures Keeps(Compile(ListOfList(inner)), Some(v))
         <==> NonNull(inner) == [] || Takes(inner, v)
    {
      NestedListKeeps(inner, v);
    }
    if forall e | e in inner :: TypeName(e) {
      EachTypeNamed(inner);
    } else {
      var e :| e in inner && !TypeName(e);
      assert forall v :: Takes(inner, v);
    }
  }

  /** A list of type names has one for every value exactly when it names every type. */
  lemma {:induction false} EachTypeNamed(inner: seq<Json>)
    requires forall e | e in inner :: TypeName(e)
    ensures (forall v :: Takes(inner, v)) <==> EveryTypeIn(inner)
  {
    if forall v :: Takes(inner, v) {
      assert Takes(inner, JObject(map[])) && Takes(inner, JArray([])) && Takes(inner, JString(""));
      assert Takes(inner, JBool(true)) && Takes(inner, JNull) && Takes(inner, JNumber(0.0));
    }
    if EveryTypeIn(inner) {
      forall v ensures Takes(inner, v) {
        SomeTypeTakes(inner, v);
      }
    }
  }

  lemma {:induction false} SomeTypeTakes(inner: seq<Json>, v: Json)
    requires EveryTypeIn(inner)
    ensures Takes(inner, v)
  {
    var e := match v
      case JObject(_) => JString("object")
      case JArray(_) => JString("array")
      case JString(_) => JString("string")
      case JBool(_) => JString("boolean")
      case JNull => JString("null")
      case JNumber(_) => if JString("number") in inner then JString("number") else JString("integer");
    assert e in inner && HasType(e.s, v, true);
  }

  lemma {:induction false} TakesOne(e: Json, v: Json)
    ensures Takes([e], v) <==> TypeName(e) ==> HasType(e.s, v, true)
    ensures e != JString("null") ==> NonNull([e]) == [e]
  {
    assert e in [e] && [e][1..] == [];
  }

  lemma {:induction false} NestedTypeListOverconstrained()
    ensures var schema := ListOfList([JString("string")]);
      Valid(schema, JBool(true), false, NoOther()) && !Keeps(Compile(schema), Some(JBool(true)))
  {
    NestedListKeeps([JString("string")], JBool(true));
    TakesOne(JString("string"), JBool(true));
  }

  lemma {:induction false} CompileScalar(name: string)
    ensures Compile(Typed(name)) == FromType(Typed(name), JString(name))
  {
  }

  // ----- tuples of plain types -----

  predicate Named(name: string) { TypeName(JString(name)) }

  lemma {:induction false} TypedKeeps(name: string, w: Json)
    requires Named(name)
    ensures Keeps(Compile(Typed(name)), Some(w)) <==> HasType(name, w, true)
  {
    CompileScalar(name);
    EntryKeeps(Typed(name), JString(name), w);
  }

  lemma {:induction false} TypedValid(name: string, w: Json, wide: bool)
    requires Named(name)
    ensures Valid(Typed(name), w, wide, NoOther()) <==> HasType(name, w, wide)
  {
    KeywordsAbsent(Typed(name), w, wide, NoOther());
    if HasType(name, w, wide) {
      ValidFromParts(Typed(name), w, wide, NoOther());
    }
  }

  /** The same type, or both numeric. */
  predicate SameKind(a: string, b: string) {
    a == b || ((a == "number" || a == "integer") && (b == "number" || b == "integer"))
  }

  function Sample(name: string): Json {
    match name
    case "object" => JObject(map[])
    case "array" => JArray([])
    case "string" => JString("")
    case "boolean" => JBool(true)
    case "null" => JNull
    case _ => JNumber(0.0)
  }

  lemma {:induction false} SampleHasType(name: string, wide: bool)
    requires Named(name)
    ensures HasType(name, Sample(name), wide)
  {
  }

  lemma {:induction false} SampleIsOfKind(a: string, b: string)
    requires Named(a) && Named(b) && HasType(b, Sample(a), true)
    ensures SameKind(a, b)
  {
  }

  lemma {:induction false} KindContains(a: string, b: string, w: Json, wide: bool)
    requires SameKind(a, b) && HasType(a, w, wide)
    ensures HasType(b, w, true)
  {
  }

  function Types(names: seq<string>): (ps: seq<Json>)
    ensures |ps| == |names| && forall i | 0 <= i < |names| :: ps[i] == Typed(names[i])
  {
    seq(|names|, i requires 0 <= i < |names| => Typed(names[i]))
  }

  /** With plain types the promise is kept exactly when every leading type is that of the items, numbers and
      integers being one. */
  lemma {:induction false} TypedTuplesKeepPromise(names: seq<string>, b: string, wide: bool)
    requires Named(b) && forall i | 0 <= i < |names| :: Named(names[i])
    ensures PromiseKept(Tuple(Types(names), Typed(b)), wide, NoOther())
       <==> forall i | 0 <= i < |names| :: SameKind(names[i], b)
  {
    var ps := Types(names);
    forall i | 0 <= i < |names| ensures Valid(ps[i], Sample(names[i]), wide, NoOther()) {
      SampleHasType(names[i], wide);
      TypedValid(names[i], Sample(names[i]), wide);
    }
    assert Translatable(Typed(b));
    TranslatableItemsKeepPromise(ps, Typed(b), wide, NoOther());
    forall i | 0 <= i < |names|
      ensures SameKind(names[i], b) <==> forall w | Valid(ps[i], w, wide, NoOther()) :: Keeps(Compile(Typed(b)), Some(w))
    {
      KindKept(names[i], b, wide);
    }
  }

  lemma {:induction false} KindKept(a: string, b: string, wide: bool)
    requires Named(a) && Named(b)
    ensures SameKind(a, b) <==> forall w | Valid(Typed(a), w, wide, NoOther()) :: Keeps(Compile(Typed(b)), Some(w))
  {
    forall w
      ensures Valid(Typed(a), w, wide, NoOther()) <==> HasType(a, w, wide)
      ensures Keeps(Compile(Typed(b)), Some(w)) <==> HasType(b, w, true)
    {
      TypedValid(a, w, wide);
      TypedKeeps(b, w);
    }
    SampleHasType(a, wide);
    if HasType(b, Sample(a), true) {
      SampleIsOfKind(a, b);
    }
    if SameKind(a, b) {
      forall w | HasType(a, w, wide) ensures HasType(b, w, true) {
        KindContains(a, b, w, wide);
      }
    }
  }

  lemma {:induction false} SingleAllowed(p: Json, item: Json, w: Json, wide: bool)
    requires Valid(p, w, wide, NoOther())
    ensures Valid(Tuple([p], item), JArray([w]), wide, NoOther())
  {
    assert ItemAllowed([p], item, 0, w, wide, NoOther());
    TupleValid([p], item, JArray([w]), wide, NoOther());
  }

  lemma {:induction false} SingleRefused(p: Json, item: Json, w: Json)
    requires !Keeps(Compile(item), Some(w))
    ensures !Keeps(Compile(Tuple([p], item)), Some(JArray([w])))
  {
    TupleKeeps([p], item, JArray([w]));
  }

  lemma {:induction false} SampleRefused(a: string, b: string, wide: bool)
    requires Named(a) && Named(b) && !SameKind(a, b)
    ensures Valid(Typed(a), Sample(a), wide, NoOther()) && !Keeps(Compile(Typed(b)), Some(Sample(a)))
  {
    SampleHasType(a, wide);
    TypedValid(a, Sample(a), wide);
    TypedKeeps(b, Sample(a));
    if HasType(b, Sample(a), true) {
      SampleIsOfKind(a, b);
    }
  }

  /** With `prefixItems` the leading items answer to their own schemas; the compiled array holds them to
      `items` all the same. */
  lemma {:induction false} PrefixItemsOverconstrained()
    ensures var schema, v := Tuple([Typed("string")], Typed("number")), JArray([JString("")]);
      Valid(schema, v, false, NoOther()) && !Keeps(Compile(schema), Some(v))
  {
    SampleRefused("string", "number", false);
    SingleAllowed(Typed("string"), Typed("number"), JString(""), false);
    SingleRefused(Typed("string"), Typed("number"), JString(""));
  }
}
