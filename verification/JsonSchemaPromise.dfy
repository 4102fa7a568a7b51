/** The promise of the translation: nothing that the schema allows is rejected. */
module JsonSchemaPromise {
  import opened Text
  import opened JsonValues
  import opened JsonSchemaToZod
  import opened JsonSchemaValidity

  /** The schema's type is this one, or lists it. */
  predicate NamesType(m: map<string, Json>, name: string) {
    Keyword(m, "type") == JString(name) || (Keyword(m, "type").JArray? && JString(name) in m["type"].items)
  }

  /** The schemas for which the translation keeps its promise: along the parts it looks at, enum
      members are primitive, entries of a type list are not lists themselves, and an object schema
      under `items` does not stand behind `prefixItems`. `items` is looked at for arrays only, and
      `properties` for objects. */
  predicate Translatable(schema: Json)
    decreases schema
  {
    match schema
    case JObject(m) =>
      if |Variants(m)| > 0 then forall s | s in Variants(m) :: Translatable(s)
      else if |EnumMembers(m)| > 0 then forall e | e in EnumMembers(m) :: Primitive(e)
      else
        (Keyword(m, "type").JArray? ==> forall e | e in m["type"].items :: !e.JArray?)
        && (NamesType(m, "array") && "items" in m ==>
              Translatable(m["items"]) && (m["items"].JObject? ==> Subschemas(m, "prefixItems") == []))
        && (NamesType(m, "object") && Keyword(m, "properties").JObject? ==>
              forall k | k in m["properties"].fields :: Translatable(m["properties"].fields[k]))
    case _ => true
  }

  /** The promise: whatever the JSON Schema allows, however its other keywords are read, the
      compiled schema accepts. */
  lemma {:induction false} NeverOverconstrains(schema: Json, v: Json, wide: bool, rest: Reading)
    requires Translatable(schema) && Valid(schema, v, wide, rest)
    ensures Keeps(Compile(schema), Some(v))
    decreases schema, 3
  {
    if schema.JObject? {
      var m := schema.fields;
      if |Variants(m)| > 0 {
        VariantAccepted(schema, v, wide, rest);
      } else if |EnumMembers(m)| > 0 {
        EnumAccepted(m, v);
        assert Compile(schema) == Describe(UnionOf(Literals(EnumMembers(m))), m);
      } else {
        var ty := Keyword(m, "type");
        if ty.JArray? {
          TypeListAccepted(schema, v, wide, rest);
        } else {
          SingleTypeAccepted(schema, ty, v, wide, rest);
        }
        DescribeKeeps(FromType(schema, ty), m, Some(v));
        assert Compile(schema) == Describe(FromType(schema, ty), m);
      }
    }
  }

  lemma {:induction false} EnumAccepted(m: map<string, Json>, v: Json)
    requires v in EnumMembers(m) && Primitive(v)
    ensures Keeps(Describe(UnionOf(Literals(EnumMembers(m))), m), Some(v))
  {
    var i :| 0 <= i < |EnumMembers(m)| && EnumMembers(m)[i] == v;
    var zs := Literals(EnumMembers(m));
    assert zs[i] == ZLiteral([v]) && zs[i] in zs && Keeps(zs[i], Some(v));
    UnionKeeps(zs, Some(v));
    DescribeKeeps(UnionOf(zs), m, Some(v));
  }

  lemma {:induction false} SomeVariantValid(schema: Json, v: Json, wide: bool, rest: Reading) returns (i: nat)
    requires schema.JObject? && |Variants(schema.fields)| > 0
    requires AnyOfHolds(schema, v, wide, rest) && OneOfHolds(schema, v, wide, rest)
    ensures i < |Variants(schema.fields)| && Valid(Variants(schema.fields)[i], v, wide, rest)
  {
    if Keyword(schema.fields, "anyOf") != JNull {
      assert Subschemas(schema.fields, "anyOf") == Variants(schema.fields);
    } else {
      assert Subschemas(schema.fields, "oneOf") == Variants(schema.fields);
    }
    i :| 0 <= i < |Variants(schema.fields)| && Valid(Variants(schema.fields)[i], v, wide, rest);
  }

  lemma {:induction false} VariantAccepted(schema: Json, v: Json, wide: bool, rest: Reading)
    requires schema.JObject? && |Variants(schema.fields)| > 0 && Translatable(schema)
    requires AnyOfHolds(schema, v, wide, rest) && OneOfHolds(schema, v, wide, rest)
    ensures Keeps(Compile(schema), Some(v))
    decreases schema, 2
  {
    var m := schema.fields;
    var i := SomeVariantValid(schema, v, wide, rest);
    NeverOverconstrains(Variants(m)[i], v, wide, rest);
    var zs := CompileAll(Variants(m));
    assert zs[i] in zs;
    UnionKeeps(zs, Some(v));
    DescribeKeeps(UnionOf(zs), m, Some(v));
    assert Compile(schema) == Describe(UnionOf(zs), m);
  }

  /** An entry the list reading accepts through: one v has, or one the translation does not know. */
  lemma {:induction false} AcceptingEntry(entries: seq<Json>, v: Json, wide: bool) returns (e: Json)
    requires entries != [] && TypeHolds(JArray(entries), v, wide)
    ensures e in entries && (TypeName(e) ==> HasType(e.s, v, wide))
  {
    if forall t | t in entries :: TypeName(t) {
      e :| e in entries && HasType(e.s, v, wide);
    } else {
      e :| e in entries && !TypeName(e);
    }
  }

  lemma {:induction false} TypeListAccepted(schema: Json, v: Json, wide: bool, rest: Reading)
    requires schema.JObject? && |Variants(schema.fields)| == 0 && |EnumMembers(schema.fields)| == 0
    requires Translatable(schema) && Keyword(schema.fields, "type").JArray?
    requires TypeHolds(Keyword(schema.fields, "type"), v, wide) && RequiredHolds(schema.fields, v)
    requires PropertiesHold(schema, v, wide, rest) && ItemsHold(schema, v, wide, rest)
    ensures Keeps(FromType(schema, Keyword(schema.fields, "type")), Some(v))
    decreases schema, 2
  {
    var entries := Keyword(schema.fields, "type").items;
    TypeListKeeps(schema, entries, Some(v));
    if entries != [] {
      var e := AcceptingEntry(entries, v, wide);
      if e != JString("null") {
        SingleTypeAccepted(schema, e, v, wide, rest);
        assert e in NonNull(entries);
      }
    }
  }

  lemma {:induction false} SingleTypeAccepted(schema: Json, ty: Json, v: Json, wide: bool, rest: Reading)
    requires schema.JObject? && |Variants(schema.fields)| == 0 && |EnumMembers(schema.fields)| == 0
    requires Translatable(schema) && RequiredHolds(schema.fields, v)
    requires PropertiesHold(schema, v, wide, rest) && ItemsHold(schema, v, wide, rest)
    requires !ty.JArray? && (TypeName(ty) ==> HasType(ty.s, v, wide)) && (ty.JString? ==> NamesType(schema.fields, ty.s))
    ensures Keeps(FromType(schema, ty), Some(v))
    decreases schema, 1
  {
    if ty == JString("array") {
      if "items" in schema.fields && schema.fields["items"].JObject? {
        forall w | w in v.items ensures Keeps(Compile(schema.fields["items"]), Some(w)) {
          var i :| 0 <= i < |v.items| && v.items[i] == w;
          NeverOverconstrains(schema.fields["items"], v.items[i], wide, rest);
        }
      }
    } else if ty == JString("object") {
      ObjectAccepted(schema, v, wide, rest);
    }
  }

  lemma {:induction false} ObjectAccepted(schema: Json, v: Json, wide: bool, rest: Reading)
    requires schema.JObject? && |Variants(schema.fields)| == 0 && |EnumMembers(schema.fields)| == 0
    requires Translatable(schema) && RequiredHolds(schema.fields, v) && PropertiesHold(schema, v, wide, rest)
    requires v.JObject? && NamesType(schema.fields, "object")
    ensures Keeps(ObjectFromSchema(schema), Some(v))
    decreases schema, 0
  {
    if Keyword(schema.fields, "properties").JObject? {
      var props := schema.fields["properties"].fields;
      forall k | k in props ensures Keeps(Shape(schema)[k], At(v.fields, k)) {
        if k in v.fields {
          NeverOverconstrains(props[k], v.fields[k], wide, rest);
        }
      }
    }
  }
}
