/** The schemas for which acceptance is validity. */
module JsonSchemaExactness {
  import opened Text
  import opened JsonValues
  import opened JsonSchemaToZod
  import opened JsonSchemaValidity
  import opened JsonSchemaPromise
  import opened JsonSchemaForms

  predicate Scalar(ty: Json) {
    ty.JString? && ty.s in {"string", "number", "integer", "boolean", "null"}
  }

  /** Every name listed as required is declared. */
  predicate RequiredAreDeclared(m: map<string, Json>) {
    forall e | e in Subschemas(m, "required") && e.JString? ::
      "properties" in m && m["properties"].JObject? && e.s in m["properties"].fields
  }

  /** Schemas of one form each: `anyOf`, an `enum` of primitives, scalar types, or an array or object
      type whose parts are again such schemas and whose required names are declared. */
  predicate OneForm(schema: Json)
    decreases schema
  {
    schema.JObject? &&
    var m := schema.fields;
    if "anyOf" in m then
      m.Keys <= {"anyOf", "description"} && m["anyOf"].JArray? && m["anyOf"].items != []
      && forall s | s in m["anyOf"].items :: OneForm(s)
    else if "enum" in m then
      m.Keys <= {"enum", "description"} && m["enum"].JArray? && m["enum"].items != []
      && forall e | e in m["enum"].items :: Primitive(e)
    else
      "type" in m &&
      if m["type"] == JString("array") then
        m.Keys <= {"type", "items", "description"} && ("items" in m ==> OneForm(m["items"]))
      else if m["type"] == JString("object") then
        m.Keys <= {"type", "properties", "required", "description"} && RequiredAreDeclared(m)
        && ("properties" in m && m["properties"].JObject? ==>
              forall k | k in m["properties"].fields :: OneForm(m["properties"].fields[k]))
      else
        m.Keys <= {"type", "description"}
        && if m["type"].JArray? then (exists e :: e in m["type"].items && e != JString("null")) && forall e | e in m["type"].items :: Scalar(e)
           else Scalar(m["type"])
  }

  lemma {:induction false} OneFormTranslates(schema: Json)
    requires OneForm(schema)
    ensures Translatable(schema)
    decreases schema
  {
    var m := schema.fields;
    if "anyOf" in m {
      forall s | s in m["anyOf"].items { OneFormTranslates(s); }
    } else if "enum" !in m {
      if m["type"] == JString("array") && "items" in m {
        OneFormTranslates(m["items"]);
      } else if m["type"] == JString("object") && Keyword(m, "properties").JObject? {
        forall k | k in m["properties"].fields { OneFormTranslates(m["properties"].fields[k]); }
      }
    }
  }

  lemma {:induction false} ScalarKeeps(schema: Json, ty: Json, input: Input)
    requires schema.JObject? && Scalar(ty)
    ensures Keeps(FromType(schema, ty), input) <==> input.Some? && HasType(ty.s, input.value, true)
  {
  }

  /** A schema of one form never accepts an absent property, so `required` is enforced. */
  lemma {:induction false} AbsentIsRejected(schema: Json)
    requires OneForm(schema)
    ensures !Keeps(Compile(schema), None)
    decreases schema
  {
    var m := schema.fields;
    if "anyOf" in m {
      var zs := CompileAll(Variants(m));
      forall z | z in zs ensures !Keeps(z, None) {
        var i :| 0 <= i < |zs| && zs[i] == z;
        AbsentIsRejected(m["anyOf"].items[i]);
      }
      UnionKeeps(zs, None);
      DescribeKeeps(UnionOf(zs), m, None);
    } else if "enum" in m {
      UnionKeeps(Literals(EnumMembers(m)), None);
      DescribeKeeps(UnionOf(Literals(EnumMembers(m))), m, None);
    } else {
      DescribeKeeps(FromType(schema, m["type"]), m, None);
      TypeRejectsAbsent(schema);
    }
  }

  lemma {:induction false} TypeRejectsAbsent(schema: Json)
    requires OneForm(schema) && "anyOf" !in schema.fields && "enum" !in schema.fields
    ensures !Keeps(FromType(schema, schema.fields["type"]), None)
  {
    var ty := schema.fields["type"];
    if ty.JArray? {
      TypeListKeeps(schema, ty.items, None);
      forall i | 0 <= i < |NonNull(ty.items)| { ScalarKeeps(schema, NonNull(ty.items)[i], None); }
    } else if ty != JString("array") && ty != JString("object") {
      ScalarKeeps(schema, ty, None);
    }
  }

  /** On schemas of one form, with "integer" read as "number", the compiled schema accepts exactly
      the valid values. */
  lemma {:induction false} ExactlyValid(schema: Json, v: Json)
    requires OneForm(schema)
    ensures Keeps(Compile(schema), Some(v)) <==> Valid(schema, v, true, NoOther())
    decreases schema, 2
  {
    if Valid(schema, v, true, NoOther()) {
      OneFormTranslates(schema);
      NeverOverconstrains(schema, v, true, NoOther());
    }
    if Keeps(Compile(schema), Some(v)) {
      KeptIsValid(schema, v);
    }
  }

  lemma {:induction false} KeptIsValid(schema: Json, v: Json)
    requires OneForm(schema) && Keeps(Compile(schema), Some(v))
    ensures Valid(schema, v, true, NoOther())
    decreases schema, 1
  {
    if "anyOf" in schema.fields {
      KeptVariant(schema, v);
      VariantIsValid(schema, v);
    } else if "enum" in schema.fields {
      KeptMember(schema, v);
      MemberIsValid(schema, v);
    } else {
      DescribeKeeps(FromType(schema, schema.fields["type"]), schema.fields, Some(v));
      KeptType(schema, v);
      TypedIsValid(schema, v);
    }
  }

  lemma {:induction false} VariantIsValid(schema: Json, v: Json)
    requires OneForm(schema) && "anyOf" in schema.fields && AnyOfHolds(schema, v, true, NoOther())
    ensures Valid(schema, v, true, NoOther())
  {
    KeywordsAbsent(schema, v, true, NoOther());
    ValidFromParts(schema, v, true, NoOther());
  }

  lemma {:induction false} MemberIsValid(schema: Json, v: Json)
    requires OneForm(schema) && "anyOf" !in schema.fields && "enum" in schema.fields && v in EnumMembers(schema.fields)
    ensures Valid(schema, v, true, NoOther())
  {
    KeywordsAbsent(schema, v, true, NoOther());
    ValidFromParts(schema, v, true, NoOther());
  }

  lemma {:induction false} TypedIsValid(schema: Json, v: Json)
    requires OneForm(schema) && "anyOf" !in schema.fields && "enum" !in schema.fields
    requires TypeHolds(schema.fields["type"], v, true) && RequiredHolds(schema.fields, v)
    requires PropertiesHold(schema, v, true, NoOther()) && ItemsHold(schema, v, true, NoOther())
    ensures Valid(schema, v, true, NoOther())
  {
    KeywordsAbsent(schema, v, true, NoOther());
    ValidFromParts(schema, v, true, NoOther());
  }

  lemma {:induction false} KeptType(schema: Json, v: Json)
    requires OneForm(schema) && "anyOf" !in schema.fields && "enum" !in schema.fields
    requires Keeps(FromType(schema, schema.fields["type"]), Some(v))
    ensures TypeHolds(schema.fields["type"], v, true) && RequiredHolds(schema.fields, v)
    ensures PropertiesHold(schema, v, true, NoOther()) && ItemsHold(schema, v, true, NoOther())
    decreases schema, 0, 1
  {
    var ty := schema.fields["type"];
    KeywordsAbsent(schema, v, true, NoOther());
    if ty == JString("array") {
      KeptArray(schema, v);
    } else if ty == JString("object") {
      KeptObject(schema, v);
    } else if ty.JArray? {
      KeptScalarList(schema, ty.items, v);
    } else {
      ScalarKeeps(schema, ty, Some(v));
    }
  }

  lemma {:induction false} KeptVariant(schema: Json, v: Json)
    requires schema.JObject? && "anyOf" in schema.fields && schema.fields["anyOf"].JArray?
    requires schema.fields["anyOf"].items != [] && forall s | s in schema.fields["anyOf"].items :: OneForm(s)
    requires Keeps(Compile(schema), Some(v))
    ensures AnyOfHolds(schema, v, true, NoOther())
    decreases schema, 0
  {
    var ss := schema.fields["anyOf"].items;
    var zs := CompileAll(ss);
    UnionKeeps(zs, Some(v));
    DescribeKeeps(UnionOf(zs), schema.fields, Some(v));
    assert Compile(schema) == Describe(UnionOf(zs), schema.fields);
    var z :| z in zs && Keeps(z, Some(v));
    var i :| 0 <= i < |zs| && zs[i] == z;
    ExactlyValid(ss[i], v);
    assert Subschemas(schema.fields, "anyOf") == ss;
  }

  lemma {:induction false} KeptMember(schema: Json, v: Json)
    requires schema.JObject? && Variants(schema.fields) == [] && |EnumMembers(schema.fields)| > 0
    requires forall e | e in EnumMembers(schema.fields) :: Primitive(e)
    requires Keeps(Compile(schema), Some(v))
    ensures v in EnumMembers(schema.fields)
  {
    var zs := Literals(EnumMembers(schema.fields));
    UnionKeeps(zs, Some(v));
    DescribeKeeps(UnionOf(zs), schema.fields, Some(v));
    assert Compile(schema) == Describe(UnionOf(zs), schema.fields);
    var z :| z in zs && Keeps(z, Some(v));
    var i :| 0 <= i < |zs| && zs[i] == z;
    var e := EnumMembers(schema.fields)[i];
    assert e in EnumMembers(schema.fields);
    assert Primitive(e) && zs[i] == Literal(e) == ZLiteral([e]);
    LiteralKeeps(e, v);
  }

  lemma {:induction false} KeptScalarList(schema: Json, tys: seq<Json>, v: Json)
    requires schema.JObject? && NonNull(tys) != [] && forall e | e in tys :: Scalar(e)
    requires Keeps(FromType(schema, JArray(tys)), Some(v))
    ensures TypeHolds(JArray(tys), v, true)
  {
    TypeListKeeps(schema, tys, Some(v));
    if i :| 0 <= i < |NonNull(tys)| && Keeps(FromType(schema, NonNull(tys)[i]), Some(v)) {
      ScalarKeeps(schema, NonNull(tys)[i], Some(v));
      TypeInList(tys, NonNull(tys)[i], v);
    } else {
      TypeInList(tys, JString("null"), v);
    }
  }

  lemma {:induction false} TypeInList(tys: seq<Json>, ty: Json, v: Json)
    requires ty in tys && ty.JString? && HasType(ty.s, v, true)
    ensures TypeHolds(JArray(tys), v, true)
  {
  }

  lemma {:induction false} KeptArray(schema: Json, v: Json)
    requires schema.JObject? && "prefixItems" !in schema.fields
    requires "items" in schema.fields ==> OneForm(schema.fields["items"])
    requires Keeps(FromType(schema, JString("array")), Some(v))
    ensures v.JArray? && ItemsHold(schema, v, true, NoOther())
    decreases schema, 0, 0
  {
    var m := schema.fields;
    if "items" in m {
      forall i | 0 <= i < |v.items| ensures Valid(m["items"], v.items[i], true, NoOther()) {
        assert v.items[i] in v.items;
        ExactlyValid(m["items"], v.items[i]);
      }
    }
  }

  lemma {:induction false} KeptObject(schema: Json, v: Json)
    requires schema.JObject? && RequiredAreDeclared(schema.fields)
    requires "properties" in schema.fields && schema.fields["properties"].JObject? ==>
      forall k | k in schema.fields["properties"].fields :: OneForm(schema.fields["properties"].fields[k])
    requires Keeps(FromType(schema, JString("object")), Some(v))
    ensures v.JObject? && RequiredHolds(schema.fields, v) && PropertiesHold(schema, v, true, NoOther())
    decreases schema, 0, 0, 1
  {
    assert FromType(schema, JString("object")) == ObjectFromSchema(schema);
    if Keyword(schema.fields, "properties").JObject? {
      KeptProperties(schema, v);
    }
  }

  lemma {:induction false} KeptProperties(schema: Json, v: Json)
    requires schema.JObject? && Keyword(schema.fields, "properties").JObject?
    requires RequiredAreDeclared(schema.fields)
    requires forall k | k in schema.fields["properties"].fields :: OneForm(schema.fields["properties"].fields[k])
    requires Keeps(ZLoose(Shape(schema)), Some(v))
    ensures v.JObject? && RequiredHolds(schema.fields, v) && PropertiesHold(schema, v, true, NoOther())
    decreases schema, 0, 0, 0
  {
    var props := schema.fields["properties"].fields;
    LooseKeeps(Shape(schema), Some(v));
    forall k | k in props
      ensures k in v.fields ==> Valid(props[k], v.fields[k], true, NoOther())
      ensures k in RequiredNames(schema.fields) ==> k in v.fields
    {
      KeptProperty(props[k], k in RequiredNames(schema.fields), At(v.fields, k));
    }
  }

  lemma {:induction false} KeptProperty(prop: Json, required: bool, input: Input)
    requires OneForm(prop) && Keeps(Field(Compile(prop), required), input)
    ensures input.Some? ==> Valid(prop, input.value, true, NoOther())
    ensures required ==> input.Some?
    decreases prop, 3
  {
    FieldKeeps(Compile(prop), required, input);
    if input.Some? {
      ExactlyValid(prop, input.value);
    } else {
      AbsentIsRejected(prop);
    }
  }

  /** An object lacking a property that is listed as required, and whose schema is of one form, is refused,
      whatever the other properties are. */
  lemma {:induction false} MissingRequiredIsRefused(m: map<string, Json>, name: string, v: Json)
    requires TypeDecides(m) && "type" in m && m["type"] == JString("object")
    requires "properties" in m && m["properties"].JObject? && name in m["properties"].fields && OneForm(m["properties"].fields[name])
    requires "required" in m && m["required"].JArray? && JString(name) in m["required"].items
    requires v.JObject? && name !in v.fields
    ensures !Keeps(Compile(JObject(m)), Some(v))
  {
    ObjectDecides(m, Some(v));
    AbsentIsRejected(m["properties"].fields[name]);
  }
}
