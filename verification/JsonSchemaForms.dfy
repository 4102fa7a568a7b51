/** What the compiled schema accepts, said of the keywords of any schema. */
module JsonSchemaForms {
  import opened Text
  import opened JsonValues
  import opened JsonSchemaToZod

  type Keywords = map<string, Json>

  predicate ListUnder(m: Keywords, key: string) {
    key in m && m[key].JArray? && m[key].items != []
  }

  predicate Missing(m: Keywords, key: string) {
    key !in m || m[key] == JNull
  }

  /** The keyword whose variants count: `oneOf` only where there is no `anyOf`. */
  predicate HasVariants(m: Keywords) {
    ListUnder(m, "anyOf") || (Missing(m, "anyOf") && ListUnder(m, "oneOf"))
  }

  /** What is no schema object constrains nothing. */
  lemma {:induction false} NoSchemaAcceptsAll(schema: Json, input: Input)
    requires !schema.JObject?
    ensures Keeps(Compile(schema), input)
  {
  }

  function VariantsOf(m: Keywords): seq<Json>
    requires HasVariants(m)
  {
    if ListUnder(m, "anyOf") then m["anyOf"].items else m["oneOf"].items
  }

  ghost predicate SomeKeeps(schemas: seq<Json>, input: Input) {
    exists s :: s in schemas && Keeps(Compile(s), input)
  }

  lemma {:induction false} UnionOfCompiled(schemas: seq<Json>, input: Input)
    requires schemas != []
    ensures Keeps(UnionOf(CompileAll(schemas)), input) <==> SomeKeeps(schemas, input)
  {
    var zs := CompileAll(schemas);
    UnionKeeps(zs, input);
    if z :| z in zs && Keeps(z, input) {
      var i :| 0 <= i < |zs| && zs[i] == z;
      assert schemas[i] in schemas;
    }
    if s :| s in schemas && Keeps(Compile(s), input) {
      var i :| 0 <= i < |schemas| && schemas[i] == s;
      assert zs[i] in zs;
    }
  }

  /** Variants decide, whatever the other keywords say. */
  lemma {:induction false} VariantsDecide(m: Keywords, input: Input)
    requires HasVariants(m)
    ensures Keeps(Compile(JObject(m)), input) <==> SomeKeeps(VariantsOf(m), input)
  {
    assert Variants(m) == VariantsOf(m);
    UnionOfCompiled(VariantsOf(m), input);
    DescribeKeeps(UnionOf(CompileAll(VariantsOf(m))), m, input);
  }

  /** Without variants an enum decides: a primitive value is accepted that is a member, or an item of a member
      that is a list. */
  lemma {:induction false} EnumDecides(m: Keywords, input: Input)
    requires !HasVariants(m) && ListUnder(m, "enum")
    ensures Keeps(Compile(JObject(m)), input)
       <==> && input.Some? && Primitive(input.value)
            && exists e | e in m["enum"].items :: e == input.value || (e.JArray? && input.value in e.items)
  {
    var es := m["enum"].items;
    assert Variants(m) == [] && EnumMembers(m) == es;
    var zs := Literals(es);
    UnionKeeps(zs, input);
    DescribeKeeps(UnionOf(zs), m, input);
    forall i | 0 <= i < |es|
      ensures Keeps(zs[i], input)
         <==> input.Some? && Primitive(input.value) && (es[i] == input.value || (es[i].JArray? && input.value in es[i].items))
    {
      MemberKeeps(es[i], input);
    }
    if z :| z in zs && Keeps(z, input) {
      var i :| 0 <= i < |zs| && zs[i] == z;
      assert es[i] in es;
    }
    if input.Some? && Primitive(input.value) {
      if e :| e in es && (e == input.value || (e.JArray? && input.value in e.items)) {
        var i :| 0 <= i < |es| && es[i] == e;
        assert zs[i] in zs;
      }
    }
  }

  lemma {:induction false} MemberKeeps(e: Json, input: Input)
    ensures Keeps(Literal(e), input)
       <==> input.Some? && Primitive(input.value) && (e == input.value || (e.JArray? && input.value in e.items))
  {
    if input.Some? {
      assert input.value in [e] <==> input.value == e;
    }
  }

  /** Otherwise the type decides. */
  predicate TypeDecides(m: Keywords) {
    !HasVariants(m) && !ListUnder(m, "enum")
  }

  lemma {:induction false} TypeOf(m: Keywords, input: Input)
    requires TypeDecides(m)
    ensures Keeps(Compile(JObject(m)), input) <==> Keeps(FromType(JObject(m), if "type" in m then m["type"] else JNull), input)
  {
    assert Variants(m) == [] && EnumMembers(m) == [];
    DescribeKeeps(FromType(JObject(m), Keyword(m, "type")), m, input);
  }

  /** No type, or none that is known. */
  lemma {:induction false} UnknownTypeAcceptsAll(m: Keywords, input: Input)
    requires TypeDecides(m)
    requires "type" in m ==> !m["type"].JArray?
    requires "type" in m && m["type"].JString? ==>
      m["type"].s !in {"object", "array", "string", "number", "integer", "boolean", "null"}
    ensures Keeps(Compile(JObject(m)), input)
  {
    TypeOf(m, input);
  }

  lemma {:induction false} ScalarDecides(m: Keywords, name: string, input: Input)
    requires TypeDecides(m) && "type" in m && m["type"] == JString(name)
    ensures name == "string" ==> (Keeps(Compile(JObject(m)), input) <==> input.Some? && input.value.JString?)
    ensures name == "number" || name == "integer" ==> (Keeps(Compile(JObject(m)), input) <==> input.Some? && input.value.JNumber?)
    ensures name == "boolean" ==> (Keeps(Compile(JObject(m)), input) <==> input.Some? && input.value.JBool?)
    ensures name == "null" ==> (Keeps(Compile(JObject(m)), input) <==> input == Some(JNull))
  {
    TypeOf(m, input);
  }

  /** An array whose items the compiled `items`, if any, accepts. */
  lemma {:induction false} ArrayDecides(m: Keywords, input: Input)
    requires TypeDecides(m) && "type" in m && m["type"] == JString("array")
    ensures Keeps(Compile(JObject(m)), input)
       <==> && input.Some? && input.value.JArray?
            && ("items" in m ==> forall v | v in input.value.items :: Keeps(Compile(m["items"]), Some(v)))
  {
    TypeOf(m, input);
  }

  predicate Declares(m: Keywords) {
    "properties" in m && m["properties"].JObject?
  }

  predicate Requires(m: Keywords, name: string) {
    "required" in m && m["required"].JArray? && JString(name) in m["required"].items
  }

  /** An object each of whose declared properties is accepted by its own compiled schema, or is absent and
      not listed as required, or is absent and that schema accepts absence. */
  lemma {:induction false} ObjectDecides(m: Keywords, input: Input)
    requires TypeDecides(m) && "type" in m && m["type"] == JString("object")
    ensures Keeps(Compile(JObject(m)), input)
       <==> && input.Some? && input.value.JObject?
            && (Declares(m) ==>
                  forall k | k in m["properties"].fields ::
                    (k !in input.value.fields && !Requires(m, k))
                    || Keeps(Compile(m["properties"].fields[k]), At(input.value.fields, k)))
  {
    TypeOf(m, input);
    assert FromType(JObject(m), JString("object")) == ObjectFromSchema(JObject(m));
    if Declares(m) {
      var props := m["properties"].fields;
      LooseKeeps(Shape(JObject(m)), input);
      forall k | k in props && input.Some? && input.value.JObject?
        ensures Keeps(Shape(JObject(m))[k], At(input.value.fields, k))
           <==> (k !in input.value.fields && !Requires(m, k)) || Keeps(Compile(props[k]), At(input.value.fields, k))
      {
        RequiredIsListed(m, k);
        FieldKeeps(Compile(props[k]), k in RequiredNames(m), At(input.value.fields, k));
      }
    } else {
      LooseKeeps(map[], input);
    }
  }

  lemma {:induction false} RequiredIsListed(m: Keywords, name: string)
    ensures name in RequiredNames(m) <==> Requires(m, name)
  {
  }

  /** A type list accepts what one of its types does, the other keywords being the same; a null that it lists
      is accepted, and without another type it accepts everything. */
  lemma {:induction false} TypeListDecides(m: Keywords, input: Input)
    requires TypeDecides(m) && "type" in m && m["type"].JArray?
    ensures Keeps(Compile(JObject(m)), input)
       <==> || (JString("null") in m["type"].items && input == Some(JNull))
            || (forall e | e in m["type"].items :: e == JString("null"))
            || exists e | e in m["type"].items && e != JString("null") :: Keeps(FromType(JObject(m), e), input)
  {
    var entries := m["type"].items;
    TypeOf(m, input);
    TypeListKeeps(JObject(m), entries, input);
    var others := NonNull(entries);
    if i :| 0 <= i < |others| && Keeps(FromType(JObject(m), others[i]), input) {
      assert others[i] in entries && others[i] != JString("null");
    }
    if e :| e in entries && e != JString("null") && Keeps(FromType(JObject(m), e), input) {
      var i :| 0 <= i < |others| && others[i] == e;
    }
    if others != [] {
      assert others[0] in entries;
    }
  }

  /** An entry of a type list stands for the same schema with that type. */
  lemma {:induction false} EntryIsType(m: Keywords, e: Json, input: Input)
    requires TypeDecides(m)
    ensures TypeDecides(m["type" := e])
    ensures Keeps(FromType(JObject(m), e), input) <==> Keeps(Compile(JObject(m["type" := e])), input)
    decreases e
  {
    var n := m["type" := e];
    TypeOf(n, input);
    SameOtherwise(m, n, e);
  }

  /** What a type stands for does not depend on the keyword `type` itself. */
  lemma {:induction false} SameOtherwise(m: Keywords, n: Keywords, ty: Json)
    requires n.Keys == m.Keys + {"type"} && forall k | k in m && k != "type" :: n[k] == m[k]
    ensures FromType(JObject(m), ty) == FromType(JObject(n), ty)
    decreases ty
  {
    if ty.JArray? {
      SameEntries(m, n, ty.items);
    } else if ty == JString("object") {
      if Declares(m) {
        assert RequiredNames(m) == RequiredNames(n);
        assert Shape(JObject(m)) == Shape(JObject(n));
      }
    }
  }

  lemma {:induction false} SameEntries(m: Keywords, n: Keywords, entries: seq<Json>)
    requires n.Keys == m.Keys + {"type"} && forall k | k in m && k != "type" :: n[k] == m[k]
    ensures FromType(JObject(m), JArray(entries)) == FromType(JObject(n), JArray(entries))
    decreases entries
  {
    forall e | e in entries ensures FromType(JObject(m), e) == FromType(JObject(n), e) {
      SameOtherwise(m, n, e);
    }
    assert FromNonNull(JObject(m), entries) == FromNonNull(JObject(n), entries);
  }

  /** A description is handed on. */
  lemma {:induction false} DescriptionIsKept(m: Keywords, text: string)
    requires "description" in m && m["description"] == JString(text)
    ensures Compile(JObject(m)).ZDescribed? && Compile(JObject(m)).text == text
  {
  }
}
