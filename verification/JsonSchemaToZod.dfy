/** Translation of JSON Schema into Zod, with a semantics for both languages.
    The source language is JSON Schema draft 2020-12 (Validation sections 6.1.1, 6.1.2, 6.5.3; Core
    sections 10.2.1.2, 10.2.1.3, 10.3.1.1, 10.3.1.2, 10.3.2.1) over raw JSON: a keyword whose value
    has the wrong shape constrains nothing. The meaning of the Zod combinators is an assumption. */
module JsonSchemaToZod {
  import opened Text
  import opened JsonValues

  /* ---------- Zod ---------- */

  datatype Zod =
    | ZAny | ZString | ZNumber | ZBoolean | ZNull
    | ZLiteral(values: seq<Json>)       // literal: one of several
    | ZArray(element: Zod)
    | ZUnion(options: seq<Zod>)
    | ZNullable(inner: Zod)
    | ZOptional(inner: Zod)
    | ZLoose(shape: map<string, Zod>)   // looseObject: unknown keys are kept
    | ZStrip(shape: map<string, Zod>)   // object: unknown keys are dropped
    | ZDescribed(inner: Zod, text: string)

  /** `None` is the absent property; a missing key is parsed as absent. */
  type Input = Option<Json>

  function At(fields: map<string, Json>, key: string): Input {
    if key in fields then Some(fields[key]) else None
  }

  predicate Primitive(v: Json) { !v.JArray? && !v.JObject? }

  /** `schema.safeParse(input)`: `None` when rejected, otherwise the value that is handed on. */
  function ZodParse(z: Zod, input: Input): Option<Input>
    decreases z, 1
  {
    match z
    case ZAny => Some(input)
    case ZString => if input.Some? && input.value.JString? then Some(input) else None
    case ZNumber => if input.Some? && input.value.JNumber? then Some(input) else None
    case ZBoolean => if input.Some? && input.value.JBool? then Some(input) else None
    case ZNull => if input == Some(JNull) then Some(input) else None
    // compared by identity, which a parsed composite value never shares with a literal's
    case ZLiteral(values) => if input.Some? && Primitive(input.value) && input.value in values then Some(input) else None
    case ZArray(element) =>
      if input.Some? && input.value.JArray? && forall v | v in input.value.items :: Keeps(element, Some(v))
      then Some(Some(JArray(seq(|input.value.items|, i requires 0 <= i < |input.value.items| =>
        Output(element, input.value.items[i])))))
      else None
    case ZUnion(options) => FirstParse(options, input)
    case ZNullable(inner) => if input == Some(JNull) then Some(input) else ZodParse(inner, input)
    case ZOptional(inner) => if input == None then Some(input) else ZodParse(inner, input)
    case ZLoose(shape) =>
      if input.Some? && input.value.JObject? && forall k | k in shape :: Keeps(shape[k], At(input.value.fields, k))
      then Some(Some(JObject(map k | k in input.value.fields ::
        if k in shape then Output(shape[k], input.value.fields[k]) else input.value.fields[k])))
      else None
    case ZStrip(shape) =>
      if input.Some? && input.value.JObject? && forall k | k in shape :: Keeps(shape[k], At(input.value.fields, k))
      then Some(Some(JObject(map k | k in input.value.fields && k in shape :: Output(shape[k], input.value.fields[k]))))
      else None
    case ZDescribed(inner, _) => ZodParse(inner, input)
  }

  predicate Keeps(z: Zod, input: Input)
    decreases z, 2
  {
    ZodParse(z, input).Some?
  }

  /** The parsed form of a present value. */
  function Output(z: Zod, v: Json): Json
    decreases z, 2
  {
    match ZodParse(z, Some(v)) case Some(Some(w)) => w case _ => v
  }

  function FirstParse(options: seq<Zod>, input: Input): Option<Input>
    decreases options, 0
  {
    if options == [] then None
    else if Keeps(options[0], input) then ZodParse(options[0], input)
    else FirstParse(options[1..], input)
  }

  /* ---------- the translation ---------- */

  function Keyword(m: map<string, Json>, key: string): Json {
    if key in m then m[key] else JNull
  }

  /** `schema["anyOf"] ?? schema["oneOf"]`, as a list; empty when there is no non-empty array. */
  function Variants(m: map<string, Json>): seq<Json> {
    var v := if Keyword(m, "anyOf") != JNull then Keyword(m, "anyOf") else Keyword(m, "oneOf");
    if v.JArray? then v.items else []
  }

  function EnumMembers(m: map<string, Json>): seq<Json> {
    if Keyword(m, "enum").JArray? then Keyword(m, "enum").items else []
  }

  function UnionOf(zs: seq<Zod>): Zod {
    if |zs| == 0 then ZAny else if |zs| == 1 then zs[0] else ZUnion(zs)
  }

  function Describe(z: Zod, m: map<string, Json>): Zod {
    if Keyword(m, "description").JString? then ZDescribed(z, m["description"].s) else z
  }

  predicate HasString(xs: seq<Json>, s: string) { JString(s) in xs }

  function Compile(schema: Json): Zod
    decreases schema, 3
  {
    match schema
    case JObject(m) =>
      if |Variants(m)| > 0 then Describe(UnionOf(CompileAll(Variants(m))), m)
      else if |EnumMembers(m)| > 0 then Describe(UnionOf(Literals(EnumMembers(m))), m)
      else Describe(FromType(schema, Keyword(m, "type")), m)
    case _ => ZAny
  }

  function CompileAll(schemas: seq<Json>): (zs: seq<Zod>)
    ensures |zs| == |schemas|
    ensures forall i | 0 <= i < |schemas| :: zs[i] == Compile(schemas[i])
    decreases schemas, 0
  {
    if schemas == [] then [] else [Compile(schemas[0])] + CompileAll(schemas[1..])
  }

  /** `z.literal(member)`, which takes an array for a list of literals. */
  function Literal(member: Json): Zod {
    ZLiteral(if member.JArray? then member.items else [member])
  }

  function Literals(members: seq<Json>): seq<Zod> {
    seq(|members|, i requires 0 <= i < |members| => Literal(members[i]))
  }

  /** `fromType` of the schema with its `type` replaced by `ty`. */
  function FromType(schema: Json, ty: Json): Zod
    requires schema.JObject?
    decreases schema, 2, ty, 1
  {
    match ty
    case JArray(entries) =>
      var base := UnionOf(FromNonNull(schema, entries));
      if HasString(entries, "null") then ZNullable(base) else base
    case JString("object") => ObjectFromSchema(schema)
    case JString("array") =>
      ZArray(if "items" in schema.fields then Compile(schema.fields["items"]) else ZAny)
    case JString("string") => ZString
    case JString("number") => ZNumber
    case JString("integer") => ZNumber
    case JString("boolean") => ZBoolean
    case JString("null") => ZNull
    case _ => ZAny
  }

  function NonNull(entries: seq<Json>): (r: seq<Json>)
    ensures forall i | 0 <= i < |r| :: r[i] in entries && r[i] != JString("null")
    ensures forall e | e in entries && e != JString("null") :: e in r
  {
    if entries == [] then []
    else (if entries[0] == JString("null") then [] else [entries[0]]) + NonNull(entries[1..])
  }

  /** The translations of the entries other than "null", in order. */
  function FromNonNull(schema: Json, entries: seq<Json>): (zs: seq<Zod>)
    requires schema.JObject?
    ensures |zs| == |NonNull(entries)|
    ensures forall i | 0 <= i < |zs| :: zs[i] == FromType(schema, NonNull(entries)[i])
    decreases schema, 2, entries, 0
  {
    if entries == [] then []
    else (if entries[0] == JString("null") then [] else [FromType(schema, entries[0])]) + FromNonNull(schema, entries[1..])
  }

  /** The string members of `required`. */
  function RequiredNames(m: map<string, Json>): set<string> {
    if Keyword(m, "required").JArray? then set e | e in m["required"].items && e.JString? :: e.s else {}
  }

  function Shape(schema: Json): map<string, Zod>
    requires schema.JObject? && Keyword(schema.fields, "properties").JObject?
    decreases schema, 0
  {
    var props := schema.fields["properties"].fields;
    map k | k in props :: Field(Compile(props[k]), k in RequiredNames(schema.fields))
  }

  function Field(z: Zod, required: bool): Zod { if required then z else ZOptional(z) }

  function ObjectFromSchema(schema: Json): Zod
    requires schema.JObject?
    decreases schema, 1
  {
    if Keyword(schema.fields, "properties").JObject? then ZLoose(Shape(schema)) else ZLoose(map[])
  }

  /** The loop of `objectFromSchema`: one shape entry per declared property. */
  method FillShape(schema: Json) returns (shape: map<string, Zod>)
    requires schema.JObject? && Keyword(schema.fields, "properties").JObject?
    ensures shape == Shape(schema)
  {
    var props := schema.fields["properties"].fields;
    var required := RequiredNames(schema.fields);
    shape := map[];
    var keys := props.Keys;
    while keys != {}
      invariant keys <= props.Keys && shape.Keys == props.Keys - keys
      invariant forall k | k in shape :: shape[k] == Shape(schema)[k]
    {
      var key :| key in keys;
      var field := Compile(props[key]);
      shape := shape[key := if key in required then field else ZOptional(field)];
      keys := keys - {key};
    }
  }

  /* ---------- what is accepted ---------- */

  lemma {:induction false} FirstParseFinds(options: seq<Zod>, input: Input)
    ensures FirstParse(options, input).Some? <==> exists o | o in options :: Keeps(o, input)
  {
    if options != [] {
      FirstParseFinds(options[1..], input);
      if Keeps(options[0], input) {
        assert options[0] in options;
      } else if o :| o in options && Keeps(o, input) {
        assert o in options[1..];
      }
    }
  }

  lemma {:induction false} UnionKeeps(zs: seq<Zod>, input: Input)
    ensures Keeps(UnionOf(zs), input) <==> zs == [] || exists z | z in zs :: Keeps(z, input)
  {
    FirstParseFinds(zs, input);
    if |zs| == 1 {
      assert zs == [zs[0]];
    }
  }

  lemma {:induction false} DescribeKeeps(z: Zod, m: map<string, Json>, input: Input)
    ensures Keeps(Describe(z, m), input) <==> Keeps(z, input)
  {
  }

  /** A type list accepts null when it lists it, and whatever one of its other entries accepts. */
  lemma {:induction false} TypeListKeeps(schema: Json, entries: seq<Json>, input: Input)
    requires schema.JObject?
    ensures Keeps(FromType(schema, JArray(entries)), input)
       <==> (HasString(entries, "null") && input == Some(JNull)) || NonNull(entries) == []
            || exists i | 0 <= i < |NonNull(entries)| :: Keeps(FromType(schema, NonNull(entries)[i]), input)
  {
    var zs := FromNonNull(schema, entries);
    var base := UnionOf(zs);
    UnionKeeps(zs, input);
    assert FromType(schema, JArray(entries)) == if HasString(entries, "null") then ZNullable(base) else base;
    if z :| z in zs && Keeps(z, input) {
      var i :| 0 <= i < |zs| && zs[i] == z;
      assert Keeps(FromType(schema, NonNull(entries)[i]), input);
    }
    if i :| 0 <= i < |NonNull(entries)| && Keeps(FromType(schema, NonNull(entries)[i]), input) {
      assert zs[i] in zs;
    }
  }

  lemma {:induction false} LiteralKeeps(e: Json, v: Json)
    ensures Keeps(ZLiteral([e]), Some(v)) <==> Primitive(v) && v == e
  {
    assert v in [e] <==> v == e;
  }

  lemma {:induction false} LooseKeeps(shape: map<string, Zod>, input: Input)
    ensures Keeps(ZLoose(shape), input)
       <==> input.Some? && input.value.JObject? && forall k | k in shape :: Keeps(shape[k], At(input.value.fields, k))
  {
  }

  lemma {:induction false} FieldKeeps(z: Zod, required: bool, input: Input)
    ensures Keeps(Field(z, required), input) <==> (!required && input == None) || Keeps(z, input)
  {
  }

  /* ---------- nothing is stripped ---------- */

  predicate Loose(z: Zod) {
    match z
    case ZArray(element) => Loose(element)
    case ZUnion(options) => forall o | o in options :: Loose(o)
    case ZNullable(inner) => Loose(inner)
    case ZOptional(inner) => Loose(inner)
    case ZLoose(shape) => forall k | k in shape :: Loose(shape[k])
    case ZStrip(_) => false
    case ZDescribed(inner, _) => Loose(inner)
    case _ => true
  }

  lemma {:induction false} LooseParsesToItself(z: Zod, input: Input)
    requires Loose(z)
    ensures ZodParse(z, input) == None || ZodParse(z, input) == Some(input)
    decreases z, 1
  {
    match z
    case ZArray(element) =>
      if input.Some? && input.value.JArray? {
        forall v | v in input.value.items { LooseParsesToItself(element, Some(v)); }
        if Keeps(z, input) {
          forall i | 0 <= i < |input.value.items| ensures Output(element, input.value.items[i]) == input.value.items[i] {
            assert input.value.items[i] in input.value.items;
          }
          assert ZodParse(z, input).value.value.items == input.value.items;
        }
      }
    case ZUnion(options) => FirstParseToItself(options, input);
    case ZNullable(inner) => LooseParsesToItself(inner, input);
    case ZOptional(inner) => LooseParsesToItself(inner, input);
    case ZLoose(shape) =>
      if input.Some? && input.value.JObject? {
        forall k | k in shape { LooseParsesToItself(shape[k], At(input.value.fields, k)); }
        if Keeps(z, input) {
          forall k | k in shape && k in input.value.fields ensures Output(shape[k], input.value.fields[k]) == input.value.fields[k] {
            assert Keeps(shape[k], At(input.value.fields, k));
          }
          assert ZodParse(z, input).value.value.fields == input.value.fields;
        }
      }
    case ZDescribed(inner, _) => LooseParsesToItself(inner, input);
    case _ =>
  }

  lemma {:induction false} FirstParseToItself(options: seq<Zod>, input: Input)
    requires forall o | o in options :: Loose(o)
    ensures FirstParse(options, input) == None || FirstParse(options, input) == Some(input)
    decreases options, 0
  {
    if options != [] {
      LooseParsesToItself(options[0], input);
      FirstParseToItself(options[1..], input);
    }
  }

  lemma {:induction false} CompileIsLoose(schema: Json)
    ensures Loose(Compile(schema))
    decreases schema, 3
  {
    if schema.JObject? {
      var m := schema.fields;
      if |Variants(m)| > 0 {
        CompileAllIsLoose(Variants(m));
        UnionIsLoose(CompileAll(Variants(m)));
      } else if |EnumMembers(m)| == 0 {
        FromTypeIsLoose(schema, Keyword(m, "type"));
      }
    }
  }

  lemma {:induction false} CompileAllIsLoose(schemas: seq<Json>)
    ensures forall i | 0 <= i < |schemas| :: Loose(CompileAll(schemas)[i])
    decreases schemas, 0
  {
    forall i | 0 <= i < |schemas| ensures Loose(Compile(schemas[i])) {
      CompileIsLoose(schemas[i]);
    }
  }

  lemma {:induction false} ObjectIsLoose(schema: Json)
    requires schema.JObject?
    ensures Loose(ObjectFromSchema(schema))
    decreases schema, 1
  {
    if Keyword(schema.fields, "properties").JObject? {
      var props := schema.fields["properties"].fields;
      forall k | k in props ensures Loose(Shape(schema)[k]) {
        CompileIsLoose(props[k]);
        FieldIsLoose(Compile(props[k]), k in RequiredNames(schema.fields));
      }
    }
  }

  lemma {:induction false} FieldIsLoose(z: Zod, required: bool)
    requires Loose(z)
    ensures Loose(Field(z, required))
  {
  }

  lemma {:induction false} ListIsLoose(schema: Json, entries: seq<Json>)
    requires schema.JObject?
    ensures Loose(FromType(schema, JArray(entries)))
    decreases schema, 2, JArray(entries), 0
  {
    var zs := FromNonNull(schema, entries);
    forall i | 0 <= i < |zs| ensures Loose(zs[i]) {
      assert NonNull(entries)[i] in entries;
      FromTypeIsLoose(schema, NonNull(entries)[i]);
    }
    UnionIsLoose(zs);
    assert FromType(schema, JArray(entries)) == if HasString(entries, "null") then ZNullable(UnionOf(zs)) else UnionOf(zs);
  }

  lemma {:induction false} FromTypeIsLoose(schema: Json, ty: Json)
    requires schema.JObject?
    ensures Loose(FromType(schema, ty))
    decreases schema, 2, ty, 1
  {
    if ty.JArray? {
      ListIsLoose(schema, ty.items);
    } else if ty == JString("object") {
      ObjectIsLoose(schema);
      assert FromType(schema, ty) == ObjectFromSchema(schema);
    } else if ty == JString("array") && "items" in schema.fields {
      CompileIsLoose(schema.fields["items"]);
      assert FromType(schema, ty) == ZArray(Compile(schema.fields["items"]));
    }
  }

  lemma {:induction false} UnionIsLoose(zs: seq<Zod>)
    requires forall z | z in zs :: Loose(z)
    ensures Loose(UnionOf(zs))
  {
  }

  /** Whatever a compiled schema accepts it hands on unchanged: no key is stripped, at any depth. */
  lemma {:induction false} AcceptedValuesAreUnchanged(schema: Json, input: Input)
    requires Keeps(Compile(schema), input)
    ensures ZodParse(Compile(schema), input) == Some(input)
  {
    CompileIsLoose(schema);
    LooseParsesToItself(Compile(schema), input);
  }
}
