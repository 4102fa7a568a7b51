/** Validity of a JSON value against a JSON Schema. */
module JsonSchemaValidity {
  import opened JsonValues

  /** Does v have the named type? With `wide` set, "integer" is read as "number". */
  predicate HasType(name: string, v: Json, wide: bool) {
    match name
    case "object" => v.JObject?
    case "array" => v.JArray?
    case "string" => v.JString?
    case "number" => v.JNumber?
    case "integer" => v.JNumber? && (wide || v.n.Floor as real == v.n)
    case "boolean" => v.JBool?
    case "null" => v == JNull
    case _ => false
  }

  predicate TypeName(ty: Json) {
    ty.JString? && ty.s in {"object", "array", "string", "number", "integer", "boolean", "null"}
  }

  predicate TypeHolds(ty: Json, v: Json, wide: bool) {
    match ty
    case JArray(entries) =>
      (entries != [] && forall e | e in entries :: TypeName(e)) ==> exists e | e in entries :: HasType(e.s, v, wide)
    case _ => TypeName(ty) ==> HasType(ty.s, v, wide)
  }

  /** The list under a keyword; none when there is no list. */
  function Subschemas(m: map<string, Json>, key: string): seq<Json> {
    if key in m && m[key].JArray? then m[key].items else []
  }

  predicate EnumHolds(m: map<string, Json>, v: Json) {
    Subschemas(m, "enum") != [] ==> v in Subschemas(m, "enum")
  }

  predicate RequiredHolds(m: map<string, Json>, v: Json) {
    v.JObject? ==> forall e | e in Subschemas(m, "required") && e.JString? :: e.s in v.fields
  }

  type Reading = (map<string, Json>, Json) -> bool

  /** v is valid against the schema; `rest` is any reading of the keywords not listed here. */
  predicate Valid(schema: Json, v: Json, wide: bool, rest: Reading)
    decreases schema, 1
  {
    match schema
    case JBool(b) => b
    case JObject(m) =>
      rest(m, v)
      && ("type" in m ==> TypeHolds(m["type"], v, wide))
      && EnumHolds(m, v) && RequiredHolds(m, v)
      && AnyOfHolds(schema, v, wide, rest) && OneOfHolds(schema, v, wide, rest)
      && PropertiesHold(schema, v, wide, rest)
      && PrefixItemsHold(schema, v, wide, rest) && ItemsHold(schema, v, wide, rest)
    case _ => true
  }

  predicate AnyOfHolds(schema: Json, v: Json, wide: bool, rest: Reading)
    requires schema.JObject?
    decreases schema, 0
  {
    var ss := Subschemas(schema.fields, "anyOf");
    ss == [] || exists i | 0 <= i < |ss| :: Valid(ss[i], v, wide, rest)
  }

  predicate OneOfHolds(schema: Json, v: Json, wide: bool, rest: Reading)
    requires schema.JObject?
    decreases schema, 0
  {
    var ss := Subschemas(schema.fields, "oneOf");
    ss == [] || exists i | 0 <= i < |ss| ::
      Valid(ss[i], v, wide, rest) && forall j | 0 <= j < |ss| && j != i :: !Valid(ss[j], v, wide, rest)
  }

  predicate PropertiesHold(schema: Json, v: Json, wide: bool, rest: Reading)
    requires schema.JObject?
    decreases schema, 0
  {
    var m := schema.fields;
    "properties" in m && m["properties"].JObject? && v.JObject? ==>
      forall k | k in m["properties"].fields && k in v.fields :: Valid(m["properties"].fields[k], v.fields[k], wide, rest)
  }

  predicate PrefixItemsHold(schema: Json, v: Json, wide: bool, rest: Reading)
    requires schema.JObject?
    decreases schema, 0
  {
    var ss := Subschemas(schema.fields, "prefixItems");
    v.JArray? ==> forall i | 0 <= i < |ss| && i < |v.items| :: Valid(ss[i], v.items[i], wide, rest)
  }

  predicate ItemsHold(schema: Json, v: Json, wide: bool, rest: Reading)
    requires schema.JObject?
    decreases schema, 0
  {
    "items" in schema.fields && v.JArray? ==>
      forall i | |Subschemas(schema.fields, "prefixItems")| <= i < |v.items| ::
        Valid(schema.fields["items"], v.items[i], wide, rest)
  }

  lemma {:induction false} KeywordsAbsent(schema: Json, v: Json, wide: bool, rest: Reading)
    requires schema.JObject?
    ensures "anyOf" !in schema.fields ==> AnyOfHolds(schema, v, wide, rest)
    ensures "oneOf" !in schema.fields ==> OneOfHolds(schema, v, wide, rest)
    ensures "properties" !in schema.fields || !v.JObject? ==> PropertiesHold(schema, v, wide, rest)
    ensures "prefixItems" !in schema.fields || !v.JArray? ==> PrefixItemsHold(schema, v, wide, rest)
    ensures "items" !in schema.fields || !v.JArray? ==> ItemsHold(schema, v, wide, rest)
  {
  }

  lemma {:induction false} ValidFromParts(schema: Json, v: Json, wide: bool, rest: Reading)
    requires schema.JObject? && rest(schema.fields, v)
    requires "type" in schema.fields ==> TypeHolds(schema.fields["type"], v, wide)
    requires EnumHolds(schema.fields, v) && RequiredHolds(schema.fields, v)
    requires AnyOfHolds(schema, v, wide, rest) && OneOfHolds(schema, v, wide, rest)
    requires PropertiesHold(schema, v, wide, rest)
    requires PrefixItemsHold(schema, v, wide, rest) && ItemsHold(schema, v, wide, rest)
    ensures Valid(schema, v, wide, rest)
  {
  }

  function NoOther(): Reading { (m, v) => true }
}
