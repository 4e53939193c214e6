/**
 What a JSON Schema accepts: JSON Schema Validation 2020-12 section 6 and the
 applicators of section 10.3 of JSON Schema Core 2020-12, over schemas as they are
 stored, that is, as JSON.  A keyword with a malformed value constrains nothing.

 Numbers are exact.  References unfold at most fuel times; what holds for every fuel
 holds for every finite unfolding.  Keywords with no clause of their own take part as
 one fixed predicate of their values.
 */
module JsonSchema {
  import opened Common

  datatype Json = Null | Bool(b: bool) | Num(n: real) | Str(s: string) | Arr(items: seq<Json>) | Obj(m: map<string, Json>)
  type Fields = map<string, Json>

  // Matchers the schemas call out to: regular expressions, formats, references
  // that do not name a definition, the remaining keywords, and the decoding of a reference token.
  datatype Oracle = Oracle(
    pattern: (string, string) -> bool,
    format: (string, Json) -> bool,
    reference: (string, Json) -> bool,
    other: (Fields, Json) -> bool,
    token: string -> string)

  // The definitions a root schema offers to references, under each of their two spellings.
  datatype Context = Context(defs: Fields, google: Fields, oracle: Oracle)

  function Get(f: Fields, key: string): Option<Json> {
    if key in f then Some(f[key]) else None
  }

  function FieldsAt(f: Fields, key: string): Fields {
    if key in f && f[key].Obj? then f[key].m else map[]
  }

  function ItemsAt(f: Fields, key: string): seq<Json> {
    if key in f && f[key].Arr? then f[key].items else []
  }

  predicate IsSchema(j: Json) {
    j.Obj? || j.Bool?
  }

  // ----- Keywords on the value itself -----

  function StringsIn(items: seq<Json>): set<string> {
    set i | 0 <= i < |items| && items[i].Str? :: items[i].s
  }

  function TypeSet(j: Option<Json>): set<string> {
    match j
    case Some(Str(s)) => {s}
    case Some(Arr(items)) => StringsIn(items)
    case _ => {}
  }

  predicate IsInteger(x: real) {
    x == x.Floor as real
  }

  predicate HasType(t: string, v: Json) {
    match v
    case Null => t == "null"
    case Bool(_) => t == "boolean"
    case Num(n) => t == "number" || (t == "integer" && IsInteger(n))
    case Str(_) => t == "string"
    case Arr(_) => t == "array"
    case Obj(_) => t == "object"
  }

  predicate TypeOk(f: Fields, v: Json) {
    var types := TypeSet(Get(f, "type"));
    types == {} || (exists t :: t in types && HasType(t, v)) || (Get(f, "nullable") == Some(Bool(true)) && v.Null?)
  }

  predicate EnumOk(f: Fields, v: Json) {
    "enum" in f && f["enum"].Arr? ==> v in f["enum"].items
  }

  predicate ConstOk(f: Fields, v: Json) {
    "const" in f ==> v == f["const"]
  }

  const LOWER_BOUNDS: set<string> := {"minimum", "exclusiveMinimum", "minLength", "minItems", "minProperties"}
  const UPPER_BOUNDS: set<string> := {"maximum", "exclusiveMaximum", "maxLength", "maxItems", "maxProperties"}

  // What a bound measures of a value, if anything.
  function Measure(key: string, v: Json): Option<real> {
    match v
    case Num(n) => if key in {"minimum", "exclusiveMinimum", "maximum", "exclusiveMaximum"} then Some(n) else None
    case Str(s) => if key in {"minLength", "maxLength"} then Some(|s| as real) else None
    case Arr(items) => if key in {"minItems", "maxItems"} then Some(|items| as real) else None
    case Obj(m) => if key in {"minProperties", "maxProperties"} then Some(|m| as real) else None
    case _ => None
  }

  predicate WithinBound(key: string, limit: real, x: real) {
    if key == "exclusiveMinimum" then x > limit
    else if key == "exclusiveMaximum" then x < limit
    else if key in LOWER_BOUNDS then x >= limit
    else x <= limit
  }

  predicate BoundOk(f: Fields, key: string, v: Json) {
    key in f && f[key].Num? && Measure(key, v).Some? ==> WithinBound(key, f[key].n, Measure(key, v).value)
  }

  predicate BoundsOk(f: Fields, v: Json) {
    forall key :: key in LOWER_BOUNDS + UPPER_BOUNDS ==> BoundOk(f, key, v)
  }

  predicate IsMultiple(x: real, d: real) {
    d != 0.0 && IsInteger(x / d)
  }

  predicate MultipleOk(f: Fields, v: Json) {
    "multipleOf" in f && f["multipleOf"].Num? && v.Num? ==> IsMultiple(v.n, f["multipleOf"].n)
  }

  predicate PatternOk(o: Oracle, f: Fields, v: Json) {
    "pattern" in f && f["pattern"].Str? && v.Str? ==> o.pattern(f["pattern"].s, v.s)
  }

  predicate FormatOk(o: Oracle, f: Fields, v: Json) {
    "format" in f && f["format"].Str? && (v.Str? || v.Num?) ==> o.format(f["format"].s, v)
  }

  predicate RequiredOk(f: Fields, v: Json) {
    v.Obj? ==> forall k :: k in StringsIn(ItemsAt(f, "required")) ==> k in v.m
  }

  const ANNOTATIONS: set<string> :=
    {"title", "description", "default", "examples", "$comment", "deprecated", "readOnly", "writeOnly"}

  // Keywords with a clause of their own, and those that only hold definitions or name the dialect.
  const STRUCTURED: set<string> := LOWER_BOUNDS + UPPER_BOUNDS +
    {"type", "nullable", "enum", "const", "multipleOf", "pattern", "format", "required", "properties", "patternProperties",
     "additionalProperties", "items", "prefixItems", "not", "anyOf", "oneOf", "allOf", "if", "then", "else", "dependentSchemas",
     "$ref", "ref", "$defs", "defs", "$schema"}

  function Rest(f: Fields): Fields {
    f - STRUCTURED - ANNOTATIONS
  }

  // The remaining keywords, where there are any.
  predicate OtherOk(o: Oracle, rest: Fields, v: Json) {
    rest != map[] ==> o.other(rest, v)
  }

  predicate LocalOk(o: Oracle, f: Fields, v: Json) {
    && TypeOk(f, v) && EnumOk(f, v) && ConstOk(f, v) && BoundsOk(f, v) && MultipleOk(f, v)
    && PatternOk(o, f, v) && FormatOk(o, f, v) && RequiredOk(f, v) && OtherOk(o, Rest(f), v)
  }

  // ----- Applicators -----

  // A reference to a direct child of the root's definitions, and the child's token.
  function DefinitionToken(prefix: string, reference: string): Option<string> {
    if |reference| > |prefix| && reference[..|prefix|] == prefix && '/' !in reference[|prefix|..] then Some(reference[|prefix|..])
    else None
  }

  const DEFS_PREFIX := "#/$defs/"
  const GOOGLE_PREFIX := "#/defs/"

  // A reference reaches the definitions under its own spelling only.
  function DefsAt(c: Context, prefix: string): Fields {
    if prefix == DEFS_PREFIX then c.defs else c.google
  }

  predicate MatchesPattern(o: Oracle, f: Fields, k: string) {
    exists p :: p in FieldsAt(f, "patternProperties") && o.pattern(p, k)
  }

  // A member that neither properties nor patternProperties takes care of.
  predicate IsAdditional(o: Oracle, f: Fields, k: string) {
    k !in FieldsAt(f, "properties") && !MatchesPattern(o, f, k)
  }

  predicate Accepts(fuel: nat, c: Context, s: Json, v: Json)
    decreases fuel, s, 2
  {
    match s
    case Bool(b) => b
    case Obj(f) => LocalOk(c.oracle, f, v) && MembersOk(fuel, c, s, v) && ElementsOk(fuel, c, s, v) && LogicOk(fuel, c, s, v) && RefsOk(fuel, c, s, v)
    case _ => true
  }

  predicate MembersOk(fuel: nat, c: Context, s: Json, v: Json)
    requires s.Obj?
    decreases fuel, s, 1
  {
    v.Obj? ==>
      && (forall k :: k in FieldsAt(s.m, "properties") && k in v.m ==> Accepts(fuel, c, FieldsAt(s.m, "properties")[k], v.m[k]))
      && (forall p, k :: p in FieldsAt(s.m, "patternProperties") && k in v.m && c.oracle.pattern(p, k) ==>
            Accepts(fuel, c, FieldsAt(s.m, "patternProperties")[p], v.m[k]))
      && ("additionalProperties" in s.m ==>
            forall k :: k in v.m && IsAdditional(c.oracle, s.m, k) ==> Accepts(fuel, c, s.m["additionalProperties"], v.m[k]))
      && (forall k :: k in FieldsAt(s.m, "dependentSchemas") && k in v.m ==> Accepts(fuel, c, FieldsAt(s.m, "dependentSchemas")[k], v))
  }

  predicate ElementsOk(fuel: nat, c: Context, s: Json, v: Json)
    requires s.Obj?
    decreases fuel, s, 1
  {
    v.Arr? ==>
      var prefix := ItemsAt(s.m, "prefixItems");
      && (forall i :: 0 <= i < |prefix| && i < |v.items| ==> Accepts(fuel, c, prefix[i], v.items[i]))
      && ("items" in s.m ==> forall i :: |prefix| <= i < |v.items| ==> Accepts(fuel, c, s.m["items"], v.items[i]))
  }

  predicate LogicOk(fuel: nat, c: Context, s: Json, v: Json)
    requires s.Obj?
    decreases fuel, s, 1
  {
    && ("not" in s.m ==> !Accepts(fuel, c, s.m["not"], v))
    && ("anyOf" in s.m && s.m["anyOf"].Arr? ==> exists i :: 0 <= i < |s.m["anyOf"].items| && Accepts(fuel, c, s.m["anyOf"].items[i], v))
    && ("allOf" in s.m && s.m["allOf"].Arr? ==> forall i :: 0 <= i < |s.m["allOf"].items| ==> Accepts(fuel, c, s.m["allOf"].items[i], v))
    && ("oneOf" in s.m && s.m["oneOf"].Arr? ==>
          exists i :: 0 <= i < |s.m["oneOf"].items| && Accepts(fuel, c, s.m["oneOf"].items[i], v)
            && forall j :: 0 <= j < |s.m["oneOf"].items| && Accepts(fuel, c, s.m["oneOf"].items[j], v) ==> j == i)
    && ("if" in s.m ==>
          if Accepts(fuel, c, s.m["if"], v) then ("then" in s.m ==> Accepts(fuel, c, s.m["then"], v))
          else ("else" in s.m ==> Accepts(fuel, c, s.m["else"], v)))
  }

  predicate RefsOk(fuel: nat, c: Context, s: Json, v: Json)
    requires s.Obj?
    decreases fuel, s, 1
  {
    && ("$ref" in s.m && s.m["$ref"].Str? ==> ReferenceOk(fuel, c, DEFS_PREFIX, s.m["$ref"], v))
    && ("ref" in s.m && s.m["ref"].Str? ==> ReferenceOk(fuel, c, GOOGLE_PREFIX, s.m["ref"], v))
  }

  predicate ReferenceOk(fuel: nat, c: Context, prefix: string, reference: Json, v: Json)
    requires reference.Str?
    decreases fuel, reference, 2
  {
    var token := DefinitionToken(prefix, reference.s);
    if token.Some? then
      var defs := DefsAt(c, prefix);
      fuel > 0 && c.oracle.token(token.value) in defs && Accepts(fuel - 1, c, defs[c.oracle.token(token.value)], v)
    else c.oracle.reference(reference.s, v)
  }

  // ----- A whole schema -----

  function DefsOf(root: Json, key: string): Fields {
    if root.Obj? then FieldsAt(root.m, key) else map[]
  }

  function ContextOf(root: Json, o: Oracle): Context {
    Context(DefsOf(root, "$defs"), DefsOf(root, "defs"), o)
  }

  // A value is accepted by a root schema when its references are unfolded fuel times.
  predicate Valid(fuel: nat, o: Oracle, root: Json, v: Json) {
    Accepts(fuel, ContextOf(root, o), root, v)
  }

  // Every call that satisfied the old schema satisfies the new one.
  ghost predicate Widens(o: Oracle, old_: Json, new_: Json) {
    forall fuel: nat, v :: Valid(fuel, o, old_, v) ==> Valid(fuel, o, new_, v)
  }
}
