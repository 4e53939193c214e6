/**
 The rewrites of the contract compiler that are labelled lossless: a constant becomes a
 singleton enumeration, the dialect annotation goes, and for Google nullable types and
 references change their spelling.  Every schema position is rewritten; what a schema
 accepts stays the same, at every depth and under every combinator.
 */
module SchemaRewrites {
  import opened Common
  import opened JsonSchema

  datatype Pass = ConstPass | DropPass | GooglePass

  // ----- Schema positions -----

  predicate IsSingle(key: string) {
    key in {"items", "not", "if", "then", "else"}
  }

  predicate IsList(key: string) {
    key in {"anyOf", "oneOf", "allOf", "prefixItems"}
  }

  predicate IsMap(key: string) {
    key in {"$defs", "defs", "properties", "patternProperties", "dependentSchemas"}
  }

  // Every position holds a schema, and none uses a keyword that only the Google dialect knows.
  predicate Strict(s: Json)
    decreases s, 1
  {
    s.Bool? || (s.Obj? && "ref" !in s.m && "defs" !in s.m && forall key :: key in s.m ==> StrictAt(s, key))
  }

  predicate StrictAt(s: Json, key: string)
    requires s.Obj? && key in s.m
    decreases s, 0
  {
    && (IsSingle(key) ==> Strict(s.m[key]))
    && (IsList(key) ==> s.m[key].Arr? && forall i :: 0 <= i < |s.m[key].items| ==> Strict(s.m[key].items[i]))
    && (IsMap(key) ==> s.m[key].Obj? && forall k :: k in s.m[key].m ==> Strict(s.m[key].m[k]))
  }

  // ----- References where the pass does not look -----

  predicate RefersTo(f: Fields, key: string, prefix: string) {
    key in f && f[key].Str? && DefinitionToken(prefix, f[key].s).Some?
  }

  predicate RefersLocally(f: Fields) {
    RefersTo(f, "$ref", DEFS_PREFIX) || RefersTo(f, "ref", GOOGLE_PREFIX)
  }

  // No reference to a definition, at any depth.
  predicate Unreferring(s: Json)
    decreases s
  {
    match s
    case Obj(f) => !RefersLocally(f) && forall key :: key in f ==> Unreferring(f[key])
    case Arr(items) => forall i :: 0 <= i < |items| ==> Unreferring(items[i])
    case _ => true
  }

  // Keywords that hold schemas but are no positions.
  const UNVISITED: set<string> :=
    {"additionalProperties", "contains", "propertyNames", "unevaluatedItems", "unevaluatedProperties", "contentSchema", "dependencies"}

  // Every reference to a definition is in a position.
  predicate Reached(s: Json)
    decreases s, 1
  {
    s.Obj? ==>
      (forall key :: key in s.m && key in UNVISITED ==> Unreferring(s.m[key])) && forall key :: key in s.m ==> ReachedAt(s, key)
  }

  predicate ReachedAt(s: Json, key: string)
    requires s.Obj? && key in s.m
    decreases s, 0
  {
    && (IsSingle(key) ==> Reached(s.m[key]))
    && (IsList(key) && s.m[key].Arr? ==> forall i :: 0 <= i < |s.m[key].items| ==> Reached(s.m[key].items[i]))
    && (IsMap(key) && s.m[key].Obj? ==> forall k :: k in s.m[key].m ==> Reached(s.m[key].m[k]))
  }

  // ----- The rewrites of one schema object -----

  function ConstToEnum(f: Fields): Fields {
    if "const" in f && "enum" !in f then (f - {"const"})["enum" := Arr([f["const"]])] else f
  }

  function RenameDefinitions(f: Fields): Fields {
    if "$defs" in f then (f - {"$defs"})["defs" := f["$defs"]] else f
  }

  function RenameReference(f: Fields): Fields {
    if "$ref" in f && f["$ref"].Str? && DefinitionToken(DEFS_PREFIX, f["$ref"].s).Some? then
      (f - {"$ref"})["ref" := Str(GOOGLE_PREFIX + DefinitionToken(DEFS_PREFIX, f["$ref"].s).value)]
    else f
  }

  // Of a two-element type with "null", the other element.
  function NullableType(f: Fields): Option<string> {
    var types := ItemsAt(f, "type");
    if |types| == 2 && Str("null") in types then
      var other := if types[0] == Str("null") then types[1] else types[0];
      if other.Str? && other.s != "null" then Some(other.s) else None
    else None
  }

  function SpellNullable(f: Fields): Fields {
    if NullableType(f).Some? then f["type" := Str(NullableType(f).value)]["nullable" := Bool(true)] else f
  }

  function Local(pass: Pass, f: Fields): Fields {
    match pass
    case ConstPass => ConstToEnum(f)
    case DropPass => f - {"$schema"}
    case GooglePass => SpellNullable(RenameReference(RenameDefinitions(f - {"$schema"})))
  }

  function Rewritten(pass: Pass, s: Json): Json
    decreases s, 2
  {
    if s.Obj? then Obj(Local(pass, Below(pass, s))) else s
  }

  // The fields with every schema below them rewritten.
  function Below(pass: Pass, s: Json): Fields
    requires s.Obj?
    decreases s, 1
  {
    map key | key in s.m :: RewrittenAt(pass, s, key)
  }

  function RewrittenAt(pass: Pass, s: Json, key: string): Json
    requires s.Obj? && key in s.m
    decreases s, 0
  {
    var value := s.m[key];
    if IsSingle(key) then Rewritten(pass, value)
    else if IsList(key) && value.Arr? then Arr(seq(|value.items|, i requires 0 <= i < |value.items| => Rewritten(pass, value.items[i])))
    else if IsMap(key) && value.Obj? then Obj(map k | k in value.m :: Rewritten(pass, value.m[k]))
    else value
  }

  // ----- Schemas alike -----

  ghost predicate Alike(fuel: nat, c: Context, d: Context, s: Json, t: Json) {
    forall v :: Accepts(fuel, c, s, v) <==> Accepts(fuel, d, t, v)
  }

  ghost predicate AlikeAt(fuel: nat, c: Context, d: Context, f: Fields, g: Fields, key: string) {
    (key in f <==> key in g) && (key in f ==> Alike(fuel, c, d, f[key], g[key]))
  }

  ghost predicate AlikeList(fuel: nat, c: Context, d: Context, f: Fields, g: Fields, key: string) {
    && (key in f && f[key].Arr? <==> key in g && g[key].Arr?) && |ItemsAt(f, key)| == |ItemsAt(g, key)|
    && forall i :: 0 <= i < |ItemsAt(f, key)| ==> Alike(fuel, c, d, ItemsAt(f, key)[i], ItemsAt(g, key)[i])
  }

  ghost predicate AlikeMap(fuel: nat, c: Context, d: Context, f: Fields, g: Fields, key: string) {
    && FieldsAt(f, key).Keys == FieldsAt(g, key).Keys
    && forall k :: k in FieldsAt(f, key) ==> Alike(fuel, c, d, FieldsAt(f, key)[k], FieldsAt(g, key)[k])
  }

  lemma SameAdditional(o: Oracle, f: Fields, g: Fields, k: string)
    requires FieldsAt(f, "properties").Keys == FieldsAt(g, "properties").Keys
    requires FieldsAt(f, "patternProperties").Keys == FieldsAt(g, "patternProperties").Keys
    ensures IsAdditional(o, f, k) <==> IsAdditional(o, g, k)
  {
    assert forall p :: p in FieldsAt(f, "patternProperties") <==> p in FieldsAt(g, "patternProperties");
  }

  lemma MembersAlike(fuel: nat, c: Context, d: Context, s: Json, t: Json, v: Json)
    requires s.Obj? && t.Obj? && c.oracle == d.oracle
    requires AlikeMap(fuel, c, d, s.m, t.m, "properties") && AlikeMap(fuel, c, d, s.m, t.m, "patternProperties")
    requires AlikeMap(fuel, c, d, s.m, t.m, "dependentSchemas") && AlikeAt(fuel, c, d, s.m, t.m, "additionalProperties")
    ensures MembersOk(fuel, c, s, v) <==> MembersOk(fuel, d, t, v)
  {
    hide Accepts, IsAdditional, FieldsAt;
    forall k ensures IsAdditional(c.oracle, s.m, k) <==> IsAdditional(c.oracle, t.m, k) { SameAdditional(c.oracle, s.m, t.m, k); }
    assert forall k :: k in FieldsAt(s.m, "properties") <==> k in FieldsAt(t.m, "properties");
    assert forall k :: k in FieldsAt(s.m, "patternProperties") <==> k in FieldsAt(t.m, "patternProperties");
    assert forall k :: k in FieldsAt(s.m, "dependentSchemas") <==> k in FieldsAt(t.m, "dependentSchemas");
  }

  lemma ElementsAlike(fuel: nat, c: Context, d: Context, s: Json, t: Json, v: Json)
    requires s.Obj? && t.Obj?
    requires AlikeList(fuel, c, d, s.m, t.m, "prefixItems") && AlikeAt(fuel, c, d, s.m, t.m, "items")
    ensures ElementsOk(fuel, c, s, v) <==> ElementsOk(fuel, d, t, v)
  {
    hide Accepts;
  }

  lemma AllAlike(fuel: nat, c: Context, d: Context, f: Fields, g: Fields, key: string, v: Json)
    requires AlikeList(fuel, c, d, f, g, key)
    ensures (forall i :: 0 <= i < |ItemsAt(f, key)| ==> Accepts(fuel, c, ItemsAt(f, key)[i], v)) <==>
      forall i :: 0 <= i < |ItemsAt(g, key)| ==> Accepts(fuel, d, ItemsAt(g, key)[i], v)
    ensures (exists i :: 0 <= i < |ItemsAt(f, key)| && Accepts(fuel, c, ItemsAt(f, key)[i], v)) <==>
      exists i :: 0 <= i < |ItemsAt(g, key)| && Accepts(fuel, d, ItemsAt(g, key)[i], v)
  {
    hide Accepts, ItemsAt;
    forall i | 0 <= i < |ItemsAt(f, key)| ensures Accepts(fuel, c, ItemsAt(f, key)[i], v) <==> Accepts(fuel, d, ItemsAt(g, key)[i], v) {
    }
  }

  predicate OneOf(fuel: nat, c: Context, items: seq<Json>, v: Json) {
    exists i :: 0 <= i < |items| && Accepts(fuel, c, items[i], v) && forall j :: 0 <= j < |items| && Accepts(fuel, c, items[j], v) ==> j == i
  }

  lemma OneAlike(fuel: nat, c: Context, d: Context, f: Fields, g: Fields, key: string, v: Json)
    requires AlikeList(fuel, c, d, f, g, key)
    ensures OneOf(fuel, c, ItemsAt(f, key), v) <==> OneOf(fuel, d, ItemsAt(g, key), v)
  {
    hide Accepts, ItemsAt;
    var left, right := ItemsAt(f, key), ItemsAt(g, key);
    assert forall i :: 0 <= i < |left| ==> (Accepts(fuel, c, left[i], v) <==> Accepts(fuel, d, right[i], v));
    assert forall i :: 0 <= i < |left| && Accepts(fuel, c, left[i], v) ==> Accepts(fuel, d, right[i], v);
    assert forall i :: 0 <= i < |right| && Accepts(fuel, d, right[i], v) ==> Accepts(fuel, c, left[i], v);
  }

  ghost predicate AlikeLogic(fuel: nat, c: Context, d: Context, f: Fields, g: Fields) {
    && AlikeAt(fuel, c, d, f, g, "not") && AlikeAt(fuel, c, d, f, g, "if") && AlikeAt(fuel, c, d, f, g, "then") && AlikeAt(fuel, c, d, f, g, "else")
    && AlikeList(fuel, c, d, f, g, "anyOf") && AlikeList(fuel, c, d, f, g, "allOf") && AlikeList(fuel, c, d, f, g, "oneOf")
  }

  lemma LogicParts(fuel: nat, c: Context, s: Json, v: Json)
    requires s.Obj?
    ensures LogicOk(fuel, c, s, v) <==>
      && ("not" in s.m ==> !Accepts(fuel, c, s.m["not"], v))
      && ("anyOf" in s.m && s.m["anyOf"].Arr? ==> exists i :: 0 <= i < |ItemsAt(s.m, "anyOf")| && Accepts(fuel, c, ItemsAt(s.m, "anyOf")[i], v))
      && ("allOf" in s.m && s.m["allOf"].Arr? ==> forall i :: 0 <= i < |ItemsAt(s.m, "allOf")| ==> Accepts(fuel, c, ItemsAt(s.m, "allOf")[i], v))
      && ("oneOf" in s.m && s.m["oneOf"].Arr? ==> OneOf(fuel, c, ItemsAt(s.m, "oneOf"), v))
      && ("if" in s.m ==>
            if Accepts(fuel, c, s.m["if"], v) then ("then" in s.m ==> Accepts(fuel, c, s.m["then"], v))
            else ("else" in s.m ==> Accepts(fuel, c, s.m["else"], v)))
  {
    hide Accepts;
    if "oneOf" in s.m && s.m["oneOf"].Arr? { assert ItemsAt(s.m, "oneOf") == s.m["oneOf"].items; }
    if "anyOf" in s.m && s.m["anyOf"].Arr? { assert ItemsAt(s.m, "anyOf") == s.m["anyOf"].items; }
    if "allOf" in s.m && s.m["allOf"].Arr? { assert ItemsAt(s.m, "allOf") == s.m["allOf"].items; }
  }

  lemma LogicAlike(fuel: nat, c: Context, d: Context, s: Json, t: Json, v: Json)
    requires s.Obj? && t.Obj? && AlikeLogic(fuel, c, d, s.m, t.m)
    ensures LogicOk(fuel, c, s, v) <==> LogicOk(fuel, d, t, v)
  {
    hide Accepts, LogicOk, ItemsAt, OneOf;
    LogicParts(fuel, c, s, v);
    LogicParts(fuel, d, t, v);
    AllAlike(fuel, c, d, s.m, t.m, "anyOf", v);
    AllAlike(fuel, c, d, s.m, t.m, "allOf", v);
    OneAlike(fuel, c, d, s.m, t.m, "oneOf", v);
  }

  // ----- Keywords on the value itself -----

  // Keywords that say nothing about the value by themselves.
  predicate IsStructural(key: string) {
    IsSingle(key) || IsList(key) || IsMap(key) || key == "$schema" || key == "$ref" || key == "ref"
  }

  lemma StructuralListed(key: string)
    requires IsStructural(key)
    ensures key in STRUCTURED && key !in LOWER_BOUNDS + UPPER_BOUNDS
    ensures key !in {"type", "nullable", "enum", "const", "multipleOf", "pattern", "format", "required"}
  {
  }

  ghost predicate SameOutside(f: Fields, g: Fields) {
    forall key :: !IsStructural(key) ==> Get(f, key) == Get(g, key)
  }

  lemma SameFields(f: Fields, g: Fields)
    requires forall key :: Get(f, key) == Get(g, key)
    ensures f == g
  {
    forall key ensures key in f <==> key in g { assert Get(f, key) == Get(g, key); }
    forall key | key in f ensures f[key] == g[key] { assert Get(f, key) == Get(g, key); }
  }

  lemma RestAt(f: Fields, key: string)
    ensures Get(Rest(f), key) == if key in STRUCTURED || key in ANNOTATIONS then None else Get(f, key)
  {
  }

  lemma SameRest(f: Fields, g: Fields)
    requires forall key :: key !in STRUCTURED ==> Get(f, key) == Get(g, key)
    ensures Rest(f) == Rest(g)
  {
    hide Rest;
    forall key ensures Get(Rest(f), key) == Get(Rest(g), key) {
      RestAt(f, key);
      RestAt(g, key);
    }
    SameFields(Rest(f), Rest(g));
  }

  lemma SameBounds(f: Fields, g: Fields, v: Json)
    requires forall key :: key in LOWER_BOUNDS + UPPER_BOUNDS ==> Get(f, key) == Get(g, key)
    ensures BoundsOk(f, v) <==> BoundsOk(g, v)
  {
    hide Measure, WithinBound;
    forall key | key in LOWER_BOUNDS + UPPER_BOUNDS ensures BoundOk(f, key, v) <==> BoundOk(g, key, v) {
      assert Get(f, key) == Get(g, key);
    }
  }

  lemma PlainKeywords()
    ensures !IsStructural("type") && !IsStructural("nullable") && !IsStructural("enum") && !IsStructural("const")
    ensures !IsStructural("multipleOf") && !IsStructural("pattern") && !IsStructural("format") && !IsStructural("required")
    ensures !IsStructural("additionalProperties")
  {
  }

  lemma SameLocal(o: Oracle, f: Fields, g: Fields, v: Json)
    requires SameOutside(f, g)
    ensures LocalOk(o, f, v) <==> LocalOk(o, g, v)
  {
    hide IsStructural, Rest, BoundsOk, HasType;
    PlainKeywords();
    forall key | key !in STRUCTURED ensures Get(f, key) == Get(g, key) {
      if IsStructural(key) { StructuralListed(key); }
    }
    SameRest(f, g);
    forall key | key in LOWER_BOUNDS + UPPER_BOUNDS ensures Get(f, key) == Get(g, key) {
      if IsStructural(key) { StructuralListed(key); }
    }
    SameBounds(f, g, v);
    assert Get(f, "type") == Get(g, "type") && Get(f, "nullable") == Get(g, "nullable") && Get(f, "enum") == Get(g, "enum");
    assert Get(f, "const") == Get(g, "const") && Get(f, "multipleOf") == Get(g, "multipleOf") && Get(f, "pattern") == Get(g, "pattern");
    assert Get(f, "format") == Get(g, "format") && Get(f, "required") == Get(g, "required");
  }

  // A constant is an enumeration of one value.
  lemma ConstSame(o: Oracle, f: Fields, v: Json)
    ensures LocalOk(o, ConstToEnum(f), v) <==> LocalOk(o, f, v)
  {
    hide Rest, BoundsOk, TypeOk, MultipleOk, PatternOk, FormatOk, RequiredOk, ConstToEnum, EnumOk, ConstOk;
    var g := ConstToEnum(f);
    ConstKeeps(f);
    SameRest(f, g);
    SameBounds(f, g, v);
    ConstIsEnum(f, v);
    assert Get(f, "type") == Get(g, "type") && Get(f, "nullable") == Get(g, "nullable") && Get(f, "multipleOf") == Get(g, "multipleOf");
    assert Get(f, "pattern") == Get(g, "pattern") && Get(f, "format") == Get(g, "format") && Get(f, "required") == Get(g, "required");
    SameScalars(o, f, g, v);
  }

  lemma ConstIsEnum(f: Fields, v: Json)
    ensures EnumOk(ConstToEnum(f), v) && ConstOk(ConstToEnum(f), v) <==> EnumOk(f, v) && ConstOk(f, v)
  {
    assert "const" in f && "enum" !in f ==> ConstToEnum(f)["enum"].items == [f["const"]];
  }

  lemma SameScalars(o: Oracle, f: Fields, g: Fields, v: Json)
    requires Get(f, "type") == Get(g, "type") && Get(f, "nullable") == Get(g, "nullable") && Get(f, "multipleOf") == Get(g, "multipleOf")
    requires Get(f, "pattern") == Get(g, "pattern") && Get(f, "format") == Get(g, "format") && Get(f, "required") == Get(g, "required")
    ensures (TypeOk(f, v) <==> TypeOk(g, v)) && (MultipleOk(f, v) <==> MultipleOk(g, v)) && (PatternOk(o, f, v) <==> PatternOk(o, g, v))
    ensures (FormatOk(o, f, v) <==> FormatOk(o, g, v)) && (RequiredOk(f, v) <==> RequiredOk(g, v))
  {
    hide HasType, TypeSet;
  }

  lemma ConstKeeps(f: Fields)
    ensures forall key :: key != "const" && key != "enum" ==> Get(f, key) == Get(ConstToEnum(f), key)
    ensures forall key :: key !in STRUCTURED ==> Get(f, key) == Get(ConstToEnum(f), key)
    ensures forall key :: key in LOWER_BOUNDS + UPPER_BOUNDS ==> Get(f, key) == Get(ConstToEnum(f), key)
  {
  }

  lemma NullableKeeps(f: Fields)
    ensures forall key :: key != "type" && key != "nullable" ==> Get(f, key) == Get(SpellNullable(f), key)
    ensures forall key :: key !in STRUCTURED ==> Get(f, key) == Get(SpellNullable(f), key)
    ensures forall key :: key in LOWER_BOUNDS + UPPER_BOUNDS ==> Get(f, key) == Get(SpellNullable(f), key)
  {
    hide NullableType;
  }

  lemma NullableTypeSame(f: Fields, v: Json)
    ensures TypeOk(SpellNullable(f), v) <==> TypeOk(f, v)
  {
    if NullableType(f).Some? {
      var t := NullableType(f).value;
      var types := ItemsAt(f, "type");
      NullableTypes(types, t);
      assert TypeSet(Get(f, "type")) == {t, "null"};
      var g := SpellNullable(f);
      assert TypeSet(Get(g, "type")) == {t};
      assert HasType("null", v) <==> v.Null?;
    }
  }

  lemma NullableTypes(types: seq<Json>, t: string)
    requires |types| == 2 && (types == [Str("null"), Str(t)] || types == [Str(t), Str("null")])
    ensures StringsIn(types) == {t, "null"}
  {
    assert types[0].s in StringsIn(types) && types[1].s in StringsIn(types);
  }

  // A type with "null" is the other type, made nullable.
  lemma NullableSame(o: Oracle, f: Fields, v: Json)
    ensures LocalOk(o, SpellNullable(f), v) <==> LocalOk(o, f, v)
  {
    hide Rest, BoundsOk, TypeOk, SpellNullable, EnumOk, ConstOk, MultipleOk, PatternOk, FormatOk, RequiredOk;
    var g := SpellNullable(f);
    NullableKeeps(f);
    NullableTypeSame(f, v);
    SameRest(f, g);
    SameBounds(f, g, v);
    assert Get(f, "const") == Get(g, "const") && Get(f, "enum") == Get(g, "enum") && Get(f, "multipleOf") == Get(g, "multipleOf");
    assert Get(f, "pattern") == Get(g, "pattern") && Get(f, "format") == Get(g, "format") && Get(f, "required") == Get(g, "required");
    SameButType(o, f, g, v);
  }

  lemma SameButType(o: Oracle, f: Fields, g: Fields, v: Json)
    requires Get(f, "const") == Get(g, "const") && Get(f, "enum") == Get(g, "enum") && Get(f, "multipleOf") == Get(g, "multipleOf")
    requires Get(f, "pattern") == Get(g, "pattern") && Get(f, "format") == Get(g, "format") && Get(f, "required") == Get(g, "required")
    ensures (EnumOk(f, v) <==> EnumOk(g, v)) && (ConstOk(f, v) <==> ConstOk(g, v)) && (MultipleOk(f, v) <==> MultipleOk(g, v))
    ensures (PatternOk(o, f, v) <==> PatternOk(o, g, v)) && (FormatOk(o, f, v) <==> FormatOk(o, g, v)) && (RequiredOk(f, v) <==> RequiredOk(g, v))
  {
  }

  lemma RenamesOutside(f: Fields)
    ensures SameOutside(f, RenameReference(RenameDefinitions(f - {"$schema"})))
  {
  }

  lemma DropOutside(f: Fields)
    ensures SameOutside(f, f - {"$schema"})
  {
  }

  lemma LocalSame(pass: Pass, o: Oracle, f: Fields, v: Json)
    ensures LocalOk(o, Local(pass, f), v) <==> LocalOk(o, f, v)
  {
    hide LocalOk, RenameReference, RenameDefinitions, ConstToEnum, SpellNullable, SameOutside;
    match pass
    case ConstPass => ConstSame(o, f, v);
    case DropPass =>
      DropOutside(f);
      SameLocal(o, f, f - {"$schema"}, v);
    case GooglePass =>
      var g := RenameReference(RenameDefinitions(f - {"$schema"}));
      RenamesOutside(f);
      SameLocal(o, f, g, v);
      NullableSame(o, g, v);
  }

  // Rewriting the schemas below changes nothing that is said about the value itself.
  lemma BelowOutside(pass: Pass, s: Json)
    requires s.Obj?
    ensures SameOutside(s.m, Below(pass, s))
  {
    forall key | !IsStructural(key) ensures Get(s.m, key) == Get(Below(pass, s), key) {
    }
  }

  // ----- The rewrites keep what a schema accepts -----

  function RewrittenContext(pass: Pass, c: Context): Context {
    var defs := map k | k in c.defs :: Rewritten(pass, c.defs[k]);
    if pass == GooglePass then Context(map[], defs, c.oracle) else Context(defs, map[], c.oracle)
  }

  // A schema as it is after the pass: rewritten where the pass goes, itself elsewhere.
  function Form(pass: Pass, deep: bool, s: Json): Json {
    if deep then Rewritten(pass, s) else s
  }

  function FormBelow(pass: Pass, deep: bool, s: Json): Fields
    requires s.Obj?
  {
    if deep then Below(pass, s) else s.m
  }

  // Spelling references anew needs every one of them to be where the pass looks.
  ghost predicate Ready(pass: Pass, deep: bool, s: Json) {
    (deep ==> Strict(s)) && (pass == GooglePass ==> if deep then Reached(s) else Unreferring(s))
  }

  ghost predicate ReadyDefs(pass: Pass, c: Context) {
    c.google == map[] && forall k :: k in c.defs ==> Ready(pass, true, c.defs[k])
  }

  ghost predicate AlikeParts(fuel: nat, c: Context, d: Context, f: Fields, g: Fields) {
    && AlikeLogic(fuel, c, d, f, g) && AlikeList(fuel, c, d, f, g, "prefixItems") && AlikeAt(fuel, c, d, f, g, "items")
    && AlikeMap(fuel, c, d, f, g, "properties") && AlikeMap(fuel, c, d, f, g, "patternProperties")
    && AlikeMap(fuel, c, d, f, g, "dependentSchemas") && AlikeAt(fuel, c, d, f, g, "additionalProperties")
  }

  ghost predicate AlikeKey(fuel: nat, c: Context, d: Context, f: Fields, g: Fields, key: string) {
    && (IsSingle(key) || key == "additionalProperties" ==> AlikeAt(fuel, c, d, f, g, key))
    && (IsList(key) ==> AlikeList(fuel, c, d, f, g, key)) && (IsMap(key) ==> AlikeMap(fuel, c, d, f, g, key))
  }

  lemma PartKeywords()
    ensures IsSingle("not") && IsSingle("if") && IsSingle("then") && IsSingle("else") && IsSingle("items")
    ensures IsList("anyOf") && IsList("allOf") && IsList("oneOf") && IsList("prefixItems")
    ensures IsMap("properties") && IsMap("patternProperties") && IsMap("dependentSchemas")
  {
  }

  lemma PartsFromKeys(fuel: nat, c: Context, d: Context, f: Fields, g: Fields)
    requires forall key :: key != "$defs" && key != "defs" ==> AlikeKey(fuel, c, d, f, g, key)
    ensures AlikeParts(fuel, c, d, f, g)
  {
    hide AlikeAt, AlikeList, AlikeMap, IsSingle, IsList, IsMap;
    PartKeywords();
    assert AlikeKey(fuel, c, d, f, g, "not") && AlikeKey(fuel, c, d, f, g, "if") && AlikeKey(fuel, c, d, f, g, "then");
    assert AlikeKey(fuel, c, d, f, g, "else") && AlikeKey(fuel, c, d, f, g, "items") && AlikeKey(fuel, c, d, f, g, "anyOf");
    assert AlikeKey(fuel, c, d, f, g, "allOf") && AlikeKey(fuel, c, d, f, g, "oneOf") && AlikeKey(fuel, c, d, f, g, "prefixItems");
    assert AlikeKey(fuel, c, d, f, g, "properties") && AlikeKey(fuel, c, d, f, g, "patternProperties");
    assert AlikeKey(fuel, c, d, f, g, "dependentSchemas") && AlikeKey(fuel, c, d, f, g, "additionalProperties");
  }

  // The rewrite of an object leaves the schemas below it where they are.
  lemma LocalKeeps(pass: Pass, f: Fields, key: string)
    requires IsSingle(key) || IsList(key) || IsMap(key) || key == "additionalProperties"
    requires key != "$defs" && key != "defs"
    ensures Get(Local(pass, f), key) == Get(f, key)
  {
    hide NullableType, DefinitionToken, IsSingle, IsList, IsMap;
    PartKey(key);
  }

  lemma PartKey(key: string)
    requires IsSingle(key) || IsList(key) || IsMap(key) || key == "additionalProperties"
    requires key != "$defs" && key != "defs"
    ensures key != "const" && key != "enum" && key != "$schema" && key != "$ref" && key != "ref" && key != "type" && key != "nullable"
  {
  }

  lemma AlikeGet(fuel: nat, c: Context, d: Context, f: Fields, g: Fields, h: Fields, key: string)
    requires AlikeKey(fuel, c, d, f, g, key) && Get(g, key) == Get(h, key)
    ensures AlikeKey(fuel, c, d, f, h, key)
  {
    hide Alike, IsSingle, IsList, IsMap;
  }

  lemma ItemsBelow(pass: Pass, s: Json, key: string)
    requires s.Obj? && key in s.m && IsList(key) && s.m[key].Arr?
    ensures Below(pass, s)[key].Arr?
    ensures var items := ItemsAt(Below(pass, s), key); |items| == |s.m[key].items| && forall i :: 0 <= i < |items| ==> items[i] == Rewritten(pass, s.m[key].items[i])
  {
    ListNotSingle(key);
    hide Rewritten;
  }

  lemma ListNotSingle(key: string)
    requires IsList(key)
    ensures !IsSingle(key) && !IsMap(key)
  {
  }

  lemma MapNotSingle(key: string)
    requires IsMap(key)
    ensures !IsSingle(key) && !IsList(key)
  {
  }

  lemma FieldsBelow(pass: Pass, s: Json, key: string)
    requires s.Obj? && key in s.m && IsMap(key) && s.m[key].Obj?
    ensures var fields := FieldsAt(Below(pass, s), key); fields.Keys == s.m[key].m.Keys && forall k :: k in fields ==> fields[k] == Rewritten(pass, s.m[key].m[k])
  {
    MapNotSingle(key);
    hide Rewritten;
  }

  lemma ReadyBelow(pass: Pass, deep: bool, s: Json, key: string)
    requires s.Obj? && key in s.m && Ready(pass, deep, s)
    ensures key == "additionalProperties" ==> Ready(pass, false, s.m[key])
    ensures IsSingle(key) ==> Ready(pass, deep, s.m[key])
    ensures IsList(key) && deep ==> s.m[key].Arr?
    ensures IsList(key) && s.m[key].Arr? ==> forall i :: 0 <= i < |s.m[key].items| ==> Ready(pass, deep, s.m[key].items[i])
    ensures IsMap(key) && s.m[key].Obj? ==> forall k :: k in s.m[key].m ==> Ready(pass, deep, s.m[key].m[k])
  {
    hide IsSingle, IsList, IsMap, RefersLocally;
    if deep {
      assert StrictAt(s, key);
      if pass == GooglePass { assert ReachedAt(s, key) && (key == "additionalProperties" ==> key in UNVISITED); }
    } else if pass == GooglePass {
      assert Unreferring(s.m[key]);
    }
  }

  lemma {:induction false} KeyPreserved(pass: Pass, fuel: nat, c: Context, s: Json, deep: bool, key: string)
    requires s.Obj? && Ready(pass, deep, s) && ReadyDefs(pass, c)
    ensures AlikeKey(fuel, c, RewrittenContext(pass, c), s.m, FormBelow(pass, deep, s), key)
    decreases fuel, s, 0
  {
    hide Accepts, Rewritten, RewrittenContext, Alike, Ready, ReadyDefs, IsSingle, IsList, IsMap;
    var d, g := RewrittenContext(pass, c), FormBelow(pass, deep, s);
    if key in s.m {
      ReadyBelow(pass, deep, s, key);
      AdditionalElsewhere();
      if key == "additionalProperties" {
        Preserves(pass, fuel, c, s.m[key], false);
        AdditionalNotBelow(pass, s);
        assert Get(g, key) == Get(s.m, key);
      } else if IsList(key) {
        ListNotSingle(key);
        ListPreserved(pass, fuel, c, s, deep, key);
      } else if IsMap(key) {
        MapNotSingle(key);
        MapPreserved(pass, fuel, c, s, deep, key);
      } else if IsSingle(key) {
        Preserves(pass, fuel, c, s.m[key], deep);
        SingleBelow(pass, s, key);
        assert g[key] == Form(pass, deep, s.m[key]);
      }
    }
  }

  lemma SingleBelow(pass: Pass, s: Json, key: string)
    requires s.Obj? && key in s.m && IsSingle(key)
    ensures key in Below(pass, s) && Below(pass, s)[key] == Rewritten(pass, s.m[key])
  {
    hide Rewritten;
  }

  lemma AdditionalNotBelow(pass: Pass, s: Json)
    requires s.Obj?
    ensures Get(Below(pass, s), "additionalProperties") == Get(s.m, "additionalProperties")
  {
  }

  lemma AdditionalElsewhere()
    ensures !IsSingle("additionalProperties") && !IsList("additionalProperties") && !IsMap("additionalProperties")
  {
  }

  lemma {:induction false} ListPreserved(pass: Pass, fuel: nat, c: Context, s: Json, deep: bool, key: string)
    requires s.Obj? && Ready(pass, deep, s) && ReadyDefs(pass, c) && key in s.m && IsList(key)
    ensures AlikeList(fuel, c, RewrittenContext(pass, c), s.m, FormBelow(pass, deep, s), key)
    decreases fuel, s, 0, 0
  {
    hide Accepts, Rewritten, RewrittenContext, Alike, Ready, ReadyDefs, IsSingle, IsList, IsMap, RewrittenAt;
    ReadyBelow(pass, deep, s, key);
    if s.m[key].Arr? {
      forall i | 0 <= i < |s.m[key].items| ensures Alike(fuel, c, RewrittenContext(pass, c), s.m[key].items[i], Form(pass, deep, s.m[key].items[i])) {
        Preserves(pass, fuel, c, s.m[key].items[i], deep);
      }
      ItemsBelow(pass, s, key);
    }
  }

  lemma {:induction false} MapPreserved(pass: Pass, fuel: nat, c: Context, s: Json, deep: bool, key: string)
    requires s.Obj? && Ready(pass, deep, s) && ReadyDefs(pass, c) && key in s.m && IsMap(key)
    ensures AlikeMap(fuel, c, RewrittenContext(pass, c), s.m, FormBelow(pass, deep, s), key)
    decreases fuel, s, 0, 0
  {
    hide Accepts, Rewritten, RewrittenContext, Alike, Ready, ReadyDefs, IsSingle, IsList, IsMap, RewrittenAt;
    ReadyBelow(pass, deep, s, key);
    if s.m[key].Obj? {
      forall k | k in s.m[key].m ensures Alike(fuel, c, RewrittenContext(pass, c), s.m[key].m[k], Form(pass, deep, s.m[key].m[k])) {
        Preserves(pass, fuel, c, s.m[key].m[k], deep);
      }
      FieldsBelow(pass, s, key);
    } else {
      MapNotSingle(key);
      NotRewritten(pass, s, key);
    }
  }

  lemma NotRewritten(pass: Pass, s: Json, key: string)
    requires s.Obj? && key in s.m && IsMap(key) && !s.m[key].Obj?
    ensures RewrittenAt(pass, s, key) == s.m[key]
  {
    MapNotSingle(key);
  }

  // Rewriting a schema, and the definitions it refers to, keeps what it accepts.
  lemma {:induction false} Preserves(pass: Pass, fuel: nat, c: Context, s: Json, deep: bool)
    requires Ready(pass, deep, s) && ReadyDefs(pass, c)
    ensures Alike(fuel, c, RewrittenContext(pass, c), s, Form(pass, deep, s))
    decreases fuel, s, 2
  {
    hide LocalOk, MembersOk, ElementsOk, LogicOk, RefsOk, RewrittenContext, Local, Below, Ready, ReadyDefs, AlikeKey, IsSingle, IsList, IsMap;
    var d, t := RewrittenContext(pass, c), Form(pass, deep, s);
    ContextOracle(pass, c);
    if s.Obj? {
      var h := FormBelow(pass, deep, s);
      forall key | key != "$defs" && key != "defs" ensures AlikeKey(fuel, c, d, s.m, t.m, key) {
        KeyPreserved(pass, fuel, c, s, deep, key);
        KeyKept(pass, fuel, c, s, deep, key);
      }
      PartsFromKeys(fuel, c, d, s.m, t.m);
      forall v ensures Accepts(fuel, c, s, v) <==> Accepts(fuel, d, t, v) {
        ValuePreserved(pass, c.oracle, s, deep, v);
        MembersAlike(fuel, c, d, s, t, v);
        ElementsAlike(fuel, c, d, s, t, v);
        LogicAlike(fuel, c, d, s, t, v);
        RefsPreserved(pass, fuel, c, s, deep, v);
      }
    }
  }

  lemma ContextOracle(pass: Pass, c: Context)
    ensures RewrittenContext(pass, c).oracle == c.oracle
  {
  }

  lemma KeyKept(pass: Pass, fuel: nat, c: Context, s: Json, deep: bool, key: string)
    requires s.Obj? && key != "$defs" && key != "defs"
    requires AlikeKey(fuel, c, RewrittenContext(pass, c), s.m, FormBelow(pass, deep, s), key)
    ensures AlikeKey(fuel, c, RewrittenContext(pass, c), s.m, Form(pass, deep, s).m, key)
  {
    hide AlikeKey, Local, Below, IsSingle, IsList, IsMap, RewrittenContext;
    if deep {
      if IsSingle(key) || IsList(key) || IsMap(key) || key == "additionalProperties" {
        LocalKeeps(pass, Below(pass, s), key);
        AlikeGet(fuel, c, RewrittenContext(pass, c), s.m, Below(pass, s), Form(pass, deep, s).m, key);
      } else {
        NoKey(fuel, c, RewrittenContext(pass, c), s.m, Form(pass, deep, s).m, key);
      }
    }
  }

  lemma NoKey(fuel: nat, c: Context, d: Context, f: Fields, g: Fields, key: string)
    requires !(IsSingle(key) || IsList(key) || IsMap(key) || key == "additionalProperties")
    ensures AlikeKey(fuel, c, d, f, g, key)
  {
  }

  lemma ValuePreserved(pass: Pass, o: Oracle, s: Json, deep: bool, v: Json)
    requires s.Obj?
    ensures LocalOk(o, s.m, v) <==> LocalOk(o, Form(pass, deep, s).m, v)
  {
    hide LocalOk, Local, Below;
    if deep {
      BelowOutside(pass, s);
      SameLocal(o, s.m, Below(pass, s), v);
      LocalSame(pass, o, Below(pass, s), v);
    }
  }

  // ----- References -----

  lemma ReferencePreserved(pass: Pass, fuel: nat, c: Context, prefix: string, reference: Json, other: string, respelled: Json, v: Json)
    requires reference.Str? && respelled.Str? && ReadyDefs(pass, c) && (prefix == DEFS_PREFIX || prefix == GOOGLE_PREFIX)
    requires DefinitionToken(prefix, reference.s).Some? ==>
      if pass == GooglePass then prefix == DEFS_PREFIX && other == GOOGLE_PREFIX else other == prefix
    requires DefinitionToken(prefix, reference.s) == DefinitionToken(other, respelled.s)
    requires DefinitionToken(prefix, reference.s).None? ==> reference == respelled
    ensures ReferenceOk(fuel, c, prefix, reference, v) <==> ReferenceOk(fuel, RewrittenContext(pass, c), other, respelled, v)
    decreases fuel, reference, 3
  {
    hide Accepts, DefinitionToken;
    var token := DefinitionToken(prefix, reference.s);
    PrefixesDiffer();
    if token.Some? && fuel > 0 && c.oracle.token(token.value) in DefsAt(c, prefix) {
      Preserves(pass, fuel - 1, c, c.defs[c.oracle.token(token.value)], true);
    }
  }

  lemma PrefixesDiffer()
    ensures DEFS_PREFIX != GOOGLE_PREFIX
  {
    assert |DEFS_PREFIX| == 8 && |GOOGLE_PREFIX| == 7;
  }

  lemma TokenRespelled(token: string)
    requires token != "" && '/' !in token
    ensures DefinitionToken(GOOGLE_PREFIX, GOOGLE_PREFIX + token) == Some(token)
  {
    assert (GOOGLE_PREFIX + token)[|GOOGLE_PREFIX|..] == token;
  }

  // The references of a form: unchanged, except that Google spells those to definitions its own way.
  lemma ReferenceSpelling(pass: Pass, s: Json, deep: bool)
    requires s.Obj? && Ready(pass, deep, s)
    ensures var g := Form(pass, deep, s).m;
      || (Get(g, "$ref") == Get(s.m, "$ref") && Get(g, "ref") == Get(s.m, "ref") && (pass == GooglePass ==> !RefersLocally(s.m)))
      || (pass == GooglePass && "ref" !in s.m && "$ref" !in g && "$ref" in s.m && s.m["$ref"].Str? && "ref" in g && g["ref"].Str?
            && DefinitionToken(DEFS_PREFIX, s.m["$ref"].s).Some?
            && DefinitionToken(GOOGLE_PREFIX, g["ref"].s) == DefinitionToken(DEFS_PREFIX, s.m["$ref"].s))
  {
    hide NullableType, RewrittenAt, Reached, StrictAt;
    if deep {
      var h := Below(pass, s);
      ReferencesNotBelow(pass, s);
      if pass == GooglePass && "$ref" in h && h["$ref"].Str? {
        var token := DefinitionToken(DEFS_PREFIX, h["$ref"].s);
        if token.Some? { TokenRespelled(token.value); }
      }
    }
  }

  lemma ReferencesNotBelow(pass: Pass, s: Json)
    requires s.Obj?
    ensures Get(Below(pass, s), "$ref") == Get(s.m, "$ref") && Get(Below(pass, s), "ref") == Get(s.m, "ref")
  {
  }

  lemma RefsPreserved(pass: Pass, fuel: nat, c: Context, s: Json, deep: bool, v: Json)
    requires s.Obj? && Ready(pass, deep, s) && ReadyDefs(pass, c)
    ensures RefsOk(fuel, c, s, v) <==> RefsOk(fuel, RewrittenContext(pass, c), Form(pass, deep, s), v)
    decreases fuel, s, 1
  {
    hide ReferenceOk, DefinitionToken, Strict, Local, Below, Reached, Unreferring;
    var t := Form(pass, deep, s);
    ReferenceSpelling(pass, s, deep);
    if Get(t.m, "$ref") == Get(s.m, "$ref") && Get(t.m, "ref") == Get(s.m, "ref") {
      if "$ref" in s.m && s.m["$ref"].Str? { ReferencePreserved(pass, fuel, c, DEFS_PREFIX, s.m["$ref"], DEFS_PREFIX, s.m["$ref"], v); }
      if "ref" in s.m && s.m["ref"].Str? { ReferencePreserved(pass, fuel, c, GOOGLE_PREFIX, s.m["ref"], GOOGLE_PREFIX, s.m["ref"], v); }
    } else {
      ReferencePreserved(pass, fuel, c, DEFS_PREFIX, s.m["$ref"], GOOGLE_PREFIX, t.m["ref"], v);
    }
  }

  // ----- Whole schemas -----

  // Where the definitions are after a pass, and where there are none.
  lemma DefinitionsAt(pass: Pass, f: Fields)
    requires "defs" !in f
    ensures var g := Local(pass, f); FieldsAt(g, if pass == GooglePass then "defs" else "$defs") == FieldsAt(f, "$defs")
    ensures var g := Local(pass, f); FieldsAt(g, if pass == GooglePass then "$defs" else "defs") == map[]
  {
    hide NullableType, DefinitionToken;
  }

  lemma DefinitionsRewritten(pass: Pass, root: Json, o: Oracle)
    requires root.Obj? && Strict(root)
    ensures ContextOf(Rewritten(pass, root), o) == RewrittenContext(pass, ContextOf(root, o))
  {
    hide Rewritten, Local;
    var h := Below(pass, root);
    RootRewritten(pass, root);
    assert "defs" !in h;
    DefinitionsAt(pass, h);
    if "$defs" in root.m {
      assert StrictAt(root, "$defs");
      FieldsBelow(pass, root, "$defs");
    }
    assert FieldsAt(h, "$defs") == map k | k in FieldsAt(root.m, "$defs") :: Rewritten(pass, FieldsAt(root.m, "$defs")[k]);
  }

  lemma RootRewritten(pass: Pass, root: Json)
    requires root.Obj?
    ensures Rewritten(pass, root) == Obj(Local(pass, Below(pass, root)))
  {
  }

  lemma DefinitionsReady(pass: Pass, root: Json, o: Oracle)
    requires root.Obj? && Ready(pass, true, root)
    ensures ReadyDefs(pass, ContextOf(root, o))
  {
    if "$defs" in root.m {
      assert StrictAt(root, "$defs");
      if pass == GooglePass { assert ReachedAt(root, "$defs"); }
    }
  }

  // Each pass keeps the set of accepted values; the one that spells references anew, where it reaches all of them.
  lemma PassIsLossless(pass: Pass, o: Oracle, root: Json, fuel: nat, v: Json)
    requires Strict(root) && (pass == GooglePass ==> Reached(root))
    ensures Valid(fuel, o, Rewritten(pass, root), v) <==> Valid(fuel, o, root, v)
  {
    hide Accepts, Strict, Reached, ContextOf, ReadyDefs;
    if root.Obj? {
      RootRewritten(pass, root);
      DefinitionsRewritten(pass, root, o);
      DefinitionsReady(pass, root, o);
      Preserves(pass, fuel, ContextOf(root, o), root, true);
    } else {
      Unchanged(pass, root);
    }
  }

  lemma Unchanged(pass: Pass, root: Json)
    requires !root.Obj?
    ensures Rewritten(pass, root) == root
  {
  }

  // Replacing constants leaves a strict schema.
  lemma {:induction false} StaysStrict(pass: Pass, s: Json)
    requires Strict(s) && pass != GooglePass
    ensures Strict(Rewritten(pass, s))
    decreases s
  {
    hide RewrittenAt, IsSingle, IsList, IsMap, StrictAt;
    if s.Obj? {
      var t := Rewritten(pass, s);
      forall key | key in t.m ensures StrictAt(t, key) {
        StaysStrictAt(pass, s, key);
      }
    }
  }

  lemma {:induction false} StaysStrictAt(pass: Pass, s: Json, key: string)
    requires s.Obj? && Strict(s) && pass != GooglePass && key in Rewritten(pass, s).m
    ensures StrictAt(Rewritten(pass, s), key)
    decreases s, 0
  {
    hide IsSingle, IsList, IsMap, Rewritten;
    RootRewritten(pass, s);
    var t, h := Rewritten(pass, s), Below(pass, s);
    if IsSingle(key) || IsList(key) || IsMap(key) {
      OtherPassesKeep(pass, h, key);
      assert key in s.m && StrictAt(s, key);
      if IsMap(key) {
        MapNotSingle(key);
        FieldsBelow(pass, s, key);
        forall k | k in s.m[key].m ensures Strict(Rewritten(pass, s.m[key].m[k])) { StaysStrict(pass, s.m[key].m[k]); }
      } else if IsList(key) {
        ListNotSingle(key);
        ItemsBelow(pass, s, key);
        forall i | 0 <= i < |s.m[key].items| ensures Strict(Rewritten(pass, s.m[key].items[i])) { StaysStrict(pass, s.m[key].items[i]); }
      } else {
        SingleBelow(pass, s, key);
        StaysStrict(pass, s.m[key]);
      }
    }
  }

  lemma OtherPassesKeep(pass: Pass, f: Fields, key: string)
    requires pass != GooglePass && (IsSingle(key) || IsList(key) || IsMap(key))
    ensures Get(Local(pass, f), key) == Get(f, key)
  {
  }
}
