/**
 Normalizing a schema for OpenAI's strict mode: every object is closed and requires all
 its declared properties, and those that were optional also take null.  A value the
 normalized schema accepts is accepted by the source once nulls of optional properties
 are erased.
 */
module OpenAiNormalization {
  import opened Common
  import opened JsonSchema
  import opened SchemaRewrites
  import opened CompilerFindings

  // Object.keys: the names of an object, in its own order.
  type KeyOrder = Fields -> seq<string>

  ghost predicate ListsKeys(order: KeyOrder) {
    forall f: Fields, k: string :: k in order(f) <==> k in f
  }

  function Strings(names: seq<string>): seq<Json> {
    seq(|names|, i requires 0 <= i < |names| => Str(names[i]))
  }

  function Properties(f: Fields): Fields {
    FieldsAt(f, "properties")
  }

  const NULL_SCHEMA: Json := Obj(map["type" := Str("null")])

  // The schema of an optional property, made to take null.
  function Nullified(f: Fields): Fields {
    if "type" in f && f["type"].Arr? then
      if Str("null") in f["type"].items then f else f["type" := Arr(f["type"].items + [Str("null")])]
    else if "type" in f && f["type"].Str? then f["type" := Arr([f["type"], Str("null")])]
    else f["anyOf" := Arr(ItemsAt(f, "anyOf") + [NULL_SCHEMA])]
  }

  // Whether the pass makes this property take null.
  predicate TakesNull(f: Fields, nullable: bool, k: string) {
    !nullable && Loose(f) && k in Optional(f)
  }

  function Strictened(order: KeyOrder, f: Fields): Fields {
    f["required" := Arr(Strings(order(Properties(f))))]["additionalProperties" := Bool(false)]
  }

  function Normalized(order: KeyOrder, s: Json, nullable: bool): (r: Json)
    ensures r.Obj? <==> s.Obj?
    decreases s, 2
  {
    if s.Obj? then
      var below := NormalizedBelow(order, s, nullable) - {"$schema"};
      Obj(if nullable then Nullified(below) else if Loose(s.m) then Strictened(order, below) else below)
    else s
  }

  function NormalizedBelow(order: KeyOrder, s: Json, nullable: bool): Fields
    requires s.Obj?
    decreases s, 1
  {
    map key | key in s.m :: NormalizedAt(order, s, nullable, key)
  }

  function NormalizedAt(order: KeyOrder, s: Json, nullable: bool, key: string): Json
    requires s.Obj? && key in s.m
    decreases s, 0
  {
    var value := s.m[key];
    if IsSingle(key) then Normalized(order, value, false)
    else if IsList(key) && value.Arr? then Arr(seq(|value.items|, i requires 0 <= i < |value.items| => Normalized(order, value.items[i], false)))
    else if IsMap(key) && value.Obj? then
      Obj(map k | k in value.m :: Normalized(order, value.m[k], key == "properties" && TakesNull(s.m, nullable, k)))
    else value
  }

  // The value a caller meant: nulls of optional properties left out.
  function Erased(s: Json, nullable: bool, v: Json): Json
    decreases s
  {
    if s.Obj? then
      match v
      case Arr(items) =>
        if "items" in s.m then Arr(seq(|items|, i requires 0 <= i < |items| => Erased(s.m["items"], false, items[i]))) else v
      case Obj(m) =>
        Obj(map k | k in m && !Dropped(s.m, nullable, m, k) ::
              if k in Properties(s.m) then Erased(Properties(s.m)[k], TakesNull(s.m, nullable, k), m[k]) else m[k])
      case _ => v
    else v
  }

  predicate Dropped(f: Fields, nullable: bool, m: Fields, k: string)
    requires k in m
  {
    TakesNull(f, nullable, k) && m[k].Null?
  }

  // ----- What the refinement covers -----

  predicate IsScalar(j: Json) {
    !j.Arr? && !j.Obj?
  }

  // No reference at any position.
  predicate RefFree(s: Json)
    decreases s, 1
  {
    s.Obj? ==> "$ref" !in s.m && "ref" !in s.m && forall key :: key in s.m ==> RefFreeAt(s, key)
  }

  predicate RefFreeAt(s: Json, key: string)
    requires s.Obj? && key in s.m
    decreases s, 0
  {
    && (IsSingle(key) || key == "additionalProperties" ==> RefFree(s.m[key]))
    && (IsList(key) && s.m[key].Arr? ==> forall i :: 0 <= i < |s.m[key].items| ==> RefFree(s.m[key].items[i]))
    && (IsMap(key) && s.m[key].Obj? ==> forall k :: k in s.m[key].m ==> RefFree(s.m[key].m[k]))
  }

  predicate Supported(f: Fields) {
    forall key :: key in f && key != "$schema" ==> key in OPENAI_SUPPORTED
  }

  // No alternatives and no references; enumerations of scalars.
  predicate Simple(f: Fields) {
    && "anyOf" !in f && "$ref" !in f && (forall e :: e in ItemsAt(f, "enum") ==> IsScalar(e))
    && ("additionalProperties" in f ==> RefFree(f["additionalProperties"]))
  }

  predicate Plain(f: Fields) {
    Supported(f) && Simple(f)
  }

  // Where the pass replaces the required names, they were all declared.
  predicate DeclaredHere(s: Json, nullable: bool) {
    s.Obj? && !nullable && Loose(s.m) ==> Required(s.m) <= Properties(s.m).Keys
  }

  // Plain at every level that values reach.
  predicate Covered(s: Json, nullable: bool)
    decreases s
  {
    s.Obj? ==>
      && Plain(s.m)
      && ("items" in s.m ==> Covered(s.m["items"], false))
      && forall k :: k in Properties(s.m) ==> Covered(Properties(s.m)[k], TakesNull(s.m, nullable, k))
  }

  // Every object that the value has, erased members aside, stands under a schema whose required names are declared,
  // or that the pass leaves as it is.
  predicate Declared(s: Json, nullable: bool, v: Json)
    decreases s
  {
    s.Obj? ==> (v.Obj? ==> DeclaredHere(s, nullable)) && DeclaredBelow(s, nullable, v)
  }

  predicate DeclaredBelow(s: Json, nullable: bool, v: Json)
    requires s.Obj?
    decreases s, 0
  {
    && (v.Arr? && "items" in s.m ==> forall i :: 0 <= i < |v.items| ==> Declared(s.m["items"], false, v.items[i]))
    && (v.Obj? ==> forall k :: k in Properties(s.m) && k in v.m && !Dropped(s.m, nullable, v.m, k) ==>
          Declared(Properties(s.m)[k], TakesNull(s.m, nullable, k), v.m[k]))
  }

  // The same of a schema, whatever the value.
  predicate DeclaredThroughout(s: Json, nullable: bool)
    decreases s
  {
    DeclaredHere(s, nullable) &&
    (s.Obj? ==>
      && ("items" in s.m ==> DeclaredThroughout(s.m["items"], false))
      && forall k :: k in Properties(s.m) ==> DeclaredThroughout(Properties(s.m)[k], TakesNull(s.m, nullable, k)))
  }

  lemma {:induction false} ThroughoutIsDeclared(s: Json, nullable: bool, v: Json)
    requires DeclaredThroughout(s, nullable)
    ensures Declared(s, nullable, v)
    decreases s
  {
    hide DeclaredHere, TakesNull;
    if s.Obj? {
      if v.Arr? && "items" in s.m {
        forall i | 0 <= i < |v.items| ensures Declared(s.m["items"], false, v.items[i]) {
          ThroughoutIsDeclared(s.m["items"], false, v.items[i]);
        }
      }
      if v.Obj? {
        forall k | k in Properties(s.m) && k in v.m ensures Declared(Properties(s.m)[k], TakesNull(s.m, nullable, k), v.m[k]) {
          ThroughoutIsDeclared(Properties(s.m)[k], TakesNull(s.m, nullable, k), v.m[k]);
        }
      }
    }
  }

  // ----- Values keep their kind -----

  lemma SameKind(s: Json, nullable: bool, v: Json, t: string)
    ensures HasType(t, Erased(s, nullable, v)) <==> HasType(t, v)
    ensures !v.Obj? && !v.Arr? ==> Erased(s, nullable, v) == v
    ensures Erased(s, nullable, v).Obj? <==> v.Obj?
    ensures Erased(s, nullable, v).Arr? <==> v.Arr?
    ensures v.Arr? ==> |Erased(s, nullable, v).items| == |v.items|
  {
  }

  // ----- What a plain schema does not use -----

  const UNSUPPORTED: set<string> :=
    {"const", "nullable", "minLength", "maxLength", "minProperties", "maxProperties", "patternProperties", "dependentSchemas", "prefixItems",
     "ref", "defs", "not", "if", "oneOf", "allOf"}

  lemma UnsupportedAbsent(f: Fields)
    requires Supported(f)
    ensures forall key :: key in UNSUPPORTED ==> key !in f
  {
    assert UNSUPPORTED !! OPENAI_SUPPORTED && "$schema" !in UNSUPPORTED;
  }

  lemma PlainAbsent(f: Fields)
    requires Plain(f)
    ensures "const" !in f && "nullable" !in f && "minLength" !in f && "maxLength" !in f && "minProperties" !in f && "maxProperties" !in f
    ensures "patternProperties" !in f && "dependentSchemas" !in f && "prefixItems" !in f && "ref" !in f && "defs" !in f
    ensures "not" !in f && "if" !in f && "oneOf" !in f && "allOf" !in f && "anyOf" !in f && "$ref" !in f
  {
    hide Supported;
    UnsupportedAbsent(f);
  }

  lemma PlainRest(f: Fields)
    requires Plain(f)
    ensures Rest(f) == map[]
  {
    forall key | key in f ensures key in STRUCTURED + ANNOTATIONS {
      assert key == "$schema" || key in OPENAI_SUPPORTED;
    }
  }

  // ----- The fields after the pass -----

  predicate Retouched(key: string) {
    key in {"type", "anyOf", "required", "additionalProperties", "$schema"}
  }

  lemma TouchesFew(order: KeyOrder, s: Json, nullable: bool, key: string)
    requires s.Obj? && !Retouched(key)
    ensures Get(Normalized(order, s, nullable).m, key) == Get(NormalizedBelow(order, s, nullable), key)
  {
    hide NormalizedBelow, Loose;
  }

  lemma BelowKeepsValues(order: KeyOrder, s: Json, nullable: bool, key: string)
    requires s.Obj? && !IsSingle(key) && !IsList(key) && !IsMap(key)
    ensures Get(NormalizedBelow(order, s, nullable), key) == Get(s.m, key)
  {
  }

  // Keywords on the value itself, other than the type and the required names, stay.
  lemma ValueKeywords(key: string)
    requires key in LOWER_BOUNDS + UPPER_BOUNDS + {"enum", "multipleOf", "pattern", "format"}
    ensures !Retouched(key) && !IsSingle(key) && !IsList(key) && !IsMap(key)
  {
  }

  lemma Kept(order: KeyOrder, s: Json, nullable: bool, key: string)
    requires s.Obj? && key in LOWER_BOUNDS + UPPER_BOUNDS + {"enum", "multipleOf", "pattern", "format"}
    ensures Get(Normalized(order, s, nullable).m, key) == Get(s.m, key)
  {
    hide Normalized, NormalizedBelow, Retouched, IsSingle, IsList, IsMap;
    ValueKeywords(key);
    TouchesFew(order, s, nullable, key);
    BelowKeepsValues(order, s, nullable, key);
  }

  lemma TypeAfter(order: KeyOrder, s: Json, nullable: bool)
    requires s.Obj?
    ensures !nullable ==> Get(Normalized(order, s, nullable).m, "type") == Get(s.m, "type")
    ensures nullable ==> Get(Normalized(order, s, nullable).m, "type") == Get(Nullified(s.m), "type")
  {
    hide NormalizedAt, Loose;
    TypeElsewhere();
    BelowKeepsValues(order, s, nullable, "type");
    assert Get(NormalizedBelow(order, s, nullable) - {"$schema"}, "type") == Get(s.m, "type");
  }

  lemma TypeElsewhere()
    ensures !IsSingle("type") && !IsList("type") && !IsMap("type")
    ensures !IsSingle("required") && !IsList("required") && !IsMap("required")
    ensures !IsSingle("additionalProperties") && !IsList("additionalProperties") && !IsMap("additionalProperties")
  {
  }

  // ----- Keywords on the value itself -----

  predicate Typed(f: Fields) {
    "type" in f && (f["type"].Arr? || f["type"].Str?)
  }

  lemma StringsAppend(items: seq<Json>, s: string)
    ensures StringsIn(items + [Str(s)]) == StringsIn(items) + {s}
  {
    var longer := items + [Str(s)];
    assert longer[|items|] == Str(s);
    forall x | x in StringsIn(items) + {s} ensures x in StringsIn(longer) {
      if x != s {
        var i :| 0 <= i < |items| && items[i].Str? && items[i].s == x;
        assert longer[i] == items[i];
      }
    }
  }

  lemma NullifiedTypes(f: Fields)
    requires Typed(f)
    ensures TypeSet(Get(Nullified(f), "type")) == TypeSet(Get(f, "type")) + {"null"}
  {
    if f["type"].Arr? {
      StringsAppend(f["type"].items, "null");
      if Str("null") in f["type"].items {
        var i :| 0 <= i < |f["type"].items| && f["type"].items[i] == Str("null");
      }
    } else {
      var pair := [f["type"], Str("null")];
      assert pair == [f["type"]] + [Str("null")];
      StringsAppend([f["type"]], "null");
      assert [f["type"]] == [] + [f["type"]];
      StringsAppend([], f["type"].s);
    }
  }

  lemma TypeRefines(order: KeyOrder, s: Json, nullable: bool, v: Json)
    requires s.Obj? && Plain(s.m) && TypeOk(Normalized(order, s, nullable).m, v) && (nullable ==> !v.Null? && Typed(s.m))
    requires "nullable" !in Normalized(order, s, nullable).m
    ensures TypeOk(s.m, Erased(s, nullable, v))
  {
    hide Normalized, Erased, HasType, TypeSet, Nullified;
    TypeAfter(order, s, nullable);
    var g := Normalized(order, s, nullable).m;
    var types := TypeSet(Get(g, "type"));
    if nullable { NullifiedTypes(s.m); }
    if types != {} {
      var t :| t in types && HasType(t, v);
      SameKind(s, nullable, v, t);
      if t == "null" { NullOnly(v); }
    }
  }

  lemma NullOnly(v: Json)
    ensures HasType("null", v) <==> v.Null?
  {
  }

  lemma BoundRefines(order: KeyOrder, s: Json, nullable: bool, key: string, v: Json)
    requires s.Obj? && Plain(s.m) && key in LOWER_BOUNDS + UPPER_BOUNDS && BoundOk(Normalized(order, s, nullable).m, key, v)
    ensures BoundOk(s.m, key, Erased(s, nullable, v))
  {
    hide Normalized, Erased, WithinBound;
    Kept(order, s, nullable, key);
    PlainAbsent(s.m);
    SameKind(s, nullable, v, "");
    if key in s.m && Measure(key, Erased(s, nullable, v)).Some? {
      assert Measure(key, Erased(s, nullable, v)) == Measure(key, v);
      assert Get(Normalized(order, s, nullable).m, key) == Get(s.m, key);
    }
  }

  lemma EnumRefines(order: KeyOrder, s: Json, nullable: bool, v: Json)
    requires s.Obj? && Plain(s.m) && EnumOk(Normalized(order, s, nullable).m, v)
    ensures EnumOk(s.m, Erased(s, nullable, v))
  {
    hide Normalized, Erased;
    Kept(order, s, nullable, "enum");
    SameKind(s, nullable, v, "");
    assert Get(Normalized(order, s, nullable).m, "enum") == Get(s.m, "enum");
    assert "enum" in s.m && s.m["enum"].Arr? ==> v in ItemsAt(s.m, "enum");
  }

  lemma ScalarsRefine(order: KeyOrder, o: Oracle, s: Json, nullable: bool, v: Json)
    requires s.Obj?
    requires var g := Normalized(order, s, nullable).m; MultipleOk(g, v) && PatternOk(o, g, v) && FormatOk(o, g, v)
    ensures var w := Erased(s, nullable, v); MultipleOk(s.m, w) && PatternOk(o, s.m, w) && FormatOk(o, s.m, w)
  {
    hide Normalized, Erased;
    Kept(order, s, nullable, "multipleOf");
    Kept(order, s, nullable, "pattern");
    Kept(order, s, nullable, "format");
    SameKind(s, nullable, v, "");
    var g := Normalized(order, s, nullable).m;
    assert Get(g, "multipleOf") == Get(s.m, "multipleOf") && Get(g, "pattern") == Get(s.m, "pattern") && Get(g, "format") == Get(s.m, "format");
  }

  lemma NoNullable(order: KeyOrder, s: Json, nullable: bool)
    requires s.Obj? && Plain(s.m)
    ensures "nullable" !in Normalized(order, s, nullable).m
  {
    hide NormalizedAt, Loose;
    PlainAbsent(s.m);
  }

  lemma LocalRefines(order: KeyOrder, o: Oracle, s: Json, nullable: bool, v: Json)
    requires s.Obj? && Plain(s.m) && LocalOk(o, Normalized(order, s, nullable).m, v) && (nullable ==> !v.Null? && Typed(s.m))
    requires RequiredOk(s.m, Erased(s, nullable, v))
    ensures LocalOk(o, s.m, Erased(s, nullable, v))
  {
    hide Normalized, Erased, TypeOk, EnumOk, BoundOk, MultipleOk, PatternOk, FormatOk, RequiredOk, Rest, Plain;
    NoNullable(order, s, nullable);
    TypeRefines(order, s, nullable, v);
    EnumRefines(order, s, nullable, v);
    PlainAbsent(s.m);
    forall key | key in LOWER_BOUNDS + UPPER_BOUNDS ensures BoundOk(s.m, key, Erased(s, nullable, v)) {
      BoundRefines(order, s, nullable, key, v);
    }
    ScalarsRefine(order, o, s, nullable, v);
    PlainRest(s.m);
  }

  // ----- Required names -----

  lemma StringsListed(names: seq<string>)
    ensures forall k :: k in StringsIn(Strings(names)) <==> k in names
  {
    forall k | k in names ensures k in StringsIn(Strings(names)) {
      var i :| 0 <= i < |names| && names[i] == k;
      assert Strings(names)[i] == Str(k);
    }
  }

  lemma ClosedAfter(order: KeyOrder, s: Json, nullable: bool)
    requires s.Obj?
    ensures !nullable && Loose(s.m) ==> Get(Normalized(order, s, nullable).m, "additionalProperties") == Some(Bool(false))
    ensures nullable || !Loose(s.m) ==> Get(Normalized(order, s, nullable).m, "additionalProperties") == Get(s.m, "additionalProperties")
  {
    hide NormalizedBelow, Loose, Strings, FieldsAt, ItemsAt;
    TypeElsewhere();
    BelowKeepsValues(order, s, nullable, "additionalProperties");
    var h := NormalizedBelow(order, s, nullable) - {"$schema"};
    assert Get(h, "additionalProperties") == Get(s.m, "additionalProperties");
  }

  lemma NamesRequired(order: KeyOrder, h: Fields)
    requires ListsKeys(order)
    ensures Required(Strictened(order, h)) == Properties(h).Keys
  {
    hide Strings, Properties;
    StringsListed(order(Properties(h)));
  }

  lemma RequiredAfter(order: KeyOrder, s: Json, nullable: bool)
    requires s.Obj? && ListsKeys(order)
    ensures var g := Normalized(order, s, nullable).m;
      Required(g) == if !nullable && Loose(s.m) then Properties(s.m).Keys else Required(s.m)
  {
    hide NormalizedBelow, Loose, Strictened, ListsKeys, StringsIn, FieldsAt;
    TypeElsewhere();
    BelowKeepsValues(order, s, nullable, "required");
    var h := NormalizedBelow(order, s, nullable) - {"$schema"};
    assert Get(h, "required") == Get(s.m, "required");
    if nullable {
      assert Get(Nullified(h), "required") == Get(h, "required");
    } else if Loose(s.m) {
      PropertiesBelow(order, s, nullable);
      NamesRequired(order, h);
    }
  }

  lemma PropertiesBelow(order: KeyOrder, s: Json, nullable: bool)
    requires s.Obj?
    ensures var h := NormalizedBelow(order, s, nullable) - {"$schema"}; Properties(h).Keys == Properties(s.m).Keys
    ensures var h := NormalizedBelow(order, s, nullable) - {"$schema"};
      forall k :: k in Properties(s.m) ==> Properties(h)[k] == Normalized(order, Properties(s.m)[k], TakesNull(s.m, nullable, k))
  {
    hide Normalized, TakesNull, IsSingle, IsList, IsMap;
    PropertiesKey();
  }

  lemma PropertiesKey()
    ensures IsMap("properties") && !IsSingle("properties") && !IsList("properties")
    ensures IsSingle("items") && !IsList("items") && !IsMap("items")
  {
  }

  // Names the source requires are in the erased value when they are declared.
  lemma RequiredRefines(order: KeyOrder, s: Json, nullable: bool, v: Json)
    requires s.Obj? && ListsKeys(order) && RequiredOk(Normalized(order, s, nullable).m, v) && (v.Obj? ==> DeclaredHere(s, nullable))
    ensures RequiredOk(s.m, Erased(s, nullable, v))
  {
    hide Normalized, Loose, ListsKeys, FieldsAt;
    RequiredAfter(order, s, nullable);
    if v.Obj? {
      forall k | k in Required(s.m) ensures k in Erased(s, nullable, v).m {
        assert k in Required(Normalized(order, s, nullable).m);
      }
    }
  }

  // ----- Schemas without references do not depend on the definitions -----

  lemma {:induction false} RefFreeAlike(fuel: nat, c: Context, d: Context, s: Json)
    requires RefFree(s) && c.oracle == d.oracle
    ensures Alike(fuel, c, d, s, s)
    decreases s, 1
  {
    hide LocalOk, MembersOk, ElementsOk, LogicOk, AlikeKey;
    if s.Obj? {
      forall key | key != "$defs" && key != "defs" ensures AlikeKey(fuel, c, d, s.m, s.m, key) {
        RefFreeKey(fuel, c, d, s, key);
      }
      PartsFromKeys(fuel, c, d, s.m, s.m);
      forall v ensures Accepts(fuel, c, s, v) <==> Accepts(fuel, d, s, v) {
        MembersAlike(fuel, c, d, s, s, v);
        ElementsAlike(fuel, c, d, s, s, v);
        LogicAlike(fuel, c, d, s, s, v);
      }
    }
  }

  lemma {:induction false} RefFreeKey(fuel: nat, c: Context, d: Context, s: Json, key: string)
    requires s.Obj? && RefFree(s) && c.oracle == d.oracle
    ensures AlikeKey(fuel, c, d, s.m, s.m, key)
    decreases s, 0
  {
    hide Alike, RefFree, IsSingle, IsList, IsMap;
    if key in s.m {
      RefFreeParts(s, key);
      if IsSingle(key) || key == "additionalProperties" { RefFreeAlike(fuel, c, d, s.m[key]); }
      if IsList(key) && s.m[key].Arr? {
        forall i | 0 <= i < |s.m[key].items| ensures Alike(fuel, c, d, s.m[key].items[i], s.m[key].items[i]) {
          RefFreeAlike(fuel, c, d, s.m[key].items[i]);
        }
      }
      if IsMap(key) && s.m[key].Obj? {
        forall k | k in s.m[key].m ensures Alike(fuel, c, d, s.m[key].m[k], s.m[key].m[k]) {
          RefFreeAlike(fuel, c, d, s.m[key].m[k]);
        }
      }
    }
  }

  lemma RefFreeParts(s: Json, key: string)
    requires s.Obj? && RefFree(s) && key in s.m
    ensures RefFreeAt(s, key)
  {
    hide RefFreeAt;
  }

  // ----- Members and elements -----

  // A member the source has no property for: closed objects have none, others leave it as it is.
  lemma AdditionalRefines(order: KeyOrder, fuel: nat, c: Context, d: Context, s: Json, nullable: bool, v: Json, k: string)
    requires s.Obj? && v.Obj? && ListsKeys(order) && Plain(s.m) && c.oracle == d.oracle && "additionalProperties" in s.m
    requires MembersOk(fuel, d, Normalized(order, s, nullable), v) && k in v.m && k !in Properties(s.m)
    ensures k in Erased(s, nullable, v).m ==> Accepts(fuel, c, s.m["additionalProperties"], Erased(s, nullable, v).m[k])
  {
    hide Accepts, Normalized, Loose, ListsKeys, MembersOk, IsAdditional, RefFree;
    var t := Normalized(order, s, nullable);
    AdditionalAfter(order, s, nullable, c.oracle, k);
    ClosedAfter(order, s, nullable);
    AdditionalApplied(fuel, d, t, v, k);
    if !nullable && Loose(s.m) {
      assert t.m["additionalProperties"] == Bool(false);
      FalseAccepts(fuel, d, v.m[k]);
    } else {
      RefFreeAlike(fuel, c, d, s.m["additionalProperties"]);
      assert Get(t.m, "additionalProperties") == Get(s.m, "additionalProperties");
      assert Accepts(fuel, d, s.m["additionalProperties"], v.m[k]);
    }
  }

  lemma FalseAccepts(fuel: nat, c: Context, v: Json)
    ensures !Accepts(fuel, c, Bool(false), v)
  {
  }

  lemma AdditionalApplied(fuel: nat, d: Context, t: Json, v: Json, k: string)
    requires t.Obj? && v.Obj? && MembersOk(fuel, d, t, v) && k in v.m && IsAdditional(d.oracle, t.m, k)
    ensures "additionalProperties" in t.m ==> Accepts(fuel, d, t.m["additionalProperties"], v.m[k])
  {
    hide Accepts, IsAdditional;
  }

  lemma PropertiesAfter(order: KeyOrder, s: Json, nullable: bool)
    requires s.Obj?
    ensures var t := Normalized(order, s, nullable); Properties(t.m).Keys == Properties(s.m).Keys
    ensures var t := Normalized(order, s, nullable);
      forall k :: k in Properties(s.m) ==> Properties(t.m)[k] == Normalized(order, Properties(s.m)[k], TakesNull(s.m, nullable, k))
  {
    hide Normalized, NormalizedBelow, TakesNull;
    TouchesFew(order, s, nullable, "properties");
    PropertiesBelow(order, s, nullable);
  }

  lemma AdditionalAfter(order: KeyOrder, s: Json, nullable: bool, o: Oracle, k: string)
    requires s.Obj? && Plain(s.m) && k !in Properties(s.m)
    ensures IsAdditional(o, Normalized(order, s, nullable).m, k) && IsAdditional(o, s.m, k)
  {
    hide Normalized, NormalizedBelow, Plain;
    PlainAbsent(s.m);
    PropertiesAfter(order, s, nullable);
    PatternsAfter(order, s, nullable);
  }

  lemma PatternsAfter(order: KeyOrder, s: Json, nullable: bool)
    requires s.Obj? && "patternProperties" !in s.m
    ensures "patternProperties" !in Normalized(order, s, nullable).m
  {
    hide NormalizedAt, Loose;
  }

  lemma PropertyApplied(fuel: nat, d: Context, t: Json, v: Json, k: string)
    requires t.Obj? && v.Obj? && MembersOk(fuel, d, t, v) && k in Properties(t.m) && k in v.m
    ensures Accepts(fuel, d, Properties(t.m)[k], v.m[k])
  {
    hide Accepts, IsAdditional;
  }

  lemma ItemsAfter(order: KeyOrder, s: Json, nullable: bool)
    requires s.Obj? && "items" in s.m
    ensures Get(Normalized(order, s, nullable).m, "items") == Some(Normalized(order, s.m["items"], false))
  {
    hide Normalized, NormalizedBelow;
    TouchesFew(order, s, nullable, "items");
    ItemsNormalized(order, s, nullable);
  }

  lemma ItemsNormalized(order: KeyOrder, s: Json, nullable: bool)
    requires s.Obj? && "items" in s.m
    ensures Get(NormalizedBelow(order, s, nullable), "items") == Some(Normalized(order, s.m["items"], false))
  {
    hide Normalized;
    PropertiesKey();
  }

  lemma PrefixAfter(order: KeyOrder, s: Json, nullable: bool)
    requires s.Obj? && "prefixItems" !in s.m
    ensures "prefixItems" !in Normalized(order, s, nullable).m
  {
    hide NormalizedAt, Loose;
  }

  // An untyped property that was made to take null takes nothing else.
  lemma UntypedTakesNull(order: KeyOrder, fuel: nat, d: Context, s: Json, v: Json)
    requires s.Obj? && Plain(s.m) && !Typed(s.m) && LogicOk(fuel, d, Normalized(order, s, true), v)
    ensures v.Null?
  {
    hide Plain, NormalizedAt, MembersOk, ElementsOk, RefsOk;
    PlainAbsent(s.m);
    TypeElsewhere();
    BelowKeepsValues(order, s, true, "type");
    var h := NormalizedBelow(order, s, true) - {"$schema"};
    assert Get(h, "type") == Get(s.m, "type") && "anyOf" !in h;
    var t := Normalized(order, s, true);
    assert t.m["anyOf"] == Arr([NULL_SCHEMA]);
    NullSchema(fuel, d, v);
  }

  lemma NullSchema(fuel: nat, d: Context, v: Json)
    ensures Accepts(fuel, d, NULL_SCHEMA, v) ==> v.Null?
  {
    hide MembersOk, ElementsOk, LogicOk, RefsOk;
    var f: Fields := NULL_SCHEMA.m;
    assert TypeSet(Get(f, "type")) == {"null"};
    NullOnly(v);
  }

  lemma {:induction false} MembersRefine(order: KeyOrder, fuel: nat, c: Context, d: Context, s: Json, nullable: bool, v: Json)
    requires s.Obj? && ListsKeys(order) && Covered(s, nullable) && DeclaredBelow(s, nullable, v) && c.oracle == d.oracle && MembersOk(fuel, d, Normalized(order, s, nullable), v)
    ensures MembersOk(fuel, c, s, Erased(s, nullable, v))
    decreases s, 0
  {
    hide Accepts, Normalized, Loose, ListsKeys, IsAdditional, Plain, DeclaredBelow;
    PlainAbsent(s.m);
    var w := Erased(s, nullable, v);
    SameKind(s, nullable, v, "");
    if v.Obj? {
      forall k | k in Properties(s.m) && k in w.m ensures Accepts(fuel, c, Properties(s.m)[k], w.m[k]) {
        MemberRefines(order, fuel, c, d, s, nullable, v, k);
      }
      if "additionalProperties" in s.m {
        forall k | k in w.m && IsAdditional(c.oracle, s.m, k) ensures Accepts(fuel, c, s.m["additionalProperties"], w.m[k]) {
          AdditionalUndeclared(c.oracle, s.m, k);
          AdditionalRefines(order, fuel, c, d, s, nullable, v, k);
        }
      }
    }
  }

  lemma AdditionalUndeclared(o: Oracle, f: Fields, k: string)
    requires IsAdditional(o, f, k)
    ensures k !in Properties(f)
  {
  }

  lemma {:induction false} MemberRefines(order: KeyOrder, fuel: nat, c: Context, d: Context, s: Json, nullable: bool, v: Json, k: string)
    requires s.Obj? && v.Obj? && ListsKeys(order) && Covered(s, nullable) && DeclaredBelow(s, nullable, v) && c.oracle == d.oracle && MembersOk(fuel, d, Normalized(order, s, nullable), v)
    requires k in Properties(s.m) && k in Erased(s, nullable, v).m
    ensures Accepts(fuel, c, Properties(s.m)[k], Erased(s, nullable, v).m[k])
    decreases s, 0, 0
  {
    hide Accepts, Normalized, Loose, ListsKeys, MembersOk, Plain, Declared;
    var t := Normalized(order, s, nullable);
    PropertiesAfter(order, s, nullable);
    PropertyApplied(fuel, d, t, v, k);
    var flag := TakesNull(s.m, nullable, k);
    assert !Dropped(s.m, nullable, v.m, k);
    RefinesExactly(order, fuel, c, d, Properties(s.m)[k], flag, v.m[k]);
  }

  lemma {:induction false} ElementsRefine(order: KeyOrder, fuel: nat, c: Context, d: Context, s: Json, nullable: bool, v: Json)
    requires s.Obj? && ListsKeys(order) && Covered(s, nullable) && DeclaredBelow(s, nullable, v) && c.oracle == d.oracle && ElementsOk(fuel, d, Normalized(order, s, nullable), v)
    ensures ElementsOk(fuel, c, s, Erased(s, nullable, v))
    decreases s, 0
  {
    hide Accepts, Normalized, Loose, ListsKeys, Plain, Declared;
    PlainAbsent(s.m);
    SameKind(s, nullable, v, "");
    if v.Arr? && "items" in s.m {
      ItemsAfter(order, s, nullable);
      PrefixAfter(order, s, nullable);
      var t := Normalized(order, s, nullable);
      assert t.m["items"] == Normalized(order, s.m["items"], false);
      forall i | 0 <= i < |v.items| ensures Accepts(fuel, c, s.m["items"], Erased(s.m["items"], false, v.items[i])) {
        assert Accepts(fuel, d, t.m["items"], v.items[i]);
        RefinesExactly(order, fuel, c, d, s.m["items"], false, v.items[i]);
      }
    }
  }

  lemma PlainLogic(fuel: nat, c: Context, s: Json, v: Json)
    requires s.Obj? && Plain(s.m)
    ensures LogicOk(fuel, c, s, v) && RefsOk(fuel, c, s, v)
  {
    hide Plain, Accepts, ReferenceOk;
    PlainAbsent(s.m);
  }

  // What a normalized schema accepts, other than a null it was made to take, is accepted by the source once erased,
  // exactly when its objects stand under declared requirements.
  lemma {:induction false} RefinesExactly(order: KeyOrder, fuel: nat, c: Context, d: Context, s: Json, nullable: bool, v: Json)
    requires ListsKeys(order) && Covered(s, nullable) && c.oracle == d.oracle
    requires Accepts(fuel, d, Normalized(order, s, nullable), v) && !(nullable && v.Null?)
    ensures Accepts(fuel, c, s, Erased(s, nullable, v)) <==> Declared(s, nullable, v)
    decreases s, 2
  {
    hide LocalOk, MembersOk, ElementsOk, LogicOk, RefsOk, Normalized, Erased, ListsKeys, Plain, DeclaredHere, DeclaredBelow;
    if s.Obj? {
      if Declared(s, nullable, v) {
        RequiredHolds(order, c.oracle, s, nullable, v);
        RequiredRefines(order, s, nullable, v);
        RefinesAside(order, fuel, c, d, s, nullable, v);
      } else if v.Obj? && !DeclaredHere(s, nullable) {
        UndeclaredRejected(order, fuel, c, d, s, nullable, v);
      } else {
        if Accepts(fuel, c, s, Erased(s, nullable, v)) { BelowDeclared(order, fuel, c, d, s, nullable, v); }
      }
    } else {
      OtherwiseSame(order, s, nullable, v);
      NotAnObject(fuel, c, d, s, v);
    }
  }

  lemma UndeclaredRejected(order: KeyOrder, fuel: nat, c: Context, d: Context, s: Json, nullable: bool, v: Json)
    requires ListsKeys(order) && s.Obj? && Covered(s, nullable) && v.Obj? && !DeclaredHere(s, nullable)
    requires Accepts(fuel, d, Normalized(order, s, nullable), v)
    ensures !Accepts(fuel, c, s, Erased(s, nullable, v))
  {
    hide Accepts, Normalized, Erased, ListsKeys, Plain, Loose;
    var k :| k in Required(s.m) && k !in Properties(s.m);
    UndeclaredAbsent(order, fuel, d, s, v, k);
    MissingRequired(fuel, c, s, v, k);
  }

  // Parts that the source accepts have their objects under declared requirements.
  lemma {:induction false} BelowDeclared(order: KeyOrder, fuel: nat, c: Context, d: Context, s: Json, nullable: bool, v: Json)
    requires ListsKeys(order) && s.Obj? && Covered(s, nullable) && c.oracle == d.oracle
    requires Accepts(fuel, d, Normalized(order, s, nullable), v) && Accepts(fuel, c, s, Erased(s, nullable, v))
    ensures DeclaredBelow(s, nullable, v)
    decreases s, 1
  {
    hide Accepts, Normalized, ListsKeys, Plain, Declared, TakesNull, Dropped;
    PlainAbsent(s.m);
    var t, w := Normalized(order, s, nullable), Erased(s, nullable, v);
    PartsAccepted(fuel, d, t, v);
    PartsAccepted(fuel, c, s, w);
    if v.Obj? {
      PropertiesAfter(order, s, nullable);
      forall k | k in Properties(s.m) && k in v.m && !Dropped(s.m, nullable, v.m, k)
        ensures Declared(Properties(s.m)[k], TakesNull(s.m, nullable, k), v.m[k])
      {
        NotDroppedNull(s.m, nullable, v.m, k);
        ErasedMember(s, nullable, v, k);
        PropertyApplied(fuel, d, t, v, k);
        PropertyApplied(fuel, c, s, w, k);
        RefinesExactly(order, fuel, c, d, Properties(s.m)[k], TakesNull(s.m, nullable, k), v.m[k]);
      }
    } else if v.Arr? && "items" in s.m {
      ItemsAfter(order, s, nullable);
      PrefixAfter(order, s, nullable);
      forall i | 0 <= i < |v.items| ensures Declared(s.m["items"], false, v.items[i]) {
        ElementApplied(fuel, d, t, v, i);
        ElementApplied(fuel, c, s, w, i);
        RefinesExactly(order, fuel, c, d, s.m["items"], false, v.items[i]);
      }
    }
  }

  lemma PartsAccepted(fuel: nat, c: Context, s: Json, v: Json)
    requires s.Obj? && Accepts(fuel, c, s, v)
    ensures MembersOk(fuel, c, s, v) && ElementsOk(fuel, c, s, v)
  {
    hide LocalOk, MembersOk, ElementsOk, LogicOk, RefsOk;
  }

  lemma NotDroppedNull(f: Fields, nullable: bool, m: Fields, k: string)
    requires k in m && !Dropped(f, nullable, m, k)
    ensures !(TakesNull(f, nullable, k) && m[k].Null?)
  {
  }

  lemma ErasedMember(s: Json, nullable: bool, v: Json, k: string)
    requires s.Obj? && v.Obj? && k in Properties(s.m) && k in v.m && !Dropped(s.m, nullable, v.m, k)
    ensures var w := Erased(s, nullable, v); w.Obj? && k in w.m && w.m[k] == Erased(Properties(s.m)[k], TakesNull(s.m, nullable, k), v.m[k])
  {
    hide TakesNull, Dropped;
  }

  lemma ElementApplied(fuel: nat, c: Context, s: Json, v: Json, i: nat)
    requires s.Obj? && v.Arr? && ElementsOk(fuel, c, s, v) && "prefixItems" !in s.m && "items" in s.m && i < |v.items|
    ensures Accepts(fuel, c, s.m["items"], v.items[i])
  {
    hide Accepts;
  }

  // So, where every required name is declared, normalizing refines the source.
  lemma Refines(order: KeyOrder, fuel: nat, c: Context, d: Context, s: Json, nullable: bool, v: Json)
    requires ListsKeys(order) && Covered(s, nullable) && DeclaredThroughout(s, nullable) && c.oracle == d.oracle
    requires Accepts(fuel, d, Normalized(order, s, nullable), v) && !(nullable && v.Null?)
    ensures Accepts(fuel, c, s, Erased(s, nullable, v))
  {
    hide Accepts, Normalized, Erased, ListsKeys, Covered, Declared, DeclaredThroughout;
    ThroughoutIsDeclared(s, nullable, v);
    RefinesExactly(order, fuel, c, d, s, nullable, v);
  }

  lemma RequiredHolds(order: KeyOrder, o: Oracle, s: Json, nullable: bool, v: Json)
    requires s.Obj? && LocalOk(o, Normalized(order, s, nullable).m, v)
    ensures RequiredOk(Normalized(order, s, nullable).m, v)
  {
    hide TypeOk, EnumOk, BoundsOk, MultipleOk, PatternOk, FormatOk, Normalized, RequiredOk;
  }

  lemma OtherwiseSame(order: KeyOrder, s: Json, nullable: bool, v: Json)
    requires !s.Obj?
    ensures Normalized(order, s, nullable) == s && Erased(s, nullable, v) == v
  {
  }

  lemma NotAnObject(fuel: nat, c: Context, d: Context, s: Json, v: Json)
    requires !s.Obj?
    ensures Accepts(fuel, c, s, v) <==> Accepts(fuel, d, s, v)
  {
  }

  // The same, but for the required names.
  lemma {:induction false} RefinesAside(order: KeyOrder, fuel: nat, c: Context, d: Context, s: Json, nullable: bool, v: Json)
    requires s.Obj? && ListsKeys(order) && Covered(s, nullable) && c.oracle == d.oracle
    requires Accepts(fuel, d, Normalized(order, s, nullable), v) && !(nullable && v.Null?)
    requires RequiredOk(s.m, Erased(s, nullable, v)) && DeclaredBelow(s, nullable, v)
    ensures Accepts(fuel, c, s, Erased(s, nullable, v))
    decreases s, 1
  {
    hide LocalOk, MembersOk, ElementsOk, LogicOk, RefsOk, Normalized, Erased, ListsKeys, Plain, RequiredOk, DeclaredBelow, Typed;
    if nullable && !Typed(s.m) {
      UntypedTakesNull(order, fuel, d, s, v);
    } else {
      LocalRefines(order, c.oracle, s, nullable, v);
      MembersRefine(order, fuel, c, d, s, nullable, v);
      ElementsRefine(order, fuel, c, d, s, nullable, v);
      PlainLogic(fuel, c, s, Erased(s, nullable, v));
    }
  }

  // ----- Whole schemas -----

  // A name that is required but not declared is in no value of the closed object.
  lemma UndeclaredAbsent(order: KeyOrder, fuel: nat, d: Context, s: Json, v: Json, k: string)
    requires s.Obj? && Loose(s.m) && Plain(s.m) && ListsKeys(order) && v.Obj? && Accepts(fuel, d, Normalized(order, s, false), v)
    requires k !in Properties(s.m)
    ensures k !in v.m
  {
    hide LocalOk, MembersOk, ElementsOk, LogicOk, RefsOk, Normalized, Plain, ListsKeys, Loose, IsAdditional;
    var t := Normalized(order, s, false);
    if k in v.m {
      AdditionalAfter(order, s, false, d.oracle, k);
      ClosedAfter(order, s, false);
      AdditionalApplied(fuel, d, t, v, k);
      FalseAccepts(fuel, d, v.m[k]);
    }
  }

  // Normalizing refines the source exactly where the names it requires are declared: of each accepted value, the erased
  // form is accepted by the source if its objects stand under schemas that declare them, and rejected if one does not.
  lemma RefinesExactlyWhenDeclared(order: KeyOrder, o: Oracle, s: Json, fuel: nat, v: Json)
    requires ListsKeys(order) && Covered(s, false) && Valid(fuel, o, Normalized(order, s, false), v)
    ensures Valid(fuel, o, s, Erased(s, false, v)) <==> Declared(s, false, v)
  {
    hide Accepts, Normalized, Erased, ListsKeys, Covered, DefsOf, Declared;
    RefinesExactly(order, fuel, ContextOf(s, o), ContextOf(Normalized(order, s, false), o), s, false, v);
  }

  lemma MissingRequired(fuel: nat, c: Context, s: Json, v: Json, k: string)
    requires s.Obj? && v.Obj? && k in Required(s.m) && k !in v.m
    ensures !Accepts(fuel, c, s, Erased(s, false, v))
  {
    hide TypeOk, EnumOk, ConstOk, BoundsOk, MultipleOk, PatternOk, FormatOk, OtherOk, MembersOk, ElementsOk, LogicOk, RefsOk;
    assert k !in Erased(s, false, v).m;
  }

  // An object that requires a name it does not declare: the normalized form accepts {}, which the source rejects.
  lemma UndeclaredRequirement(order: KeyOrder, o: Oracle)
    requires ListsKeys(order)
    ensures var s := Obj(map["type" := Str("object"), "required" := Arr([Str("a")])]);
      && Valid(0, o, Normalized(order, s, false), Obj(map[])) && !Valid(0, o, s, Obj(map[]))
  {
    hide Accepts, Normalized, ListsKeys;
    var s := Obj(map["type" := Str("object"), "required" := Arr([Str("a")])]);
    UndeclaredSource(0, ContextOf(s, o), s);
    UndeclaredTarget(order, 0, o, s);
  }

  lemma UndeclaredSource(fuel: nat, c: Context, s: Json)
    requires s == Obj(map["type" := Str("object"), "required" := Arr([Str("a")])])
    ensures !Accepts(fuel, c, s, Obj(map[]))
  {
    hide TypeOk, EnumOk, ConstOk, BoundsOk, MultipleOk, PatternOk, FormatOk, OtherOk, MembersOk, ElementsOk, LogicOk, RefsOk;
    assert ItemsAt(s.m, "required")[0] == Str("a");
    assert "a" in StringsIn(ItemsAt(s.m, "required"));
  }

  lemma UndeclaredTarget(order: KeyOrder, fuel: nat, o: Oracle, s: Json)
    requires ListsKeys(order) && s == Obj(map["type" := Str("object"), "required" := Arr([Str("a")])])
    ensures Valid(fuel, o, Normalized(order, s, false), Obj(map[]))
  {
    hide MembersOk, ElementsOk, LogicOk, RefsOk, LocalOk, ListsKeys;
    var t := Normalized(order, s, false);
    NoNames(order, s.m);
    assert NormalizedBelow(order, s, false) - {"$schema"} == s.m by { BelowSame(order, s); }
    assert t.m == map["type" := Str("object"), "required" := Arr([]), "additionalProperties" := Bool(false)];
    EmptyObjectAccepted(fuel, ContextOf(t, o), t);
  }

  lemma NoNames(order: KeyOrder, f: Fields)
    requires ListsKeys(order) && Properties(f) == map[]
    ensures Strings(order(Properties(f))) == []
  {
    if |order(Properties(f))| > 0 { SomeName(order(Properties(f))); }
  }

  lemma SomeName(names: seq<string>)
    requires |names| > 0
    ensures exists k :: k in names
  {
    assert names[0] in names;
  }

  lemma BelowSame(order: KeyOrder, s: Json)
    requires s == Obj(map["type" := Str("object"), "required" := Arr([Str("a")])])
    ensures NormalizedBelow(order, s, false) == s.m && "$schema" !in s.m
  {
    TypeElsewhere();
    hide IsSingle, IsList, IsMap;
  }

  lemma EmptyObjectAccepted(fuel: nat, c: Context, t: Json)
    requires t == Obj(map["type" := Str("object"), "required" := Arr([]), "additionalProperties" := Bool(false)])
    ensures Accepts(fuel, c, t, Obj(map[]))
  {
    hide LocalOk, MembersOk, ElementsOk, LogicOk, RefsOk;
    EmptyObjectLocal(c.oracle, t.m);
    EmptyObjectBelow(fuel, c, t);
  }

  lemma EmptyObjectLocal(o: Oracle, f: Fields)
    requires f == map["type" := Str("object"), "required" := Arr([]), "additionalProperties" := Bool(false)]
    ensures LocalOk(o, f, Obj(map[]))
  {
    hide BoundsOk, TypeOk, Rest;
    ObjectTyped(f, Obj(map[]));
    EmptyBounds(f);
    EmptyRest(f);
  }

  lemma EmptyObjectBelow(fuel: nat, c: Context, t: Json)
    requires t == Obj(map["type" := Str("object"), "required" := Arr([]), "additionalProperties" := Bool(false)])
    ensures var v := Obj(map[]); MembersOk(fuel, c, t, v) && ElementsOk(fuel, c, t, v) && LogicOk(fuel, c, t, v) && RefsOk(fuel, c, t, v)
  {
    hide Accepts, ReferenceOk, IsAdditional;
  }

  lemma ObjectTyped(f: Fields, v: Json)
    requires Get(f, "type") == Some(Str("object")) && v.Obj?
    ensures TypeOk(f, v)
  {
    assert "object" in TypeSet(Get(f, "type")) && HasType("object", v);
  }

  lemma EmptyBounds(f: Fields)
    requires "minProperties" !in f && "maxProperties" !in f
    ensures BoundsOk(f, Obj(map[]))
  {
  }

  lemma EmptyRest(f: Fields)
    requires f.Keys == {"type", "required", "additionalProperties"}
    ensures Rest(f) == map[]
  {
  }
}
