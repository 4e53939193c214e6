/**
 What the compiler reports while it walks a schema: issues that block a declaration and
 transformations it applied, each with the pointer it was found at.
 */
module CompilerFindings {
  import opened Common
  import opened JsonSchema
  import opened SchemaRewrites
  import Pointers

  datatype Code = BooleanUnsupported | KeywordUnsupported | FormatUnsupported | ReferenceUnsupported | StrictPolicyRequired
                | NameUnsupported | SchemaInvalid
  datatype Transform = ConstToSingleton | DropDialect | GoogleReference | GoogleNullable | OptionalNullable | CloseObject
  datatype Semantics = Lossless | PolicyAuthorized
  datatype Finding = Issue(path: string, code: Code) | Transformed(path: string, id: Transform, semantics: Semantics)

  const OPENAI_SUPPORTED: set<string> :=
    {"$defs", "$ref", "additionalProperties", "anyOf", "description", "enum", "exclusiveMaximum", "exclusiveMinimum", "format", "items",
     "maxItems", "maximum", "minItems", "minimum", "multipleOf", "pattern", "properties", "required", "type"}
  const OPENAI_FORMATS: set<string> := {"date-time", "time", "date", "duration", "email", "hostname", "ipv4", "ipv6", "uuid"}
  const GOOGLE_SUPPORTED: set<string> :=
    {"anyOf", "defs", "description", "enum", "format", "items", "nullable", "properties", "ref", "required", "type"}

  function Pointer(path: string, key: string): string {
    if path == "/" then "/" + Pointers.Escape(key) else path + "/" + Pointers.Escape(key)
  }

  function AppendRelative(path: string, relative: string): string {
    if path == "/" then "/" + relative else path + "/" + relative
  }

  // A schema below another, and where.
  datatype Child = Child(relative: string, schema: Json)

  function Children(s: Json): (r: set<Child>)
    requires s.Obj?
    ensures forall c :: c in r ==> c.schema < s
  {
    (set key | key in s.m && IsSingle(key) :: Child(key, s.m[key]))
    + (set key, i | key in s.m && IsList(key) && s.m[key].Arr? && 0 <= i < |s.m[key].items| ::
         Child(key + "/" + Pointers.Decimal(i), s.m[key].items[i]))
    + (set key, k | key in s.m && IsMap(key) && s.m[key].Obj? && k in s.m[key].m ::
         Child(key + "/" + Pointers.Escape(k), s.m[key].m[k]))
  }

  function When(condition: bool, finding: Finding): set<Finding> {
    if condition then {finding} else {}
  }

  // ----- Findings at one schema -----

  function ConstFindings(f: Fields, path: string): set<Finding> {
    When("const" in f && "enum" !in f, Transformed(Pointer(path, "const"), ConstToSingleton, Lossless))
  }

  predicate ReferenceElsewhere(f: Fields) {
    "$ref" in f && f["$ref"].Str? && DefinitionToken(DEFS_PREFIX, f["$ref"].s).None?
  }

  predicate ReferenceLocal(f: Fields) {
    "$ref" in f && f["$ref"].Str? && DefinitionToken(DEFS_PREFIX, f["$ref"].s).Some?
  }

  function GoogleFindings(f: Fields, path: string): set<Finding> {
    When("$schema" in f, Transformed(Pointer(path, "$schema"), DropDialect, Lossless))
    + When("$defs" in f, Transformed(Pointer(path, "$defs"), GoogleReference, Lossless))
    + When(ReferenceElsewhere(f), Issue(Pointer(path, "$ref"), ReferenceUnsupported))
    + When(ReferenceLocal(f), Transformed(Pointer(path, "$ref"), GoogleReference, Lossless))
    + When(NullableType(f).Some?, Transformed(Pointer(path, "type"), GoogleNullable, Lossless))
    + (set key | key in Local(GooglePass, f) && key !in GOOGLE_SUPPORTED :: Issue(Pointer(path, key), KeywordUnsupported))
  }

  // The OpenAI keywords, before anything is said about strictness.
  function OpenAiKeywords(f: Fields, path: string): set<Finding> {
    When("$schema" in f, Transformed(Pointer(path, "$schema"), DropDialect, Lossless))
    + (set key | key in f && key != "$schema" && key !in OPENAI_SUPPORTED :: Issue(Pointer(path, key), KeywordUnsupported))
    + When("format" in f && f["format"].Str? && f["format"].s !in OPENAI_FORMATS, Issue(Pointer(path, "format"), FormatUnsupported))
  }

  function Required(f: Fields): set<string> {
    StringsIn(ItemsAt(f, "required"))
  }

  function Optional(f: Fields): set<string> {
    FieldsAt(f, "properties").Keys - Required(f)
  }

  predicate NeedsClose(f: Fields) {
    Get(f, "additionalProperties") != Some(Bool(false))
  }

  // An object that is not strict: some property may be left out, or others may be added.
  predicate Loose(f: Fields) {
    Get(f, "type") == Some(Str("object")) && (Optional(f) != {} || NeedsClose(f))
  }

  function OpenAiFindings(f: Fields, path: string): set<Finding> {
    OpenAiKeywords(f, path) + When(Loose(f), Issue(path, StrictPolicyRequired))
  }

  // ----- Findings of a walk -----

  function Own(pass: Pass, f: Fields, path: string): set<Finding> {
    match pass
    case ConstPass => ConstFindings(f, path)
    case DropPass => OpenAiFindings(f, path)
    case GooglePass => GoogleFindings(f, path)
  }

  // The place of a child after the pass has renamed the keywords of its parent.
  function Place(pass: Pass, relative: string): string {
    if pass == GooglePass && |relative| >= 6 && relative[..6] == "$defs/" then relative[1..] else relative
  }

  function Findings(pass: Pass, s: Json, path: string): set<Finding>
    decreases s
  {
    if s.Obj? then
      Own(pass, s.m, path)
      + set c, n | c in Children(s) && n in Findings(pass, c.schema, AppendRelative(path, Place(pass, c.relative))) :: n
    else When(s.Bool? && pass != ConstPass, Issue(path, BooleanUnsupported))
  }

  ghost predicate NoIssues(findings: set<Finding>) {
    forall n :: n in findings ==> !n.Issue?
  }

  ghost predicate NoBlockers(findings: set<Finding>) {
    forall n :: n in findings && n.Issue? ==> n.code == StrictPolicyRequired
  }

  ghost predicate NoTransforms(findings: set<Finding>) {
    forall n :: n in findings ==> !n.Transformed?
  }

  lemma ChildFindings(pass: Pass, s: Json, path: string, c: Child)
    requires s.Obj? && c in Children(s)
    ensures Findings(pass, c.schema, AppendRelative(path, Place(pass, c.relative))) <= Findings(pass, s, path)
    ensures Own(pass, s.m, path) <= Findings(pass, s, path)
  {
    hide Own, Children;
  }

  lemma OwnFindings(pass: Pass, s: Json, path: string)
    requires s.Obj?
    ensures Own(pass, s.m, path) <= Findings(pass, s, path)
  {
    hide Own, Children;
  }

  lemma SingleIsChild(s: Json, key: string)
    requires s.Obj? && key in s.m && IsSingle(key)
    ensures Child(key, s.m[key]) in Children(s)
  {
    hide IsSingle, IsList, IsMap;
  }

  lemma ItemIsChild(s: Json, key: string, i: nat)
    requires s.Obj? && key in s.m && IsList(key) && s.m[key].Arr? && i < |s.m[key].items|
    ensures Child(key + "/" + Pointers.Decimal(i), s.m[key].items[i]) in Children(s)
  {
    hide IsSingle, IsList, IsMap;
  }

  lemma MemberIsChild(s: Json, key: string, k: string)
    requires s.Obj? && key in s.m && IsMap(key) && s.m[key].Obj? && k in s.m[key].m
    ensures Child(key + "/" + Pointers.Escape(k), s.m[key].m[k]) in Children(s)
  {
    hide IsSingle, IsList, IsMap;
  }

  // ----- No transformation, no change -----

  lemma NoLocalTransform(pass: Pass, f: Fields, path: string)
    requires NoTransforms(Own(pass, f, path))
    ensures Local(pass, f) == f
  {
    hide ConstFindings, OpenAiFindings, GoogleFindings, NoTransforms, Local;
    match pass
    case ConstPass => ConstReported(f, path);
    case DropPass => DialectKept(f, path);
    case GooglePass => GoogleReported(f, path);
  }

  lemma ConstReported(f: Fields, path: string)
    requires NoTransforms(ConstFindings(f, path))
    ensures Local(ConstPass, f) == f
  {
    assert "const" in f && "enum" !in f ==> Transformed(Pointer(path, "const"), ConstToSingleton, Lossless) in ConstFindings(f, path);
  }

  lemma DialectKept(f: Fields, path: string)
    requires NoTransforms(OpenAiFindings(f, path))
    ensures Local(DropPass, f) == f
  {
    hide OpenAiKeywords;
    if "$schema" in f { DialectReported(f, path); }
  }

  lemma DialectReported(f: Fields, path: string)
    requires "$schema" in f
    ensures Transformed(Pointer(path, "$schema"), DropDialect, Lossless) in OpenAiKeywords(f, path)
  {
  }

  lemma GoogleReported(f: Fields, path: string)
    requires NoTransforms(GoogleFindings(f, path))
    ensures Local(GooglePass, f) == f
  {
    hide DefinitionToken, NullableType, NoTransforms, GoogleFindings;
    GoogleAbsent(f, path);
    assert f - {"$schema"} == f;
    assert RenameDefinitions(f) == f && RenameReference(f) == f;
  }

  lemma GoogleAbsent(f: Fields, path: string)
    requires NoTransforms(GoogleFindings(f, path))
    ensures "$schema" !in f && "$defs" !in f && !ReferenceLocal(f) && NullableType(f).None?
  {
    hide DefinitionToken, NullableType, Pointer, ReferenceLocal, ReferenceElsewhere, Local;
    var all := GoogleFindings(f, path);
    assert "$schema" in f ==> Transformed(Pointer(path, "$schema"), DropDialect, Lossless) in all;
    assert "$defs" in f ==> Transformed(Pointer(path, "$defs"), GoogleReference, Lossless) in all;
    assert ReferenceLocal(f) ==> Transformed(Pointer(path, "$ref"), GoogleReference, Lossless) in all;
    assert NullableType(f).Some? ==> Transformed(Pointer(path, "type"), GoogleNullable, Lossless) in all;
  }

  // A pass that reports no transformation has left the schema as it was.
  lemma {:induction false} NoTransformNoChange(pass: Pass, s: Json, path: string)
    requires NoTransforms(Findings(pass, s, path))
    ensures Rewritten(pass, s) == s
    decreases s, 1
  {
    hide Findings, Local, Below, Own, NoTransforms;
    if s.Obj? {
      BelowKeys(pass, s);
      forall key | key in s.m ensures Below(pass, s)[key] == s.m[key] {
        NoTransformAt(pass, s, path, key);
        BelowAt(pass, s, key);
      }
      assert Below(pass, s) == s.m;
      OwnNone(pass, s, path);
      NoLocalTransform(pass, s.m, path);
    }
  }

  lemma OwnNone(pass: Pass, s: Json, path: string)
    requires s.Obj? && NoTransforms(Findings(pass, s, path))
    ensures NoTransforms(Own(pass, s.m, path))
  {
    hide Findings, Own;
    OwnFindings(pass, s, path);
  }

  lemma BelowAt(pass: Pass, s: Json, key: string)
    requires s.Obj? && key in s.m
    ensures key in Below(pass, s) && Below(pass, s)[key] == RewrittenAt(pass, s, key)
  {
  }

  lemma BelowKeys(pass: Pass, s: Json)
    requires s.Obj?
    ensures Below(pass, s).Keys == s.m.Keys
  {
  }

  lemma ChildUnchanged(pass: Pass, s: Json, path: string, c: Child)
    requires s.Obj? && c in Children(s) && NoTransforms(Findings(pass, s, path))
    ensures NoTransforms(Findings(pass, c.schema, AppendRelative(path, Place(pass, c.relative))))
  {
    hide Findings, Children;
    ChildFindings(pass, s, path, c);
  }

  lemma {:induction false} NoTransformAt(pass: Pass, s: Json, path: string, key: string)
    requires s.Obj? && key in s.m && NoTransforms(Findings(pass, s, path))
    ensures RewrittenAt(pass, s, key) == s.m[key]
    decreases s, 0
  {
    hide Findings, IsSingle, IsList, IsMap, Rewritten, Children, NoTransforms;
    if IsSingle(key) {
      SingleIsChild(s, key);
      Descend(pass, s, path, Child(key, s.m[key]));
    } else if IsList(key) && s.m[key].Arr? {
      forall i | 0 <= i < |s.m[key].items| ensures Rewritten(pass, s.m[key].items[i]) == s.m[key].items[i] {
        ItemIsChild(s, key, i);
        Descend(pass, s, path, Child(key + "/" + Pointers.Decimal(i), s.m[key].items[i]));
      }
      assert RewrittenAt(pass, s, key).items == s.m[key].items;
    } else if IsMap(key) && s.m[key].Obj? {
      forall k | k in s.m[key].m ensures Rewritten(pass, s.m[key].m[k]) == s.m[key].m[k] {
        MemberIsChild(s, key, k);
        Descend(pass, s, path, Child(key + "/" + Pointers.Escape(k), s.m[key].m[k]));
      }
      assert RewrittenAt(pass, s, key).m == s.m[key].m;
    }
  }

  lemma {:induction false} Descend(pass: Pass, s: Json, path: string, c: Child)
    requires s.Obj? && c in Children(s) && NoTransforms(Findings(pass, s, path))
    ensures Rewritten(pass, c.schema) == c.schema
    decreases s, 0, 0
  {
    hide Findings, Rewritten, NoTransforms;
    ChildUnchanged(pass, s, path, c);
    NoTransformNoChange(pass, c.schema, AppendRelative(path, Place(pass, c.relative)));
  }

  // ----- Only supported keywords -----

  // Every schema in it, that for additional members included, is an object that uses no other keywords; members may
  // also be allowed or forbidden altogether.
  ghost predicate OnlySupported(keywords: set<string>, s: Json)
    decreases s
  {
    s.Obj? && s.m.Keys <= keywords && AdditionalHere(keywords, s) && forall c :: c in Children(s) ==> OnlySupported(keywords, c.schema)
  }

  ghost predicate AdditionalHere(keywords: set<string>, s: Json)
    requires s.Obj?
    decreases s, 0
  {
    "additionalProperties" in s.m ==> s.m["additionalProperties"].Bool? || OnlySupported(keywords, s.m["additionalProperties"])
  }

  // At each schema that the walk visits, the one for additional members uses no other keywords.
  ghost predicate AdditionalSupported(keywords: set<string>, s: Json)
    decreases s
  {
    s.Obj? ==> AdditionalHere(keywords, s) && forall c :: c in Children(s) ==> AdditionalSupported(keywords, c.schema)
  }

  // The schemas below a rewritten schema are the rewritten schemas below the original.
  lemma ChildRewritten(pass: Pass, s: Json, c: Child) returns (q: Child)
    requires s.Obj? && Strict(s) && c in Children(Rewritten(pass, s))
    ensures q in Children(s) && c.schema == Rewritten(pass, q.schema)
  {
    hide IsSingle, IsList, IsMap, Rewritten, Local, Below, Children;
    RootRewritten(pass, s);
    var t := Rewritten(pass, s);
    var key := ChildKey(t, c);
    var from := KeyOrigin(pass, s, key);
    assert StrictAt(s, from);
    if IsList(key) { ListNotSingle(key); }
    if IsMap(key) { MapNotSingle(key); }
    if IsSingle(key) {
      SingleBelow(pass, s, from);
      SingleIsChild(s, from);
      q := Child(from, s.m[from]);
    } else if IsList(key) {
      var i :| 0 <= i < |t.m[key].items| && c.schema == t.m[key].items[i];
      ItemsBelow(pass, s, from);
      ItemIsChild(s, from, i);
      q := Child(from + "/" + Pointers.Decimal(i), s.m[from].items[i]);
    } else {
      FieldsBelow(pass, s, from);
      var k :| k in t.m[key].m && c.schema == t.m[key].m[k];
      MemberIsChild(s, from, k);
      q := Child(from + "/" + Pointers.Escape(k), s.m[from].m[k]);
    }
  }

  // The keyword of the original that a keyword of the rewritten schema comes from.
  lemma KeyOrigin(pass: Pass, s: Json, key: string) returns (from: string)
    requires s.Obj? && Strict(s) && key in Rewritten(pass, s).m && (IsSingle(key) || IsList(key) || IsMap(key))
    ensures from in s.m && from in Below(pass, s) && Below(pass, s)[from] == Rewritten(pass, s).m[key]
    ensures (IsSingle(from) <==> IsSingle(key)) && (IsList(from) <==> IsList(key)) && (IsMap(from) <==> IsMap(key))
  {
    hide IsSingle, IsList, IsMap, Rewritten, Local, Below;
    RootRewritten(pass, s);
    BelowKeys(pass, s);
    if key == "defs" || key == "$defs" {
      DefsAlike();
      DefinitionsOrigin(pass, Below(pass, s));
      from := "$defs";
    } else {
      LocalKeeps(pass, Below(pass, s), key);
      assert Get(Local(pass, Below(pass, s)), key) == Get(Below(pass, s), key);
      from := key;
    }
  }

  lemma DefsAlike()
    ensures IsMap("defs") && IsMap("$defs") && !IsSingle("defs") && !IsSingle("$defs") && !IsList("defs") && !IsList("$defs")
  {
  }

  lemma DefinitionsOrigin(pass: Pass, f: Fields)
    requires "defs" !in f
    ensures var g := Local(pass, f); forall key :: (key == "defs" || key == "$defs") && key in g ==> "$defs" in f && g[key] == f["$defs"]
  {
    hide NullableType, DefinitionToken;
  }

  ghost predicate Holds(t: Json, key: string, c: Child)
    requires t.Obj?
  {
    key in t.m &&
    ((IsSingle(key) && c.schema == t.m[key])
      || (IsList(key) && t.m[key].Arr? && exists i :: 0 <= i < |t.m[key].items| && c.schema == t.m[key].items[i])
      || (IsMap(key) && t.m[key].Obj? && exists k :: k in t.m[key].m && c.schema == t.m[key].m[k]))
  }

  lemma ChildKey(t: Json, c: Child) returns (key: string)
    requires t.Obj? && c in Children(t)
    ensures Holds(t, key, c)
  {
    hide IsSingle, IsList, IsMap;
    var at, i, k := ChildPlace(t, c);
    key := at;
  }

  // Where a schema below another is kept.
  lemma ChildPlace(t: Json, c: Child) returns (key: string, i: nat, k: string)
    requires t.Obj? && c in Children(t)
    ensures key in t.m
    ensures (IsSingle(key) && c == Child(key, t.m[key]))
      || (IsList(key) && t.m[key].Arr? && i < |t.m[key].items| && c == Child(key + "/" + Pointers.Decimal(i), t.m[key].items[i]))
      || (IsMap(key) && t.m[key].Obj? && k in t.m[key].m && c == Child(key + "/" + Pointers.Escape(k), t.m[key].m[k]))
  {
    hide IsSingle, IsList, IsMap;
    i, k := 0, "";
    if at :| at in t.m && IsSingle(at) && c == Child(at, t.m[at]) {
      key := at;
    } else if at, j: nat :| at in t.m && IsList(at) && t.m[at].Arr? && j < |t.m[at].items| && c == Child(at + "/" + Pointers.Decimal(j), t.m[at].items[j]) {
      key, i := at, j;
    } else {
      key, k :| key in t.m && IsMap(key) && t.m[key].Obj? && k in t.m[key].m && c == Child(key + "/" + Pointers.Escape(k), t.m[key].m[k]);
    }
  }

  function Keywords(pass: Pass): set<string> {
    if pass == GooglePass then GOOGLE_SUPPORTED else OPENAI_SUPPORTED
  }

  // The schemas below the original are, rewritten, the schemas below the rewritten one.
  lemma ChildAppears(pass: Pass, s: Json, q: Child) returns (c: Child)
    requires pass != GooglePass && s.Obj? && q in Children(s)
    ensures c in Children(Rewritten(pass, s)) && c.schema == Rewritten(pass, q.schema)
  {
    hide IsSingle, IsList, IsMap, Rewritten, Local, Below, Children;
    RootRewritten(pass, s);
    var t := Rewritten(pass, s);
    var key, i, k := ChildPlace(s, q);
    OtherPassesKeep(pass, Below(pass, s), key);
    BelowAt(pass, s, key);
    assert Get(t.m, key) == Some(Below(pass, s)[key]);
    if IsSingle(key) && q == Child(key, s.m[key]) {
      SingleBelow(pass, s, key);
      SingleIsChild(t, key);
      c := Child(key, t.m[key]);
    } else if IsList(key) && s.m[key].Arr? && i < |s.m[key].items| && q == Child(key + "/" + Pointers.Decimal(i), s.m[key].items[i]) {
      ItemsBelow(pass, s, key);
      ItemIsChild(t, key, i);
      c := Child(key + "/" + Pointers.Decimal(i), t.m[key].items[i]);
    } else {
      FieldsBelow(pass, s, key);
      MapBelow(pass, s, key);
      MemberIsChild(t, key, k);
      c := Child(key + "/" + Pointers.Escape(k), t.m[key].m[k]);
    }
  }

  lemma MapBelow(pass: Pass, s: Json, key: string)
    requires s.Obj? && key in s.m && IsMap(key) && s.m[key].Obj?
    ensures Below(pass, s)[key].Obj?
  {
    MapNotSingle(key);
    hide Rewritten;
  }

  lemma AdditionalStays(pass: Pass, s: Json)
    requires s.Obj?
    ensures Get(Rewritten(pass, s).m, "additionalProperties") == Get(s.m, "additionalProperties")
  {
    hide Rewritten, Local, Below, IsSingle, IsList, IsMap;
    RootRewritten(pass, s);
    AdditionalNotBelow(pass, s);
    LocalKeeps(pass, Below(pass, s), "additionalProperties");
  }

  // A schema with nothing to report uses only keywords the target knows, exactly when the schemas for additional members
  // do, which the walk does not visit; for Google they do not occur.
  lemma {:induction false} CleanIsSupported(pass: Pass, s: Json, path: string)
    requires pass != ConstPass && Strict(s) && NoIssues(Findings(pass, s, path))
    ensures OnlySupported(Keywords(pass), Rewritten(pass, s)) <==> AdditionalSupported(Keywords(pass), s)
    ensures pass == GooglePass ==> OnlySupported(Keywords(pass), Rewritten(pass, s))
    decreases s
  {
    hide Findings, Own, Rewritten, Local, Below, Children, Strict, NoIssues, Keywords, AdditionalHere;
    OwnSupported(pass, s, path);
    var t := Rewritten(pass, s);
    RootRewritten(pass, s);
    AdditionalStays(pass, s);
    SameAdditionalHere(Keywords(pass), s, t);
    forall q | q in Children(s)
      ensures OnlySupported(Keywords(pass), Rewritten(pass, q.schema)) <==> AdditionalSupported(Keywords(pass), q.schema)
      ensures pass == GooglePass ==> OnlySupported(Keywords(pass), Rewritten(pass, q.schema))
    {
      ChildStrict(s, q);
      ChildClean(pass, s, path, q);
      CleanIsSupported(pass, q.schema, AppendRelative(path, Place(pass, q.relative)));
    }
    if pass == GooglePass || AdditionalSupported(Keywords(pass), s) {
      forall c | c in Children(t) ensures OnlySupported(Keywords(pass), c.schema) {
        var q := ChildRewritten(pass, s, c);
      }
    }
    if pass == GooglePass {
      NoneUnvisited(s, path);
      NothingAdditional(Keywords(pass), s);
    } else if OnlySupported(Keywords(pass), t) {
      forall q | q in Children(s) ensures AdditionalSupported(Keywords(pass), q.schema) {
        var c := ChildAppears(pass, s, q);
      }
    }
  }

  // Replacing constants changes nothing about that.
  lemma {:induction false} ConstantsAside(keywords: set<string>, s: Json)
    requires Strict(s)
    ensures AdditionalSupported(keywords, Rewritten(ConstPass, s)) <==> AdditionalSupported(keywords, s)
    decreases s
  {
    hide Rewritten, Children, Strict, AdditionalHere;
    var t := Rewritten(ConstPass, s);
    if s.Obj? {
      RootRewritten(ConstPass, s);
      AdditionalStays(ConstPass, s);
      SameAdditionalHere(keywords, s, t);
      forall q | q in Children(s) ensures AdditionalSupported(keywords, Rewritten(ConstPass, q.schema)) <==> AdditionalSupported(keywords, q.schema) {
        ChildStrict(s, q);
        ConstantsAside(keywords, q.schema);
      }
      if AdditionalSupported(keywords, s) {
        forall c | c in Children(t) ensures AdditionalSupported(keywords, c.schema) {
          var q := ChildRewritten(ConstPass, s, c);
        }
      } else if AdditionalSupported(keywords, t) {
        forall q | q in Children(s) ensures AdditionalSupported(keywords, q.schema) {
          var c := ChildAppears(ConstPass, s, q);
        }
      }
    } else {
      Unchanged(ConstPass, s);
    }
  }

  lemma SameAdditionalHere(keywords: set<string>, s: Json, t: Json)
    requires s.Obj? && t.Obj? && Get(s.m, "additionalProperties") == Get(t.m, "additionalProperties")
    ensures AdditionalHere(keywords, s) <==> AdditionalHere(keywords, t)
  {
    hide OnlySupported;
  }

  lemma NothingAdditional(keywords: set<string>, s: Json)
    requires s.Obj? && forall key :: key in UNVISITED ==> key !in s.m
    ensures AdditionalHere(keywords, s)
  {
    hide OnlySupported;
    assert "additionalProperties" in UNVISITED;
  }

  lemma OwnSupported(pass: Pass, s: Json, path: string)
    requires pass != ConstPass && Strict(s) && NoIssues(Findings(pass, s, path))
    ensures s.Obj? && Local(pass, Below(pass, s)).Keys <= Keywords(pass)
  {
    hide Local, Children, Own;
    assert s.Bool? ==> Issue(path, BooleanUnsupported) in Findings(pass, s, path);
    OwnFindings(pass, s, path);
    forall key | key in Local(pass, s.m) ensures key in Keywords(pass) {
      if key !in Keywords(pass) { KeywordReported(pass, s.m, path, key); }
    }
    SameKeysAfter(pass, s);
  }

  lemma KeywordReported(pass: Pass, f: Fields, path: string, key: string)
    requires pass != ConstPass && key in Local(pass, f) && key !in Keywords(pass)
    ensures Issue(Pointer(path, key), KeywordUnsupported) in Own(pass, f, path)
  {
    hide Pointer, NullableType, ReferenceElsewhere, ReferenceLocal, RenameReference, RenameDefinitions, SpellNullable, Loose;
  }

  // Rewriting below changes none of the keywords that the pass looks at.
  lemma SameKeysAfter(pass: Pass, s: Json)
    requires pass != ConstPass && s.Obj?
    ensures Local(pass, Below(pass, s)).Keys == Local(pass, s.m).Keys
  {
    hide DefinitionToken, RewrittenAt, IsSingle, IsList, IsMap, NullableType;
    var h := Below(pass, s);
    BelowKeys(pass, s);
    if pass == GooglePass {
      ReferencesNotBelow(pass, s);
      TypeNotBelow(s);
      TypeNotRenamed(h);
      TypeNotRenamed(s.m);
    }
  }

  lemma TypeNotRenamed(f: Fields)
    ensures NullableType(RenameReference(RenameDefinitions(f - {"$schema"}))) == NullableType(f)
  {
    hide DefinitionToken;
    assert Get(RenameReference(RenameDefinitions(f - {"$schema"})), "type") == Get(f, "type");
    SameType(RenameReference(RenameDefinitions(f - {"$schema"})), f);
  }

  lemma SameType(f: Fields, g: Fields)
    requires Get(f, "type") == Get(g, "type")
    ensures NullableType(f) == NullableType(g)
  {
  }

  lemma ChildClean(pass: Pass, s: Json, path: string, c: Child)
    requires s.Obj? && c in Children(s) && NoIssues(Findings(pass, s, path))
    ensures NoIssues(Findings(pass, c.schema, AppendRelative(path, Place(pass, c.relative))))
  {
    hide Findings, Children;
    ChildFindings(pass, s, path, c);
  }

  lemma ChildStrict(s: Json, c: Child)
    requires s.Obj? && Strict(s) && c in Children(s)
    ensures Strict(c.schema)
  {
    hide IsSingle, IsList, IsMap, Children;
    var key := ChildKey(s, c);
    assert StrictAt(s, key);
  }

  // ----- References where the walk does not look -----

  lemma UnvisitedReported(s: Json, path: string, key: string)
    requires s.Obj? && key in s.m && key in UNVISITED
    ensures Issue(Pointer(path, key), KeywordUnsupported) in Findings(GooglePass, s, path)
  {
    hide Findings, Own;
    OwnFindings(GooglePass, s, path);
    UnvisitedKept(s.m, key);
    KeywordReported(GooglePass, s.m, path, key);
  }

  lemma UnvisitedKept(f: Fields, key: string)
    requires key in f && key in UNVISITED
    ensures key in Local(GooglePass, f) && key !in Keywords(GooglePass)
  {
    hide NullableType, DefinitionToken;
  }

  lemma NoneUnvisited(s: Json, path: string)
    requires s.Obj? && NoIssues(Findings(GooglePass, s, path))
    ensures forall key :: key in UNVISITED ==> key !in s.m
  {
    hide Findings;
    forall key | key in UNVISITED ensures key !in s.m {
      if key in s.m { UnvisitedReported(s, path, key); }
    }
  }

  // A schema with nothing to report for Google has no reference where the walk does not look: the keywords that hold
  // schemas but are no positions of the walk are reported wherever they stand.
  lemma {:induction false} CleanIsReached(s: Json, path: string)
    requires NoIssues(Findings(GooglePass, s, path))
    ensures Reached(s)
    decreases s, 1
  {
    hide Findings, ReachedAt, Unreferring;
    if s.Obj? {
      NoneUnvisited(s, path);
      forall key | key in s.m ensures ReachedAt(s, key) { CleanIsReachedAt(s, path, key); }
    }
  }

  lemma {:induction false} CleanIsReachedAt(s: Json, path: string, key: string)
    requires s.Obj? && key in s.m && NoIssues(Findings(GooglePass, s, path))
    ensures ReachedAt(s, key)
    decreases s, 0
  {
    hide Findings, NoIssues, Reached, IsSingle, IsList, IsMap, Children;
    if IsSingle(key) {
      SingleIsChild(s, key);
      CleanChildIsReached(s, path, Child(key, s.m[key]));
    }
    if IsList(key) && s.m[key].Arr? {
      forall i | 0 <= i < |s.m[key].items| ensures Reached(s.m[key].items[i]) {
        ItemIsChild(s, key, i);
        CleanChildIsReached(s, path, Child(key + "/" + Pointers.Decimal(i), s.m[key].items[i]));
      }
    }
    if IsMap(key) && s.m[key].Obj? {
      forall k | k in s.m[key].m ensures Reached(s.m[key].m[k]) {
        MemberIsChild(s, key, k);
        CleanChildIsReached(s, path, Child(key + "/" + Pointers.Escape(k), s.m[key].m[k]));
      }
    }
  }

  lemma {:induction false} CleanChildIsReached(s: Json, path: string, c: Child)
    requires s.Obj? && c in Children(s) && NoIssues(Findings(GooglePass, s, path))
    ensures Reached(c.schema)
    decreases s, 0, 0
  {
    hide Findings, NoIssues, Reached, Children;
    ChildClean(GooglePass, s, path, c);
    CleanIsReached(c.schema, AppendRelative(path, Place(GooglePass, c.relative)));
  }

  // An object schema with definitions, under either spelling, and a schema for its members.
  predicate MembersTyped(s: Json, members: Json) {
    && s.Obj? && s.m.Keys <= {"type", "$defs", "defs", "additionalProperties"}
    && Get(s.m, "type") == Some(Str("object")) && Get(s.m, "additionalProperties") == Some(members)
  }

  lemma MembersTypedAbsent(s: Json, members: Json)
    requires MembersTyped(s, members)
    ensures "enum" !in s.m && "const" !in s.m && "multipleOf" !in s.m && "pattern" !in s.m && "format" !in s.m && "required" !in s.m
    ensures "nullable" !in s.m && "properties" !in s.m && "patternProperties" !in s.m && "dependentSchemas" !in s.m && "not" !in s.m
    ensures "anyOf" !in s.m && "allOf" !in s.m && "oneOf" !in s.m && "if" !in s.m && "$ref" !in s.m && "ref" !in s.m
  {
  }

  lemma MembersTypedRest(s: Json, members: Json, v: Json)
    requires MembersTyped(s, members)
    ensures Rest(s.m) == map[] && BoundsOk(s.m, v)
  {
    hide Measure, WithinBound;
    var keys := {"type", "$defs", "defs", "additionalProperties"};
    assert keys <= STRUCTURED;
    assert forall key :: key in LOWER_BOUNDS + UPPER_BOUNDS ==> key !in keys;
    assert Rest(s.m).Keys == {};
  }

  lemma MembersTypedLocal(o: Oracle, s: Json, members: Json, v: Json)
    requires MembersTyped(s, members) && v.Obj?
    ensures LocalOk(o, s.m, v)
  {
    hide MembersTyped, BoundsOk, Rest;
    MembersTypedAbsent(s, members);
    MembersTypedRest(s, members, v);
    TypedObject(s, members);
    assert TypeSet(Get(s.m, "type")) == {"object"} && HasType("object", v);
  }

  lemma TypedObject(s: Json, members: Json)
    requires MembersTyped(s, members)
    ensures s.Obj? && Get(s.m, "type") == Some(Str("object")) && Get(s.m, "additionalProperties") == Some(members)
  {
  }

  lemma MembersTypedAccepts(fuel: nat, c: Context, s: Json, members: Json, k: string, x: Json)
    requires MembersTyped(s, members)
    ensures Accepts(fuel, c, s, Obj(map[k := x])) <==> Accepts(fuel, c, members, x)
  {
    hide MembersTyped, LocalOk, MembersOk, ElementsOk, LogicOk, RefsOk;
    var v := Obj(map[k := x]);
    MembersTypedLocal(c.oracle, s, members, v);
    TypedObject(s, members);
    MembersTypedNothingElse(fuel, c, s, members, v);
    MembersTypedMembers(fuel, c, s, members, k, x);
  }

  lemma MembersTypedNothingElse(fuel: nat, c: Context, s: Json, members: Json, v: Json)
    requires MembersTyped(s, members) && v.Obj?
    ensures s.Obj? && ElementsOk(fuel, c, s, v) && LogicOk(fuel, c, s, v) && RefsOk(fuel, c, s, v)
  {
    hide MembersTyped, Accepts, ReferenceOk;
    MembersTypedAbsent(s, members);
    TypedObject(s, members);
  }

  lemma MembersTypedMembers(fuel: nat, c: Context, s: Json, members: Json, k: string, x: Json)
    requires MembersTyped(s, members)
    ensures MembersOk(fuel, c, s, Obj(map[k := x])) <==> Accepts(fuel, c, members, x)
  {
    hide MembersTyped, Accepts;
    MembersTypedAbsent(s, members);
    TypedObject(s, members);
    assert IsAdditional(c.oracle, s.m, k) && Obj(map[k := x]).m[k] == x;
  }

  lemma PointingLocal(o: Oracle, pointing: Json, x: Json)
    requires pointing == Obj(map["$ref" := Str("#/$defs/a")])
    ensures LocalOk(o, pointing.m, x)
  {
    hide Measure, WithinBound, HasType;
    assert "$ref" !in LOWER_BOUNDS + UPPER_BOUNDS;
    assert BoundsOk(pointing.m, x);
    assert Rest(pointing.m).Keys == {};
  }

  lemma PointingToken()
    ensures DefinitionToken(DEFS_PREFIX, "#/$defs/a") == Some("a")
  {
    assert "#/$defs/a"[..8] == "#/$defs/" && "#/$defs/a"[8..] == "a";
  }

  lemma PointingAccepts(c: Context, pointing: Json, x: Json)
    requires pointing == Obj(map["$ref" := Str("#/$defs/a")]) && c.oracle.token("a") == "a"
    ensures Accepts(1, c, pointing, x) <==> "a" in c.defs && Accepts(0, c, c.defs["a"], x)
  {
    hide LocalOk, MembersOk, ElementsOk, LogicOk, RefsOk;
    PointingLocal(c.oracle, pointing, x);
    PointingOnly(c, pointing, x);
    PointingFollows(c, pointing, x);
  }

  lemma PointingOnly(c: Context, pointing: Json, x: Json)
    requires pointing == Obj(map["$ref" := Str("#/$defs/a")])
    ensures MembersOk(1, c, pointing, x) && ElementsOk(1, c, pointing, x) && LogicOk(1, c, pointing, x)
    ensures RefsOk(1, c, pointing, x) <==> ReferenceOk(1, c, DEFS_PREFIX, pointing.m["$ref"], x)
  {
    hide Accepts, ReferenceOk;
  }

  lemma PointingFollows(c: Context, pointing: Json, x: Json)
    requires pointing == Obj(map["$ref" := Str("#/$defs/a")]) && c.oracle.token("a") == "a"
    ensures ReferenceOk(1, c, DEFS_PREFIX, pointing.m["$ref"], x) <==> "a" in c.defs && Accepts(0, c, c.defs["a"], x)
  {
    hide Accepts, DefinitionToken;
    PointingToken();
  }


  // Alone, the pass leaves a reference in the schema for additional members as it was, while the definitions move away
  // from it: an object accepted before is not any more.  The keyword is reported, so no declaration comes of it.
  lemma ReferenceLeftBehind(o: Oracle)
    requires o.token("a") == "a"
    ensures var pointing := Obj(map["$ref" := Str("#/$defs/a")]); var v := Obj(map["x" := Null]);
      var s := Obj(map["type" := Str("object"), "$defs" := Obj(map["a" := Bool(true)]), "additionalProperties" := pointing]);
      Strict(s) && Valid(1, o, s, v) && !Valid(1, o, Rewritten(GooglePass, s), v) && !NoIssues(Findings(GooglePass, s, "/"))
  {
    hide Findings, Accepts, MembersTyped, Strict, Rewritten, NoIssues, ContextOf;
    var pointing := Obj(map["$ref" := Str("#/$defs/a")]);
    var s := Obj(map["type" := Str("object"), "$defs" := Obj(map["a" := Bool(true)]), "additionalProperties" := pointing]);
    var t := Obj(map["type" := Str("object"), "defs" := Obj(map["a" := Bool(true)]), "additionalProperties" := pointing]);
    DefinitionsMoved(s, t, pointing);
    WhatIsPointedTo(s, t, pointing, o);
    MembersTypedAccepts(1, ContextOf(s, o), s, pointing, "x", Null);
    MembersTypedAccepts(1, ContextOf(t, o), t, pointing, "x", Null);
    PointingAccepts(ContextOf(s, o), pointing, Null);
    PointingAccepts(ContextOf(t, o), pointing, Null);
    TrueAccepts(ContextOf(s, o));
    NotClean(s, "/");
  }

  lemma NotClean(s: Json, path: string)
    requires s.Obj? && "additionalProperties" in s.m
    ensures !NoIssues(Findings(GooglePass, s, path))
  {
    hide Findings;
    UnvisitedReported(s, path, "additionalProperties");
  }

  lemma WhatIsPointedTo(s: Json, t: Json, pointing: Json, o: Oracle)
    requires s == Obj(map["type" := Str("object"), "$defs" := Obj(map["a" := Bool(true)]), "additionalProperties" := pointing])
    requires t == Obj(map["type" := Str("object"), "defs" := Obj(map["a" := Bool(true)]), "additionalProperties" := pointing])
    ensures ContextOf(s, o).defs == map["a" := Bool(true)] && ContextOf(t, o).defs == map[]
    ensures ContextOf(s, o).oracle == o && ContextOf(t, o).oracle == o
  {
  }

  lemma TrueAccepts(c: Context)
    ensures Accepts(0, c, Bool(true), Null)
  {
  }

  lemma DefinitionsMoved(s: Json, t: Json, pointing: Json)
    requires pointing == Obj(map["$ref" := Str("#/$defs/a")])
    requires s == Obj(map["type" := Str("object"), "$defs" := Obj(map["a" := Bool(true)]), "additionalProperties" := pointing])
    requires t == Obj(map["type" := Str("object"), "defs" := Obj(map["a" := Bool(true)]), "additionalProperties" := pointing])
    ensures Strict(s) && Rewritten(GooglePass, s) == t && MembersTyped(s, pointing) && MembersTyped(t, pointing)
  {
    hide Rewritten, Below, Local, Strict;
    RootRewritten(GooglePass, s);
    SourceIsStrict(s, pointing);
    NothingBelow(s, pointing);
    OnlyDefinitionsMove(s.m, t.m, pointing);
  }

  lemma SourceIsStrict(s: Json, pointing: Json)
    requires s == Obj(map["type" := Str("object"), "$defs" := Obj(map["a" := Bool(true)]), "additionalProperties" := pointing])
    ensures Strict(s)
  {
    assert Strict(Bool(true));
    assert StrictAt(s, "type") && StrictAt(s, "$defs") && StrictAt(s, "additionalProperties");
  }

  lemma NothingBelow(s: Json, pointing: Json)
    requires s == Obj(map["type" := Str("object"), "$defs" := Obj(map["a" := Bool(true)]), "additionalProperties" := pointing])
    ensures Below(GooglePass, s) == s.m
  {
    hide RewrittenAt, Below;
    BelowKeys(GooglePass, s);
    forall key | key in s.m ensures Below(GooglePass, s)[key] == s.m[key] {
      BelowAt(GooglePass, s, key);
      if key == "$defs" { SameDefinition(s); } else { NoPosition(s, key); }
    }
  }

  lemma SameDefinition(s: Json)
    requires s.Obj? && Get(s.m, "$defs") == Some(Obj(map["a" := Bool(true)]))
    ensures RewrittenAt(GooglePass, s, "$defs") == s.m["$defs"]
  {
    hide Rewritten;
    Unchanged(GooglePass, Bool(true));
    assert RewrittenAt(GooglePass, s, "$defs").m == s.m["$defs"].m;
  }

  lemma NoPosition(s: Json, key: string)
    requires s.Obj? && key in s.m && (key == "type" || key == "additionalProperties")
    ensures RewrittenAt(GooglePass, s, key) == s.m[key]
  {
  }

  lemma OnlyDefinitionsMove(f: Fields, g: Fields, pointing: Json)
    requires f == map["type" := Str("object"), "$defs" := Obj(map["a" := Bool(true)]), "additionalProperties" := pointing]
    requires g == map["type" := Str("object"), "defs" := Obj(map["a" := Bool(true)]), "additionalProperties" := pointing]
    ensures Local(GooglePass, f) == g
  {
    hide DefinitionToken;
    assert f - {"$schema"} == f;
    assert RenameDefinitions(f) == g && RenameReference(g) == g;
    assert NullableType(g).None?;
  }


  lemma TypeNotBelow(s: Json)
    requires s.Obj?
    ensures NullableType(Below(GooglePass, s)) == NullableType(s.m)
  {
    BelowOutside(GooglePass, s);
    PlainKeywords();
    assert Get(Below(GooglePass, s), "type") == Get(s.m, "type");
  }
}
