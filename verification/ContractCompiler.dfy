/**
 Compiling a tool contract for a provider: the passes in order, what they report, the
 status that follows from it, and what a status promises about the declaration.
 */
module ContractCompiler {
  import opened Common
  import opened JsonSchema
  import opened SchemaRewrites
  import opened CompilerFindings
  import opened OpenAiNormalization
  import Pointers

  // ----- Findings of a normalizing walk -----

  datatype Target = Target(child: Child, nullable: bool)

  function WithoutProperties(s: Json): (w: Json)
    requires s.Obj?
    ensures w.Obj?
  {
    Obj(s.m - {"properties"})
  }

  lemma OthersAreChildren(s: Json)
    requires s.Obj?
    ensures Children(WithoutProperties(s)) <= Children(s)
  {
    hide IsSingle, IsList, IsMap;
  }

  // The schemas below, and which of them the pass has made to take null.
  function Targets(s: Json, nullable: bool): (r: set<Target>)
    requires s.Obj?
    ensures forall t :: t in r ==> t.child.schema < s
  {
    OthersAreChildren(s);
    (set c | c in Children(WithoutProperties(s)) :: Target(c, false))
    + (set k | k in Properties(s.m) :: Target(Child("properties/" + Pointers.Escape(k), Properties(s.m)[k]), TakesNull(s.m, nullable, k)))
  }

  function NormalizeOwn(f: Fields, nullable: bool, path: string): set<Finding> {
    OpenAiKeywords(f, path)
    + (if !nullable && Loose(f) then
         (set k | k in Optional(f) && Properties(f)[k].Obj? :: Transformed(Pointer(Pointer(path, "properties"), k), OptionalNullable, PolicyAuthorized))
         + When(Optional(f) != {}, Transformed(Pointer(path, "required"), OptionalNullable, PolicyAuthorized))
         + When(NeedsClose(f), Transformed(Pointer(path, "additionalProperties"), CloseObject, PolicyAuthorized))
       else {})
  }

  function NormalizeFindings(s: Json, nullable: bool, path: string): set<Finding>
    decreases s
  {
    if s.Obj? then
      NormalizeOwn(s.m, nullable, path)
      + set t, n | t in Targets(s, nullable) && n in NormalizeFindings(t.child.schema, t.nullable, AppendRelative(path, t.child.relative)) :: n
    else When(s.Bool?, Issue(path, BooleanUnsupported))
  }

  lemma TargetFindings(s: Json, nullable: bool, path: string, t: Target)
    requires s.Obj? && t in Targets(s, nullable)
    ensures NormalizeFindings(t.child.schema, t.nullable, AppendRelative(path, t.child.relative)) <= NormalizeFindings(s, nullable, path)
  {
    hide NormalizeOwn, Targets;
  }

  lemma NormalizeOwnFindings(s: Json, nullable: bool, path: string)
    requires s.Obj?
    ensures NormalizeOwn(s.m, nullable, path) <= NormalizeFindings(s, nullable, path)
  {
    hide NormalizeOwn, Targets;
  }

  lemma EachChildIsTarget(s: Json, nullable: bool, c: Child) returns (t: Target)
    requires s.Obj? && c in Children(s)
    ensures t in Targets(s, nullable) && t.child == c
  {
    hide Children, TakesNull, IsSingle, IsList, IsMap;
    var key, i, k := ChildPlace(s, c);
    PropertiesKey();
    if key == "properties" {
      PropertyPath(k);
      t := Target(c, TakesNull(s.m, nullable, k));
    } else {
      var u := WithoutProperties(s);
      t := Target(c, false);
      if IsSingle(key) && c == Child(key, s.m[key]) {
        SingleIsChild(u, key);
      } else if IsList(key) && s.m[key].Arr? && i < |s.m[key].items| && c == Child(key + "/" + Pointers.Decimal(i), s.m[key].items[i]) {
        ItemIsChild(u, key, i);
      } else {
        MemberIsChild(u, key, k);
      }
    }
  }

  lemma PropertyPath(k: string)
    ensures "properties" + "/" + Pointers.Escape(k) == "properties/" + Pointers.Escape(k)
  {
    assert "properties" + "/" == "properties/";
  }

  // ----- Without a policy-authorized transformation nothing was normalized -----

  ghost predicate NoPolicy(findings: set<Finding>) {
    forall n :: n in findings && n.Transformed? ==> n.semantics == Lossless
  }

  lemma NotLoose(s: Json, path: string)
    requires s.Obj? && NoPolicy(NormalizeFindings(s, false, path))
    ensures !Loose(s.m)
  {
    hide NormalizeFindings, OpenAiKeywords, Optional, NeedsClose;
    NormalizeOwnFindings(s, false, path);
    var own := NormalizeOwn(s.m, false, path);
    if Loose(s.m) {
      if Optional(s.m) != {} {
        RequiredReported(s.m, path);
      } else {
        CloseReported(s.m, path);
      }
    }
  }

  lemma RequiredReported(f: Fields, path: string)
    requires Loose(f) && Optional(f) != {}
    ensures Transformed(Pointer(path, "required"), OptionalNullable, PolicyAuthorized) in NormalizeOwn(f, false, path)
  {
    hide OpenAiKeywords, Pointer;
  }

  lemma CloseReported(f: Fields, path: string)
    requires Loose(f) && NeedsClose(f)
    ensures Transformed(Pointer(path, "additionalProperties"), CloseObject, PolicyAuthorized) in NormalizeOwn(f, false, path)
  {
    hide OpenAiKeywords, Pointer;
  }

  lemma {:induction false} NoPolicyNoChange(order: KeyOrder, s: Json, path: string)
    requires NoPolicy(NormalizeFindings(s, false, path))
    ensures Normalized(order, s, false) == Rewritten(DropPass, s)
    decreases s, 1
  {
    hide NormalizeFindings, NormalizedBelow, Below, NoPolicy, Loose, IsSingle, IsList, IsMap;
    if s.Obj? {
      NotLoose(s, path);
      NormalizedKeys(order, s);
      BelowKeys(DropPass, s);
      forall key | key in s.m ensures NormalizedBelow(order, s, false)[key] == Below(DropPass, s)[key] {
        NoPolicyAt(order, s, path, key);
        NormalizedBelowAt(order, s, key);
        BelowAt(DropPass, s, key);
      }
      assert NormalizedBelow(order, s, false) == Below(DropPass, s);
    }
  }

  lemma NormalizedKeys(order: KeyOrder, s: Json)
    requires s.Obj?
    ensures NormalizedBelow(order, s, false).Keys == s.m.Keys
  {
  }

  lemma NormalizedBelowAt(order: KeyOrder, s: Json, key: string)
    requires s.Obj? && key in s.m
    ensures key in NormalizedBelow(order, s, false) && NormalizedBelow(order, s, false)[key] == NormalizedAt(order, s, false, key)
  {
  }

  lemma {:induction false} NoPolicyAt(order: KeyOrder, s: Json, path: string, key: string)
    requires s.Obj? && key in s.m && NoPolicy(NormalizeFindings(s, false, path))
    ensures NormalizedAt(order, s, false, key) == RewrittenAt(DropPass, s, key)
    decreases s, 0
  {
    hide NormalizeFindings, NoPolicy, Loose, IsSingle, IsList, IsMap, Normalized, Rewritten, Children;
    NotLoose(s, path);
    if IsSingle(key) {
      SingleIsChild(s, key);
      NoPolicyBelow(order, s, path, Child(key, s.m[key]));
    } else if IsList(key) && s.m[key].Arr? {
      forall i | 0 <= i < |s.m[key].items| ensures Normalized(order, s.m[key].items[i], false) == Rewritten(DropPass, s.m[key].items[i]) {
        ItemIsChild(s, key, i);
        NoPolicyBelow(order, s, path, Child(key + "/" + Pointers.Decimal(i), s.m[key].items[i]));
      }
      assert NormalizedAt(order, s, false, key).items == RewrittenAt(DropPass, s, key).items;
    } else if IsMap(key) && s.m[key].Obj? {
      forall k | k in s.m[key].m ensures Normalized(order, s.m[key].m[k], false) == Rewritten(DropPass, s.m[key].m[k]) {
        MemberIsChild(s, key, k);
        NoPolicyBelow(order, s, path, Child(key + "/" + Pointers.Escape(k), s.m[key].m[k]));
      }
      assert forall k :: !TakesNull(s.m, false, k);
      assert NormalizedAt(order, s, false, key).m == RewrittenAt(DropPass, s, key).m;
    }
  }

  lemma {:induction false} NoPolicyBelow(order: KeyOrder, s: Json, path: string, c: Child)
    requires s.Obj? && c in Children(s) && NoPolicy(NormalizeFindings(s, false, path)) && !Loose(s.m)
    ensures Normalized(order, c.schema, false) == Rewritten(DropPass, c.schema)
    decreases s, 0, 0
  {
    hide NormalizeFindings, Loose, Normalized, Rewritten, Children;
    var t := EachChildIsTarget(s, false, c);
    TargetFindings(s, false, path, t);
    NotNullable(s, t);
    NoPolicyNoChange(order, c.schema, AppendRelative(path, c.relative));
  }

  lemma NotNullable(s: Json, t: Target)
    requires s.Obj? && !Loose(s.m) && t in Targets(s, false)
    ensures !t.nullable
  {
    hide Children, Loose;
  }

  // ----- Only supported keywords -----

  lemma AlternativesAfter(order: KeyOrder, s: Json, nullable: bool)
    requires s.Obj?
    ensures var g, h := Normalized(order, s, nullable).m, NormalizedBelow(order, s, nullable);
      Get(g, "anyOf") == Get(h, "anyOf") || Get(g, "anyOf") == Some(Arr(ItemsAt(h, "anyOf") + [NULL_SCHEMA]))
  {
    hide NormalizedBelow, Loose, Strings;
  }

  lemma BelowSingle(order: KeyOrder, s: Json, nullable: bool, key: string)
    requires s.Obj? && IsSingle(key) && key in NormalizedBelow(order, s, nullable)
    ensures key in s.m && NormalizedBelow(order, s, nullable)[key] == Normalized(order, s.m[key], false)
  {
    hide Normalized;
  }

  lemma BelowItems(order: KeyOrder, s: Json, nullable: bool, key: string)
    requires s.Obj? && Strict(s) && IsList(key)
    ensures |ItemsAt(NormalizedBelow(order, s, nullable), key)| == |ItemsAt(s.m, key)|
    ensures forall i :: 0 <= i < |ItemsAt(s.m, key)| ==>
      ItemsAt(NormalizedBelow(order, s, nullable), key)[i] == Normalized(order, ItemsAt(s.m, key)[i], false)
  {
    hide Normalized;
    ListNotSingle(key);
  }

  lemma BelowFields(order: KeyOrder, s: Json, nullable: bool, key: string)
    requires s.Obj? && IsMap(key)
    ensures FieldsAt(NormalizedBelow(order, s, nullable), key).Keys == FieldsAt(s.m, key).Keys
    ensures var g := FieldsAt(NormalizedBelow(order, s, nullable), key);
      forall k :: k in g ==> g[k] == Normalized(order, FieldsAt(s.m, key)[k], key == "properties" && TakesNull(s.m, nullable, k))
  {
    hide Normalized, TakesNull;
    MapNotSingle(key);
  }

  predicate IsNullSchema(c: Child) {
    c.schema == NULL_SCHEMA
  }

  // The schemas below a normalized schema are the normalized schemas below the original, and the null it may have been given.
  lemma ChildNormalized(order: KeyOrder, s: Json, nullable: bool, c: Child) returns (t: Target)
    requires s.Obj? && Strict(s) && c in Children(Normalized(order, s, nullable)) && !IsNullSchema(c)
    ensures t in Targets(s, nullable) && c.schema == Normalized(order, t.child.schema, t.nullable)
  {
    hide IsSingle, IsList, IsMap, Normalized, NormalizedBelow, Children, Strict, TakesNull, Targets, NULL_SCHEMA;
    var g, h := Normalized(order, s, nullable).m, NormalizedBelow(order, s, nullable);
    var key, i, k := ChildPlace(Normalized(order, s, nullable), c);
    NotRetouched(order, s, nullable, key);
    if IsSingle(key) && c == Child(key, g[key]) {
      BelowSingle(order, s, nullable, key);
      t := SingleTarget(s, nullable, key);
    } else if IsList(key) && g[key].Arr? && i < |g[key].items| && c == Child(key + "/" + Pointers.Decimal(i), g[key].items[i]) {
      AlternativesAfter(order, s, nullable);
      BelowItems(order, s, nullable, key);
      assert g[key].items[i] == ItemsAt(h, key)[i];
      t := ItemTarget(s, nullable, key, i);
    } else {
      BelowFields(order, s, nullable, key);
      t := FieldTarget(s, nullable, key, k);
    }
  }

  lemma NotRetouched(order: KeyOrder, s: Json, nullable: bool, key: string)
    requires s.Obj? && (IsSingle(key) || IsList(key) || IsMap(key))
    ensures key != "anyOf" ==> Get(Normalized(order, s, nullable).m, key) == Get(NormalizedBelow(order, s, nullable), key)
    ensures key == "anyOf" ==> IsList(key) && !IsSingle(key) && !IsMap(key)
  {
    hide Normalized, NormalizedBelow;
    if key != "anyOf" { TouchesFew(order, s, nullable, key); }
  }

  lemma SingleTarget(s: Json, nullable: bool, key: string) returns (t: Target)
    requires s.Obj? && key in s.m && IsSingle(key)
    ensures t in Targets(s, nullable) && t.child.schema == s.m[key] && !t.nullable
  {
    hide Children, IsSingle;
    PropertiesKey();
    t := Target(Child(key, s.m[key]), false);
    SingleIsChild(WithoutProperties(s), key);
  }

  lemma ItemTarget(s: Json, nullable: bool, key: string, i: nat) returns (t: Target)
    requires s.Obj? && IsList(key) && i < |ItemsAt(s.m, key)|
    ensures t in Targets(s, nullable) && t.child.schema == ItemsAt(s.m, key)[i] && !t.nullable
  {
    hide Children, IsList;
    PropertiesKey();
    t := Target(Child(key + "/" + Pointers.Decimal(i), s.m[key].items[i]), false);
    ItemIsChild(WithoutProperties(s), key, i);
  }

  lemma FieldTarget(s: Json, nullable: bool, key: string, k: string) returns (t: Target)
    requires s.Obj? && IsMap(key) && k in FieldsAt(s.m, key)
    ensures t in Targets(s, nullable) && t.child.schema == FieldsAt(s.m, key)[k]
    ensures t.nullable == (key == "properties" && TakesNull(s.m, nullable, k))
  {
    hide Children, IsMap, TakesNull;
    if key == "properties" {
      t := Target(Child("properties/" + Pointers.Escape(k), Properties(s.m)[k]), TakesNull(s.m, nullable, k));
    } else {
      t := Target(Child(key + "/" + Pointers.Escape(k), s.m[key].m[k]), false);
      MemberIsChild(WithoutProperties(s), key, k);
    }
  }

  lemma KeywordsReported(f: Fields, path: string)
    requires NoIssues(OpenAiKeywords(f, path))
    ensures Supported(f)
  {
    forall key | key in f && key != "$schema" ensures key in OPENAI_SUPPORTED {
      if key !in OPENAI_SUPPORTED { KeywordListed(f, path, key); }
    }
  }

  lemma KeywordListed(f: Fields, path: string, key: string)
    requires key in f && key != "$schema" && key !in OPENAI_SUPPORTED
    ensures Issue(Pointer(path, key), KeywordUnsupported) in OpenAiKeywords(f, path)
  {
    hide Pointer;
  }

  lemma NormalizedKeysSupported(order: KeyOrder, s: Json, nullable: bool)
    requires s.Obj? && Supported(s.m)
    ensures Normalized(order, s, nullable).m.Keys <= OPENAI_SUPPORTED
  {
    hide NormalizedAt, Loose, Strings;
  }

  lemma OwnClean(s: Json, nullable: bool, path: string)
    requires NoIssues(NormalizeFindings(s, nullable, path)) && Strict(s)
    ensures s.Obj? && Supported(s.m)
  {
    hide OpenAiKeywords, Targets, Supported;
    assert s.Bool? ==> Issue(path, BooleanUnsupported) in NormalizeFindings(s, nullable, path);
    NormalizeOwnFindings(s, nullable, path);
    KeywordsReported(s.m, path);
  }

  // At each schema that the walk visits and does not close, the one for additional members uses supported keywords alone.
  // It closes the loose objects, short of optional properties that it has just made to take null.
  ghost predicate AdditionalKept(s: Json, nullable: bool)
    decreases s
  {
    s.Obj? ==>
      && (nullable || !Loose(s.m) ==> AdditionalHere(OPENAI_SUPPORTED, s))
      && forall t :: t in Targets(s, nullable) ==> AdditionalKept(t.child.schema, t.nullable)
  }

  lemma ClosedSupported(order: KeyOrder, s: Json, nullable: bool)
    requires s.Obj?
    ensures AdditionalHere(OPENAI_SUPPORTED, Normalized(order, s, nullable)) <==> (nullable || !Loose(s.m) ==> AdditionalHere(OPENAI_SUPPORTED, s))
  {
    hide Normalized, Loose, OnlySupported;
    ClosedAfter(order, s, nullable);
    if nullable || !Loose(s.m) { SameAdditionalHere(OPENAI_SUPPORTED, s, Normalized(order, s, nullable)); }
  }

  // The schemas below the original are, normalized, below the normalized schema.
  lemma TargetAppears(order: KeyOrder, s: Json, nullable: bool, t: Target) returns (c: Child)
    requires s.Obj? && Strict(s) && t in Targets(s, nullable)
    ensures c in Children(Normalized(order, s, nullable)) && c.schema == Normalized(order, t.child.schema, t.nullable)
  {
    hide IsSingle, IsList, IsMap, Normalized, NormalizedBelow, Children, Strict, TakesNull;
    var u := Normalized(order, s, nullable);
    var w := WithoutProperties(s);
    PropertiesKey();
    if t.child in Children(w) && !t.nullable {
      var key, i, k := ChildPlace(w, t.child);
      c := OtherAppears(order, s, nullable, key, i, k, t.child);
    } else {
      var k :| k in Properties(s.m) && t == Target(Child("properties/" + Pointers.Escape(k), Properties(s.m)[k]), TakesNull(s.m, nullable, k));
      PropertiesAfter(order, s, nullable);
      MemberIsChild(u, "properties", k);
      c := Child("properties" + "/" + Pointers.Escape(k), u.m["properties"].m[k]);
    }
  }

  lemma OtherAppears(order: KeyOrder, s: Json, nullable: bool, key: string, i: nat, k: string, q: Child) returns (c: Child)
    requires s.Obj? && Strict(s) && key in s.m && key != "properties"
    requires (IsSingle(key) && q == Child(key, s.m[key]))
      || (IsList(key) && s.m[key].Arr? && i < |s.m[key].items| && q == Child(key + "/" + Pointers.Decimal(i), s.m[key].items[i]))
      || (IsMap(key) && s.m[key].Obj? && k in s.m[key].m && q == Child(key + "/" + Pointers.Escape(k), s.m[key].m[k]))
    ensures c in Children(Normalized(order, s, nullable)) && c.schema == Normalized(order, q.schema, false)
  {
    hide IsSingle, IsList, IsMap, Normalized, NormalizedBelow, Children, Strict, TakesNull;
    var g, h := Normalized(order, s, nullable).m, NormalizedBelow(order, s, nullable);
    NotRetouched(order, s, nullable, key);
    NormalizedKeys(order, s);
    KeyBelow(order, s, nullable, key);
    if IsSingle(key) && q == Child(key, s.m[key]) {
      BelowSingle(order, s, nullable, key);
      assert Get(g, key) == Get(h, key);
      SingleIsChild(Normalized(order, s, nullable), key);
      c := Child(key, g[key]);
    } else if IsList(key) && s.m[key].Arr? && i < |s.m[key].items| && q == Child(key + "/" + Pointers.Decimal(i), s.m[key].items[i]) {
      AlternativesAfter(order, s, nullable);
      BelowItems(order, s, nullable, key);
      assert i < |ItemsAt(h, key)| && i < |ItemsAt(g, key)| && ItemsAt(g, key)[i] == ItemsAt(h, key)[i];
      ItemIsChild(Normalized(order, s, nullable), key, i);
      c := Child(key + "/" + Pointers.Decimal(i), g[key].items[i]);
    } else {
      BelowFields(order, s, nullable, key);
      assert Get(g, key) == Get(h, key);
      assert k in FieldsAt(g, key);
      MemberIsChild(Normalized(order, s, nullable), key, k);
      c := Child(key + "/" + Pointers.Escape(k), g[key].m[k]);
    }
  }

  lemma KeyBelow(order: KeyOrder, s: Json, nullable: bool, key: string)
    requires s.Obj? && key in s.m
    ensures key in NormalizedBelow(order, s, nullable)
  {
  }

  // A normalized schema without issues uses supported keywords alone, exactly when the schemas for additional members do
  // that the walk leaves.
  lemma {:induction false} NormalizedSupported(order: KeyOrder, s: Json, nullable: bool, path: string)
    requires Strict(s) && NoIssues(NormalizeFindings(s, nullable, path))
    ensures OnlySupported(OPENAI_SUPPORTED, Normalized(order, s, nullable)) <==> AdditionalKept(s, nullable)
    decreases s
  {
    hide NormalizeFindings, Normalized, Children, Targets, NoIssues, Strict, AdditionalHere, Loose;
    OwnClean(s, nullable, path);
    NormalizedKeysSupported(order, s, nullable);
    ClosedSupported(order, s, nullable);
    var u := Normalized(order, s, nullable);
    forall t | t in Targets(s, nullable)
      ensures OnlySupported(OPENAI_SUPPORTED, Normalized(order, t.child.schema, t.nullable)) <==> AdditionalKept(t.child.schema, t.nullable)
    {
      TargetStrict(s, nullable, t);
      TargetClean(s, nullable, path, t);
      NormalizedSupported(order, t.child.schema, t.nullable, AppendRelative(path, t.child.relative));
    }
    if AdditionalKept(s, nullable) {
      forall c | c in Children(u) ensures OnlySupported(OPENAI_SUPPORTED, c.schema) {
        if IsNullSchema(c) {
          NullSchemaSupported();
        } else {
          var t := ChildNormalized(order, s, nullable, c);
        }
      }
    } else if OnlySupported(OPENAI_SUPPORTED, u) {
      forall t | t in Targets(s, nullable) ensures AdditionalKept(t.child.schema, t.nullable) {
        var c := TargetAppears(order, s, nullable, t);
      }
    }
  }

  lemma NullSchemaSupported()
    ensures OnlySupported(OPENAI_SUPPORTED, NULL_SCHEMA)
  {
    assert Children(NULL_SCHEMA) == {};
  }

  lemma TargetStrict(s: Json, nullable: bool, t: Target)
    requires s.Obj? && Strict(s) && t in Targets(s, nullable)
    ensures Strict(t.child.schema)
  {
    hide Children, TakesNull;
    if t.child in Children(WithoutProperties(s)) {
      OthersAreChildren(s);
      ChildStrict(s, t.child);
    } else {
      assert StrictAt(s, "properties");
    }
  }

  lemma TargetClean(s: Json, nullable: bool, path: string, t: Target)
    requires s.Obj? && t in Targets(s, nullable) && NoIssues(NormalizeFindings(s, nullable, path))
    ensures NoIssues(NormalizeFindings(t.child.schema, t.nullable, AppendRelative(path, t.child.relative)))
  {
    hide NormalizeFindings, Targets;
    TargetFindings(s, nullable, path, t);
  }

  // ----- What the refinement asks of a source -----

  // At every level that values reach: no alternatives, no references, scalar enumerations.
  predicate SimplyUsed(s: Json, nullable: bool)
    decreases s
  {
    s.Obj? ==>
      && Simple(s.m)
      && ("items" in s.m ==> SimplyUsed(s.m["items"], false))
      && forall k :: k in Properties(s.m) ==> SimplyUsed(Properties(s.m)[k], TakesNull(s.m, nullable, k))
  }

  lemma {:induction false} CleanIsCovered(s: Json, nullable: bool, path: string)
    requires Strict(s) && NoIssues(NormalizeFindings(s, nullable, path)) && SimplyUsed(s, nullable)
    ensures Covered(s, nullable)
    decreases s
  {
    hide NormalizeFindings, Targets, NoIssues, Strict, Simple, TakesNull, Supported;
    OwnClean(s, nullable, path);
    if "items" in s.m {
      PropertiesKey();
      var t := SingleTarget(s, nullable, "items");
      TargetStrict(s, nullable, t);
      TargetClean(s, nullable, path, t);
      CleanIsCovered(t.child.schema, false, AppendRelative(path, t.child.relative));
    }
    forall k | k in Properties(s.m) ensures Covered(Properties(s.m)[k], TakesNull(s.m, nullable, k)) {
      PropertiesKey();
      var t := FieldTarget(s, nullable, "properties", k);
      TargetStrict(s, nullable, t);
      TargetClean(s, nullable, path, t);
      CleanIsCovered(t.child.schema, t.nullable, AppendRelative(path, t.child.relative));
    }
  }

  // ----- The compiler -----

  datatype Provider = OpenAi | Anthropic | Google | Mcp
  datatype Status = Unsupported | PolicyRequired | LosslessTransform | Native | RuntimeUnverified

  // nameOk and valid are the verdicts of the name pattern and of the schema validator.
  datatype Request = Request(provider: Provider, schema: Json, normalize: bool, runtimeVerified: bool, nameOk: bool, valid: bool)
  datatype Contract = Contract(status: Status, declaration: Option<Json>, findings: set<Finding>)

  predicate RootIsObject(s: Json) {
    s.Obj? && "object" in TypeSet(Get(s.m, "type"))
  }

  predicate Canonical(q: Request) {
    q.valid && Strict(q.schema) && RootIsObject(q.schema)
  }

  // The constants are rewritten first, whatever the provider.
  function Prepared(q: Request): Json {
    Rewritten(ConstPass, q.schema)
  }

  function ProviderFindings(q: Request, s: Json): set<Finding> {
    match q.provider
    case OpenAi => if q.normalize then NormalizeFindings(s, false, "/") else Findings(DropPass, s, "/")
    case Google => Findings(GooglePass, s, "/")
    case _ => {}
  }

  function AllFindings(q: Request): set<Finding> {
    When(!q.nameOk, Issue("/name", NameUnsupported))
    + (if Canonical(q) then Findings(ConstPass, q.schema, "/") + ProviderFindings(q, Prepared(q)) else {Issue("/", SchemaInvalid)})
  }

  function ProviderSchema(order: KeyOrder, q: Request, s: Json): Json {
    match q.provider
    case OpenAi => if q.normalize then Normalized(order, s, false) else Rewritten(DropPass, s)
    case Google => Rewritten(GooglePass, s)
    case _ => s
  }

  function StatusFor(findings: set<Finding>, runtimeVerified: bool): Status {
    if exists n :: n in findings && n.Issue? && n.code != StrictPolicyRequired then Unsupported
    else if exists n :: n in findings && ((n.Issue? && n.code == StrictPolicyRequired) || (n.Transformed? && n.semantics == PolicyAuthorized)) then PolicyRequired
    else if exists n :: n in findings && n.Transformed? then LosslessTransform
    else if runtimeVerified then Native
    else RuntimeUnverified
  }

  function CompileToolContract(order: KeyOrder, q: Request): Contract {
    var findings := AllFindings(q);
    var status := StatusFor(findings, q.runtimeVerified);
    var declared := Canonical(q) && status != Unsupported && !(status == PolicyRequired && !q.normalize);
    Contract(status, if declared then Some(ProviderSchema(order, q, Prepared(q))) else None, findings)
  }

  lemma StatusMeans(findings: set<Finding>, runtimeVerified: bool)
    ensures var s := StatusFor(findings, runtimeVerified);
      && (s == Unsupported <==> !NoBlockers(findings))
      && (s == Native || s == RuntimeUnverified ==> NoIssues(findings) && NoTransforms(findings))
      && (s == LosslessTransform ==> NoIssues(findings) && NoPolicy(findings))
  {
  }

  lemma PolicyMeans(q: Request, n: Finding)
    requires q.provider != OpenAi || !q.normalize
    requires n in AllFindings(q) && n.Transformed?
    ensures n.semantics == Lossless
  {
    hide Findings, Strict, RootIsObject;
    FindingsLossless(ConstPass, q.schema, "/");
    FindingsLossless(DropPass, Prepared(q), "/");
    FindingsLossless(GooglePass, Prepared(q), "/");
  }

  lemma {:induction false} FindingsLossless(pass: Pass, s: Json, path: string)
    ensures NoPolicy(Findings(pass, s, path))
    decreases s
  {
    hide Children, Own, Pointer, AppendRelative, Place;
    if s.Obj? {
      OwnLossless(pass, s.m, path);
      forall c | c in Children(s) ensures NoPolicy(Findings(pass, c.schema, AppendRelative(path, Place(pass, c.relative)))) {
        FindingsLossless(pass, c.schema, AppendRelative(path, Place(pass, c.relative)));
      }
    }
  }

  lemma OwnLossless(pass: Pass, f: Fields, path: string)
    ensures NoPolicy(Own(pass, f, path))
    ensures pass != DropPass ==> forall n :: n in Own(pass, f, path) ==> !(n.Issue? && n.code == StrictPolicyRequired)
  {
    hide ConstFindings, OpenAiFindings, GoogleFindings, NoPolicy;
    ConstOwn(f, path);
    OpenAiOwn(f, path);
    GoogleOwn(f, path);
  }

  lemma ConstOwn(f: Fields, path: string)
    ensures NoPolicy(ConstFindings(f, path)) && forall n :: n in ConstFindings(f, path) ==> !n.Issue?
  {
    hide Pointer;
  }

  lemma OpenAiOwn(f: Fields, path: string)
    ensures NoPolicy(OpenAiFindings(f, path))
  {
    hide Pointer, Loose;
  }

  lemma GoogleOwn(f: Fields, path: string)
    ensures NoPolicy(GoogleFindings(f, path)) && forall n :: n in GoogleFindings(f, path) ==> !(n.Issue? && n.code == StrictPolicyRequired)
  {
    hide Pointer, NullableType, ReferenceElsewhere, ReferenceLocal, Local;
  }

  lemma NormalizeOwnIssues(f: Fields, nullable: bool, path: string)
    ensures forall n :: n in NormalizeOwn(f, nullable, path) ==> !(n.Issue? && n.code == StrictPolicyRequired)
  {
    hide Pointer, Loose, Optional, NeedsClose;
  }

  // ----- What a status promises -----

  lemma PreparedStrict(q: Request)
    requires Canonical(q)
    ensures Strict(Prepared(q))
  {
    hide Strict;
    StaysStrict(ConstPass, q.schema);
  }

  // A native status: the declaration is the source schema itself.
  lemma NativeIsUnchanged(order: KeyOrder, q: Request)
    requires CompileToolContract(order, q).status in {Native, RuntimeUnverified}
    ensures CompileToolContract(order, q).declaration == Some(q.schema)
  {
    hide Findings, NormalizeFindings, Rewritten, Normalized, Strict, StatusFor;
    var all := AllFindings(q);
    StatusMeans(all, q.runtimeVerified);
    assert Issue("/", SchemaInvalid) !in all;
    assert Findings(ConstPass, q.schema, "/") <= all && ProviderFindings(q, Prepared(q)) <= all;
    NoTransformNoChange(ConstPass, q.schema, "/");
    if q.provider == Google {
      NoTransformNoChange(GooglePass, q.schema, "/");
    } else if q.provider == OpenAi {
      if q.normalize {
        NoPolicyNoChange(order, q.schema, "/");
        DropUnchanged(q.schema, "/");
      } else {
        NoTransformNoChange(DropPass, q.schema, "/");
      }
    }
  }

  // A walk that normalizes reports a dropped dialect annotation as the plain walk does.
  lemma {:induction false} DropUnchanged(s: Json, path: string)
    requires NoTransforms(NormalizeFindings(s, false, path))
    ensures Rewritten(DropPass, s) == s
    decreases s, 1
  {
    hide NormalizeFindings, Below, NoTransforms, Loose, IsSingle, IsList, IsMap;
    if s.Obj? {
      NoPolicyHere(s, path);
      NotLoose(s, path);
      BelowKeys(DropPass, s);
      forall key | key in s.m ensures Below(DropPass, s)[key] == s.m[key] {
        DropUnchangedAt(s, path, key);
        BelowAt(DropPass, s, key);
      }
      assert Below(DropPass, s) == s.m;
      NoDialect(s, path);
      assert s.m - {"$schema"} == s.m;
    }
  }

  lemma NoPolicyHere(s: Json, path: string)
    requires NoTransforms(NormalizeFindings(s, false, path))
    ensures NoPolicy(NormalizeFindings(s, false, path))
  {
    hide NormalizeFindings;
  }

  lemma NoDialect(s: Json, path: string)
    requires s.Obj? && NoTransforms(NormalizeFindings(s, false, path))
    ensures "$schema" !in s.m
  {
    hide NormalizeFindings, OpenAiKeywords, Loose;
    NormalizeOwnFindings(s, false, path);
    if "$schema" in s.m { DialectReported(s.m, path); }
  }

  lemma {:induction false} DropUnchangedAt(s: Json, path: string, key: string)
    requires s.Obj? && key in s.m && NoTransforms(NormalizeFindings(s, false, path)) && !Loose(s.m)
    ensures RewrittenAt(DropPass, s, key) == s.m[key]
    decreases s, 0
  {
    hide NormalizeFindings, NoTransforms, Loose, IsSingle, IsList, IsMap, Rewritten, Children;
    if IsSingle(key) {
      SingleIsChild(s, key);
      DropUnchangedBelow(s, path, Child(key, s.m[key]));
    } else if IsList(key) && s.m[key].Arr? {
      forall i | 0 <= i < |s.m[key].items| ensures Rewritten(DropPass, s.m[key].items[i]) == s.m[key].items[i] {
        ItemIsChild(s, key, i);
        DropUnchangedBelow(s, path, Child(key + "/" + Pointers.Decimal(i), s.m[key].items[i]));
      }
      assert RewrittenAt(DropPass, s, key).items == s.m[key].items;
    } else if IsMap(key) && s.m[key].Obj? {
      forall k | k in s.m[key].m ensures Rewritten(DropPass, s.m[key].m[k]) == s.m[key].m[k] {
        MemberIsChild(s, key, k);
        DropUnchangedBelow(s, path, Child(key + "/" + Pointers.Escape(k), s.m[key].m[k]));
      }
      assert RewrittenAt(DropPass, s, key).m == s.m[key].m;
    }
  }

  lemma {:induction false} DropUnchangedBelow(s: Json, path: string, c: Child)
    requires s.Obj? && c in Children(s) && NoTransforms(NormalizeFindings(s, false, path)) && !Loose(s.m)
    ensures Rewritten(DropPass, c.schema) == c.schema
    decreases s, 0, 0
  {
    hide NormalizeFindings, Loose, Rewritten, Children;
    var t := EachChildIsTarget(s, false, c);
    TargetFindings(s, false, path, t);
    NotNullable(s, t);
    DropUnchanged(c.schema, AppendRelative(path, c.relative));
  }

  // A lossless status: the declaration accepts exactly the values of the source.
  lemma LosslessKeepsMeaning(order: KeyOrder, o: Oracle, q: Request, fuel: nat, v: Json)
    requires CompileToolContract(order, q).status == LosslessTransform
    ensures var d := CompileToolContract(order, q).declaration; d.Some? && (Valid(fuel, o, d.value, v) <==> Valid(fuel, o, q.schema, v))
  {
    hide Findings, NormalizeFindings, Rewritten, Normalized, Strict, Valid, StatusFor;
    var all := AllFindings(q);
    StatusMeans(all, q.runtimeVerified);
    assert Issue("/", SchemaInvalid) !in all;
    PreparedStrict(q);
    PassIsLossless(ConstPass, o, q.schema, fuel, v);
    assert ProviderFindings(q, Prepared(q)) <= all;
    if q.provider == Google {
      CleanIsReached(Prepared(q), "/");
      PassIsLossless(GooglePass, o, Prepared(q), fuel, v);
    } else if q.provider == OpenAi {
      PassIsLossless(DropPass, o, Prepared(q), fuel, v);
      if q.normalize {
        NoPolicyNoChange(order, Prepared(q), "/");
      }
    }
  }

  // A status that needs a policy: with the policy given, each value the declaration accepts is accepted by the
  // source once erased, exactly when its objects stand under schemas whose required names are declared.
  lemma PolicyRefines(order: KeyOrder, o: Oracle, q: Request, fuel: nat, v: Json)
    requires ListsKeys(order) && SimplyUsed(Prepared(q), false)
    requires CompileToolContract(order, q).status == PolicyRequired && CompileToolContract(order, q).declaration.Some?
    requires Valid(fuel, o, CompileToolContract(order, q).declaration.value, v)
    ensures Valid(fuel, o, q.schema, Erased(Prepared(q), false, v)) <==> Declared(Prepared(q), false, v)
  {
    hide Findings, NormalizeFindings, Rewritten, Normalized, Strict, Valid, StatusFor, SimplyUsed, Declared, Erased, ListsKeys;
    var all, s := AllFindings(q), Prepared(q);
    PolicyIsOpenAi(order, q);
    PreparedStrict(q);
    NormalizedClean(order, q);
    CleanIsCovered(s, false, "/");
    RefinesExactlyWhenDeclared(order, o, s, fuel, v);
    PassIsLossless(ConstPass, o, q.schema, fuel, Erased(s, false, v));
  }

  lemma PolicyIsOpenAi(order: KeyOrder, q: Request)
    requires CompileToolContract(order, q).status == PolicyRequired && CompileToolContract(order, q).declaration.Some?
    ensures Canonical(q) && q.provider == OpenAi && q.normalize
  {
    hide Findings, NormalizeFindings, Rewritten, Normalized, Strict;
    var all := AllFindings(q);
    if q.provider != OpenAi {
      var n :| n in all && ((n.Issue? && n.code == StrictPolicyRequired) || (n.Transformed? && n.semantics == PolicyAuthorized));
      if n.Transformed? { PolicyMeans(q, n); }
      OthersNeedNoPolicy(q, n);
    }
  }

  lemma OthersNeedNoPolicy(q: Request, n: Finding)
    requires q.provider != OpenAi && n in AllFindings(q)
    ensures !(n.Issue? && n.code == StrictPolicyRequired)
  {
    hide Findings, Strict, RootIsObject, Rewritten, NormalizeFindings, Own, Canonical;
    NoPolicyIssues(ConstPass, q.schema, "/");
    NoPolicyIssues(GooglePass, Prepared(q), "/");
  }

  lemma NoPolicyIssues(pass: Pass, s: Json, path: string)
    requires pass != DropPass
    ensures forall n :: n in Findings(pass, s, path) ==> !(n.Issue? && n.code == StrictPolicyRequired)
  {
    hide Findings, Own;
    NoStrictPolicy(pass, s, path);
  }

  lemma {:induction false} NoStrictPolicy(pass: Pass, s: Json, path: string)
    requires pass != DropPass
    ensures forall n :: n in Findings(pass, s, path) ==> !(n.Issue? && n.code == StrictPolicyRequired)
    decreases s
  {
    hide Children, Own, Pointer, AppendRelative, Place;
    if s.Obj? {
      OwnLossless(pass, s.m, path);
      forall c | c in Children(s) ensures forall n :: n in Findings(pass, c.schema, AppendRelative(path, Place(pass, c.relative))) ==> !(n.Issue? && n.code == StrictPolicyRequired) {
        NoStrictPolicy(pass, c.schema, AppendRelative(path, Place(pass, c.relative)));
      }
    }
  }

  lemma NormalizedClean(order: KeyOrder, q: Request)
    requires Canonical(q) && q.provider == OpenAi && q.normalize && CompileToolContract(order, q).status != Unsupported
    ensures NoIssues(NormalizeFindings(Prepared(q), false, "/"))
  {
    hide Findings, NormalizeFindings, Rewritten, Normalized, Strict, StatusFor;
    StatusMeans(AllFindings(q), q.runtimeVerified);
    NormalizeNeedsNoPolicy(Prepared(q), false, "/");
    assert NormalizeFindings(Prepared(q), false, "/") <= AllFindings(q);
  }

  lemma {:induction false} NormalizeNeedsNoPolicy(s: Json, nullable: bool, path: string)
    ensures forall n :: n in NormalizeFindings(s, nullable, path) ==> !(n.Issue? && n.code == StrictPolicyRequired)
    decreases s
  {
    hide Targets, NormalizeOwn, Pointer, AppendRelative;
    if s.Obj? {
      NormalizeOwnIssues(s.m, nullable, path);
      forall t | t in Targets(s, nullable) ensures forall n :: n in NormalizeFindings(t.child.schema, t.nullable, AppendRelative(path, t.child.relative)) ==> !(n.Issue? && n.code == StrictPolicyRequired) {
        NormalizeNeedsNoPolicy(t.child.schema, t.nullable, AppendRelative(path, t.child.relative));
      }
    }
  }

  // ----- Constants aside -----

  lemma RewrittenWithout(s: Json)
    requires s.Obj?
    ensures Rewritten(ConstPass, WithoutProperties(s)) == WithoutProperties(Rewritten(ConstPass, s))
  {
    hide IsSingle, IsList, IsMap, RewrittenAt, ConstToEnum;
    var w := WithoutProperties(s);
    assert Below(ConstPass, w) == Below(ConstPass, s) - {"properties"} by {
      BelowKeys(ConstPass, s);
      BelowKeys(ConstPass, w);
      forall key | key in w.m ensures Below(ConstPass, w)[key] == Below(ConstPass, s)[key] { SameAt(s, w, key); }
    }
    ConstWithout(Below(ConstPass, s));
  }

  lemma SameAt(s: Json, w: Json, key: string)
    requires s.Obj? && w.Obj? && key in s.m && key in w.m && s.m[key] == w.m[key]
    ensures Below(ConstPass, w)[key] == Below(ConstPass, s)[key]
  {
    hide Rewritten;
  }

  lemma ConstWithout(f: Fields)
    ensures ConstToEnum(f - {"properties"}) == ConstToEnum(f) - {"properties"}
  {
  }

  lemma WithoutStrict(s: Json)
    requires s.Obj? && Strict(s)
    ensures Strict(WithoutProperties(s))
  {
    hide IsSingle, IsList, IsMap;
    var w := WithoutProperties(s);
    forall key | key in w.m ensures StrictAt(w, key) { assert StrictAt(s, key) && w.m[key] == s.m[key]; }
  }

  lemma PropertiesRewritten(s: Json)
    requires s.Obj?
    ensures var u := Rewritten(ConstPass, s); u.Obj? && Properties(u.m).Keys == Properties(s.m).Keys
    ensures var u := Rewritten(ConstPass, s); forall k :: k in Properties(s.m) ==> Properties(u.m)[k] == Rewritten(ConstPass, Properties(s.m)[k])
  {
    hide Rewritten, Local, Below;
    RootRewritten(ConstPass, s);
    PropertiesKey();
    OtherPassesKeep(ConstPass, Below(ConstPass, s), "properties");
    if "properties" in s.m {
      if s.m["properties"].Obj? {
        FieldsBelow(ConstPass, s, "properties");
        MapBelow(ConstPass, s, "properties");
      } else {
        NotRewritten(ConstPass, s, "properties");
      }
      BelowAt(ConstPass, s, "properties");
    } else {
      BelowKeys(ConstPass, s);
    }
  }

  lemma LooseRewritten(s: Json, nullable: bool, k: string)
    requires s.Obj?
    ensures var u := Rewritten(ConstPass, s); u.Obj? && (Loose(u.m) <==> Loose(s.m)) && (TakesNull(u.m, nullable, k) <==> TakesNull(s.m, nullable, k))
  {
    hide Rewritten, FieldsAt, ItemsAt, IsSingle, IsList, IsMap;
    RootRewritten(ConstPass, s);
    PropertiesRewritten(s);
    AdditionalStays(ConstPass, s);
    TypeElsewhere();
    ValueStays(s, "type");
    ValueStays(s, "required");
    var u := Rewritten(ConstPass, s);
    SameRequired(u.m, s.m);
    assert Optional(u.m) == Optional(s.m);
  }

  lemma SameRequired(f: Fields, g: Fields)
    requires Get(f, "required") == Get(g, "required")
    ensures Required(f) == Required(g)
  {
  }

  lemma ValueStays(s: Json, key: string)
    requires s.Obj? && !IsSingle(key) && !IsList(key) && !IsMap(key) && key != "const" && key != "enum"
    ensures Rewritten(ConstPass, s).Obj? && Get(Rewritten(ConstPass, s).m, key) == Get(s.m, key)
  {
    hide Rewritten;
    RootRewritten(ConstPass, s);
    ConstKeeps(Below(ConstPass, s));
  }

  lemma TargetRewritten(s: Json, nullable: bool, t: Target) returns (r: Target)
    requires s.Obj? && Strict(s) && t in Targets(Rewritten(ConstPass, s), nullable)
    ensures r in Targets(s, nullable) && t.child.schema == Rewritten(ConstPass, r.child.schema) && t.nullable == r.nullable
  {
    hide Rewritten, Children, TakesNull, Strict, WithoutProperties;
    var u := Rewritten(ConstPass, s);
    PropertiesRewritten(s);
    if t.child in Children(WithoutProperties(u)) && !t.nullable {
      RewrittenWithout(s);
      WithoutStrict(s);
      var q := ChildRewritten(ConstPass, WithoutProperties(s), t.child);
      r := Target(q, false);
    } else {
      var k :| k in Properties(u.m) && t == Target(Child("properties/" + Pointers.Escape(k), Properties(u.m)[k]), TakesNull(u.m, nullable, k));
      LooseRewritten(s, nullable, k);
      r := Target(Child("properties/" + Pointers.Escape(k), Properties(s.m)[k]), TakesNull(s.m, nullable, k));
    }
  }

  lemma TargetSurvives(s: Json, nullable: bool, t: Target) returns (r: Target)
    requires s.Obj? && t in Targets(s, nullable)
    ensures Rewritten(ConstPass, s).Obj? && r in Targets(Rewritten(ConstPass, s), nullable)
    ensures r.child.schema == Rewritten(ConstPass, t.child.schema) && t.nullable == r.nullable
  {
    hide Rewritten, Children, TakesNull, WithoutProperties;
    var u := Rewritten(ConstPass, s);
    PropertiesRewritten(s);
    if t.child in Children(WithoutProperties(s)) && !t.nullable {
      RewrittenWithout(s);
      var c := ChildAppears(ConstPass, WithoutProperties(s), t.child);
      r := Target(c, false);
    } else {
      var k :| k in Properties(s.m) && t == Target(Child("properties/" + Pointers.Escape(k), Properties(s.m)[k]), TakesNull(s.m, nullable, k));
      LooseRewritten(s, nullable, k);
      r := Target(Child("properties/" + Pointers.Escape(k), Properties(u.m)[k]), TakesNull(u.m, nullable, k));
    }
  }

  // Replacing constants changes nothing about what normalizing leaves.
  lemma {:induction false} KeptAside(s: Json, nullable: bool)
    requires Strict(s)
    ensures AdditionalKept(Rewritten(ConstPass, s), nullable) <==> AdditionalKept(s, nullable)
    decreases s
  {
    hide Rewritten, Targets, Strict, AdditionalHere, Loose;
    if s.Obj? {
      var u := Rewritten(ConstPass, s);
      RootRewritten(ConstPass, s);
      AdditionalStays(ConstPass, s);
      SameAdditionalHere(OPENAI_SUPPORTED, s, u);
      LooseRewritten(s, nullable, "");
      forall t | t in Targets(s, nullable)
        ensures AdditionalKept(Rewritten(ConstPass, t.child.schema), t.nullable) <==> AdditionalKept(t.child.schema, t.nullable)
      {
        TargetStrict(s, nullable, t);
        KeptAside(t.child.schema, t.nullable);
      }
      if AdditionalKept(s, nullable) {
        forall t | t in Targets(u, nullable) ensures AdditionalKept(t.child.schema, t.nullable) {
          var r := TargetRewritten(s, nullable, t);
        }
      } else if AdditionalKept(u, nullable) {
        forall t | t in Targets(s, nullable) ensures AdditionalKept(t.child.schema, t.nullable) {
          var r := TargetSurvives(s, nullable, t);
        }
      }
    } else {
      Unchanged(ConstPass, s);
    }
  }

  // A declaration for Google uses only keywords that the provider supports, in every schema in it.  One for OpenAI does so
  // exactly when, at each schema of the source that the walk visits and does not close, the schema for additional members
  // does.
  lemma DeclarationIsSupported(order: KeyOrder, q: Request)
    requires CompileToolContract(order, q).declaration.Some? && (q.provider == Google || q.provider == OpenAi)
    ensures q.provider == Google ==> OnlySupported(GOOGLE_SUPPORTED, CompileToolContract(order, q).declaration.value)
    ensures q.provider == OpenAi ==>
      (OnlySupported(OPENAI_SUPPORTED, CompileToolContract(order, q).declaration.value) <==>
        if q.normalize then AdditionalKept(q.schema, false) else AdditionalSupported(OPENAI_SUPPORTED, q.schema))
  {
    hide Findings, NormalizeFindings, Rewritten, Normalized, Strict, StatusFor, OnlySupported, AdditionalKept, AdditionalSupported;
    var s := Prepared(q);
    PreparedStrict(q);
    if q.provider == Google {
      StatusMeans(AllFindings(q), q.runtimeVerified);
      NoStrictPolicy(GooglePass, s, "/");
      assert Findings(GooglePass, s, "/") <= AllFindings(q);
      CleanIsSupported(GooglePass, s, "/");
    } else if q.normalize {
      NormalizedClean(order, q);
      NormalizedSupported(order, s, false, "/");
      KeptAside(q.schema, false);
    } else {
      StatusPolicy(AllFindings(q), q.runtimeVerified);
      assert Findings(DropPass, s, "/") <= AllFindings(q);
      CleanIsSupported(DropPass, s, "/");
      ConstantsAside(OPENAI_SUPPORTED, q.schema);
    }
  }

  // ----- Where a declaration for OpenAI keeps an unsupported keyword -----

  const SHORT: Json := Obj(map["type" := Str("string"), "minLength" := Num(3.0)])
  const NULLABLE_TYPE: Json := Arr([Str("object"), Str("null")])

  lemma ShortUnsupported()
    ensures !OnlySupported(OPENAI_SUPPORTED, SHORT)
  {
    assert "minLength" in SHORT.m.Keys && "minLength" !in OPENAI_SUPPORTED;
  }

  // A schema with a type and a schema for additional members, and nothing else.
  predicate Leaf(s: Json) {
    s.Obj? && s.m.Keys == {"type", "additionalProperties"}
  }

  lemma LeafStrict(s: Json)
    requires Leaf(s)
    ensures Strict(s)
  {
    hide IsSingle, IsList, IsMap;
    TypeElsewhere();
    assert StrictAt(s, "type") && StrictAt(s, "additionalProperties");
  }

  lemma LeafChildless(s: Json)
    requires Leaf(s)
    ensures Children(s) == {}
  {
    hide IsSingle, IsList, IsMap;
    TypeElsewhere();
    assert forall key :: key in s.m ==> key == "type" || key == "additionalProperties";
  }

  lemma LeafParts(s: Json)
    requires Leaf(s)
    ensures s.Obj? && Strict(s) && Children(s) == {} && Targets(s, true) == {} && Targets(s, false) == {}
  {
    hide Children, Strict;
    LeafStrict(s);
    LeafChildless(s);
    OthersAreChildren(s);
    assert Properties(s.m) == map[];
  }

  lemma LeafKeywords(s: Json, path: string)
    requires Leaf(s)
    ensures OpenAiKeywords(s.m, path) == {} && ConstFindings(s.m, path) == {}
  {
    hide Pointer;
  }

  lemma LeafFindings(s: Json, nullable: bool, path: string)
    requires Leaf(s)
    ensures s.Obj? && Findings(ConstPass, s, path) == {}
    ensures !Loose(s.m) ==> Findings(DropPass, s, path) == {}
    ensures nullable || !Loose(s.m) ==> NormalizeFindings(s, nullable, path) == {}
  {
    hide Leaf, OpenAiKeywords, Loose, Children, Targets, ConstFindings;
    LeafParts(s);
    LeafKeywords(s, path);
    assert Targets(s, nullable) == {};
    if !Loose(s.m) { assert OpenAiFindings(s.m, path) == {}; }
    if nullable || !Loose(s.m) { assert NormalizeOwn(s.m, nullable, path) == {}; }
  }

  // An object that may also be null is not closed, and what its additional members must satisfy is not looked at: the
  // declaration is the source with its unsupported keyword, and no issue.
  lemma AdditionalKeywordDeclared(order: KeyOrder, normalize: bool)
    ensures var s := Obj(map["type" := NULLABLE_TYPE, "additionalProperties" := SHORT]);
      var c := CompileToolContract(order, Request(OpenAi, s, normalize, true, true, true));
      c.status == Native && c.declaration == Some(s) && c.findings == {} && !OnlySupported(OPENAI_SUPPORTED, s)
  {
    hide Rewritten, Normalized, Strict, OnlySupported, SHORT, AllFindings;
    var s := Obj(map["type" := NULLABLE_TYPE, "additionalProperties" := SHORT]);
    var q := Request(OpenAi, s, normalize, true, true, true);
    LeafReported(q);
    NothingIsNative(order, q);
    NativeIsUnchanged(order, q);
    KeptUnsupported(s);
  }

  lemma LeafReported(q: Request)
    requires Leaf(q.schema) && !Loose(q.schema.m) && Get(q.schema.m, "type") == Some(NULLABLE_TYPE)
    requires q.provider == OpenAi && q.nameOk && q.valid
    ensures AllFindings(q) == {}
  {
    hide Findings, NormalizeFindings, Rewritten, Strict, Loose, Leaf;
    var s := q.schema;
    LeafParts(s);
    LeafFindings(s, false, "/");
    NoTransformNoChange(ConstPass, s, "/");
    ObjectAmongTypes();
  }

  lemma NothingIsNative(order: KeyOrder, q: Request)
    requires AllFindings(q) == {} && q.runtimeVerified
    ensures CompileToolContract(order, q).status == Native && CompileToolContract(order, q).findings == {}
  {
    hide AllFindings;
  }

  lemma ObjectAmongTypes()
    ensures "object" in TypeSet(Some(NULLABLE_TYPE))
  {
    assert NULLABLE_TYPE.items[0] == Str("object");
  }

  lemma KeptUnsupported(s: Json)
    requires s.Obj? && Get(s.m, "additionalProperties") == Some(SHORT)
    ensures !AdditionalHere(OPENAI_SUPPORTED, s) && !OnlySupported(OPENAI_SUPPORTED, s)
  {
    ShortUnsupported();
  }

  // Nor is an optional property that normalizing has just made to take null.
  lemma NormalizedKeywordDeclared(order: KeyOrder)
    ensures var p := Obj(map["type" := Str("object"), "additionalProperties" := SHORT]);
      var s := Obj(map["type" := Str("object"), "properties" := Obj(map["p" := p])]);
      var c := CompileToolContract(order, Request(OpenAi, s, true, true, true, true));
      c.declaration.Some? && NoIssues(c.findings) && !OnlySupported(OPENAI_SUPPORTED, c.declaration.value)
  {
    hide Findings, NormalizeFindings, Rewritten, Normalized, Strict, OnlySupported, SHORT, Targets, Children, StatusFor, NoIssues;
    var p := Obj(map["type" := Str("object"), "additionalProperties" := SHORT]);
    var s := Obj(map["type" := Str("object"), "properties" := Obj(map["p" := p])]);
    var q := Request(OpenAi, s, true, true, true, true);
    LeafParts(p);
    OnlyProperty(s, p);
    PropertyConstants(s, p);
    PropertyFindings(s, p);
    NoTransformNoChange(ConstPass, s, "/");
    assert AllFindings(q) == NormalizeFindings(s, false, "/");
    StatusMeans(AllFindings(q), true);
    IssueFree(AllFindings(q));
    DeclarationIsSupported(order, q);
    KeptUnsupported(p);
    NotKept(s, p);
  }

  lemma IssueFree(findings: set<Finding>)
    requires NoIssues(findings)
    ensures NoBlockers(findings)
  {
  }

  predicate HasOnlyProperty(s: Json, p: Json) {
    s == Obj(map["type" := Str("object"), "properties" := Obj(map["p" := p])])
  }

  lemma OnlyProperty(s: Json, p: Json)
    requires HasOnlyProperty(s, p) && Strict(p)
    ensures Strict(s) && RootIsObject(s) && Loose(s.m) && "p" in Optional(s.m) && Properties(s.m) == map["p" := p]
    ensures Children(s) == {Child("properties/p", p)} && Children(WithoutProperties(s)) == {}
    ensures Targets(s, false) == {Target(Child("properties/p", p), true)}
  {
    hide Strict;
    OnlyPropertyStrict(s, p);
    EscapeP();
    PropertiesKey();
    OnlyPropertyChildren(s, p);
    assert Required(s.m) == {} && Optional(s.m) == {"p"};
  }

  lemma EscapeP()
    ensures "properties" + "/" + Pointers.Escape("p") == "properties/p" && "properties/" + Pointers.Escape("p") == "properties/p"
  {
    assert "p"[1..] == "" && ['p'] + "" == "p";
    assert Pointers.ReplaceChar("p", '~', "~0") == "p" && Pointers.ReplaceChar("p", '/', "~1") == "p";
  }

  lemma OnlyPropertyStrict(s: Json, p: Json)
    requires HasOnlyProperty(s, p) && Strict(p)
    ensures Strict(s) && RootIsObject(s)
  {
    assert StrictAt(s, "type") && StrictAt(s, "properties");
  }

  lemma OnlyPropertyChildren(s: Json, p: Json)
    requires HasOnlyProperty(s, p)
    ensures Children(s) == {Child("properties/p", p)} && Children(WithoutProperties(s)) == {}
  {
    hide IsSingle, IsList, IsMap, WithoutProperties;
    EscapeP();
    PropertiesKey();
    TypeElsewhere();
    assert s.m.Keys == {"type", "properties"};
    MemberIsChild(s, "properties", "p");
    OnlyTypeLeft(s);
  }

  lemma OnlyTypeLeft(s: Json)
    requires s.Obj? && s.m.Keys == {"type", "properties"}
    ensures Children(WithoutProperties(s)) == {}
  {
    hide IsSingle, IsList, IsMap;
    TypeElsewhere();
    assert WithoutProperties(s).m.Keys == {"type"};
  }

  lemma PropertyKeywords(s: Json, p: Json)
    requires HasOnlyProperty(s, p)
    ensures OpenAiKeywords(s.m, "/") == {} && ConstFindings(s.m, "/") == {}
  {
    hide Pointer;
  }

  lemma PropertyConstants(s: Json, p: Json)
    requires HasOnlyProperty(s, p) && Leaf(p) && Strict(p)
    ensures Findings(ConstPass, s, "/") == {}
  {
    hide Children, Targets, Strict, Loose, Leaf, ConstFindings, Optional;
    OnlyProperty(s, p);
    PropertyKeywords(s, p);
    LeafFindings(p, true, AppendRelative("/", Place(ConstPass, "properties/p")));
  }

  lemma PropertyFindings(s: Json, p: Json)
    requires HasOnlyProperty(s, p) && Leaf(p) && Strict(p)
    ensures NoIssues(NormalizeFindings(s, false, "/"))
  {
    hide Children, Targets, Strict, Loose, Leaf, Optional, OpenAiKeywords, NormalizeOwn;
    OnlyProperty(s, p);
    PropertyKeywords(s, p);
    LeafFindings(p, true, AppendRelative("/", "properties/p"));
    NormalizeOwnTransforms(s.m, "/");
    assert NormalizeFindings(s, false, "/") == NormalizeOwn(s.m, false, "/");
  }

  lemma NormalizeOwnTransforms(f: Fields, path: string)
    requires OpenAiKeywords(f, path) == {}
    ensures NoIssues(NormalizeOwn(f, false, path))
  {
    hide OpenAiKeywords, Loose, Optional, NeedsClose, Pointer;
  }

  lemma NotKept(s: Json, p: Json)
    requires HasOnlyProperty(s, p) && Strict(p) && p.Obj? && !AdditionalHere(OPENAI_SUPPORTED, p)
    ensures !AdditionalKept(s, false)
  {
    hide Targets, AdditionalHere, Strict, Loose;
    OnlyProperty(s, p);
    var t := Target(Child("properties/p", p), true);
    assert t in Targets(s, false) && !AdditionalKept(t.child.schema, t.nullable);
  }

  lemma StatusPolicy(findings: set<Finding>, runtimeVerified: bool)
    requires StatusFor(findings, runtimeVerified) != Unsupported && StatusFor(findings, runtimeVerified) != PolicyRequired
    ensures NoIssues(findings)
  {
  }
}
