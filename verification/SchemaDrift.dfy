/**
 Schema drift: a syntactic comparison that says whether calls valid under the old
 schema stay valid.  Changes are a set; the log object below pushes the same changes
 in some order of the keys.
 */
module SchemaDrift {
  import opened Common
  import opened JsonSchema
  import Pointers

  datatype Compatibility = Breaking | Review | NonBreaking
  datatype Kind =
    | TypeChanged | RequiredAdded | RequiredRemoved | PropertyRemoved | PropertyAdded | EnumNarrowed | EnumWidened
    | ConstAdded | ConstRemoved | ConstChanged | ClosedObject | OpenedObject
    | Tightened | Relaxed | ConstraintChanged | SchemaRestricted | SchemaRelaxed | Unclassified
  datatype Change = Change(path: string, kind: Kind, compatibility: Compatibility)
  datatype Verdict = Identical | BreakingDrift | ReviewDrift | BackwardCompatible

  function At(path: string): string {
    if path == "" then "/" else path
  }

  function Below(path: string, key: string): string {
    path + "/" + Pointers.Escape(key)
  }

  function One(path: string, kind: Kind, compatibility: Compatibility): set<Change> {
    {Change(At(path), kind, compatibility)}
  }

  function When(condition: bool, changes: set<Change>): set<Change> {
    if condition then changes else {}
  }

  // ----- The keywords, one by one -----

  function BooleanChanges(before: Json, after: Json, path: string): set<Change> {
    if before == after then {}
    else if before == Bool(true) then One(path, SchemaRestricted, Breaking)
    else if after == Bool(true) then One(path, SchemaRelaxed, NonBreaking)
    else if before == Bool(false) then One(path, SchemaRelaxed, NonBreaking)
    else One(path, SchemaRestricted, Breaking)
  }

  function TypeChanges(before: Option<Json>, after: Option<Json>, path: string): set<Change> {
    var left, right := TypeSet(before), TypeSet(after);
    if left == right then {}
    else if left == {} then One(path, TypeChanged, Breaking)
    else if right == {} then One(path, TypeChanged, NonBreaking)
    else if right <= left then One(path, TypeChanged, Breaking)
    else if left <= right then One(path, TypeChanged, NonBreaking)
    else One(path, TypeChanged, Breaking)
  }

  function Required(f: Fields): set<string> {
    StringsIn(ItemsAt(f, "required"))
  }

  function RequiredChanges(before: Fields, after: Fields, path: string): set<Change> {
    (set k | k in Required(after) - Required(before) :: Change(Below(path, k), RequiredAdded, Breaking))
    + (set k | k in Required(before) - Required(after) :: Change(Below(path, k), RequiredRemoved, NonBreaking))
  }

  predicate Closed(f: Fields) {
    Get(f, "additionalProperties") == Some(Bool(false))
  }

  function Properties(f: Fields): Fields {
    FieldsAt(f, "properties")
  }

  // What becomes of one declared property of the old schema, its own changes aside.
  function PropertyChanges(before: Fields, after: Fields, k: string, path: string): set<Change>
    requires k in Properties(before)
  {
    if k !in Properties(after) then One(Below(path, k), PropertyRemoved, if Closed(before) then Breaking else Review)
    else
      var left, right := Properties(before)[k], Properties(after)[k];
      When(!(IsSchema(left) && IsSchema(right)) && left != right, One(Below(path, k), Unclassified, Review))
  }

  function AddedChanges(before: Fields, after: Fields, path: string): set<Change> {
    set k | k in Properties(after) && k !in Properties(before) ::
      Change(Below(path, k), PropertyAdded, if k in Required(after) then Breaking else NonBreaking)
  }

  function EnumChanges(before: Option<Json>, after: Option<Json>, path: string): set<Change> {
    var left, right := before.Some? && before.value.Arr?, after.Some? && after.value.Arr?;
    if !left && right then One(path, EnumNarrowed, Breaking)
    else if left && !right then One(path, EnumWidened, NonBreaking)
    else if !left then {}
    else
      When(exists x :: x in before.value.items && x !in after.value.items, One(path, EnumNarrowed, Breaking))
      + When(exists x :: x in after.value.items && x !in before.value.items, One(path, EnumWidened, NonBreaking))
  }

  function ConstChanges(before: Option<Json>, after: Option<Json>, path: string): set<Change> {
    if before.None? && after.Some? then One(path, ConstAdded, Breaking)
    else if before.Some? && after.None? then One(path, ConstRemoved, NonBreaking)
    else When(before != after, One(path, ConstChanged, Breaking))
  }

  function AdditionalChanges(before: Fields, after: Fields, path: string): set<Change> {
    if !Closed(before) && Closed(after) then One(path, ClosedObject, Breaking)
    else if Closed(before) && !Closed(after) then One(path, OpenedObject, NonBreaking)
    else When(Get(before, "additionalProperties") != Get(after, "additionalProperties"), One(path, ConstraintChanged, Review))
  }

  predicate IsNumber(j: Option<Json>) {
    j.Some? && j.value.Num?
  }

  function BoundChanges(before: Fields, after: Fields, key: string, path: string): set<Change> {
    var left, right := Get(before, key), Get(after, key);
    if left.None? && right.None? then {}
    else if left.None? && IsNumber(right) then One(path, Tightened, Breaking)
    else if IsNumber(left) && right.None? then One(path, Relaxed, NonBreaking)
    else if IsNumber(left) && IsNumber(right) && left != right then
      var tighter := if key in LOWER_BOUNDS then right.value.n > left.value.n else right.value.n < left.value.n;
      One(path, if tighter then Tightened else Relaxed, if tighter then Breaking else NonBreaking)
    else When(left != right, One(path, ConstraintChanged, Review))
  }

  // Number.isInteger of a quotient; dividing by zero gives no integer.
  predicate DividesInto(x: real, d: real) {
    d != 0.0 && IsInteger(x / d)
  }

  function MultipleChanges(before: Fields, after: Fields, path: string): set<Change> {
    var left, right := Get(before, "multipleOf"), Get(after, "multipleOf");
    if left.None? && right.None? then {}
    else if left.None? && IsNumber(right) then One(path, Tightened, Breaking)
    else if IsNumber(left) && right.None? then One(path, Relaxed, NonBreaking)
    else if IsNumber(left) && IsNumber(right) && left != right then
      if DividesInto(right.value.n, left.value.n) then One(path, Tightened, Breaking)
      else if DividesInto(left.value.n, right.value.n) then One(path, Relaxed, NonBreaking)
      else One(path, ConstraintChanged, Review)
    else When(left != right, One(path, ConstraintChanged, Review))
  }

  function PatternChanges(before: Option<Json>, after: Option<Json>, path: string): set<Change> {
    if before == after then {}
    else if before.None? then One(path, Tightened, Breaking)
    else if after.None? then One(path, Relaxed, NonBreaking)
    else One(path, ConstraintChanged, Review)
  }

  const HANDLED: set<string> := LOWER_BOUNDS + UPPER_BOUNDS +
    {"type", "required", "properties", "enum", "const", "additionalProperties", "multipleOf", "pattern"}

  // Any other keyword counts by its value alone.
  function OtherChanges(before: Fields, after: Fields, path: string): set<Change> {
    set key | key in before.Keys + after.Keys && key !in HANDLED && Get(before, key) != Get(after, key) ::
      Change(At(path), Unclassified, if key in ANNOTATIONS then NonBreaking else Review)
  }

  function OwnChanges(before: Fields, after: Fields, path: string): set<Change> {
    TypeChanges(Get(before, "type"), Get(after, "type"), path)
    + RequiredChanges(before, after, path)
    + (set k, c | k in Properties(before) && c in PropertyChanges(before, after, k, path) :: c)
    + AddedChanges(before, after, path)
    + EnumChanges(Get(before, "enum"), Get(after, "enum"), path)
    + ConstChanges(Get(before, "const"), Get(after, "const"), path)
    + AdditionalChanges(before, after, path)
    + (set key, c | key in LOWER_BOUNDS + UPPER_BOUNDS && c in BoundChanges(before, after, key, path) :: c)
    + MultipleChanges(before, after, path)
    + PatternChanges(Get(before, "pattern"), Get(after, "pattern"), path)
    + OtherChanges(before, after, path)
  }

  // Declared properties that both schemas describe by a schema are compared in turn.
  predicate Shared(before: Fields, after: Fields, k: string) {
    k in Properties(before) && k in Properties(after) && IsSchema(Properties(before)[k]) && IsSchema(Properties(after)[k])
  }

  function Changes(before: Json, after: Json, path: string): set<Change>
    requires IsSchema(before) && IsSchema(after)
    decreases before
  {
    if before.Bool? || after.Bool? then BooleanChanges(before, after, path)
    else
      OwnChanges(before.m, after.m, path)
      + (set k, c | k in Properties(before.m) && Shared(before.m, after.m, k)
                    && c in Changes(Properties(before.m)[k], Properties(after.m)[k], Below(path, k)) :: c)
  }

  // ----- The verdict -----

  function VerdictOf(changes: set<Change>): Verdict {
    if exists c :: c in changes && c.compatibility == Breaking then BreakingDrift
    else if exists c :: c in changes && c.compatibility == Review then ReviewDrift
    else BackwardCompatible
  }

  // A difference that no rule explains asks for review.
  function AllChanges(previous: Json, current: Json): set<Change>
    requires IsSchema(previous) && IsSchema(current)
  {
    if previous == current then {}
    else
      var changes := Changes(previous, current, "");
      if changes == {} then One("", Unclassified, Review) else changes
  }

  function DetectDrift(previous: Json, current: Json): Verdict
    requires IsSchema(previous) && IsSchema(current)
  {
    if previous == current then Identical else VerdictOf(AllChanges(previous, current))
  }

  // ----- Where a property is gained -----

  // Each object that gains a declared property was closed, with no patterns for other names.
  ghost predicate GainsOnlyWhereClosed(before: Json, after: Json)
    decreases before
  {
    before.Obj? && after.Obj? ==>
      && (forall k :: k in Properties(after.m) && k !in Properties(before.m) ==> Closed(before.m) && FieldsAt(before.m, "patternProperties") == map[])
      && (forall k :: k in Properties(before.m) && Shared(before.m, after.m, k) ==> GainsOnlyWhereClosed(Properties(before.m)[k], Properties(after.m)[k]))
  }

  ghost predicate Harmless(changes: set<Change>) {
    forall c :: c in changes ==> c.compatibility == NonBreaking
  }

  // ----- Soundness, keyword by keyword -----

  lemma TypeSound(before: Fields, after: Fields, path: string, v: Json)
    requires Harmless(TypeChanges(Get(before, "type"), Get(after, "type"), path)) && Get(before, "nullable") == Get(after, "nullable")
    requires TypeOk(before, v)
    ensures TypeOk(after, v)
  {
    hide HasType, TypeSet;
    var left, right := TypeSet(Get(before, "type")), TypeSet(Get(after, "type"));
    if left != right && right != {} {
      assert Change(At(path), TypeChanged, Breaking) !in TypeChanges(Get(before, "type"), Get(after, "type"), path);
    }
  }

  lemma EnumConstSound(before: Fields, after: Fields, path: string, v: Json)
    requires Harmless(EnumChanges(Get(before, "enum"), Get(after, "enum"), path)) && Harmless(ConstChanges(Get(before, "const"), Get(after, "const"), path))
    requires EnumOk(before, v) && ConstOk(before, v)
    ensures EnumOk(after, v) && ConstOk(after, v)
  {
    assert Change(At(path), EnumNarrowed, Breaking) !in EnumChanges(Get(before, "enum"), Get(after, "enum"), path);
    assert Change(At(path), ConstAdded, Breaking) !in ConstChanges(Get(before, "const"), Get(after, "const"), path);
    assert Change(At(path), ConstChanged, Breaking) !in ConstChanges(Get(before, "const"), Get(after, "const"), path);
  }

  lemma BoundSound(before: Fields, after: Fields, key: string, path: string, v: Json)
    requires key in LOWER_BOUNDS + UPPER_BOUNDS && Harmless(BoundChanges(before, after, key, path)) && BoundOk(before, key, v)
    ensures BoundOk(after, key, v)
  {
    var changes := BoundChanges(before, after, key, path);
    assert Change(At(path), Tightened, Breaking) !in changes && Change(At(path), ConstraintChanged, Review) !in changes;
  }

  lemma QuotientTimes(x: real, d: real, q: real)
    requires d != 0.0
    ensures x / d == q <==> x == q * d
  {
  }

  lemma ProductReal(m: int, n: int, d: real)
    ensures m as real * (n as real * d) == (m * n) as real * d
  {
    assert m as real * n as real == (m * n) as real;
  }

  // A multiple of a multiple.
  lemma QuotientInteger(x: real, a: real, b: real)
    requires a != 0.0 && b != 0.0 && IsInteger(x / a) && IsInteger(a / b)
    ensures IsInteger(x / b)
  {
    var m, n := (x / a).Floor, (a / b).Floor;
    QuotientTimes(x, a, m as real);
    QuotientTimes(a, b, n as real);
    ProductReal(m, n, b);
    QuotientTimes(x, b, (m * n) as real);
  }

  lemma MultipleSound(before: Fields, after: Fields, path: string, v: Json)
    requires Harmless(MultipleChanges(before, after, path)) && MultipleOk(before, v)
    ensures MultipleOk(after, v)
  {
    var changes := MultipleChanges(before, after, path);
    assert Change(At(path), Tightened, Breaking) !in changes && Change(At(path), ConstraintChanged, Review) !in changes;
    var left, right := Get(before, "multipleOf"), Get(after, "multipleOf");
    if IsNumber(left) && IsNumber(right) && left != right && v.Num? {
      if left.value.n != 0.0 { QuotientInteger(v.n, left.value.n, right.value.n); }
    }
  }

  lemma PatternSound(o: Oracle, before: Fields, after: Fields, path: string, v: Json)
    requires Harmless(PatternChanges(Get(before, "pattern"), Get(after, "pattern"), path)) && PatternOk(o, before, v)
    ensures PatternOk(o, after, v)
  {
    var changes := PatternChanges(Get(before, "pattern"), Get(after, "pattern"), path);
    assert Change(At(path), Tightened, Breaking) !in changes && Change(At(path), ConstraintChanged, Review) !in changes;
  }

  lemma NewlyRequired(before: Fields, after: Fields, path: string, k: string)
    requires k in Required(after) && k !in Required(before)
    ensures Change(Below(path, k), RequiredAdded, Breaking) in RequiredChanges(before, after, path)
  {
  }

  lemma RequiredSound(before: Fields, after: Fields, path: string, v: Json)
    requires Harmless(RequiredChanges(before, after, path)) && RequiredOk(before, v)
    ensures RequiredOk(after, v)
  {
    forall k | k in Required(after) ensures k in Required(before) {
      if k !in Required(before) { NewlyRequired(before, after, path, k); }
    }
    assert Required(after) <= Required(before);
  }

  predicate ComparedByValue(key: string) {
    key !in HANDLED && key !in ANNOTATIONS
  }

  lemma ValueKeys1()
    ensures ComparedByValue("nullable") && ComparedByValue("format") && ComparedByValue("patternProperties") && ComparedByValue("dependentSchemas")
  {
  }

  lemma ValueKeys2()
    ensures ComparedByValue("prefixItems") && ComparedByValue("items") && ComparedByValue("not") && ComparedByValue("anyOf")
  {
  }

  lemma ValueKeys3()
    ensures ComparedByValue("allOf") && ComparedByValue("oneOf") && ComparedByValue("if") && ComparedByValue("then") && ComparedByValue("else")
  {
  }

  lemma ValueKeys4()
    ensures ComparedByValue("$ref") && ComparedByValue("ref") && ComparedByValue("$defs") && ComparedByValue("defs")
  {
  }

  lemma ValueKeys()
    ensures ComparedByValue("nullable") && ComparedByValue("format") && ComparedByValue("patternProperties") && ComparedByValue("dependentSchemas")
    ensures ComparedByValue("prefixItems") && ComparedByValue("items") && ComparedByValue("not") && ComparedByValue("anyOf")
    ensures ComparedByValue("allOf") && ComparedByValue("oneOf") && ComparedByValue("if") && ComparedByValue("then") && ComparedByValue("else")
    ensures ComparedByValue("$ref") && ComparedByValue("ref") && ComparedByValue("$defs") && ComparedByValue("defs")
  {
    hide ComparedByValue;
    ValueKeys1();
    ValueKeys2();
    ValueKeys3();
    ValueKeys4();
  }

  lemma OtherListed(before: Fields, after: Fields, path: string, key: string)
    requires Get(before, key) != Get(after, key) && ComparedByValue(key)
    ensures Change(At(path), Unclassified, Review) in OtherChanges(before, after, path)
  {
    assert key in before.Keys + after.Keys;
  }

  lemma OthersSame(before: Fields, after: Fields, path: string, key: string)
    requires Harmless(OtherChanges(before, after, path)) && ComparedByValue(key)
    ensures Get(before, key) == Get(after, key)
  {
    hide OtherChanges;
    if Get(before, key) != Get(after, key) { OtherListed(before, after, path, key); }
  }

  lemma RestSame(before: Fields, after: Fields, path: string)
    requires Harmless(OtherChanges(before, after, path))
    ensures Rest(before) == Rest(after)
  {
    forall key ensures Get(Rest(before), key) == Get(Rest(after), key) {
      if key !in STRUCTURED && key !in ANNOTATIONS {
        OthersSame(before, after, path, key);
      }
    }
    SameFields(Rest(before), Rest(after));
  }

  lemma SameFields(f: Fields, g: Fields)
    requires forall key :: Get(f, key) == Get(g, key)
    ensures f == g
  {
    assert forall key :: key in f <==> key in g by {
      forall key ensures key in f <==> key in g { assert Get(f, key) == Get(g, key); }
    }
    forall key | key in f ensures f[key] == g[key] { assert Get(f, key) == Get(g, key); }
  }

  lemma BoundsSound(before: Fields, after: Fields, path: string, v: Json)
    requires Harmless(OwnChanges(before, after, path)) && BoundsOk(before, v)
    ensures BoundsOk(after, v)
  {
    hide BoundOk, BoundChanges;
    forall key | key in LOWER_BOUNDS + UPPER_BOUNDS ensures BoundOk(after, key, v) {
      assert forall c :: c in BoundChanges(before, after, key, path) ==> c in OwnChanges(before, after, path);
      BoundSound(before, after, key, path, v);
    }
  }

  // The parts of the own changes are harmless when the whole is.
  lemma PartsHarmless(before: Fields, after: Fields, path: string)
    requires Harmless(OwnChanges(before, after, path))
    ensures Harmless(TypeChanges(Get(before, "type"), Get(after, "type"), path)) && Harmless(RequiredChanges(before, after, path))
    ensures Harmless(AddedChanges(before, after, path)) && Harmless(EnumChanges(Get(before, "enum"), Get(after, "enum"), path))
    ensures Harmless(ConstChanges(Get(before, "const"), Get(after, "const"), path)) && Harmless(AdditionalChanges(before, after, path))
    ensures Harmless(MultipleChanges(before, after, path)) && Harmless(PatternChanges(Get(before, "pattern"), Get(after, "pattern"), path))
    ensures Harmless(OtherChanges(before, after, path))
  {
    hide TypeChanges, RequiredChanges, AddedChanges, EnumChanges, ConstChanges, AdditionalChanges, MultipleChanges, PatternChanges, OtherChanges;
  }

  lemma LocalSound(o: Oracle, before: Fields, after: Fields, path: string, v: Json)
    requires Harmless(OwnChanges(before, after, path)) && LocalOk(o, before, v)
    ensures LocalOk(o, after, v)
  {
    hide Harmless, OwnChanges, TypeOk, EnumOk, ConstOk, BoundsOk, MultipleOk, PatternOk, RequiredOk, Rest, ComparedByValue;
    ValueKeys();
    PartsHarmless(before, after, path);
    OthersSame(before, after, path, "nullable");
    TypeSound(before, after, path, v);
    EnumConstSound(before, after, path, v);
    BoundsSound(before, after, path, v);
    MultipleSound(before, after, path, v);
    PatternSound(o, before, after, path, v);
    RequiredSound(before, after, path, v);
    OthersSame(before, after, path, "format");
    RestSame(before, after, path);
  }

  // ----- Soundness of the applicators -----

  lemma PropertyKept(before: Fields, after: Fields, k: string, path: string)
    requires Harmless(OwnChanges(before, after, path)) && k in Properties(before)
    ensures k in Properties(after)
    ensures Shared(before, after, k) || Properties(before)[k] == Properties(after)[k]
  {
    hide TypeChanges, RequiredChanges, AddedChanges, EnumChanges, ConstChanges, AdditionalChanges, MultipleChanges, PatternChanges, OtherChanges, BoundChanges;
    assert forall c :: c in PropertyChanges(before, after, k, path) ==> c in OwnChanges(before, after, path);
    assert k !in Properties(after) ==> Change(At(Below(path, k)), PropertyRemoved, if Closed(before) then Breaking else Review) in PropertyChanges(before, after, k, path);
    assert k in Properties(after) && !Shared(before, after, k) && Properties(before)[k] != Properties(after)[k] ==>
      Change(At(Below(path, k)), Unclassified, Review) in PropertyChanges(before, after, k, path);
  }

  // Members that the new schema leaves to additionalProperties were left to it by the old one, or were not allowed at all.
  lemma AdditionalBefore(o: Oracle, before: Fields, after: Fields, path: string, k: string)
    requires Harmless(OwnChanges(before, after, path)) && IsAdditional(o, after, k)
    ensures IsAdditional(o, before, k)
  {
    hide OwnChanges, MatchesPattern, OtherChanges, ComparedByValue;
    ValueKeys();
    PartsHarmless(before, after, path);
    SameKey(before, after, path, "patternProperties");
    SamePatterns(o, before, after, k);
    if k in Properties(before) { PropertyKept(before, after, k, path); }
  }

  lemma AdditionalSound(fuel: nat, c: Context, before: Json, after: Json, path: string, v: Json, k: string)
    requires before.Obj? && after.Obj? && v.Obj? && k in v.m && Harmless(OwnChanges(before.m, after.m, path))
    requires MembersOk(fuel, c, before, v) && "additionalProperties" in after.m && IsAdditional(c.oracle, after.m, k)
    ensures Accepts(fuel, c, after.m["additionalProperties"], v.m[k])
  {
    hide Accepts, OwnChanges, MembersOk, IsAdditional;
    PartsHarmless(before.m, after.m, path);
    AdditionalBefore(c.oracle, before.m, after.m, path, k);
    var changes := AdditionalChanges(before.m, after.m, path);
    assert Change(At(path), ClosedObject, Breaking) !in changes && Change(At(path), ConstraintChanged, Review) !in changes;
    if Closed(before.m) {
      ClosedRejects(fuel, c, before, v, k);
    } else {
      AdditionalApplies(fuel, c, before, v, k);
    }
  }

  lemma SamePatterns(o: Oracle, f: Fields, g: Fields, k: string)
    requires FieldsAt(f, "patternProperties") == FieldsAt(g, "patternProperties")
    ensures MatchesPattern(o, f, k) == MatchesPattern(o, g, k)
  {
  }

  lemma ClosedRejects(fuel: nat, c: Context, s: Json, v: Json, k: string)
    requires s.Obj? && v.Obj? && Closed(s.m) && MembersOk(fuel, c, s, v) && IsAdditional(c.oracle, s.m, k)
    ensures k !in v.m
  {
    hide MembersOk, IsAdditional;
    if k in v.m { AdditionalApplies(fuel, c, s, v, k); }
  }

  lemma AdditionalApplies(fuel: nat, c: Context, s: Json, v: Json, k: string)
    requires s.Obj? && v.Obj? && k in v.m && MembersOk(fuel, c, s, v) && IsAdditional(c.oracle, s.m, k) && "additionalProperties" in s.m
    ensures Accepts(fuel, c, s.m["additionalProperties"], v.m[k])
  {
    hide Accepts;
  }

  // A property that is declared now and was not before does not occur in an old value of a closed object.
  lemma GainedAbsent(fuel: nat, c: Context, before: Json, after: Json, v: Json, k: string)
    requires before.Obj? && after.Obj? && v.Obj? && GainsOnlyWhereClosed(before, after) && MembersOk(fuel, c, before, v)
    requires k in Properties(after.m) && k !in Properties(before.m)
    ensures k !in v.m
  {
    hide Accepts, MembersOk;
    assert IsAdditional(c.oracle, before.m, k);
    ClosedRejects(fuel, c, before, v, k);
  }

  lemma NestedHarmless(before: Json, after: Json, path: string, k: string)
    requires before.Obj? && after.Obj? && Harmless(Changes(before, after, path)) && k in Properties(before.m) && Shared(before.m, after.m, k)
    ensures Harmless(Changes(Properties(before.m)[k], Properties(after.m)[k], Below(path, k)))
    ensures Harmless(OwnChanges(before.m, after.m, path))
  {
    hide OwnChanges;
    forall c | c in Changes(Properties(before.m)[k], Properties(after.m)[k], Below(path, k)) ensures c.compatibility == NonBreaking {
      NestedListed(before, after, path, k, c);
    }
  }

  lemma NestedListed(before: Json, after: Json, path: string, k: string, c: Change)
    requires before.Obj? && after.Obj? && k in Properties(before.m) && Shared(before.m, after.m, k)
    requires c in Changes(Properties(before.m)[k], Properties(after.m)[k], Below(path, k))
    ensures c in Changes(before, after, path)
  {
    hide OwnChanges, Below;
  }

  lemma OwnHarmless(before: Json, after: Json, path: string)
    requires before.Obj? && after.Obj? && Harmless(Changes(before, after, path))
    ensures Harmless(OwnChanges(before.m, after.m, path))
  {
    hide OwnChanges;
  }

  lemma {:induction false} PropertiesSound(fuel: nat, c: Context, before: Json, after: Json, path: string, v: Json, k: string)
    requires before.Obj? && after.Obj? && v.Obj? && Harmless(Changes(before, after, path)) && GainsOnlyWhereClosed(before, after)
    requires MembersOk(fuel, c, before, v) && k in Properties(after.m) && k in v.m
    ensures Accepts(fuel, c, Properties(after.m)[k], v.m[k])
    decreases before, 0
  {
    hide Accepts, OwnChanges, IsAdditional, Changes;
    OwnHarmless(before, after, path);
    if k !in Properties(before.m) {
      GainedAbsent(fuel, c, before, after, v, k);
    } else {
      PropertyKept(before.m, after.m, k, path);
      PropertyApplies(fuel, c, before, v, k);
      if Shared(before.m, after.m, k) {
        NestedHarmless(before, after, path, k);
        AcceptsSound(fuel, c, Properties(before.m)[k], Properties(after.m)[k], Below(path, k), v.m[k]);
      }
    }
  }

  lemma PropertyApplies(fuel: nat, c: Context, s: Json, v: Json, k: string)
    requires s.Obj? && v.Obj? && MembersOk(fuel, c, s, v) && k in Properties(s.m) && k in v.m
    ensures Accepts(fuel, c, Properties(s.m)[k], v.m[k])
  {
    hide Accepts, IsAdditional;
  }

  lemma {:induction false} MembersSound(fuel: nat, c: Context, before: Json, after: Json, path: string, v: Json)
    requires before.Obj? && after.Obj? && Harmless(Changes(before, after, path)) && GainsOnlyWhereClosed(before, after)
    requires MembersOk(fuel, c, before, v)
    ensures MembersOk(fuel, c, after, v)
    decreases before, 1
  {
    hide Accepts, OwnChanges, OtherChanges, IsAdditional, Changes, GainsOnlyWhereClosed, ComparedByValue;
    ValueKeys();
    if v.Obj? {
      OwnHarmless(before, after, path);
      PartsHarmless(before.m, after.m, path);
      SameKey(before.m, after.m, path, "patternProperties");
      SameKey(before.m, after.m, path, "dependentSchemas");
      forall k | k in Properties(after.m) && k in v.m ensures Accepts(fuel, c, Properties(after.m)[k], v.m[k]) {
        PropertiesSound(fuel, c, before, after, path, v, k);
      }
      if "additionalProperties" in after.m {
        forall k | k in v.m && IsAdditional(c.oracle, after.m, k) ensures Accepts(fuel, c, after.m["additionalProperties"], v.m[k]) {
          AdditionalSound(fuel, c, before, after, path, v, k);
        }
      }
    }
  }

  lemma SameAt(f: Fields, g: Fields, key: string)
    requires Get(f, key) == Get(g, key)
    ensures FieldsAt(f, key) == FieldsAt(g, key) && ItemsAt(f, key) == ItemsAt(g, key) && (key in f <==> key in g)
    ensures key in f ==> f[key] == g[key]
  {
  }

  // The other applicators are compared by value, so they are the same on both sides.
  lemma ElementsSame(fuel: nat, c: Context, before: Json, after: Json, path: string, v: Json)
    requires before.Obj? && after.Obj? && Harmless(OtherChanges(before.m, after.m, path)) && ElementsOk(fuel, c, before, v)
    ensures ElementsOk(fuel, c, after, v)
  {
    hide Accepts, OtherChanges, ComparedByValue;
    ValueKeys();
    SameKey(before.m, after.m, path, "prefixItems");
    SameKey(before.m, after.m, path, "items");
  }

  lemma LogicSame(fuel: nat, c: Context, before: Json, after: Json, path: string, v: Json)
    requires before.Obj? && after.Obj? && Harmless(OtherChanges(before.m, after.m, path)) && LogicOk(fuel, c, before, v)
    ensures LogicOk(fuel, c, after, v)
  {
    hide Accepts, OtherChanges, ComparedByValue;
    ValueKeys();
    SameKey(before.m, after.m, path, "not");
    SameKey(before.m, after.m, path, "anyOf");
    SameKey(before.m, after.m, path, "allOf");
    SameKey(before.m, after.m, path, "oneOf");
    SameKey(before.m, after.m, path, "if");
    SameKey(before.m, after.m, path, "then");
    SameKey(before.m, after.m, path, "else");
  }

  lemma RefsSame(fuel: nat, c: Context, before: Json, after: Json, path: string, v: Json)
    requires before.Obj? && after.Obj? && Harmless(OtherChanges(before.m, after.m, path)) && RefsOk(fuel, c, before, v)
    ensures RefsOk(fuel, c, after, v)
  {
    hide ReferenceOk, OtherChanges, ComparedByValue;
    ValueKeys();
    SameKey(before.m, after.m, path, "$ref");
    SameKey(before.m, after.m, path, "ref");
  }

  lemma SameKey(f: Fields, g: Fields, path: string, key: string)
    requires Harmless(OtherChanges(f, g, path)) && ComparedByValue(key)
    ensures FieldsAt(f, key) == FieldsAt(g, key) && ItemsAt(f, key) == ItemsAt(g, key) && (key in f <==> key in g)
    ensures key in f ==> f[key] == g[key]
  {
    OthersSame(f, g, path, key);
    SameAt(f, g, key);
  }

  // Harmless changes only widen what is accepted.
  lemma {:induction false} AcceptsSound(fuel: nat, c: Context, before: Json, after: Json, path: string, v: Json)
    requires IsSchema(before) && IsSchema(after) && Harmless(Changes(before, after, path)) && GainsOnlyWhereClosed(before, after)
    requires Accepts(fuel, c, before, v)
    ensures Accepts(fuel, c, after, v)
    decreases before, 2
  {
    hide LocalOk, MembersOk, ElementsOk, LogicOk, RefsOk, OwnChanges, GainsOnlyWhereClosed;
    if before.Bool? || after.Bool? {
      var changes := BooleanChanges(before, after, path);
      assert Change(At(path), SchemaRestricted, Breaking) !in changes;
    } else {
      OwnHarmless(before, after, path);
      PartsHarmless(before.m, after.m, path);
      LocalSound(c.oracle, before.m, after.m, path, v);
      MembersSound(fuel, c, before, after, path, v);
      ElementsSame(fuel, c, before, after, path, v);
      LogicSame(fuel, c, before, after, path, v);
      RefsSame(fuel, c, before, after, path, v);
    }
  }

  // ----- The theorem -----

  lemma VerdictHarmless(previous: Json, current: Json)
    requires IsSchema(previous) && IsSchema(current) && DetectDrift(previous, current) == BackwardCompatible
    ensures previous != current && Harmless(Changes(previous, current, ""))
  {
    hide Changes;
    var changes := AllChanges(previous, current);
    assert Changes(previous, current, "") == {} ==> Change("/", Unclassified, Review) in changes;
    forall c | c in changes ensures c.compatibility == NonBreaking {
    }
  }

  // A verdict of identical or backward compatible, where objects gain properties only when closed,
  // means every value the old schema accepts is accepted by the new one.
  lemma CompatibleWidens(o: Oracle, previous: Json, current: Json)
    requires IsSchema(previous) && IsSchema(current)
    requires DetectDrift(previous, current) == Identical || DetectDrift(previous, current) == BackwardCompatible
    requires GainsOnlyWhereClosed(previous, current)
    ensures Widens(o, previous, current)
  {
    hide Accepts, Changes, GainsOnlyWhereClosed;
    if previous != current {
      VerdictHarmless(previous, current);
      forall fuel: nat, v | Valid(fuel, o, previous, v) ensures Valid(fuel, o, current, v) {
        if previous.Obj? && current.Obj? {
          SameDefinitions(previous, current);
          AcceptsSound(fuel, ContextOf(previous, o), previous, current, "", v);
        } else {
          BooleanWidens(fuel, o, previous, current, v);
        }
      }
    }
  }

  lemma SameDefinitions(previous: Json, current: Json)
    requires previous.Obj? && current.Obj? && Harmless(Changes(previous, current, ""))
    ensures DefsOf(previous, "$defs") == DefsOf(current, "$defs") && DefsOf(previous, "defs") == DefsOf(current, "defs")
  {
    hide OwnChanges, OtherChanges, Changes, ComparedByValue;
    ValueKeys();
    OwnHarmless(previous, current, "");
    PartsHarmless(previous.m, current.m, "");
    SameKey(previous.m, current.m, "", "$defs");
    SameKey(previous.m, current.m, "", "defs");
  }

  lemma BooleanWidens(fuel: nat, o: Oracle, previous: Json, current: Json, v: Json)
    requires IsSchema(previous) && IsSchema(current) && (previous.Bool? || current.Bool?)
    requires Harmless(Changes(previous, current, "")) && Valid(fuel, o, previous, v)
    ensures Valid(fuel, o, current, v)
  {
    hide LocalOk, MembersOk, ElementsOk, LogicOk, RefsOk;
    assert Change("/", SchemaRestricted, Breaking) !in Changes(previous, current, "");
  }

  lemma WidensTransitive(o: Oracle, a: Json, b: Json, c: Json)
    requires Widens(o, a, b) && Widens(o, b, c)
    ensures Widens(o, a, c)
  {
    hide Valid;
  }

  // ----- A property gained by an open object -----

  // An object schema with declared properties, open or closed, and no other keyword.
  function PlainFields(properties: Fields, closed: bool): Fields {
    var fields := map["type" := Str("object"), "properties" := Obj(properties)];
    if closed then fields["additionalProperties" := Bool(false)] else fields
  }

  function Plain(properties: Fields, closed: bool): Json {
    Obj(PlainFields(properties, closed))
  }

  lemma PlainKeys(p: Fields, closed: bool, key: string)
    ensures key in PlainFields(p, closed) <==> key == "type" || key == "properties" || (closed && key == "additionalProperties")
  {
  }

  lemma PlainParts(p: Fields, closed: bool)
    ensures var f := PlainFields(p, closed); Properties(f) == p && (Closed(f) <==> closed) && Rest(f) == map[]
    ensures var f := PlainFields(p, closed); Get(f, "type") == Some(Str("object")) && Required(f) == {}
    ensures closed ==> Get(PlainFields(p, closed), "additionalProperties") == Some(Bool(false))
    ensures DefsOf(Plain(p, closed), "$defs") == map[] && DefsOf(Plain(p, closed), "defs") == map[]
  {
  }

  lemma NoBounds(f: Fields, v: Json)
    requires forall key :: key in LOWER_BOUNDS + UPPER_BOUNDS ==> key !in f
    ensures BoundsOk(f, v)
  {
    hide Measure, WithinBound;
  }

  lemma PlainBounds(p: Fields, closed: bool, v: Json)
    ensures BoundsOk(PlainFields(p, closed), v)
  {
    hide PlainFields, BoundsOk;
    forall key | key in LOWER_BOUNDS + UPPER_BOUNDS ensures key !in PlainFields(p, closed) {
      PlainKeys(p, closed, key);
    }
    NoBounds(PlainFields(p, closed), v);
  }

  lemma ObjectType(f: Fields, v: Json)
    requires Get(f, "type") == Some(Str("object")) && "nullable" !in f
    ensures TypeOk(f, v) <==> v.Obj?
  {
    assert TypeSet(Get(f, "type")) == {"object"};
    assert HasType("object", v) <==> v.Obj?;
  }

  lemma PlainAbsent(p: Fields, closed: bool)
    ensures var f := PlainFields(p, closed); "enum" !in f && "const" !in f && "multipleOf" !in f && "pattern" !in f
    ensures var f := PlainFields(p, closed); "format" !in f && "required" !in f && "nullable" !in f && "patternProperties" !in f
    ensures var f := PlainFields(p, closed); "dependentSchemas" !in f && "not" !in f && "anyOf" !in f && "allOf" !in f
    ensures var f := PlainFields(p, closed); "oneOf" !in f && "if" !in f && "$ref" !in f && "ref" !in f
  {
    hide PlainFields;
    PlainKeys(p, closed, "enum");
    PlainKeys(p, closed, "const");
    PlainKeys(p, closed, "multipleOf");
    PlainKeys(p, closed, "pattern");
    PlainKeys(p, closed, "format");
    PlainKeys(p, closed, "required");
    PlainKeys(p, closed, "nullable");
    PlainKeys(p, closed, "patternProperties");
    PlainKeys(p, closed, "dependentSchemas");
    PlainKeys(p, closed, "not");
    PlainKeys(p, closed, "anyOf");
    PlainKeys(p, closed, "allOf");
    PlainKeys(p, closed, "oneOf");
    PlainKeys(p, closed, "if");
    PlainKeys(p, closed, "$ref");
    PlainKeys(p, closed, "ref");
  }

  lemma PlainLocal(o: Oracle, p: Fields, closed: bool, v: Json)
    ensures LocalOk(o, PlainFields(p, closed), v) <==> v.Obj?
  {
    hide PlainFields, TypeOk, BoundsOk, Rest;
    PlainParts(p, closed);
    PlainAbsent(p, closed);
    PlainBounds(p, closed, v);
    ObjectType(PlainFields(p, closed), v);
  }

  lemma PlainAdditional(o: Oracle, p: Fields, closed: bool, k: string)
    ensures IsAdditional(o, PlainFields(p, closed), k) <==> k !in p
  {
    hide PlainFields;
    PlainParts(p, closed);
    PlainAbsent(p, closed);
  }

  lemma PlainMembers(fuel: nat, o: Oracle, p: Fields, closed: bool, v: Json)
    requires v.Obj?
    ensures MembersOk(fuel, Context(map[], map[], o), Plain(p, closed), v) <==>
      (forall k :: k in p && k in v.m ==> Accepts(fuel, Context(map[], map[], o), p[k], v.m[k])) && (closed ==> v.m.Keys <= p.Keys)
  {
    hide PlainFields, IsAdditional, LocalOk, ElementsOk, LogicOk, RefsOk;
    PlainParts(p, closed);
    PlainAbsent(p, closed);
    PlainKeys(p, closed, "additionalProperties");
    forall k ensures IsAdditional(o, PlainFields(p, closed), k) <==> k !in p { PlainAdditional(o, p, closed, k); }
  }

  lemma PlainRest(fuel: nat, o: Oracle, p: Fields, closed: bool, v: Json)
    ensures var s := Plain(p, closed); LogicOk(fuel, Context(map[], map[], o), s, v) && RefsOk(fuel, Context(map[], map[], o), s, v)
    ensures v.Obj? ==> ElementsOk(fuel, Context(map[], map[], o), Plain(p, closed), v)
  {
    hide PlainFields, Accepts, ReferenceOk;
    PlainAbsent(p, closed);
  }

  // A plain schema accepts exactly the objects whose declared members it accepts and, when closed, that have no others.
  lemma PlainAccepts(fuel: nat, o: Oracle, p: Fields, closed: bool, v: Json)
    ensures Valid(fuel, o, Plain(p, closed), v) <==>
      v.Obj? && (forall k :: k in p && k in v.m ==> Accepts(fuel, Context(map[], map[], o), p[k], v.m[k])) && (closed ==> v.m.Keys <= p.Keys)
  {
    hide PlainFields, LocalOk, MembersOk, ElementsOk, LogicOk, RefsOk;
    PlainParts(p, closed);
    PlainLocal(o, p, closed, v);
    PlainRest(fuel, o, p, closed, v);
    if v.Obj? {
      PlainMembers(fuel, o, p, closed, v);
    }
  }

  // Nothing changes between a schema and itself.
  lemma {:induction false} NothingChanges(s: Json, path: string)
    requires IsSchema(s)
    ensures Changes(s, s, path) == {}
  {
    if s.Obj? {
      forall k | k in Properties(s.m) && Shared(s.m, s.m, k) ensures Changes(Properties(s.m)[k], Properties(s.m)[k], Below(path, k)) == {} {
        NothingChanges(Properties(s.m)[k], Below(path, k));
      }
      NothingOwn(s.m, path);
    }
  }

  lemma NothingOwn(f: Fields, path: string)
    ensures OwnChanges(f, f, path) == {}
  {
    hide BoundChanges, PropertyChanges, RequiredChanges, OtherChanges, AddedChanges, AdditionalChanges, MultipleChanges, TypeChanges, EnumChanges, ConstChanges, PatternChanges;
    NoBoundChanges(f, f, path);
    NoPropertyChanges(f, f, path);
    NoListChanges(f, f, path);
    assert AddedChanges(f, f, path) == {} && OtherChanges(f, f, path) == {} by { NothingListed(f, path); }
  }

  lemma NoBoundChanges(f: Fields, g: Fields, path: string)
    requires forall key :: key in LOWER_BOUNDS + UPPER_BOUNDS ==> Get(f, key) == Get(g, key)
    ensures forall key :: key in LOWER_BOUNDS + UPPER_BOUNDS ==> BoundChanges(f, g, key, path) == {}
    ensures (set key, c | key in LOWER_BOUNDS + UPPER_BOUNDS && c in BoundChanges(f, g, key, path) :: c) == {}
  {
  }

  lemma NoPropertyChanges(f: Fields, g: Fields, path: string)
    requires forall k :: k in Properties(f) ==> k in Properties(g) && Properties(g)[k] == Properties(f)[k]
    ensures (set k, c | k in Properties(f) && c in PropertyChanges(f, g, k, path) :: c) == {}
  {
  }

  lemma NoListChanges(f: Fields, g: Fields, path: string)
    requires Get(f, "type") == Get(g, "type") && Required(f) == Required(g) && Get(f, "enum") == Get(g, "enum") && Get(f, "const") == Get(g, "const")
    requires Get(f, "additionalProperties") == Get(g, "additionalProperties") && Get(f, "multipleOf") == Get(g, "multipleOf")
    requires Get(f, "pattern") == Get(g, "pattern")
    ensures TypeChanges(Get(f, "type"), Get(g, "type"), path) == {} && RequiredChanges(f, g, path) == {}
    ensures EnumChanges(Get(f, "enum"), Get(g, "enum"), path) == {} && ConstChanges(Get(f, "const"), Get(g, "const"), path) == {}
    ensures AdditionalChanges(f, g, path) == {} && MultipleChanges(f, g, path) == {} && PatternChanges(Get(f, "pattern"), Get(g, "pattern"), path) == {}
  {
  }

  lemma NothingListed(f: Fields, path: string)
    ensures AddedChanges(f, f, path) == {} && OtherChanges(f, f, path) == {}
  {
  }

  lemma GainListed(f: Fields, g: Fields, k: string, path: string)
    requires forall key :: key != "properties" ==> Get(f, key) == Get(g, key)
    requires k !in Properties(f) && Properties(g).Keys == Properties(f).Keys + {k} && k !in Required(g)
    ensures OtherChanges(f, g, path) == {} && AddedChanges(f, g, path) == {Change(Below(path, k), PropertyAdded, NonBreaking)}
  {
    assert "properties" in HANDLED;
    assert forall key :: Get(f, key) != Get(g, key) ==> key == "properties";
  }

  lemma SameElsewhere(f: Fields, g: Fields, path: string)
    requires forall key :: key != "properties" ==> Get(f, key) == Get(g, key)
    requires forall k :: k in Properties(f) ==> k in Properties(g) && Properties(g)[k] == Properties(f)[k]
    ensures OwnChanges(f, g, path) == AddedChanges(f, g, path) + OtherChanges(f, g, path)
  {
    hide BoundChanges, PropertyChanges, RequiredChanges, OtherChanges, AddedChanges, AdditionalChanges, MultipleChanges, TypeChanges, EnumChanges, ConstChanges, PatternChanges;
    SameBounds(f, g);
    SameAt(f, g, "required");
    NoBoundChanges(f, g, path);
    NoPropertyChanges(f, g, path);
    NoListChanges(f, g, path);
  }

  lemma SameBounds(f: Fields, g: Fields)
    requires forall key :: key != "properties" ==> Get(f, key) == Get(g, key)
    ensures forall key :: key in LOWER_BOUNDS + UPPER_BOUNDS ==> Get(f, key) == Get(g, key)
  {
    assert "properties" !in LOWER_BOUNDS + UPPER_BOUNDS;
  }

  // The keywords of a schema that declares one more property.
  function Gained(f: Fields, k: string, added: Json): Fields {
    f["properties" := Obj(Properties(f)[k := added])]
  }

  lemma GainedParts(f: Fields, k: string, added: Json)
    ensures Properties(Gained(f, k, added)) == Properties(f)[k := added]
    ensures forall key :: key != "properties" ==> Get(Gained(f, k, added), key) == Get(f, key)
    ensures Required(Gained(f, k, added)) == Required(f)
  {
  }

  // One change, wherever the schema stands.
  lemma GainChanges(f: Fields, k: string, added: Json, path: string)
    requires k !in Properties(f) && k !in Required(f)
    ensures Changes(Obj(f), Obj(Gained(f, k, added)), path) == {Change(Below(path, k), PropertyAdded, NonBreaking)}
  {
    hide Gained, OwnChanges, OtherChanges, AddedChanges;
    var g := Gained(f, k, added);
    GainedParts(f, k, added);
    forall j | j in Properties(f) && Shared(f, g, j) ensures Changes(Properties(f)[j], Properties(g)[j], Below(path, j)) == {} {
      NothingChanges(Properties(f)[j], Below(path, j));
    }
    SameElsewhere(f, g, path);
    GainListed(f, g, k, path);
  }

  // Declaring one more optional property is reported as compatible, whatever else the schema says.
  lemma GainVerdict(f: Fields, k: string, added: Json)
    requires k !in Properties(f) && k !in Required(f)
    ensures DetectDrift(Obj(f), Obj(Gained(f, k, added))) == BackwardCompatible
  {
    hide Gained, Changes;
    GainedParts(f, k, added);
    GainChanges(f, k, added, "");
    var before, after := Obj(f), Obj(Gained(f, k, added));
    assert k in Properties(after.m) && k !in Properties(before.m);
    assert AllChanges(before, after) == {Change(Below("", k), PropertyAdded, NonBreaking)};
  }

  lemma PlainGains(p: Fields, k: string, added: Json, closed: bool)
    ensures Obj(Gained(PlainFields(p, closed), k, added)) == Plain(p[k := added], closed)
  {
    assert Gained(PlainFields(p, closed), k, added) == PlainFields(p[k := added], closed);
  }

  lemma PlainGainVerdict(p: Fields, k: string, added: Json, closed: bool)
    requires k !in p
    ensures DetectDrift(Plain(p, closed), Plain(p[k := added], closed)) == BackwardCompatible
  {
    hide PlainFields, DetectDrift;
    PlainParts(p, closed);
    PlainGains(p, k, added, closed);
    GainVerdict(PlainFields(p, closed), k, added);
  }

  lemma SameRest(f: Fields, g: Fields)
    requires forall key :: key != "properties" ==> Get(f, key) == Get(g, key)
    ensures Rest(f) == Rest(g)
  {
    assert "properties" in STRUCTURED;
    assert forall key :: key in Rest(f) ==> key != "properties" && Get(f, key) == Get(g, key);
    assert forall key :: key in Rest(g) ==> key != "properties" && Get(f, key) == Get(g, key);
  }

  lemma SameKeywords(o: Oracle, f: Fields, g: Fields, v: Json)
    requires Get(f, "type") == Get(g, "type") && Get(f, "nullable") == Get(g, "nullable") && Get(f, "enum") == Get(g, "enum")
    requires Get(f, "const") == Get(g, "const") && Get(f, "multipleOf") == Get(g, "multipleOf") && Get(f, "pattern") == Get(g, "pattern")
    requires Get(f, "format") == Get(g, "format") && Get(f, "required") == Get(g, "required")
    ensures (TypeOk(f, v) <==> TypeOk(g, v)) && (EnumOk(f, v) <==> EnumOk(g, v)) && (ConstOk(f, v) <==> ConstOk(g, v))
    ensures (MultipleOk(f, v) <==> MultipleOk(g, v)) && (PatternOk(o, f, v) <==> PatternOk(o, g, v))
    ensures (FormatOk(o, f, v) <==> FormatOk(o, g, v)) && (RequiredOk(f, v) <==> RequiredOk(g, v))
  {
    hide HasType, TypeSet;
  }

  // Declared properties say nothing about the value itself.
  lemma GainLocal(o: Oracle, f: Fields, g: Fields, v: Json)
    requires forall key :: key != "properties" ==> Get(f, key) == Get(g, key)
    ensures LocalOk(o, f, v) <==> LocalOk(o, g, v)
  {
    hide Rest, BoundsOk, TypeOk, EnumOk, ConstOk, MultipleOk, PatternOk, FormatOk, RequiredOk;
    SameRest(f, g);
    SameBounds(f, g);
    GainBounds(f, g, v);
    SameKeywords(o, f, g, v);
  }

  lemma GainBounds(f: Fields, g: Fields, v: Json)
    requires forall key :: key in LOWER_BOUNDS + UPPER_BOUNDS ==> Get(f, key) == Get(g, key)
    ensures BoundsOk(f, v) <==> BoundsOk(g, v)
  {
    hide Measure, WithinBound;
    forall key | key in LOWER_BOUNDS + UPPER_BOUNDS ensures BoundOk(f, key, v) <==> BoundOk(g, key, v) { assert Get(f, key) == Get(g, key); }
  }

  lemma GainLogic(fuel: nat, c: Context, f: Fields, g: Fields, v: Json)
    requires forall key :: key != "properties" ==> Get(f, key) == Get(g, key)
    ensures LogicOk(fuel, c, Obj(f), v) <==> LogicOk(fuel, c, Obj(g), v)
  {
    hide Accepts;
    assert Get(f, "not") == Get(g, "not") && Get(f, "anyOf") == Get(g, "anyOf") && Get(f, "allOf") == Get(g, "allOf");
    assert Get(f, "oneOf") == Get(g, "oneOf") && Get(f, "if") == Get(g, "if") && Get(f, "then") == Get(g, "then") && Get(f, "else") == Get(g, "else");
  }

  lemma GainRest(fuel: nat, c: Context, f: Fields, g: Fields, v: Json)
    requires forall key :: key != "properties" ==> Get(f, key) == Get(g, key)
    ensures RefsOk(fuel, c, Obj(f), v) <==> RefsOk(fuel, c, Obj(g), v)
    ensures ElementsOk(fuel, c, Obj(f), v) <==> ElementsOk(fuel, c, Obj(g), v)
  {
    hide Accepts, ReferenceOk;
    assert Get(f, "$ref") == Get(g, "$ref") && Get(f, "ref") == Get(g, "ref");
    assert Get(f, "prefixItems") == Get(g, "prefixItems") && Get(f, "items") == Get(g, "items");
  }

  // Members pass exactly as before, but for the one that is now declared.
  lemma GainMembers(fuel: nat, c: Context, f: Fields, k: string, added: Json, v: Json)
    requires k !in Properties(f) && MembersOk(fuel, c, Obj(f), v)
    ensures MembersOk(fuel, c, Obj(Gained(f, k, added)), v) <==> (v.Obj? && k in v.m ==> Accepts(fuel, c, added, v.m[k]))
  {
    hide Gained, Accepts;
    var g := Gained(f, k, added);
    GainedParts(f, k, added);
    assert Get(f, "patternProperties") == Get(g, "patternProperties") && Get(f, "additionalProperties") == Get(g, "additionalProperties");
    assert Get(f, "dependentSchemas") == Get(g, "dependentSchemas");
    assert FieldsAt(f, "patternProperties") == FieldsAt(g, "patternProperties") && FieldsAt(f, "dependentSchemas") == FieldsAt(g, "dependentSchemas");
    assert forall j :: IsAdditional(c.oracle, g, j) ==> IsAdditional(c.oracle, f, j);
    if v.Obj? && k in v.m { assert k in FieldsAt(g, "properties") && FieldsAt(g, "properties")[k] == added; }
    forall j | j in FieldsAt(f, "properties") ensures j in FieldsAt(g, "properties") && (j != k ==> FieldsAt(g, "properties")[j] == FieldsAt(f, "properties")[j]) {
    }
  }

  // What was accepted stays accepted exactly when the new property accepts what it finds.
  lemma GainAccepts(fuel: nat, c: Context, f: Fields, k: string, added: Json, v: Json)
    requires k !in Properties(f) && Accepts(fuel, c, Obj(f), v)
    ensures Accepts(fuel, c, Obj(Gained(f, k, added)), v) <==> (v.Obj? && k in v.m ==> Accepts(fuel, c, added, v.m[k]))
  {
    hide LocalOk, MembersOk, ElementsOk, LogicOk, RefsOk, Gained;
    var g := Gained(f, k, added);
    GainedParts(f, k, added);
    GainLocal(c.oracle, f, g, v);
    GainLogic(fuel, c, f, g, v);
    GainRest(fuel, c, f, g, v);
    GainMembers(fuel, c, f, k, added, v);
  }

  lemma ClosedAdmitsNone(fuel: nat, c: Context, f: Fields, k: string, v: Json)
    requires Closed(f) && IsAdditional(c.oracle, f, k) && v.Obj? && Accepts(fuel, c, Obj(f), v)
    ensures k !in v.m
  {
    hide LocalOk, MembersOk, ElementsOk, LogicOk, RefsOk, IsAdditional, Closed;
    ClosedRejects(fuel, c, Obj(f), v, k);
  }

  // The compatible verdict on one more optional property, next to whatever other keywords the schema has, is right
  // exactly when that property accepts every value found there in a call that was accepted; there is none when the
  // object was closed to it.
  lemma GainIsSafeExactlyWhenAccepted(o: Oracle, f: Fields, k: string, added: Json)
    requires k !in Properties(f) && k !in Required(f)
    ensures DetectDrift(Obj(f), Obj(Gained(f, k, added))) == BackwardCompatible
    ensures Widens(o, Obj(f), Obj(Gained(f, k, added))) <==>
      forall fuel: nat, v :: Valid(fuel, o, Obj(f), v) && v.Obj? && k in v.m ==> Accepts(fuel, ContextOf(Obj(f), o), added, v.m[k])
    ensures Closed(f) && IsAdditional(o, f, k) ==> Widens(o, Obj(f), Obj(Gained(f, k, added)))
  {
    hide Accepts, Gained, DetectDrift, DefsOf, Closed, IsAdditional;
    var s, t := Obj(f), Obj(Gained(f, k, added));
    GainVerdict(f, k, added);
    SameContext(o, f, k, added);
    forall fuel: nat, v | Valid(fuel, o, s, v) ensures Valid(fuel, o, t, v) <==> (v.Obj? && k in v.m ==> Accepts(fuel, ContextOf(s, o), added, v.m[k])) {
      GainAccepts(fuel, ContextOf(s, o), f, k, added, v);
    }
    if Closed(f) && IsAdditional(o, f, k) {
      forall fuel: nat, v | Valid(fuel, o, s, v) ensures !(v.Obj? && k in v.m) {
        if v.Obj? { ClosedAdmitsNone(fuel, ContextOf(s, o), f, k, v); }
      }
    }
  }

  lemma SameContext(o: Oracle, f: Fields, k: string, added: Json)
    ensures ContextOf(Obj(Gained(f, k, added)), o) == ContextOf(Obj(f), o)
  {
    hide Gained;
    GainedParts(f, k, added);
    var g := Gained(f, k, added);
    assert Get(g, "$defs") == Get(f, "$defs") && Get(g, "defs") == Get(f, "defs");
  }

  ghost predicate AcceptsEverything(o: Oracle, s: Json) {
    forall fuel: nat, z :: Accepts(fuel, Context(map[], map[], o), s, z)
  }

  lemma GainNeeds(o: Oracle, p: Fields, k: string, added: Json)
    requires k !in p
    requires Widens(o, Plain(p, false), Plain(p[k := added], false))
    ensures AcceptsEverything(o, added)
  {
    hide Accepts, Plain, Valid;
    forall fuel: nat, z ensures Accepts(fuel, Context(map[], map[], o), added, z) {
      var v := Obj(map[k := z]);
      PlainAccepts(fuel, o, p, false, v);
      PlainAccepts(fuel, o, p[k := added], false, v);
      assert Valid(fuel, o, Plain(p, false), v);
      assert Valid(fuel, o, Plain(p[k := added], false), v);
      assert Accepts(fuel, Context(map[], map[], o), p[k := added][k], v.m[k]);
    }
  }

  lemma GainSuffices(o: Oracle, p: Fields, k: string, added: Json, closed: bool)
    requires k !in p
    requires closed || AcceptsEverything(o, added)
    ensures Widens(o, Plain(p, closed), Plain(p[k := added], closed))
  {
    hide Accepts, Plain, Valid;
    forall fuel: nat, v | Valid(fuel, o, Plain(p, closed), v) ensures Valid(fuel, o, Plain(p[k := added], closed), v) {
      PlainAccepts(fuel, o, p, closed, v);
      PlainAccepts(fuel, o, p[k := added], closed, v);
      assert closed ==> k !in v.m;
    }
  }

  // The compatible verdict on one more optional property is right exactly when the object was closed
  // or the new property accepts every value.
  lemma GainIsSafeExactlyWhenClosed(o: Oracle, p: Fields, k: string, added: Json, closed: bool)
    requires k !in p
    ensures DetectDrift(Plain(p, closed), Plain(p[k := added], closed)) == BackwardCompatible
    ensures Widens(o, Plain(p, closed), Plain(p[k := added], closed)) <==> closed || AcceptsEverything(o, added)
  {
    hide AcceptsEverything, Plain, DetectDrift, Widens;
    PlainGainVerdict(p, k, added, closed);
    if closed || AcceptsEverything(o, added) {
      GainSuffices(o, p, k, added, closed);
    } else if Widens(o, Plain(p, closed), Plain(p[k := added], closed)) {
      GainNeeds(o, p, k, added);
    }
  }

  // ----- Below the root -----

  // The schema as that of a property of a property and so on, of open objects that declare nothing else.
  function Nested(path: seq<string>, s: Json): Json {
    if path == [] then s else Plain(map[path[0] := Nested(path[1..], s)], false)
  }

  ghost predicate WidensIn(o: Oracle, a: Json, b: Json) {
    forall fuel: nat, v :: Accepts(fuel, Context(map[], map[], o), a, v) ==> Accepts(fuel, Context(map[], map[], o), b, v)
  }

  lemma PlainWidens(o: Oracle, k: string, a: Json, b: Json)
    ensures WidensIn(o, Plain(map[k := a], false), Plain(map[k := b], false)) <==> WidensIn(o, a, b)
  {
    hide Accepts, Plain;
    var c := Context(map[], map[], o);
    forall fuel: nat, v, x: Json | x == a || x == b
      ensures Accepts(fuel, c, Plain(map[k := x], false), v) <==> v.Obj? && (k in v.m ==> Accepts(fuel, c, x, v.m[k]))
    {
      PlainParts(map[k := x], false);
      PlainAccepts(fuel, o, map[k := x], false, v);
      assert map[k := x][k] == x;
    }
    if WidensIn(o, Plain(map[k := a], false), Plain(map[k := b], false)) {
      forall fuel: nat, z | Accepts(fuel, c, a, z) ensures Accepts(fuel, c, b, z) {
        var v := Obj(map[k := z]);
        assert Accepts(fuel, c, Plain(map[k := a], false), v);
        assert v.m[k] == z;
      }
    }
  }

  lemma {:induction false} NestedWidens(o: Oracle, path: seq<string>, a: Json, b: Json)
    ensures WidensIn(o, Nested(path, a), Nested(path, b)) <==> WidensIn(o, a, b)
  {
    hide WidensIn, Plain;
    if path != [] {
      NestedWidens(o, path[1..], a, b);
      PlainWidens(o, path[0], Nested(path[1..], a), Nested(path[1..], b));
    }
  }

  lemma NestedIsPlain(o: Oracle, path: seq<string>, p: Fields, closed: bool)
    ensures var s := Nested(path, Plain(p, closed)); IsSchema(s) && ContextOf(s, o) == Context(map[], map[], o)
  {
    hide PlainFields;
    PlainParts(p, closed);
    if path != [] { PlainParts(map[path[0] := Nested(path[1..], Plain(p, closed))], false); }
  }

  // A change below a declared property is that change and no other.
  lemma PropertyChangesAlone(k: string, a: Json, b: Json, path: string)
    requires IsSchema(a) && IsSchema(b)
    ensures Changes(Plain(map[k := a], false), Plain(map[k := b], false), path) == Changes(a, b, Below(path, k))
  {
    hide PlainFields, OwnChanges, PropertyChanges;
    var f, g := PlainFields(map[k := a], false), PlainFields(map[k := b], false);
    PlainParts(map[k := a], false);
    PlainParts(map[k := b], false);
    PlainElsewhere(map[k := a], map[k := b], false);
    OwnOfProperty(f, g, k, a, b, path);
    assert Shared(f, g, k) && forall j :: j in Properties(f) ==> j == k;
  }

  lemma PlainElsewhere(p: Fields, q: Fields, closed: bool)
    ensures forall key :: key != "properties" ==> Get(PlainFields(p, closed), key) == Get(PlainFields(q, closed), key)
  {
  }

  lemma OwnOfProperty(f: Fields, g: Fields, k: string, a: Json, b: Json, path: string)
    requires forall key :: key != "properties" ==> Get(f, key) == Get(g, key)
    requires Properties(f) == map[k := a] && Properties(g) == map[k := b] && IsSchema(a) && IsSchema(b)
    ensures OwnChanges(f, g, path) == {}
  {
    hide BoundChanges, RequiredChanges, AdditionalChanges, MultipleChanges, TypeChanges, EnumChanges, ConstChanges, PatternChanges, OtherChanges, AddedChanges;
    SameBounds(f, g);
    SameAt(f, g, "required");
    NoBoundChanges(f, g, path);
    NoListChanges(f, g, path);
    NothingElse(f, g, path);
    assert PropertyChanges(f, g, k, path) == {};
  }

  lemma NothingElse(f: Fields, g: Fields, path: string)
    requires forall key :: key != "properties" ==> Get(f, key) == Get(g, key)
    requires Properties(f).Keys == Properties(g).Keys
    ensures OtherChanges(f, g, path) == {} && AddedChanges(f, g, path) == {}
  {
    assert "properties" in HANDLED;
    assert forall key :: Get(f, key) != Get(g, key) ==> key == "properties";
  }

  lemma {:induction false} NestedChanges(path: seq<string>, p: Fields, k: string, added: Json, closed: bool, at: string)
    requires k !in p
    ensures IsSchema(Nested(path, Plain(p, closed))) && IsSchema(Nested(path, Plain(p[k := added], closed)))
    ensures var changes := Changes(Nested(path, Plain(p, closed)), Nested(path, Plain(p[k := added], closed)), at);
      exists where :: changes == {Change(where, PropertyAdded, NonBreaking)}
  {
    hide Changes, PlainFields, Gained;
    if path == [] {
      PlainParts(p, closed);
      PlainGains(p, k, added, closed);
      GainChanges(PlainFields(p, closed), k, added, at);
    } else {
      NestedChanges(path[1..], p, k, added, closed, Below(at, path[0]));
      PropertyChangesAlone(path[0], Nested(path[1..], Plain(p, closed)), Nested(path[1..], Plain(p[k := added], closed)), at);
    }
  }

  lemma OneHarmlessChange(before: Json, after: Json, where: string)
    requires IsSchema(before) && IsSchema(after) && Changes(before, after, "") == {Change(where, PropertyAdded, NonBreaking)}
    ensures DetectDrift(before, after) == BackwardCompatible
  {
    hide Changes;
    if before == after { NothingChanges(before, ""); }
    assert Change(where, PropertyAdded, NonBreaking) in Changes(before, after, "");
  }

  // However deep the object stands that gains a property, the verdict is the same, and right in the same cases.
  lemma NestedGainIsSafeExactlyWhenClosed(o: Oracle, path: seq<string>, p: Fields, k: string, added: Json, closed: bool)
    requires k !in p
    ensures var before, after := Nested(path, Plain(p, closed)), Nested(path, Plain(p[k := added], closed));
      && IsSchema(before) && IsSchema(after) && DetectDrift(before, after) == BackwardCompatible
      && (Widens(o, before, after) <==> closed || AcceptsEverything(o, added))
  {
    hide AcceptsEverything, Plain, Nested, DetectDrift, Changes, Accepts, ContextOf;
    var before, after := Nested(path, Plain(p, closed)), Nested(path, Plain(p[k := added], closed));
    NestedChanges(path, p, k, added, closed, "");
    var where :| Changes(before, after, "") == {Change(where, PropertyAdded, NonBreaking)};
    OneHarmlessChange(before, after, where);
    GainIsSafeExactlyWhenClosed(o, p, k, added, closed);
    NestedWidens(o, path, Plain(p, closed), Plain(p[k := added], closed));
    NestedIsPlain(o, path, p, closed);
    NestedIsPlain(o, path, p[k := added], closed);
    NestedIsPlain(o, [], p, closed);
    NestedIsPlain(o, [], p[k := added], closed);
    NestedNowhere(Plain(p, closed));
    NestedNowhere(Plain(p[k := added], closed));
    WidensHere(o, before, after);
    WidensHere(o, Plain(p, closed), Plain(p[k := added], closed));
  }

  lemma NestedNowhere(s: Json)
    ensures Nested([], s) == s
  {
  }

  lemma WidensHere(o: Oracle, a: Json, b: Json)
    requires ContextOf(a, o) == Context(map[], map[], o) == ContextOf(b, o)
    ensures Widens(o, a, b) <==> WidensIn(o, a, b)
  {
    hide Accepts, ContextOf;
    if Widens(o, a, b) {
      forall fuel: nat, v | Accepts(fuel, Context(map[], map[], o), a, v) ensures Accepts(fuel, Context(map[], map[], o), b, v) {
        assert Valid(fuel, o, a, v);
      }
    }
  }

  lemma NumberRejectsString(fuel: nat, o: Oracle)
    ensures !Accepts(fuel, Context(map[], map[], o), Obj(map["type" := Str("number")]), Str("x"))
  {
    hide MembersOk, ElementsOk, LogicOk, RefsOk;
    var f: Fields := map["type" := Str("number")];
    assert TypeSet(Get(f, "type")) == {"number"};
    assert !TypeOk(f, Str("x"));
  }

  // An open object that starts to declare "n" as a number: reported compatible, but {"n": "x"} was accepted and no longer is.
  lemma OpenGainBreaksCalls(o: Oracle)
    ensures var before, after := Plain(map[], false), Plain(map["n" := Obj(map["type" := Str("number")])], false);
      && DetectDrift(before, after) == BackwardCompatible
      && Valid(0, o, before, Obj(map["n" := Str("x")])) && !Valid(0, o, after, Obj(map["n" := Str("x")]))
  {
    hide Plain, Accepts, DetectDrift, Valid;
    var added := Obj(map["type" := Str("number")]);
    assert map["n" := added] == map[]["n" := added];
    PlainGainVerdict(map[], "n", added, false);
    var v := Obj(map["n" := Str("x")]);
    PlainAccepts(0, o, map[], false, v);
    PlainAccepts(0, o, map["n" := added], false, v);
    NumberRejectsString(0, o);
    var q := map["n" := added];
    assert "n" in q && "n" in v.m && q["n"] == added && v.m["n"] == Str("x");
    assert !Accepts(0, Context(map[], map[], o), q["n"], v.m["n"]);
  }
}
