/**
 The comparison as the drift detector runs it: one pass over both schemas that pushes
 each change onto a shared list.  The list holds exactly the changes the comparison
 is specified to find, whatever the order of the keys.
 */
module DriftLog {
  import opened Common
  import opened JsonSchema
  import opened SchemaDrift

  function Elements(changes: seq<Change>): set<Change> {
    set c | c in changes
  }

  // The list was extended, by these changes and no others.
  ghost predicate Grown(start: seq<Change>, end: seq<Change>, added: set<Change>) {
    start <= end && Elements(end[|start|..]) == added
  }

  lemma GrownTwice(a: seq<Change>, b: seq<Change>, c: seq<Change>, first: set<Change>, second: set<Change>)
    requires Grown(a, b, first) && Grown(b, c, second)
    ensures Grown(a, c, first + second)
  {
    assert c[|a|..] == b[|a|..] + c[|b|..];
  }

  class ChangeLog {
    var changes: seq<Change>

    constructor ()
      ensures changes == []
    {
      changes := [];
    }

    method Add(path: string, kind: Kind, compatibility: Compatibility)
      modifies this
      ensures changes == old(changes) + [Change(At(path), kind, compatibility)]
      ensures Grown(old(changes), changes, One(path, kind, compatibility))
    {
      changes := changes + [Change(At(path), kind, compatibility)];
      assert changes[|old(changes)|..] == [Change(At(path), kind, compatibility)];
    }

    method CompareTypes(before: Option<Json>, after: Option<Json>, path: string)
      modifies this
      ensures Grown(old(changes), changes, TypeChanges(before, after, path))
    {
      var left, right := TypeSet(before), TypeSet(after);
      if |left| == |right| && left <= right {
        SameSize(left, right);
        return;
      }
      var compatibility := if |left| == 0 then Breaking
      else if |right| == 0 then NonBreaking
      else if right <= left then Breaking
      else if left <= right then NonBreaking
      else Breaking;
      Add(path, TypeChanged, compatibility);
    }

    method CompareSetConstraint(before: Option<Json>, after: Option<Json>, path: string)
      modifies this
      ensures Grown(old(changes), changes, EnumChanges(before, after, path))
    {
      var left, right := before.Some? && before.value.Arr?, after.Some? && after.value.Arr?;
      if !left && right {
        Add(path, EnumNarrowed, Breaking);
        return;
      }
      if left && !right {
        Add(path, EnumWidened, NonBreaking);
        return;
      }
      if !left || !right { return; }
      if exists x :: x in before.value.items && x !in after.value.items {
        Add(path, EnumNarrowed, Breaking);
      }
      ghost var narrowed := changes;
      if exists x :: x in after.value.items && x !in before.value.items {
        Add(path, EnumWidened, NonBreaking);
        GrownTwice(old(changes), narrowed, changes, Elements(narrowed[|old(changes)|..]), One(path, EnumWidened, NonBreaking));
      }
    }

    method CompareConst(before: Fields, after: Fields, path: string)
      modifies this
      ensures Grown(old(changes), changes, ConstChanges(Get(before, "const"), Get(after, "const"), path))
    {
      var had, has := "const" in before, "const" in after;
      if !had && has { Add(path, ConstAdded, Breaking); }
      else if had && !has { Add(path, ConstRemoved, NonBreaking); }
      else if had && has && before["const"] != after["const"] { Add(path, ConstChanged, Breaking); }
    }

    method NumericConstraint(before: Fields, after: Fields, key: string, higherIsTighter: bool, path: string)
      requires higherIsTighter <==> key in LOWER_BOUNDS
      modifies this
      ensures Grown(old(changes), changes, BoundChanges(before, after, key, path))
    {
      var left, right := Get(before, key), Get(after, key);
      if left.None? && right.None? { return; }
      if left.None? && IsNumber(right) { Add(path, Tightened, Breaking); }
      else if IsNumber(left) && right.None? { Add(path, Relaxed, NonBreaking); }
      else if IsNumber(left) && IsNumber(right) && left != right {
        var tighter := if higherIsTighter then right.value.n > left.value.n else right.value.n < left.value.n;
        Add(path, if tighter then Tightened else Relaxed, if tighter then Breaking else NonBreaking);
      } else if left != right { Add(path, ConstraintChanged, Review); }
    }

    method CompareMultipleOf(before: Fields, after: Fields, path: string)
      modifies this
      ensures Grown(old(changes), changes, MultipleChanges(before, after, path))
    {
      var left, right := Get(before, "multipleOf"), Get(after, "multipleOf");
      if left.None? && right.None? { return; }
      if left.None? && IsNumber(right) { Add(path, Tightened, Breaking); }
      else if IsNumber(left) && right.None? { Add(path, Relaxed, NonBreaking); }
      else if IsNumber(left) && IsNumber(right) && left != right {
        if DividesInto(right.value.n, left.value.n) { Add(path, Tightened, Breaking); }
        else if DividesInto(left.value.n, right.value.n) { Add(path, Relaxed, NonBreaking); }
        else { Add(path, ConstraintChanged, Review); }
      } else if left != right { Add(path, ConstraintChanged, Review); }
    }

    method ComparePattern(before: Option<Json>, after: Option<Json>, path: string)
      modifies this
      ensures Grown(old(changes), changes, PatternChanges(before, after, path))
    {
      if before != after {
        var compatibility := if before.None? then Breaking else if after.None? then NonBreaking else Review;
        Add(path, if compatibility == Breaking then Tightened else if compatibility == NonBreaking then Relaxed else ConstraintChanged, compatibility);
      }
    }

    method CompareAdditional(before: Fields, after: Fields, path: string)
      modifies this
      ensures Grown(old(changes), changes, AdditionalChanges(before, after, path))
    {
      if !Closed(before) && Closed(after) { Add(path, ClosedObject, Breaking); }
      else if Closed(before) && !Closed(after) { Add(path, OpenedObject, NonBreaking); }
      else if Get(before, "additionalProperties") != Get(after, "additionalProperties") { Add(path, ConstraintChanged, Review); }
    }

    // Adds one change per key, taking the keys in any order.
    method AddEach(keys: set<string>, path: string, kind: Kind, compatibility: Compatibility)
      modifies this
      ensures Grown(old(changes), changes, EachOf(keys, path, kind, compatibility))
    {
      hide Below, EachOf, Grown;
      NoneYet(changes, path, kind, compatibility);
      assert keys - keys == {};
      var todo := keys;
      while todo != {}
        invariant todo <= keys
        invariant Grown(old(changes), changes, EachOf(keys - todo, path, kind, compatibility))
        decreases |todo|
      {
        var k :| k in todo;
        ghost var before, done := changes, EachOf(keys - todo, path, kind, compatibility);
        Add(Below(path, k), kind, compatibility);
        GrownTwice(old(changes), before, changes, done, One(Below(path, k), kind, compatibility));
        EachMore(keys - todo, k, path, kind, compatibility);
        assert keys - (todo - {k}) == (keys - todo) + {k};
        todo := todo - {k};
      }
      assert keys - todo == keys;
    }

    method CompareRequired(before: Fields, after: Fields, path: string)
      modifies this
      ensures Grown(old(changes), changes, RequiredChanges(before, after, path))
    {
      AddEach(Required(after) - Required(before), path, RequiredAdded, Breaking);
      ghost var middle := changes;
      AddEach(Required(before) - Required(after), path, RequiredRemoved, NonBreaking);
      GrownTwice(old(changes), middle, changes, EachOf(Required(after) - Required(before), path, RequiredAdded, Breaking),
                 EachOf(Required(before) - Required(after), path, RequiredRemoved, NonBreaking));
    }

    method CompareGained(before: Fields, after: Fields, path: string)
      modifies this
      ensures Grown(old(changes), changes, AddedChanges(before, after, path))
    {
      hide Below;
      var gained := Properties(after).Keys - Properties(before).Keys;
      AddEach(gained * Required(after), path, PropertyAdded, Breaking);
      ghost var middle := changes;
      AddEach(gained - Required(after), path, PropertyAdded, NonBreaking);
      GrownTwice(old(changes), middle, changes, EachOf(gained * Required(after), path, PropertyAdded, Breaking),
                 EachOf(gained - Required(after), path, PropertyAdded, NonBreaking));
      GainedSplit(before, after, path);
    }

    // The keyword lists of the two bound loops, in any order.
    method CompareBounds(keys: set<string>, before: Fields, after: Fields, higherIsTighter: bool, path: string)
      requires forall key :: key in keys ==> (higherIsTighter <==> key in LOWER_BOUNDS)
      modifies this
      ensures Grown(old(changes), changes, BoundsOf(keys, before, after, path))
    {
      hide BoundChanges;
      var todo := keys;
      while todo != {}
        invariant todo <= keys
        invariant Grown(old(changes), changes, BoundsOf(keys - todo, before, after, path))
        decreases |todo|
      {
        var key :| key in todo;
        ghost var start, done := changes, BoundsOf(keys - todo, before, after, path);
        NumericConstraint(before, after, key, higherIsTighter, path);
        GrownTwice(old(changes), start, changes, done, BoundChanges(before, after, key, path));
        assert keys - (todo - {key}) == (keys - todo) + {key};
        BoundsSplit(keys - todo, {key}, before, after, path);
        todo := todo - {key};
      }
      assert keys - todo == keys;
    }

    method CompareOthers(before: Fields, after: Fields, path: string)
      modifies this
      ensures Grown(old(changes), changes, OtherChanges(before, after, path))
    {
      var keys := before.Keys + after.Keys;
      var todo := keys;
      while todo != {}
        invariant todo <= keys
        invariant Grown(old(changes), changes, OthersOf(keys - todo, before, after, path))
        decreases |todo|
      {
        var key :| key in todo;
        ghost var start, done := changes, OthersOf(keys - todo, before, after, path);
        CompareOther(before, after, key, path);
        GrownTwice(old(changes), start, changes, done, OthersOf({key}, before, after, path));
        assert keys - (todo - {key}) == (keys - todo) + {key};
        OthersSplit(keys - todo, {key}, before, after, path);
        todo := todo - {key};
      }
      assert keys - todo == keys;
      OthersAll(before, after, path);
    }

    method CompareOther(before: Fields, after: Fields, key: string, path: string)
      modifies this
      ensures Grown(old(changes), changes, OthersOf({key}, before, after, path))
    {
      OthersOne(before, after, key, path);
      if key !in HANDLED && Get(before, key) != Get(after, key) {
        Add(path, Unclassified, if key in ANNOTATIONS then NonBreaking else Review);
      }
    }

    // The declared properties of the old schema: removed, compared in turn, or changed out of hand.
    method CompareProperties(before: Json, after: Json, path: string)
      requires before.Obj? && after.Obj?
      modifies this
      ensures Grown(old(changes), changes, PropertiesOf(Properties(before.m).Keys, before, after, path))
      decreases before, 0
    {
      hide SchemaDrift.Changes, PropertyChanges, Below, IsSchema;
      var keys := Properties(before.m).Keys;
      var todo := keys;
      while todo != {}
        invariant todo <= keys
        invariant Grown(old(changes), changes, PropertiesOf(keys - todo, before, after, path))
        decreases |todo|
      {
        var k :| k in todo;
        ghost var start, done := changes, PropertiesOf(keys - todo, before, after, path);
        CompareProperty(before, after, k, path);
        GrownTwice(old(changes), start, changes, done, PropertyOf(before, after, k, path));
        assert keys - (todo - {k}) == (keys - todo) + {k};
        PropertiesSplit(keys - todo, k, before, after, path);
        todo := todo - {k};
      }
      assert keys - todo == keys;
    }

    method CompareProperty(before: Json, after: Json, k: string, path: string)
      requires before.Obj? && after.Obj? && k in Properties(before.m)
      modifies this
      ensures Grown(old(changes), changes, PropertyOf(before, after, k, path))
      decreases before, 0, 0
    {
      hide SchemaDrift.Changes, Below;
      BelowNotEmpty(path, k);
      if k !in Properties(after.m) {
        Add(Below(path, k), PropertyRemoved, if Closed(before.m) then Breaking else Review);
      } else {
        var left, right := Properties(before.m)[k], Properties(after.m)[k];
        if IsSchema(left) && IsSchema(right) {
          Compare(left, right, Below(path, k));
        } else if left != right {
          Add(Below(path, k), Unclassified, Review);
        }
      }
    }

    method Compare(before: Json, after: Json, path: string)
      requires IsSchema(before) && IsSchema(after)
      modifies this
      ensures Grown(old(changes), changes, Changes(before, after, path))
      decreases before, 1
    {
      hide Changes, Grown, OwnChanges, TypeChanges, RequiredChanges, AddedChanges, EnumChanges, ConstChanges, AdditionalChanges, MultipleChanges, PatternChanges, OtherChanges, BoundChanges;
      ghost var start := changes;
      if before.Bool? || after.Bool? {
        CompareBoolean(before, after, path);
        return;
      }
      var f, g := before.m, after.m;
      CompareTypes(Get(f, "type"), Get(g, "type"), path);
      ghost var found := TypeChanges(Get(f, "type"), Get(g, "type"), path);
      ghost var now := changes;
      CompareRequired(f, g, path);
      found, now := Grow(start, now, changes, found, RequiredChanges(f, g, path));
      CompareProperties(before, after, path);
      found, now := Grow(start, now, changes, found, PropertiesOf(Properties(f).Keys, before, after, path));
      CompareGained(f, g, path);
      found, now := Grow(start, now, changes, found, AddedChanges(f, g, path));
      CompareSetConstraint(Get(f, "enum"), Get(g, "enum"), path);
      found, now := Grow(start, now, changes, found, EnumChanges(Get(f, "enum"), Get(g, "enum"), path));
      CompareConst(f, g, path);
      found, now := Grow(start, now, changes, found, ConstChanges(Get(f, "const"), Get(g, "const"), path));
      CompareAdditional(f, g, path);
      found, now := Grow(start, now, changes, found, AdditionalChanges(f, g, path));
      CompareBounds(LOWER_BOUNDS, f, g, true, path);
      found, now := Grow(start, now, changes, found, BoundsOf(LOWER_BOUNDS, f, g, path));
      UpperNotLower();
      CompareBounds(UPPER_BOUNDS, f, g, false, path);
      found, now := Grow(start, now, changes, found, BoundsOf(UPPER_BOUNDS, f, g, path));
      CompareMultipleOf(f, g, path);
      found, now := Grow(start, now, changes, found, MultipleChanges(f, g, path));
      ComparePattern(Get(f, "pattern"), Get(g, "pattern"), path);
      found, now := Grow(start, now, changes, found, PatternChanges(Get(f, "pattern"), Get(g, "pattern"), path));
      CompareOthers(f, g, path);
      found, now := Grow(start, now, changes, found, OtherChanges(f, g, path));
      AllFound(before, after, path);
    }

    method CompareBoolean(before: Json, after: Json, path: string)
      requires IsSchema(before) && IsSchema(after) && (before.Bool? || after.Bool?)
      modifies this
      ensures Grown(old(changes), changes, Changes(before, after, path))
    {
      if before == after { return; }
      if before == Bool(true) { Add(path, SchemaRestricted, Breaking); }
      else if after == Bool(true) { Add(path, SchemaRelaxed, NonBreaking); }
      else if before == Bool(false) { Add(path, SchemaRelaxed, NonBreaking); }
      else { Add(path, SchemaRestricted, Breaking); }
    }
  }

  // The report: the verdict of the changes found, and the changes.
  method DetectSchemaDrift(previous: Json, current: Json) returns (verdict: Verdict, changes: seq<Change>)
    requires IsSchema(previous) && IsSchema(current)
    ensures verdict == DetectDrift(previous, current)
    ensures Elements(changes) == AllChanges(previous, current)
  {
    hide Changes;
    var log := new ChangeLog();
    if previous != current { log.Compare(previous, current, ""); }
    assert log.changes[0..] == log.changes;
    if previous != current && |log.changes| == 0 { log.Add("", Unclassified, Review); }
    changes := log.changes;
    NoneFound(changes);
    var hasBreaking := exists c :: c in changes && c.compatibility == Breaking;
    var hasReview := exists c :: c in changes && c.compatibility == Review;
    verdict := if previous == current then Identical
    else if hasBreaking then BreakingDrift
    else if hasReview then ReviewDrift
    else BackwardCompatible;
    assert previous != current ==> forall c :: c in changes <==> c in AllChanges(previous, current);
  }

  lemma NoneFound(changes: seq<Change>)
    ensures |changes| == 0 <==> Elements(changes) == {}
  {
    if |changes| > 0 { assert changes[0] in Elements(changes); }
  }

  // One change for each key.
  ghost function EachOf(keys: set<string>, path: string, kind: Kind, compatibility: Compatibility): set<Change> {
    set k | k in keys :: Change(Below(path, k), kind, compatibility)
  }

  lemma NoneYet(changes: seq<Change>, path: string, kind: Kind, compatibility: Compatibility)
    ensures Grown(changes, changes, EachOf({}, path, kind, compatibility))
  {
  }

  lemma EachMore(keys: set<string>, k: string, path: string, kind: Kind, compatibility: Compatibility)
    ensures EachOf(keys + {k}, path, kind, compatibility) == EachOf(keys, path, kind, compatibility) + One(Below(path, k), kind, compatibility)
  {
    BelowNotEmpty(path, k);
    hide Below;
  }

  ghost function BoundsOf(keys: set<string>, before: Fields, after: Fields, path: string): set<Change> {
    set key, c | key in keys && c in BoundChanges(before, after, key, path) :: c
  }

  lemma BoundsSplit(a: set<string>, b: set<string>, before: Fields, after: Fields, path: string)
    ensures BoundsOf(a + b, before, after, path) == BoundsOf(a, before, after, path) + BoundsOf(b, before, after, path)
    ensures forall key :: b == {key} ==> BoundsOf(b, before, after, path) == BoundChanges(before, after, key, path)
  {
    hide BoundChanges;
  }

  lemma UpperNotLower()
    ensures forall key :: key in UPPER_BOUNDS ==> key !in LOWER_BOUNDS
  {
  }

  ghost function OthersOf(keys: set<string>, before: Fields, after: Fields, path: string): set<Change> {
    set key | key in keys && key !in HANDLED && Get(before, key) != Get(after, key) ::
      Change(At(path), Unclassified, if key in ANNOTATIONS then NonBreaking else Review)
  }

  lemma OthersSplit(a: set<string>, b: set<string>, before: Fields, after: Fields, path: string)
    ensures OthersOf(a + b, before, after, path) == OthersOf(a, before, after, path) + OthersOf(b, before, after, path)
  {
    hide Get;
  }

  lemma OthersOne(before: Fields, after: Fields, key: string, path: string)
    ensures OthersOf({key}, before, after, path) ==
      if key !in HANDLED && Get(before, key) != Get(after, key) then One(path, Unclassified, if key in ANNOTATIONS then NonBreaking else Review)
      else {}
  {
    hide Get;
  }

  lemma OthersAll(before: Fields, after: Fields, path: string)
    ensures OthersOf(before.Keys + after.Keys, before, after, path) == OtherChanges(before, after, path)
  {
    hide Get;
  }

  // What becomes of one declared property, its own changes included.
  ghost function PropertyOf(before: Json, after: Json, k: string, path: string): set<Change>
    requires before.Obj? && after.Obj? && k in Properties(before.m)
  {
    PropertyChanges(before.m, after.m, k, path)
    + if Shared(before.m, after.m, k) then Changes(Properties(before.m)[k], Properties(after.m)[k], Below(path, k)) else {}
  }

  ghost function PropertiesOf(keys: set<string>, before: Json, after: Json, path: string): set<Change>
    requires before.Obj? && after.Obj? && keys <= Properties(before.m).Keys
  {
    set k, c | k in keys && c in PropertyOf(before, after, k, path) :: c
  }

  lemma PropertiesSplit(a: set<string>, k: string, before: Json, after: Json, path: string)
    requires before.Obj? && after.Obj? && a + {k} <= Properties(before.m).Keys
    ensures PropertiesOf(a + {k}, before, after, path) == PropertiesOf(a, before, after, path) + PropertyOf(before, after, k, path)
  {
    hide PropertyOf;
  }

  // One more step of the pass.
  ghost method Grow(start: seq<Change>, middle: seq<Change>, end: seq<Change>, found: set<Change>, more: set<Change>)
    returns (all: set<Change>, now: seq<Change>)
    requires Grown(start, middle, found) && Grown(middle, end, more)
    ensures Grown(start, end, all) && all == found + more && now == end
  {
    GrownTwice(start, middle, end, found, more);
    all, now := found + more, end;
  }

  // The passes together find the changes of the comparison.
  lemma AllFound(before: Json, after: Json, path: string)
    requires before.Obj? && after.Obj?
    ensures Changes(before, after, path) ==
      TypeChanges(Get(before.m, "type"), Get(after.m, "type"), path) + RequiredChanges(before.m, after.m, path)
      + PropertiesOf(Properties(before.m).Keys, before, after, path) + AddedChanges(before.m, after.m, path)
      + EnumChanges(Get(before.m, "enum"), Get(after.m, "enum"), path) + ConstChanges(Get(before.m, "const"), Get(after.m, "const"), path)
      + AdditionalChanges(before.m, after.m, path) + BoundsOf(LOWER_BOUNDS, before.m, after.m, path) + BoundsOf(UPPER_BOUNDS, before.m, after.m, path)
      + MultipleChanges(before.m, after.m, path) + PatternChanges(Get(before.m, "pattern"), Get(after.m, "pattern"), path)
      + OtherChanges(before.m, after.m, path)
  {
    hide Changes, OwnChanges, TypeChanges, RequiredChanges, AddedChanges, EnumChanges, ConstChanges, AdditionalChanges, MultipleChanges, PatternChanges, OtherChanges, BoundChanges, BoundsOf, PropertiesOf, PropertiesKept, Nested;
    BoundsSplit(LOWER_BOUNDS, UPPER_BOUNDS, before.m, after.m, path);
    PropertiesFound(before, after, path);
    ChangesSplit(before, after, path);
    OwnSplit(before.m, after.m, path);
  }

  ghost function PropertiesKept(before: Fields, after: Fields, path: string): set<Change> {
    set k, c | k in Properties(before) && c in PropertyChanges(before, after, k, path) :: c
  }

  ghost function Nested(before: Json, after: Json, path: string): set<Change>
    requires before.Obj? && after.Obj?
  {
    set k, c | k in Properties(before.m) && Shared(before.m, after.m, k) && c in Changes(Properties(before.m)[k], Properties(after.m)[k], Below(path, k)) :: c
  }

  lemma ChangesSplit(before: Json, after: Json, path: string)
    requires before.Obj? && after.Obj?
    ensures Changes(before, after, path) == OwnChanges(before.m, after.m, path) + Nested(before, after, path)
  {
    hide OwnChanges, Below, IsSchema;
  }

  lemma OwnSplit(f: Fields, g: Fields, path: string)
    ensures OwnChanges(f, g, path) == TypeChanges(Get(f, "type"), Get(g, "type"), path) + RequiredChanges(f, g, path)
      + PropertiesKept(f, g, path) + AddedChanges(f, g, path)
      + EnumChanges(Get(f, "enum"), Get(g, "enum"), path) + ConstChanges(Get(f, "const"), Get(g, "const"), path)
      + AdditionalChanges(f, g, path) + BoundsOf(LOWER_BOUNDS + UPPER_BOUNDS, f, g, path)
      + MultipleChanges(f, g, path) + PatternChanges(Get(f, "pattern"), Get(g, "pattern"), path) + OtherChanges(f, g, path)
  {
    hide TypeChanges, RequiredChanges, AddedChanges, EnumChanges, ConstChanges, AdditionalChanges, MultipleChanges, PatternChanges, OtherChanges, BoundChanges, PropertyChanges;
  }

  lemma PropertiesFound(before: Json, after: Json, path: string)
    requires before.Obj? && after.Obj?
    ensures PropertiesOf(Properties(before.m).Keys, before, after, path) == PropertiesKept(before.m, after.m, path) + Nested(before, after, path)
  {
    hide PropertyChanges, Changes, Below, Shared, PropertiesOf, PropertiesKept, Nested, Properties;
    forall c ensures c in PropertiesOf(Properties(before.m).Keys, before, after, path) <==> c in PropertiesKept(before.m, after.m, path) || c in Nested(before, after, path) {
      PropertyFound(before, after, path, c);
    }
  }

  lemma PropertyFound(before: Json, after: Json, path: string, c: Change)
    requires before.Obj? && after.Obj?
    ensures c in PropertiesOf(Properties(before.m).Keys, before, after, path) <==>
      c in PropertiesKept(before.m, after.m, path) || c in Nested(before, after, path)
  {
    hide PropertyChanges, Changes, Below, Properties, PropertyOf, IsSchema;
    if c in PropertiesOf(Properties(before.m).Keys, before, after, path) {
      var k :| k in Properties(before.m) && c in PropertyOf(before, after, k, path);
      InProperty(before, after, path, k, c);
    }
    if c in PropertiesKept(before.m, after.m, path) {
      var k :| k in Properties(before.m) && c in PropertyChanges(before.m, after.m, k, path);
      InProperty(before, after, path, k, c);
    }
    if c in Nested(before, after, path) {
      var k :| k in Properties(before.m) && Shared(before.m, after.m, k) && c in Changes(Properties(before.m)[k], Properties(after.m)[k], Below(path, k));
      InProperty(before, after, path, k, c);
    }
  }

  lemma InProperty(before: Json, after: Json, path: string, k: string, c: Change)
    requires before.Obj? && after.Obj? && k in Properties(before.m)
    ensures c in PropertyOf(before, after, k, path) <==>
      c in PropertyChanges(before.m, after.m, k, path) || (Shared(before.m, after.m, k) && c in Changes(Properties(before.m)[k], Properties(after.m)[k], Below(path, k)))
  {
    hide PropertyChanges, Changes, Below, Properties;
  }

  lemma SameSize(a: set<string>, b: set<string>)
    requires |a| == |b| && a <= b
    ensures a == b
  {
    if exists x :: x in b && x !in a {
      var x :| x in b && x !in a;
      Within(a, b - {x});
    }
  }

  lemma {:induction false} Within(a: set<string>, b: set<string>)
    requires a <= b
    ensures |a| <= |b|
  {
    if a != {} {
      var x :| x in a;
      Within(a - {x}, b - {x});
    }
  }

  lemma BelowNotEmpty(path: string, k: string)
    ensures At(Below(path, k)) == Below(path, k)
  {
  }

  lemma GainedSplit(before: Fields, after: Fields, path: string)
    ensures AddedChanges(before, after, path) ==
      EachOf((Properties(after).Keys - Properties(before).Keys) * Required(after), path, PropertyAdded, Breaking)
      + EachOf((Properties(after).Keys - Properties(before).Keys) - Required(after), path, PropertyAdded, NonBreaking)
  {
    hide Below, Required, Properties;
  }
}
