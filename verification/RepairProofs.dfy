/**
 What the repair walker does under rules that convert strings only: it keeps the shape
 of the value, its records replay, no place is recorded twice, each numeric change
 keeps the number, and a second pass finds nothing.
 */
module RepairProofs {
  import opened Common
  import JsonSchema
  import Decimals
  import opened Pointers
  import opened RepairWalk

  // ----- Same shape, some strings converted -----

  predicate Converts(before: Value, after: Value) {
    before.Str? && (after.Num? || after.Bool?)
  }

  predicate Refines(v: Value, w: Value) {
    || v == w
    || Converts(v, w)
    || (v.Arr? && w.Arr? && |v.items| == |w.items| && forall i :: 0 <= i < |v.items| ==> Refines(v.items[i], w.items[i]))
    || (v.Obj? && w.Obj? && |v.members| == |w.members|
          && forall i :: 0 <= i < |v.members| ==> v.members[i].key == w.members[i].key && Refines(v.members[i].value, w.members[i].value))
  }

  lemma {:induction false} RefinesTransitive(u: Value, v: Value, w: Value)
    requires Refines(u, v) && Refines(v, w)
    ensures Refines(u, w)
    decreases u
  {
    if u.Arr? && v.Arr? && w.Arr? {
      forall i | 0 <= i < |u.items| ensures Refines(u.items[i], w.items[i]) {
        RefinesTransitive(u.items[i], v.items[i], w.items[i]);
      }
    } else if u.Obj? && v.Obj? && w.Obj? {
      forall i | 0 <= i < |u.members| ensures Refines(u.members[i].value, w.members[i].value) {
        RefinesTransitive(u.members[i].value, v.members[i].value, w.members[i].value);
      }
    }
  }

  // Only the rules on strings.
  predicate StringsOnly(job: Job) {
    SingletonToArray !in job.allowed
  }

  predicate TypedArray(f: JsonSchema.Fields) {
    "type" in f && f["type"] == JsonSchema.Str("array")
  }

  // Nothing in the schema asks for an array or leads elsewhere.
  predicate WrapFree(s: Schema)
    decreases s
  {
    s.Obj? ==> !TypedArray(s.m) && OwnReference(s) == {} && forall k :: k in s.m ==> WrapFree(s.m[k])
  }

  // A walk along the schema wraps nothing.
  predicate NoWraps(job: Job, s: Schema) {
    StringsOnly(job) || WrapFree(s)
  }

  lemma ScalarConverts(job: Job, f: JsonSchema.Fields, v: Value)
    requires (StringsOnly(job) || !TypedArray(f)) && Conversion(job, f, v).Some?
    ensures Converts(v, Conversion(job, f, v).value.1)
  {
    hide ConvertsToNumber;
  }

  lemma {:induction false} WalkRefines(job: Job, resolving: set<string>, s: Schema, v: Value)
    requires Within(job, s) && NoWraps(job, s)
    ensures Refines(v, Walk(job, resolving, s, v).value)
    decreases AllReferences(job.root) - resolving, s, 2, 0
  {
    hide Conversion, Within, AllReferences, Refines;
    SameRefines(v);
    if s.Obj? {
      var first := Follow(job, resolving, s, v);
      FollowRefines(job, resolving, s, v);
      var second := Scalar(job, s.m, first.value);
      ScalarRefines(job, s.m, first.value);
      RefinesTransitive(v, first.value, second.value);
      WrapFreeBelow(job, s);
      DescendRefines(job, resolving, s, second.value);
      RefinesTransitive(v, second.value, Descend(job, resolving, s, second.value).value);
    }
  }

  // The schemas of items and properties wrap nothing.
  predicate BelowWrapsNot(job: Job, s: Schema)
    requires s.Obj?
  {
    && ("items" in s.m ==> NoWraps(job, s.m["items"]))
    && ("properties" in s.m && s.m["properties"].Obj? ==> forall k :: k in s.m["properties"].m ==> NoWraps(job, s.m["properties"].m[k]))
  }

  lemma WrapFreeBelow(job: Job, s: Schema)
    requires s.Obj? && NoWraps(job, s)
    ensures BelowWrapsNot(job, s)
  {
    if !StringsOnly(job) && "properties" in s.m { assert WrapFree(s.m["properties"]); }
  }

  lemma SameRefines(v: Value)
    ensures Refines(v, v)
  {
  }

  lemma ScalarRefines(job: Job, f: JsonSchema.Fields, v: Value)
    requires StringsOnly(job) || !TypedArray(f)
    ensures Refines(v, Scalar(job, f, v).value)
  {
    hide Conversion;
    if Conversion(job, f, v).Some? { ScalarConverts(job, f, v); }
  }

  lemma {:induction false} FollowRefines(job: Job, resolving: set<string>, s: Schema, v: Value)
    requires Within(job, s) && NoWraps(job, s)
    ensures Refines(v, Follow(job, resolving, s, v).value)
    decreases AllReferences(job.root) - resolving, s, 1, 0
  {
    hide Refines, Within, AllReferences, Target;
    SameRefines(v);
    TargetWithin(job, resolving, s);
    if Target(job, resolving, s).Some? {
      assert s.m["$ref"].s in OwnReference(s);
      WalkRefines(job, resolving + {s.m["$ref"].s}, Target(job, resolving, s).value, v);
    }
  }

  lemma {:induction false} DescendRefines(job: Job, resolving: set<string>, s: Schema, v: Value)
    requires s.Obj? && Within(job, s) && BelowWrapsNot(job, s)
    ensures Refines(v, Descend(job, resolving, s, v).value)
    decreases AllReferences(job.root) - resolving, s, 1, 0
  {
    hide Within, AllReferences, Walk, NoWraps;
    if v.Arr? && "items" in s.m && s.m["items"].Obj? {
      BelowWithin(job, s, "items");
      ItemsRefine(job, resolving, s.m["items"], v.items);
    } else if v.Obj? && "properties" in s.m && s.m["properties"].Obj? {
      MembersRefine(job, resolving, s, v.members);
    }
  }

  lemma {:induction false} ItemsRefine(job: Job, resolving: set<string>, s: Schema, items: seq<Value>)
    requires Within(job, s) && NoWraps(job, s)
    ensures var r := WalkItems(job, resolving, s, items).0; forall i :: 0 <= i < |items| ==> Refines(items[i], r[i])
    decreases AllReferences(job.root) - resolving, s, 3, |items|
  {
    hide Refines, Within, AllReferences, Walk;
    if items != [] {
      var last := |items| - 1;
      ItemsRefine(job, resolving, s, items[..last]);
      WalkRefines(job, resolving, s, items[last]);
      var before, r := WalkItems(job, resolving, s, items[..last]).0, WalkItems(job, resolving, s, items).0;
      forall i | 0 <= i < |items| ensures Refines(items[i], r[i]) {
        if i < last { assert items[..last][i] == items[i] && r[i] == before[i]; }
      }
    }
  }

  lemma {:induction false} MemberRefines(job: Job, resolving: set<string>, s: Schema, m: Member)
    requires s.Obj? && "properties" in s.m && s.m["properties"].Obj? && Within(job, s) && BelowWrapsNot(job, s)
    ensures Refines(m.value, WalkMember(job, resolving, s, m).value)
    decreases AllReferences(job.root) - resolving, s, 0, 0
  {
    hide Refines, Within, AllReferences, Walk;
    SameRefines(m.value);
    if m.key in s.m["properties"].m {
      PropertyWithin(job, s, m.key);
      WalkRefines(job, resolving, s.m["properties"].m[m.key], m.value);
    }
  }

  lemma {:induction false} MembersRefine(job: Job, resolving: set<string>, s: Schema, members: seq<Member>)
    requires s.Obj? && "properties" in s.m && s.m["properties"].Obj? && Within(job, s) && BelowWrapsNot(job, s)
    ensures var r := WalkMembers(job, resolving, s, members).0; forall i :: 0 <= i < |members| ==> Refines(members[i].value, r[i].value)
    decreases AllReferences(job.root) - resolving, s, 0, 1 + |members|
  {
    hide Refines, Within, AllReferences, WalkMember;
    if members != [] {
      var last := |members| - 1;
      MembersRefine(job, resolving, s, members[..last]);
      MemberRefines(job, resolving, s, members[last]);
      var before, r := WalkMembers(job, resolving, s, members[..last]).0, WalkMembers(job, resolving, s, members).0;
      forall i | 0 <= i < |members| ensures Refines(members[i].value, r[i].value) {
        if i < last { assert members[..last][i] == members[i] && r[i] == before[i]; }
      }
    }
  }

  // ----- A walk that finds nothing -----

  predicate Quiet(job: Job, resolving: set<string>, s: Schema, v: Value)
    requires Within(job, s)
    decreases AllReferences(job.root) - resolving, s, 2, 0
  {
    s.Obj? ==> QuietRef(job, resolving, s, v) && Conversion(job, s.m, v).None? && QuietBelow(job, resolving, s, v)
  }

  predicate QuietRef(job: Job, resolving: set<string>, s: Schema, v: Value)
    requires Within(job, s)
    decreases AllReferences(job.root) - resolving, s, 1, 0
  {
    TargetWithin(job, resolving, s);
    Target(job, resolving, s).Some? ==> Quiet(job, resolving + {s.m["$ref"].s}, Target(job, resolving, s).value, v)
  }

  predicate QuietBelow(job: Job, resolving: set<string>, s: Schema, v: Value)
    requires s.Obj? && Within(job, s)
    decreases AllReferences(job.root) - resolving, s, 1, 0
  {
    && (v.Arr? && "items" in s.m && s.m["items"].Obj? ==> (BelowWithin(job, s, "items"); QuietItems(job, resolving, s.m["items"], v.items)))
    && (v.Obj? && "properties" in s.m && s.m["properties"].Obj? ==> QuietMembers(job, resolving, s, v.members))
  }

  predicate QuietItems(job: Job, resolving: set<string>, s: Schema, items: seq<Value>)
    requires Within(job, s)
    decreases AllReferences(job.root) - resolving, s, 3, 0
  {
    forall i :: 0 <= i < |items| ==> Quiet(job, resolving, s, items[i])
  }

  predicate QuietMembers(job: Job, resolving: set<string>, s: Schema, members: seq<Member>)
    requires s.Obj? && "properties" in s.m && s.m["properties"].Obj? && Within(job, s)
    decreases AllReferences(job.root) - resolving, s, 0, 1
  {
    forall i :: 0 <= i < |members| ==> QuietMember(job, resolving, s, members[i])
  }

  predicate QuietMember(job: Job, resolving: set<string>, s: Schema, m: Member)
    requires s.Obj? && "properties" in s.m && s.m["properties"].Obj? && Within(job, s)
    decreases AllReferences(job.root) - resolving, s, 0, 0
  {
    m.key in s.m["properties"].m ==>
      (PropertyWithin(job, s, m.key); Quiet(job, resolving, s.m["properties"].m[m.key], m.value))
  }

  lemma QuietItemsAppend(job: Job, resolving: set<string>, s: Schema, items: seq<Value>, item: Value)
    requires Within(job, s)
    ensures QuietItems(job, resolving, s, items + [item]) <==> QuietItems(job, resolving, s, items) && Quiet(job, resolving, s, item)
  {
    hide Quiet;
    var all := items + [item];
    assert all[|items|] == item;
    assert forall i :: 0 <= i < |items| ==> all[i] == items[i];
  }

  lemma QuietMembersAppend(job: Job, resolving: set<string>, s: Schema, members: seq<Member>, m: Member)
    requires s.Obj? && "properties" in s.m && s.m["properties"].Obj? && Within(job, s)
    ensures QuietMembers(job, resolving, s, members + [m]) <==> QuietMembers(job, resolving, s, members) && QuietMember(job, resolving, s, m)
  {
    hide QuietMember;
    var all := members + [m];
    assert all[|members|] == m;
    assert forall i :: 0 <= i < |members| ==> all[i] == members[i];
  }

  // What did not convert does not convert after some of its strings did.
  lemma StaysUnconverted(job: Job, f: JsonSchema.Fields, v: Value, w: Value)
    requires Refines(v, w) && v != w && Conversion(job, f, v).None?
    ensures Conversion(job, f, w).None?
  {
    hide ConvertsToNumber;
  }

  // Converting more strings disturbs nothing.
  lemma {:induction false} QuietMonotone(job: Job, resolving: set<string>, s: Schema, v: Value, w: Value)
    requires Within(job, s) && Quiet(job, resolving, s, v) && Refines(v, w)
    ensures Quiet(job, resolving, s, w)
    decreases AllReferences(job.root) - resolving, s, 2
  {
    hide Conversion, Within, AllReferences, Target;
    if s.Obj? && v != w {
      TargetWithin(job, resolving, s);
      if Target(job, resolving, s).Some? {
        QuietMonotone(job, resolving + {s.m["$ref"].s}, Target(job, resolving, s).value, v, w);
      }
      StaysUnconverted(job, s.m, v, w);
      BelowMonotone(job, resolving, s, v, w);
    }
  }

  lemma {:induction false} BelowMonotone(job: Job, resolving: set<string>, s: Schema, v: Value, w: Value)
    requires s.Obj? && Within(job, s) && QuietBelow(job, resolving, s, v) && Refines(v, w)
    ensures QuietBelow(job, resolving, s, w)
    decreases AllReferences(job.root) - resolving, s, 1
  {
    hide Within, AllReferences, Quiet;
    if v != w && w.Arr? && "items" in s.m && s.m["items"].Obj? {
      BelowWithin(job, s, "items");
      forall i | 0 <= i < |w.items| ensures Quiet(job, resolving, s.m["items"], w.items[i]) {
        QuietMonotone(job, resolving, s.m["items"], v.items[i], w.items[i]);
      }
    }
    if v != w && w.Obj? && "properties" in s.m && s.m["properties"].Obj? {
      forall i | 0 <= i < |w.members| ensures QuietMember(job, resolving, s, w.members[i]) {
        assert QuietMember(job, resolving, s, v.members[i]);
        if w.members[i].key in s.m["properties"].m {
          PropertyWithin(job, s, w.members[i].key);
          QuietMonotone(job, resolving, s.m["properties"].m[w.members[i].key], v.members[i].value, w.members[i].value);
        }
      }
    }
  }

  // ----- References and what stands next to them -----

  // Next to a reference no schema wraps: it asks for no array, nor does anything in its items and properties.
  predicate TameReferences(s: Schema)
    decreases s
  {
    s.Obj? ==>
      && (OwnReference(s) != {} ==> !TypedArray(s.m) && ("items" in s.m ==> WrapFree(s.m["items"])) && ("properties" in s.m ==> WrapFree(s.m["properties"])))
      && forall k :: k in s.m ==> TameReferences(s.m[k])
  }

  lemma {:induction false} NavigateTame(j: Schema, parts: seq<string>)
    requires TameReferences(j)
    ensures Navigate(j, parts).Some? ==> TameReferences(Navigate(j, parts).value)
  {
    hide Unescape;
    if parts != [] && j.Obj? && Unescape(parts[0]) in j.m { NavigateTame(j.m[Unescape(parts[0])], parts[1..]); }
  }

  // Either only strings are converted, or nothing is wrapped next to a reference.
  predicate Settling(job: Job, s: Schema) {
    StringsOnly(job) || (TameReferences(job.root) && TameReferences(s))
  }

  lemma TargetSettling(job: Job, resolving: set<string>, s: Schema)
    requires Settling(job, s)
    ensures Target(job, resolving, s).Some? ==> Settling(job, Target(job, resolving, s).value)
  {
    hide TameReferences;
    if Target(job, resolving, s).Some? && !StringsOnly(job) && s.m["$ref"].s != "#" {
      NavigateTame(job.root, SplitSlash(s.m["$ref"].s[2..]));
    }
  }

  lemma TameNextToReference(job: Job, resolving: set<string>, s: Schema)
    requires s.Obj? && Settling(job, s) && Target(job, resolving, s).Some?
    ensures (StringsOnly(job) || !TypedArray(s.m)) && BelowWrapsNot(job, s)
  {
    assert s.m["$ref"].s in OwnReference(s);
  }

  lemma SettledScalar(job: Job, f: JsonSchema.Fields, v: Value)
    ensures Conversion(job, f, Scalar(job, f, v).value).None?
  {
    hide ConvertsToNumber;
  }

  // Whether a container converts depends on its kind alone.
  lemma DescendSettled(job: Job, resolving: set<string>, s: Schema, v: Value)
    requires s.Obj? && Within(job, s) && Conversion(job, s.m, v).None?
    ensures Conversion(job, s.m, Descend(job, resolving, s, v).value).None?
  {
    hide ConvertsToNumber, Within, WalkItems, WalkMembers;
  }

  lemma ItemsSettling(job: Job, s: Schema)
    requires s.Obj? && Settling(job, s)
    ensures "items" in s.m ==> Settling(job, s.m["items"])
    ensures "properties" in s.m && s.m["properties"].Obj? ==> forall k :: k in s.m["properties"].m ==> Settling(job, s.m["properties"].m[k])
  {
    if !StringsOnly(job) && "properties" in s.m { assert TameReferences(s.m["properties"]); }
  }

  // What a walk leaves behind is quiet.
  lemma {:induction false} WalkSettles(job: Job, resolving: set<string>, s: Schema, v: Value)
    requires Within(job, s) && Settling(job, s)
    ensures Quiet(job, resolving, s, Walk(job, resolving, s, v).value)
    decreases AllReferences(job.root) - resolving, s, 2, 0
  {
    hide Conversion, Within, AllReferences, Refines, Target, QuietBelow, Descend, Settling;
    if s.Obj? {
      var first := Follow(job, resolving, s, v);
      var second := Scalar(job, s.m, first.value);
      SettledScalar(job, s.m, first.value);
      DescendSettled(job, resolving, s, second.value);
      BelowSettles(job, resolving, s, second.value);
      TargetWithin(job, resolving, s);
      if Target(job, resolving, s).Some? {
        TargetSettling(job, resolving, s);
        WalkSettles(job, resolving + {s.m["$ref"].s}, Target(job, resolving, s).value, v);
        FollowedStaysQuiet(job, resolving, s, first.value);
      }
    }
  }

  // What the schema does next to its reference does not disturb what the reference left.
  lemma FollowedStaysQuiet(job: Job, resolving: set<string>, s: Schema, v: Value)
    requires s.Obj? && Within(job, s) && Settling(job, s) && Target(job, resolving, s).Some? && QuietRef(job, resolving, s, v)
    ensures QuietRef(job, resolving, s, Descend(job, resolving, s, Scalar(job, s.m, v).value).value)
  {
    hide Conversion, Within, AllReferences, Refines, Target, Descend, Quiet, Settling, BelowWrapsNot, TypedArray, Scalar;
    TargetWithin(job, resolving, s);
    TameNextToReference(job, resolving, s);
    var second := Scalar(job, s.m, v);
    ScalarRefines(job, s.m, v);
    DescendRefines(job, resolving, s, second.value);
    RefinesTransitive(v, second.value, Descend(job, resolving, s, second.value).value);
    QuietMonotone(job, resolving + {s.m["$ref"].s}, Target(job, resolving, s).value, v, Descend(job, resolving, s, second.value).value);
  }

  lemma {:induction false} BelowSettles(job: Job, resolving: set<string>, s: Schema, v: Value)
    requires s.Obj? && Within(job, s) && Settling(job, s)
    ensures QuietBelow(job, resolving, s, Descend(job, resolving, s, v).value)
    decreases AllReferences(job.root) - resolving, s, 1, 0
  {
    hide Within, AllReferences, Settling, Walk, Quiet, QuietItems, QuietMembers, WalkItems, WalkMembers;
    if v.Arr? && "items" in s.m && s.m["items"].Obj? {
      BelowWithin(job, s, "items");
      ItemsSettling(job, s);
      ItemsSettle(job, resolving, s.m["items"], v.items);
    } else if v.Obj? && "properties" in s.m && s.m["properties"].Obj? {
      MembersSettle(job, resolving, s, v.members);
    }
  }

  lemma {:induction false} ItemsSettle(job: Job, resolving: set<string>, s: Schema, items: seq<Value>)
    requires Within(job, s) && Settling(job, s)
    ensures QuietItems(job, resolving, s, WalkItems(job, resolving, s, items).0)
    decreases AllReferences(job.root) - resolving, s, 3, |items|
  {
    hide Within, AllReferences, Settling, Walk, Quiet, QuietItems;
    if items != [] {
      var last := |items| - 1;
      ItemsSettle(job, resolving, s, items[..last]);
      WalkSettles(job, resolving, s, items[last]);
      QuietItemsAppend(job, resolving, s, WalkItems(job, resolving, s, items[..last]).0, Walk(job, resolving, s, items[last]).value);
    } else {
      NoneQuiet(job, resolving, s);
    }
  }

  lemma NoneQuiet(job: Job, resolving: set<string>, s: Schema)
    requires Within(job, s)
    ensures QuietItems(job, resolving, s, [])
    ensures s.Obj? && "properties" in s.m && s.m["properties"].Obj? ==> QuietMembers(job, resolving, s, [])
  {
  }

  lemma {:induction false} MemberSettles(job: Job, resolving: set<string>, s: Schema, m: Member)
    requires s.Obj? && "properties" in s.m && s.m["properties"].Obj? && Within(job, s) && Settling(job, s)
    ensures QuietMember(job, resolving, s, Member(m.key, WalkMember(job, resolving, s, m).value))
    decreases AllReferences(job.root) - resolving, s, 0, 0
  {
    hide Within, AllReferences, Settling, Walk, Quiet;
    if m.key in s.m["properties"].m {
      PropertyWithin(job, s, m.key);
      ItemsSettling(job, s);
      WalkSettles(job, resolving, s.m["properties"].m[m.key], m.value);
    }
  }

  lemma {:induction false} MembersSettle(job: Job, resolving: set<string>, s: Schema, members: seq<Member>)
    requires s.Obj? && "properties" in s.m && s.m["properties"].Obj? && Within(job, s) && Settling(job, s)
    ensures QuietMembers(job, resolving, s, WalkMembers(job, resolving, s, members).0)
    decreases AllReferences(job.root) - resolving, s, 0, 1 + |members|
  {
    hide Within, AllReferences, Settling, WalkMember, QuietMember, QuietMembers;
    if members != [] {
      var last := |members| - 1;
      MembersSettle(job, resolving, s, members[..last]);
      MemberSettles(job, resolving, s, members[last]);
      var member := Member(members[last].key, WalkMember(job, resolving, s, members[last]).value);
      QuietMembersAppend(job, resolving, s, WalkMembers(job, resolving, s, members[..last]).0, member);
    } else {
      NoneQuiet(job, resolving, s);
    }
  }

  // A quiet walk changes and records nothing.
  lemma {:induction false} QuietWalk(job: Job, resolving: set<string>, s: Schema, v: Value)
    requires Within(job, s) && Quiet(job, resolving, s, v)
    ensures Walk(job, resolving, s, v) == Repaired(v, [])
    decreases AllReferences(job.root) - resolving, s, 2, 0
  {
    hide Conversion, Within, AllReferences, Target, Descend, QuietBelow;
    if s.Obj? {
      TargetWithin(job, resolving, s);
      if Target(job, resolving, s).Some? {
        QuietWalk(job, resolving + {s.m["$ref"].s}, Target(job, resolving, s).value, v);
      }
      QuietDescend(job, resolving, s, v);
    }
  }

  lemma {:induction false} QuietDescend(job: Job, resolving: set<string>, s: Schema, v: Value)
    requires s.Obj? && Within(job, s) && QuietBelow(job, resolving, s, v)
    ensures Descend(job, resolving, s, v) == Repaired(v, [])
    decreases AllReferences(job.root) - resolving, s, 1, 0
  {
    hide Within, AllReferences, Walk, Quiet, QuietItems, QuietMembers, WalkItems, WalkMembers;
    if v.Arr? && "items" in s.m && s.m["items"].Obj? {
      BelowWithin(job, s, "items");
      QuietItemsWalk(job, resolving, s.m["items"], v.items);
    } else if v.Obj? && "properties" in s.m && s.m["properties"].Obj? {
      QuietMembersWalk(job, resolving, s, v.members);
    }
  }

  lemma {:induction false} QuietItemsWalk(job: Job, resolving: set<string>, s: Schema, items: seq<Value>)
    requires Within(job, s) && QuietItems(job, resolving, s, items)
    ensures WalkItems(job, resolving, s, items) == (items, [])
    decreases AllReferences(job.root) - resolving, s, 3, |items|
  {
    hide Within, AllReferences, Walk, Quiet, QuietItems;
    if items != [] {
      var last := |items| - 1;
      assert items == items[..last] + [items[last]];
      QuietItemsAppend(job, resolving, s, items[..last], items[last]);
      QuietItemsWalk(job, resolving, s, items[..last]);
      QuietWalk(job, resolving, s, items[last]);
      var before, item := WalkItems(job, resolving, s, items[..last]), Walk(job, resolving, s, items[last]);
      assert item.records == [] && Lift(Index(last), item.records) == [];
      assert before.0 + [item.value] == items && before.1 + Lift(Index(last), item.records) == [];
    }
  }

  lemma {:induction false} QuietMembersWalk(job: Job, resolving: set<string>, s: Schema, members: seq<Member>)
    requires s.Obj? && "properties" in s.m && s.m["properties"].Obj? && Within(job, s) && QuietMembers(job, resolving, s, members)
    ensures WalkMembers(job, resolving, s, members) == (members, [])
    decreases AllReferences(job.root) - resolving, s, 0, 1 + |members|
  {
    hide Within, AllReferences, Walk, Quiet, QuietMembers;
    if members != [] {
      var last := |members| - 1;
      assert members == members[..last] + [members[last]];
      QuietMembersAppend(job, resolving, s, members[..last], members[last]);
      QuietMembersWalk(job, resolving, s, members[..last]);
      if members[last].key in s.m["properties"].m {
        PropertyWithin(job, s, members[last].key);
        QuietWalk(job, resolving, s.m["properties"].m[members[last].key], members[last].value);
      }
      var before, member := WalkMembers(job, resolving, s, members[..last]), WalkMember(job, resolving, s, members[last]);
      assert member == Repaired(members[last].value, []) && Lift(Key(members[last].key), member.records) == [];
      assert before.0 + [Member(members[last].key, member.value)] == members;
      assert before.1 + Lift(Key(members[last].key), member.records) == [];
    }
  }

  // Repairing a repaired value records nothing and changes nothing, when nothing is wrapped, or nothing next to a reference.
  lemma SecondPassFindsNothing(root: Schema, v: Value, allowed: set<Rule>, numeric: Numeric)
    requires SingletonToArray !in allowed || TameReferences(root)
    ensures var out := ApplyRepairs(root, v, allowed, numeric).value; ApplyRepairs(root, out, allowed, numeric) == Repaired(out, [])
  {
    hide Walk, Quiet, TameReferences;
    var job := Job(root, allowed, numeric);
    WalkSettles(job, {}, root, v);
    QuietWalk(job, {}, root, Walk(job, {}, root, v).value);
  }

  // ----- Without that, a second pass can find more -----

  const NUMBER: Schema := JsonSchema.Obj(map["type" := JsonSchema.Str("number")])
  const NUMBERS: Schema := JsonSchema.Obj(map["type" := JsonSchema.Arr([JsonSchema.Str("array"), JsonSchema.Str("null")]), "items" := NUMBER])
  const POINTING: Schema := JsonSchema.Obj(map["$ref" := JsonSchema.Str("#/$defs/a"), "type" := JsonSchema.Str("array")])
  const WRAPPING: Schema := JsonSchema.Obj(map["type" := JsonSchema.Str("object"), "properties" := JsonSchema.Obj(map["p" := POINTING]),
                                               "$defs" := JsonSchema.Obj(map["a" := NUMBERS])])

  lemma TwoSteps(j: Schema, a: string, b: string)
    requires '~' !in a && '~' !in b && j.Obj? && a in j.m && j.m[a].Obj? && b in j.m[a].m && j.m[a].m[b].Obj?
    ensures Navigate(j, [a, b]) == Some(j.m[a].m[b])
  {
    hide Unescape;
    Untouched(a);
    Untouched(b);
    assert [a, b][1..] == [b] && [b][1..] == [];
    assert Navigate(j, [a, b]) == Navigate(j.m[a], [b]) == Navigate(j.m[a].m[b], []);
  }

  lemma ReferenceToA()
    ensures LocalReference(WRAPPING, "#/$defs/a") == Some(NUMBERS)
  {
    hide Navigate, SplitSlash;
    assert "#/$defs/a"[..2] == "#/" && "#/$defs/a"[2..] == "$defs/a";
    SplitTwo();
    TwoSteps(WRAPPING, "$defs", "a");
  }

  lemma SplitTwo()
    ensures SplitSlash("$defs/a") == ["$defs", "a"]
  {
    assert SplitSlash("/a") == ["", "a"] by {
      assert "a"[1..] == "" && ['a'] + "" == "a" && [""][1..] == [];
      assert "/a"[1..] == "a" && SplitSlash("a") == ["a"];
    }
    hide SplitSlash;
    Joins('s', "/a", "", "a");
    assert ['s'] + "/a" == "s/a" && ['s'] + "" == "s";
    Joins('f', "s/a", "s", "a");
    assert ['f'] + "s/a" == "fs/a" && ['f'] + "s" == "fs";
    Joins('e', "fs/a", "fs", "a");
    assert ['e'] + "fs/a" == "efs/a" && ['e'] + "fs" == "efs";
    Joins('d', "efs/a", "efs", "a");
    assert ['d'] + "efs/a" == "defs/a" && ['d'] + "efs" == "defs";
    Joins('$', "defs/a", "defs", "a");
    assert ['$'] + "defs/a" == "$defs/a" && ['$'] + "defs" == "$defs";
  }

  lemma Joins(c: char, rest: string, first: string, second: string)
    requires c != '/' && SplitSlash(rest) == [first, second]
    ensures SplitSlash([c] + rest) == [[c] + first, second]
  {
    assert ([c] + rest)[1..] == rest && [first, second][1..] == [second];
  }

  lemma {:induction false} NoPair(token: string, a: char, b: char, with: char)
    requires a !in token
    ensures ReplacePair(token, a, b, with) == token
  {
    if token != "" {
      NoPair(token[1..], a, b, with);
      assert token[0] in token;
      assert [token[0]] + token[1..] == token;
    }
  }

  lemma Untouched(token: string)
    requires '~' !in token
    ensures Unescape(token) == token
  {
    NoPair(token, '~', '1', '/');
    NoPair(token, '~', '0', '~');
  }

  lemma OneIsANumber(numeric: Numeric)
    requires numeric.text("1") == "1" && numeric.finite("1")
    ensures ConvertsToNumber(numeric, "1", false)
  {
    assert "1"[1..] == "";
    assert Decimals.DigitRun("1") == 1;
    assert "1"[..1] == "1";
    assert Decimals.Match("1") == Some(Decimals.Parts(false, "1", "", 0));
  }

  lemma PartsWithin(job: Job)
    requires job.root == WRAPPING
    ensures Within(job, WRAPPING) && Within(job, POINTING) && Within(job, NUMBERS) && Within(job, NUMBER)
  {
    hide AllReferences;
    ReferencesBelow(WRAPPING, "properties");
    ReferencesBelow(WRAPPING.m["properties"], "p");
    ReferencesBelow(WRAPPING, "$defs");
    ReferencesBelow(WRAPPING.m["$defs"], "a");
    ReferencesBelow(NUMBERS, "items");
  }

  const ONE: Value := Str("1")
  const CONVERTED: Record := Record([], StringToNumber, ONE, Num("1"))

  predicate Wraps(job: Job) {
    job.root == WRAPPING && job.allowed == DEFAULT_REPAIRS + {SingletonToArray} && job.numeric.text("1") == "1" && ConvertsToNumber(job.numeric, "1", false)
  }

  lemma OneConverts(job: Job, resolving: set<string>)
    requires Wraps(job) && Within(job, NUMBER)
    ensures Walk(job, resolving, NUMBER, ONE) == Repaired(Num("1"), [CONVERTED])
  {
    hide ConvertsToNumber, Within, AllReferences;
    assert Conversion(job, NUMBER.m, ONE) == Some((StringToNumber, Num("1")));
  }

  lemma ItemConverts(job: Job, resolving: set<string>)
    requires Wraps(job) && Within(job, NUMBERS) && Within(job, NUMBER)
    ensures Walk(job, resolving, NUMBERS, Arr([ONE])) == Repaired(Arr([Num("1")]), Lift(Index(0), [CONVERTED]))
    ensures Walk(job, resolving, NUMBERS, ONE) == Repaired(ONE, [])
  {
    hide ConvertsToNumber, Within, AllReferences;
    OneConverts(job, resolving);
    OneItem(job, resolving);
    var lifted := Lift(Index(0), [CONVERTED]);
    assert [] + [] + lifted == lifted;
  }

  lemma OneItem(job: Job, resolving: set<string>)
    requires Within(job, NUMBER) && Walk(job, resolving, NUMBER, ONE) == Repaired(Num("1"), [CONVERTED])
    ensures WalkItems(job, resolving, NUMBER, [ONE]) == ([Num("1")], Lift(Index(0), [CONVERTED]))
  {
    hide Walk, Within, AllReferences;
    assert [ONE][..0] == [];
    var before := WalkItems(job, resolving, NUMBER, []);
    assert before == ([], []);
    assert before.0 + [Num("1")] == [Num("1")];
    assert before.1 + Lift(Index(0), [CONVERTED]) == Lift(Index(0), [CONVERTED]);
  }

  // The schema of the property follows its reference, then converts; it has nothing below.
  lemma PointingWalk(job: Job, v: Value)
    requires job.root == WRAPPING && Within(job, POINTING) && Within(job, NUMBERS) && LocalReference(WRAPPING, "#/$defs/a") == Some(NUMBERS)
    ensures var first := Walk(job, {"#/$defs/a"}, NUMBERS, v); var second := Scalar(job, POINTING.m, first.value);
      Walk(job, {}, POINTING, v) == Repaired(second.value, first.records + second.records)
  {
    hide Within, AllReferences, Scalar, LocalReference;
    assert {} + {"#/$defs/a"} == {"#/$defs/a"};
    var first := Follow(job, {}, POINTING, v);
    var second := Scalar(job, POINTING.m, first.value);
    assert Descend(job, {}, POINTING, second.value) == Repaired(second.value, []);
    assert first.records + second.records + [] == first.records + second.records;
  }

  // The root only walks its property.
  lemma RootWalk(job: Job, v: Value)
    requires job.root == WRAPPING && Within(job, WRAPPING) && Within(job, POINTING)
    ensures var r := Walk(job, {}, POINTING, v); Walk(job, {}, WRAPPING, Obj([Member("p", v)])) == Repaired(Obj([Member("p", r.value)]), Lift(Key("p"), r.records))
  {
    hide Within, AllReferences, LocalReference;
    var members := [Member("p", v)];
    var r := Walk(job, {}, POINTING, v);
    assert members[..0] == [] && WalkMembers(job, {}, WRAPPING, []) == ([], []);
    assert WalkMember(job, {}, WRAPPING, members[0]) == r;
    var lifted := Lift(Key("p"), r.records);
    assert [] + [Member("p", r.value)] == [Member("p", r.value)] && [] + lifted == lifted && [] + [] + lifted == lifted;
    assert WalkMembers(job, {}, WRAPPING, members) == ([Member("p", r.value)], lifted);
  }

  // The reference looks at the items of "1" before the keyword next to it wraps it: the first pass only wraps,
  // the second one converts.
  lemma WrappingNextToReference(numeric: Numeric)
    requires numeric.text("1") == "1" && numeric.finite("1")
    ensures var allowed := DEFAULT_REPAIRS + {SingletonToArray}; var wrapped := Obj([Member("p", Arr([ONE]))]);
      && ApplyRepairs(WRAPPING, Obj([Member("p", ONE)]), allowed, numeric).value == wrapped
      && ApplyRepairs(WRAPPING, wrapped, allowed, numeric).value == Obj([Member("p", Arr([Num("1")]))])
      && |ApplyRepairs(WRAPPING, wrapped, allowed, numeric).records| == 1
  {
    hide ConvertsToNumber, Within, AllReferences, LocalReference, Walk;
    var job := Job(WRAPPING, DEFAULT_REPAIRS + {SingletonToArray}, numeric);
    ReferenceToA();
    OneIsANumber(numeric);
    PartsWithin(job);
    ItemConverts(job, {"#/$defs/a"});
    PointingWalk(job, ONE);
    PointingWalk(job, Arr([ONE]));
    assert Conversion(job, POINTING.m, ONE) == Some((SingletonToArray, Arr([ONE])));
    RootWalk(job, ONE);
    RootWalk(job, Arr([ONE]));
  }
}
