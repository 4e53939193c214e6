/**
 What the records of a repair say: each is an exact conversion, replaying them on the
 input gives the output, and no JSON Pointer occurs twice.
 */
module RepairRecords {
  import opened Common
  import JsonSchema
  import Decimals
  import opened Pointers
  import opened RepairWalk
  import opened RepairProofs

  // ----- Places in a value -----

  function Find(members: seq<Member>, key: string): (r: Option<nat>)
    ensures r.Some? ==> r.value < |members| && members[r.value].key == key
    ensures r.None? ==> forall i :: 0 <= i < |members| ==> members[i].key != key
  {
    if members == [] then None
    else if members[|members| - 1].key == key then Some(|members| - 1)
    else Find(members[..|members| - 1], key)
  }

  function Lookup(v: Value, path: Path): Option<Value>
    decreases |path|
  {
    if path == [] then Some(v)
    else
      match path[0]
      case Index(i) => if v.Arr? && i < |v.items| then Lookup(v.items[i], path[1..]) else None
      case Key(k) => if v.Obj? && Find(v.members, k).Some? then Lookup(v.members[Find(v.members, k).value].value, path[1..]) else None
  }

  function Replace(v: Value, path: Path, w: Value): Value
    decreases |path|
  {
    if path == [] then w
    else
      match path[0]
      case Index(i) => if v.Arr? && i < |v.items| then Arr(v.items[i := Replace(v.items[i], path[1..], w)]) else v
      case Key(k) =>
        if v.Obj? && Find(v.members, k).Some? then
          var i := Find(v.members, k).value;
          Obj(v.members[i := Member(k, Replace(v.members[i].value, path[1..], w))])
        else v
  }

  // Each record finds the value it says it changed.
  predicate Replays(v: Value, records: seq<Record>)
    decreases |records|
  {
    records == []
    || (Lookup(v, records[0].path) == Some(records[0].before) && Replays(Replace(v, records[0].path, records[0].after), records[1..]))
  }

  function Replayed(v: Value, records: seq<Record>): Value
    decreases |records|
  {
    if records == [] then v else Replayed(Replace(v, records[0].path, records[0].after), records[1..])
  }

  lemma {:induction false} ReplayTwice(v: Value, a: seq<Record>, b: seq<Record>)
    requires Replays(v, a) && Replays(Replayed(v, a), b)
    ensures Replays(v, a + b) && Replayed(v, a + b) == Replayed(Replayed(v, a), b)
    decreases |a|
  {
    hide Lookup, Replace;
    if a == [] {
      assert a + b == b;
    } else {
      assert (a + b)[1..] == a[1..] + b;
      ReplayTwice(Replace(v, a[0].path, a[0].after), a[1..], b);
    }
  }

  // ----- Objects with distinct keys -----

  predicate UniqueKeys(v: Value) {
    match v
    case Arr(items) => forall i :: 0 <= i < |items| ==> UniqueKeys(items[i])
    case Obj(members) =>
      && (forall i, j :: 0 <= i < j < |members| ==> members[i].key != members[j].key)
      && forall i :: 0 <= i < |members| ==> UniqueKeys(members[i].value)
    case _ => true
  }

  lemma FindUnique(members: seq<Member>, i: nat)
    requires i < |members| && forall i, j :: 0 <= i < j < |members| ==> members[i].key != members[j].key
    ensures Find(members, members[i].key) == Some(i)
  {
    hide Find;
    var r := Find(members, members[i].key);
    assert r.Some? && members[r.value].key == members[i].key;
  }

  lemma {:induction false} UniqueRefines(v: Value, w: Value)
    requires UniqueKeys(v) && Refines(v, w)
    ensures UniqueKeys(w)
    decreases v
  {
    if v.Arr? && w.Arr? {
      forall i | 0 <= i < |w.items| ensures UniqueKeys(w.items[i]) {
        if v != w { UniqueRefines(v.items[i], w.items[i]); }
      }
    } else if v.Obj? && w.Obj? && v != w {
      forall i | 0 <= i < |w.members| ensures UniqueKeys(w.members[i].value) {
        UniqueRefines(v.members[i].value, w.members[i].value);
      }
      forall i, j | 0 <= i < j < |w.members| ensures w.members[i].key != w.members[j].key {
        assert v.members[i].key != v.members[j].key;
      }
    }
  }

  // ----- Records below an item or a member -----

  lemma LiftRest(t: Token, records: seq<Record>)
    requires records != []
    ensures Lift(t, records)[0] == records[0].(path := [t] + records[0].path) && Lift(t, records)[1..] == Lift(t, records[1..])
    ensures ([t] + records[0].path)[0] == t && ([t] + records[0].path)[1..] == records[0].path
  {
  }

  lemma {:induction false} ReplayItem(items: seq<Value>, i: nat, records: seq<Record>)
    requires i < |items| && Replays(items[i], records)
    ensures Replays(Arr(items), Lift(Index(i), records))
    ensures Replayed(Arr(items), Lift(Index(i), records)) == Arr(items[i := Replayed(items[i], records)])
    decreases |records|
  {
    if records == [] {
      assert Lift(Index(i), records) == [];
      assert items[i := items[i]] == items;
    } else {
      LiftRest(Index(i), records);
      var r, lifted := records[0], Lift(Index(i), records);
      var next := Replace(items[i], r.path, r.after);
      assert Lookup(Arr(items), lifted[0].path) == Lookup(items[i], r.path);
      assert Replace(Arr(items), lifted[0].path, r.after) == Arr(items[i := next]);
      var changed := items[i := next];
      ReplayItem(changed, i, records[1..]);
      assert changed[i := Replayed(next, records[1..])] == items[i := Replayed(next, records[1..])];
    }
  }

  lemma {:induction false} ReplayMember(members: seq<Member>, i: nat, records: seq<Record>)
    requires i < |members| && Replays(members[i].value, records)
    requires forall i, j :: 0 <= i < j < |members| ==> members[i].key != members[j].key
    ensures var k := members[i].key; Replays(Obj(members), Lift(Key(k), records))
    ensures var k := members[i].key;
      Replayed(Obj(members), Lift(Key(k), records)) == Obj(members[i := Member(k, Replayed(members[i].value, records))])
    decreases |records|
  {
    hide Find;
    var k := members[i].key;
    if records == [] {
      assert Lift(Key(k), records) == [];
      assert members[i := members[i]] == members;
    } else {
      LiftRest(Key(k), records);
      FindUnique(members, i);
      var r, lifted := records[0], Lift(Key(k), records);
      var next := Replace(members[i].value, r.path, r.after);
      assert Lookup(Obj(members), lifted[0].path) == Lookup(members[i].value, r.path);
      assert Replace(Obj(members), lifted[0].path, r.after) == Obj(members[i := Member(k, next)]);
      var changed := members[i := Member(k, next)];
      ReplayMember(changed, i, records[1..]);
      assert changed[i := Member(k, Replayed(next, records[1..]))] == members[i := Member(k, Replayed(next, records[1..]))];
    }
  }

  // ----- Replaying a walk -----

  // The records of a walk, replayed on its input, give its output.
  lemma {:induction false} WalkReplays(job: Job, resolving: set<string>, s: Schema, v: Value)
    requires Within(job, s) && StringsOnly(job) && UniqueKeys(v)
    ensures var w := Walk(job, resolving, s, v); Replays(v, w.records) && Replayed(v, w.records) == w.value
    decreases AllReferences(job.root) - resolving, s, 2, 0
  {
    hide Conversion, Within, AllReferences, Refines, Target, Replays, Replayed, Descend, Follow, UniqueKeys;
    NothingReplays(v);
    if s.Obj? {
      var first := Follow(job, resolving, s, v);
      FollowReplays(job, resolving, s, v);
      FollowRefines(job, resolving, s, v);
      UniqueRefines(v, first.value);
      var second := Scalar(job, s.m, first.value);
      ScalarReplays(job, s.m, first.value);
      ScalarRefines(job, s.m, first.value);
      UniqueRefines(first.value, second.value);
      DescendReplays(job, resolving, s, second.value);
      ReplayTwice(v, first.records, second.records);
      ReplayTwice(v, first.records + second.records, Descend(job, resolving, s, second.value).records);
    }
  }

  lemma NothingReplays(v: Value)
    ensures Replays(v, []) && Replayed(v, []) == v
  {
  }

  lemma ScalarReplays(job: Job, f: JsonSchema.Fields, v: Value)
    ensures var w := Scalar(job, f, v); Replays(v, w.records) && Replayed(v, w.records) == w.value
  {
    hide Conversion;
    var c := Conversion(job, f, v);
    if c.Some? {
      var r := Record([], c.value.0, v, c.value.1);
      assert [r][1..] == [];
      assert Replace(v, [], c.value.1) == c.value.1;
      NothingReplays(c.value.1);
    }
  }

  lemma {:induction false} FollowReplays(job: Job, resolving: set<string>, s: Schema, v: Value)
    requires Within(job, s) && StringsOnly(job) && UniqueKeys(v)
    ensures var w := Follow(job, resolving, s, v); Replays(v, w.records) && Replayed(v, w.records) == w.value
    decreases AllReferences(job.root) - resolving, s, 1, 0
  {
    hide Within, AllReferences, Target, Walk, Replays, Replayed, UniqueKeys;
    NothingReplays(v);
    TargetWithin(job, resolving, s);
    if Target(job, resolving, s).Some? {
      WalkReplays(job, resolving + {s.m["$ref"].s}, Target(job, resolving, s).value, v);
    }
  }

  lemma {:induction false} DescendReplays(job: Job, resolving: set<string>, s: Schema, v: Value)
    requires s.Obj? && Within(job, s) && StringsOnly(job) && UniqueKeys(v)
    ensures var w := Descend(job, resolving, s, v); Replays(v, w.records) && Replayed(v, w.records) == w.value
    decreases AllReferences(job.root) - resolving, s, 1, 0
  {
    hide Within, AllReferences, Walk, WalkItems, WalkMembers, Replays, Replayed;
    NothingReplays(v);
    if v.Arr? && "items" in s.m && s.m["items"].Obj? {
      BelowWithin(job, s, "items");
      ItemsReplay(job, resolving, s.m["items"], v.items, []);
      assert v.items + [] == v.items;
      var r := WalkItems(job, resolving, s.m["items"], v.items).0;
      assert r + [] == r;
    } else if v.Obj? && "properties" in s.m && s.m["properties"].Obj? {
      MembersReplay(job, resolving, s, v.members, []);
      assert v.members + [] == v.members;
      var r := WalkMembers(job, resolving, s, v.members).0;
      assert r + [] == r;
    }
  }

  lemma {:induction false} ItemsReplay(job: Job, resolving: set<string>, s: Schema, items: seq<Value>, rest: seq<Value>)
    requires Within(job, s) && StringsOnly(job) && forall i :: 0 <= i < |items| ==> UniqueKeys(items[i])
    ensures var w := WalkItems(job, resolving, s, items); Replays(Arr(items + rest), w.1) && Replayed(Arr(items + rest), w.1) == Arr(w.0 + rest)
    decreases AllReferences(job.root) - resolving, s, 3, |items|
  {
    hide Within, AllReferences, Walk, Replays, Replayed, UniqueKeys;
    if items == [] {
      NothingReplays(Arr(items + rest));
    } else {
      var last := |items| - 1;
      var before, item := WalkItems(job, resolving, s, items[..last]), Walk(job, resolving, s, items[last]);
      var tail := [items[last]] + rest;
      ItemsReplay(job, resolving, s, items[..last], tail);
      assert items[..last] + tail == items + rest;
      WalkReplays(job, resolving, s, items[last]);
      var middle := before.0 + tail;
      assert middle[last] == items[last];
      ReplayItem(middle, last, item.records);
      ReplayTwice(Arr(items + rest), before.1, Lift(Index(last), item.records));
      assert middle[last := item.value] == before.0 + [item.value] + rest;
    }
  }

  lemma {:induction false} MemberReplays(job: Job, resolving: set<string>, s: Schema, m: Member)
    requires s.Obj? && "properties" in s.m && s.m["properties"].Obj? && Within(job, s) && StringsOnly(job) && UniqueKeys(m.value)
    ensures var w := WalkMember(job, resolving, s, m); Replays(m.value, w.records) && Replayed(m.value, w.records) == w.value
    decreases AllReferences(job.root) - resolving, s, 0, 0
  {
    hide Within, AllReferences, Walk, Replays, Replayed, UniqueKeys;
    NothingReplays(m.value);
    if m.key in s.m["properties"].m {
      PropertyWithin(job, s, m.key);
      WalkReplays(job, resolving, s.m["properties"].m[m.key], m.value);
    }
  }

  predicate DistinctKeys(members: seq<Member>) {
    forall i, j :: 0 <= i < j < |members| ==> members[i].key != members[j].key
  }

  lemma {:induction false} MembersReplay(job: Job, resolving: set<string>, s: Schema, members: seq<Member>, rest: seq<Member>)
    requires s.Obj? && "properties" in s.m && s.m["properties"].Obj? && Within(job, s) && StringsOnly(job)
    requires DistinctKeys(members + rest) && forall i :: 0 <= i < |members| ==> UniqueKeys(members[i].value)
    ensures var w := WalkMembers(job, resolving, s, members); Replays(Obj(members + rest), w.1) && Replayed(Obj(members + rest), w.1) == Obj(w.0 + rest)
    decreases AllReferences(job.root) - resolving, s, 0, 1 + |members|
  {
    hide Within, AllReferences, WalkMember, Replays, Replayed, UniqueKeys;
    if members == [] {
      NothingReplays(Obj(members + rest));
    } else {
      var last := |members| - 1;
      var before, member := WalkMembers(job, resolving, s, members[..last]), WalkMember(job, resolving, s, members[last]);
      var tail := [members[last]] + rest;
      assert members[..last] + tail == members + rest;
      MembersReplay(job, resolving, s, members[..last], tail);
      MemberReplays(job, resolving, s, members[last]);
      var middle := before.0 + tail;
      assert middle[last] == members[last];
      SameKeysDistinct(members + rest, middle);
      ReplayMember(middle, last, member.records);
      ReplayTwice(Obj(members + rest), before.1, Lift(Key(members[last].key), member.records));
      assert middle[last := Member(members[last].key, member.value)] == before.0 + [Member(members[last].key, member.value)] + rest;
    }
  }

  lemma SameKeysDistinct(a: seq<Member>, b: seq<Member>)
    requires DistinctKeys(a) && |a| == |b| && forall i :: 0 <= i < |a| ==> a[i].key == b[i].key
    ensures DistinctKeys(b)
  {
  }

  // ----- What each record says -----

  // The change a rule makes; a number keeps its value.
  ghost predicate Exact(job: Job, r: Record) {
    && r.rule in job.allowed
    && match r.rule
       case StringToBoolean => (r.before == Str("true") && r.after == Bool(true)) || (r.before == Str("false") && r.after == Bool(false))
       case SingletonToArray => !r.before.Arr? && r.after == Arr([r.before])
       case _ =>
         && r.before.Str? && r.after == Num(job.numeric.text(r.before.s)) && job.numeric.finite(r.before.s)
         && SameNumber(r.before.s, r.after.text) && (r.rule == StringToInteger ==> job.numeric.safe(r.before.s))
  }

  ghost predicate SameNumber(a: string, b: string) {
    Decimals.Match(a).Some? && Decimals.Match(b).Some? && Decimals.Denotes(Decimals.Match(a).value) == Decimals.Denotes(Decimals.Match(b).value)
  }

  ghost predicate AllExact(job: Job, records: seq<Record>) {
    forall i :: 0 <= i < |records| ==> Exact(job, records[i])
  }

  lemma ConversionExact(job: Job, f: JsonSchema.Fields, v: Value)
    requires Conversion(job, f, v).Some?
    ensures var c := Conversion(job, f, v).value; Exact(job, Record([], c.0, v, c.1))
  {
    hide Decimals.Denotes, Decimals.Match, Decimals.NormalForm;
    if v.Str? && ConvertsToNumber(job.numeric, v.s, false) {
      Decimals.CanonicalDecidesValue(v.s, job.numeric.text(v.s));
    }
  }

  lemma LiftExact(job: Job, t: Token, records: seq<Record>)
    requires AllExact(job, records)
    ensures AllExact(job, Lift(t, records))
  {
    hide SameNumber;
  }

  // Every recorded change is exact: booleans by their spelling, numbers by their value.
  lemma {:induction false} WalkExact(job: Job, resolving: set<string>, s: Schema, v: Value)
    requires Within(job, s)
    ensures AllExact(job, Walk(job, resolving, s, v).records)
    decreases AllReferences(job.root) - resolving, s, 2, 0
  {
    hide Conversion, Within, AllReferences, Target, Exact, Descend;
    if s.Obj? {
      var first := Follow(job, resolving, s, v);
      TargetWithin(job, resolving, s);
      if Target(job, resolving, s).Some? {
        WalkExact(job, resolving + {s.m["$ref"].s}, Target(job, resolving, s).value, v);
      }
      if Conversion(job, s.m, first.value).Some? { ConversionExact(job, s.m, first.value); }
      DescendExact(job, resolving, s, Scalar(job, s.m, first.value).value);
    }
  }

  lemma {:induction false} DescendExact(job: Job, resolving: set<string>, s: Schema, v: Value)
    requires s.Obj? && Within(job, s)
    ensures AllExact(job, Descend(job, resolving, s, v).records)
    decreases AllReferences(job.root) - resolving, s, 1, 0
  {
    hide Within, AllReferences, WalkItems, WalkMembers, Exact;
    if v.Arr? && "items" in s.m && s.m["items"].Obj? {
      BelowWithin(job, s, "items");
      ItemsExact(job, resolving, s.m["items"], v.items);
    } else if v.Obj? && "properties" in s.m && s.m["properties"].Obj? {
      MembersExact(job, resolving, s, v.members);
    }
  }

  lemma {:induction false} ItemsExact(job: Job, resolving: set<string>, s: Schema, items: seq<Value>)
    requires Within(job, s)
    ensures AllExact(job, WalkItems(job, resolving, s, items).1)
    decreases AllReferences(job.root) - resolving, s, 3, |items|
  {
    hide Within, AllReferences, Walk, Exact;
    if items != [] {
      var last := |items| - 1;
      ItemsExact(job, resolving, s, items[..last]);
      WalkExact(job, resolving, s, items[last]);
      LiftExact(job, Index(last), Walk(job, resolving, s, items[last]).records);
    }
  }

  lemma {:induction false} MembersExact(job: Job, resolving: set<string>, s: Schema, members: seq<Member>)
    requires s.Obj? && "properties" in s.m && s.m["properties"].Obj? && Within(job, s)
    ensures AllExact(job, WalkMembers(job, resolving, s, members).1)
    decreases AllReferences(job.root) - resolving, s, 0, 1 + |members|
  {
    hide Within, AllReferences, Walk, Exact;
    if members != [] {
      var m := members[|members| - 1];
      MembersExact(job, resolving, s, members[..|members| - 1]);
      if m.key in s.m["properties"].m {
        PropertyWithin(job, s, m.key);
        WalkExact(job, resolving, s.m["properties"].m[m.key], m.value);
      }
      LiftExact(job, Key(m.key), WalkMember(job, resolving, s, m).records);
    }
  }

  // ----- No place twice -----

  predicate IsLeaf(v: Value) {
    v.Str? || v.Num? || v.Bool?
  }

  lemma PathParts(p: Path)
    requires p != []
    ensures p == [p[0]] + p[1..]
  {
  }

  // Two places of one value that are written the same are the same.
  lemma {:induction false} SamePointerSamePlace(v: Value, p: Path, q: Path)
    requires Lookup(v, p).Some? && Lookup(v, q).Some? && Render(p) == Render(q)
    ensures p == q
    decreases |p|
  {
    RenderInjective(p, q);
    if p != [] {
      HeadInjective(p, q);
      SameToken(v, p, q);
      var below := if p[0].Index? then v.items[p[0].i] else v.members[Find(v.members, p[0].key).value].value;
      SamePointerSamePlace(below, p[1..], q[1..]);
      PathParts(p);
      PathParts(q);
    }
  }

  lemma SameToken(v: Value, p: Path, q: Path)
    requires p != [] && q != [] && Lookup(v, p).Some? && Lookup(v, q).Some? && TokenText(p[0]) == TokenText(q[0])
    ensures p[0] == q[0]
  {
    hide Find;
    if v.Arr? {
      DecimalInjective(p[0].i, q[0].i);
    } else {
      KeysDiffer(p[0].key, q[0].key);
    }
  }

  // Changing one leaf leaves the others.
  lemma {:induction false} OtherLeafStays(v: Value, p: Path, q: Path, w: Value)
    requires p != q && Lookup(v, p).Some? && IsLeaf(Lookup(v, p).value) && Lookup(v, q).Some? && IsLeaf(Lookup(v, q).value)
    ensures Lookup(Replace(v, q, w), p) == Lookup(v, p)
    decreases |p|
  {
    hide Find;
    if p != [] && q != [] {
      PathParts(p);
      PathParts(q);
      if p[0] == q[0] {
        if p[0].Index? {
          OtherLeafStays(v.items[p[0].i], p[1..], q[1..], w);
        } else {
          var i := Find(v.members, p[0].key).value;
          OtherLeafStays(v.members[i].value, p[1..], q[1..], w);
          SameFind(v.members, i, Replace(v.members[i].value, q[1..], w), p[0].key);
        }
      } else if p[0].Key? && q[0].Key? {
        var i := Find(v.members, q[0].key).value;
        SameFind(v.members, i, Replace(v.members[i].value, q[1..], w), p[0].key);
      }
    }
  }

  lemma {:induction false} SameFind(members: seq<Member>, i: nat, w: Value, key: string)
    requires i < |members|
    ensures Find(members[i := Member(members[i].key, w)], key) == Find(members, key)
  {
    var changed := members[i := Member(members[i].key, w)];
    var last := |members| - 1;
    if members[last].key != key {
      if i < last {
        SameFind(members[..last], i, w, key);
        assert changed[..last] == members[..last][i := Member(members[i].key, w)];
      } else {
        assert changed[..last] == members[..last];
      }
    }
  }

  predicate ConvertsStrings(records: seq<Record>) {
    forall i :: 0 <= i < |records| ==> Converts(records[i].before, records[i].after)
  }

  // A converted place is never found as a string again.
  lemma {:induction false} LaterElsewhere(v: Value, p: Path, records: seq<Record>, j: nat)
    requires Lookup(v, p).Some? && (Lookup(v, p).value.Num? || Lookup(v, p).value.Bool?)
    requires Replays(v, records) && ConvertsStrings(records) && j < |records|
    ensures Render(records[j].path) != Render(p)
    decreases |records|
  {
    hide Lookup, Replace, Render;
    var r := records[0];
    if Render(r.path) == Render(p) {
      SamePointerSamePlace(v, r.path, p);
    } else {
      OtherLeafStays(v, p, r.path, r.after);
      if j > 0 {
        assert records[1..][j - 1] == records[j];
        assert forall i :: 0 <= i < |records[1..]| ==> records[1..][i] == records[i + 1];
        LaterElsewhere(Replace(v, r.path, r.after), p, records[1..], j - 1);
      }
    }
  }

  lemma {:induction false} ReplaceThere(v: Value, p: Path, w: Value)
    requires Lookup(v, p).Some?
    ensures Lookup(Replace(v, p, w), p) == Some(w)
    decreases |p|
  {
    hide Find;
    if p != [] {
      if p[0].Index? {
        ReplaceThere(v.items[p[0].i], p[1..], w);
      } else {
        var i := Find(v.members, p[0].key).value;
        ReplaceThere(v.members[i].value, p[1..], w);
        SameFind(v.members, i, Replace(v.members[i].value, p[1..], w), p[0].key);
      }
    }
  }

  // Records that convert strings and replay are at different JSON Pointers.
  lemma {:induction false} PointersDiffer(v: Value, records: seq<Record>, i: nat, j: nat)
    requires Replays(v, records) && ConvertsStrings(records) && i < j < |records|
    ensures Render(records[i].path) != Render(records[j].path)
    decreases |records|
  {
    hide Lookup, Replace, Render;
    var r := records[0];
    var next := Replace(v, r.path, r.after);
    assert forall k :: 0 <= k < |records[1..]| ==> records[1..][k] == records[k + 1];
    if i == 0 {
      ReplaceThere(v, r.path, r.after);
      LaterElsewhere(next, r.path, records[1..], j - 1);
    } else {
      PointersDiffer(next, records[1..], i - 1, j - 1);
    }
  }

  // ----- The theorem -----

  // Under the rules on strings, a repair keeps the shape of the value, its records are exact and at different
  // pointers, and replaying them on the input gives the output.
  lemma RepairsReplay(root: Schema, v: Value, allowed: set<Rule>, numeric: Numeric)
    requires SingletonToArray !in allowed && UniqueKeys(v)
    ensures var out := ApplyRepairs(root, v, allowed, numeric);
      && Refines(v, out.value) && AllExact(Job(root, allowed, numeric), out.records)
      && Replays(v, out.records) && Replayed(v, out.records) == out.value
      && forall i, j :: 0 <= i < j < |out.records| ==> Render(out.records[i].path) != Render(out.records[j].path)
  {
    hide Walk, Refines, Replays, Replayed, UniqueKeys, Exact, Render;
    var job := Job(root, allowed, numeric);
    var out := ApplyRepairs(root, v, allowed, numeric);
    WalkRefines(job, {}, root, v);
    WalkExact(job, {}, root, v);
    WalkReplays(job, {}, root, v);
    ExactConverts(job, out.records);
    forall i, j | 0 <= i < j < |out.records| ensures Render(out.records[i].path) != Render(out.records[j].path) {
      PointersDiffer(v, out.records, i, j);
    }
  }

  lemma ExactConverts(job: Job, records: seq<Record>)
    requires AllExact(job, records) && StringsOnly(job)
    ensures ConvertsStrings(records)
  {
    hide SameNumber;
    forall i | 0 <= i < |records| ensures Converts(records[i].before, records[i].after) {
      assert Exact(job, records[i]);
    }
  }
}
