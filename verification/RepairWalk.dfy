/**
 The repair walker: follows a schema through a value, converting strings whose schema
 asks for a number, an integer or a boolean, and recording each change with its JSON
 Pointer.  References are followed once on each path, so that recursive schemas end.
 */
module RepairWalk {
  import opened Common
  import JsonSchema
  import Decimals
  import opened Pointers

  // ----- Values, schemas and rules -----

  // Members keep their order; numbers are known by their text.
  datatype Value = Null | Bool(b: bool) | Num(text: string) | Str(s: string) | Arr(items: seq<Value>) | Obj(members: seq<Member>)
  datatype Member = Member(key: string, value: Value)

  type Schema = JsonSchema.Json

  datatype Rule = StringToNumber | StringToInteger | StringToBoolean | SingletonToArray
  const DEFAULT_REPAIRS: set<Rule> := {StringToNumber, StringToInteger, StringToBoolean}

  datatype Record = Record(path: Path, rule: Rule, before: Value, after: Value)

  // Number() and what is asked of its result: its text, whether it is finite, whether it is a safe integer.
  datatype Numeric = Numeric(text: string -> string, finite: string -> bool, safe: string -> bool)

  datatype Job = Job(root: Schema, allowed: set<Rule>, numeric: Numeric)

  // ----- Local references -----

  function SplitSlash(s: string): (r: seq<string>)
    ensures |r| > 0
  {
    if s == "" then [""]
    else
      var rest := SplitSlash(s[1..]);
      if s[0] == '/' then [""] + rest else [[s[0]] + rest[0]] + rest[1..]
  }

  function Navigate(j: Schema, parts: seq<string>): Option<Schema> {
    if parts == [] then if j.Bool? || j.Obj? then Some(j) else None
    else if j.Obj? && Unescape(parts[0]) in j.m then Navigate(j.m[Unescape(parts[0])], parts[1..])
    else None
  }

  function LocalReference(root: Schema, reference: string): Option<Schema> {
    if reference == "#" then Some(root)
    else if |reference| >= 2 && reference[..2] == "#/" then Navigate(root, SplitSlash(reference[2..]))
    else None
  }

  function OwnReference(s: Schema): set<string> {
    if s.Obj? && "$ref" in s.m && s.m["$ref"].Str? then {s.m["$ref"].s} else {}
  }

  // Every reference in a schema, at any depth.
  function AllReferences(s: Schema): set<string>
    decreases s
  {
    match s
    case Obj(m) => OwnReference(s) + set k, r | k in m && r in AllReferences(m[k]) :: r
    case _ => {}
  }

  lemma ReferencesBelow(s: Schema, k: string)
    requires s.Obj? && k in s.m
    ensures AllReferences(s.m[k]) <= AllReferences(s) && OwnReference(s) <= AllReferences(s)
  {
  }

  lemma {:induction false} NavigateReferences(j: Schema, parts: seq<string>)
    ensures Navigate(j, parts).Some? ==> AllReferences(Navigate(j, parts).value) <= AllReferences(j)
  {
    hide Unescape;
    if parts != [] && j.Obj? && Unescape(parts[0]) in j.m {
      ReferencesBelow(j, Unescape(parts[0]));
      NavigateReferences(j.m[Unescape(parts[0])], parts[1..]);
    }
  }

  lemma LocalReferences(root: Schema, reference: string)
    ensures LocalReference(root, reference).Some? ==> AllReferences(LocalReference(root, reference).value) <= AllReferences(root)
  {
    hide AllReferences;
    if reference != "#" && |reference| >= 2 { NavigateReferences(root, SplitSlash(reference[2..])); }
  }

  // ----- One value -----

  // The spelling of a JSON number, negative zeros aside.
  predicate IsNumberText(s: string) {
    var p := Decimals.Match(s);
    p.Some? && (|p.value.whole| == 1 || p.value.whole[0] != '0')
  }

  predicate IsNegativeZero(s: string) {
    var p := Decimals.Match(s);
    p.Some? && p.value.negative && p.value.whole == "0" && forall i :: 0 <= i < |p.value.fraction| ==> p.value.fraction[i] == '0'
  }

  predicate ConvertsToNumber(n: Numeric, s: string, integer: bool) {
    && IsNumberText(s) && !IsNegativeZero(s) && n.finite(s)
    && Decimals.Canonical(s) == Decimals.Canonical(n.text(s)) && (integer ==> n.safe(s))
  }

  // What the schema's type makes of a value, and by which rule.
  function Conversion(job: Job, f: JsonSchema.Fields, v: Value): Option<(Rule, Value)> {
    if "type" in f && f["type"].Str? then
      var expected := f["type"].s;
      if v.Str? && (expected == "number" || expected == "integer") then
        var rule := if expected == "integer" then StringToInteger else StringToNumber;
        if ConvertsToNumber(job.numeric, v.s, expected == "integer") && rule in job.allowed then Some((rule, Num(job.numeric.text(v.s)))) else None
      else if v.Str? && expected == "boolean" && (v.s == "true" || v.s == "false") then
        if StringToBoolean in job.allowed then Some((StringToBoolean, Bool(v.s == "true"))) else None
      else if !v.Arr? && expected == "array" then
        if SingletonToArray in job.allowed then Some((SingletonToArray, Arr([v]))) else None
      else None
    else None
  }

  // ----- The walk -----

  datatype Repaired = Repaired(value: Value, records: seq<Record>)

  function Lift(t: Token, records: seq<Record>): (r: seq<Record>)
    ensures |r| == |records|
    ensures forall i :: 0 <= i < |records| ==> r[i] == records[i].(path := [t] + records[i].path)
  {
    seq(|records|, i requires 0 <= i < |records| => records[i].(path := [t] + records[i].path))
  }

  function Scalar(job: Job, f: JsonSchema.Fields, v: Value): Repaired {
    var c := Conversion(job, f, v);
    if c.None? then Repaired(v, []) else Repaired(c.value.1, [Record([], c.value.0, v, c.value.1)])
  }

  function Target(job: Job, resolving: set<string>, s: Schema): Option<Schema> {
    if s.Obj? && "$ref" in s.m && s.m["$ref"].Str? && s.m["$ref"].s !in resolving then LocalReference(job.root, s.m["$ref"].s) else None
  }

  ghost predicate Within(job: Job, s: Schema) {
    AllReferences(s) <= AllReferences(job.root)
  }

  lemma BelowWithin(job: Job, s: Schema, k: string)
    requires s.Obj? && k in s.m && Within(job, s)
    ensures Within(job, s.m[k])
  {
    ReferencesBelow(s, k);
  }

  lemma PropertyWithin(job: Job, s: Schema, k: string)
    requires s.Obj? && "properties" in s.m && s.m["properties"].Obj? && k in s.m["properties"].m && Within(job, s)
    ensures Within(job, s.m["properties"].m[k])
  {
    BelowWithin(job, s, "properties");
    BelowWithin(job, s.m["properties"], k);
  }

  lemma TargetWithin(job: Job, resolving: set<string>, s: Schema)
    requires Within(job, s)
    ensures Target(job, resolving, s).Some? ==> s.Obj? && "$ref" in s.m && s.m["$ref"].Str? && Within(job, Target(job, resolving, s).value)
    ensures Target(job, resolving, s).Some? ==> s.m["$ref"].s in AllReferences(job.root) && s.m["$ref"].s !in resolving
  {
    if Target(job, resolving, s).Some? {
      LocalReferences(job.root, s.m["$ref"].s);
      ReferencesBelow(s, "$ref");
    }
  }

  // The measure falls: a followed reference leaves the ones not yet being resolved, anything else shrinks the schema.
  function Walk(job: Job, resolving: set<string>, s: Schema, v: Value): Repaired
    requires Within(job, s)
    decreases AllReferences(job.root) - resolving, s, 2, 0
  {
    if !s.Obj? then Repaired(v, [])
    else
      var first := Follow(job, resolving, s, v);
      var second := Scalar(job, s.m, first.value);
      var third := Descend(job, resolving, s, second.value);
      Repaired(third.value, first.records + second.records + third.records)
  }

  function Follow(job: Job, resolving: set<string>, s: Schema, v: Value): Repaired
    requires Within(job, s)
    decreases AllReferences(job.root) - resolving, s, 1, 0
  {
    TargetWithin(job, resolving, s);
    if Target(job, resolving, s).Some? then Walk(job, resolving + {s.m["$ref"].s}, Target(job, resolving, s).value, v)
    else Repaired(v, [])
  }

  function Descend(job: Job, resolving: set<string>, s: Schema, v: Value): Repaired
    requires s.Obj? && Within(job, s)
    decreases AllReferences(job.root) - resolving, s, 1, 0
  {
    if v.Arr? && "items" in s.m && s.m["items"].Obj? then
      BelowWithin(job, s, "items");
      var (items, records) := WalkItems(job, resolving, s.m["items"], v.items);
      Repaired(Arr(items), records)
    else if v.Obj? && "properties" in s.m && s.m["properties"].Obj? then
      var (members, records) := WalkMembers(job, resolving, s, v.members);
      Repaired(Obj(members), records)
    else Repaired(v, [])
  }

  function WalkItems(job: Job, resolving: set<string>, s: Schema, items: seq<Value>): (r: (seq<Value>, seq<Record>))
    requires Within(job, s)
    ensures |r.0| == |items|
    decreases AllReferences(job.root) - resolving, s, 3, |items|
  {
    if items == [] then ([], [])
    else
      var last := |items| - 1;
      var before := WalkItems(job, resolving, s, items[..last]);
      var item := Walk(job, resolving, s, items[last]);
      (before.0 + [item.value], before.1 + Lift(Index(last), item.records))
  }

  function WalkMember(job: Job, resolving: set<string>, s: Schema, m: Member): Repaired
    requires s.Obj? && "properties" in s.m && s.m["properties"].Obj? && Within(job, s)
    decreases AllReferences(job.root) - resolving, s, 0, 0
  {
    var properties := s.m["properties"].m;
    if m.key in properties then
      PropertyWithin(job, s, m.key);
      Walk(job, resolving, properties[m.key], m.value)
    else Repaired(m.value, [])
  }

  function WalkMembers(job: Job, resolving: set<string>, s: Schema, members: seq<Member>): (r: (seq<Member>, seq<Record>))
    requires s.Obj? && "properties" in s.m && s.m["properties"].Obj? && Within(job, s)
    ensures |r.0| == |members| && forall i :: 0 <= i < |members| ==> r.0[i].key == members[i].key
    decreases AllReferences(job.root) - resolving, s, 0, 1 + |members|
  {
    if members == [] then ([], [])
    else
      var last := |members| - 1;
      var before := WalkMembers(job, resolving, s, members[..last]);
      var member := WalkMember(job, resolving, s, members[last]);
      (before.0 + [Member(members[last].key, member.value)], before.1 + Lift(Key(members[last].key), member.records))
  }

  function ApplyRepairs(root: Schema, v: Value, allowed: set<Rule>, numeric: Numeric): Repaired {
    Walk(Job(root, allowed, numeric), {}, root, v)
  }
}
