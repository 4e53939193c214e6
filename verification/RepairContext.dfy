/**
 The walker as it runs: one context per job, whose list of repairs grows and whose set
 of references being resolved is added to and restored around each reference.
 */
module RepairContext {
  import opened Common
  import JsonSchema
  import Decimals
  import opened Pointers
  import opened RepairWalk

  function Under(path: Path, records: seq<Record>): (r: seq<Record>)
    ensures |r| == |records|
  {
    seq(|records|, i requires 0 <= i < |records| => records[i].(path := path + records[i].path))
  }

  lemma UnderTwice(path: Path, t: Token, records: seq<Record>)
    ensures Under(path + [t], records) == Under(path, Lift(t, records))
  {
    assert forall i :: 0 <= i < |records| ==> path + [t] + records[i].path == path + ([t] + records[i].path);
  }

  lemma UnderAppends(path: Path, a: seq<Record>, b: seq<Record>)
    ensures Under(path, a + b) == Under(path, a) + Under(path, b)
  {
  }

  lemma UnderOne(path: Path, value: Value)
    ensures Under(path, []) == []
    ensures forall rule, after :: Under(path, [Record([], rule, value, after)]) == [Record(path, rule, value, after)]
  {
    assert path + [] == path;
    forall rule, after ensures Under(path, [Record([], rule, value, after)]) == [Record(path, rule, value, after)] {
      assert Under(path, [Record([], rule, value, after)])[0] == Record(path, rule, value, after);
    }
  }

  class Context {
    const job: Job
    var repairs: seq<Record>
    var resolving: set<string>

    constructor (job: Job)
      ensures this.job == job && repairs == [] && resolving == {}
    {
      this.job := job;
      repairs, resolving := [], {};
    }

    method Save(path: Path, rule: Rule, before: Value, after: Value) returns (value: Value)
      modifies this`repairs
      ensures repairs == old(repairs) + [Record(path, rule, before, after)] && value == after
    {
      repairs := repairs + [Record(path, rule, before, after)];
      return after;
    }

    // A string that spells a number exactly, where the rule is allowed.
    method ConvertNumber(integer: bool, value: Value, path: Path) returns (output: Value)
      requires value.Str?
      modifies this`repairs
      ensures var rule := if integer then StringToInteger else StringToNumber;
        if ConvertsToNumber(job.numeric, value.s, integer) && rule in job.allowed then
          output == Num(job.numeric.text(value.s)) && repairs == old(repairs) + [Record(path, rule, value, output)]
        else output == value && repairs == old(repairs)
    {
      hide IsNumberText, IsNegativeZero, Decimals.Canonical;
      if !IsNumberText(value.s) { return value; }
      if IsNegativeZero(value.s) { return value; }
      var written := Decimals.DecimalCanonical(value.s);
      var converted := Decimals.DecimalCanonical(job.numeric.text(value.s));
      if !job.numeric.finite(value.s) || written != converted || (integer && !job.numeric.safe(value.s)) { return value; }
      var rule := if integer then StringToInteger else StringToNumber;
      if rule in job.allowed { output := Save(path, rule, value, Num(job.numeric.text(value.s))); } else { output := value; }
    }

    method ConvertScalar(f: JsonSchema.Fields, value: Value, path: Path) returns (output: Value)
      modifies this`repairs
      ensures var w := Scalar(job, f, value); output == w.value && repairs == old(repairs) + Under(path, w.records)
    {
      hide ConvertsToNumber, Under;
      UnderOne(path, value);
      if "type" in f && f["type"].Str? {
        var expected := f["type"].s;
        if value.Str? && (expected == "number" || expected == "integer") {
          output := ConvertNumber(expected == "integer", value, path);
          return;
        }
        if value.Str? && expected == "boolean" && (value.s == "true" || value.s == "false") {
          if StringToBoolean in job.allowed { output := Save(path, StringToBoolean, value, Bool(value.s == "true")); } else { output := value; }
          return;
        }
        if !value.Arr? && expected == "array" {
          if SingletonToArray in job.allowed { output := Save(path, SingletonToArray, value, Arr([value])); } else { output := value; }
          return;
        }
      }
      return value;
    }

    // Ends on every schema, and leaves the references being resolved as they were.
    method WalkValue(schema: Schema, value: Value, path: Path) returns (output: Value)
      requires Within(job, schema)
      modifies this
      ensures var w := Walk(job, old(resolving), schema, value); output == w.value && repairs == old(repairs) + Under(path, w.records)
      ensures resolving == old(resolving)
      decreases AllReferences(job.root) - resolving, schema, 2, 0
    {
      hide Within, AllReferences, Scalar, Follow, Descend, Under;
      if !schema.Obj? {
        UnderOne(path, value);
        return value;
      }
      ghost var first := Follow(job, resolving, schema, value);
      ghost var second := Scalar(job, schema.m, first.value);
      ghost var third := Descend(job, resolving, schema, second.value);
      output := FollowReference(schema, value, path);
      output := ConvertScalar(schema.m, output, path);
      output := WalkBelow(schema, output, path);
      UnderAppends(path, first.records, second.records);
      UnderAppends(path, first.records + second.records, third.records);
    }

    method FollowReference(schema: Schema, value: Value, path: Path) returns (output: Value)
      requires schema.Obj? && Within(job, schema)
      modifies this
      ensures var w := Follow(job, old(resolving), schema, value); output == w.value && repairs == old(repairs) + Under(path, w.records)
      ensures resolving == old(resolving)
      decreases AllReferences(job.root) - resolving, schema, 1, 0
    {
      hide Within, AllReferences, Walk, Under, LocalReference;
      output := value;
      UnderOne(path, value);
      if "$ref" in schema.m && schema.m["$ref"].Str? && schema.m["$ref"].s !in resolving {
        var referenced := LocalReference(job.root, schema.m["$ref"].s);
        TargetWithin(job, resolving, schema);
        if referenced.Some? {
          ghost var start := resolving;
          resolving := resolving + {schema.m["$ref"].s};
          output := WalkValue(referenced.value, output, path);
          resolving := resolving - {schema.m["$ref"].s};
          assert resolving == start;
        }
      }
    }

    method WalkBelow(schema: Schema, value: Value, path: Path) returns (output: Value)
      requires schema.Obj? && Within(job, schema)
      modifies this
      ensures var w := Descend(job, old(resolving), schema, value); output == w.value && repairs == old(repairs) + Under(path, w.records)
      ensures resolving == old(resolving)
      decreases AllReferences(job.root) - resolving, schema, 1, 0
    {
      hide Within, AllReferences, WalkItems, WalkMembers;
      if value.Arr? && "items" in schema.m && schema.m["items"].Obj? {
        BelowWithin(job, schema, "items");
        var items := WalkEachItem(schema.m["items"], value.items, path);
        return Arr(items);
      }
      if value.Obj? && "properties" in schema.m && schema.m["properties"].Obj? {
        var members := WalkEachMember(schema, value.members, path);
        return Obj(members);
      }
      return value;
    }

    method WalkEachItem(schema: Schema, items: seq<Value>, path: Path) returns (output: seq<Value>)
      requires Within(job, schema)
      modifies this
      ensures var w := WalkItems(job, old(resolving), schema, items); output == w.0 && repairs == old(repairs) + Under(path, w.1)
      ensures resolving == old(resolving)
      decreases AllReferences(job.root) - resolving, schema, 3, 0
    {
      hide Within, AllReferences, Walk, Lift;
      output := [];
      assert items[..0] == [] && Under(path, []) == [];
      for index := 0 to |items|
        invariant resolving == old(resolving)
        invariant var w := WalkItems(job, resolving, schema, items[..index]); output == w.0 && repairs == old(repairs) + Under(path, w.1)
      {
        ghost var before := WalkItems(job, resolving, schema, items[..index]);
        var item := WalkValue(schema, items[index], path + [Index(index)]);
        ghost var records := Walk(job, resolving, schema, items[index]).records;
        UnderTwice(path, Index(index), records);
        UnderAppends(path, before.1, Lift(Index(index), records));
        assert items[..index + 1][..index] == items[..index];
        output := output + [item];
      }
      assert items[..|items|] == items;
    }

    method WalkEachMember(schema: Schema, members: seq<Member>, path: Path) returns (output: seq<Member>)
      requires schema.Obj? && "properties" in schema.m && schema.m["properties"].Obj? && Within(job, schema)
      modifies this
      ensures var w := WalkMembers(job, old(resolving), schema, members); output == w.0 && repairs == old(repairs) + Under(path, w.1)
      ensures resolving == old(resolving)
      decreases AllReferences(job.root) - resolving, schema, 0, 0
    {
      hide Within, AllReferences, Walk, Lift;
      output := [];
      assert members[..0] == [] && Under(path, []) == [];
      for index := 0 to |members|
        invariant resolving == old(resolving)
        invariant var w := WalkMembers(job, resolving, schema, members[..index]); output == w.0 && repairs == old(repairs) + Under(path, w.1)
      {
        ghost var before := WalkMembers(job, resolving, schema, members[..index]);
        var m := members[index];
        var child := m.value;
        if m.key in schema.m["properties"].m {
          PropertyWithin(job, schema, m.key);
          child := WalkValue(schema.m["properties"].m[m.key], m.value, path + [Key(m.key)]);
        }
        ghost var records := WalkMember(job, resolving, schema, m).records;
        UnderTwice(path, Key(m.key), records);
        UnderAppends(path, before.1, Lift(Key(m.key), records));
        assert members[..index + 1][..index] == members[..index];
        output := output + [Member(m.key, child)];
      }
      assert members[..|members|] == members;
    }
  }

  method RunRepairs(schema: Schema, value: Value, allowed: set<Rule>, numeric: Numeric) returns (output: Value, repairs: seq<Record>)
    ensures Repaired(output, repairs) == ApplyRepairs(schema, value, allowed, numeric)
  {
    hide Walk;
    var context := new Context(Job(schema, allowed, numeric));
    output := context.WalkValue(schema, value, []);
    repairs := context.repairs;
    NoPrefix(Walk(Job(schema, allowed, numeric), {}, schema, value).records);
  }

  lemma NoPrefix(records: seq<Record>)
    ensures Under([], records) == records
  {
    assert forall i :: 0 <= i < |records| ==> [] + records[i].path == records[i].path;
  }
}
