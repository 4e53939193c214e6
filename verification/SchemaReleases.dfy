/**
 Registered tool schemas of one tenant and their promotion to environments.  Each
 promotion records how the promoted schema compares with the one it replaces, on a
 hash chain under a manifest.  Rows are numbered in the order of their insertion.
 */
module SchemaReleases {
  import opened Common
  import opened JsonSchema
  import opened SchemaDrift
  import DriftLog

  type Id = nat
  datatype Hash = Genesis | Hmac(value: nat)
  type Schema = s: Json | IsSchema(s) witness Bool(true)

  datatype SchemaRow = SchemaRow(tool: Id, version: Id, adapter: Id, schema: Schema, drift: Option<Verdict>)
  datatype Label = First | Compared(verdict: Verdict)
  datatype Release = Release(
    id: Id, tool: Id, environment: Id, row: nat, schemaHash: Hash, adapter: Id, version: Id,
    compatibility: Label, evidence: Hash, promoter: Hash, at: int, previous: Hash)
  datatype ReleaseRow = ReleaseRow(release: Release, hash: Hash)
  datatype Manifest = Manifest(revision: nat, rowCount: nat, tip: Hash)
  datatype Registry = Registry(schemas: seq<SchemaRow>, environments: set<Id>, releases: seq<ReleaseRow>, manifest: Manifest)

  datatype Hashes = Hashes(schema: Schema -> Hash, release: Release -> Hash, evidence: Option<Id> -> Hash, promoter: Id -> Hash)

  // What a promotion asks for, and what it takes from outside.
  datatype Request = Request(tool: Id, version: Id, environment: Id, expected: Hash, allowBreaking: bool, evidence: Option<Id>, promoter: Id)
  datatype Host = Host(now: int, id: Id)

  datatype Failure = Integrity | NoEnvironment | NoSchema | HashMismatch | NeedsEvidence | VersionConflict
  datatype Promotion = Promotion(release: Release, drift: Option<Verdict>)

  // ----- Looking rows up -----

  // The latest release of a tool in an environment.
  function Current(releases: seq<ReleaseRow>, environment: Id, tool: Id): (r: Option<nat>)
    ensures r.Some? ==> r.value < |releases| && releases[r.value].release.environment == environment && releases[r.value].release.tool == tool
  {
    if releases == [] then None
    else
      var last := |releases| - 1;
      if releases[last].release.environment == environment && releases[last].release.tool == tool then Some(last)
      else Current(releases[..last], environment, tool)
  }

  // The row of a registered version.
  function Find(schemas: seq<SchemaRow>, tool: Id, version: Id): (r: Option<nat>)
    ensures r.Some? ==> r.value < |schemas| && schemas[r.value].tool == tool && schemas[r.value].version == version
  {
    if schemas == [] then None
    else
      var last := |schemas| - 1;
      if schemas[last].tool == tool && schemas[last].version == version then Some(last) else Find(schemas[..last], tool, version)
  }

  // The schema of a tool registered last.
  function Prior(schemas: seq<SchemaRow>, tool: Id): (r: Option<nat>)
    ensures r.Some? ==> r.value < |schemas| && schemas[r.value].tool == tool
  {
    if schemas == [] then None
    else
      var last := |schemas| - 1;
      if schemas[last].tool == tool then Some(last) else Prior(schemas[..last], tool)
  }

  // ----- Verification -----

  function PreviousHash(releases: seq<ReleaseRow>, i: nat): Hash
    requires i <= |releases|
  {
    if i == 0 then Genesis else releases[i - 1].hash
  }

  // The schema row that a release points at says the same as the release.
  predicate SourceOk(h: Hashes, schemas: seq<SchemaRow>, r: Release) {
    && r.row < |schemas| && schemas[r.row].tool == r.tool && schemas[r.row].adapter == r.adapter
    && schemas[r.row].version == r.version && h.schema(schemas[r.row].schema) == r.schemaHash
  }

  predicate LinkOk(h: Hashes, s: Registry, i: nat)
    requires i < |s.releases|
  {
    && SourceOk(h, s.schemas, s.releases[i].release) && s.releases[i].release.previous == PreviousHash(s.releases, i)
    && s.releases[i].hash == h.release(s.releases[i].release)
  }

  predicate Verified(h: Hashes, s: Registry) {
    && |s.releases| == s.manifest.rowCount && (forall i :: 0 <= i < |s.releases| ==> LinkOk(h, s, i))
    && s.manifest.tip == PreviousHash(s.releases, |s.releases|)
  }

  // ----- Transactions -----

  function Register(h: Hashes, s: Registry, tool: Id, version: Id, adapter: Id, schema: Schema): (Registry, Result<Option<Verdict>, Failure>) {
    var existing := Find(s.schemas, tool, version);
    if existing.Some? then
      var row := s.schemas[existing.value];
      (s, if h.schema(row.schema) != h.schema(schema) || row.adapter != adapter then Err(VersionConflict) else Ok(row.drift))
    else
      var prior := Prior(s.schemas, tool);
      var drift := if prior.Some? then Some(DetectDrift(s.schemas[prior.value].schema, schema)) else None;
      (s.(schemas := s.schemas + [SchemaRow(tool, version, adapter, schema, drift)]), Ok(drift))
  }

  // How the schema at a row compares with the schema of a release, if there is one.
  function Comparison(schemas: seq<SchemaRow>, releases: seq<ReleaseRow>, current: Option<nat>, row: nat): (r: Option<Verdict>)
    requires row < |schemas| && (current.Some? ==> current.value < |releases| && releases[current.value].release.row < |schemas|)
  {
    if current.None? then None else Some(DetectDrift(schemas[releases[current.value].release.row].schema, schemas[row].schema))
  }

  function LabelOf(drift: Option<Verdict>): Label {
    if drift.Some? then Compared(drift.value) else First
  }

  function Promote(h: Hashes, s: Registry, q: Request, host: Host): (Registry, Result<Promotion, Failure>) {
    var candidate := Find(s.schemas, q.tool, q.version);
    var current := Current(s.releases, q.environment, q.tool);
    if !Verified(h, s) then (s, Err(Integrity))
    else if q.environment !in s.environments then (s, Err(NoEnvironment))
    else if candidate.None? then (s, Err(NoSchema))
    else if h.schema(s.schemas[candidate.value].schema) != q.expected then (s, Err(HashMismatch))
    else if current.Some? && s.releases[current.value].release.row == candidate.value then
      (s, Ok(Promotion(s.releases[current.value].release, None)))
    else
      assert current.Some? ==> LinkOk(h, s, current.value);
      var drift := Comparison(s.schemas, s.releases, current, candidate.value);
      if drift == Some(BreakingDrift) && (!q.allowBreaking || q.evidence.None?) then (s, Err(NeedsEvidence))
      else
        var row := s.schemas[candidate.value];
        var release := Release(host.id, q.tool, q.environment, candidate.value, h.schema(row.schema), row.adapter, row.version,
                               LabelOf(drift), h.evidence(q.evidence), h.promoter(q.promoter), host.now, s.manifest.tip);
        var hash := h.release(release);
        (s.(releases := s.releases + [ReleaseRow(release, hash)], manifest := Manifest(s.manifest.revision + 1, s.manifest.rowCount + 1, hash)),
         Ok(Promotion(release, drift)))
  }

  // ----- The invariant -----

  // A release says how its schema compares with the one released before it, and a breaking one was reviewed.
  ghost predicate Labelled(h: Hashes, s: Registry, i: nat)
    requires i < |s.releases|
  {
    var r := s.releases[i].release;
    var current := Current(s.releases[..i], r.environment, r.tool);
    && SourceOk(h, s.schemas, r) && (current.Some? ==> SourceOk(h, s.schemas, s.releases[current.value].release))
    && r.compatibility == LabelOf(Comparison(s.schemas, s.releases, current, r.row))
    && (current.Some? ==> s.releases[current.value].release.row != r.row)
    && (r.compatibility == Compared(BreakingDrift) ==> exists e :: r.evidence == h.evidence(Some(e)))
  }

  ghost predicate Inv(h: Hashes, s: Registry) {
    Verified(h, s) && s.manifest.revision == |s.releases| && forall i :: 0 <= i < |s.releases| ==> Labelled(h, s, i)
  }

  lemma RegisterKeeps(h: Hashes, s: Registry, tool: Id, version: Id, adapter: Id, schema: Schema)
    requires Inv(h, s)
    ensures var t := Register(h, s, tool, version, adapter, schema).0; Inv(h, t) && s.schemas <= t.schemas && t.releases == s.releases
  {
    hide Find, Prior, DetectDrift;
    var t := Register(h, s, tool, version, adapter, schema).0;
    forall i | 0 <= i < |s.releases| ensures LinkOk(h, t, i) && Labelled(h, t, i) {
      assert LinkOk(h, s, i) && Labelled(h, s, i);
    }
  }

  lemma PromoteKeeps(h: Hashes, s: Registry, q: Request, host: Host)
    requires Inv(h, s)
    ensures var t := Promote(h, s, q, host).0; Inv(h, t) && t.schemas == s.schemas && s.releases <= t.releases
  {
    hide Find, DetectDrift;
    var (t, r) := Promote(h, s, q, host);
    if t != s {
      var n := |s.releases|;
      assert t.releases[..n] == s.releases;
      forall i | 0 <= i < |t.releases| ensures LinkOk(h, t, i) && Labelled(h, t, i) {
        if i < n {
          assert LinkOk(h, s, i) && Labelled(h, s, i);
          assert t.releases[..i] == s.releases[..i];
        } else {
          var current := Current(s.releases, q.environment, q.tool);
          assert current.Some? ==> LinkOk(h, s, current.value);
          assert t.releases[i].release.evidence == h.evidence(q.evidence);
        }
      }
    }
  }

  datatype Op = OpRegister(tool: Id, version: Id, adapter: Id, schema: Schema) | OpPromote(q: Request, host: Host) | OpEnvironment(name: Id)

  function Apply(h: Hashes, s: Registry, op: Op): Registry {
    match op
    case OpRegister(tool, version, adapter, schema) => Register(h, s, tool, version, adapter, schema).0
    case OpPromote(q, host) => Promote(h, s, q, host).0
    case OpEnvironment(name) => s.(environments := s.environments + {name})
  }

  function Run(h: Hashes, ops: seq<Op>): Registry {
    if ops == [] then Registry([], {}, [], Manifest(0, 0, Genesis)) else Apply(h, Run(h, ops[..|ops| - 1]), ops[|ops| - 1])
  }

  // After any run the chain verifies and every release is labelled by what drift detection says.
  lemma {:induction false} RunKeeps(h: Hashes, ops: seq<Op>)
    ensures Inv(h, Run(h, ops))
  {
    hide Inv, Register, Promote;
    if ops == [] {
      EmptyKeeps(h);
    } else {
      var s, op := Run(h, ops[..|ops| - 1]), ops[|ops| - 1];
      RunKeeps(h, ops[..|ops| - 1]);
      match op
      case OpRegister(tool, version, adapter, schema) => RegisterKeeps(h, s, tool, version, adapter, schema);
      case OpPromote(q, host) => PromoteKeeps(h, s, q, host);
      case OpEnvironment(name) => EnvironmentKeeps(h, s, name);
    }
  }

  lemma EmptyKeeps(h: Hashes)
    ensures Inv(h, Registry([], {}, [], Manifest(0, 0, Genesis)))
  {
  }

  lemma EnvironmentKeeps(h: Hashes, s: Registry, name: Id)
    requires Inv(h, s)
    ensures Inv(h, s.(environments := s.environments + {name}))
  {
    var t := s.(environments := s.environments + {name});
    forall i | 0 <= i < |s.releases| ensures LinkOk(h, t, i) && Labelled(h, t, i) {
      assert LinkOk(h, s, i) && Labelled(h, s, i);
    }
  }

  // ----- Old calls stay valid -----

  function SchemaAt(s: Registry, i: nat): Schema
    requires i < |s.releases|
  {
    var row := s.releases[i].release.row;
    if row < |s.schemas| then s.schemas[row].schema else Bool(true)
  }

  predicate SameLine(s: Registry, i: nat, j: nat)
    requires i < |s.releases| && j < |s.releases|
  {
    s.releases[i].release.environment == s.releases[j].release.environment && s.releases[i].release.tool == s.releases[j].release.tool
  }

  function Replaced(s: Registry, j: nat): Option<nat>
    requires j < |s.releases|
  {
    Current(s.releases[..j], s.releases[j].release.environment, s.releases[j].release.tool)
  }

  // The release was called compatible and gained properties in closed objects only.
  ghost predicate SafeRelease(s: Registry, j: nat)
    requires j < |s.releases|
  {
    && s.releases[j].release.compatibility in {Compared(Identical), Compared(BackwardCompatible)}
    && (Replaced(s, j).Some? ==> GainsOnlyWhereClosed(SchemaAt(s, Replaced(s, j).value), SchemaAt(s, j)))
  }

  lemma {:induction false} CurrentIsLatest(releases: seq<ReleaseRow>, environment: Id, tool: Id, i: nat)
    requires i < |releases| && releases[i].release.environment == environment && releases[i].release.tool == tool
    ensures Current(releases, environment, tool).Some? && i <= Current(releases, environment, tool).value
  {
    var last := |releases| - 1;
    if i < last { CurrentIsLatest(releases[..last], environment, tool, i); }
  }

  // Releases of one tool in one environment that were all called compatible keep every call of the first valid.
  lemma {:induction false} ReleasesKeepCalls(o: Oracle, h: Hashes, s: Registry, i: nat, j: nat)
    requires Inv(h, s) && i <= j < |s.releases| && SameLine(s, i, j)
    requires forall k :: i < k <= j && SameLine(s, i, k) ==> SafeRelease(s, k)
    ensures Widens(o, SchemaAt(s, i), SchemaAt(s, j))
    decreases j
  {
    hide Widens, DetectDrift, GainsOnlyWhereClosed, Current, Verified;
    if i < j {
      var r := s.releases[j].release;
      CurrentIsLatest(s.releases[..j], r.environment, r.tool, i);
      var k := Replaced(s, j).value;
      ReleasesKeepCalls(o, h, s, i, k);
      assert Labelled(h, s, j) && SafeRelease(s, j);
      CompatibleWidens(o, SchemaAt(s, k), SchemaAt(s, j));
      WidensTransitive(o, SchemaAt(s, i), SchemaAt(s, k), SchemaAt(s, j));
    } else {
      WidensReflexive(o, SchemaAt(s, i));
    }
  }

  lemma WidensReflexive(o: Oracle, s: Json)
    ensures Widens(o, s, s)
  {
    hide Valid;
  }

  // ----- The store -----

  class ReleaseStore {
    const h: Hashes
    var schemas: seq<SchemaRow>
    var environments: set<Id>
    var releases: seq<ReleaseRow>
    var manifest: Manifest

    function State(): Registry
      reads this
    {
      Registry(schemas, environments, releases, manifest)
    }

    constructor (h: Hashes)
      ensures this.h == h && State() == Run(h, []) && Inv(h, State())
    {
      this.h := h;
      schemas, environments, releases, manifest := [], {}, [], Manifest(0, 0, Genesis);
    }

    method Verify() returns (valid: bool, checked: nat)
      ensures valid <==> Verified(h, State())
      ensures valid ==> checked == |releases|
      ensures forall i :: 0 <= i < checked <= |releases| ==> LinkOk(h, State(), i)
    {
      if |releases| != manifest.rowCount { return false, 0; }
      var previous := Genesis;
      for i := 0 to |releases|
        invariant previous == PreviousHash(releases, i)
        invariant forall j :: 0 <= j < i ==> LinkOk(h, State(), j)
      {
        var row := releases[i];
        if !SourceOk(h, schemas, row.release) || row.release.previous != previous || row.hash != h.release(row.release) {
          assert !LinkOk(h, State(), i);
          return false, i;
        }
        previous := row.hash;
      }
      return manifest.tip == previous, |releases|;
    }

    method RegisterSchema(tool: Id, version: Id, adapter: Id, schema: Schema) returns (r: Result<Option<Verdict>, Failure>)
      modifies this`schemas
      ensures (State(), r) == Register(h, old(State()), tool, version, adapter, schema)
      ensures old(Inv(h, State())) ==> Inv(h, State())
    {
      hide Inv, DetectDrift;
      if Inv(h, State()) { RegisterKeeps(h, State(), tool, version, adapter, schema); }
      var existing := Find(schemas, tool, version);
      if existing.Some? {
        var row := schemas[existing.value];
        if h.schema(row.schema) != h.schema(schema) || row.adapter != adapter { return Err(VersionConflict); }
        return Ok(row.drift);
      }
      var prior := Prior(schemas, tool);
      var drift := None;
      if prior.Some? {
        var verdict, changes := DriftLog.DetectSchemaDrift(schemas[prior.value].schema, schema);
        drift := Some(verdict);
      }
      schemas := schemas + [SchemaRow(tool, version, adapter, schema, drift)];
      return Ok(drift);
    }

    method CompareWithCurrent(current: Option<nat>, row: nat) returns (drift: Option<Verdict>)
      requires Verified(h, State()) && row < |schemas| && (current.Some? ==> current.value < |releases|)
      ensures current.Some? ==> LinkOk(h, State(), current.value)
      ensures drift == Comparison(schemas, releases, current, row)
    {
      hide DetectDrift;
      drift := None;
      if current.Some? {
        assert LinkOk(h, State(), current.value);
        var verdict, changes := DriftLog.DetectSchemaDrift(schemas[releases[current.value].release.row].schema, schemas[row].schema);
        drift := Some(verdict);
      }
    }

    method PromoteSchemaRelease(q: Request, host: Host) returns (r: Result<Promotion, Failure>)
      modifies this`releases, this`manifest
      ensures (State(), r) == Promote(h, old(State()), q, host)
      ensures old(Inv(h, State())) ==> Inv(h, State())
    {
      hide Inv, DetectDrift, Find, Current, Verified;
      if Inv(h, State()) { PromoteKeeps(h, State(), q, host); }
      var valid, _ := Verify();
      if !valid { return Err(Integrity); }
      if q.environment !in environments { return Err(NoEnvironment); }
      var candidate := Find(schemas, q.tool, q.version);
      if candidate.None? { return Err(NoSchema); }
      var row := schemas[candidate.value];
      if h.schema(row.schema) != q.expected { return Err(HashMismatch); }
      var current := Current(releases, q.environment, q.tool);
      if current.Some? && releases[current.value].release.row == candidate.value {
        return Ok(Promotion(releases[current.value].release, None));
      }
      var drift := CompareWithCurrent(current, candidate.value);
      if drift == Some(BreakingDrift) && (!q.allowBreaking || q.evidence.None?) { return Err(NeedsEvidence); }
      var release := Release(host.id, q.tool, q.environment, candidate.value, h.schema(row.schema), row.adapter, row.version,
                             LabelOf(drift), h.evidence(q.evidence), h.promoter(q.promoter), host.now, manifest.tip);
      var hash := h.release(release);
      releases := releases + [ReleaseRow(release, hash)];
      manifest := Manifest(manifest.revision + 1, manifest.rowCount + 1, hash);
      return Ok(Promotion(release, drift));
    }
  }
}
