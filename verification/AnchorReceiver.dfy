/**
 The checkpoint anchor receiver: an append-only hash chain of accepted checkpoints
 over all tenants, and the latest checkpoint of each.
 */
module AnchorReceiver {
  import opened Common
  import opened ActionLedger

  datatype Entry = Entry(eventId: Hash, bodyHash: Hash, checkpoint: Checkpoint, receivedAt: int, previous: Hash) {
    function TenantRef(): Hash { checkpoint.body.tenantRef }
    function Revision(): nat { checkpoint.body.revision }
  }
  datatype EventRow = EventRow(entry: Entry, hash: Hash)
  datatype LatestRow = LatestRow(checkpoint: Checkpoint, eventId: Hash) {
    function Revision(): nat { checkpoint.body.revision }
  }
  datatype Store = Store(events: seq<EventRow>, latest: map<Hash, LatestRow>)

  // The keyed hash of a chain entry.
  type EntryHash = Entry -> Hash

  datatype Answer = Stored | Advanced | Duplicate | Replay | EventConflict | RollbackDetected | IntegrityConflict

  predicate IsConflict(a: Answer) {
    a.EventConflict? || a.RollbackDetected? || a.IntegrityConflict?
  }

  // ----- Ingesting one event -----

  function FindEvent(events: seq<EventRow>, id: Hash): (r: Option<EventRow>)
    ensures r.None? <==> forall i :: 0 <= i < |events| ==> events[i].entry.eventId != id
    ensures r.Some? ==> r.value in events && r.value.entry.eventId == id
  {
    if events == [] then None
    else if events[0].entry.eventId == id then Some(events[0])
    else FindEvent(events[1..], id)
  }

  function LastHash(events: seq<EventRow>): Hash {
    if events == [] then GENESIS else events[|events| - 1].hash
  }

  function Append(k: EntryHash, s: Store, e: Event, bodyHash: Hash, now: int): Store {
    var entry := Entry(e.id, bodyHash, e.checkpoint, now, LastHash(s.events));
    Store(s.events + [EventRow(entry, k(entry))], s.latest[e.checkpoint.body.tenantRef := LatestRow(e.checkpoint, e.id)])
  }

  function Ingest(k: EntryHash, s: Store, e: Event, bodyHash: Hash, now: int): (Store, Answer) {
    var prior := FindEvent(s.events, e.id);
    var t := e.checkpoint.body.tenantRef;
    var revision := e.checkpoint.body.revision;
    if prior.Some? then (s, if prior.value.entry.bodyHash != bodyHash then EventConflict else Answer.Duplicate)
    else if t in s.latest && revision < s.latest[t].Revision() then (s, RollbackDetected)
    else if t in s.latest && revision == s.latest[t].Revision() && e.checkpoint.hash != s.latest[t].checkpoint.hash then (s, IntegrityConflict)
    else if t in s.latest && revision == s.latest[t].Revision() then (s, Replay)
    else (Append(k, s, e, bodyHash, now), if t in s.latest then Answer.Advanced else Stored)
  }

  // ----- Verifying the whole store -----

  // The hash each entry must carry as the previous one.
  function PriorHash(events: seq<EventRow>, i: nat): Hash
    requires i <= |events|
  {
    if i == 0 then GENESIS else events[i - 1].hash
  }

  ghost predicate EntriesChained(k: EntryHash, events: seq<EventRow>) {
    forall i :: 0 <= i < |events| ==> events[i].entry.previous == PriorHash(events, i) && events[i].hash == k(events[i].entry)
  }

  // The entry of a tenant with the highest revision.
  function Top(events: seq<EventRow>, t: Hash): (r: Option<EventRow>)
    ensures r.None? <==> forall i :: 0 <= i < |events| ==> events[i].entry.TenantRef() != t
    ensures r.Some? ==> r.value in events && r.value.entry.TenantRef() == t
    ensures r.Some? ==> forall i :: 0 <= i < |events| && events[i].entry.TenantRef() == t ==> events[i].entry.Revision() <= r.value.entry.Revision()
  {
    if events == [] then None
    else
      var last, rest := events[|events| - 1], Top(events[..|events| - 1], t);
      if last.entry.TenantRef() == t && (rest.None? || last.entry.Revision() > rest.value.entry.Revision()) then Some(last) else rest
  }

  function Tenants(events: seq<EventRow>): set<Hash> {
    set i | 0 <= i < |events| :: events[i].entry.TenantRef()
  }

  predicate MatchesTop(events: seq<EventRow>, t: Hash, row: LatestRow) {
    var top := Top(events, t);
    top.Some? && top.value.entry.checkpoint == row.checkpoint && top.value.entry.eventId == row.eventId
  }

  ghost predicate Sound(k: EntryHash, s: Store) {
    && EntriesChained(k, s.events)
    && |Tenants(s.events)| == |s.latest|
    && forall t :: t in s.latest ==> MatchesTop(s.events, t, s.latest[t])
  }

  // Revisions of each tenant strictly increase along the chain.
  ghost predicate Increasing(events: seq<EventRow>) {
    forall i, j :: 0 <= i < j < |events| && events[i].entry.TenantRef() == events[j].entry.TenantRef() ==>
      events[i].entry.Revision() < events[j].entry.Revision()
  }

  // The log holds a tenant's revision with a checkpoint hash.
  ghost predicate Logged(s: Store, t: Hash, revision: nat, hash: Hash) {
    exists i :: 0 <= i < |s.events| && s.events[i].entry.checkpoint.hash == hash
      && s.events[i].entry.TenantRef() == t && s.events[i].entry.Revision() == revision
  }

  ghost predicate LatestAtLeast(s: Store, t: Hash, revision: nat) {
    t in s.latest && s.latest[t].Revision() >= revision
  }

  lemma EmptySound(k: EntryHash)
    ensures Sound(k, Store([], map[])) && Increasing([])
  {
    assert Tenants([]) == {};
  }

  // A sound store has a latest row for exactly the tenants of its chain.
  lemma SoundTenants(k: EntryHash, s: Store)
    requires Sound(k, s)
    ensures s.latest.Keys == Tenants(s.events)
  {
    forall t | t in s.latest ensures t in Tenants(s.events) {
      var top := Top(s.events, t).value;
      var i :| 0 <= i < |s.events| && s.events[i] == top;
    }
    SameSize(s.latest.Keys, Tenants(s.events));
  }

  lemma {:induction false} SameSize(a: set<Hash>, b: set<Hash>)
    requires a <= b && |a| == |b|
    ensures a == b
  {
    if x :| x in b && x !in a {
      SubsetSize(a, b - {x});
    }
  }

  lemma {:induction false} SubsetSize(a: set<Hash>, b: set<Hash>)
    requires a <= b
    ensures |a| <= |b|
  {
    if x :| x in a {
      SubsetSize(a - {x}, b - {x});
    }
  }

  lemma TopAppends(events: seq<EventRow>, row: EventRow, t: Hash)
    ensures var rest := Top(events, t);
      Top(events + [row], t) ==
        if row.entry.TenantRef() == t && (rest.None? || row.entry.Revision() > rest.value.entry.Revision()) then Some(row) else rest
  {
    assert (events + [row])[..|events|] == events;
  }

  lemma TenantsAppend(events: seq<EventRow>, row: EventRow)
    ensures Tenants(events + [row]) == Tenants(events) + {row.entry.TenantRef()}
  {
    var longer := events + [row];
    assert longer[|events|] == row;
    forall t | t in Tenants(events) ensures t in Tenants(longer) {
      var i :| 0 <= i < |events| && events[i].entry.TenantRef() == t;
      assert longer[i] == events[i];
    }
  }

  lemma PriorInPrefix(events: seq<EventRow>, longer: seq<EventRow>, i: nat)
    requires events <= longer && i <= |events|
    ensures PriorHash(longer, i) == PriorHash(events, i)
  {
  }

  lemma PriorIsLast(events: seq<EventRow>)
    ensures PriorHash(events, |events|) == LastHash(events)
  {
  }

  lemma PriorSteps(events: seq<EventRow>, i: nat)
    requires i <= |events|
    ensures PriorHash(events, 0) == GENESIS && (i < |events| ==> PriorHash(events, i + 1) == events[i].hash)
  {
  }

  lemma EntriesAppend(k: EntryHash, events: seq<EventRow>, row: EventRow)
    requires EntriesChained(k, events) && row.entry.previous == LastHash(events) && row.hash == k(row.entry)
    ensures EntriesChained(k, events + [row])
  {
    hide PriorHash;
    var longer := events + [row];
    forall i | 0 <= i < |longer| ensures longer[i].entry.previous == PriorHash(longer, i) && longer[i].hash == k(longer[i].entry) {
      PriorInPrefix(events, longer, i);
      if i < |events| {
        assert longer[i] == events[i];
      } else {
        PriorIsLast(events);
      }
    }
  }

  lemma TopsAfter(s: Store, row: EventRow, latest: LatestRow)
    requires var t := row.entry.TenantRef(); t in s.latest || Top(s.events, t).None?
    requires forall t :: t in s.latest ==> MatchesTop(s.events, t, s.latest[t])
    requires row.entry.checkpoint == latest.checkpoint && row.entry.eventId == latest.eventId
    requires var t := row.entry.TenantRef(); t in s.latest ==> s.latest[t].Revision() < row.entry.Revision()
    ensures var m := s.latest[row.entry.TenantRef() := latest]; forall u :: u in m ==> MatchesTop(s.events + [row], u, m[u])
  {
    hide Top;
    var t := row.entry.TenantRef();
    var m := s.latest[t := latest];
    forall u | u in m ensures MatchesTop(s.events + [row], u, m[u]) {
      TopAppends(s.events, row, u);
    }
  }

  // An accepted checkpoint becomes the top of its tenant, and no other tenant's.
  lemma AppendKeeps(k: EntryHash, s: Store, e: Event, bodyHash: Hash, now: int)
    requires Sound(k, s)
    requires var t := e.checkpoint.body.tenantRef; t in s.latest ==> s.latest[t].Revision() < e.checkpoint.body.revision
    ensures Sound(k, Append(k, s, e, bodyHash, now))
    ensures Increasing(s.events) ==> Increasing(Append(k, s, e, bodyHash, now).events)
  {
    hide EntriesChained, Tenants, MatchesTop, Top, Increasing;
    var t := e.checkpoint.body.tenantRef;
    var entry := Entry(e.id, bodyHash, e.checkpoint, now, LastHash(s.events));
    var row := EventRow(entry, k(entry));
    var m := Append(k, s, e, bodyHash, now);
    EntriesAppend(k, s.events, row);
    SoundTenants(k, s);
    TenantsAppend(s.events, row);
    assert m.latest.Keys == s.latest.Keys + {t} == Tenants(m.events);
    NoTop(s.events, t);
    TopsAfter(s, row, LatestRow(e.checkpoint, e.id));
    if Increasing(s.events) {
      AppendIncreases(k, s, row);
    }
  }

  lemma NoTop(events: seq<EventRow>, t: Hash)
    ensures Top(events, t).None? <==> t !in Tenants(events)
  {
  }

  lemma AppendIncreases(k: EntryHash, s: Store, row: EventRow)
    requires Sound(k, s) && Increasing(s.events)
    requires var t := row.entry.TenantRef(); t in s.latest ==> s.latest[t].Revision() < row.entry.Revision()
    ensures Increasing(s.events + [row])
  {
    hide EntriesChained, Top;
    SoundTenants(k, s);
    var t := row.entry.TenantRef();
    forall i | 0 <= i < |s.events| && s.events[i].entry.TenantRef() == t ensures s.events[i].entry.Revision() < row.entry.Revision() {
      assert t in Tenants(s.events);
      assert MatchesTop(s.events, t, s.latest[t]);
    }
  }

  // Ingesting keeps the store sound, only appends, and never moves a tenant backwards.
  lemma IngestKeeps(k: EntryHash, s: Store, e: Event, bodyHash: Hash, now: int)
    requires Sound(k, s)
    ensures var (m, a) := Ingest(k, s, e, bodyHash, now);
      && Sound(k, m) && (Increasing(s.events) ==> Increasing(m.events))
      && s.events <= m.events
      && (forall t, r :: LatestAtLeast(s, t, r) ==> LatestAtLeast(m, t, r))
      && (IsConflict(a) ==> m == s)
  {
    hide Sound, Increasing;
    var t := e.checkpoint.body.tenantRef;
    if t in s.latest ==> s.latest[t].Revision() < e.checkpoint.body.revision {
      AppendKeeps(k, s, e, bodyHash, now);
    }
  }

  // What a success answer means: the log holds the checkpoint, or an event of the same id and body hash.
  lemma AnswerMeans(k: EntryHash, s: Store, e: Event, bodyHash: Hash, now: int)
    requires Sound(k, s)
    ensures var (m, a) := Ingest(k, s, e, bodyHash, now); var c := e.checkpoint;
      && (a.Stored? || a.Advanced? || a.Replay? ==> Logged(m, c.body.tenantRef, c.body.revision, c.hash) && LatestAtLeast(m, c.body.tenantRef, c.body.revision))
      && (a.Duplicate? ==> exists row :: row in m.events && row.entry.eventId == e.id && row.entry.bodyHash == bodyHash)
      && (a.EventConflict? ==> exists row :: row in m.events && row.entry.eventId == e.id && row.entry.bodyHash != bodyHash)
      && (a.RollbackDetected? ==> c.body.tenantRef in s.latest && s.latest[c.body.tenantRef].Revision() > c.body.revision)
      && (a.IntegrityConflict? ==> c.body.tenantRef in s.latest && s.latest[c.body.tenantRef].Revision() == c.body.revision
                                   && s.latest[c.body.tenantRef].checkpoint.hash != c.hash)
  {
    var (m, a) := Ingest(k, s, e, bodyHash, now);
    var t := e.checkpoint.body.tenantRef;
    if a.Stored? || a.Advanced? {
      assert m.events[|s.events|].entry.checkpoint == e.checkpoint;
    } else if a.Replay? {
      assert MatchesTop(s.events, t, s.latest[t]);
      var top := Top(s.events, t).value;
      var i :| 0 <= i < |s.events| && s.events[i] == top;
    }
  }

  // Whatever was logged stays logged.
  lemma LoggedStays(s: Store, m: Store, t: Hash, revision: nat, hash: Hash)
    requires s.events <= m.events && Logged(s, t, revision, hash)
    ensures Logged(m, t, revision, hash)
  {
    var i :| 0 <= i < |s.events| && s.events[i].entry.checkpoint.hash == hash
      && s.events[i].entry.TenantRef() == t && s.events[i].entry.Revision() == revision;
    assert m.events[i] == s.events[i];
  }

  // A logged revision is at most the tenant's latest.
  lemma LoggedReached(k: EntryHash, s: Store, t: Hash, revision: nat, hash: Hash)
    requires Sound(k, s) && Logged(s, t, revision, hash)
    ensures LatestAtLeast(s, t, revision)
  {
    SoundTenants(k, s);
    assert t in Tenants(s.events);
    assert MatchesTop(s.events, t, s.latest[t]);
  }

  // ----- The store as an object -----

  /** data_version counts commits of other connections; observed is its value at the last full verification. */
  class AnchorStore {
    const k: EntryHash
    var events: seq<EventRow>
    var latest: map<Hash, LatestRow>
    var dataVersion: nat
    var observedDataVersion: nat

    function State(): Store
      reads this
    {
      Store(events, latest)
    }

    // While no other connection has committed since, the store is what a full verification accepts.
    ghost predicate Valid()
      reads this
    {
      observedDataVersion <= dataVersion && (observedDataVersion == dataVersion ==> Sound(k, State()))
    }

    constructor (k: EntryHash)
      ensures this.k == k && State() == Store([], map[]) && Valid() && observedDataVersion == dataVersion
    {
      this.k := k;
      events, latest := [], map[];
      dataVersion, observedDataVersion := 0, 0;
      new;
      EmptySound(k);
    }

    // Another connection commits anything at all.
    method CommitElsewhere(s: Store)
      requires Valid()
      modifies this
      ensures Valid() && State() == s && dataVersion == old(dataVersion) + 1 && observedDataVersion == old(observedDataVersion)
    {
      events, latest := s.events, s.latest;
      dataVersion := dataVersion + 1;
    }

    method Verify() returns (valid: bool, checked: nat)
      ensures valid <==> Sound(k, State())
      ensures valid ==> checked == |events|
    {
      hide PriorHash, MatchesTop, Tenants;
      var previous := GENESIS;
      checked := 0;
      PriorSteps(events, 0);
      while checked < |events|
        invariant checked <= |events| && previous == PriorHash(events, checked)
        invariant forall i :: 0 <= i < checked ==> events[i].entry.previous == PriorHash(events, i) && events[i].hash == k(events[i].entry)
      {
        var row := events[checked];
        if row.entry.previous != previous || row.hash != k(row.entry) { return false, checked; }
        PriorSteps(events, checked);
        previous := row.hash;
        checked := checked + 1;
      }
      if |Tenants(events)| != |latest| { return false, checked; }
      var left := latest.Keys;
      while left != {}
        invariant left <= latest.Keys
        invariant forall t :: t in latest && t !in left ==> MatchesTop(events, t, latest[t])
        decreases left
      {
        var t :| t in left;
        if !MatchesTop(events, t, latest[t]) { return false, checked; }
        left := left - {t};
      }
      return true, checked;
    }

    // Skips the verification while no other connection has committed; its verdict is that of a full one.
    method AssertFresh() returns (ok: bool)
      requires Valid()
      modifies this`observedDataVersion
      ensures Valid() && (ok <==> Sound(k, State()))
      ensures ok ==> observedDataVersion == dataVersion
      ensures !ok ==> observedDataVersion == old(observedDataVersion)
    {
      if dataVersion == observedDataVersion { return true; }
      var valid, checked := Verify();
      if !valid { return false; }
      observedDataVersion := dataVersion;
      return true;
    }

    method IngestEvent(e: Event, bodyHash: Hash, now: int) returns (r: Option<Answer>)
      requires Valid()
      modifies this
      ensures Valid() && dataVersion == old(dataVersion)
      ensures r.Some? <==> Sound(k, old(State()))
      ensures r.Some? ==> (State(), r.value) == Ingest(k, old(State()), e, bodyHash, now) && Sound(k, State())
      ensures r.None? ==> State() == old(State())
    {
      hide Sound, FindEvent, LastHash, Increasing;
      var current := AssertFresh();
      if !current { return None; }
      IngestKeeps(k, State(), e, bodyHash, now);
      var prior := FindEvent(events, e.id);
      if prior.Some? {
        return Some(if prior.value.entry.bodyHash != bodyHash then EventConflict else Answer.Duplicate);
      }
      var t := e.checkpoint.body.tenantRef;
      var known := t in latest;
      if known && e.checkpoint.body.revision < latest[t].Revision() { return Some(RollbackDetected); }
      if known && e.checkpoint.body.revision == latest[t].Revision() {
        return Some(if e.checkpoint.hash != latest[t].checkpoint.hash then IntegrityConflict else Replay);
      }
      var entry := Entry(e.id, bodyHash, e.checkpoint, now, LastHash(events));
      events := events + [EventRow(entry, k(entry))];
      latest := latest[t := LatestRow(e.checkpoint, e.id)];
      return Some(if known then Answer.Advanced else Stored);
    }
  }
}
