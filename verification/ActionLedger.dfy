/**
 The shared idempotency ledger of one tenant: reservations under a manifest with an
 XOR accumulator, a hash chain of reconciliations, and one checkpoint delivery per
 revision.  Each transaction is a function from a ledger to the next one and a
 result; a transaction that throws leaves the ledger as it was.
 */
module ActionLedger {
  import opened Common
  import opened Accumulators

  // Keyed hashes and random identifiers are only ever compared; GENESIS starts every chain.
  datatype Hash = Genesis | Hmac(value: nat)
  type Id = nat

  datatype Progress = Pending | Completed
  datatype Reservation = Reservation(
    fingerprint: Hash, state: Progress, id: Id,
    audit: Option<Id>, tool: Option<Hash>, environment: Option<Id>, createdAt: int, updatedAt: int)
  datatype Row = Row(reservation: Reservation, control: Hash)
  datatype Metadata = Metadata(audit: Option<Id>, tool: Option<Hash>, environment: Option<Id>)
  datatype Manifest = Manifest(revision: nat, rowCount: int, accumulator: Digest, updatedAt: int)

  datatype CheckpointBody = CheckpointBody(tenantRef: Hash, revision: nat, rowCount: int, accumulator: Digest, updatedAt: int)
  datatype Checkpoint = Checkpoint(body: CheckpointBody, hash: Hash)
  datatype Event = Event(id: Hash, checkpoint: Checkpoint)

  datatype Status = Waiting | Processing | Delivered | Dead
  datatype Lease = Lease(id: Id, expiresAt: int)
  datatype Delivery = Delivery(
    revision: nat, checkpointHash: Hash, payload: Event, status: Status, attempts: nat,
    nextAttemptAt: int, deliveredAt: Option<int>, lease: Option<Lease>)

  datatype Verdict = ConfirmedExecuted | ConfirmedNotExecuted
  datatype Record = Record(
    id: Id, reservationId: Id, keyHash: Hash, fingerprint: Hash, audit: Id, tool: Hash, environment: Id,
    verdict: Verdict, evidence: Hash, operator: Hash, reconciledAt: int, previous: Hash)
  datatype RecordRow = RecordRow(record: Record, hash: Hash)
  datatype ChainManifest = ChainManifest(revision: nat, rowCount: nat, tip: Hash)

  // The keyed hashes, as functions of what they are computed from.
  datatype Hashes = Hashes(
    keyHash: (string, string) -> Hash,
    reservation: (string, Hash, Reservation) -> Hash,
    member: (Hash, Hash) -> Digest,
    tenantRef: string -> Hash,
    checkpoint: CheckpointBody -> Hash,
    event: (Hash, nat, Hash) -> Hash,
    record: (string, Record) -> Hash,
    evidence: (string, string) -> Hash,
    operator: (string, string) -> Hash)

  datatype Config = Config(tenant: string, maxAttempts: int, hashes: Hashes)

  // What a transaction takes from outside: the clock and fresh identifiers.
  datatype Host = Host(now: int, written: int, id: Id)

  datatype Ledger = Ledger(
    rows: map<Hash, Row>, manifest: Manifest, records: seq<RecordRow>, chain: ChainManifest, deliveries: map<nat, Delivery>)

  const GENESIS: Hash := Genesis

  function Initial(createdAt: int): Ledger {
    Ledger(map[], Manifest(0, 0, ZERO, createdAt), [], ChainManifest(0, 0, GENESIS), map[])
  }

  datatype Failure = Integrity | Invalid | NotPending | Differently | TooRecent
  datatype Reserved = New(id: Id, revision: nat) | Duplicate(id: Id) | Conflict(id: Id) | Refused

  // ----- Hashes of rows -----

  function Control(g: Config, k: Hash, r: Reservation): Hash {
    g.hashes.reservation(g.tenant, k, r)
  }

  function MemberOf(g: Config, k: Hash, row: Row): Digest {
    g.hashes.member(k, row.control)
  }

  function Members(g: Config, rows: map<Hash, Row>): map<Hash, Digest> {
    map k | k in rows :: MemberOf(g, k, rows[k])
  }

  function TenantRef(g: Config): Hash {
    g.hashes.tenantRef(g.tenant)
  }

  function CheckpointOf(g: Config, m: Manifest): Checkpoint {
    var body := CheckpointBody(TenantRef(g), m.revision, m.rowCount, m.accumulator, m.updatedAt);
    Checkpoint(body, g.hashes.checkpoint(body))
  }

  function EventOf(g: Config, c: Checkpoint): Event {
    Event(g.hashes.event(c.body.tenantRef, c.body.revision, c.hash), c)
  }

  // ----- Verification -----

  ghost predicate RowsVerified(g: Config, l: Ledger) {
    && (forall k :: k in l.rows ==> l.rows[k].control == Control(g, k, l.rows[k].reservation))
    && |l.rows| == l.manifest.rowCount
    && l.manifest.accumulator == Total(Members(g, l.rows))
  }

  // The delivery of the current revision exists, carries the manifest's checkpoint and is not dead.
  predicate Covered(g: Config, l: Ledger, allowDead: bool) {
    var revision := l.manifest.revision;
    revision == 0 ||
    (revision in l.deliveries
      && l.deliveries[revision].checkpointHash == CheckpointOf(g, l.manifest).hash
      && (allowDead || l.deliveries[revision].status != Dead))
  }

  ghost predicate Verified(g: Config, l: Ledger, allowDead: bool) {
    RowsVerified(g, l) && Covered(g, l, allowDead)
  }

  // The hash that the record at i must carry as its previous one.
  function PreviousHash(records: seq<RecordRow>, i: nat): Hash
    requires i <= |records|
  {
    if i == 0 then GENESIS else records[i - 1].hash
  }

  // Each record carries the hash of the one before it, and its own.
  predicate Chained(g: Config, records: seq<RecordRow>) {
    forall i :: 0 <= i < |records| ==>
      records[i].record.previous == PreviousHash(records, i) && records[i].hash == g.hashes.record(g.tenant, records[i].record)
  }

  function Tip(records: seq<RecordRow>): Hash {
    PreviousHash(records, |records|)
  }

  predicate ChainVerified(g: Config, l: Ledger) {
    Chained(g, l.records) && |l.records| == l.chain.rowCount && l.chain.tip == Tip(l.records)
  }

  // ----- Writing the manifest -----

  function FirstDelivery(g: Config, m: Manifest): Delivery {
    var c := CheckpointOf(g, m);
    Delivery(m.revision, c.hash, EventOf(g, c), Waiting, 0, m.updatedAt, None, None)
  }

  // The next revision of the manifest, with its delivery queued unless one is there already.
  function WriteManifest(g: Config, l: Ledger, accumulator: Digest, rowCount: int, h: Host): Option<Ledger> {
    var next := Manifest(l.manifest.revision + 1, rowCount, accumulator, h.written);
    var queued := if next.revision in l.deliveries then l.deliveries else l.deliveries[next.revision := FirstDelivery(g, next)];
    if queued[next.revision].checkpointHash != CheckpointOf(g, next).hash then None
    else Some(l.(manifest := next, deliveries := queued))
  }

  // ----- Transactions on reservations -----

  ghost function Reserve(g: Config, l: Ledger, key: string, fingerprint: Hash, meta: Metadata, h: Host): (Ledger, Reserved) {
    if !Verified(g, l, false) || !ChainVerified(g, l) then (l, Refused)
    else
      var k := g.hashes.keyHash(g.tenant, key);
      if k in l.rows then
        var existing := l.rows[k].reservation;
        (l, if existing.fingerprint == fingerprint then Duplicate(existing.id) else Conflict(existing.id))
      else
        var r := Reservation(fingerprint, Pending, h.id, meta.audit, meta.tool, meta.environment, h.now, h.now);
        var row := Row(r, Control(g, k, r));
        match WriteManifest(g, l.(rows := l.rows[k := row]), Xor(l.manifest.accumulator, MemberOf(g, k, row)), l.manifest.rowCount + 1, h)
        case None => (l, Refused)
        case Some(next) => (next, New(h.id, next.manifest.revision))
  }

  // The row leaves the table.
  function Remove(g: Config, l: Ledger, k: Hash, h: Host): Option<Ledger>
    requires k in l.rows
  {
    WriteManifest(g, l.(rows := l.rows - {k}), Xor(l.manifest.accumulator, MemberOf(g, k, l.rows[k])), l.manifest.rowCount - 1, h)
  }

  // The row becomes completed.
  function Finalize(g: Config, l: Ledger, k: Hash, at: int, h: Host): Option<Ledger>
    requires k in l.rows
  {
    var done := l.rows[k].reservation.(state := Completed, updatedAt := at);
    var row := Row(done, Control(g, k, done));
    var accumulator := Xor(Xor(l.manifest.accumulator, MemberOf(g, k, l.rows[k])), MemberOf(g, k, row));
    WriteManifest(g, l.(rows := l.rows[k := row]), accumulator, l.manifest.rowCount, h)
  }

  datatype Operation = Complete | Release

  ghost function Transition(g: Config, l: Ledger, key: string, fingerprint: Hash, operation: Operation, h: Host): (Ledger, Result<nat, Failure>) {
    var k := g.hashes.keyHash(g.tenant, key);
    if !Verified(g, l, false) || !ChainVerified(g, l) then (l, Err(Integrity))
    else if k !in l.rows || l.rows[k].reservation.fingerprint != fingerprint || l.rows[k].reservation.state != Pending then (l, Err(NotPending))
    else
      match (if operation == Release then Remove(g, l, k, h) else Finalize(g, l, k, h.now, h))
      case None => (l, Err(Integrity))
      case Some(next) => (next, Ok(next.manifest.revision))
  }

  // ----- Reconciliation -----

  ghost predicate IsPendingWith(rows: map<Hash, Row>, k: Hash, id: Id) {
    k in rows && rows[k].reservation.id == id && rows[k].reservation.state == Pending
  }

  ghost function FindPending(rows: map<Hash, Row>, id: Id): (k: Option<Hash>)
    ensures k.Some? ==> IsPendingWith(rows, k.value, id)
  {
    if exists k :: IsPendingWith(rows, k, id) then
      var k :| IsPendingWith(rows, k, id);
      Some(k)
    else None
  }

  function FindRecord(records: seq<RecordRow>, reservationId: Id): (r: Option<RecordRow>)
    ensures r.None? <==> forall i :: 0 <= i < |records| ==> records[i].record.reservationId != reservationId
    ensures r.Some? ==> r.value in records && r.value.record.reservationId == reservationId
  {
    if records == [] then None
    else if records[0].record.reservationId == reservationId then Some(records[0])
    else FindRecord(records[1..], reservationId)
  }

  function AppendRecord(g: Config, l: Ledger, r: Record): Ledger {
    var hash := g.hashes.record(g.tenant, r);
    l.(records := l.records + [RecordRow(r, hash)], chain := ChainManifest(l.chain.revision + 1, l.chain.rowCount + 1, hash))
  }

  datatype Request = Request(reservationId: Id, verdict: Verdict, evidence: string, operator: string, minimumAge: int)

  function RecordFor(g: Config, l: Ledger, k: Hash, q: Request, h: Host): Record
    requires k in l.rows && Described(l.rows[k].reservation)
  {
    var r := l.rows[k].reservation;
    Record(h.id, q.reservationId, k, r.fingerprint, r.audit.value, r.tool.value, r.environment.value, q.verdict,
           g.hashes.evidence(g.tenant, q.evidence), g.hashes.operator(g.tenant, q.operator), h.now, l.chain.tip)
  }

  predicate Described(r: Reservation) {
    r.audit.Some? && r.tool.Some? && r.environment.Some?
  }

  predicate WellFormed(q: Request) {
    0 < |q.evidence| <= 512 && |q.operator| > 0 && q.minimumAge >= 0
  }

  ghost function Reconcile(g: Config, l: Ledger, q: Request, h: Host): (Ledger, Result<RecordRow, Failure>) {
    if !WellFormed(q) then (l, Err(Invalid))
    else if !Verified(g, l, false) || !ChainVerified(g, l) then (l, Err(Integrity))
    else
      match FindRecord(l.records, q.reservationId)
      case Some(existing) =>
        if existing.record.verdict == q.verdict && existing.record.evidence == g.hashes.evidence(g.tenant, q.evidence) then (l, Ok(existing))
        else (l, Err(Differently))
      case None =>
        match FindPending(l.rows, q.reservationId)
        case None => (l, Err(NotPending))
        case Some(k) =>
          if !Described(l.rows[k].reservation) then (l, Err(NotPending))
          else if h.now - l.rows[k].reservation.updatedAt < q.minimumAge * 1000 then (l, Err(TooRecent))
          else
            var recorded := AppendRecord(g, l, RecordFor(g, l, k, q, h));
            match (if q.verdict == ConfirmedNotExecuted then Remove(g, recorded, k, h) else Finalize(g, recorded, k, h.now, h))
            case None => (l, Err(Integrity))
            case Some(next) => (next, Ok(next.records[|next.records| - 1]))
  }

  // ----- Checkpoints -----

  datatype Comparison = Same | Advanced | RolledBack | Conflicting

  function CompareTo(current: Checkpoint, anchored: Checkpoint): Comparison {
    if current.body.revision < anchored.body.revision then RolledBack
    else if current.body.revision > anchored.body.revision then Advanced
    else if current.hash == anchored.hash then Same
    else Conflicting
  }

  ghost function CompareCheckpoint(g: Config, l: Ledger, anchored: Checkpoint): Result<Comparison, Failure> {
    if anchored.body.tenantRef != TenantRef(g) || anchored.hash != g.hashes.checkpoint(anchored.body) || anchored.body.rowCount < 0 then Err(Invalid)
    else if !Verified(g, l, false) || !ChainVerified(g, l) then Err(Integrity)
    else Ok(CompareTo(CheckpointOf(g, l.manifest), anchored))
  }

  // ----- Deliveries of checkpoints -----

  predicate Claimable(d: Delivery, now: int) {
    (d.status == Waiting && d.nextAttemptAt <= now) || (d.status == Processing && d.lease.Some? && d.lease.value.expiresAt <= now)
  }

  function Claim(l: Ledger, revision: nat, lease: Id, now: int): Ledger
    requires revision in l.deliveries
  {
    var d := l.deliveries[revision];
    l.(deliveries := l.deliveries[revision := d.(status := Processing, attempts := d.attempts + 1, lease := Some(Lease(lease, now + 30_000)))])
  }

  function Pow2(n: nat): nat {
    if n == 0 then 1 else 2 * Pow2(n - 1)
  }

  function Min(a: int, b: int): int {
    if a <= b then a else b
  }

  function DelaySeconds(attempts: nat): int {
    Min(3600, Pow2(if attempts <= 11 then attempts else 11))
  }

  predicate Holds(d: Delivery, lease: Id) {
    d.status == Processing && d.lease.Some? && d.lease.value.id == lease
  }

  function Settled(g: Config, d: Delivery, delivered: bool, retryable: bool, now: int): Delivery {
    if delivered then d.(status := Delivered, deliveredAt := Some(now), lease := None)
    else if retryable && d.attempts < g.maxAttempts then
      d.(status := Waiting, nextAttemptAt := now + DelaySeconds(d.attempts) * 1000, deliveredAt := None, lease := None)
    else d.(status := Dead, deliveredAt := None, lease := None)
  }

  // Only the holder of the current lease can settle a delivery.
  function Finish(g: Config, l: Ledger, revision: nat, lease: Id, delivered: bool, retryable: bool, now: int): (Ledger, Option<Status>) {
    if revision in l.deliveries && Holds(l.deliveries[revision], lease) then
      var d := Settled(g, l.deliveries[revision], delivered, retryable, now);
      (l.(deliveries := l.deliveries[revision := d]), Some(d.status))
    else (l, None)
  }

  function Redrive(l: Ledger, revision: nat, now: int): (Ledger, bool) {
    if revision in l.deliveries && l.deliveries[revision].status == Dead then
      var d := l.deliveries[revision].(status := Waiting, attempts := 0, nextAttemptAt := now, deliveredAt := None, lease := None);
      (l.(deliveries := l.deliveries[revision := d]), true)
    else (l, false)
  }

  // Whether the current revision is known to be anchored.
  ghost function Acknowledged(g: Config, l: Ledger): Result<bool, Failure> {
    if !Verified(g, l, false) || !ChainVerified(g, l) then Err(Integrity)
    else if l.manifest.revision == 0 then Ok(false)
    else Ok(l.deliveries[l.manifest.revision].status == Delivered)
  }
}
