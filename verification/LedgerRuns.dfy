/**
 What every transaction of the ledger keeps, and what holds over whole runs of them:
 the manifest always matches the rows, checkpoints only move forward, and each
 reservation goes through its life once.
 */
module LedgerRuns {
  import opened Common
  import opened Accumulators
  import opened ActionLedger

  // ----- The invariant -----

  ghost predicate UniqueIds(rows: map<Hash, Row>) {
    forall j, k :: j in rows && k in rows && rows[j].reservation.id == rows[k].reservation.id ==> j == k
  }

  ghost predicate OneRecordEach(records: seq<RecordRow>) {
    forall i, j :: 0 <= i < j < |records| ==> records[i].record.reservationId != records[j].record.reservationId
  }

  // A queued delivery carries the checkpoint of its own revision, whatever its status.
  ghost predicate Faithful(g: Config, revision: nat, d: Delivery) {
    var c := d.payload.checkpoint;
    && d.revision == revision == c.body.revision && c.body.tenantRef == TenantRef(g)
    && c.hash == g.hashes.checkpoint(c.body) == d.checkpointHash
    && d.payload == EventOf(g, c)
    && (d.status == Processing <==> d.lease.Some?)
  }

  ghost predicate Outbox(g: Config, l: Ledger) {
    && (forall r: nat :: r in l.deliveries <==> 1 <= r <= l.manifest.revision)
    && (forall r: nat :: r in l.deliveries ==> Faithful(g, r, l.deliveries[r]))
    && (l.manifest.revision > 0 ==> l.deliveries[l.manifest.revision].payload.checkpoint == CheckpointOf(g, l.manifest))
  }

  ghost predicate Inv(g: Config, l: Ledger) {
    && RowsVerified(g, l) && UniqueIds(l.rows)
    && ChainVerified(g, l) && l.chain.revision == |l.records| && OneRecordEach(l.records)
    && Outbox(g, l)
  }

  // ----- Transactions as data -----

  datatype Op =
    | OpReserve(key: string, fingerprint: Hash, meta: Metadata, h: Host)
    | OpTransition(key: string, fingerprint: Hash, operation: Operation, h: Host)
    | OpReconcile(q: Request, h: Host)
    | OpClaim(revision: nat, lease: Id, now: int)
    | OpFinish(revision: nat, lease: Id, delivered: bool, retryable: bool, now: int)
    | OpRedrive(revision: nat, now: int)

  // Reservation ids are drawn fresh; a dispatcher claims what the query for due deliveries returns.
  ghost predicate Allowed(l: Ledger, op: Op) {
    match op
    case OpReserve(_, _, _, h) => forall k :: k in l.rows ==> l.rows[k].reservation.id != h.id
    case OpClaim(revision, _, now) => revision in l.deliveries && Claimable(l.deliveries[revision], now)
    case _ => true
  }

  ghost function Apply(g: Config, l: Ledger, op: Op): Ledger
    requires Allowed(l, op)
  {
    match op
    case OpReserve(key, fingerprint, meta, h) => Reserve(g, l, key, fingerprint, meta, h).0
    case OpTransition(key, fingerprint, operation, h) => Transition(g, l, key, fingerprint, operation, h).0
    case OpReconcile(q, h) => Reconcile(g, l, q, h).0
    case OpClaim(revision, lease, now) => Claim(l, revision, lease, now)
    case OpFinish(revision, lease, delivered, retryable, now) => Finish(g, l, revision, lease, delivered, retryable, now).0
    case OpRedrive(revision, now) => Redrive(l, revision, now).0
  }

  ghost predicate RunFrom(g: Config, l: Ledger, ops: seq<Op>, end: Ledger)
    decreases |ops|
  {
    if ops == [] then end == l
    else Allowed(l, ops[0]) && RunFrom(g, Apply(g, l, ops[0]), ops[1..], end)
  }

  // ----- How one transaction may change a ledger -----

  // Deliveries keep their payload, and a delivered one stays delivered.
  ghost predicate OutboxGrows(l: Ledger, m: Ledger) {
    forall r: nat :: r in l.deliveries ==>
      r in m.deliveries && m.deliveries[r].payload == l.deliveries[r].payload
      && (l.deliveries[r].status == Delivered ==> m.deliveries[r].status == Delivered)
  }

  // Either the manifest stands still, or it is written once.
  ghost predicate Moves(l: Ledger, m: Ledger) {
    && OutboxGrows(l, m)
    && l.records <= m.records
    && ((m.manifest == l.manifest && m.rows == l.rows && m.records == l.records) || m.manifest.revision == l.manifest.revision + 1)
    && (forall k :: k in l.rows && l.rows[k].reservation.state == Completed ==> k in m.rows && m.rows[k] == l.rows[k])
  }

  lemma InitialInv(g: Config, createdAt: int)
    ensures Inv(g, Initial(createdAt))
  {
    assert Members(g, map[]) == map[];
  }

  // A manifest write succeeds, and queues the delivery of the new revision behind the old ones.
  lemma WriteKeeps(g: Config, l: Ledger, m: Ledger, accumulator: Digest, rowCount: int, h: Host)
    requires Outbox(g, l) && m.manifest == l.manifest && m.deliveries == l.deliveries
    ensures var w := WriteManifest(g, m, accumulator, rowCount, h);
      && w.Some? && Outbox(g, w.value) && OutboxGrows(l, w.value)
      && w.value.rows == m.rows && w.value.records == m.records && w.value.chain == m.chain
      && w.value.manifest == Manifest(l.manifest.revision + 1, rowCount, accumulator, h.written)
  {
  }

  lemma AddKeeps(g: Config, l: Ledger, k: Hash, row: Row)
    requires RowsVerified(g, l) && k !in l.rows && row.control == Control(g, k, row.reservation)
    ensures var rows := l.rows[k := row];
      && (forall j :: j in rows ==> rows[j].control == Control(g, j, rows[j].reservation))
      && |rows| == l.manifest.rowCount + 1
      && Total(Members(g, rows)) == Xor(l.manifest.accumulator, MemberOf(g, k, row))
  {
    var rows := l.rows[k := row];
    assert Members(g, rows) == Members(g, l.rows)[k := MemberOf(g, k, row)];
    TotalAdds(Members(g, l.rows), k, MemberOf(g, k, row));
  }

  lemma RemoveKeeps(g: Config, l: Ledger, k: Hash)
    requires RowsVerified(g, l) && k in l.rows
    ensures var rows := l.rows - {k};
      && (forall j :: j in rows ==> rows[j].control == Control(g, j, rows[j].reservation))
      && |rows| == l.manifest.rowCount - 1
      && Total(Members(g, rows)) == Xor(l.manifest.accumulator, MemberOf(g, k, l.rows[k]))
  {
    assert Members(g, l.rows - {k}) == Members(g, l.rows) - {k};
    TotalRemoves(Members(g, l.rows), k);
    Smaller(l.rows, k);
  }

  lemma ReplaceKeeps(g: Config, l: Ledger, k: Hash, row: Row)
    requires RowsVerified(g, l) && k in l.rows && row.control == Control(g, k, row.reservation)
    ensures var rows := l.rows[k := row];
      && (forall j :: j in rows ==> rows[j].control == Control(g, j, rows[j].reservation))
      && |rows| == l.manifest.rowCount
      && Total(Members(g, rows)) == Xor(Xor(l.manifest.accumulator, MemberOf(g, k, l.rows[k])), MemberOf(g, k, row))
  {
    var rows := l.rows[k := row];
    assert rows.Keys == l.rows.Keys;
    assert Members(g, rows) == Members(g, l.rows)[k := MemberOf(g, k, row)];
    TotalReplaces(Members(g, l.rows), k, MemberOf(g, k, row));
  }

  // Removing a pending row, after a change to the reconciliation records or none.
  lemma RemoveStep(g: Config, l: Ledger, m: Ledger, k: Hash, h: Host)
    requires Inv(g, l) && k in l.rows && l.rows[k].reservation.state == Pending
    requires m.rows == l.rows && m.manifest == l.manifest && m.deliveries == l.deliveries
    ensures var w := Remove(g, m, k, h);
      && w.Some? && RowsVerified(g, w.value) && UniqueIds(w.value.rows) && Outbox(g, w.value) && OutboxGrows(l, w.value)
      && w.value.records == m.records && w.value.chain == m.chain && w.value.rows == l.rows - {k}
      && w.value.manifest.revision == l.manifest.revision + 1
  {
    RemoveKeeps(g, l, k);
    WriteKeeps(g, l, m.(rows := l.rows - {k}), Xor(l.manifest.accumulator, MemberOf(g, k, l.rows[k])), l.manifest.rowCount - 1, h);
  }

  lemma SameIdUnique(rows: map<Hash, Row>, k: Hash, row: Row)
    requires UniqueIds(rows) && k in rows && row.reservation.id == rows[k].reservation.id
    ensures UniqueIds(rows[k := row])
  {
  }

  lemma FinalizeStep(g: Config, l: Ledger, m: Ledger, k: Hash, at: int, h: Host)
    requires Inv(g, l) && k in l.rows && l.rows[k].reservation.state == Pending
    requires m.rows == l.rows && m.manifest == l.manifest && m.deliveries == l.deliveries
    ensures var w := Finalize(g, m, k, at, h);
      && w.Some? && RowsVerified(g, w.value) && UniqueIds(w.value.rows) && Outbox(g, w.value) && OutboxGrows(l, w.value)
      && w.value.records == m.records && w.value.chain == m.chain
      && w.value.rows == l.rows[k := w.value.rows[k]] && w.value.rows[k].reservation == l.rows[k].reservation.(state := Completed, updatedAt := at)
      && w.value.manifest.revision == l.manifest.revision + 1
  {
    hide WriteManifest, Outbox, OutboxGrows, UniqueIds, MemberOf;
    var done := l.rows[k].reservation.(state := Completed, updatedAt := at);
    var row := Row(done, Control(g, k, done));
    SameIdUnique(l.rows, k, row);
    ReplaceKeeps(g, l, k, row);
    var accumulator := Xor(Xor(l.manifest.accumulator, MemberOf(g, k, l.rows[k])), MemberOf(g, k, row));
    WriteKeeps(g, l, m.(rows := l.rows[k := row]), accumulator, l.manifest.rowCount, h);
  }

  lemma ChainAppends(g: Config, records: seq<RecordRow>, row: RecordRow)
    requires Chained(g, records) && row.record.previous == Tip(records) && row.hash == g.hashes.record(g.tenant, row.record)
    ensures Chained(g, records + [row]) && Tip(records + [row]) == row.hash
  {
    var longer := records + [row];
    forall i | 0 <= i < |longer|
      ensures longer[i].record.previous == PreviousHash(longer, i) && longer[i].hash == g.hashes.record(g.tenant, longer[i].record)
    {
      assert PreviousHash(longer, i) == PreviousHash(records, i);
      if i < |records| { assert longer[i] == records[i]; }
    }
  }

  lemma RecordsAppend(records: seq<RecordRow>, row: RecordRow)
    requires OneRecordEach(records) && FindRecord(records, row.record.reservationId).None?
    ensures OneRecordEach(records + [row]) && records <= records + [row]
  {
  }

  lemma AppendKeeps(g: Config, l: Ledger, r: Record)
    requires ChainVerified(g, l) && r.previous == l.chain.tip && l.chain.revision == |l.records| && OneRecordEach(l.records)
    requires FindRecord(l.records, r.reservationId).None?
    ensures var m := AppendRecord(g, l, r);
      ChainVerified(g, m) && m.chain.revision == |m.records| && OneRecordEach(m.records) && l.records <= m.records
  {
    hide Chained, Tip, FindRecord, OneRecordEach;
    var row := RecordRow(r, g.hashes.record(g.tenant, r));
    ChainAppends(g, l.records, row);
    RecordsAppend(l.records, row);
  }

  ghost function FreshRow(g: Config, k: Hash, fingerprint: Hash, meta: Metadata, h: Host): Row {
    var r := Reservation(fingerprint, Pending, h.id, meta.audit, meta.tool, meta.environment, h.now, h.now);
    Row(r, Control(g, k, r))
  }

  lemma AddStep(g: Config, l: Ledger, k: Hash, row: Row, h: Host)
    requires Inv(g, l) && k !in l.rows && row.control == Control(g, k, row.reservation)
    requires forall j :: j in l.rows ==> l.rows[j].reservation.id != row.reservation.id
    ensures var w := WriteManifest(g, l.(rows := l.rows[k := row]), Xor(l.manifest.accumulator, MemberOf(g, k, row)), l.manifest.rowCount + 1, h);
      && w.Some? && RowsVerified(g, w.value) && UniqueIds(w.value.rows) && Outbox(g, w.value) && OutboxGrows(l, w.value)
      && w.value.records == l.records && w.value.chain == l.chain && w.value.rows == l.rows[k := row]
      && w.value.manifest.revision == l.manifest.revision + 1
  {
    AddKeeps(g, l, k, row);
    WriteKeeps(g, l, l.(rows := l.rows[k := row]), Xor(l.manifest.accumulator, MemberOf(g, k, row)), l.manifest.rowCount + 1, h);
  }

  // ----- Every transaction keeps the invariant -----

  // Untampered rows pass verification; only a dead delivery of the current revision refuses.
  predicate CurrentDead(l: Ledger) {
    l.manifest.revision in l.deliveries && l.deliveries[l.manifest.revision].status == Dead
  }

  lemma InvVerifies(g: Config, l: Ledger)
    requires Inv(g, l)
    ensures Verified(g, l, true) && ChainVerified(g, l) && Covered(g, l, true)
    ensures Verified(g, l, false) <==> !CurrentDead(l)
    ensures Covered(g, l, false) <==> !CurrentDead(l)
  {
  }

  lemma ReserveKeeps(g: Config, l: Ledger, key: string, fingerprint: Hash, meta: Metadata, h: Host)
    requires Inv(g, l) && Allowed(l, OpReserve(key, fingerprint, meta, h))
    ensures var (m, r) := Reserve(g, l, key, fingerprint, meta, h); var k := g.hashes.keyHash(g.tenant, key);
      Inv(g, m) && Moves(l, m) && m.records == l.records && (r == Refused <==> CurrentDead(l))
    ensures var (m, r) := Reserve(g, l, key, fingerprint, meta, h); var k := g.hashes.keyHash(g.tenant, key);
      r.New? ==> k !in l.rows && k in m.rows && m.rows == l.rows[k := m.rows[k]] && m.rows[k].reservation.state == Pending
                 && r.revision == m.manifest.revision == l.manifest.revision + 1
    ensures var (m, r) := Reserve(g, l, key, fingerprint, meta, h); var k := g.hashes.keyHash(g.tenant, key);
      !r.New? ==> m == l && (r != Refused ==> k in l.rows)
  {
    hide Verified, WriteManifest, CurrentDead, MemberOf, Outbox, OutboxGrows, RowsVerified, UniqueIds;
    InvVerifies(g, l);
    StandsStill(l);
    var k := g.hashes.keyHash(g.tenant, key);
    if k !in l.rows {
      AddStep(g, l, k, FreshRow(g, k, fingerprint, meta, h), h);
    }
  }

  lemma TransitionKeeps(g: Config, l: Ledger, key: string, fingerprint: Hash, operation: Operation, h: Host)
    requires Inv(g, l)
    ensures var (m, r) := Transition(g, l, key, fingerprint, operation, h);
      Inv(g, m) && Moves(l, m) && m.records == l.records && (r.Err? ==> m == l)
    ensures var (m, r) := Transition(g, l, key, fingerprint, operation, h); var k := g.hashes.keyHash(g.tenant, key);
      r.Ok? ==> k in l.rows && l.rows[k].reservation.state == Pending && r.value == m.manifest.revision == l.manifest.revision + 1
    ensures var (m, r) := Transition(g, l, key, fingerprint, operation, h); var k := g.hashes.keyHash(g.tenant, key);
      r.Ok? ==> if operation == Release then m.rows == l.rows - {k} else k in m.rows && m.rows == l.rows[k := m.rows[k]]
  {
    hide Verified, Remove, Finalize, Outbox, OutboxGrows, RowsVerified, UniqueIds;
    StandsStill(l);
    var k := g.hashes.keyHash(g.tenant, key);
    if k in l.rows && l.rows[k].reservation.state == Pending {
      if operation == Release {
        RemoveStep(g, l, l, k, h);
      } else {
        FinalizeStep(g, l, l, k, h.now, h);
      }
    }
  }

  // What a reconciliation that is not a retry does.
  lemma ReconcileStep(g: Config, l: Ledger, q: Request, h: Host, k: Hash)
    requires Inv(g, l) && FindRecord(l.records, q.reservationId).None?
    requires k in l.rows && l.rows[k].reservation.state == Pending && Described(l.rows[k].reservation)
    ensures var recorded := AppendRecord(g, l, RecordFor(g, l, k, q, h));
      var w := if q.verdict == ConfirmedNotExecuted then Remove(g, recorded, k, h) else Finalize(g, recorded, k, h.now, h);
      && w.Some? && Inv(g, w.value) && Moves(l, w.value)
      && w.value.records == l.records + [RecordRow(RecordFor(g, l, k, q, h), g.hashes.record(g.tenant, RecordFor(g, l, k, q, h)))]
      && w.value.manifest.revision == l.manifest.revision + 1
      && if q.verdict == ConfirmedNotExecuted then w.value.rows == l.rows - {k} else k in w.value.rows && w.value.rows == l.rows[k := w.value.rows[k]]
  {
    var r := RecordFor(g, l, k, q, h);
    AppendKeeps(g, l, r);
    var recorded := AppendRecord(g, l, r);
    if q.verdict == ConfirmedNotExecuted {
      RemoveStep(g, l, recorded, k, h);
    } else {
      FinalizeStep(g, l, recorded, k, h.now, h);
    }
  }

  lemma ReconcileKeeps(g: Config, l: Ledger, q: Request, h: Host)
    requires Inv(g, l)
    ensures var (m, r) := Reconcile(g, l, q, h); Inv(g, m) && Moves(l, m) && (r.Err? ==> m == l)
    ensures var (m, r) := Reconcile(g, l, q, h);
      r.Ok? ==> FindRecord(m.records, q.reservationId) == Some(r.value)
                && r.value.record.verdict == q.verdict && r.value.record.evidence == g.hashes.evidence(g.tenant, q.evidence)
    ensures var (m, r) := Reconcile(g, l, q, h); Reconciled(l, m, r, q)
  {
    hide Verified, Remove, Finalize, Inv, AppendRecord, Moves;
    var (m, r) := Reconcile(g, l, q, h);
    InvVerifies(g, l);
    StandsStill(l);
    if FindRecord(l.records, q.reservationId).None? {
      var found := FindPending(l.rows, q.reservationId);
      if found.Some? && Described(l.rows[found.value].reservation) {
        ReconcileStep(g, l, q, h, found.value);
        var record := RecordFor(g, l, found.value, q, h);
        FindAppended(l.records, RecordRow(record, g.hashes.record(g.tenant, record)));
      }
    }
  }

  lemma StandsStill(l: Ledger)
    ensures Moves(l, l)
  {
  }

  // A reconciliation that adds a record settles the pending row the record names; any other changes nothing.
  ghost predicate Reconciled(l: Ledger, m: Ledger, r: Result<RecordRow, Failure>, q: Request) {
    if r.Ok? && |m.records| > |l.records| then
      var k := r.value.record.keyHash;
      && m.records == l.records + [r.value] && m.manifest.revision == l.manifest.revision + 1 && k in l.rows
      && if q.verdict == ConfirmedNotExecuted then m.rows == l.rows - {k} else k in m.rows && m.rows == l.rows[k := m.rows[k]]
    else m == l
  }

  lemma {:induction false} FindAppended(records: seq<RecordRow>, row: RecordRow)
    ensures var id := row.record.reservationId;
      FindRecord(records + [row], id) == if FindRecord(records, id).Some? then FindRecord(records, id) else Some(row)
  {
    if records == [] {
      assert records + [row] == [row];
    } else {
      FindAppended(records[1..], row);
      assert (records + [row])[1..] == records[1..] + [row];
    }
  }

  // A record that was found is found in every longer chain.
  lemma {:induction false} FindStays(records: seq<RecordRow>, longer: seq<RecordRow>, id: Id)
    requires records <= longer && FindRecord(records, id).Some?
    ensures FindRecord(longer, id) == FindRecord(records, id)
  {
    if records[0].record.reservationId != id {
      FindStays(records[1..], longer[1..], id);
    }
  }

  // Changing the status of one delivery, but not of a delivered one.
  lemma UpdateKeeps(g: Config, l: Ledger, revision: nat, d: Delivery)
    requires Inv(g, l) && revision in l.deliveries && Faithful(g, revision, d) && d.payload == l.deliveries[revision].payload
    requires l.deliveries[revision].status == Delivered ==> d.status == Delivered
    ensures var m := l.(deliveries := l.deliveries[revision := d]); Inv(g, m) && Moves(l, m)
  {
    hide RowsVerified, Chained, Faithful;
    var m := l.(deliveries := l.deliveries[revision := d]);
    assert RowsVerified(g, m) by { SameRows(g, l, m); }
  }

  lemma SameRows(g: Config, l: Ledger, m: Ledger)
    requires RowsVerified(g, l) && m.rows == l.rows && m.manifest == l.manifest
    ensures RowsVerified(g, m)
  {
  }

  lemma DeliveryStepsKeep(g: Config, l: Ledger, op: Op)
    requires Inv(g, l) && Allowed(l, op) && (op.OpClaim? || op.OpFinish? || op.OpRedrive?)
    ensures var m := Apply(g, l, op); Inv(g, m) && Moves(l, m) && m == l.(deliveries := m.deliveries)
  {
    hide RowsVerified, ChainVerified, UniqueIds, OneRecordEach, Moves;
    StandsStill(l);
    var m := Apply(g, l, op);
    if op.revision in l.deliveries && m != l {
      UpdateKeeps(g, l, op.revision, m.deliveries[op.revision]);
    }
  }

  lemma StepKeeps(g: Config, l: Ledger, op: Op)
    requires Inv(g, l) && Allowed(l, op)
    ensures Inv(g, Apply(g, l, op)) && Moves(l, Apply(g, l, op))
  {
    match op
    case OpReserve(key, fingerprint, meta, h) => ReserveKeeps(g, l, key, fingerprint, meta, h);
    case OpTransition(key, fingerprint, operation, h) => TransitionKeeps(g, l, key, fingerprint, operation, h);
    case OpReconcile(q, h) => ReconcileKeeps(g, l, q, h);
    case _ => DeliveryStepsKeep(g, l, op);
  }

  // Only a dispatcher that reports success makes a delivery delivered.
  ghost predicate NoneDelivered(l: Ledger, m: Ledger) {
    forall r: nat :: r in m.deliveries && m.deliveries[r].status == Delivered ==> r in l.deliveries && l.deliveries[r].status == Delivered
  }

  lemma WriteDeliversNone(g: Config, l: Ledger, m: Ledger, accumulator: Digest, rowCount: int, h: Host)
    requires m.deliveries == l.deliveries
    ensures var w := WriteManifest(g, m, accumulator, rowCount, h); w.Some? ==> NoneDelivered(l, w.value)
  {
  }

  lemma RemoveDeliversNone(g: Config, l: Ledger, m: Ledger, k: Hash, h: Host)
    requires k in m.rows && m.deliveries == l.deliveries
    ensures var w := Remove(g, m, k, h); w.Some? ==> NoneDelivered(l, w.value)
    ensures forall at :: var w := Finalize(g, m, k, at, h); w.Some? ==> NoneDelivered(l, w.value)
  {
    hide WriteManifest, NoneDelivered;
    WriteDeliversNone(g, l, m.(rows := m.rows - {k}), Xor(m.manifest.accumulator, MemberOf(g, k, m.rows[k])), m.manifest.rowCount - 1, h);
    forall at ensures var w := Finalize(g, m, k, at, h); w.Some? ==> NoneDelivered(l, w.value) {
      var done := m.rows[k].reservation.(state := Completed, updatedAt := at);
      var row := Row(done, Control(g, k, done));
      var accumulator := Xor(Xor(m.manifest.accumulator, MemberOf(g, k, m.rows[k])), MemberOf(g, k, row));
      WriteDeliversNone(g, l, m.(rows := m.rows[k := row]), accumulator, m.manifest.rowCount, h);
    }
  }

  lemma OthersDeliverNone(g: Config, l: Ledger, op: Op)
    requires Allowed(l, op) && !(op.OpFinish? && op.delivered)
    ensures NoneDelivered(l, Apply(g, l, op))
  {
    hide Verified, ChainVerified, WriteManifest, Remove, Finalize;
    match op
    case OpReserve(key, fingerprint, meta, h) =>
      var k := g.hashes.keyHash(g.tenant, key);
      var row := FreshRow(g, k, fingerprint, meta, h);
      WriteDeliversNone(g, l, l.(rows := l.rows[k := row]), Xor(l.manifest.accumulator, MemberOf(g, k, row)), l.manifest.rowCount + 1, h);
    case OpTransition(key, _, _, h) =>
      var k := g.hashes.keyHash(g.tenant, key);
      if k in l.rows { RemoveDeliversNone(g, l, l, k, h); }
    case OpReconcile(q, h) =>
      var found := FindPending(l.rows, q.reservationId);
      if found.Some? && Described(l.rows[found.value].reservation) {
        RemoveDeliversNone(g, l, AppendRecord(g, l, RecordFor(g, l, found.value, q, h)), found.value, h);
      }
    case _ =>
  }

  // ----- Whole runs -----

  // The manifest is older than another, or they are one and the same.
  ghost predicate Behind(l: Ledger, m: Ledger) {
    && OutboxGrows(l, m) && l.records <= m.records
    && (l.manifest == m.manifest || l.manifest.revision < m.manifest.revision)
    && (forall k :: k in l.rows && l.rows[k].reservation.state == Completed ==> k in m.rows && m.rows[k] == l.rows[k])
  }

  lemma {:induction false} RunKeeps(g: Config, l: Ledger, ops: seq<Op>, end: Ledger)
    requires Inv(g, l) && RunFrom(g, l, ops, end)
    ensures Inv(g, end) && Behind(l, end)
    decreases |ops|
  {
    if ops != [] {
      StepKeeps(g, l, ops[0]);
      RunKeeps(g, Apply(g, l, ops[0]), ops[1..], end);
    }
  }

  // In every run the rows match the manifest, in whatever order they are folded.
  lemma ManifestMatchesRows(g: Config, createdAt: int, ops: seq<Op>, end: Ledger, order: seq<Hash>)
    requires RunFrom(g, Initial(createdAt), ops, end) && Enumerates(order, end.rows.Keys)
    ensures |end.rows| == end.manifest.rowCount
    ensures Fold(Members(g, end.rows), order) == end.manifest.accumulator
    ensures ChainVerified(g, end) && OneRecordEach(end.records)
    ensures Verified(g, end, true)
  {
    InitialInv(g, createdAt);
    RunKeeps(g, Initial(createdAt), ops, end);
    assert Members(g, end.rows).Keys == end.rows.Keys;
    AnyOrder(Members(g, end.rows), order);
  }

  // A checkpoint taken earlier in a run later compares as the same or as advanced, never otherwise:
  // the same exactly when the manifest was not written in between.
  lemma EarlierCheckpoint(g: Config, l: Ledger, ops: seq<Op>, end: Ledger)
    requires Inv(g, l) && RunFrom(g, l, ops, end)
    ensures var compared := CompareCheckpoint(g, end, CheckpointOf(g, l.manifest));
      && (compared.Ok? <==> Covered(g, end, false))
      && (compared.Ok? ==> compared.value == if end.manifest == l.manifest then Same else Advanced)
  {
    RunKeeps(g, l, ops, end);
  }

  // ----- Lifecycle of a reservation -----

  // What a transaction's answer says happened to key hash k: granted, given back, or neither.
  ghost function Delta(g: Config, l: Ledger, op: Op, k: Hash): int
    requires Allowed(l, op)
  {
    match op
    case OpReserve(key, fingerprint, meta, h) =>
      if Reserve(g, l, key, fingerprint, meta, h).1.New? && g.hashes.keyHash(g.tenant, key) == k then 1 else 0
    case OpTransition(key, fingerprint, operation, h) =>
      if Transition(g, l, key, fingerprint, operation, h).1.Ok? && operation == Release && g.hashes.keyHash(g.tenant, key) == k then -1 else 0
    case OpReconcile(q, h) =>
      var (m, r) := Reconcile(g, l, q, h);
      if r.Ok? && |m.records| > |l.records| && r.value.record.verdict == ConfirmedNotExecuted && r.value.record.keyHash == k then -1 else 0
    case _ => 0
  }

  ghost function Balance(g: Config, l: Ledger, ops: seq<Op>, end: Ledger, k: Hash): int
    requires RunFrom(g, l, ops, end)
    decreases |ops|
  {
    if ops == [] then 0 else Delta(g, l, ops[0], k) + Balance(g, Apply(g, l, ops[0]), ops[1..], end, k)
  }

  function Present(l: Ledger, k: Hash): int {
    if k in l.rows then 1 else 0
  }

  lemma StepBalances(g: Config, l: Ledger, op: Op, k: Hash)
    requires Inv(g, l) && Allowed(l, op)
    ensures Present(Apply(g, l, op), k) == Present(l, k) + Delta(g, l, op, k)
  {
    hide Inv, Moves, Reserve, Transition, Reconcile, Claim, Finish, Redrive;
    match op
    case OpReserve(key, fingerprint, meta, h) => ReserveKeeps(g, l, key, fingerprint, meta, h);
    case OpTransition(key, fingerprint, operation, h) => TransitionKeeps(g, l, key, fingerprint, operation, h);
    case OpReconcile(q, h) => ReconcileKeeps(g, l, q, h);
    case _ => DeliveryStepsKeep(g, l, op);
  }

  // For each key, grants minus releases minus not-executed reconciliations is 1 while it has a row and 0 otherwise.
  lemma {:induction false} Lifecycle(g: Config, l: Ledger, ops: seq<Op>, end: Ledger, k: Hash)
    requires Inv(g, l) && RunFrom(g, l, ops, end)
    ensures Present(end, k) == Present(l, k) + Balance(g, l, ops, end, k)
    decreases |ops|
  {
    if ops != [] {
      StepKeeps(g, l, ops[0]);
      StepBalances(g, l, ops[0], k);
      Lifecycle(g, Apply(g, l, ops[0]), ops[1..], end, k);
    }
  }

  // A completed reservation stays as it is for good, and its key is never granted again.
  lemma CompletedForGood(g: Config, l: Ledger, ops: seq<Op>, end: Ledger, key: string, fingerprint: Hash, meta: Metadata, h: Host)
    requires Inv(g, l) && RunFrom(g, l, ops, end)
    requires var k := g.hashes.keyHash(g.tenant, key); k in l.rows && l.rows[k].reservation.state == Completed
    ensures var k := g.hashes.keyHash(g.tenant, key); k in end.rows && end.rows[k] == l.rows[k]
    ensures !Reserve(g, end, key, fingerprint, meta, h).1.New?
    ensures forall operation :: Transition(g, end, key, fingerprint, operation, h).1.Err?
  {
    RunKeeps(g, l, ops, end);
  }

  // Retrying a reconciliation later in the run returns the record the first call returned, and changes nothing.
  lemma RetryReturnsRecord(g: Config, l: Ledger, q: Request, h: Host, ops: seq<Op>, end: Ledger, later: Host)
    requires Inv(g, l) && Reconcile(g, l, q, h).1.Ok?
    requires RunFrom(g, Reconcile(g, l, q, h).0, ops, end)
    ensures Covered(g, end, false) ==> Reconcile(g, end, q, later) == (end, Reconcile(g, l, q, h).1)
  {
    hide Inv, Verified;
    ReconcileKeeps(g, l, q, h);
    var m := Reconcile(g, l, q, h).0;
    InvVerifies(g, end) by { RunKeeps(g, m, ops, end); }
    RunKeeps(g, m, ops, end);
    FindStays(m.records, end.records, q.reservationId);
  }

  // ----- Attempts -----

  // Deliveries stay as they are, and new ones wait with no attempt made.
  ghost predicate OnlyFirst(l: Ledger, m: Ledger) {
    forall r: nat :: r in m.deliveries ==>
      (r in l.deliveries && m.deliveries[r] == l.deliveries[r]) || (m.deliveries[r].status == Waiting && m.deliveries[r].attempts == 0)
  }

  lemma WriteAddsFirst(g: Config, l: Ledger, m: Ledger, accumulator: Digest, rowCount: int, h: Host)
    requires m.deliveries == l.deliveries
    ensures var w := WriteManifest(g, m, accumulator, rowCount, h); w.Some? ==> OnlyFirst(l, w.value)
  {
    hide CheckpointOf, EventOf;
  }

  lemma SettlingAddsFirst(g: Config, l: Ledger, m: Ledger, k: Hash, at: int, h: Host)
    requires k in m.rows && m.deliveries == l.deliveries
    ensures var w := Remove(g, m, k, h); w.Some? ==> OnlyFirst(l, w.value)
    ensures var w := Finalize(g, m, k, at, h); w.Some? ==> OnlyFirst(l, w.value)
  {
    hide WriteManifest, OnlyFirst;
    WriteAddsFirst(g, l, m.(rows := m.rows - {k}), Xor(m.manifest.accumulator, MemberOf(g, k, m.rows[k])), m.manifest.rowCount - 1, h);
    var done := m.rows[k].reservation.(state := Completed, updatedAt := at);
    var row := Row(done, Control(g, k, done));
    var accumulator := Xor(Xor(m.manifest.accumulator, MemberOf(g, k, m.rows[k])), MemberOf(g, k, row));
    WriteAddsFirst(g, l, m.(rows := m.rows[k := row]), accumulator, m.manifest.rowCount, h);
  }

  lemma WritersAddFirst(g: Config, l: Ledger, op: Op)
    requires Allowed(l, op) && (op.OpReserve? || op.OpTransition? || op.OpReconcile?)
    ensures OnlyFirst(l, Apply(g, l, op))
  {
    hide Verified, ChainVerified, WriteManifest, Remove, Finalize;
    match op
    case OpReserve(key, fingerprint, meta, h) =>
      var k := g.hashes.keyHash(g.tenant, key);
      var row := FreshRow(g, k, fingerprint, meta, h);
      WriteAddsFirst(g, l, l.(rows := l.rows[k := row]), Xor(l.manifest.accumulator, MemberOf(g, k, row)), l.manifest.rowCount + 1, h);
    case OpTransition(key, _, _, h) =>
      var k := g.hashes.keyHash(g.tenant, key);
      if k in l.rows { SettlingAddsFirst(g, l, l, k, h.now, h); }
    case OpReconcile(q, h) =>
      var found := FindPending(l.rows, q.reservationId);
      if found.Some? && Described(l.rows[found.value].reservation) {
        SettlingAddsFirst(g, l, AppendRecord(g, l, RecordFor(g, l, found.value, q, h)), found.value, h.now, h);
      }
  }

  // A waiting delivery has attempts left.
  ghost predicate AttemptsLeft(g: Config, l: Ledger) {
    forall r: nat :: r in l.deliveries && l.deliveries[r].status == Waiting ==> l.deliveries[r].attempts < g.maxAttempts
  }

  lemma {:induction false} RunsLeaveAttempts(g: Config, l: Ledger, ops: seq<Op>, end: Ledger)
    requires g.maxAttempts >= 1 && AttemptsLeft(g, l) && RunFrom(g, l, ops, end)
    ensures AttemptsLeft(g, end)
    decreases |ops|
  {
    hide Reserve, Transition, Reconcile, DelaySeconds;
    if ops != [] {
      var op := ops[0];
      if op.OpReserve? || op.OpTransition? || op.OpReconcile? { WritersAddFirst(g, l, op); }
      RunsLeaveAttempts(g, Apply(g, l, op), ops[1..], end);
    }
  }

  // In every run the maximum is passed exactly by claiming a delivery whose lease expired with its attempts used up.
  lemma ClaimPassesMaximumExactly(g: Config, createdAt: int, ops: seq<Op>, l: Ledger, revision: nat, lease: Id, now: int)
    requires g.maxAttempts >= 1 && RunFrom(g, Initial(createdAt), ops, l) && Allowed(l, OpClaim(revision, lease, now))
    ensures Claim(l, revision, lease, now).deliveries[revision].attempts > g.maxAttempts <==>
      l.deliveries[revision].status == Processing && l.deliveries[revision].attempts >= g.maxAttempts
  {
    hide RunFrom;
    RunsLeaveAttempts(g, Initial(createdAt), ops, l);
  }

  lemma InitialVerifies(g: Config)
    ensures Verified(g, Initial(0), false) && ChainVerified(g, Initial(0))
  {
    assert Members(g, map[]) == map[];
  }

  lemma FirstReservation(g: Config, key: string, fingerprint: Hash, meta: Metadata, id: Id)
    ensures var l := Reserve(g, Initial(0), key, fingerprint, meta, Host(0, 0, id)).0;
      1 in l.deliveries && l.deliveries[1].status == Waiting && l.deliveries[1].attempts == 0 && l.deliveries[1].nextAttemptAt == 0
  {
    hide Verified, ChainVerified, MemberOf, CheckpointOf, EventOf;
    InitialVerifies(g);
  }

  // With a maximum of one attempt: a reservation, a dispatcher that dies holding its lease, and another one whose claim
  // is the second attempt.
  lemma LeaseExpiryPassesMaximum(g: Config, key: string, fingerprint: Hash, meta: Metadata, id: Id, lease: Id, again: Id)
    requires g.maxAttempts == 1
    ensures var ops := [OpReserve(key, fingerprint, meta, Host(0, 0, id)), OpClaim(1, lease, 0), OpClaim(1, again, 30_000)];
      exists end :: RunFrom(g, Initial(0), ops, end) && 1 in end.deliveries && end.deliveries[1].attempts == 2
  {
    hide Reserve;
    FirstReservation(g, key, fingerprint, meta, id);
    var a, b, c := OpReserve(key, fingerprint, meta, Host(0, 0, id)), OpClaim(1, lease, 0), OpClaim(1, again, 30_000);
    assert [a, b, c][1..] == [b, c] && [b, c][1..] == [c] && [c][1..] == [];
    var l := Apply(g, Initial(0), a);
    var m := Apply(g, l, b);
    var end := Apply(g, m, c);
    assert RunFrom(g, m, [c], end);
    assert RunFrom(g, l, [b, c], end);
    assert RunFrom(g, Initial(0), [a, b, c], end);
  }
}
