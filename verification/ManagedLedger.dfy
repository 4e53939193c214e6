/**
 The idempotency ledger of the managed server: the tables of all tenants in one SQLite
 file.  Rows, manifests and coverage are inspected in full only when another connection
 has committed since the last inspection.
 */
module ManagedLedger {
  import opened Common
  import opened Accumulators
  import opened ActionLedger
  import LedgerRuns

  type Tenant = nat
  type Book = map<Tenant, Ledger>
  type Configs = Tenant -> Config

  datatype Outcome = Reserved | SameExecution | OtherExecution

  // ----- Inspection -----

  // What a full inspection asks of every tenant: rows and manifest agree, and the current revision is queued.
  ghost predicate Inspected(g: Configs, b: Book) {
    forall t :: t in b ==> RowsVerified(g(t), b[t]) && Covered(g(t), b[t], true)
  }

  // ----- Transactions, with an inspection each -----

  // The next manifest; a delivery queued for its revision before is left as it is.
  function Write(g: Config, l: Ledger, accumulator: Digest, rowCount: int, at: int): Ledger {
    var next := Manifest(l.manifest.revision + 1, rowCount, accumulator, at);
    l.(manifest := next,
       deliveries := if next.revision in l.deliveries then l.deliveries else l.deliveries[next.revision := FirstDelivery(g, next)])
  }

  function Added(g: Config, l: Ledger, k: Hash, r: Reservation, at: int): Ledger {
    var row := Row(r, Control(g, k, r));
    Write(g, l.(rows := l.rows[k := row]), Xor(l.manifest.accumulator, MemberOf(g, k, row)), l.manifest.rowCount + 1, at)
  }

  function Completing(g: Config, l: Ledger, k: Hash, h: Host): Ledger
    requires k in l.rows
  {
    var done := l.rows[k].reservation.(state := Completed, updatedAt := h.now);
    var row := Row(done, Control(g, k, done));
    Write(g, l.(rows := l.rows[k := row]), Xor(Xor(l.manifest.accumulator, MemberOf(g, k, l.rows[k])), MemberOf(g, k, row)), l.manifest.rowCount, h.written)
  }

  function Releasing(g: Config, l: Ledger, k: Hash, h: Host): Ledger
    requires k in l.rows
  {
    Write(g, l.(rows := l.rows - {k}), Xor(l.manifest.accumulator, MemberOf(g, k, l.rows[k])), l.manifest.rowCount - 1, h.written)
  }

  ghost function ReserveIn(g: Configs, b: Book, t: Tenant, key: string, fingerprint: Hash, meta: Metadata, h: Host): (Book, Result<Outcome, Failure>)
    requires t in b
  {
    var k := g(t).hashes.keyHash(g(t).tenant, key);
    if !Inspected(g, b) then (b, Err(Integrity))
    else if k in b[t].rows then (b, Ok(if b[t].rows[k].reservation.fingerprint == fingerprint then SameExecution else OtherExecution))
    else
      var r := Reservation(fingerprint, Pending, h.id, meta.audit, meta.tool, meta.environment, h.now, h.now);
      (b[t := Added(g(t), b[t], k, r, h.written)], Ok(Reserved))
  }

  predicate Matches(l: Ledger, k: Hash, fingerprint: Hash) {
    k in l.rows && l.rows[k].reservation.fingerprint == fingerprint && l.rows[k].reservation.state == Pending
  }

  ghost function SettleIn(g: Configs, b: Book, t: Tenant, key: string, fingerprint: Hash, operation: Operation, h: Host): (Book, Result<nat, Failure>)
    requires t in b
  {
    var k := g(t).hashes.keyHash(g(t).tenant, key);
    if !Inspected(g, b) then (b, Err(Integrity))
    else if !Matches(b[t], k, fingerprint) then (b, Err(NotPending))
    else
      var l := if operation == Complete then Completing(g(t), b[t], k, h) else Releasing(g(t), b[t], k, h);
      (b[t := l], Ok(l.manifest.revision))
  }

  // ----- What a write does to an inspected book -----

  // The manifests that the writes leave, computed from the ledger before them.
  function AddedManifest(g: Config, l: Ledger, k: Hash, r: Reservation, at: int): Manifest {
    Manifest(l.manifest.revision + 1, l.manifest.rowCount + 1, Xor(l.manifest.accumulator, g.hashes.member(k, Control(g, k, r))), at)
  }

  function CompletedManifest(g: Config, l: Ledger, k: Hash, h: Host): Manifest
    requires k in l.rows
  {
    var done := l.rows[k].reservation.(state := Completed, updatedAt := h.now);
    Manifest(l.manifest.revision + 1, l.manifest.rowCount,
             Xor(Xor(l.manifest.accumulator, MemberOf(g, k, l.rows[k])), g.hashes.member(k, Control(g, k, done))), h.written)
  }

  function ReleasedManifest(g: Config, l: Ledger, k: Hash, h: Host): Manifest
    requires k in l.rows
  {
    Manifest(l.manifest.revision + 1, l.manifest.rowCount - 1, Xor(l.manifest.accumulator, MemberOf(g, k, l.rows[k])), h.written)
  }

  // The queue holds nothing for the next revision but, perhaps, a delivery of that very checkpoint.
  predicate SlotFree(g: Config, l: Ledger, next: Manifest) {
    next.revision !in l.deliveries || l.deliveries[next.revision].checkpointHash == CheckpointOf(g, next).hash
  }

  // After a write the current revision is queued with its own checkpoint exactly when the queue had nothing else for it.
  lemma WriteCovers(g: Config, l: Ledger, accumulator: Digest, rowCount: int, at: int)
    ensures var m := Write(g, l, accumulator, rowCount, at);
      Covered(g, m, true) <==> SlotFree(g, l, Manifest(l.manifest.revision + 1, rowCount, accumulator, at))
  {
  }

  lemma AddedRows(g: Config, l: Ledger, k: Hash, r: Reservation, at: int)
    requires RowsVerified(g, l) && k !in l.rows
    ensures RowsVerified(g, Added(g, l, k, r, at))
  {
    hide MemberOf, Members;
    LedgerRuns.AddKeeps(g, l, k, Row(r, Control(g, k, r)));
  }

  lemma CompletedRows(g: Config, l: Ledger, k: Hash, h: Host)
    requires RowsVerified(g, l) && k in l.rows
    ensures RowsVerified(g, Completing(g, l, k, h))
  {
    hide MemberOf, Members;
    var done := l.rows[k].reservation.(state := Completed, updatedAt := h.now);
    LedgerRuns.ReplaceKeeps(g, l, k, Row(done, Control(g, k, done)));
  }

  lemma ReleasedRows(g: Config, l: Ledger, k: Hash, h: Host)
    requires RowsVerified(g, l) && k in l.rows
    ensures RowsVerified(g, Releasing(g, l, k, h))
  {
    hide MemberOf, Members;
    LedgerRuns.RemoveKeeps(g, l, k);
  }

  // A transaction on an inspected book leaves it as an inspection would accept it, exactly when it writes nothing or the
  // queue of that tenant holds nothing else for the next revision; the condition speaks of the book before the call.
  lemma ReserveStaysInspected(g: Configs, b: Book, t: Tenant, key: string, fingerprint: Hash, meta: Metadata, h: Host)
    requires t in b && Inspected(g, b)
    ensures ReserveIn(g, b, t, key, fingerprint, meta, h).0.Keys == b.Keys
    ensures var k := g(t).hashes.keyHash(g(t).tenant, key);
      var r := Reservation(fingerprint, Pending, h.id, meta.audit, meta.tool, meta.environment, h.now, h.now);
      Inspected(g, ReserveIn(g, b, t, key, fingerprint, meta, h).0) <==>
        k in b[t].rows || SlotFree(g(t), b[t], AddedManifest(g(t), b[t], k, r, h.written))
  {
    hide RowsVerified, Covered, CheckpointOf, MemberOf, SlotFree, Write, Added, AddedManifest;
    var k := g(t).hashes.keyHash(g(t).tenant, key);
    if k !in b[t].rows {
      var r := Reservation(fingerprint, Pending, h.id, meta.audit, meta.tool, meta.environment, h.now, h.now);
      AddedRows(g(t), b[t], k, r, h.written);
      AddedCovers(g(t), b[t], k, r, h.written);
      OneTenant(g, b, t, Added(g(t), b[t], k, r, h.written));
    }
  }

  lemma SameSlot(g: Config, l: Ledger, m: Ledger, next: Manifest)
    requires l.deliveries == m.deliveries
    ensures SlotFree(g, l, next) == SlotFree(g, m, next)
  {
  }

  lemma AddedCovers(g: Config, l: Ledger, k: Hash, r: Reservation, at: int)
    ensures Covered(g, Added(g, l, k, r, at), true) <==> SlotFree(g, l, AddedManifest(g, l, k, r, at))
  {
    hide Covered, SlotFree, Write;
    var row := Row(r, Control(g, k, r));
    var m := l.(rows := l.rows[k := row]);
    WriteCovers(g, m, Xor(l.manifest.accumulator, MemberOf(g, k, row)), l.manifest.rowCount + 1, at);
    SameSlot(g, l, m, AddedManifest(g, l, k, r, at));
  }

  lemma OneTenant(g: Configs, b: Book, t: Tenant, l: Ledger)
    requires t in b && Inspected(g, b) && RowsVerified(g(t), l)
    ensures Inspected(g, b[t := l]) <==> Covered(g(t), l, true)
  {
    hide RowsVerified, Covered;
    var c := b[t := l];
    assert forall u :: u in c && u != t ==> c[u] == b[u];
    assert t in c && c[t] == l;
  }

  lemma SettleStaysInspected(g: Configs, b: Book, t: Tenant, key: string, fingerprint: Hash, operation: Operation, h: Host)
    requires t in b && Inspected(g, b)
    ensures SettleIn(g, b, t, key, fingerprint, operation, h).0.Keys == b.Keys
    ensures var k := g(t).hashes.keyHash(g(t).tenant, key);
      Inspected(g, SettleIn(g, b, t, key, fingerprint, operation, h).0) <==>
        !Matches(b[t], k, fingerprint)
        || SlotFree(g(t), b[t], if operation == Complete then CompletedManifest(g(t), b[t], k, h) else ReleasedManifest(g(t), b[t], k, h))
  {
    hide RowsVerified, Covered, CheckpointOf, MemberOf, SlotFree, Write, Completing, Releasing, CompletedManifest, ReleasedManifest;
    var k := g(t).hashes.keyHash(g(t).tenant, key);
    if Matches(b[t], k, fingerprint) {
      if operation == Complete {
        CompletedRows(g(t), b[t], k, h);
        CompletingCovers(g(t), b[t], k, h);
        OneTenant(g, b, t, Completing(g(t), b[t], k, h));
      } else {
        ReleasedRows(g(t), b[t], k, h);
        ReleasingCovers(g(t), b[t], k, h);
        OneTenant(g, b, t, Releasing(g(t), b[t], k, h));
      }
    }
  }

  lemma CompletingCovers(g: Config, l: Ledger, k: Hash, h: Host)
    requires k in l.rows
    ensures Covered(g, Completing(g, l, k, h), true) <==> SlotFree(g, l, CompletedManifest(g, l, k, h))
  {
    hide Covered, SlotFree, Write;
    var done := l.rows[k].reservation.(state := Completed, updatedAt := h.now);
    var row := Row(done, Control(g, k, done));
    var m := l.(rows := l.rows[k := row]);
    WriteCovers(g, m, Xor(Xor(l.manifest.accumulator, MemberOf(g, k, l.rows[k])), MemberOf(g, k, row)), l.manifest.rowCount, h.written);
    SameSlot(g, l, m, CompletedManifest(g, l, k, h));
  }

  lemma ReleasingCovers(g: Config, l: Ledger, k: Hash, h: Host)
    requires k in l.rows
    ensures Covered(g, Releasing(g, l, k, h), true) <==> SlotFree(g, l, ReleasedManifest(g, l, k, h))
  {
    hide Covered, SlotFree, Write, MemberOf;
    var m := l.(rows := l.rows - {k});
    WriteCovers(g, m, Xor(l.manifest.accumulator, MemberOf(g, k, l.rows[k])), l.manifest.rowCount - 1, h.written);
    SameSlot(g, l, m, ReleasedManifest(g, l, k, h));
  }

  // Nothing is queued beyond the current revision.
  ghost predicate QueueInOrder(b: Book) {
    forall t, revision :: t in b && revision in b[t].deliveries ==> revision <= b[t].manifest.revision
  }

  lemma EmptyInspected(g: Configs, at: int, bogus: Delivery)
    ensures Inspected(g, map[0 := Initial(at).(deliveries := map[1 := bogus])])
  {
    assert Members(g(0), map[]) == map[];
  }

  // A delivery queued ahead of its revision passes inspection, and the next write leaves a book that an inspection refuses,
  // while the cached verdict still stands, unless that delivery carries the hash of the very checkpoint written.
  lemma QueuedAheadFoolsCache(g: Configs, at: int, bogus: Delivery, key: string, fingerprint: Hash, meta: Metadata, h: Host)
    ensures var b: Book := map[0 := Initial(at).(deliveries := map[1 := bogus])];
      var (c, r) := ReserveIn(g, b, 0, key, fingerprint, meta, h);
      var k := g(0).hashes.keyHash(g(0).tenant, key);
      var reserved := Reservation(fingerprint, Pending, h.id, meta.audit, meta.tool, meta.environment, h.now, h.now);
      var next := Manifest(1, 1, Xor(ZERO, g(0).hashes.member(k, Control(g(0), k, reserved))), h.written);
      Inspected(g, b) && r == Ok(Reserved) && (Inspected(g, c) <==> bogus.checkpointHash == CheckpointOf(g(0), next).hash)
  {
    hide CheckpointOf, Inspected, Control, Added;
    var b: Book := map[0 := Initial(at).(deliveries := map[1 := bogus])];
    EmptyInspected(g, at, bogus);
    ReserveStaysInspected(g, b, 0, key, fingerprint, meta, h);
  }

  // ----- The store -----

  class ManagedStore {
    const g: Configs
    var book: Book
    var dataVersion: nat
    var observedDataVersion: nat

    // While no other connection has committed since, the book is one that a full inspection accepts.
    ghost predicate Valid()
      reads this
    {
      QueueInOrder(book) && observedDataVersion <= dataVersion && (observedDataVersion == dataVersion ==> Inspected(g, book))
    }

    constructor (g: Configs, tenants: set<Tenant>, at: int)
      ensures this.g == g && book == (map t | t in tenants :: Initial(at)) && Valid() && observedDataVersion == dataVersion
    {
      this.g := g;
      book := map t | t in tenants :: Initial(at);
      dataVersion, observedDataVersion := 0, 0;
      new;
      forall t | t in book ensures RowsVerified(g(t), book[t]) && Covered(g(t), book[t], true) {
        assert Members(g(t), map[]) == map[];
      }
    }

    // Another connection commits any change to rows, manifests or queued deliveries, short of queueing ahead.
    method CommitElsewhere(b: Book)
      requires Valid() && QueueInOrder(b)
      modifies this`book, this`dataVersion
      ensures Valid() && book == b && dataVersion == old(dataVersion) + 1
    {
      book := b;
      dataVersion := dataVersion + 1;
    }

    method InspectTenant(t: Tenant) returns (ok: bool)
      requires t in book
      ensures ok <==> RowsVerified(g(t), book[t]) && Covered(g(t), book[t], true)
    {
      hide Covered, MemberOf;
      var rows, manifest := book[t].rows, book[t].manifest;
      var accumulator := ZERO;
      var left := rows.Keys;
      ghost var done: map<Hash, Row> := map[];
      assert Members(g(t), done) == map[];
      while left != {}
        invariant left <= rows.Keys && done == rows - left
        invariant forall k :: k in done ==> rows[k].control == Control(g(t), k, rows[k].reservation)
        invariant accumulator == Total(Members(g(t), done))
        decreases left
      {
        var k :| k in left;
        if rows[k].control != Control(g(t), k, rows[k].reservation) { return false; }
        left := left - {k};
        assert rows - left == done[k := rows[k]];
        assert Members(g(t), done[k := rows[k]]) == Members(g(t), done)[k := MemberOf(g(t), k, rows[k])];
        TotalAdds(Members(g(t), done), k, MemberOf(g(t), k, rows[k]));
        accumulator := XorBuffers(accumulator, MemberOf(g(t), k, rows[k]));
        done := done[k := rows[k]];
      }
      assert done == rows;
      ok := |rows| == manifest.rowCount && accumulator == manifest.accumulator;
      if ok { ok := Covered(g(t), book[t], true); }
    }

    // Skips the inspection while no other connection has committed; its verdict is that of a full one.
    method AssertManifestFresh() returns (ok: bool)
      requires Valid()
      modifies this`observedDataVersion
      ensures Valid() && (ok <==> Inspected(g, book))
      ensures ok ==> observedDataVersion == dataVersion
      ensures !ok ==> observedDataVersion == old(observedDataVersion)
    {
      hide RowsVerified, Covered;
      if observedDataVersion == dataVersion { return true; }
      var left := book.Keys;
      while left != {}
        invariant left <= book.Keys && observedDataVersion == old(observedDataVersion)
        invariant forall t :: t in book && t !in left ==> RowsVerified(g(t), book[t]) && Covered(g(t), book[t], true)
        decreases left
      {
        var t :| t in left;
        var tenantOk := InspectTenant(t);
        if !tenantOk { return false; }
        left := left - {t};
      }
      observedDataVersion := dataVersion;
      return true;
    }

    // With or without an inspection of its own, a reservation does what one behind a full inspection does.
    method ReserveKey(t: Tenant, key: string, fingerprint: Hash, meta: Metadata, h: Host) returns (r: Result<Outcome, Failure>)
      requires Valid() && t in book
      modifies this
      ensures (book, r) == ReserveIn(g, old(book), t, key, fingerprint, meta, h)
      ensures Valid() && dataVersion == old(dataVersion)
    {
      hide RowsVerified, Covered, CheckpointOf, MemberOf, FirstDelivery, Inspected;
      var current := AssertManifestFresh();
      if !current { return Err(Integrity); }
      ReserveStaysInspected(g, book, t, key, fingerprint, meta, h);
      var k := g(t).hashes.keyHash(g(t).tenant, key);
      var l := book[t];
      if k in l.rows { return Ok(if l.rows[k].reservation.fingerprint == fingerprint then SameExecution else OtherExecution); }
      var reservation := Reservation(fingerprint, Pending, h.id, meta.audit, meta.tool, meta.environment, h.now, h.now);
      assert l.manifest.revision + 1 !in l.deliveries;
      book := book[t := Added(g(t), l, k, reservation, h.written)];
      return Ok(Reserved);
    }

    method SettleKey(t: Tenant, key: string, fingerprint: Hash, operation: Operation, h: Host) returns (r: Result<nat, Failure>)
      requires Valid() && t in book
      modifies this
      ensures (book, r) == SettleIn(g, old(book), t, key, fingerprint, operation, h)
      ensures Valid() && dataVersion == old(dataVersion)
    {
      hide RowsVerified, Covered, CheckpointOf, MemberOf, FirstDelivery, Inspected;
      var current := AssertManifestFresh();
      if !current { return Err(Integrity); }
      SettleStaysInspected(g, book, t, key, fingerprint, operation, h);
      var k := g(t).hashes.keyHash(g(t).tenant, key);
      var l := book[t];
      if !Matches(l, k, fingerprint) { return Err(NotPending); }
      assert l.manifest.revision + 1 !in l.deliveries;
      var updated := if operation == Complete then Completing(g(t), l, k, h) else Releasing(g(t), l, k, h);
      book := book[t := updated];
      return Ok(updated.manifest.revision);
    }
  }
}
