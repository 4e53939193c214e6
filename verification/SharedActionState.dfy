/**
 The ledger as the object that carries out its transactions: tables updated in
 place, verified by loops over their rows, rolled back when a step throws.
 */
module SharedActionState {
  import opened Common
  import opened Accumulators
  import opened ActionLedger
  import opened LedgerRuns

  datatype ClaimTicket = ClaimTicket(revision: nat, lease: Id, payload: Event, attempts: nat)

  // ----- What one batch of claims takes -----

  function Bounded(limit: int): nat {
    if limit < 1 then 1 else if limit > 100 then 100 else limit
  }

  // Due deliveries from a revision on, oldest first, each under a lease of its own, until the bound.
  function ClaimFrom(l: Ledger, revision: nat, taken: nat, bound: nat, now: int, leaseAt: nat -> Id): (Ledger, seq<ClaimTicket>)
    decreases l.manifest.revision + 1 - revision
  {
    if revision > l.manifest.revision || taken >= bound then (l, [])
    else if revision in l.deliveries && Claimable(l.deliveries[revision], now) then
      var d := l.deliveries[revision];
      var (m, rest) := ClaimFrom(Claim(l, revision, leaseAt(taken), now), revision + 1, taken + 1, bound, now, leaseAt);
      (m, [ClaimTicket(revision, leaseAt(taken), d.payload, d.attempts + 1)] + rest)
    else ClaimFrom(l, revision + 1, taken, bound, now, leaseAt)
  }

  // One revision of a batch: nothing more to take, a due delivery, or another one.
  lemma ClaimStep(l: Ledger, revision: nat, taken: nat, bound: nat, now: int, leaseAt: nat -> Id)
    ensures revision > l.manifest.revision || taken >= bound ==> ClaimFrom(l, revision, taken, bound, now, leaseAt) == (l, [])
    ensures revision <= l.manifest.revision && taken < bound && Due(l, revision, now) ==>
      var rest := ClaimFrom(Claim(l, revision, leaseAt(taken), now), revision + 1, taken + 1, bound, now, leaseAt);
      var d := l.deliveries[revision];
      ClaimFrom(l, revision, taken, bound, now, leaseAt) == (rest.0, [ClaimTicket(revision, leaseAt(taken), d.payload, d.attempts + 1)] + rest.1)
    ensures revision <= l.manifest.revision && taken < bound && !Due(l, revision, now) ==>
      ClaimFrom(l, revision, taken, bound, now, leaseAt) == ClaimFrom(l, revision + 1, taken, bound, now, leaseAt)
  {
    hide Claimable;
  }

  // A batch takes due deliveries only, in order, each once, and no more than the bound.
  lemma {:induction false} BatchTakesDue(l: Ledger, revision: nat, taken: nat, bound: nat, now: int, leaseAt: nat -> Id)
    requires taken <= bound
    ensures var (m, claims) := ClaimFrom(l, revision, taken, bound, now, leaseAt);
      && m.deliveries.Keys == l.deliveries.Keys && taken + |claims| <= bound
      && (forall i :: 0 <= i < |claims| ==> claims[i].revision >= revision && Due(l, claims[i].revision, now))
      && (forall i, j :: 0 <= i < j < |claims| ==> claims[i].revision < claims[j].revision)
    decreases l.manifest.revision + 1 - revision
  {
    hide Claimable;
    if revision <= l.manifest.revision && taken < bound {
      if Due(l, revision, now) {
        var next := Claim(l, revision, leaseAt(taken), now);
        BatchTakesDue(next, revision + 1, taken + 1, bound, now, leaseAt);
        var claims, rest := ClaimFrom(l, revision, taken, bound, now, leaseAt).1, ClaimFrom(next, revision + 1, taken + 1, bound, now, leaseAt).1;
        assert forall i :: 1 <= i < |claims| ==> claims[i] == rest[i - 1];
        assert forall r: nat :: r > revision && Due(next, r, now) ==> Due(l, r, now);
      } else {
        BatchTakesDue(l, revision + 1, taken, bound, now, leaseAt);
      }
    }
  }

  predicate Due(l: Ledger, revision: nat, now: int) {
    revision in l.deliveries && Claimable(l.deliveries[revision], now)
  }

  ghost predicate Took(claims: seq<ClaimTicket>, revision: nat) {
    exists i :: 0 <= i < |claims| && claims[i].revision == revision
  }

  // A batch that stops short of the bound has left no due delivery behind.
  lemma {:induction false} BatchLeavesNone(l: Ledger, revision: nat, taken: nat, bound: nat, now: int, leaseAt: nat -> Id, r: nat)
    requires revision <= r <= l.manifest.revision && Due(l, r, now)
    requires taken + |ClaimFrom(l, revision, taken, bound, now, leaseAt).1| < bound
    ensures Took(ClaimFrom(l, revision, taken, bound, now, leaseAt).1, r)
    decreases l.manifest.revision + 1 - revision
  {
    if Due(l, revision, now) {
      var next := Claim(l, revision, leaseAt(taken), now);
      var claims, rest := ClaimFrom(l, revision, taken, bound, now, leaseAt).1, ClaimFrom(next, revision + 1, taken + 1, bound, now, leaseAt).1;
      assert claims[0].revision == revision && claims[1..] == rest;
      if r > revision {
        BatchLeavesNone(next, revision + 1, taken + 1, bound, now, leaseAt, r);
        var i :| 0 <= i < |rest| && rest[i].revision == r;
        assert claims[i + 1].revision == r;
      }
    } else {
      BatchLeavesNone(l, revision + 1, taken, bound, now, leaseAt, r);
    }
  }

  class ActionState {
    const g: Config
    var rows: map<Hash, Row>
    var manifest: Manifest
    var records: seq<RecordRow>
    var chain: ChainManifest
    var deliveries: map<nat, Delivery>

    function State(): Ledger
      reads this
    {
      Ledger(rows, manifest, records, chain, deliveries)
    }

    ghost predicate Valid()
      reads this
    {
      Inv(g, State())
    }

    constructor (g: Config, now: int)
      ensures this.g == g && State() == Initial(now) && Valid()
    {
      this.g := g;
      rows, manifest, records := map[], Manifest(0, 0, ZERO, now), [];
      chain, deliveries := ChainManifest(0, 0, GENESIS), map[];
      new;
      InitialInv(g, now);
    }

    method Rollback(saved: Ledger)
      modifies this
      ensures State() == saved
    {
      rows, manifest, records, chain, deliveries := saved.rows, saved.manifest, saved.records, saved.chain, saved.deliveries;
    }

    // ----- Verification -----

    // Checks every row's control hash and folds the members, in whatever order the rows come.
    method VerifyRows() returns (ok: bool)
      ensures ok <==> RowsVerified(g, State())
    {
      var accumulator := ZERO;
      var left := rows.Keys;
      ghost var done: map<Hash, Row> := map[];
      assert Members(g, done) == map[];
      while left != {}
        invariant left <= rows.Keys && done == rows - left
        invariant forall k :: k in done ==> rows[k].control == Control(g, k, rows[k].reservation)
        invariant accumulator == Total(Members(g, done))
        decreases left
      {
        var k :| k in left;
        left := left - {k};
        var row := rows[k];
        if row.control != Control(g, k, row.reservation) { return false; }
        assert rows - left == done[k := row];
        assert Members(g, done[k := row]) == Members(g, done)[k := MemberOf(g, k, row)];
        TotalAdds(Members(g, done), k, MemberOf(g, k, row));
        accumulator := XorBuffers(accumulator, MemberOf(g, k, row));
        done := done[k := row];
      }
      assert done == rows;
      ok := |rows| == manifest.rowCount && accumulator == manifest.accumulator;
    }

    method VerifyLocked(allowDeadAnchor: bool) returns (ok: bool)
      ensures ok <==> Verified(g, State(), allowDeadAnchor)
    {
      ok := VerifyRows();
      if ok {
        ok := Covered(g, State(), allowDeadAnchor);
      }
    }

    method VerifyReconciliations() returns (ok: bool)
      ensures ok <==> ChainVerified(g, State())
    {
      var previous := GENESIS;
      for i := 0 to |records|
        invariant previous == PreviousHash(records, i)
        invariant forall j :: 0 <= j < i ==>
          records[j].record.previous == PreviousHash(records, j) && records[j].hash == g.hashes.record(g.tenant, records[j].record)
      {
        var row := records[i];
        if row.record.previous != previous || row.hash != g.hashes.record(g.tenant, row.record) { return false; }
        previous := row.hash;
      }
      ok := |records| == chain.rowCount && chain.tip == previous;
    }

    // ----- The manifest -----

    method WriteManifestRow(accumulator: Digest, rowCount: int, h: Host) returns (ok: bool)
      modifies this`manifest, this`deliveries
      ensures match WriteManifest(g, old(State()), accumulator, rowCount, h)
        case None => !ok
        case Some(next) => ok && State() == next
    {
      manifest := Manifest(manifest.revision + 1, rowCount, accumulator, h.written);
      if manifest.revision !in deliveries {
        deliveries := deliveries[manifest.revision := FirstDelivery(g, manifest)];
      }
      ok := deliveries[manifest.revision].checkpointHash == CheckpointOf(g, manifest).hash;
    }

    // ----- Transactions -----

    method ReserveKey(key: string, fingerprint: Hash, meta: Metadata, h: Host) returns (r: Reserved)
      modifies this
      ensures (State(), r) == Reserve(g, old(State()), key, fingerprint, meta, h)
      ensures old(Valid() && Allowed(State(), OpReserve(key, fingerprint, meta, h))) ==> Valid()
    {
      hide Inv, Moves;
      if Valid() && Allowed(State(), OpReserve(key, fingerprint, meta, h)) {
        ReserveKeeps(g, State(), key, fingerprint, meta, h);
      }
      var saved := State();
      var ok := VerifyLocked(false);
      if !ok { return Refused; }
      ok := VerifyReconciliations();
      if !ok { return Refused; }
      var k := g.hashes.keyHash(g.tenant, key);
      if k in rows {
        var existing := rows[k].reservation;
        return if existing.fingerprint == fingerprint then Duplicate(existing.id) else Conflict(existing.id);
      }
      var unsigned := Reservation(fingerprint, Pending, h.id, meta.audit, meta.tool, meta.environment, h.now, h.now);
      var row := Row(unsigned, Control(g, k, unsigned));
      rows := rows[k := row];
      var accumulator := XorBuffers(manifest.accumulator, MemberOf(g, k, row));
      ok := WriteManifestRow(accumulator, manifest.rowCount + 1, h);
      if !ok {
        Rollback(saved);
        return Refused;
      }
      return New(h.id, manifest.revision);
    }

    method TransitionKey(key: string, fingerprint: Hash, operation: Operation, h: Host) returns (r: Result<nat, Failure>)
      modifies this
      ensures (State(), r) == Transition(g, old(State()), key, fingerprint, operation, h)
      ensures old(Valid()) ==> Valid()
    {
      hide Inv, Moves;
      if Valid() {
        TransitionKeeps(g, State(), key, fingerprint, operation, h);
      }
      var saved := State();
      var ok := VerifyLocked(false);
      if !ok { return Err(Integrity); }
      ok := VerifyReconciliations();
      if !ok { return Err(Integrity); }
      var k := g.hashes.keyHash(g.tenant, key);
      if k !in rows || rows[k].reservation.fingerprint != fingerprint || rows[k].reservation.state != Pending {
        return Err(NotPending);
      }
      if operation == Release {
        ok := RemoveRow(k, h);
      } else {
        ok := FinalizeRow(k, h.now, h);
      }
      if !ok {
        Rollback(saved);
        return Err(Integrity);
      }
      return Ok(manifest.revision);
    }

    method RemoveRow(k: Hash, h: Host) returns (ok: bool)
      requires k in rows
      modifies this`rows, this`manifest, this`deliveries
      ensures match Remove(g, old(State()), k, h)
        case None => !ok
        case Some(next) => ok && State() == next
    {
      var removed := MemberOf(g, k, rows[k]);
      rows := rows - {k};
      var accumulator := XorBuffers(manifest.accumulator, removed);
      ok := WriteManifestRow(accumulator, manifest.rowCount - 1, h);
    }

    method FinalizeRow(k: Hash, at: int, h: Host) returns (ok: bool)
      requires k in rows
      modifies this`rows, this`manifest, this`deliveries
      ensures match Finalize(g, old(State()), k, at, h)
        case None => !ok
        case Some(next) => ok && State() == next
    {
      var removed := MemberOf(g, k, rows[k]);
      var updated := rows[k].reservation.(state := Completed, updatedAt := at);
      var row := Row(updated, Control(g, k, updated));
      rows := rows[k := row];
      var accumulator := XorBuffers(manifest.accumulator, removed);
      accumulator := XorBuffers(accumulator, MemberOf(g, k, row));
      ok := WriteManifestRow(accumulator, manifest.rowCount, h);
    }

    // The pending reservation with an id; ids are unique among the rows.
    method FindReservation(id: Id) returns (found: Option<Hash>)
      requires UniqueIds(rows)
      ensures found == FindPending(rows, id)
    {
      var left := rows.Keys;
      while left != {}
        invariant left <= rows.Keys
        invariant forall k :: k in rows && k !in left ==> !IsPendingWith(rows, k, id)
        decreases left
      {
        var k :| k in left;
        if rows[k].reservation.id == id && rows[k].reservation.state == Pending {
          assert IsPendingWith(rows, k, id);
          return Some(k);
        }
        left := left - {k};
      }
      return None;
    }

    method ReconcileReservation(q: Request, h: Host) returns (r: Result<RecordRow, Failure>)
      requires UniqueIds(rows)
      modifies this
      ensures (State(), r) == Reconcile(g, old(State()), q, h)
      ensures old(Valid()) ==> Valid()
    {
      hide Inv, Moves, Verified, ChainVerified, UniqueIds, Described, RecordFor, Remove, Finalize, FindRecord;
      if Valid() {
        ReconcileKeeps(g, State(), q, h);
      }
      var saved := State();
      if !WellFormed(q) { return Err(Invalid); }
      var ok := VerifyLocked(false);
      if !ok { return Err(Integrity); }
      ok := VerifyReconciliations();
      if !ok { return Err(Integrity); }
      var existing := FindRecord(records, q.reservationId);
      if existing.Some? {
        var record := existing.value.record;
        if record.verdict == q.verdict && record.evidence == g.hashes.evidence(g.tenant, q.evidence) {
          return Ok(existing.value);
        }
        return Err(Differently);
      }
      var found := FindReservation(q.reservationId);
      if found.None? { return Err(NotPending); }
      var k := found.value;
      var row := rows[k].reservation;
      if !Described(row) { return Err(NotPending); }
      if h.now - row.updatedAt < q.minimumAge * 1000 { return Err(TooRecent); }
      var unsigned := RecordFor(g, State(), k, q, h);
      var hash := g.hashes.record(g.tenant, unsigned);
      records := records + [RecordRow(unsigned, hash)];
      chain := ChainManifest(chain.revision + 1, chain.rowCount + 1, hash);
      if q.verdict == ConfirmedNotExecuted {
        ok := RemoveRow(k, h);
      } else {
        ok := FinalizeRow(k, h.now, h);
      }
      if !ok {
        Rollback(saved);
        return Err(Integrity);
      }
      return Ok(records[|records| - 1]);
    }

    method Compare(anchored: Checkpoint) returns (r: Result<Comparison, Failure>)
      ensures r == CompareCheckpoint(g, State(), anchored)
    {
      if anchored.body.tenantRef != TenantRef(g) || anchored.hash != g.hashes.checkpoint(anchored.body) || anchored.body.rowCount < 0 {
        return Err(Invalid);
      }
      var ok := VerifyLocked(false);
      if !ok { return Err(Integrity); }
      ok := VerifyReconciliations();
      if !ok { return Err(Integrity); }
      return Ok(CompareTo(CheckpointOf(g, manifest), anchored));
    }

    // ----- Deliveries -----

    method ClaimDue(limit: int, now: int, leaseAt: nat -> Id) returns (claims: seq<ClaimTicket>)
      requires Valid()
      modifies this`deliveries
      ensures Valid() && (State(), claims) == ClaimFrom(old(State()), 1, 0, Bounded(limit), now, leaseAt)
    {
      hide Inv, Moves, Claimable, ClaimFrom;
      var bound := Bounded(limit);
      claims := [];
      ghost var total := ClaimFrom(State(), 1, 0, bound, now, leaseAt);
      assert total.1 == claims + total.1;
      var revision := 1;
      while revision <= manifest.revision && |claims| < bound
        invariant Valid()
        invariant var rest := ClaimFrom(State(), revision, |claims|, bound, now, leaseAt);
          total.0 == rest.0 && total.1 == claims + rest.1
      {
        ghost var rest := ClaimFrom(State(), revision, |claims|, bound, now, leaseAt);
        ClaimStep(State(), revision, |claims|, bound, now, leaseAt);
        if revision in deliveries && Claimable(deliveries[revision], now) {
          var d := deliveries[revision];
          DeliveryStepsKeep(g, State(), OpClaim(revision, leaseAt(|claims|), now));
          var lease := Lease(leaseAt(|claims|), now + 30_000);
          deliveries := deliveries[revision := d.(status := Processing, attempts := d.attempts + 1, lease := Some(lease))];
          var ticket := ClaimTicket(revision, leaseAt(|claims|), d.payload, d.attempts + 1);
          assert claims + rest.1 == claims + [ticket] + rest.1[1..];
          claims := claims + [ticket];
        }
        revision := revision + 1;
      }
      ClaimStep(State(), revision, |claims|, bound, now, leaseAt);
      assert claims + [] == claims;
    }

    method FinishDelivery(revision: nat, lease: Id, delivered: bool, retryable: bool, now: int) returns (r: Option<Status>)
      requires Valid()
      modifies this`deliveries
      ensures Valid() && (State(), r) == Finish(g, old(State()), revision, lease, delivered, retryable, now)
    {
      hide Inv, Moves, DelaySeconds;
      DeliveryStepsKeep(g, State(), OpFinish(revision, lease, delivered, retryable, now));
      if revision !in deliveries || !Holds(deliveries[revision], lease) { return None; }
      var d := deliveries[revision];
      if delivered {
        d := d.(status := Delivered, deliveredAt := Some(now));
      } else if retryable && d.attempts < g.maxAttempts {
        d := d.(status := Waiting, nextAttemptAt := now + DelaySeconds(d.attempts) * 1000, deliveredAt := None);
      } else {
        d := d.(status := Dead, deliveredAt := None);
      }
      deliveries := deliveries[revision := d.(lease := None)];
      return Some(d.status);
    }

    method RedriveDelivery(revision: nat, now: int) returns (r: bool)
      requires Valid()
      modifies this`deliveries
      ensures Valid() && (State(), r) == Redrive(old(State()), revision, now)
    {
      hide Inv, Moves;
      DeliveryStepsKeep(g, State(), OpRedrive(revision, now));
      if revision !in deliveries || deliveries[revision].status != Dead { return false; }
      deliveries := deliveries[revision :=
        deliveries[revision].(status := Waiting, attempts := 0, nextAttemptAt := now, deliveredAt := None, lease := None)];
      return true;
    }

    method CheckpointAnchorAcknowledged() returns (r: Result<bool, Failure>)
      ensures r == Acknowledged(g, State())
    {
      var ok := VerifyLocked(false);
      if !ok { return Err(Integrity); }
      ok := VerifyReconciliations();
      if !ok { return Err(Integrity); }
      if manifest.revision == 0 { return Ok(false); }
      return Ok(deliveries[manifest.revision].status == Delivered);
    }
  }
}
