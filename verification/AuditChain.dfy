/**
 The audit history of one tenant: a hash chain of decisions under a manifest, from
 which expired events are purged in front, leaving an anchor, and the usage counters
 that go with it.
 */
module AuditChain {
  import opened Common

  type Id = nat
  datatype Hash = Genesis | Hmac(value: nat)

  datatype Decision = Accepted | AcceptedWithRepair | Rejected
  datatype Envelope = Envelope(auditId: Id, timestamp: int, decision: Decision, body: Id)
  datatype Row = Row(sequence: nat, auditId: Id, occurredAt: int, decision: Decision, envelope: Envelope, previous: Hash, hash: Hash, signature: Hash)
  datatype Anchor = Anchor(lastDeleted: Hash, through: nat, count: nat, updatedAt: int)
  datatype Manifest = Manifest(revision: nat, retained: int, total: nat, tip: Hash, updatedAt: int)
  datatype Tenant = Tenant(month: int, limit: int, validations: nat, repairs: nat, rejections: nat, drifts: nat, updatedAt: int)

  // The keyed hashes of an event and its signature.
  datatype Hashes = Hashes(event: (Envelope, Hash) -> Hash, signature: (Hash, Hash) -> Hash)

  // The clock, the calendar month, and the next row number.
  datatype Host = Host(now: int, month: int, sequence: nat)

  datatype History = History(rows: seq<Row>, anchor: Option<Anchor>, manifest: Manifest, tenant: Tenant, lastSequence: int)
  datatype Failure = Integrity | Conflict | QuotaExceeded | InvalidRetention
  datatype Verification = Verification(valid: bool, checked: nat)

  // ----- Verification -----

  predicate RowOk(h: Hashes, row: Row, previous: Hash) {
    && row.previous == previous && row.hash == h.event(row.envelope, previous) && row.signature == h.signature(row.hash, previous)
    && row.auditId == row.envelope.auditId && row.occurredAt == row.envelope.timestamp && row.decision == row.envelope.decision
  }

  function Start(anchor: Option<Anchor>): Hash {
    if anchor.Some? then anchor.value.lastDeleted else Genesis
  }

  function Deleted(anchor: Option<Anchor>): nat {
    if anchor.Some? then anchor.value.count else 0
  }

  // The hash that the row at i must carry as its previous one.
  function PreviousHash(start: Hash, rows: seq<Row>, i: nat): Hash
    requires i <= |rows|
  {
    if i == 0 then start else rows[i - 1].hash
  }

  predicate Chained(h: Hashes, start: Hash, rows: seq<Row>) {
    forall i :: 0 <= i < |rows| ==> RowOk(h, rows[i], PreviousHash(start, rows, i))
  }

  predicate Verified(h: Hashes, s: History) {
    && |s.rows| == s.manifest.retained && Chained(h, Start(s.anchor), s.rows)
    && s.manifest.tip == PreviousHash(Start(s.anchor), s.rows, |s.rows|)
    && s.manifest.total == s.manifest.retained + Deleted(s.anchor)
  }

  // ----- Transactions -----

  function ResetMonth(t: Tenant, host: Host): Tenant {
    if t.month == host.month then t else t.(month := host.month, validations := 0, repairs := 0, rejections := 0, drifts := 0, updatedAt := host.now)
  }

  function FindAudit(rows: seq<Row>, auditId: Id): (r: Option<nat>)
    ensures r.Some? ==> r.value < |rows| && rows[r.value].auditId == auditId
    ensures r.None? ==> forall i :: 0 <= i < |rows| ==> rows[i].auditId != auditId
  {
    if rows == [] then None
    else
      var last := |rows| - 1;
      if rows[last].auditId == auditId then Some(last) else FindAudit(rows[..last], auditId)
  }

  function Counted(t: Tenant, decision: Decision, now: int): Tenant {
    t.(validations := t.validations + 1, repairs := t.repairs + (if decision == AcceptedWithRepair then 1 else 0),
       rejections := t.rejections + (if decision == Rejected then 1 else 0), updatedAt := now)
  }

  function NewRow(h: Hashes, e: Envelope, previous: Hash, sequence: nat): Row {
    var hash := h.event(e, previous);
    Row(sequence, e.auditId, e.timestamp, e.decision, e, previous, hash, h.signature(hash, previous))
  }

  // bound tells whether the decision agrees with its envelope.
  function Record(h: Hashes, s: History, e: Envelope, bound: bool, host: Host): (History, Result<Tenant, Failure>) {
    var existing := FindAudit(s.rows, e.auditId);
    var current := ResetMonth(s.tenant, host);
    if !bound || !Verified(h, s) then (s, Err(Integrity))
    else if existing.Some? then
      var row := s.rows[existing.value];
      (s, if !RowOk(h, row, row.previous) then Err(Integrity) else if row.envelope != e then Err(Conflict) else Ok(s.tenant))
    else if current.validations >= current.limit then (s, Err(QuotaExceeded))
    else
      var row := NewRow(h, e, s.manifest.tip, host.sequence);
      var m := Manifest(s.manifest.revision + 1, s.manifest.retained + 1, s.manifest.total + 1, row.hash, host.now);
      var t := Counted(current, e.decision, host.now);
      (History(s.rows + [row], s.anchor, m, t, host.sequence), Ok(t))
  }

  // How many rows to purge: up to the last one that occurred before the cutoff.
  function Expired(rows: seq<Row>, cutoff: int): (n: nat)
    ensures n <= |rows| && (n > 0 ==> rows[n - 1].occurredAt < cutoff)
    ensures forall i :: n <= i < |rows| ==> rows[i].occurredAt >= cutoff
  {
    if rows == [] then 0
    else if rows[|rows| - 1].occurredAt < cutoff then |rows|
    else Expired(rows[..|rows| - 1], cutoff)
  }

  const DAY: int := 86_400_000

  function Purged(s: History, n: nat, now: int): History
    requires 0 < n <= |s.rows|
  {
    var last := s.rows[n - 1];
    History(s.rows[n..], Some(Anchor(last.hash, last.sequence, Deleted(s.anchor) + n, now)),
            Manifest(s.manifest.revision + 1, s.manifest.retained - n, s.manifest.total, s.manifest.tip, now), s.tenant, s.lastSequence)
  }

  function Purge(h: Hashes, s: History, days: int, host: Host): (History, Result<nat, Failure>) {
    if days < 0 || days > 3650 then (s, Err(InvalidRetention))
    else if !Verified(h, s) then (s, Err(Integrity))
    else
      var n := Expired(s.rows, host.now - days * DAY);
      if n == 0 then (s, Ok(0))
      else
        var after := Purged(s, n, host.now);
        if Verified(h, after) then (after, Ok(n)) else (s, Err(Integrity))
  }

  function RecordDrift(s: History, host: Host): History {
    var current := ResetMonth(s.tenant, host);
    s.(tenant := current.(drifts := current.drifts + 1, updatedAt := host.now))
  }

  function ChangePlan(s: History, limit: int, host: Host): History {
    s.(tenant := s.tenant.(limit := limit, updatedAt := host.now))
  }

  // ----- The invariant -----

  predicate Ordered(rows: seq<Row>, last: int) {
    (forall i, j :: 0 <= i < j < |rows| ==> rows[i].sequence < rows[j].sequence) && forall i :: 0 <= i < |rows| ==> rows[i].sequence <= last
  }

  predicate DistinctAudits(rows: seq<Row>) {
    forall i, j :: 0 <= i < j < |rows| ==> rows[i].auditId != rows[j].auditId
  }

  ghost predicate Inv(h: Hashes, s: History) {
    && Verified(h, s) && Ordered(s.rows, s.lastSequence) && DistinctAudits(s.rows)
    && (s.anchor.Some? ==> forall i :: 0 <= i < |s.rows| ==> s.rows[i].sequence > s.anchor.value.through)
    && s.tenant.repairs + s.tenant.rejections <= s.tenant.validations
  }

  lemma PreviousSteps(start: Hash, rows: seq<Row>, i: nat)
    requires i <= |rows|
    ensures PreviousHash(start, rows, 0) == start
    ensures i < |rows| ==> PreviousHash(start, rows, i + 1) == rows[i].hash
  {
  }

  lemma PreviousInPrefix(start: Hash, rows: seq<Row>, longer: seq<Row>, i: nat)
    requires rows <= longer && i <= |rows|
    ensures PreviousHash(start, longer, i) == PreviousHash(start, rows, i)
  {
  }

  lemma PreviousInRest(start: Hash, rows: seq<Row>, n: nat, i: nat)
    requires 0 < n <= |rows| && i <= |rows| - n
    ensures PreviousHash(rows[n - 1].hash, rows[n..], i) == PreviousHash(start, rows, n + i)
  {
  }

  lemma ChainGrows(h: Hashes, start: Hash, rows: seq<Row>, row: Row)
    requires Chained(h, start, rows) && RowOk(h, row, PreviousHash(start, rows, |rows|))
    ensures Chained(h, start, rows + [row]) && PreviousHash(start, rows + [row], |rows| + 1) == row.hash
  {
    hide RowOk, PreviousHash;
    var longer := rows + [row];
    forall i | 0 <= i < |longer| ensures RowOk(h, longer[i], PreviousHash(start, longer, i)) {
      PreviousInPrefix(start, rows, longer, i);
      if i < |rows| { assert RowOk(h, rows[i], PreviousHash(start, rows, i)); }
    }
    PreviousSteps(start, longer, |rows|);
  }

  lemma NewRowOk(h: Hashes, e: Envelope, previous: Hash, sequence: nat)
    ensures RowOk(h, NewRow(h, e, previous, sequence), previous)
  {
  }

  lemma RecordKeeps(h: Hashes, s: History, e: Envelope, bound: bool, host: Host)
    requires Inv(h, s) && host.sequence > s.lastSequence
    requires s.anchor.Some? ==> s.anchor.value.through <= s.lastSequence
    ensures Inv(h, Record(h, s, e, bound, host).0)
  {
    hide RowOk, PreviousHash, Chained, FindAudit;
    var t := Record(h, s, e, bound, host).0;
    if t != s {
      var row := NewRow(h, e, s.manifest.tip, host.sequence);
      NewRowOk(h, e, s.manifest.tip, host.sequence);
      ChainGrows(h, Start(s.anchor), s.rows, row);
    }
  }

  // Purging what is expired leaves a history that verifies, so the check after it never fails.
  lemma PurgedVerifies(h: Hashes, s: History, n: nat, now: int)
    requires Verified(h, s) && 0 < n <= |s.rows|
    ensures Verified(h, Purged(s, n, now))
  {
    hide RowOk, PreviousHash;
    var t := Purged(s, n, now);
    forall i | 0 <= i < |t.rows| ensures RowOk(h, t.rows[i], PreviousHash(Start(t.anchor), t.rows, i)) {
      assert RowOk(h, s.rows[n + i], PreviousHash(Start(s.anchor), s.rows, n + i));
      PreviousInRest(Start(s.anchor), s.rows, n, i);
    }
    PreviousInRest(Start(s.anchor), s.rows, n, |s.rows| - n);
  }

  lemma PurgeKeeps(h: Hashes, s: History, days: int, host: Host)
    requires Inv(h, s)
    ensures Inv(h, Purge(h, s, days, host).0)
  {
    hide Verified, Expired;
    var t := Purge(h, s, days, host).0;
    if t != s {
      var n := Expired(s.rows, host.now - days * DAY);
      assert t.rows == s.rows[n..];
    }
  }

  // What a purge does: everything up to the last expired event goes, what stays is at or after the cutoff,
  // and nothing else changes but the anchor and the manifest's counts.
  lemma PurgeRetains(h: Hashes, s: History, days: int, host: Host)
    requires Inv(h, s) && 0 <= days <= 3650
    ensures var (t, r) := Purge(h, s, days, host);
      && r.Ok? && r.value + |t.rows| == |s.rows| && t.rows == s.rows[r.value..]
      && (forall i :: 0 <= i < |t.rows| ==> t.rows[i].occurredAt >= host.now - days * DAY)
      && (r.value > 0 ==> s.rows[r.value - 1].occurredAt < host.now - days * DAY)
      && Deleted(t.anchor) == Deleted(s.anchor) + r.value && t.manifest.total == s.manifest.total && t.manifest.tip == s.manifest.tip
      && t.tenant == s.tenant
  {
    hide Verified, Expired;
    var n := Expired(s.rows, host.now - days * DAY);
    if n > 0 { PurgedVerifies(h, s, n, host.now); }
  }

  // What a decision whose audit is retained is answered.
  lemma RepeatIsAnswered(h: Hashes, s: History, e: Envelope, host: Host, i: nat)
    requires Inv(h, s) && i < |s.rows| && s.rows[i].auditId == e.auditId
    ensures Record(h, s, e, true, host) == (s, if s.rows[i].envelope == e then Ok(s.tenant) else Err(Conflict))
  {
    hide FindAudit;
    var j := FindAudit(s.rows, e.auditId).value;
    assert i == j;
    assert RowOk(h, s.rows[i], PreviousHash(Start(s.anchor), s.rows, i));
  }

  ghost predicate IsRetained(s: History, auditId: Id) {
    exists i :: 0 <= i < |s.rows| && s.rows[i].auditId == auditId
  }

  predicate QuotaUsed(t: Tenant, host: Host) {
    ResetMonth(t, host).validations >= ResetMonth(t, host).limit
  }

  // A decision changes no counter, nor anything else, exactly when it does not agree with its envelope, its audit is
  // still retained, or the quota of the month is used up.  Whether the audit was ever recorded makes no difference.
  lemma RepeatChangesNothing(h: Hashes, s: History, e: Envelope, bound: bool, host: Host)
    requires Inv(h, s)
    ensures Record(h, s, e, bound, host).0 == s <==> !bound || IsRetained(s, e.auditId) || QuotaUsed(s.tenant, host)
  {
    hide FindAudit, Verified;
    if bound && IsRetained(s, e.auditId) {
      var i :| 0 <= i < |s.rows| && s.rows[i].auditId == e.auditId;
      RepeatIsAnswered(h, s, e, host, i);
    } else if bound && !QuotaUsed(s.tenant, host) {
      assert |Record(h, s, e, bound, host).0.rows| == |s.rows| + 1;
    }
  }

  // ----- Runs -----

  datatype Op = OpRecord(e: Envelope, bound: bool, host: Host) | OpPurge(days: int, host: Host) | OpDrift(host: Host) | OpPlan(limit: int, host: Host)

  function Apply(h: Hashes, s: History, op: Op): History {
    match op
    case OpRecord(e, bound, host) => Record(h, s, e, bound, host).0
    case OpPurge(days, host) => Purge(h, s, days, host).0
    case OpDrift(host) => RecordDrift(s, host)
    case OpPlan(limit, host) => ChangePlan(s, limit, host)
  }

  function Initial(limit: int, host: Host): History {
    History([], None, Manifest(0, 0, 0, Genesis, host.now), Tenant(host.month, limit, 0, 0, 0, 0, host.now), -1)
  }

  function Run(h: Hashes, first: History, ops: seq<Op>): History {
    if ops == [] then first else Apply(h, Run(h, first, ops[..|ops| - 1]), ops[|ops| - 1])
  }

  // Row numbers only grow.
  ghost predicate FreshSequences(h: Hashes, first: History, ops: seq<Op>) {
    forall i :: 0 <= i < |ops| && ops[i].OpRecord? ==> ops[i].host.sequence > Run(h, first, ops[..i]).lastSequence
  }

  // How many decisions the run has recorded.
  function Recorded(h: Hashes, first: History, ops: seq<Op>): nat {
    if ops == [] then 0
    else
      var before := Run(h, first, ops[..|ops| - 1]);
      Recorded(h, first, ops[..|ops| - 1]) + if ops[|ops| - 1].OpRecord? && Apply(h, before, ops[|ops| - 1]) != before then 1 else 0
  }

  ghost predicate AnchorOld(s: History) {
    s.anchor.Some? ==> s.anchor.value.through <= s.lastSequence
  }

  lemma {:induction false} RunKeeps(h: Hashes, limit: int, host: Host, ops: seq<Op>)
    requires FreshSequences(h, Initial(limit, host), ops)
    ensures var s := Run(h, Initial(limit, host), ops);
      && Inv(h, s) && AnchorOld(s) && s.manifest.total == Recorded(h, Initial(limit, host), ops)
      && s.manifest.total == |s.rows| + Deleted(s.anchor)
  {
    hide FindAudit, Expired, Purge, Record;
    var first := Initial(limit, host);
    if ops != [] {
      var last := |ops| - 1;
      var s, op := Run(h, first, ops[..last]), ops[last];
      assert forall i :: 0 <= i < last ==> ops[..last][..i] == ops[..i];
      RunKeeps(h, limit, host, ops[..last]);
      assert Inv(h, s) && AnchorOld(s) && (op.OpRecord? ==> op.host.sequence > s.lastSequence);
      StepKeeps(h, s, op);
    }
  }

  lemma StepKeeps(h: Hashes, s: History, op: Op)
    requires Inv(h, s) && AnchorOld(s) && (op.OpRecord? ==> op.host.sequence > s.lastSequence)
    ensures var t := Apply(h, s, op);
      Inv(h, t) && AnchorOld(t) && t.manifest.total == s.manifest.total + if op.OpRecord? && t != s then 1 else 0
  {
    hide FindAudit, Expired, Verified;
    match op
    case OpRecord(e, bound, host) => RecordKeeps(h, s, e, bound, host);
    case OpPurge(days, host) => PurgeKeeps(h, s, days, host);
    case OpDrift(host) => OthersKeep(h, s, RecordDrift(s, host).tenant);
    case OpPlan(limit, host) => OthersKeep(h, s, ChangePlan(s, limit, host).tenant);
  }

  // ----- How long an audit is retained -----

  // A purge takes the row, or a later one, for expired.
  ghost predicate Removes(s: History, op: Op, row: Row) {
    op.OpPurge? && 0 <= op.days <= 3650
    && exists i :: 0 <= i < |s.rows| && s.rows[i].sequence >= row.sequence && s.rows[i].occurredAt < op.host.now - op.days * DAY
  }

  lemma StepRetains(h: Hashes, s: History, op: Op, row: Row)
    requires Inv(h, s) && AnchorOld(s) && (op.OpRecord? ==> op.host.sequence > s.lastSequence)
    ensures row in s.rows ==> (row in Apply(h, s, op).rows <==> !Removes(s, op, row))
    ensures row in Apply(h, s, op).rows && row.sequence <= s.lastSequence ==> row in s.rows
    ensures Apply(h, s, op).lastSequence >= s.lastSequence
  {
    hide FindAudit, Verified, RecordDrift;
    if op.OpPurge? && 0 <= op.days <= 3650 {
      PurgeTakesPrefix(h, s, op.days, op.host, row);
      PurgeKeepsSequence(h, s, op.days, op.host);
    } else if op.OpRecord? {
      var t := Apply(h, s, op);
      assert t == s || (t.rows == s.rows + [t.rows[|s.rows|]] && t.rows[|s.rows|].sequence == op.host.sequence);
    } else {
      OthersKeepRows(h, s, op);
    }
  }

  lemma OthersKeepRows(h: Hashes, s: History, op: Op)
    requires !op.OpRecord? && (op.OpPurge? ==> op.days < 0 || op.days > 3650)
    ensures Apply(h, s, op).rows == s.rows && Apply(h, s, op).lastSequence == s.lastSequence
  {
  }

  // Of ordered rows, those from n on are the ones that neither are expired nor have an expired one after them.
  lemma RestIsRetained(rows: seq<Row>, last: int, n: nat, cutoff: int, row: Row)
    requires Ordered(rows, last) && n <= |rows| && row in rows && (n > 0 ==> rows[n - 1].occurredAt < cutoff)
    requires forall i :: n <= i < |rows| ==> rows[i].occurredAt >= cutoff
    ensures row in rows[n..] <==> !exists i :: 0 <= i < |rows| && rows[i].sequence >= row.sequence && rows[i].occurredAt < cutoff
  {
    var j :| 0 <= j < |rows| && rows[j] == row;
    if j < n {
      assert rows[n - 1].sequence >= row.sequence;
    } else {
      assert rows[n..][j - n] == row;
    }
  }

  lemma PurgeTakesPrefix(h: Hashes, s: History, days: int, host: Host, row: Row)
    requires Inv(h, s) && 0 <= days <= 3650
    ensures row in s.rows ==> (row in Purge(h, s, days, host).0.rows <==> !Removes(s, OpPurge(days, host), row))
    ensures row in Purge(h, s, days, host).0.rows ==> row in s.rows
  {
    hide Verified, Purge;
    PurgeRetains(h, s, days, host);
    var (t, r) := Purge(h, s, days, host);
    var cutoff := host.now - days * DAY;
    forall i | r.value <= i < |s.rows| ensures s.rows[i].occurredAt >= cutoff { assert s.rows[i] == t.rows[i - r.value]; }
    if row in s.rows { RestIsRetained(s.rows, s.lastSequence, r.value, cutoff, row); }
  }

  lemma PurgeKeepsSequence(h: Hashes, s: History, days: int, host: Host)
    ensures Purge(h, s, days, host).0.lastSequence == s.lastSequence
  {
    hide Verified, Expired;
  }

  ghost predicate NeverRemoved(h: Hashes, s: History, ops: seq<Op>, row: Row) {
    forall k :: 0 <= k < |ops| ==> !Removes(Run(h, s, ops[..k]), ops[k], row)
  }

  // Through every run an event is retained exactly as long as no purge finds it, or an event after it, expired.
  lemma {:induction false} RetainedExactly(h: Hashes, s: History, ops: seq<Op>, row: Row)
    requires Inv(h, s) && AnchorOld(s) && FreshSequences(h, s, ops) && row in s.rows
    ensures var t := Run(h, s, ops); Inv(h, t) && AnchorOld(t) && t.lastSequence >= s.lastSequence
    ensures row in Run(h, s, ops).rows <==> NeverRemoved(h, s, ops, row)
  {
    hide Inv, AnchorOld, Apply, Removes;
    RowsAreOld(h, s, row);
    if ops != [] {
      var last := |ops| - 1;
      var before, op := Run(h, s, ops[..last]), ops[last];
      assert forall i :: 0 <= i <= last ==> ops[..last][..i] == ops[..i];
      RetainedExactly(h, s, ops[..last], row);
      StepKeeps(h, before, op);
      StepRetains(h, before, op, row);
      assert NeverRemoved(h, s, ops, row) <==> NeverRemoved(h, s, ops[..last], row) && !Removes(before, op, row);
    }
  }

  lemma RowsAreOld(h: Hashes, s: History, row: Row)
    requires Inv(h, s) && row in s.rows
    ensures row.sequence <= s.lastSequence
  {
    hide Verified;
  }

  // So, after any run that has not purged it, repeating a decision changes no counter, whatever the host and the quota.
  lemma RepeatInRun(h: Hashes, s: History, ops: seq<Op>, i: nat, bound: bool, host: Host)
    requires Inv(h, s) && AnchorOld(s) && FreshSequences(h, s, ops) && i < |s.rows| && NeverRemoved(h, s, ops, s.rows[i])
    ensures var t := Run(h, s, ops); Record(h, t, s.rows[i].envelope, bound, host) == (t, if bound then Ok(t.tenant) else Err(Integrity))
  {
    hide FindAudit, Run, NeverRemoved, FreshSequences, Verified;
    var t, row := Run(h, s, ops), s.rows[i];
    RetainedExactly(h, s, ops, row);
    EnvelopeNamesAudit(h, s, i);
    if bound {
      var j :| 0 <= j < |t.rows| && t.rows[j] == row;
      RepeatIsAnswered(h, t, row.envelope, host, j);
    }
  }

  lemma EnvelopeNamesAudit(h: Hashes, s: History, i: nat)
    requires Inv(h, s) && i < |s.rows|
    ensures s.rows[i].auditId == s.rows[i].envelope.auditId
  {
    assert RowOk(h, s.rows[i], PreviousHash(Start(s.anchor), s.rows, i));
  }

  // What is left of one decision once it was purged: a history with no rows that counts one event.
  lemma RecordedAndPurged(h: Hashes, e: Envelope, a: Host, b: Host)
    requires e.timestamp < b.now && a.month == b.month
    ensures var t := Purge(h, Record(h, Initial(5, a), e, true, a).0, 0, b).0;
      && Inv(h, t) && t.rows == [] && t.manifest.total == 1 && t.lastSequence == a.sequence
      && t.tenant.month == b.month && t.tenant.limit == 5 && t.tenant.validations == 1
  {
    hide Inv, Purge, Verified, Expired;
    var s := Record(h, Initial(5, a), e, true, a).0;
    FirstKeeps(h, e, a);
    PurgeRetains(h, s, 0, b);
    PurgeKeeps(h, s, 0, b);
    PurgeKeepsSequence(h, s, 0, b);
  }

  lemma FirstKeeps(h: Hashes, e: Envelope, a: Host)
    ensures Inv(h, Initial(5, a)) && Inv(h, Record(h, Initial(5, a), e, true, a).0)
    ensures var s := Record(h, Initial(5, a), e, true, a).0;
      && |s.rows| == 1 && s.rows[0].occurredAt == e.timestamp && s.manifest.total == 1 && s.lastSequence == a.sequence
      && s.tenant == Counted(Tenant(a.month, 5, 0, 0, 0, 0, a.now), e.decision, a.now)
  {
    hide FindAudit;
    RecordKeeps(h, Initial(5, a), e, true, a);
  }

  lemma ThreeSteps(h: Hashes, s: History, o: Op, p: Op, q: Op)
    ensures Run(h, s, []) == s && Run(h, s, [o]) == Apply(h, s, o) && Run(h, s, [o, p]) == Apply(h, Apply(h, s, o), p)
    ensures Run(h, s, [o, p, q]) == Apply(h, Apply(h, Apply(h, s, o), p), q)
  {
    hide Apply;
    assert [o][..0] == [] && [o, p][..1] == [o] && [o, p, q][..2] == [o, p];
  }

  // A decision at time 0 is recorded, purged at time 10 and recorded again: one decision, counted twice.
  lemma RepeatAfterPurgeCountsAgain(h: Hashes, decision: Decision, auditId: Id, body: Id)
    ensures var e := Envelope(auditId, 0, decision, body); var a, b := Host(0, 1, 0), Host(10, 1, 1);
      var ops := [OpRecord(e, true, a), OpPurge(0, b), OpRecord(e, true, b)];
      && FreshSequences(h, Initial(5, a), ops)
      && Run(h, Initial(5, a), ops).manifest.total == 2 && Run(h, Initial(5, a), ops).tenant.validations == 2
  {
    hide Purge, Record, Inv;
    var e := Envelope(auditId, 0, decision, body);
    var a, b := Host(0, 1, 0), Host(10, 1, 1);
    var first, o, p, q := Initial(5, a), OpRecord(e, true, a), OpPurge(0, b), OpRecord(e, true, b);
    ThreeSteps(h, first, o, p, q);
    RecordedAndPurged(h, e, a, b);
    CountsAgain(h, Apply(h, Apply(h, first, o), p), e, b);
    assert [o, p, q][..0] == [] && [o, p, q][..2] == [o, p];
  }

  lemma CountsAgain(h: Hashes, s: History, e: Envelope, b: Host)
    requires Inv(h, s) && s.rows == [] && s.tenant.month == b.month && s.tenant.validations < s.tenant.limit
    ensures var t := Record(h, s, e, true, b).0; t.manifest.total == s.manifest.total + 1 && t.tenant.validations == s.tenant.validations + 1
  {
  }

  lemma OthersKeep(h: Hashes, s: History, t: Tenant)
    requires Inv(h, s) && t.repairs + t.rejections <= t.validations
    ensures Inv(h, s.(tenant := t))
  {
  }

  // ----- One manifest, one history -----

  ghost predicate Injective(h: Hashes) {
    forall e, f, p, q :: h.event(e, p) == h.event(f, q) ==> e == f && p == q
  }

  // Chains of one length that end in the same hash start from the same hash and hold the same events.
  lemma {:induction false} SameTipSameEvents(h: Hashes, p: Hash, a: seq<Row>, q: Hash, b: seq<Row>)
    requires Injective(h) && Chained(h, p, a) && Chained(h, q, b) && |a| == |b|
    requires PreviousHash(p, a, |a|) == PreviousHash(q, b, |b|)
    ensures p == q && forall i :: 0 <= i < |a| ==> a[i].(sequence := 0) == b[i].(sequence := 0)
    decreases |a|
  {
    hide Chained, RowOk, PreviousHash, Injective;
    PreviousSteps(p, a, 0);
    PreviousSteps(q, b, 0);
    if a != [] {
      var last := |a| - 1;
      SameLast(h, p, a, q, b);
      ChainedPrefix(h, p, a);
      ChainedPrefix(h, q, b);
      SameTipSameEvents(h, p, a[..last], q, b[..last]);
      forall i | 0 <= i < |a| ensures a[i].(sequence := 0) == b[i].(sequence := 0) {
        if i < last { assert a[..last][i] == a[i] && b[..last][i] == b[i]; }
      }
    }
  }

  lemma SameLast(h: Hashes, p: Hash, a: seq<Row>, q: Hash, b: seq<Row>)
    requires Injective(h) && Chained(h, p, a) && Chained(h, q, b) && |a| == |b| > 0
    requires PreviousHash(p, a, |a|) == PreviousHash(q, b, |b|)
    ensures a[|a| - 1].(sequence := 0) == b[|b| - 1].(sequence := 0)
    ensures PreviousHash(p, a, |a| - 1) == PreviousHash(q, b, |b| - 1)
  {
    hide PreviousHash;
    var last := |a| - 1;
    PreviousSteps(p, a, last);
    PreviousSteps(q, b, last);
    assert RowOk(h, a[last], PreviousHash(p, a, last)) && RowOk(h, b[last], PreviousHash(q, b, last));
  }

  // When event hashes do not collide, a manifest admits one sequence of events, and one count and hash before it.
  lemma ManifestAdmitsOneHistory(h: Hashes, s: History, t: History)
    requires Injective(h) && Verified(h, s) && Verified(h, t) && s.manifest == t.manifest
    ensures |s.rows| == |t.rows| && forall i :: 0 <= i < |s.rows| ==> s.rows[i].(sequence := 0) == t.rows[i].(sequence := 0)
    ensures Start(s.anchor) == Start(t.anchor) && Deleted(s.anchor) == Deleted(t.anchor)
  {
    hide Chained, PreviousHash, Injective;
    SameTipSameEvents(h, Start(s.anchor), s.rows, Start(t.anchor), t.rows);
  }

  lemma ChainedPrefix(h: Hashes, start: Hash, a: seq<Row>)
    requires a != [] && Chained(h, start, a)
    ensures Chained(h, start, a[..|a| - 1]) && PreviousHash(start, a[..|a| - 1], |a| - 1) == PreviousHash(start, a, |a| - 1)
  {
    hide RowOk, PreviousHash;
    var p := a[..|a| - 1];
    forall i | 0 <= i < |p| ensures RowOk(h, p[i], PreviousHash(start, p, i)) {
      assert RowOk(h, a[i], PreviousHash(start, a, i));
      PreviousInPrefix(start, p, a, i);
    }
    PreviousInPrefix(start, p, a, |p|);
  }

  // ----- The store -----

  class AuditStore {
    const h: Hashes
    var rows: seq<Row>
    var anchor: Option<Anchor>
    var manifest: Manifest
    var tenant: Tenant
    ghost var lastSequence: int

    ghost function State(): History
      reads this
    {
      History(rows, anchor, manifest, tenant, lastSequence)
    }

    constructor (h: Hashes, limit: int, host: Host)
      ensures this.h == h && State() == Initial(limit, host)
    {
      this.h := h;
      rows, anchor, manifest := [], None, Manifest(0, 0, 0, Genesis, host.now);
      tenant, lastSequence := Tenant(host.month, limit, 0, 0, 0, 0, host.now), -1;
    }

    method VerifyAudit() returns (r: Verification)
      ensures r.valid <==> Verified(h, State())
      ensures r.checked <= |rows| && forall i :: 0 <= i < r.checked ==> RowOk(h, rows[i], PreviousHash(Start(anchor), rows, i))
    {
      hide RowOk, PreviousHash;
      if |rows| != manifest.retained { return Verification(false, 0); }
      var previous := Start(anchor);
      PreviousSteps(Start(anchor), rows, 0);
      for index := 0 to |rows|
        invariant previous == PreviousHash(Start(anchor), rows, index)
        invariant forall i :: 0 <= i < index ==> RowOk(h, rows[i], PreviousHash(Start(anchor), rows, i))
      {
        if !RowOk(h, rows[index], previous) { return Verification(false, index); }
        PreviousSteps(Start(anchor), rows, index);
        previous := rows[index].hash;
      }
      return Verification(manifest.tip == previous && manifest.total == manifest.retained + Deleted(anchor), |rows|);
    }

    method RecordValidation(e: Envelope, bound: bool, host: Host) returns (r: Result<Tenant, Failure>)
      modifies this
      ensures (State(), r) == Record(h, old(State()), e, bound, host)
      ensures old(Inv(h, State()) && AnchorOld(State()) && host.sequence > lastSequence) ==> Inv(h, State())
    {
      hide Inv, Verified, FindAudit, RowOk;
      if Inv(h, State()) && AnchorOld(State()) && host.sequence > lastSequence { RecordKeeps(h, State(), e, bound, host); }
      if !bound { return Err(Integrity); }
      var verification := VerifyAudit();
      if !verification.valid { return Err(Integrity); }
      var existing := FindAudit(rows, e.auditId);
      if existing.Some? {
        var row := rows[existing.value];
        if !RowOk(h, row, row.previous) { return Err(Integrity); }
        if row.envelope != e { return Err(Conflict); }
        return Ok(tenant);
      }
      var current := ResetMonth(tenant, host);
      if current.validations >= current.limit { return Err(QuotaExceeded); }
      var previous := manifest.tip;
      var hash := h.event(e, previous);
      rows := rows + [Row(host.sequence, e.auditId, e.timestamp, e.decision, e, previous, hash, h.signature(hash, previous))];
      lastSequence := host.sequence;
      manifest := Manifest(manifest.revision + 1, manifest.retained + 1, manifest.total + 1, hash, host.now);
      tenant := Counted(current, e.decision, host.now);
      return Ok(tenant);
    }

    method PurgeExpiredAudits(days: int, host: Host) returns (r: Result<nat, Failure>)
      modifies this
      ensures (State(), r) == Purge(h, old(State()), days, host)
      ensures old(Inv(h, State())) ==> Inv(h, State()) && (0 <= days <= 3650 ==> r.Ok?)
    {
      hide Inv, Verified, Expired;
      if Inv(h, State()) {
        PurgeKeeps(h, State(), days, host);
        if 0 <= days <= 3650 { PurgeRetains(h, State(), days, host); }
      }
      if days < 0 || days > 3650 { return Err(InvalidRetention); }
      var verification := VerifyAudit();
      if !verification.valid { return Err(Integrity); }
      var cutoff := host.now - days * DAY;
      var n := Expired(rows, cutoff);
      if n == 0 { return Ok(0); }
      ghost var after := Purged(State(), n, host.now);
      var savedRows, savedAnchor, savedManifest := rows, anchor, manifest;
      var boundary := rows[n - 1];
      rows := rows[n..];
      anchor := Some(Anchor(boundary.hash, boundary.sequence, Deleted(anchor) + n, host.now));
      manifest := Manifest(manifest.revision + 1, manifest.retained - n, manifest.total, manifest.tip, host.now);
      assert State() == after;
      verification := VerifyAudit();
      if !verification.valid {
        rows, anchor, manifest := savedRows, savedAnchor, savedManifest;
        return Err(Integrity);
      }
      return Ok(n);
    }
  }
}
