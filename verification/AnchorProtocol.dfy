/**
 The two-node protocol: the ledgers of all tenants, dispatchers that claim deliveries
 and post them, a network that loses, delays, repeats and reorders messages, and the
 receiver.  A posted message is never taken out of the network, so it may arrive any
 number of times or never; a dispatcher that crashes just stops acting on replies.
 */
module AnchorProtocol {
  import opened Common
  import opened ActionLedger
  import opened LedgerRuns
  import opened AnchorReceiver

  // What all tenants share, and the digest of a posted body.
  datatype Network = Network(maxAttempts: int, hashes: Hashes, entryHash: EntryHash, body: Event -> Hash)

  datatype Message = Message(tenant: string, revision: nat, lease: Id, event: Event)
  datatype Reply = Reply(message: Message, answer: Answer)
  datatype System = System(ledgers: map<string, Ledger>, store: Store, posted: set<Message>, replies: set<Reply>)

  datatype Step =
    | Bootstrap(tenant: string, now: int)
    | Transact(tenant: string, op: Op)
    | Dispatch(tenant: string, revision: nat, lease: Id, now: int)
    | Arrive(message: Message, now: int)
    | Settle(reply: Reply, now: int)
    | GiveUp(message: Message, retryable: bool, now: int)

  function ConfigOf(n: Network, tenant: string): Config {
    Config(tenant, n.maxAttempts, n.hashes)
  }

  const START := System(map[], Store([], map[]), {}, {})

  ghost predicate Enabled(s: System, step: Step) {
    match step
    case Bootstrap(t, _) => t !in s.ledgers
    case Transact(t, op) => t in s.ledgers && Allowed(s.ledgers[t], op) && !op.OpClaim? && !op.OpFinish?
    case Dispatch(t, revision, lease, now) => t in s.ledgers && Allowed(s.ledgers[t], OpClaim(revision, lease, now))
    case Arrive(m, _) => m in s.posted
    case Settle(r, _) => r in s.replies && r.message.tenant in s.ledgers
    case GiveUp(m, _, _) => m in s.posted && m.tenant in s.ledgers
  }

  // A reply in the 200s reports delivery; a conflict is answered 409, which is not retried.
  function FinishFor(r: Reply, now: int): Op {
    OpFinish(r.message.revision, r.message.lease, !IsConflict(r.answer), false, now)
  }

  ghost function OnLedger(n: Network, s: System, t: string, op: Op): System
    requires t in s.ledgers && Allowed(s.ledgers[t], op)
  {
    s.(ledgers := s.ledgers[t := Apply(ConfigOf(n, t), s.ledgers[t], op)])
  }

  function Arrived(n: Network, s: System, m: Message, now: int): System {
    var (store, answer) := Ingest(n.entryHash, s.store, m.event, n.body(m.event), now);
    s.(store := store, replies := s.replies + {Reply(m, answer)})
  }

  ghost function Next(n: Network, s: System, step: Step): System
    requires Enabled(s, step)
  {
    match step
    case Bootstrap(t, now) => s.(ledgers := s.ledgers[t := Initial(now)])
    case Transact(t, op) => OnLedger(n, s, t, op)
    case Dispatch(t, revision, lease, now) =>
      var m := Message(t, revision, lease, s.ledgers[t].deliveries[revision].payload);
      OnLedger(n, s, t, OpClaim(revision, lease, now)).(posted := s.posted + {m})
    case Arrive(m, now) => Arrived(n, s, m, now)
    case Settle(r, now) => OnLedger(n, s, r.message.tenant, FinishFor(r, now))
    case GiveUp(m, retryable, now) => OnLedger(n, s, m.tenant, OpFinish(m.revision, m.lease, false, retryable, now))
  }

  ghost predicate Follows(n: Network, s: System, t: System) {
    exists step :: Enabled(s, step) && Next(n, s, step) == t
  }

  ghost predicate Behavior(n: Network, run: seq<System>) {
    |run| > 0 && run[0] == START && forall i :: 0 <= i < |run| - 1 ==> Follows(n, run[i], run[i + 1])
  }

  // ----- Assumptions on the hashes -----

  // Different bodies have different digests.
  ghost predicate BodiesDiffer(n: Network) {
    forall e, f :: n.body(e) == n.body(f) ==> e == f
  }

  // Different tenants have different references, and different checkpoints different event ids.
  ghost predicate NamesDiffer(n: Network) {
    && (forall t, u :: n.hashes.tenantRef(t) == n.hashes.tenantRef(u) ==> t == u)
    && (forall t, u, q, r, c, d :: n.hashes.event(t, q, c) == n.hashes.event(u, r, d) ==> t == u && q == r && c == d)
  }

  // ----- The invariant -----

  // An event is the payload of a tenant's delivery.
  ghost predicate Sent(s: System, t: string, revision: nat, e: Event) {
    t in s.ledgers && revision in s.ledgers[t].deliveries && s.ledgers[t].deliveries[revision].payload == e
  }

  ghost predicate LoggedEvent(store: Store, e: Event) {
    var c := e.checkpoint;
    Logged(store, c.body.tenantRef, c.body.revision, c.hash)
  }

  // A row of the log stands for a delivery of some tenant.
  ghost predicate RowOf(n: Network, s: System, row: EventRow, t: string) {
    var e := Event(row.entry.eventId, row.entry.checkpoint);
    Sent(s, t, row.entry.Revision(), e) && row.entry.bodyHash == n.body(e)
  }

  ghost predicate Senders(n: Network, s: System) {
    && (forall t :: t in s.ledgers ==> Inv(ConfigOf(n, t), s.ledgers[t]))
    && (forall m :: m in s.posted ==> Sent(s, m.tenant, m.revision, m.event))
  }

  ghost predicate Receiver(n: Network, s: System) {
    && Sound(n.entryHash, s.store) && Increasing(s.store.events)
    && (forall row :: row in s.store.events ==> exists t :: RowOf(n, s, row, t))
  }

  ghost predicate Acks(s: System) {
    && (forall r :: r in s.replies ==> r.message in s.posted)
    && (forall r :: r in s.replies && !IsConflict(r.answer) ==> LoggedEvent(s.store, r.message.event))
    && (forall t, r :: t in s.ledgers && r in s.ledgers[t].deliveries && s.ledgers[t].deliveries[r].status == Delivered ==>
          LoggedEvent(s.store, s.ledgers[t].deliveries[r].payload))
  }

  ghost predicate Safe(n: Network, s: System) {
    Senders(n, s) && Receiver(n, s) && Acks(s)
  }

  // Conflicts in honest runs: a rollback answer is about a superseded revision, and there are no others.
  ghost predicate Benign(s: System) {
    forall r :: r in s.replies && IsConflict(r.answer) ==>
      r.answer == RollbackDetected && r.message.tenant in s.ledgers && r.message.revision < s.ledgers[r.message.tenant].manifest.revision
  }

  // ----- Steps on a ledger -----

  lemma SentStays(s: System, t: string, l: Ledger, u: string, revision: nat, e: Event)
    requires t in s.ledgers ==> OutboxGrows(s.ledgers[t], l)
    requires Sent(s, u, revision, e)
    ensures Sent(s.(ledgers := s.ledgers[t := l]), u, revision, e)
  {
  }

  // A tenant's ledger moves on, delivering nothing that is not logged.
  lemma LedgerKeeps(n: Network, s: System, t: string, l: Ledger)
    requires Safe(n, s) && Inv(ConfigOf(n, t), l)
    requires t in s.ledgers ==> OutboxGrows(s.ledgers[t], l)
    requires forall r: nat :: r in l.deliveries && l.deliveries[r].status == Delivered ==> LoggedEvent(s.store, l.deliveries[r].payload)
    ensures Safe(n, s.(ledgers := s.ledgers[t := l]))
  {
    hide Inv, OutboxGrows, Sound, Increasing, LoggedEvent, Sent;
    var next := s.(ledgers := s.ledgers[t := l]);
    forall m | m in s.posted ensures Sent(next, m.tenant, m.revision, m.event) {
      SentStays(s, t, l, m.tenant, m.revision, m.event);
    }
    forall row | row in s.store.events ensures exists u :: RowOf(n, next, row, u) {
      var u :| RowOf(n, s, row, u);
      SentStays(s, t, l, u, row.entry.Revision(), Event(row.entry.eventId, row.entry.checkpoint));
      assert RowOf(n, next, row, u);
    }
  }

  lemma NothingNew(n: Network, s: System, t: string, l: Ledger)
    requires Safe(n, s) && t in s.ledgers && NoneDelivered(s.ledgers[t], l) && OutboxGrows(s.ledgers[t], l)
    ensures forall r: nat :: r in l.deliveries && l.deliveries[r].status == Delivered ==> LoggedEvent(s.store, l.deliveries[r].payload)
  {
    hide Senders, Receiver, LoggedEvent;
  }

  lemma OpKeeps(n: Network, s: System, t: string, op: Op)
    requires Safe(n, s) && t in s.ledgers && Allowed(s.ledgers[t], op) && !(op.OpFinish? && op.delivered)
    ensures Safe(n, OnLedger(n, s, t, op))
    ensures s.ledgers[t].manifest.revision <= OnLedger(n, s, t, op).ledgers[t].manifest.revision
  {
    hide Inv, OutboxGrows, NoneDelivered, Receiver, Acks, Apply, Allowed;
    var l := Apply(ConfigOf(n, t), s.ledgers[t], op);
    StepKeeps(ConfigOf(n, t), s.ledgers[t], op);
    OthersDeliverNone(ConfigOf(n, t), s.ledgers[t], op);
    NothingNew(n, s, t, l);
    LedgerKeeps(n, s, t, l);
  }

  // Reporting success on a reply delivers a revision that the receiver has logged.
  lemma SettleKeeps(n: Network, s: System, r: Reply, now: int)
    requires Safe(n, s) && r in s.replies && r.message.tenant in s.ledgers
    ensures Safe(n, OnLedger(n, s, r.message.tenant, FinishFor(r, now)))
  {
    hide Safe, Apply;
    var t, op := r.message.tenant, FinishFor(r, now);
    if IsConflict(r.answer) {
      OpKeeps(n, s, t, op);
    } else {
      FinishKeeps(n, s, r, now);
    }
  }

  lemma FinishKeeps(n: Network, s: System, r: Reply, now: int)
    requires Safe(n, s) && r in s.replies && r.message.tenant in s.ledgers && !IsConflict(r.answer)
    ensures Safe(n, OnLedger(n, s, r.message.tenant, FinishFor(r, now)))
  {
    hide Inv, Moves, OutboxGrows, Sound, Increasing, LoggedEvent, Settled;
    var t, op := r.message.tenant, FinishFor(r, now);
    var l := s.ledgers[t];
    var m := Apply(ConfigOf(n, t), l, op);
    StepKeeps(ConfigOf(n, t), l, op);
    assert OutboxGrows(l, m) by { MovesGrows(l, m); }
    SettledPayload(ConfigOf(n, t), l, op);
    assert Sent(s, t, r.message.revision, r.message.event);
    forall q: nat | q in m.deliveries && m.deliveries[q].status == Delivered ensures LoggedEvent(s.store, m.deliveries[q].payload) {
    }
    LedgerKeeps(n, s, t, m);
  }

  lemma MovesGrows(l: Ledger, m: Ledger)
    requires Moves(l, m)
    ensures OutboxGrows(l, m) && l.manifest.revision <= m.manifest.revision
  {
  }

  lemma SettledPayload(g: Config, l: Ledger, op: Op)
    requires op.OpFinish?
    ensures var m := Apply(g, l, op);
      m.deliveries.Keys == l.deliveries.Keys && m.manifest == l.manifest
      && forall q: nat :: q in l.deliveries ==>
        m.deliveries[q].payload == l.deliveries[q].payload && (q != op.revision ==> m.deliveries[q] == l.deliveries[q])
  {
  }

  // ----- Steps of the receiver -----

  // A success answer means the posted checkpoint is in the log.
  lemma ArriveLogs(n: Network, s: System, m: Message, now: int)
    requires Safe(n, s) && BodiesDiffer(n) && m in s.posted
    ensures var (store, answer) := Ingest(n.entryHash, s.store, m.event, n.body(m.event), now);
      !IsConflict(answer) ==> LoggedEvent(store, m.event)
  {
    hide Inv, Sound, Increasing, Ingest;
    var (store, answer) := Ingest(n.entryHash, s.store, m.event, n.body(m.event), now);
    AnswerMeans(n.entryHash, s.store, m.event, n.body(m.event), now);
    if answer == Answer.Duplicate {
      DuplicateStays(n.entryHash, s.store, m.event, n.body(m.event), now);
      var row :| row in s.store.events && row.entry.eventId == m.event.id && row.entry.bodyHash == n.body(m.event);
      var t :| RowOf(n, s, row, t);
      assert Event(row.entry.eventId, row.entry.checkpoint) == m.event;
      var i :| 0 <= i < |s.store.events| && s.store.events[i] == row;
    }
  }

  lemma DuplicateStays(k: EntryHash, s: Store, e: Event, bodyHash: Hash, now: int)
    ensures Ingest(k, s, e, bodyHash, now).1 == Answer.Duplicate || IsConflict(Ingest(k, s, e, bodyHash, now).1) ==> Ingest(k, s, e, bodyHash, now).0 == s
  {
  }

  lemma ArriveRows(n: Network, s: System, m: Message, now: int)
    requires Senders(n, s) && Receiver(n, s) && m in s.posted
    ensures var (store, answer) := Ingest(n.entryHash, s.store, m.event, n.body(m.event), now);
      forall row :: row in store.events ==> exists t :: RowOf(n, s, row, t)
  {
    hide Sound, Increasing;
    var (store, answer) := Ingest(n.entryHash, s.store, m.event, n.body(m.event), now);
    forall row | row in store.events ensures exists t :: RowOf(n, s, row, t) {
      if row !in s.store.events {
        assert Event(row.entry.eventId, row.entry.checkpoint) == m.event;
        SentRevision(n, s, m);
        assert RowOf(n, s, row, m.tenant);
      }
    }
  }

  lemma SentRevision(n: Network, s: System, m: Message)
    requires Senders(n, s) && m in s.posted
    ensures m.event.checkpoint.body.revision == m.revision && m.event.checkpoint.body.tenantRef == n.hashes.tenantRef(m.tenant)
    ensures m.event == EventOf(ConfigOf(n, m.tenant), m.event.checkpoint)
    ensures m.revision <= s.ledgers[m.tenant].manifest.revision
  {
    hide RowsVerified, UniqueIds, ChainVerified, OneRecordEach;
    assert Sent(s, m.tenant, m.revision, m.event);
    assert Inv(ConfigOf(n, m.tenant), s.ledgers[m.tenant]);
    assert Faithful(ConfigOf(n, m.tenant), m.revision, s.ledgers[m.tenant].deliveries[m.revision]);
  }

  lemma ArriveKeeps(n: Network, s: System, m: Message, now: int)
    requires Safe(n, s) && BodiesDiffer(n) && m in s.posted
    ensures Safe(n, Arrived(n, s, m, now))
    ensures s.store.events <= Arrived(n, s, m, now).store.events
  {
    hide Inv, Sound, Increasing, Ingest, RowOf;
    var (store, answer) := Ingest(n.entryHash, s.store, m.event, n.body(m.event), now);
    IngestKeeps(n.entryHash, s.store, m.event, n.body(m.event), now);
    ArriveLogs(n, s, m, now);
    ArriveRows(n, s, m, now);
    var next := Arrived(n, s, m, now);
    forall row, t | RowOf(n, s, row, t) ensures RowOf(n, next, row, t) {
      SameSender(n, s, next, row, t);
    }
    forall e | LoggedEvent(s.store, e) ensures LoggedEvent(store, e) {
      LoggedStays(s.store, store, e.checkpoint.body.tenantRef, e.checkpoint.body.revision, e.checkpoint.hash);
    }
  }

  lemma SameSender(n: Network, s: System, next: System, row: EventRow, t: string)
    requires next.ledgers == s.ledgers && RowOf(n, s, row, t)
    ensures RowOf(n, next, row, t)
  {
  }

  // ----- Every step is safe -----

  lemma DispatchKeeps(n: Network, s: System, t: string, revision: nat, lease: Id, now: int)
    requires Safe(n, s) && Enabled(s, Dispatch(t, revision, lease, now))
    ensures Safe(n, Next(n, s, Dispatch(t, revision, lease, now)))
  {
    hide Inv, Sound, Increasing, Apply, LoggedEvent;
    var op := OpClaim(revision, lease, now);
    var payload := s.ledgers[t].deliveries[revision].payload;
    OpKeeps(n, s, t, op);
    var claimed := OnLedger(n, s, t, op);
    SentAfter(n, s, t, op, revision, payload);
    var next := claimed.(posted := s.posted + {Message(t, revision, lease, payload)});
    forall row, u | RowOf(n, claimed, row, u) ensures RowOf(n, next, row, u) {
      SameSender(n, claimed, next, row, u);
    }
  }

  lemma SentAfter(n: Network, s: System, t: string, op: Op, revision: nat, e: Event)
    requires Safe(n, s) && t in s.ledgers && Allowed(s.ledgers[t], op) && Sent(s, t, revision, e)
    ensures Sent(OnLedger(n, s, t, op), t, revision, e)
  {
    hide Inv, Receiver, Acks, Apply;
    StepKeeps(ConfigOf(n, t), s.ledgers[t], op);
  }

  lemma StepSafe(n: Network, s: System, step: Step)
    requires Safe(n, s) && BodiesDiffer(n) && Enabled(s, step)
    ensures Safe(n, Next(n, s, step))
  {
    hide Safe, Apply, Ingest;
    match step
    case Bootstrap(t, now) =>
      InitialInv(ConfigOf(n, t), now);
      LedgerKeeps(n, s, t, Initial(now));
    case Transact(t, op) => OpKeeps(n, s, t, op);
    case Dispatch(t, revision, lease, now) => DispatchKeeps(n, s, t, revision, lease, now);
    case Arrive(m, now) => ArriveKeeps(n, s, m, now);
    case Settle(r, now) => SettleKeeps(n, s, r, now);
    case GiveUp(m, retryable, now) => OpKeeps(n, s, m.tenant, OpFinish(m.revision, m.lease, false, retryable, now));
  }

  // ----- Runs -----

  // What has been logged, and how far each tenant and the receiver have come, is never taken back.
  ghost predicate Onward(s: System, t: System) {
    && s.store.events <= t.store.events
    && (forall k, r :: LatestAtLeast(s.store, k, r) ==> LatestAtLeast(t.store, k, r))
    && (forall k :: k in s.ledgers ==> k in t.ledgers && s.ledgers[k].manifest.revision <= t.ledgers[k].manifest.revision)
  }

  lemma OnwardOnLedger(n: Network, s: System, t: string, op: Op)
    requires Safe(n, s) && t in s.ledgers && Allowed(s.ledgers[t], op)
    ensures Onward(s, OnLedger(n, s, t, op))
  {
    hide Inv, Receiver, Acks, Apply, OutboxGrows;
    StepKeeps(ConfigOf(n, t), s.ledgers[t], op);
    MovesGrows(s.ledgers[t], Apply(ConfigOf(n, t), s.ledgers[t], op));
  }

  lemma StepOnward(n: Network, s: System, step: Step)
    requires Safe(n, s) && Enabled(s, step)
    ensures Onward(s, Next(n, s, step))
  {
    hide Safe, Apply, Ingest, Sound, LatestAtLeast;
    match step
    case Bootstrap(t, now) =>
    case Transact(t, op) => OnwardOnLedger(n, s, t, op);
    case Dispatch(t, revision, lease, now) => OnwardOnLedger(n, s, t, OpClaim(revision, lease, now));
    case Arrive(m, now) => assert Sound(n.entryHash, s.store) by { SafeSound(n, s); } IngestKeeps(n.entryHash, s.store, m.event, n.body(m.event), now);
    case Settle(r, now) => OnwardOnLedger(n, s, r.message.tenant, FinishFor(r, now));
    case GiveUp(m, retryable, now) => OnwardOnLedger(n, s, m.tenant, OpFinish(m.revision, m.lease, false, retryable, now));
  }

  lemma SafeSound(n: Network, s: System)
    requires Safe(n, s)
    ensures Sound(n.entryHash, s.store) && Increasing(s.store.events)
  {
  }

  lemma {:induction false} RunSafe(n: Network, run: seq<System>, i: nat)
    requires Behavior(n, run) && BodiesDiffer(n) && i < |run|
    ensures Safe(n, run[i])
  {
    hide Safe, Next;
    if i == 0 {
      StartSafe(n);
    } else {
      RunSafe(n, run, i - 1);
      assert Follows(n, run[i - 1], run[i - 1 + 1]);
      var step :| Enabled(run[i - 1], step) && Next(n, run[i - 1], step) == run[i];
      StepSafe(n, run[i - 1], step);
    }
  }

  lemma StartSafe(n: Network)
    ensures Safe(n, START) && Benign(START)
  {
    EmptySound(n.entryHash);
  }

  lemma {:induction false} RunOnward(n: Network, run: seq<System>, i: nat, j: nat)
    requires Behavior(n, run) && BodiesDiffer(n) && i <= j < |run|
    ensures Onward(run[i], run[j])
    decreases j - i
  {
    hide Safe, Next, LatestAtLeast;
    if i < j {
      RunOnward(n, run, i, j - 1);
      RunSafe(n, run, j - 1);
      assert Follows(n, run[j - 1], run[j - 1 + 1]);
      var step :| Enabled(run[j - 1], step) && Next(n, run[j - 1], step) == run[j];
      StepOnward(n, run[j - 1], step);
    }
  }

  // In every run, once a ledger reports its current revision acknowledged, the receiver's log holds
  // that tenant's revision with the ledger's checkpoint hash, and is at least that far, from then on.
  lemma AcknowledgedIsAnchored(n: Network, run: seq<System>, i: nat, j: nat, t: string)
    requires Behavior(n, run) && BodiesDiffer(n) && i <= j < |run|
    requires t in run[i].ledgers && Acknowledged(ConfigOf(n, t), run[i].ledgers[t]) == Ok(true)
    ensures var c := CheckpointOf(ConfigOf(n, t), run[i].ledgers[t].manifest);
      Logged(run[j].store, n.hashes.tenantRef(t), c.body.revision, c.hash) && LatestAtLeast(run[j].store, n.hashes.tenantRef(t), c.body.revision)
  {
    hide Sound, RowsVerified, UniqueIds, ChainVerified, OneRecordEach, Logged, LatestAtLeast;
    RunSafe(n, run, i);
    RunOnward(n, run, i, j);
    var s := run[i];
    var l := s.ledgers[t];
    var c := CheckpointOf(ConfigOf(n, t), l.manifest);
    assert Inv(ConfigOf(n, t), l);
    assert l.deliveries[l.manifest.revision].payload.checkpoint == c;
    assert LoggedEvent(s.store, l.deliveries[l.manifest.revision].payload);
    LoggedReached(n.entryHash, s.store, n.hashes.tenantRef(t), c.body.revision, c.hash);
    LoggedStays(s.store, run[j].store, n.hashes.tenantRef(t), c.body.revision, c.hash);
  }

  // The receiver verifies in every state of a run, and each tenant's revisions strictly increase.
  lemma ReceiverVerifies(n: Network, run: seq<System>, i: nat)
    requires Behavior(n, run) && BodiesDiffer(n) && i < |run|
    ensures Sound(n.entryHash, run[i].store) && Increasing(run[i].store.events)
  {
    RunSafe(n, run, i);
  }

  // ----- Conflicts -----

  // The row of the log with a tenant's reference came from that tenant's ledger.
  lemma RowSender(n: Network, s: System, row: EventRow, t: string)
    requires Safe(n, s) && NamesDiffer(n) && row in s.store.events && t in s.ledgers && row.entry.TenantRef() == n.hashes.tenantRef(t)
    ensures RowOf(n, s, row, t) && row.entry.Revision() <= s.ledgers[t].manifest.revision
  {
    hide Acks, Sound, Increasing, RowsVerified, UniqueIds, ChainVerified, OneRecordEach;
    var u :| RowOf(n, s, row, u);
    assert Inv(ConfigOf(n, u), s.ledgers[u]);
    assert Faithful(ConfigOf(n, u), row.entry.Revision(), s.ledgers[u].deliveries[row.entry.Revision()]);
    assert n.hashes.tenantRef(u) == n.hashes.tenantRef(t);
  }

  // A posted message meets no conflict at the receiver but a rollback, and that only once it is superseded.
  lemma ArriveBenign(n: Network, s: System, m: Message, now: int)
    requires Safe(n, s) && NamesDiffer(n) && m in s.posted
    ensures var answer := Ingest(n.entryHash, s.store, m.event, n.body(m.event), now).1;
      IsConflict(answer) ==> answer == RollbackDetected && m.tenant in s.ledgers && m.revision < s.ledgers[m.tenant].manifest.revision
  {
    hide Inv, Sound, Increasing, Ingest, RowOf, Top;
    var answer := Ingest(n.entryHash, s.store, m.event, n.body(m.event), now).1;
    AnswerMeans(n.entryHash, s.store, m.event, n.body(m.event), now);
    SentRevision(n, s, m);
    assert Sent(s, m.tenant, m.revision, m.event);
    if answer == EventConflict {
      var row :| row in Ingest(n.entryHash, s.store, m.event, n.body(m.event), now).0.events && row.entry.eventId == m.event.id && row.entry.bodyHash != n.body(m.event);
      DuplicateStays(n.entryHash, s.store, m.event, n.body(m.event), now);
      SameIdSameEvent(n, s, m, row);
    } else if answer == RollbackDetected || answer == IntegrityConflict {
      var ref := m.event.checkpoint.body.tenantRef;
      assert MatchesTop(s.store.events, ref, s.store.latest[ref]) by { SoundMatches(n.entryHash, s.store, ref); }
      var top := Top(s.store.events, ref).value;
      RowSender(n, s, top, m.tenant);
      if answer == IntegrityConflict {
        SameRevisionSameEvent(n, s, m, top);
      }
    }
  }

  lemma SoundMatches(k: EntryHash, s: Store, t: Hash)
    requires Sound(k, s) && t in s.latest
    ensures MatchesTop(s.events, t, s.latest[t])
  {
  }

  lemma SameRevisionSameEvent(n: Network, s: System, m: Message, row: EventRow)
    requires Sent(s, m.tenant, m.revision, m.event) && RowOf(n, s, row, m.tenant) && row.entry.Revision() == m.revision
    ensures Event(row.entry.eventId, row.entry.checkpoint) == m.event && row.entry.bodyHash == n.body(m.event)
  {
  }

  lemma SameIdSameEvent(n: Network, s: System, m: Message, row: EventRow)
    requires Safe(n, s) && NamesDiffer(n) && m in s.posted && row in s.store.events && row.entry.eventId == m.event.id
    ensures row.entry.bodyHash == n.body(m.event)
  {
    hide Acks, Sound, Increasing, RowsVerified, UniqueIds, ChainVerified, OneRecordEach;
    SentRevision(n, s, m);
    var u :| RowOf(n, s, row, u);
    assert Inv(ConfigOf(n, u), s.ledgers[u]);
    assert Faithful(ConfigOf(n, u), row.entry.Revision(), s.ledgers[u].deliveries[row.entry.Revision()]);
    var c, d := m.event.checkpoint, row.entry.checkpoint;
    assert n.hashes.event(c.body.tenantRef, c.body.revision, c.hash) == n.hashes.event(d.body.tenantRef, d.body.revision, d.hash);
    RowSender(n, s, row, m.tenant);
    SameRevisionSameEvent(n, s, m, row);
  }

  lemma BenignStays(s: System, t: System)
    requires Benign(s) && Onward(s, t) && t.replies <= s.replies
    ensures Benign(t)
  {
  }

  lemma StepBenign(n: Network, s: System, step: Step)
    requires Safe(n, s) && Benign(s) && NamesDiffer(n) && Enabled(s, step)
    ensures Benign(Next(n, s, step))
  {
    hide Safe, Apply, Ingest, LatestAtLeast;
    StepOnward(n, s, step);
    if step.Arrive? {
      ArriveBenign(n, s, step.message, step.now);
    } else {
      BenignStays(s, Next(n, s, step));
    }
  }

  // In every run of honest nodes the receiver answers no integrity or event conflict, and a rollback
  // only for a revision its ledger has already superseded.
  lemma {:induction false} HonestConflicts(n: Network, run: seq<System>, i: nat, r: Reply)
    requires Behavior(n, run) && BodiesDiffer(n) && NamesDiffer(n) && i < |run| && r in run[i].replies && IsConflict(r.answer)
    ensures r.answer == RollbackDetected
    ensures r.message.tenant in run[i].ledgers && r.message.revision < run[i].ledgers[r.message.tenant].manifest.revision
  {
    RunBenign(n, run, i);
  }

  lemma {:induction false} RunBenign(n: Network, run: seq<System>, i: nat)
    requires Behavior(n, run) && BodiesDiffer(n) && NamesDiffer(n) && i < |run|
    ensures Benign(run[i])
  {
    hide Safe, Benign, Next;
    if i == 0 {
      StartSafe(n);
    } else {
      RunBenign(n, run, i - 1);
      RunSafe(n, run, i - 1);
      assert Follows(n, run[i - 1], run[i - 1 + 1]);
      var step :| Enabled(run[i - 1], step) && Next(n, run[i - 1], step) == run[i];
      StepBenign(n, run[i - 1], step);
    }
  }

  // Settling any reply leaves the delivery of the current revision alive.
  lemma RepliesKillOnlySuperseded(n: Network, run: seq<System>, i: nat, r: Reply, now: int)
    requires Behavior(n, run) && BodiesDiffer(n) && NamesDiffer(n) && i < |run| && Enabled(run[i], Settle(r, now))
    requires !CurrentDead(run[i].ledgers[r.message.tenant])
    ensures !CurrentDead(Next(n, run[i], Settle(r, now)).ledgers[r.message.tenant])
  {
    hide Safe, Benign;
    RunBenign(n, run, i);
    if IsConflict(r.answer) {
      HonestConflicts(n, run, i, r);
    }
  }
}
