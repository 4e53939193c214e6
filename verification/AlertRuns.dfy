/**
 What every run of the alert outbox keeps.
 */
module AlertRuns {
  import opened Common
  import opened AlertOutbox

  // ----- Verification is kept -----

  lemma RowIsOk(g: Config, key: Key, payload: Hash, d: Delivery)
    ensures DeliveryOk(g, key, Row(g, key, payload, d))
  {
  }

  // Changing deliveries in place, and webhooks in place, keeps what is verified.
  lemma SameKeysVerified(g: Config, s: Outbox, t: Outbox)
    requires Verified(g, s) && WebhooksOk(g, t) && t.webhooks.Keys == s.webhooks.Keys && t.deliveries.Keys == s.deliveries.Keys
    requires t.alerts == s.alerts && t.manifest.alerts == s.manifest.alerts && t.manifest.tip == s.manifest.tip
    requires forall key :: key in t.deliveries ==> DeliveryOk(g, key, t.deliveries[key])
    ensures Verified(g, t)
  {
    hide WebhooksOk, AlertOk, DeliveryOk, PreviousHash;
    forall i | 0 <= i < |t.alerts| ensures AlertOk(g, t.alerts[i], PreviousHash(t.alerts, i)) && DeliveriesOk(g, t, t.alerts[i].alert) {
      assert DeliveriesOk(g, s, s.alerts[i].alert);
      assert Recipients(t, t.alerts[i].alert.id) == Recipients(s, s.alerts[i].alert.id);
    }
  }

  lemma PutKeeps(g: Config, s: Outbox, key: Key, d: Delivery)
    requires Inv(g, s) && key in s.deliveries && Consistent(g, d) && s.deliveries[key].delivery.status != Delivered
    requires Live(d) ==> IsEnabled(s, key.webhook)
    ensures Safe(g, s, Put(g, s, key, d))
  {
    hide Verified, Consistent, DeliveryOk, Row, Live;
    var t := Put(g, s, key, d);
    RowIsOk(g, key, s.deliveries[key].payload, d);
    WebhooksVerified(g, s);
    assert t.deliveries.Keys == s.deliveries.Keys;
    assert forall k :: k in t.deliveries && k != key ==> t.deliveries[k] == s.deliveries[k];
    RowParts(g, key, s.deliveries[key].payload, d);
    SameKeysVerified(g, s, t);
  }

  lemma RowParts(g: Config, key: Key, payload: Hash, d: Delivery)
    ensures Row(g, key, payload, d).delivery == d && Row(g, key, payload, d).payload == payload
  {
  }

  lemma WebhooksVerified(g: Config, s: Outbox)
    requires Verified(g, s)
    ensures WebhooksOk(g, s)
  {
  }

  lemma RedriveKeeps(g: Config, s: Outbox, key: Key, now: int)
    requires Inv(g, s) && g.maxAttempts >= 1
    ensures Safe(g, s, Redrive(g, s, key, now).0)
  {
    hide Verified, Inv, Put;
    var t := Redrive(g, s, key, now).0;
    if t != s {
      var d := s.deliveries[key].delivery;
      PutKeeps(g, s, key, Delivery(Waiting, 0, now, None, None, None, None, None, d.createdAt));
    }
  }

  lemma ConsistentAt(g: Config, s: Outbox, key: Key)
    requires Inv(g, s) && key in s.deliveries
    ensures Consistent(g, s.deliveries[key].delivery) && (Live(s.deliveries[key].delivery) ==> IsEnabled(s, key.webhook))
  {
    hide Verified, Consistent, DeliveryOk, Live;
  }

  lemma ClaimKeeps(g: Config, s: Outbox, key: Key, lease: Id, opens: bool, now: int)
    requires Inv(g, s)
    ensures Safe(g, s, Claim(g, s, key, lease, opens, now))
  {
    hide Verified, Inv, Put;
    if Due(s, key, now) {
      ConsistentAt(g, s, key);
      var d := s.deliveries[key].delivery;
      var taken := d.(status := Processing, attempts := d.attempts + 1, lastAttemptAt := Some(now), lease := Some(Lease(lease, now + LEASE)));
      PutKeeps(g, s, key, if opens then taken else taken.(status := Dead, lease := None, error := Some(DECRYPTION_FAILED)));
    }
  }

  lemma FinishKeeps(g: Config, s: Outbox, key: Key, lease: Id, o: Outcome, now: int)
    requires Inv(g, s)
    ensures Safe(g, s, Finish(g, s, key, lease, o, now).0)
  {
    hide Verified, Inv, Put, DelaySeconds;
    if Held(s, key, lease) {
      ConsistentAt(g, s, key);
      PutKeeps(g, s, key, Finished(g, s.deliveries[key].delivery, o, now));
    }
  }

  lemma DisableKeeps(g: Config, s: Outbox, w: Id, now: int)
    requires Inv(g, s)
    ensures Safe(g, s, DisableWebhook(g, s, w, now).0)
  {
    hide Verified, DeliveryOk, Row, Consistent, Abandoned;
    if Verified(g, s) && w in s.webhooks {
      var t := Disabled(g, s, w, now);
      WebhooksVerified(g, s);
      assert t.webhooks.Keys == s.webhooks.Keys && t.deliveries.Keys == s.deliveries.Keys;
      forall key | key in t.deliveries
        ensures DeliveryOk(g, key, t.deliveries[key]) && Consistent(g, t.deliveries[key].delivery)
        ensures t.deliveries[key] == s.deliveries[key] || (!Live(t.deliveries[key].delivery) && s.deliveries[key].delivery.status != Delivered)
        ensures Live(t.deliveries[key].delivery) ==> IsEnabled(t, key.webhook)
      {
        AbandonedRow(g, s, key);
      }
      SameKeysVerified(g, s, t);
    }
  }

  lemma AbandonedRow(g: Config, s: Outbox, key: Key)
    requires RowsConsistent(g, s) && key in s.deliveries
    ensures DeliveryOk(g, key, Abandoned(g, key, s.deliveries[key])) && !Live(Abandoned(g, key, s.deliveries[key]).delivery)
    ensures Live(s.deliveries[key].delivery) ==> Consistent(g, Abandoned(g, key, s.deliveries[key]).delivery)
  {
  }

  // The outbox with one more webhook.
  ghost predicate OneMore(g: Config, s: Outbox, t: Outbox, w: Id) {
    && w !in s.webhooks && t.webhooks.Keys == s.webhooks.Keys + {w} && (forall v :: v in s.webhooks ==> t.webhooks[v] == s.webhooks[v])
    && t.alerts == s.alerts && t.deliveries == s.deliveries && WebhooksOk(g, t)
    && t.manifest.alerts == s.manifest.alerts && t.manifest.tip == s.manifest.tip
  }

  lemma WebhookAdded(g: Config, s: Outbox, t: Outbox, w: Id, webhook: Webhook)
    requires WebhooksOk(g, s) && w !in s.webhooks && t.webhooks == s.webhooks[w := WebhookRow(webhook, g.hashes.webhook(w, webhook))]
    requires t.manifest.webhooks == s.manifest.webhooks + 1
    ensures WebhooksOk(g, t)
  {
  }

  lemma CreateAdds(g: Config, s: Outbox, w: Id, name: Id, endpoint: Hash, now: int)
    requires Verified(g, s) && CreateWebhook(g, s, w, name, endpoint, now).1.Ok?
    ensures OneMore(g, s, CreateWebhook(g, s, w, name, endpoint, now).0, w)
  {
    hide Verified, WebhooksOk;
    WebhooksVerified(g, s);
    WebhookAdded(g, s, CreateWebhook(g, s, w, name, endpoint, now).0, w, Webhook(name, endpoint, now, None));
  }

  lemma OneMoreVerified(g: Config, s: Outbox, t: Outbox, w: Id)
    requires Verified(g, s) && RowsConsistent(g, s) && OneMore(g, s, t, w)
    ensures Verified(g, t)
  {
    hide DeliveryOk, Consistent, AlertOk, PreviousHash, WebhooksOk;
    forall i | 0 <= i < |t.alerts| ensures AlertOk(g, t.alerts[i], PreviousHash(t.alerts, i)) && DeliveriesOk(g, t, t.alerts[i].alert) {
      assert DeliveriesOk(g, s, s.alerts[i].alert);
      assert Recipients(t, t.alerts[i].alert.id) == Recipients(s, s.alerts[i].alert.id);
    }
  }

  lemma CreateKeeps(g: Config, s: Outbox, w: Id, name: Id, endpoint: Hash, now: int)
    requires Inv(g, s)
    ensures Safe(g, s, CreateWebhook(g, s, w, name, endpoint, now).0)
  {
    hide Verified, DeliveryOk, Consistent, Live, WebhooksOk;
    var (t, r) := CreateWebhook(g, s, w, name, endpoint, now);
    if r.Ok? {
      CreateAdds(g, s, w, name, endpoint, now);
      OneMoreVerified(g, s, t, w);
    }
  }

  // ----- A new alert -----

  ghost predicate NewId(s: Outbox, id: Id) {
    forall i :: 0 <= i < |s.alerts| ==> s.alerts[i].alert.id != id
  }

  lemma SafeTwice(kind: string, detail: Detail)
    ensures SafeDetail(kind, SafeDetail(kind, detail)) == SafeDetail(kind, detail)
  {
    hide AllowedNames, Fits;
  }

  // The new alert goes to the webhooks enabled at that time; the others keep their recipients.
  lemma RecipientsAfter(g: Config, s: Outbox, alert: Alert, now: int, other: Id)
    requires Inv(g, s) && NewId(s, alert.id)
    ensures Recipients(WithAlert(g, s, alert, now), alert.id) == Enabled(s)
    ensures other != alert.id ==> Recipients(WithAlert(g, s, alert, now), other) == Recipients(s, other)
  {
    hide Verified, RowsConsistent, NothingForDisabled, Row;
    assert forall key :: key in s.deliveries ==> key.alert != alert.id;
    var t := WithAlert(g, s, alert, now);
    assert forall w :: Key(alert.id, w) in t.deliveries <==> w in Enabled(s);
    assert forall w :: other != alert.id ==> (Key(other, w) in t.deliveries <==> Key(other, w) in s.deliveries);
  }

  lemma DeliveriesAfter(g: Config, s: Outbox, alert: Alert, now: int, key: Key)
    requires Inv(g, s) && NewId(s, alert.id) && key in WithAlert(g, s, alert, now).deliveries
    ensures var t := WithAlert(g, s, alert, now);
      if key.alert == alert.id then IsEnabled(s, key.webhook) && t.deliveries[key] == Row(g, key, g.hashes.content(alert), Fresh(now))
      else key in s.deliveries && t.deliveries[key] == s.deliveries[key]
  {
    hide Verified, RowsConsistent, NothingForDisabled, Row;
    assert forall k :: k in s.deliveries ==> k.alert != alert.id;
  }

  lemma AlertAfter(g: Config, s: Outbox, alert: Alert, now: int, i: nat)
    requires Inv(g, s) && NewId(s, alert.id) && i < |s.alerts|
    ensures var t := WithAlert(g, s, alert, now);
      AlertOk(g, t.alerts[i], PreviousHash(t.alerts, i)) && DeliveriesOk(g, t, t.alerts[i].alert)
  {
    hide AlertOk, DeliveryOk, WithAlert, RowsConsistent, NothingForDisabled, AlertsKnown;
    var t := WithAlert(g, s, alert, now);
    AlertsGrow(g, s, alert, now);
    assert AlertOk(g, s.alerts[i], PreviousHash(s.alerts, i)) && DeliveriesOk(g, s, s.alerts[i].alert);
    RecipientsAfter(g, s, alert, now, s.alerts[i].alert.id);
    assert t.alerts[i] == s.alerts[i] && PreviousHash(t.alerts, i) == PreviousHash(s.alerts, i);
    forall w | w in Recipients(s, s.alerts[i].alert.id)
      ensures t.deliveries[Key(s.alerts[i].alert.id, w)] == s.deliveries[Key(s.alerts[i].alert.id, w)]
    {
      assert w in Recipients(t, s.alerts[i].alert.id);
      DeliveriesAfter(g, s, alert, now, Key(s.alerts[i].alert.id, w));
    }
  }

  lemma AlertsGrow(g: Config, s: Outbox, alert: Alert, now: int)
    ensures var t := WithAlert(g, s, alert, now); t.alerts == s.alerts + [AlertRow(alert, g.hashes.alert(alert))] && t.webhooks == s.webhooks
    ensures var m := WithAlert(g, s, alert, now).manifest;
      m.alerts == s.manifest.alerts + 1 && m.webhooks == s.manifest.webhooks && m.tip == g.hashes.alert(alert)
  {
  }

  lemma LastAlert(g: Config, s: Outbox, alert: Alert, now: int)
    requires Inv(g, s) && NewId(s, alert.id) && alert.expected == |Enabled(s)| && SafeDetail(alert.kind, alert.detail) == alert.detail
    requires alert.previous == s.manifest.tip
    ensures var t := WithAlert(g, s, alert, now); var n := |s.alerts|;
      AlertOk(g, t.alerts[n], PreviousHash(t.alerts, n)) && DeliveriesOk(g, t, t.alerts[n].alert)
  {
    hide WithAlert, RowsConsistent, NothingForDisabled, AlertsKnown, SafeDetail, Row;
    var t := WithAlert(g, s, alert, now);
    var n := |s.alerts|;
    AlertsGrow(g, s, alert, now);
    assert PreviousHash(t.alerts, n) == PreviousHash(s.alerts, n) by { if n > 0 { assert t.alerts[n - 1] == s.alerts[n - 1]; } }
    RecipientsAfter(g, s, alert, now, alert.id);
    forall w | w in Recipients(t, alert.id) ensures DeliveryOk(g, Key(alert.id, w), t.deliveries[Key(alert.id, w)]) {
      DeliveriesAfter(g, s, alert, now, Key(alert.id, w));
      RowIsOk(g, Key(alert.id, w), g.hashes.content(alert), Fresh(now));
    }
  }

  lemma NewAlertVerified(g: Config, s: Outbox, alert: Alert, now: int)
    requires Inv(g, s) && NewId(s, alert.id) && alert.expected == |Enabled(s)| && SafeDetail(alert.kind, alert.detail) == alert.detail
    requires alert.previous == s.manifest.tip
    ensures Verified(g, WithAlert(g, s, alert, now))
  {
    hide WithAlert, RowsConsistent, NothingForDisabled, AlertsKnown, SafeDetail, AlertOk, DeliveriesOk;
    var t := WithAlert(g, s, alert, now);
    AlertsGrow(g, s, alert, now);
    forall i | 0 <= i < |t.alerts| ensures AlertOk(g, t.alerts[i], PreviousHash(t.alerts, i)) && DeliveriesOk(g, t, t.alerts[i].alert) {
      if i < |s.alerts| { AlertAfter(g, s, alert, now, i); } else { LastAlert(g, s, alert, now); }
    }
  }

  lemma NewAlertKeeps(g: Config, s: Outbox, alert: Alert, now: int)
    requires Inv(g, s) && g.maxAttempts >= 1 && NewId(s, alert.id) && alert.expected == |Enabled(s)|
    requires SafeDetail(alert.kind, alert.detail) == alert.detail && alert.previous == s.manifest.tip
    requires forall i :: 0 <= i < |s.alerts| ==> s.alerts[i].alert.source != alert.source
    ensures Safe(g, s, WithAlert(g, s, alert, now))
  {
    hide WithAlert, Verified, SafeDetail, Row, DeliveryOk;
    var t := WithAlert(g, s, alert, now);
    AlertsGrow(g, s, alert, now);
    NewAlertVerified(g, s, alert, now);
    forall key | key in t.deliveries
      ensures Consistent(g, t.deliveries[key].delivery) && key.webhook in t.webhooks && DeliveryOk(g, key, t.deliveries[key])
      ensures Live(t.deliveries[key].delivery) ==> IsEnabled(t, key.webhook)
      ensures exists i :: 0 <= i < |t.alerts| && t.alerts[i].alert.id == key.alert
    {
      DeliveriesAfter(g, s, alert, now, key);
      RowIsOk(g, key, g.hashes.content(alert), Fresh(now));
      RowParts(g, key, g.hashes.content(alert), Fresh(now));
      if key.alert == alert.id {
        assert t.alerts[|s.alerts|].alert.id == key.alert;
      } else {
        var i :| 0 <= i < |s.alerts| && s.alerts[i].alert.id == key.alert;
        assert t.alerts[i].alert.id == key.alert;
      }
    }
    OldStay(g, s, alert, now);
  }

  lemma OldStay(g: Config, s: Outbox, alert: Alert, now: int)
    requires Inv(g, s) && NewId(s, alert.id)
    ensures DeliveredStays(s, WithAlert(g, s, alert, now))
  {
    hide Verified, RowsConsistent, NothingForDisabled, Row;
    assert forall key :: key in s.deliveries ==> key.alert != alert.id;
  }

  lemma RecordKeeps(g: Config, s: Outbox, kind: string, severity: Id, detail: Detail, source: string, id: Id, now: int)
    requires Inv(g, s) && g.maxAttempts >= 1 && NewId(s, id)
    ensures Safe(g, s, RecordAlert(g, s, kind, severity, detail, source, id, now).0)
  {
    hide Verified, Inv, SafeDetail, WithAlert;
    var t := RecordAlert(g, s, kind, severity, detail, source, id, now).0;
    if t != s {
      SafeTwice(kind, detail);
      NewAlertKeeps(g, s, NewAlert(g, s, kind, severity, detail, source, id, now), now);
    }
  }

  // ----- Runs -----

  datatype Op =
    | OpAlert(kind: string, severity: Id, detail: Detail, source: string, id: Id, now: int)
    | OpCreate(w: Id, name: Id, endpoint: Hash, now: int)
    | OpDisable(w: Id, now: int)
    | OpRedrive(key: Key, now: int)
    | OpClaim(key: Key, lease: Id, opens: bool, now: int)
    | OpFinish(key: Key, lease: Id, outcome: Outcome, now: int)

  function Apply(g: Config, s: Outbox, op: Op): Outbox {
    match op
    case OpAlert(kind, severity, detail, source, id, now) => RecordAlert(g, s, kind, severity, detail, source, id, now).0
    case OpCreate(w, name, endpoint, now) => CreateWebhook(g, s, w, name, endpoint, now).0
    case OpDisable(w, now) => DisableWebhook(g, s, w, now).0
    case OpRedrive(key, now) => Redrive(g, s, key, now).0
    case OpClaim(key, lease, opens, now) => Claim(g, s, key, lease, opens, now)
    case OpFinish(key, lease, outcome, now) => Finish(g, s, key, lease, outcome, now).0
  }

  // Identifiers of new alerts are new.
  ghost predicate Allowed(s: Outbox, op: Op) {
    op.OpAlert? ==> NewId(s, op.id)
  }

  function Initial(now: int): Outbox {
    Outbox(map[], [], map[], Manifest(0, 0, 0, Genesis, now))
  }

  function Run(g: Config, s: Outbox, ops: seq<Op>): Outbox
    decreases |ops|
  {
    if ops == [] then s else Run(g, Apply(g, s, ops[0]), ops[1..])
  }

  ghost predicate AllAllowed(g: Config, s: Outbox, ops: seq<Op>)
    decreases |ops|
  {
    ops == [] || (Allowed(s, ops[0]) && AllAllowed(g, Apply(g, s, ops[0]), ops[1..]))
  }

  lemma StepKeeps(g: Config, s: Outbox, op: Op)
    requires Inv(g, s) && g.maxAttempts >= 1 && Allowed(s, op)
    ensures Safe(g, s, Apply(g, s, op))
  {
    hide Inv, Safe, RecordAlert, CreateWebhook, DisableWebhook, Redrive, Claim, Finish;
    match op
    case OpAlert(kind, severity, detail, source, id, now) => RecordKeeps(g, s, kind, severity, detail, source, id, now);
    case OpCreate(w, name, endpoint, now) => CreateKeeps(g, s, w, name, endpoint, now);
    case OpDisable(w, now) => DisableKeeps(g, s, w, now);
    case OpRedrive(key, now) => RedriveKeeps(g, s, key, now);
    case OpClaim(key, lease, opens, now) => ClaimKeeps(g, s, key, lease, opens, now);
    case OpFinish(key, lease, outcome, now) => FinishKeeps(g, s, key, lease, outcome, now);
  }

  // Every run keeps the invariant, and what it has delivered stays delivered.
  lemma {:induction false} RunKeeps(g: Config, s: Outbox, ops: seq<Op>)
    requires Inv(g, s) && g.maxAttempts >= 1 && AllAllowed(g, s, ops)
    ensures Safe(g, s, Run(g, s, ops))
    decreases |ops|
  {
    hide Inv, Apply;
    if ops != [] {
      StepKeeps(g, s, ops[0]);
      RunKeeps(g, Apply(g, s, ops[0]), ops[1..]);
    }
  }

  lemma RunsAreConsistent(g: Config, now: int, ops: seq<Op>)
    requires g.maxAttempts >= 1 && AllAllowed(g, Initial(now), ops)
    ensures Inv(g, Run(g, Initial(now), ops))
  {
    hide Run, AllAllowed, Safe;
    RunKeeps(g, Initial(now), ops);
    SafeIsInv(g, Initial(now), Run(g, Initial(now), ops));
  }

  lemma SafeIsInv(g: Config, s: Outbox, t: Outbox)
    requires Safe(g, s, t)
    ensures Inv(g, t)
  {
    hide Inv;
  }

  // ----- Single steps -----

  // Leases are drawn fresh: no claim of the run takes this one for this row.
  predicate NotTakenAgain(ops: seq<Op>, key: Key, lease: Id) {
    forall i :: 0 <= i < |ops| ==> !(ops[i].OpClaim? && ops[i].key == key && ops[i].lease == lease)
  }

  // Whatever an operation writes to a row that does not hold the lease, it does not give it that lease.
  lemma StepLeavesLost(g: Config, s: Outbox, op: Op, key: Key, lease: Id)
    requires Inv(g, s) && Allowed(s, op) && !Held(s, key, lease) && !(op.OpClaim? && op.key == key && op.lease == lease)
    ensures !Held(Apply(g, s, op), key, lease)
  {
    hide Verified, RowsConsistent, NothingForDisabled, DelaySeconds;
    if op.OpAlert? { AlertLeavesLost(g, s, op, key, lease); }
  }

  // A new alert only adds rows that nobody holds.
  lemma AlertLeavesLost(g: Config, s: Outbox, op: Op, key: Key, lease: Id)
    requires Inv(g, s) && Allowed(s, op) && op.OpAlert? && !Held(s, key, lease)
    ensures !Held(Apply(g, s, op), key, lease)
  {
    hide Inv, Verified, WithAlert, FindSource, NewId;
    var alert := NewAlert(g, s, op.kind, op.severity, op.detail, op.source, op.id, op.now);
    if key in WithAlert(g, s, alert, op.now).deliveries { DeliveriesAfter(g, s, alert, op.now, key); }
  }

  // A lease that is not held stays lost through every run that does not draw it again, and finishing under it
  // changes nothing and says so.
  lemma {:induction false} SupersededLeaseChangesNothing(g: Config, s: Outbox, ops: seq<Op>, key: Key, lease: Id, o: Outcome, later: int)
    requires Inv(g, s) && g.maxAttempts >= 1 && AllAllowed(g, s, ops) && !Held(s, key, lease) && NotTakenAgain(ops, key, lease)
    ensures Finish(g, Run(g, s, ops), key, lease, o, later) == (Run(g, s, ops), None)
    decreases |ops|
  {
    hide Inv, Apply, Held, Safe;
    if ops != [] {
      assert forall i :: 0 <= i < |ops[1..]| ==> ops[1..][i] == ops[i + 1];
      assert !(ops[0].OpClaim? && ops[0].key == key && ops[0].lease == lease);
      StepKeeps(g, s, ops[0]);
      SafeIsInv(g, s, Apply(g, s, ops[0]));
      StepLeavesLost(g, s, ops[0], key, lease);
      SupersededLeaseChangesNothing(g, Apply(g, s, ops[0]), ops[1..], key, lease, o, later);
    }
  }

  // So the holder of a lease that another dispatcher took over can never again change the row, whatever happens since.
  lemma TakeoverIsForGood(g: Config, s: Outbox, key: Key, first: Id, second: Id, opens: bool, now: int, ops: seq<Op>, o: Outcome, later: int)
    requires Inv(g, s) && g.maxAttempts >= 1 && Due(s, key, now) && first != second
    requires var t := Claim(g, s, key, second, opens, now); AllAllowed(g, t, ops) && NotTakenAgain(ops, key, first)
    ensures var t := Run(g, Claim(g, s, key, second, opens, now), ops); Finish(g, t, key, first, o, later) == (t, None)
  {
    hide Inv, Finish, AllAllowed, Run, NotTakenAgain, Safe;
    var t := Claim(g, s, key, second, opens, now);
    ClaimKeeps(g, s, key, second, opens, now);
    SafeIsInv(g, s, t);
    SupersededLeaseChangesNothing(g, t, ops, key, first, o, later);
  }

  // A source that was recorded before adds nothing.
  lemma RepeatedSourceAddsNothing(g: Config, s: Outbox, i: nat, kind: string, severity: Id, detail: Detail, source: string, id: Id, now: int)
    requires Inv(g, s) && i < |s.alerts| && s.alerts[i].alert.source == g.hashes.source(source)
    ensures var (t, r) := RecordAlert(g, s, kind, severity, detail, source, id, now); var a := s.alerts[i].alert;
      t == s && r == if a.kind == kind && a.severity == severity && a.detail == SafeDetail(kind, detail) then Ok(a) else Err(Conflict)
  {
    hide Verified, FindSource, SafeDetail;
    var j := FindSource(s.alerts, g.hashes.source(source)).value;
    assert i == j;
  }

  // Attempts pass the maximum exactly when the lease of a row that has used them up expires.
  lemma ClaimPassesMaximumExactly(g: Config, s: Outbox, key: Key, lease: Id, opens: bool, now: int)
    requires Inv(g, s) && Due(s, key, now)
    ensures Claim(g, s, key, lease, opens, now).deliveries[key].delivery.attempts > g.maxAttempts <==>
      s.deliveries[key].delivery.status == Processing && s.deliveries[key].delivery.attempts >= g.maxAttempts
  {
    hide Verified;
    ConsistentAt(g, s, key);
  }

  // The outbox with one enabled webhook and one alert for it.
  function OneDelivery(g: Config, alert: Alert, w: Id, webhook: Webhook): Outbox {
    Outbox(map[w := WebhookRow(webhook, g.hashes.webhook(w, webhook))], [AlertRow(alert, g.hashes.alert(alert))],
           map[Key(alert.id, w) := Row(g, Key(alert.id, w), g.hashes.content(alert), Fresh(0))], Manifest(2, 1, 1, g.hashes.alert(alert), 0))
  }

  lemma NewWebhook(g: Config, w: Id, name: Id, endpoint: Hash)
    ensures var webhook := Webhook(name, endpoint, 0, None);
      CreateWebhook(g, Initial(0), w, name, endpoint, 0).0 ==
      Outbox(map[w := WebhookRow(webhook, g.hashes.webhook(w, webhook))], [], map[], Manifest(1, 0, 1, Genesis, 0))
  {
  }

  lemma FirstAlert(g: Config, w: Id, name: Id, endpoint: Hash, kind: string, source: string, id: Id)
    ensures var s := CreateWebhook(g, Initial(0), w, name, endpoint, 0).0;
      RecordAlert(g, s, kind, 0, map[], source, id, 0).0 == OneDelivery(g, NewAlert(g, s, kind, 0, map[], source, id, 0), w, Webhook(name, endpoint, 0, None))
  {
    hide SafeDetail, Row;
    NewWebhook(g, w, name, endpoint);
    var s := CreateWebhook(g, Initial(0), w, name, endpoint, 0).0;
    var alert := NewAlert(g, s, kind, 0, map[], source, id, 0);
    assert Enabled(s) == {w};
    assert (set v | v in Enabled(s) :: Key(id, v)) == {Key(id, w)};
    assert Verified(g, s);
    assert WithAlert(g, s, alert, 0).deliveries == map[Key(id, w) := Row(g, Key(id, w), g.hashes.content(alert), Fresh(0))];
  }

  lemma ClaimTwice(g: Config, alert: Alert, w: Id, webhook: Webhook, lease: Id, again: Id)
    requires webhook.disabledAt.None?
    ensures var key := Key(alert.id, w); var once := Claim(g, OneDelivery(g, alert, w, webhook), key, lease, true, 0);
      var twice := Claim(g, once, key, again, true, LEASE); key in twice.deliveries && twice.deliveries[key].delivery.attempts == 2
  {
  }

  // With a maximum of one attempt: a webhook, an alert, a dispatcher that dies holding its lease, and another one whose
  // claim is the second attempt.
  lemma LeaseExpiryPassesMaximum(g: Config, w: Id, name: Id, endpoint: Hash, kind: string, source: string, id: Id, lease: Id, again: Id)
    requires g.maxAttempts == 1
    ensures var ops := [OpCreate(w, name, endpoint, 0), OpAlert(kind, 0, map[], source, id, 0), OpClaim(Key(id, w), lease, true, 0),
                        OpClaim(Key(id, w), again, true, LEASE)];
      && AllAllowed(g, Initial(0), ops)
      && Key(id, w) in Run(g, Initial(0), ops).deliveries && Run(g, Initial(0), ops).deliveries[Key(id, w)].delivery.attempts == 2
  {
    hide CreateWebhook, RecordAlert, Claim;
    var a, b := OpCreate(w, name, endpoint, 0), OpAlert(kind, 0, map[], source, id, 0);
    var c, d := OpClaim(Key(id, w), lease, true, 0), OpClaim(Key(id, w), again, true, LEASE);
    assert [a, b, c, d][1..] == [b, c, d] && [b, c, d][1..] == [c, d] && [c, d][1..] == [d] && [d][1..] == [];
    var s := Apply(g, Initial(0), a);
    NewWebhook(g, w, name, endpoint);
    FirstAlert(g, w, name, endpoint, kind, source, id);
    var alert := NewAlert(g, s, kind, 0, map[], source, id, 0);
    ClaimTwice(g, alert, w, Webhook(name, endpoint, 0, None), lease, again);
    var t := Apply(g, s, b);
    assert Run(g, Initial(0), [a, b, c, d]) == Run(g, s, [b, c, d]) == Run(g, t, [c, d]);
    var u := Apply(g, t, c);
    assert Run(g, t, [c, d]) == Run(g, u, [d]) == Run(g, Apply(g, u, d), []);
    assert AllAllowed(g, Apply(g, u, d), []);
    assert AllAllowed(g, u, [d]) && AllAllowed(g, t, [c, d]) && AllAllowed(g, s, [b, c, d]);
  }
}
