/**
 The alert outbox of one tenant: alerts on a hash chain, webhooks that can be disabled
 for good, and one delivery for each alert and each webhook that was enabled when the
 alert was recorded.  A delivery is claimed under a lease and finished, retried or
 given up.
 */
module AlertOutbox {
  import opened Common

  type Id = nat
  datatype Hash = Genesis | Hmac(value: nat)

  // ----- Details an alert may carry -----

  datatype Item = Text(text: string) | Texts(texts: seq<string>) | Other(value: Id)
  type Detail = map<string, Item>

  function AllowedNames(kind: string): set<string> {
    if kind == "action_reconciled" then {"reservation_id", "reconciliation_id", "audit_id", "outcome", "evidence_hash"}
    else if kind == "breaking_schema_drift" then {"tool_name_hash", "changes"}
    else if kind == "schema_promoted" then {"release_id", "tool_name_hash", "environment", "schema_hash", "compatibility"}
    else if kind == "schema_enforcement_changed" then {"environment", "mode"}
    else if kind == "validation_rejected" then {"audit_id", "reason_code"}
    else {}
  }

  predicate Fits(item: Item) {
    match item
    case Text(text) => |text| <= 512
    case Texts(texts) => |texts| <= 100 && forall i :: 0 <= i < |texts| ==> |texts[i]| <= 128
    case Other(_) => false
  }

  function SafeDetail(kind: string, detail: Detail): Detail {
    map name | name in detail && name in AllowedNames(kind) && Fits(detail[name]) :: detail[name]
  }

  // ----- Rows -----

  datatype Webhook = Webhook(name: Id, endpoint: Hash, createdAt: int, disabledAt: Option<int>)
  datatype WebhookRow = WebhookRow(webhook: Webhook, control: Hash)

  datatype Alert = Alert(id: Id, source: Hash, kind: string, severity: Id, detail: Detail, expected: nat, createdAt: int, previous: Hash)
  datatype AlertRow = AlertRow(alert: Alert, hash: Hash)

  datatype Status = Waiting | Processing | Delivered | Dead
  datatype Lease = Lease(id: Id, expiresAt: int)
  datatype Delivery = Delivery(
    status: Status, attempts: nat, nextAttemptAt: int, lastAttemptAt: Option<int>, deliveredAt: Option<int>,
    response: Option<Id>, error: Option<Id>, lease: Option<Lease>, createdAt: int)

  // An alert has at most one delivery to a webhook.
  datatype Key = Key(alert: Id, webhook: Id)
  datatype DeliveryRow = DeliveryRow(delivery: Delivery, payload: Hash, payloadMac: Hash, stateMac: Hash)

  datatype Manifest = Manifest(revision: nat, alerts: nat, webhooks: nat, tip: Hash, updatedAt: int)
  datatype Outbox = Outbox(webhooks: map<Id, WebhookRow>, alerts: seq<AlertRow>, deliveries: map<Key, DeliveryRow>, manifest: Manifest)

  datatype Hashes = Hashes(
    source: string -> Hash,
    webhook: (Id, Webhook) -> Hash,
    alert: Alert -> Hash,
    content: Alert -> Hash,
    payload: (Key, Hash, int) -> Hash,
    state: (Key, Hash, Delivery) -> Hash)

  datatype Config = Config(maxAttempts: nat, hashes: Hashes)
  datatype Failure = Integrity | Conflict

  const WEBHOOK_DISABLED: Id := 0
  const DECRYPTION_FAILED: Id := 1
  const DELIVERY_FAILED: Id := 2

  function Row(g: Config, key: Key, payload: Hash, d: Delivery): DeliveryRow {
    DeliveryRow(d, payload, g.hashes.payload(key, payload, d.createdAt), g.hashes.state(key, payload, d))
  }

  // ----- Verification -----

  predicate WebhooksOk(g: Config, s: Outbox) {
    |s.webhooks| == s.manifest.webhooks && forall w :: w in s.webhooks ==> s.webhooks[w].control == g.hashes.webhook(w, s.webhooks[w].webhook)
  }

  function PreviousHash(alerts: seq<AlertRow>, i: nat): Hash
    requires i <= |alerts|
  {
    if i == 0 then Genesis else alerts[i - 1].hash
  }

  predicate AlertOk(g: Config, row: AlertRow, previous: Hash) {
    && SafeDetail(row.alert.kind, row.alert.detail) == row.alert.detail
    && row.alert.previous == previous && row.hash == g.hashes.alert(row.alert)
  }

  function Recipients(s: Outbox, alert: Id): set<Id> {
    set w | w in s.webhooks && Key(alert, w) in s.deliveries
  }

  predicate DeliveryOk(g: Config, key: Key, row: DeliveryRow) {
    row == Row(g, key, row.payload, row.delivery)
  }

  predicate DeliveriesOk(g: Config, s: Outbox, alert: Alert) {
    && |Recipients(s, alert.id)| == alert.expected
    && forall w :: w in Recipients(s, alert.id) ==> DeliveryOk(g, Key(alert.id, w), s.deliveries[Key(alert.id, w)])
  }

  predicate ChainOk(g: Config, s: Outbox) {
    forall i :: 0 <= i < |s.alerts| ==> AlertOk(g, s.alerts[i], PreviousHash(s.alerts, i)) && DeliveriesOk(g, s, s.alerts[i].alert)
  }

  predicate Verified(g: Config, s: Outbox) {
    WebhooksOk(g, s) && |s.alerts| == s.manifest.alerts && ChainOk(g, s) && PreviousHash(s.alerts, |s.alerts|) == s.manifest.tip
  }

  // ----- Recording alerts -----

  function FindSource(alerts: seq<AlertRow>, source: Hash): (r: Option<nat>)
    ensures r.Some? ==> r.value < |alerts| && alerts[r.value].alert.source == source
    ensures r.None? ==> forall i :: 0 <= i < |alerts| ==> alerts[i].alert.source != source
  {
    if alerts == [] then None
    else
      var last := |alerts| - 1;
      if alerts[last].alert.source == source then Some(last) else FindSource(alerts[..last], source)
  }

  predicate IsEnabled(s: Outbox, w: Id) {
    w in s.webhooks && s.webhooks[w].webhook.disabledAt.None?
  }

  function Enabled(s: Outbox): set<Id> {
    set w | w in s.webhooks && IsEnabled(s, w)
  }

  function Fresh(now: int): Delivery {
    Delivery(Waiting, 0, now, None, None, None, None, None, now)
  }

  // The new alert, hashed onto the chain.
  function NewAlert(g: Config, s: Outbox, kind: string, severity: Id, detail: Detail, source: string, id: Id, now: int): Alert {
    Alert(id, g.hashes.source(source), kind, severity, SafeDetail(kind, detail), |Enabled(s)|, now, s.manifest.tip)
  }

  function WithAlert(g: Config, s: Outbox, alert: Alert, now: int): Outbox {
    var payload := g.hashes.content(alert);
    var added := map key | key in (set w | w in Enabled(s) :: Key(alert.id, w)) :: Row(g, key, payload, Fresh(now));
    Outbox(s.webhooks, s.alerts + [AlertRow(alert, g.hashes.alert(alert))], s.deliveries + added,
           Manifest(s.manifest.revision + 1, s.manifest.alerts + 1, s.manifest.webhooks, g.hashes.alert(alert), now))
  }

  function RecordAlert(g: Config, s: Outbox, kind: string, severity: Id, detail: Detail, source: string, id: Id, now: int): (Outbox, Result<Alert, Failure>) {
    var existing := FindSource(s.alerts, g.hashes.source(source));
    if !Verified(g, s) then (s, Err(Integrity))
    else if existing.Some? then
      var alert := s.alerts[existing.value].alert;
      (s, if alert.kind != kind || alert.severity != severity || alert.detail != SafeDetail(kind, detail) then Err(Conflict) else Ok(alert))
    else
      var alert := NewAlert(g, s, kind, severity, detail, source, id, now);
      (WithAlert(g, s, alert, now), Ok(alert))
  }

  // ----- Webhooks -----

  function CreateWebhook(g: Config, s: Outbox, w: Id, name: Id, endpoint: Hash, now: int): (Outbox, Result<Id, Failure>) {
    if !Verified(g, s) then (s, Err(Integrity))
    else if w in s.webhooks || exists v :: v in s.webhooks && (s.webhooks[v].webhook.name == name || s.webhooks[v].webhook.endpoint == endpoint) then
      (s, Err(Conflict))
    else
      var webhook := Webhook(name, endpoint, now, None);
      (s.(webhooks := s.webhooks[w := WebhookRow(webhook, g.hashes.webhook(w, webhook))],
          manifest := s.manifest.(revision := s.manifest.revision + 1, webhooks := s.manifest.webhooks + 1, updatedAt := now)), Ok(w))
  }

  predicate Live(d: Delivery) {
    d.status == Waiting || d.status == Processing
  }

  function Abandoned(g: Config, key: Key, row: DeliveryRow): DeliveryRow {
    Row(g, key, row.payload, row.delivery.(status := Dead, lease := None, error := Some(WEBHOOK_DISABLED)))
  }

  function Disabled(g: Config, s: Outbox, w: Id, now: int): Outbox
    requires w in s.webhooks
  {
    var webhook := s.webhooks[w].webhook;
    var after := webhook.(disabledAt := if webhook.disabledAt.Some? then webhook.disabledAt else Some(now));
    s.(webhooks := s.webhooks[w := WebhookRow(after, g.hashes.webhook(w, after))],
       deliveries := map key | key in s.deliveries ::
         if key.webhook == w && Live(s.deliveries[key].delivery) then Abandoned(g, key, s.deliveries[key]) else s.deliveries[key])
  }

  function DisableWebhook(g: Config, s: Outbox, w: Id, now: int): (Outbox, Result<bool, Failure>) {
    if !Verified(g, s) then (s, Err(Integrity))
    else if w !in s.webhooks then (s, Ok(false))
    else (Disabled(g, s, w, now), Ok(true))
  }

  // ----- Deliveries -----

  function Put(g: Config, s: Outbox, key: Key, d: Delivery): Outbox
    requires key in s.deliveries
  {
    s.(deliveries := s.deliveries[key := Row(g, key, s.deliveries[key].payload, d)])
  }

  function Redrive(g: Config, s: Outbox, key: Key, now: int): (Outbox, Result<bool, Failure>) {
    if !Verified(g, s) then (s, Err(Integrity))
    else if key !in s.deliveries || s.deliveries[key].delivery.status != Dead then (s, Ok(false))
    else if !IsEnabled(s, key.webhook) then (s, Ok(false))
    else
      var d := s.deliveries[key].delivery;
      (Put(g, s, key, Delivery(Waiting, 0, now, None, None, None, None, None, d.createdAt)), Ok(true))
  }

  predicate Due(s: Outbox, key: Key, now: int) {
    key in s.deliveries && IsEnabled(s, key.webhook) &&
    var d := s.deliveries[key].delivery;
    (d.status == Waiting && d.nextAttemptAt <= now) || (d.status == Processing && d.lease.Some? && d.lease.value.expiresAt <= now)
  }

  const LEASE := 30_000

  // One claim; opens tells whether the webhook's credentials can be decrypted.
  function Claim(g: Config, s: Outbox, key: Key, lease: Id, opens: bool, now: int): Outbox {
    if !Due(s, key, now) then s
    else
      var d := s.deliveries[key].delivery;
      var taken := d.(status := Processing, attempts := d.attempts + 1, lastAttemptAt := Some(now), lease := Some(Lease(lease, now + LEASE)));
      Put(g, s, key, if opens then taken else taken.(status := Dead, lease := None, error := Some(DECRYPTION_FAILED)))
  }

  function DelaySeconds(attempts: nat): nat {
    var doubled := Power2(if attempts < 11 then attempts else 11);
    if doubled < 3600 then doubled else 3600
  }

  function Power2(n: nat): nat {
    if n == 0 then 1 else 2 * Power2(n - 1)
  }

  datatype Outcome = Outcome(delivered: bool, retryable: bool, response: Option<Id>, error: Option<Id>)

  function Finished(g: Config, d: Delivery, o: Outcome, now: int): Delivery {
    var error := if o.error.Some? then o.error else Some(DELIVERY_FAILED);
    if o.delivered then d.(status := Delivered, deliveredAt := Some(now), response := o.response, error := None, lease := None)
    else if o.retryable && d.attempts < g.maxAttempts then
      d.(status := Waiting, nextAttemptAt := now + DelaySeconds(d.attempts) * 1000, response := o.response, error := error, lease := None)
    else d.(status := Dead, response := o.response, error := error, lease := None)
  }

  predicate Held(s: Outbox, key: Key, lease: Id) {
    key in s.deliveries && s.deliveries[key].delivery.status == Processing
    && s.deliveries[key].delivery.lease.Some? && s.deliveries[key].delivery.lease.value.id == lease
  }

  function Finish(g: Config, s: Outbox, key: Key, lease: Id, o: Outcome, now: int): (Outbox, Option<Status>) {
    if !Held(s, key, lease) then (s, None)
    else
      var d := Finished(g, s.deliveries[key].delivery, o, now);
      (Put(g, s, key, d), Some(d.status))
  }

  // ----- The invariant -----

  // A lease exactly while processing, attempts left while waiting, a time of delivery exactly when delivered.
  predicate Consistent(g: Config, d: Delivery) {
    && (d.lease.Some? <==> d.status == Processing) && (d.status == Waiting ==> d.attempts < g.maxAttempts)
    && (d.deliveredAt.Some? <==> d.status == Delivered)
  }

  ghost predicate RowsConsistent(g: Config, s: Outbox) {
    forall key :: key in s.deliveries ==>
      Consistent(g, s.deliveries[key].delivery) && key.webhook in s.webhooks && DeliveryOk(g, key, s.deliveries[key])
  }

  // Nothing is to be sent to a disabled webhook.
  ghost predicate NothingForDisabled(s: Outbox) {
    forall key :: key in s.deliveries && Live(s.deliveries[key].delivery) ==> IsEnabled(s, key.webhook)
  }

  ghost predicate AlertsKnown(s: Outbox) {
    && (forall key :: key in s.deliveries ==> exists i :: 0 <= i < |s.alerts| && s.alerts[i].alert.id == key.alert)
    && (forall i, j :: 0 <= i < j < |s.alerts| ==> s.alerts[i].alert.id != s.alerts[j].alert.id && s.alerts[i].alert.source != s.alerts[j].alert.source)
  }

  ghost predicate Inv(g: Config, s: Outbox) {
    Verified(g, s) && RowsConsistent(g, s) && NothingForDisabled(s) && AlertsKnown(s)
  }

  // A delivered row is never touched again.
  ghost predicate DeliveredStays(s: Outbox, t: Outbox) {
    forall key :: key in s.deliveries && s.deliveries[key].delivery.status == Delivered ==> key in t.deliveries && t.deliveries[key] == s.deliveries[key]
  }

  // What holds of every step: the invariant is kept and deliveries stay delivered.
  ghost predicate Safe(g: Config, s: Outbox, t: Outbox) {
    Inv(g, t) && DeliveredStays(s, t)
  }
}
