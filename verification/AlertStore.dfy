/**
 The alert outbox as the object that carries out its transactions on tables of rows.
 */
module AlertStore {
  import opened Common
  import opened AlertOutbox
  import opened AlertRuns

  datatype Ticket = Ticket(key: Key, lease: Id, payload: Hash, attempts: nat)

  // ----- A batch of claims -----

  function Bounded(limit: int): nat {
    if limit < 1 then 1 else if limit > 100 then 100 else limit
  }

  // Claims in order, each under a lease of its own.
  function ClaimEach(g: Config, s: Outbox, picks: seq<Key>, leaseOf: nat -> Id, opens: Id -> bool, now: int): Outbox {
    if picks == [] then s
    else
      var last := |picks| - 1;
      Claim(g, ClaimEach(g, s, picks[..last], leaseOf, opens, now), picks[last], leaseOf(last), opens(picks[last].webhook), now)
  }

  lemma ClaimNone(g: Config, s: Outbox, leaseOf: nat -> Id, opens: Id -> bool, now: int)
    ensures ClaimEach(g, s, [], leaseOf, opens, now) == s
  {
  }

  lemma ClaimOneMore(g: Config, s: Outbox, picks: seq<Key>, key: Key, leaseOf: nat -> Id, opens: Id -> bool, now: int)
    ensures ClaimEach(g, s, picks + [key], leaseOf, opens, now)
        == Claim(g, ClaimEach(g, s, picks, leaseOf, opens, now), key, leaseOf(|picks|), opens(key.webhook), now)
  {
    hide Claim;
    assert (picks + [key])[..|picks|] == picks;
  }

  function NextAttempt(s: Outbox, key: Key): int {
    if key in s.deliveries then s.deliveries[key].delivery.nextAttemptAt else 0
  }

  lemma ClaimLeaves(g: Config, s: Outbox, key: Key, lease: Id, opens: bool, now: int, other: Key)
    ensures var t := Claim(g, s, key, lease, opens, now);
      && t.deliveries.Keys == s.deliveries.Keys && t.webhooks == s.webhooks && t.alerts == s.alerts
      && (Due(t, other, now) <==> Due(s, other, now) && other != key) && NextAttempt(t, other) == NextAttempt(s, other)
  {
  }

  // What is due after some claims is what was due and was not claimed.
  lemma {:induction false} DueAfter(g: Config, s: Outbox, picks: seq<Key>, leaseOf: nat -> Id, opens: Id -> bool, now: int, key: Key)
    ensures var t := ClaimEach(g, s, picks, leaseOf, opens, now);
      && (Due(t, key, now) <==> Due(s, key, now) && key !in picks) && NextAttempt(t, key) == NextAttempt(s, key)
      && t.deliveries.Keys == s.deliveries.Keys
  {
    hide Due, Claim, NextAttempt;
    if picks != [] {
      var last := |picks| - 1;
      DueAfter(g, s, picks[..last], leaseOf, opens, now, key);
      ClaimLeaves(g, ClaimEach(g, s, picks[..last], leaseOf, opens, now), picks[last], leaseOf(last), opens(picks[last].webhook), now, key);
      assert picks == picks[..last] + [picks[last]];
    }
  }

  lemma {:induction false} EarliestExists(s: Outbox, keys: set<Key>)
    requires keys != {}
    ensures exists k :: k in keys && forall j :: j in keys ==> NextAttempt(s, k) <= NextAttempt(s, j)
  {
    hide NextAttempt;
    var k :| k in keys;
    if keys - {k} != {} {
      EarliestExists(s, keys - {k});
      var m :| m in keys - {k} && forall j :: j in keys - {k} ==> NextAttempt(s, m) <= NextAttempt(s, j);
      var least := if NextAttempt(s, k) <= NextAttempt(s, m) then k else m;
      assert least in keys && forall j :: j in keys ==> NextAttempt(s, least) <= NextAttempt(s, j);
    } else {
      assert keys == {k};
    }
  }

  // Each pick was due and is new, no later than what is left, and nothing due is missing.
  ghost predicate Picked(s: Outbox, picks: seq<Key>, left: set<Key>, now: int) {
    && (forall key :: key in left <==> Due(s, key, now) && key !in picks)
    && (forall i :: 0 <= i < |picks| ==> Due(s, picks[i], now) && picks[i] !in picks[..i])
    && (forall i, key :: 0 <= i < |picks| && key in left ==> NextAttempt(s, picks[i]) <= NextAttempt(s, key))
  }

  // A ticket is for a delivery that was picked and whose credentials open.
  ghost predicate TicketsFor(picks: seq<Key>, claims: seq<Ticket>, opens: Id -> bool) {
    forall i :: 0 <= i < |claims| ==> claims[i].key in picks && opens(claims[i].key.webhook)
  }

  lemma PickedNone(s: Outbox, due: set<Key>, now: int, opens: Id -> bool)
    requires forall key :: key in due <==> Due(s, key, now)
    ensures Picked(s, [], due, now) && TicketsFor([], [], opens)
  {
  }

  lemma TicketsGrow(picks: seq<Key>, claims: seq<Ticket>, opens: Id -> bool, ticket: Ticket)
    requires TicketsFor(picks, claims, opens)
    ensures TicketsFor(picks + [ticket.key], claims, opens)
    ensures opens(ticket.key.webhook) ==> TicketsFor(picks + [ticket.key], claims + [ticket], opens)
  {
  }

  // Picking the earliest of what is left.
  lemma PickedOneMore(g: Config, s: Outbox, picks: seq<Key>, left: set<Key>, key: Key, leaseOf: nat -> Id, opens: Id -> bool, now: int)
    requires Picked(s, picks, left, now) && key in left
    requires var t := ClaimEach(g, s, picks, leaseOf, opens, now); forall j :: j in left ==> NextAttempt(t, key) <= NextAttempt(t, j)
    ensures Due(ClaimEach(g, s, picks, leaseOf, opens, now), key, now) && Picked(s, picks + [key], left - {key}, now)
  {
    hide ClaimEach, Due, NextAttempt;
    DueAfter(g, s, picks, leaseOf, opens, now, key);
    forall j | j in left ensures NextAttempt(s, key) <= NextAttempt(s, j) {
      DueAfter(g, s, picks, leaseOf, opens, now, j);
    }
    var more := picks + [key];
    assert forall i :: 0 <= i < |picks| ==> more[..i] == picks[..i];
    assert more[..|picks|] == picks;
  }

  class AlertState {
    const g: Config
    var webhooks: map<Id, WebhookRow>
    var alerts: seq<AlertRow>
    var deliveries: map<Key, DeliveryRow>
    var manifest: Manifest

    function State(): Outbox
      reads this
    {
      Outbox(webhooks, alerts, deliveries, manifest)
    }

    ghost predicate Valid()
      reads this
    {
      g.maxAttempts >= 1 && Inv(g, State())
    }

    constructor (g: Config, now: int)
      requires 1 <= g.maxAttempts <= 100
      ensures this.g == g && State() == Initial(now) && Valid()
    {
      this.g := g;
      webhooks, alerts, deliveries, manifest := map[], [], map[], Manifest(0, 0, 0, Genesis, now);
    }

    // ----- Verification -----

    method VerifyWebhooks() returns (ok: bool)
      ensures ok <==> WebhooksOk(g, State())
    {
      if |webhooks| != manifest.webhooks { return false; }
      var todo := webhooks.Keys;
      while todo != {}
        invariant todo <= webhooks.Keys
        invariant forall w :: w in webhooks && w !in todo ==> webhooks[w].control == g.hashes.webhook(w, webhooks[w].webhook)
        decreases |todo|
      {
        var w :| w in todo;
        if webhooks[w].control != g.hashes.webhook(w, webhooks[w].webhook) { return false; }
        todo := todo - {w};
      }
      return true;
    }

    method VerifyDeliveries(alert: Alert) returns (ok: bool)
      ensures ok <==> DeliveriesOk(g, State(), alert)
    {
      hide DeliveryOk;
      var recipients := set w | w in webhooks && Key(alert.id, w) in deliveries;
      assert recipients == Recipients(State(), alert.id);
      if |recipients| != alert.expected { return false; }
      var todo := recipients;
      while todo != {}
        invariant todo <= recipients
        invariant forall w :: w in recipients && w !in todo ==> DeliveryOk(g, Key(alert.id, w), deliveries[Key(alert.id, w)])
        decreases |todo|
      {
        var w :| w in todo;
        if !DeliveryOk(g, Key(alert.id, w), deliveries[Key(alert.id, w)]) { return false; }
        todo := todo - {w};
      }
      return true;
    }

    method VerifyWith() returns (valid: bool, checked: nat)
      ensures valid <==> Verified(g, State())
      ensures valid ==> checked == |alerts|
    {
      hide WebhooksOk, DeliveriesOk, AlertOk;
      var ok := VerifyWebhooks();
      if !ok || |alerts| != manifest.alerts { return false, 0; }
      var previous := Genesis;
      for index := 0 to |alerts|
        invariant previous == PreviousHash(alerts, index)
        invariant forall i :: 0 <= i < index ==> AlertOk(g, alerts[i], PreviousHash(alerts, i)) && DeliveriesOk(g, State(), alerts[i].alert)
      {
        var row := alerts[index];
        if !AlertOk(g, row, previous) { return false, index; }
        previous := row.hash;
        ok := VerifyDeliveries(row.alert);
        if !ok { return false, index; }
      }
      return previous == manifest.tip, |alerts|;
    }

    // ----- Transactions -----

    method RecordAlertWithClient(kind: string, severity: Id, detail: Detail, source: string, id: Id, now: int) returns (r: Result<Alert, Failure>)
      modifies this
      ensures (State(), r) == RecordAlert(g, old(State()), kind, severity, detail, source, id, now)
      ensures old(Valid() && NewId(State(), id)) ==> Valid()
    {
      hide Inv, Safe, Verified, FindSource, SafeDetail, Row;
      if Valid() && NewId(State(), id) {
        RecordKeeps(g, State(), kind, severity, detail, source, id, now);
        SafeIsInv(g, State(), RecordAlert(g, State(), kind, severity, detail, source, id, now).0);
      }
      var safe := SafeDetail(kind, detail);
      var hash := g.hashes.source(source);
      var valid, _ := VerifyWith();
      if !valid { return Err(Integrity); }
      var existing := FindSource(alerts, hash);
      if existing.Some? {
        var alert := alerts[existing.value].alert;
        if alert.kind != kind || alert.severity != severity || alert.detail != safe { return Err(Conflict); }
        return Ok(alert);
      }
      var recipients := set w | w in webhooks && webhooks[w].webhook.disabledAt.None?;
      assert recipients == Enabled(State());
      var alert := Alert(id, hash, kind, severity, safe, |recipients|, now, manifest.tip);
      alerts := alerts + [AlertRow(alert, g.hashes.alert(alert))];
      InsertDeliveries(alert, recipients, now);
      manifest := Manifest(manifest.revision + 1, manifest.alerts + 1, manifest.webhooks, g.hashes.alert(alert), now);
      return Ok(alert);
    }

    // One pending delivery for each recipient.
    method InsertDeliveries(alert: Alert, recipients: set<Id>, now: int)
      modifies this`deliveries
      ensures deliveries == old(deliveries) + map key | key in (set w | w in recipients :: Key(alert.id, w)) :: Row(g, key, g.hashes.content(alert), Fresh(now))
    {
      hide Row;
      var payload := g.hashes.content(alert);
      var todo := recipients;
      while todo != {}
        invariant todo <= recipients
        invariant forall key :: key in deliveries <==> key in old(deliveries) || (key.alert == alert.id && key.webhook in recipients - todo)
        invariant forall key :: key in deliveries && key.alert == alert.id && key.webhook in recipients - todo ==> deliveries[key] == Row(g, key, payload, Fresh(now))
        invariant forall key :: key in deliveries && !(key.alert == alert.id && key.webhook in recipients - todo) ==> deliveries[key] == old(deliveries)[key]
        decreases |todo|
      {
        var w :| w in todo;
        deliveries := deliveries[Key(alert.id, w) := Row(g, Key(alert.id, w), payload, Fresh(now))];
        todo := todo - {w};
      }
    }

    method CreateWebhookRow(w: Id, name: Id, endpoint: Hash, now: int) returns (r: Result<Id, Failure>)
      modifies this
      ensures (State(), r) == CreateWebhook(g, old(State()), w, name, endpoint, now)
      ensures old(Valid()) ==> Valid()
    {
      hide Inv, Safe, Verified;
      if Valid() {
        CreateKeeps(g, State(), w, name, endpoint, now);
        SafeIsInv(g, State(), CreateWebhook(g, State(), w, name, endpoint, now).0);
      }
      var valid, _ := VerifyWith();
      if !valid { return Err(Integrity); }
      if w in webhooks || exists v :: v in webhooks && (webhooks[v].webhook.name == name || webhooks[v].webhook.endpoint == endpoint) { return Err(Conflict); }
      var webhook := Webhook(name, endpoint, now, None);
      webhooks := webhooks[w := WebhookRow(webhook, g.hashes.webhook(w, webhook))];
      manifest := manifest.(revision := manifest.revision + 1, webhooks := manifest.webhooks + 1, updatedAt := now);
      return Ok(w);
    }

    method DisableWebhookRow(w: Id, now: int) returns (r: Result<bool, Failure>)
      modifies this
      ensures (State(), r) == DisableWebhook(g, old(State()), w, now)
      ensures old(Valid()) ==> Valid()
    {
      hide Inv, Safe, Verified, Abandoned;
      if Valid() {
        DisableKeeps(g, State(), w, now);
        SafeIsInv(g, State(), DisableWebhook(g, State(), w, now).0);
      }
      var valid, _ := VerifyWith();
      if !valid { return Err(Integrity); }
      if w !in webhooks { return Ok(false); }
      var webhook := webhooks[w].webhook;
      var after := webhook.(disabledAt := if webhook.disabledAt.Some? then webhook.disabledAt else Some(now));
      webhooks := webhooks[w := WebhookRow(after, g.hashes.webhook(w, after))];
      AbandonDeliveries(w);
      return Ok(true);
    }

    // Every live delivery to the webhook is given up.
    method AbandonDeliveries(w: Id)
      modifies this`deliveries
      ensures deliveries == map key | key in old(deliveries) ::
        if key.webhook == w && Live(old(deliveries)[key].delivery) then Abandoned(g, key, old(deliveries)[key]) else old(deliveries)[key]
    {
      hide Abandoned, Live;
      ghost var start := deliveries;
      var todo := set key | key in deliveries && key.webhook == w && Live(deliveries[key].delivery);
      while todo != {}
        invariant deliveries.Keys == start.Keys && todo <= start.Keys
        invariant forall key :: key in todo ==> key.webhook == w && Live(start[key].delivery)
        invariant forall key :: key in start && key.webhook == w && Live(start[key].delivery) && key !in todo ==> deliveries[key] == Abandoned(g, key, start[key])
        invariant forall key :: key in start && !(key.webhook == w && Live(start[key].delivery) && key !in todo) ==> deliveries[key] == start[key]
        decreases |todo|
      {
        var key :| key in todo;
        deliveries := deliveries[key := Abandoned(g, key, deliveries[key])];
        todo := todo - {key};
      }
    }

    method RedriveDelivery(key: Key, now: int) returns (r: Result<bool, Failure>)
      modifies this
      ensures (State(), r) == Redrive(g, old(State()), key, now)
      ensures old(Valid()) ==> Valid()
    {
      hide Inv, Safe, Verified, Row;
      if Valid() {
        RedriveKeeps(g, State(), key, now);
        SafeIsInv(g, State(), Redrive(g, State(), key, now).0);
      }
      var valid, _ := VerifyWith();
      if !valid { return Err(Integrity); }
      if key !in deliveries || deliveries[key].delivery.status != Dead { return Ok(false); }
      if key.webhook !in webhooks || webhooks[key.webhook].webhook.disabledAt.Some? { return Ok(false); }
      var row := deliveries[key];
      deliveries := deliveries[key := Row(g, key, row.payload, Delivery(Waiting, 0, now, None, None, None, None, None, row.delivery.createdAt))];
      return Ok(true);
    }

    // Due deliveries, earliest first, until the bound or until none is left.
    method ClaimDeliveries(limit: int, leaseOf: nat -> Id, opens: Id -> bool, now: int) returns (picks: seq<Key>, claims: seq<Ticket>)
      modifies this
      ensures |picks| <= Bounded(limit) && State() == ClaimEach(g, old(State()), picks, leaseOf, opens, now)
      ensures exists left :: Picked(old(State()), picks, left, now) && (|picks| < Bounded(limit) ==> left == {})
      ensures TicketsFor(picks, claims, opens)
      ensures old(Valid()) ==> Valid()
    {
      hide Inv, Safe, Claim, Due, NextAttempt, ClaimEach, Picked, TicketsFor;
      ghost var start := State();
      ghost var valid := Valid();
      picks, claims := [], [];
      ClaimNone(g, start, leaseOf, opens, now);
      var due := DueKeys(now);
      PickedNone(start, due, now, opens);
      while |picks| < Bounded(limit) && due != {}
        invariant |picks| <= Bounded(limit) && State() == ClaimEach(g, start, picks, leaseOf, opens, now)
        invariant Picked(start, picks, due, now) && TicketsFor(picks, claims, opens)
        invariant valid ==> Valid()
        decreases |due|
      {
        EarliestExists(State(), due);
        var key :| key in due && forall j :: j in due ==> NextAttempt(State(), key) <= NextAttempt(State(), j);
        PickedOneMore(g, start, picks, due, key, leaseOf, opens, now);
        if Valid() {
          ClaimKeeps(g, State(), key, leaseOf(|picks|), opens(key.webhook), now);
          SafeIsInv(g, State(), Claim(g, State(), key, leaseOf(|picks|), opens(key.webhook), now));
        }
        var ticket := ClaimOne(key, leaseOf(|picks|), opens(key.webhook), now);
        TicketsGrow(picks, claims, opens, ticket);
        if opens(key.webhook) { claims := claims + [ticket]; }
        ClaimOneMore(g, start, picks, key, leaseOf, opens, now);
        picks := picks + [key];
        due := due - {key};
      }
    }

    method DueKeys(now: int) returns (due: set<Key>)
      ensures forall key :: key in due <==> Due(State(), key, now)
    {
      due := set key | key in deliveries && Due(State(), key, now);
      assert forall key :: Due(State(), key, now) ==> key in deliveries;
    }

    method ClaimOne(key: Key, lease: Id, opens: bool, now: int) returns (ticket: Ticket)
      requires Due(State(), key, now)
      modifies this`deliveries
      ensures State() == Claim(g, old(State()), key, lease, opens, now)
      ensures key in old(deliveries) && ticket == Ticket(key, lease, old(deliveries)[key].payload, old(deliveries)[key].delivery.attempts + 1)
    {
      hide Row;
      var row := deliveries[key];
      var taken := row.delivery.(status := Processing, attempts := row.delivery.attempts + 1, lastAttemptAt := Some(now), lease := Some(Lease(lease, now + LEASE)));
      if opens {
        deliveries := deliveries[key := Row(g, key, row.payload, taken)];
      } else {
        deliveries := deliveries[key := Row(g, key, row.payload, taken.(status := Dead, lease := None, error := Some(DECRYPTION_FAILED)))];
      }
      return Ticket(key, lease, row.payload, row.delivery.attempts + 1);
    }

    method FinishDelivery(key: Key, lease: Id, o: Outcome, now: int) returns (r: Option<Status>)
      modifies this
      ensures (State(), r) == Finish(g, old(State()), key, lease, o, now)
      ensures old(Valid()) ==> Valid()
    {
      hide Inv, Safe, Row, DelaySeconds;
      if Valid() {
        FinishKeeps(g, State(), key, lease, o, now);
        SafeIsInv(g, State(), Finish(g, State(), key, lease, o, now).0);
      }
      if !Held(State(), key, lease) { return None; }
      var row := deliveries[key];
      var error := if o.error.Some? then o.error else Some(DELIVERY_FAILED);
      var updated: Delivery;
      if o.delivered {
        updated := row.delivery.(status := Delivered, deliveredAt := Some(now), response := o.response, error := None, lease := None);
      } else if o.retryable && row.delivery.attempts < g.maxAttempts {
        updated := row.delivery.(status := Waiting, nextAttemptAt := now + DelaySeconds(row.delivery.attempts) * 1000, response := o.response, error := error, lease := None);
      } else {
        updated := row.delivery.(status := Dead, response := o.response, error := error, lease := None);
      }
      deliveries := deliveries[key := Row(g, key, row.payload, updated)];
      return Some(updated.status);
    }
  }
}
