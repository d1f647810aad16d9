/** From what Stripe sends to what the tables hold and what a user may do. */
module EndToEnd {
  import opened Model
  import opened Snapshots
  import opened Entitlements
  import opened Handlers
  import opened HandlerInvariants
  import opened PaymentLifecycle
  import HandlerEffects

  const DAY: Time := 86_400_000

  /** Access that does not rest on subscription `i`. */
  ghost predicate EntitledBesidesSubscription(db: Db, i: nat, userId: int, featureKey: string, at: Time) {
    (exists k | 0 <= k < |db.subscriptions| && k != i :: SubscriptionGrants(db, db.subscriptions[k], userId, featureKey, at)) ||
    (exists p | p in db.payments :: PaymentGrants(db, p, userId, featureKey)) ||
    ManuallyGranted(db.entitlements, userId, featureKey, at)
  }

  /** Access that does not rest on payment `i`. */
  ghost predicate EntitledBesidesPayment(db: Db, i: nat, userId: int, featureKey: string, at: Time) {
    (exists s | s in db.subscriptions :: SubscriptionGrants(db, s, userId, featureKey, at)) ||
    (exists k | 0 <= k < |db.payments| && k != i :: PaymentGrants(db, db.payments[k], userId, featureKey)) ||
    ManuallyGranted(db.entitlements, userId, featureKey, at)
  }

  lemma EntitledAfterSubscriptionSave(db: Db, i: nat, s: Subscription, userId: int, featureKey: string, at: Time)
    requires i < |db.subscriptions|
    ensures var after := db.(subscriptions := db.subscriptions[i := s]);
            Entitled(after, userId, featureKey, at) <==>
            SubscriptionGrants(db, s, userId, featureKey, at) || EntitledBesidesSubscription(db, i, userId, featureKey, at)
  {
    var after := db.(subscriptions := db.subscriptions[i := s]);
    forall k | 0 <= k < |db.subscriptions| ensures after.subscriptions[k] in after.subscriptions {}
    assert forall x: Subscription :: SubscriptionGrants(after, x, userId, featureKey, at) <==> SubscriptionGrants(db, x, userId, featureKey, at);
    assert forall p: Payment :: PaymentGrants(after, p, userId, featureKey) <==> PaymentGrants(db, p, userId, featureKey);
    if x :| x in after.subscriptions && SubscriptionGrants(db, x, userId, featureKey, at) {
      var k :| 0 <= k < |after.subscriptions| && after.subscriptions[k] == x;
      if k != i { assert db.subscriptions[k] == x; }
    }
    if k :| 0 <= k < |db.subscriptions| && k != i && SubscriptionGrants(db, db.subscriptions[k], userId, featureKey, at) {
      assert after.subscriptions[k] == db.subscriptions[k];
    }
    if SubscriptionGrants(db, s, userId, featureKey, at) { assert after.subscriptions[i] == s; }
  }

  lemma EntitledAfterPaymentSave(db: Db, i: nat, p: Payment, ts: seq<Transaction>, userId: int, featureKey: string, at: Time)
    requires i < |db.payments|
    ensures var after := db.(payments := db.payments[i := p], transactions := ts);
            Entitled(after, userId, featureKey, at) <==>
            PaymentGrants(db, p, userId, featureKey) || EntitledBesidesPayment(db, i, userId, featureKey, at)
  {
    var after := db.(payments := db.payments[i := p], transactions := ts);
    forall k | 0 <= k < |db.payments| ensures after.payments[k] in after.payments {}
    assert forall x: Subscription :: SubscriptionGrants(after, x, userId, featureKey, at) <==> SubscriptionGrants(db, x, userId, featureKey, at);
    assert forall q: Payment :: PaymentGrants(after, q, userId, featureKey) <==> PaymentGrants(db, q, userId, featureKey);
    if x :| x in after.payments && PaymentGrants(db, x, userId, featureKey) {
      var k :| 0 <= k < |after.payments| && after.payments[k] == x;
      if k != i { assert db.payments[k] == x; }
    }
    if k :| 0 <= k < |db.payments| && k != i && PaymentGrants(db, db.payments[k], userId, featureKey) {
      assert after.payments[k] == db.payments[k];
    }
    if PaymentGrants(db, p, userId, featureKey) { assert after.payments[i] == p; }
  }

  /** The snapshot as Stripe words it keeps a feature of the plan open at `at`. */
  predicate SnapshotGrants(sub: StripeSubscription, features: seq<string>, featureKey: string, at: Time) {
    (sub.status == Some("active") || sub.status == Some("trialing") || sub.status == Some("past_due")) &&
    featureKey in features &&
    (sub.periodEnd.None? || sub.periodEnd.value * 1000 > at - DAY)
  }

  /**
   * After a subscription update, its user may use a feature exactly when the snapshot says active, trialing or past
   * due, the plan lists the feature and the period ends later than a day ago, or something else grants it.
   */
  lemma AccessFollowsSnapshot(db: Db, sub: StripeSubscription, now: Time, k: nat, featureKey: string, at: Time)
    requires Valid(db) && sub.id != "" && k < |db.subscriptions| && HandlerEffects.IsAbout(db.subscriptions, sub, k)
    requires db.subscriptions[k].userId > 0 && featureKey != ""
    ensures var row := db.subscriptions[k];
            CanAccess(OnSubscriptionChanged(db, sub, now).db.entitlements, row.userId, featureKey, at) <==>
            SnapshotGrants(sub, FeaturesOf(db.plans, row.planId), featureKey, at) ||
            EntitledBesidesSubscription(db, k, row.userId, featureKey, at)
  {
    HandlerEffects.UpdateFindsItsRow(db.subscriptions, sub, k);
    var row := Mirrored(db.subscriptions[k], sub);
    MirroringKeepsUnique(db.subscriptions, sub);
    AccessAfterRecompute(db.(subscriptions := db.subscriptions[k := row]), row.userId, now, featureKey, at);
    EntitledAfterSubscriptionSave(db, k, row, row.userId, featureKey, at);
    MirroredGrants(db, db.subscriptions[k], sub, featureKey, at);
  }

  lemma MirroredGrants(db: Db, local: Subscription, sub: StripeSubscription, featureKey: string, at: Time)
    ensures SubscriptionGrants(db, Mirrored(local, sub), local.userId, featureKey, at)
            <==> SnapshotGrants(sub, FeaturesOf(db.plans, local.planId), featureKey, at)
  {
  }

  /** A deleted subscription grants nothing from the moment its deletion is handled. */
  lemma DeletionEndsAccess(db: Db, sub: StripeSubscription, now: Time, featureKey: string, at: Time)
    requires Valid(db) && SubscriptionByStripeId(db.subscriptions, sub.id) < |db.subscriptions|
    requires db.subscriptions[SubscriptionByStripeId(db.subscriptions, sub.id)].userId > 0 && featureKey != ""
    ensures var i := SubscriptionByStripeId(db.subscriptions, sub.id);
            var userId := db.subscriptions[i].userId;
            CanAccess(OnSubscriptionDeleted(db, sub, now).db.entitlements, userId, featureKey, at) <==>
            EntitledBesidesSubscription(db, i, userId, featureKey, at)
  {
    var i := SubscriptionByStripeId(db.subscriptions, sub.id);
    var row := CanceledSubscription(db.subscriptions[i], sub, now);
    SubscriptionSaveKeepsUnique(db.subscriptions, i, row);
    AccessAfterRecompute(db.(subscriptions := db.subscriptions[i := row]), row.userId, now, featureKey, at);
    EntitledAfterSubscriptionSave(db, i, row, row.userId, featureKey, at);
  }

  /** The payment counts as paid once the intent's success has been handled. */
  predicate PaidBy(p: Payment, intent: Intent) {
    p.status.Succeeded? ||
    (!p.status.Refunded? && !p.status.PartiallyRefunded? &&
     (intent.status.None? || intent.status == Some("succeeded") || intent.status == Some("paid")))
  }

  /**
   * After a payment success, its user may use a feature exactly when the payment counts as paid and its price is a
   * one-time price of a plan that lists the feature, for good, or something else grants it.
   */
  lemma AccessFollowsPayment(db: Db, intent: Intent, now: Time, featureKey: string, at: Time)
    requires Valid(db) && intent.id != "" && PaymentByIntent(db.payments, intent.id) < |db.payments|
    requires db.payments[PaymentByIntent(db.payments, intent.id)].userId > 0 && featureKey != ""
    ensures var i := PaymentByIntent(db.payments, intent.id);
            var p := db.payments[i];
            CanAccess(OnIntentSucceeded(db, intent, now).db.entitlements, p.userId, featureKey, at) <==>
            (PaidBy(p, intent) && p.priceId.Some? && p.priceId.value in db.prices &&
             db.prices[p.priceId.value].priceType.OneTime? &&
             db.prices[p.priceId.value].planId in db.plans &&
             featureKey in db.plans[db.prices[p.priceId.value].planId].features) ||
            EntitledBesidesPayment(db, i, p.userId, featureKey, at)
  {
    var i := PaymentByIntent(db.payments, intent.id);
    var p := db.payments[i];
    var paid := p.(status := if Settled(p.status) then p.status else ToPaymentStatus(OrElse(intent.status, "succeeded")));
    PaymentSaveKeepsUnique(db.payments, i, paid);
    assert paid.status.Succeeded? <==> PaidBy(p, intent);
    var ts := RecordCharge(db.transactions, intent, paid, now);
    AccessAfterRecompute(db.(payments := db.payments[i := paid], transactions := ts), p.userId, now, featureKey, at);
    EntitledAfterPaymentSave(db, i, paid, ts, p.userId, featureKey, at);
  }

  /**
   * A refund takes no access away until something else recomputes the user's index: with the index up to date
   * before the notice, every answer after it is still the one the payment gave.
   */
  lemma RefundKeepsAccess(db: Db, charge: ChargeInfo, now: Time, userId: int, featureKey: string, at: Time)
    requires Valid(db) && userId > 0 && featureKey != "" && UpToDate(db, userId)
    ensures CanAccess(OnChargeRefunded(db, charge, now).db.entitlements, userId, featureKey, at)
            <==> Entitled(db, userId, featureKey, at)
  {
    assert Recomputed(db, userId, now) == db;
    AccessAfterRecompute(db, userId, now, featureKey, at);
  }

  // ---- Charges and invoices ----

  predicate IsChargeOf(t: Transaction, intent: string) { t.kind.Charge? && t.intentId == Some(intent) }

  /**
   * However often an intent's success is handled, its payment has exactly one charge: the row already on file, or
   * a new one for the received amount when it is positive, else the intent's, else the payment's.
   */
  lemma IntentBooksOneCharge(db: Db, intent: Intent, now: Time)
    requires Valid(db) && intent.id != "" && PaymentByIntent(db.payments, intent.id) < |db.payments|
    ensures var p, ts := db.payments[PaymentByIntent(db.payments, intent.id)], OnIntentSucceeded(db, intent, now).db.transactions;
            var k := ChargeByIntent(ts, intent.id);
            && k < |ts| && (forall j | 0 <= j < |ts| :: IsChargeOf(ts[j], intent.id) <==> j == k)
            && db.transactions <= ts
            && (k >= |db.transactions| ==>
                k == |db.transactions| && ts[k].paymentId == p.id && ts[k].userId == p.userId &&
                (intent.amountReceived.Some? && intent.amountReceived.value > 0 ==> ts[k].amount == intent.amountReceived.value) &&
                (intent.amountReceived.None? || intent.amountReceived.value <= 0 ==>
                   (intent.amount.Some? ==> ts[k].amount == intent.amount.value) &&
                   (intent.amount.None? ==> ts[k].amount == p.amount)))
  {
    var ts, before := OnIntentSucceeded(db, intent, now).db.transactions, db.transactions;
    IntentEventsKeepValid(db, intent, now);
    if ChargeByIntent(before, intent.id) == |before| {
      assert IsChargeOf(ts[|before|], intent.id);
      assert forall j | 0 <= j < |before| :: ts[j] == before[j];
    }
    var k := ChargeByIntent(ts, intent.id);
    assert forall j | 0 <= j < |ts| && j != k && IsChargeOf(ts[j], intent.id) :: ts[j].intentId == ts[k].intentId;
  }

  /** Every paid invoice carries the date it was paid. */
  predicate PaidAreDated(vs: seq<Invoice>) {
    forall i | 0 <= i < |vs| :: vs[i].status.Paid? ==> vs[i].paidAt.Some?
  }

  lemma InvoiceEventsKeepDates(db: Db, inv: StripeInvoice, now: Time)
    requires PaidAreDated(db.invoices)
    ensures PaidAreDated(OnInvoiceLifecycle(db, inv, now).db.invoices)
    ensures PaidAreDated(OnInvoicePaymentFailed(db, inv, now).db.invoices)
  {
  }

  lemma HandleKeepsDates(db: Db, kind: EventKind, o: EventObject, now: Time)
    requires PaidAreDated(db.invoices)
    ensures PaidAreDated(Handle(db, kind, o, now).db.invoices)
  {
    if o.InvoiceObject? { InvoiceEventsKeepDates(db, o.invoice, now); }
    else { assert Handle(db, kind, o, now).db.invoices == db.invoices; }
  }

  /** In every run from an empty invoice table, and from any table with the property, paid invoices are dated. */
  lemma {:induction false} PaidInvoicesAreDated(db: Db, ds: seq<Delivery>)
    requires PaidAreDated(db.invoices)
    ensures PaidAreDated(Run(db, ds).invoices)
  {
    if ds != [] {
      PaidInvoicesAreDated(db, ds[..|ds| - 1]);
      var mid, d := Run(db, ds[..|ds| - 1]), ds[|ds| - 1];
      HandleKeepsDates(mid, KindOf(d.event.eventType), OrElse(d.event.data, NullObject), d.at);
    }
  }

  /** A field follows the snapshot where it says something, and otherwise stays as it was. */
  predicate Follows<T(==)>(now: T, said: Option<T>, was: T) {
    (said.Some? ==> now == said.value) && (said.None? ==> now == was)
  }

  /** What is on file for an invoice before an event: its row, or nothing yet, with every amount zero. */
  function OnFile(db: Db, inv: StripeInvoice): Invoice {
    var i := InvoiceByStripeId(db.invoices, inv.id);
    if i < |db.invoices| then db.invoices[i]
    else NewInvoice(OrElse(OwnerOf(db.customers, inv.customer), 0), SubscriptionOfInvoice(db.subscriptions, inv), inv)
  }

  /**
   * What an invoice starts from: its row, or an empty one that belongs to the customer's user and to the subscription
   * with the invoice's subscription id, when there is one.
   */
  predicate StartsFrom(was: Invoice, db: Db, inv: StripeInvoice) {
    var i := InvoiceByStripeId(db.invoices, inv.id);
    if i < |db.invoices| then was == db.invoices[i]
    else
      was.stripeId == inv.id && was.subtotal == was.total == was.amountPaid == was.amountDue == 0 && was.number.None? &&
      was.paidAt.None? && was.intentId == inv.intent && !inv.customer.NoRef? && inv.customer.id != "" &&
      (exists c | 0 <= c < |db.customers| :: db.customers[c].stripeCustomerId == inv.customer.id && db.customers[c].userId == was.userId) &&
      (if inv.subscription.None? || inv.subscription.value == "" then was.subscriptionId.None?
       else (was.subscriptionId.None? <==> forall j | 0 <= j < |db.subscriptions| :: db.subscriptions[j].stripeId != inv.subscription.value) &&
            forall j | 0 <= j < |db.subscriptions| && db.subscriptions[j].stripeId == inv.subscription.value ::
              was.subscriptionId == Some(db.subscriptions[j].id))
  }

  lemma InvoiceStartsFromFile(db: Db, inv: StripeInvoice, now: Time)
    requires UniqueSubscriptions(db.subscriptions) && UpsertInvoice(db, inv, now).Some?
    ensures StartsFrom(OnFile(db, inv), db, inv)
  {
    var ss := db.subscriptions;
    if InvoiceByStripeId(db.invoices, inv.id) == |db.invoices| {
      var c := CustomerByStripeId(db.customers, inv.customer.id);
      assert db.customers[c].userId == OnFile(db, inv).userId;
      if inv.subscription.Some? {
        var j := SubscriptionByStripeId(ss, inv.subscription.value);
        forall k | 0 <= k < |ss| && k != j && j < |ss| ensures ss[k].stripeId != ss[j].stripeId {
          if k < j { assert ss[k].id != ss[j].id; } else { assert ss[j].id != ss[k].id; }
        }
      }
    }
  }

  /** The row an invoice event writes, field by field, against the snapshot and what was on file. */
  predicate MirrorsInvoice(row: Invoice, inv: StripeInvoice, was: Invoice, now: Time) {
    row.stripeId == was.stripeId && row.userId == was.userId && row.subscriptionId == was.subscriptionId &&
    (row.status.Paid? <==> inv.status == Some("paid")) &&
    (row.status.Open? <==> inv.status == Some("open")) &&
    (row.status.Void? <==> inv.status == Some("void")) &&
    (row.status.Uncollectible? <==> inv.status == Some("uncollectible")) &&
    Follows(row.subtotal, inv.subtotal, was.subtotal) && Follows(row.total, inv.total, was.total) &&
    Follows(row.amountPaid, inv.amountPaid, was.amountPaid) && Follows(row.amountDue, inv.amountDue, was.amountDue) &&
    (inv.number.Some? ==> row.number == inv.number) && (inv.number.None? ==> row.number == was.number) &&
    (inv.intent.Some? ==> row.intentId == inv.intent) && (inv.intent.None? ==> row.intentId == was.intentId) &&
    (if inv.periodStart.None? then row.periodStart.None? else row.periodStart == Some(inv.periodStart.value * 1000)) &&
    (if inv.periodEnd.None? then row.periodEnd.None? else row.periodEnd == Some(inv.periodEnd.value * 1000)) &&
    (if inv.paidAt.Some? && inv.paidAt.value != 0 then row.paidAt == Some(inv.paidAt.value * 1000)
     else if was.paidAt.None? && inv.status == Some("paid") then row.paidAt == Some(now)
     else row.paidAt == was.paidAt)
  }

  /**
   * An invoice event that is not ignored leaves exactly one row with its Stripe id. The row mirrors the snapshot, and
   * what was on file where the snapshot is silent; no other invoice changes, and nothing else in the database.
   */
  lemma InvoiceMirrorsSnapshot(db: Db, inv: StripeInvoice, now: Time)
    requires Valid(db) && OnInvoiceLifecycle(db, inv, now).outcome.Processed?
    ensures var vs, i := OnInvoiceLifecycle(db, inv, now).db.invoices, InvoiceByStripeId(db.invoices, inv.id);
            && i < |vs| && |vs| == (if i < |db.invoices| then |db.invoices| else |db.invoices| + 1)
            && (forall k | 0 <= k < |vs| :: vs[k].stripeId == inv.id <==> k == i)
            && (forall k | 0 <= k < |db.invoices| && k != i :: vs[k] == db.invoices[k])
            && StartsFrom(OnFile(db, inv), db, inv) && MirrorsInvoice(vs[i], inv, OnFile(db, inv), now)
            && OnInvoiceLifecycle(db, inv, now).db == db.(invoices := vs)
  {
    var i := InvoiceByStripeId(db.invoices, inv.id);
    if i < |db.invoices| {
      assert forall k | 0 <= k < |db.invoices| && k != i :: db.invoices[k].stripeId != inv.id;
    }
    InvoiceStartsFromFile(db, inv, now);
    MirroredRowMirrors(OnFile(db, inv), inv, now);
  }

  lemma MirroredRowMirrors(was: Invoice, inv: StripeInvoice, now: Time)
    ensures MirrorsInvoice(MirroredInvoice(was, inv, now), inv, was, now)
  {
  }
}
