/** What every dispatched event keeps, and why dispatching one twice in a row is dispatching it once. */
module HandlerInvariants {
  import opened Model
  import opened Snapshots
  import opened Entitlements
  import opened Handlers

  // ---- Unique indexes and the rules only the code keeps ----

  lemma PaymentSaveKeepsUnique(ps: seq<Payment>, i: nat, p: Payment)
    requires UniquePayments(ps) && i < |ps| && p.id == ps[i].id
    requires !PaymentClash(ps, i, p) || (p.intentId == ps[i].intentId && p.sessionId == ps[i].sessionId)
    ensures UniquePayments(ps[i := p])
  {
    var qs := ps[i := p];
    forall j, k | 0 <= j < k < |qs|
      ensures qs[j].id != qs[k].id &&
              (qs[j].intentId.Some? ==> qs[j].intentId != qs[k].intentId) &&
              (qs[j].sessionId.Some? ==> qs[j].sessionId != qs[k].sessionId)
    {
      assert ps[j].id != ps[k].id;
    }
  }

  lemma SubscriptionSaveKeepsUnique(ss: seq<Subscription>, i: nat, s: Subscription)
    requires UniqueSubscriptions(ss) && i < |ss| && s.id == ss[i].id
    requires !SubscriptionClash(ss, i, s) || (s.stripeId == ss[i].stripeId && s.sessionId == ss[i].sessionId)
    ensures UniqueSubscriptions(ss[i := s])
  {
    var rs := ss[i := s];
    forall j, k | 0 <= j < k < |rs|
      ensures rs[j].id != rs[k].id && rs[j].stripeId != rs[k].stripeId &&
              (rs[j].sessionId.Some? ==> rs[j].sessionId != rs[k].sessionId)
    {
      assert ss[j].id != ss[k].id;
    }
  }

  lemma RecomputeKeepsValid(db: Db, userId: int, now: Time)
    requires Valid(db)
    ensures Valid(Recomputed(db, userId, now))
  {
    RecomputeKeepsOneRowPerKey(db.entitlements, BuildExpected(db, userId), userId, now);
  }

  lemma MirroringKeepsUnique(ss: seq<Subscription>, sub: StripeSubscription)
    requires UniqueSubscriptions(ss) && Locate(ss, sub) < |ss|
    ensures UniqueSubscriptions(ss[Locate(ss, sub) := Mirrored(ss[Locate(ss, sub)], sub)])
  {
    var i := Locate(ss, sub);
    var s := Mirrored(ss[i], sub);
    var k := SubscriptionByStripeId(ss, sub.id);
    if s.stripeId != ss[i].stripeId {
      assert k == |ss|;
      assert !SubscriptionClash(ss, i, s) by {
        forall j | 0 <= j < |ss| && j != i
          ensures ss[j].stripeId != s.stripeId && (s.sessionId.Some? ==> ss[j].sessionId != s.sessionId)
        {
          assert ss[j].id != ss[i].id;
        }
      }
    }
    SubscriptionSaveKeepsUnique(ss, i, s);
  }

  lemma {:induction false} RefundsKeepUnique(ts: seq<Transaction>, items: seq<RefundItem>, p: Payment, charge: ChargeInfo, now: Time)
    requires UniqueTransactions(ts)
    ensures UniqueTransactions(RecordRefunds(ts, items, p, charge, now))
  {
    if items != [] {
      RefundsKeepUnique(ts, items[..|items| - 1], p, charge, now);
    }
  }

  lemma CheckoutCompletedKeepsValid(db: Db, s: Session)
    requires Valid(db)
    ensures Valid(OnCheckoutCompleted(db, s).db)
  {
    var ids := ExtractLocalIds(s.metadata);
    if ids.paymentId.Some? {
      var i := PaymentById(db.payments, ids.paymentId.value);
      if i < |db.payments| {
        var p := CompletedPayment(db.payments[i], s);
        if p == db.payments[i] || !PaymentClash(db.payments, i, p) {
          PaymentSaveKeepsUnique(db.payments, i, p);
          BindShellKeepsValid(db.(payments := db.payments[i := p]), s, ids);
        }
      }
    }
  }

  lemma BindShellKeepsValid(db: Db, s: Session, ids: LocalIds)
    requires Valid(db)
    ensures Valid(BindShell(db, s, ids).db)
  {
    var realId := IdOf(s.subscription);
    if s.mode == "subscription" && ids.subscriptionId.Some? && Truthy(realId) {
      var j := SubscriptionById(db.subscriptions, ids.subscriptionId.value);
      if j < |db.subscriptions| {
        var bound := BoundSubscription(db.subscriptions[j], s, realId.value);
        if bound == db.subscriptions[j] || !SubscriptionClash(db.subscriptions, j, bound) {
          SubscriptionSaveKeepsUnique(db.subscriptions, j, bound);
        }
      }
    }
  }

  lemma ExpireShellKeepsValid(db: Db, ids: LocalIds)
    requires Valid(db)
    ensures Valid(ExpireShell(db, ids))
  {
    if ids.subscriptionId.Some? {
      var j := SubscriptionById(db.subscriptions, ids.subscriptionId.value);
      if j < |db.subscriptions| {
        SubscriptionSaveKeepsUnique(db.subscriptions, j, db.subscriptions[j].(status := IncompleteExpired));
      }
    }
  }

  lemma CheckoutExpiredKeepsValid(db: Db, s: Session)
    requires Valid(db)
    ensures Valid(OnCheckoutExpired(db, s).db)
  {
    var ids := ExtractLocalIds(s.metadata);
    if ids.paymentId.Some? {
      var i := PaymentById(db.payments, ids.paymentId.value);
      if i < |db.payments| && !db.payments[i].status.Succeeded? {
        var p := db.payments[i].(status := PaymentStatus.Canceled,
                                 sessionId := if Truthy(db.payments[i].sessionId) then db.payments[i].sessionId else Some(s.id));
        if p.sessionId == db.payments[i].sessionId || !PaymentClash(db.payments, i, p) {
          PaymentSaveKeepsUnique(db.payments, i, p);
          ExpireShellKeepsValid(db.(payments := db.payments[i := p]), ids);
        }
      }
    }
  }

  lemma IntentEventsKeepValid(db: Db, intent: Intent, now: Time)
    requires Valid(db)
    ensures Valid(OnIntentSucceeded(db, intent, now).db)
    ensures Valid(OnIntentFailed(db, intent).db)
  {
    var i := PaymentByIntent(db.payments, intent.id);
    if intent.id != "" && i < |db.payments| {
      var p := db.payments[i];
      var paid := p.(status := if Settled(p.status) then p.status else ToPaymentStatus(OrElse(intent.status, "succeeded")));
      PaymentSaveKeepsUnique(db.payments, i, paid);
      RecomputeKeepsValid(db.(payments := db.payments[i := paid],
                              transactions := RecordCharge(db.transactions, intent, paid, now)), p.userId, now);
      PaymentSaveKeepsUnique(db.payments, i, p.(status := PaymentStatus.Failed));
    }
  }

  lemma ChargeSucceededKeepsValid(db: Db, charge: ChargeInfo)
    requires Valid(db)
    ensures Valid(OnChargeSucceeded(db, charge).db)
  {
    if Truthy(charge.intent) {
      var k := PaymentByIntent(db.payments, charge.intent.value);
      if k < |db.payments| {
        PaymentSaveKeepsUnique(db.payments, k, db.payments[k].(status := PaymentStatus.Succeeded));
      }
    }
  }

  lemma ChargeRefundedKeepsValid(db: Db, charge: ChargeInfo, now: Time)
    requires Valid(db)
    ensures Valid(OnChargeRefunded(db, charge, now).db)
  {
    if Truthy(charge.intent) {
      var i := PaymentByIntent(db.payments, charge.intent.value);
      if i < |db.payments| {
        var p := db.payments[i];
        RefundsKeepUnique(db.transactions, OrElse(charge.refunds, []), p, charge, now);
        var q := OnChargeRefunded(db, charge, now).db.payments[i];
        PaymentSaveKeepsUnique(db.payments, i, q);
      }
    }
  }

  lemma SubscriptionEventsKeepValid(db: Db, sub: StripeSubscription, now: Time)
    requires Valid(db)
    ensures Valid(OnSubscriptionChanged(db, sub, now).db)
    ensures Valid(OnSubscriptionDeleted(db, sub, now).db)
  {
    var i := Locate(db.subscriptions, sub);
    if i < |db.subscriptions| {
      MirroringKeepsUnique(db.subscriptions, sub);
      RecomputeKeepsValid(db.(subscriptions := db.subscriptions[i := Mirrored(db.subscriptions[i], sub)]),
                          db.subscriptions[i].userId, now);
    }
    var k := SubscriptionByStripeId(db.subscriptions, sub.id);
    if k < |db.subscriptions| {
      var ended := CanceledSubscription(db.subscriptions[k], sub, now);
      SubscriptionSaveKeepsUnique(db.subscriptions, k, ended);
      RecomputeKeepsValid(db.(subscriptions := db.subscriptions[k := ended]), db.subscriptions[k].userId, now);
    }
  }

  lemma InvoiceEventsKeepValid(db: Db, inv: StripeInvoice, now: Time)
    requires Valid(db)
    ensures Valid(OnInvoiceLifecycle(db, inv, now).db)
    ensures Valid(OnInvoicePaymentFailed(db, inv, now).db)
  {
    var saved := UpsertInvoice(db, inv, now);
    if saved.Some? {
      if Truthy(inv.intent) {
        var k := PaymentByIntent(db.payments, inv.intent.value);
        if k < |db.payments| {
          PaymentSaveKeepsUnique(db.payments, k, db.payments[k].(status := PaymentStatus.Failed));
        }
      }
      RecomputeKeepsValid(saved.value.db.(payments := FailPaymentOf(db.payments, inv.intent)), saved.value.userId, now);
    }
  }

  lemma HandleKeepsValid(db: Db, kind: EventKind, o: EventObject, now: Time)
    requires Valid(db)
    ensures Valid(Handle(db, kind, o, now).db)
  {
    match kind
    case CheckoutCompleted => if o.SessionObject? { CheckoutCompletedKeepsValid(db, o.session); }
    case CheckoutExpired => if o.SessionObject? { CheckoutExpiredKeepsValid(db, o.session); }
    case SubscriptionChanged => if o.SubscriptionObject? { SubscriptionEventsKeepValid(db, o.subscription, now); }
    case SubscriptionDeleted => if o.SubscriptionObject? { SubscriptionEventsKeepValid(db, o.subscription, now); }
    case InvoiceLifecycle => if o.InvoiceObject? { InvoiceEventsKeepValid(db, o.invoice, now); }
    case InvoicePaymentFailed => if o.InvoiceObject? { InvoiceEventsKeepValid(db, o.invoice, now); }
    case IntentSucceeded => if o.IntentObject? { IntentEventsKeepValid(db, o.intent, now); }
    case IntentFailed => if o.IntentObject? { IntentEventsKeepValid(db, o.intent, now); }
    case ChargeSucceeded => if o.ChargeObject? { ChargeSucceededKeepsValid(db, o.charge); }
    case ChargeRefunded => if o.ChargeObject? { ChargeRefundedKeepsValid(db, o.charge, now); }
    case _ =>
  }

  /** Every event keeps the unique indexes, one charge per intent, one row per refund and one row per grant. */
  lemma DispatchKeepsValid(db: Db, e: Event, now: Time)
    requires Valid(db)
    ensures Valid(Dispatch(db, e, now).db)
  {
    HandleKeepsValid(db, KindOf(e.eventType), OrElse(e.data, NullObject), now);
  }
}
