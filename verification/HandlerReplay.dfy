/** Handling an event a second time, right after the first, is handling it once. */
module HandlerReplay {
  import opened Model
  import opened Snapshots
  import opened Entitlements
  import opened Handlers
  import opened HandlerInvariants

  lemma RecomputedTwice(db: Db, userId: int, now: Time, later: Time)
    requires Valid(db)
    ensures Recomputed(Recomputed(db, userId, now), userId, later) == Recomputed(db, userId, now)
  {
    ExpectedIsWellFormed(db, userId);
    RecomputeTwice(db.entitlements, BuildExpected(db, userId), userId, now, later);
  }

  lemma BindShellTwice(db: Db, s: Session, ids: LocalIds)
    requires Valid(db)
    ensures var once := BindShell(db, s, ids);
            BindShell(once.db, s, ids) == once
  {
    var realId := IdOf(s.subscription);
    if s.mode == "subscription" && ids.subscriptionId.Some? && Truthy(realId) {
      var j := SubscriptionById(db.subscriptions, ids.subscriptionId.value);
      if j < |db.subscriptions| {
        SubscriptionByIdAfterSave(db.subscriptions, j, BoundSubscription(db.subscriptions[j], s, realId.value),
                                  ids.subscriptionId.value);
      }
    }
  }

  lemma CheckoutCompletedTwice(db: Db, s: Session)
    requires Valid(db)
    ensures var once := OnCheckoutCompleted(db, s);
            OnCheckoutCompleted(once.db, s) == once
  {
    var ids := ExtractLocalIds(s.metadata);
    if ids.paymentId.Some? {
      var i := PaymentById(db.payments, ids.paymentId.value);
      if i < |db.payments| {
        var p := CompletedPayment(db.payments[i], s);
        if p == db.payments[i] || !PaymentClash(db.payments, i, p) {
          var mid := db.(payments := db.payments[i := p]);
          PaymentSaveKeepsUnique(db.payments, i, p);
          PaymentByIdAfterSave(db.payments, i, p, ids.paymentId.value);
          assert CompletedPayment(p, s) == p;
          BindShellTwice(mid, s, ids);
          var once := BindShell(mid, s, ids);
          assert once.db.payments == mid.payments;
          assert once.db.(payments := once.db.payments[i := p]) == once.db;
        }
      }
    }
  }

  lemma ExpireShellTwice(db: Db, ids: LocalIds)
    ensures ExpireShell(ExpireShell(db, ids), ids) == ExpireShell(db, ids)
  {
    if ids.subscriptionId.Some? {
      var j := SubscriptionById(db.subscriptions, ids.subscriptionId.value);
      if j < |db.subscriptions| {
        SubscriptionByIdAfterSave(db.subscriptions, j, ExpireShell(db, ids).subscriptions[j], ids.subscriptionId.value);
      }
    }
  }

  lemma CheckoutExpiredTwice(db: Db, s: Session)
    requires Valid(db)
    ensures var once := OnCheckoutExpired(db, s);
            OnCheckoutExpired(once.db, s) == once
  {
    var ids := ExtractLocalIds(s.metadata);
    if ids.paymentId.Some? {
      var i := PaymentById(db.payments, ids.paymentId.value);
      if i < |db.payments| && !db.payments[i].status.Succeeded? && OnCheckoutExpired(db, s).outcome.Processed? {
        ExpiredOnce(db, s, i, ids);
        ExpiredAgain(OnCheckoutExpired(db, s).db, s, i, ids);
        ExpireShellTwice(db.(payments := OnCheckoutExpired(db, s).db.payments), ids);
      }
    }
  }

  /** The expiry that goes through: its payment is found where it was, canceled and with a session. */
  lemma ExpiredOnce(db: Db, s: Session, i: nat, ids: LocalIds)
    requires ids == ExtractLocalIds(s.metadata) && ids.paymentId.Some? && i == PaymentById(db.payments, ids.paymentId.value) < |db.payments|
    requires !db.payments[i].status.Succeeded? && OnCheckoutExpired(db, s).outcome.Processed?
    ensures var ps := OnCheckoutExpired(db, s).db.payments;
            && |ps| == |db.payments| && PaymentById(ps, ids.paymentId.value) == i && ps[i].status.Canceled?
            && (Truthy(ps[i].sessionId) || ps[i].sessionId == Some(s.id))
            && OnCheckoutExpired(db, s).db == ExpireShell(db.(payments := ps), ids)
  {
    PaymentByIdAfterSave(db.payments, i, OnCheckoutExpired(db, s).db.payments[i], ids.paymentId.value);
  }

  /** A second expiry of a canceled payment with a session comes to expiring the shell again. */
  lemma ExpiredAgain(db: Db, s: Session, i: nat, ids: LocalIds)
    requires ids == ExtractLocalIds(s.metadata) && ids.paymentId.Some? && i == PaymentById(db.payments, ids.paymentId.value) < |db.payments|
    requires db.payments[i].status.Canceled? && (Truthy(db.payments[i].sessionId) || db.payments[i].sessionId == Some(s.id))
    ensures OnCheckoutExpired(db, s) == Result(ExpireShell(db, ids), Processed)
  {
    assert db.payments[i := db.payments[i]] == db.payments;
    assert db.(payments := db.payments) == db;
  }

  lemma IntentSucceededTwice(db: Db, intent: Intent, now: Time, later: Time)
    requires Valid(db)
    ensures var once := OnIntentSucceeded(db, intent, now);
            OnIntentSucceeded(once.db, intent, later) == once
  {
    var i := PaymentByIntent(db.payments, intent.id);
    if intent.id != "" && i < |db.payments| {
      var p := db.payments[i];
      var paid := p.(status := if Settled(p.status) then p.status else ToPaymentStatus(OrElse(intent.status, "succeeded")));
      var charged := db.(payments := db.payments[i := paid],
                         transactions := RecordCharge(db.transactions, intent, paid, now));
      var once := Recomputed(charged, p.userId, now);
      PaymentSaveKeepsUnique(db.payments, i, paid);
      PaymentByIntentAfterSave(db.payments, i, paid, intent.id);
      assert once.payments[i := paid] == once.payments;
      var c := ChargeByIntent(once.transactions, intent.id);
      assert c < |once.transactions| by {
        if ChargeByIntent(db.transactions, intent.id) == |db.transactions| {
          var t := once.transactions[|db.transactions|];
          assert t.kind.Charge? && t.intentId == Some(intent.id);
        }
      }
      RecomputedTwice(charged, p.userId, now, later);
    }
  }

  lemma IntentFailedTwice(db: Db, intent: Intent)
    requires Valid(db)
    ensures var once := OnIntentFailed(db, intent);
            OnIntentFailed(once.db, intent) == once
  {
    var i := PaymentByIntent(db.payments, intent.id);
    if intent.id != "" && i < |db.payments| {
      var once := OnIntentFailed(db, intent).db;
      PaymentByIntentAfterSave(db.payments, i, once.payments[i], intent.id);
      assert once.payments[i := once.payments[i]] == once.payments;
    }
  }

  lemma ChargeSucceededTwice(db: Db, charge: ChargeInfo)
    requires Valid(db)
    ensures var once := OnChargeSucceeded(db, charge);
            OnChargeSucceeded(once.db, charge) == once
  {
    if Truthy(charge.intent) {
      var i := PaymentByIntent(db.payments, charge.intent.value);
      if i < |db.payments| {
        PaymentByIntentAfterSave(db.payments, i, OnChargeSucceeded(db, charge).db.payments[i], charge.intent.value);
      }
    }
  }

  /** Every refund id of the list is on file once the list has been recorded. */
  lemma {:induction false} RefundsRecorded(ts: seq<Transaction>, items: seq<RefundItem>, p: Payment, charge: ChargeInfo, now: Time)
    ensures var r := RecordRefunds(ts, items, p, charge, now);
            && |r| >= |ts| && r[..|ts|] == ts
            && forall item | item in items && item.id != "" :: TransactionByRefund(r, item.id) < |r|
  {
    if items != [] {
      var head, last := items[..|items| - 1], items[|items| - 1];
      RefundsRecorded(ts, head, p, charge, now);
      var mid := RecordRefunds(ts, head, p, charge, now);
      var r := RecordRefunds(ts, items, p, charge, now);
      forall item | item in items && item.id != ""
        ensures TransactionByRefund(r, item.id) < |r|
      {
        if item in head {
          assert r[TransactionByRefund(mid, item.id)].refundId == Some(item.id);
        } else if TransactionByRefund(mid, item.id) == |mid| {
          assert item == last && r[|mid|].refundId == Some(item.id);
        }
      }
    }
  }

  lemma {:induction false} NoNewRefunds(ts: seq<Transaction>, items: seq<RefundItem>, p: Payment, charge: ChargeInfo, now: Time)
    requires forall item | item in items && item.id != "" :: TransactionByRefund(ts, item.id) < |ts|
    ensures RecordRefunds(ts, items, p, charge, now) == ts
  {
    if items != [] {
      NoNewRefunds(ts, items[..|items| - 1], p, charge, now);
      assert items[|items| - 1] in items;
    }
  }

  lemma ChargeRefundedTwice(db: Db, charge: ChargeInfo, now: Time, later: Time)
    requires Valid(db)
    ensures var once := OnChargeRefunded(db, charge, now);
            OnChargeRefunded(once.db, charge, later) == once
  {
    if Truthy(charge.intent) {
      var i := PaymentByIntent(db.payments, charge.intent.value);
      if i < |db.payments| {
        var p, items := db.payments[i], OrElse(charge.refunds, []);
        var once := OnChargeRefunded(db, charge, now).db;
        PaymentByIntentAfterSave(db.payments, i, once.payments[i], charge.intent.value);
        if items != [] {
          RefundsRecorded(db.transactions, items, p, charge, now);
          NoNewRefunds(once.transactions, items, once.payments[i], charge, later);
        }
        assert once.payments[i := once.payments[i]] == once.payments;
      }
    }
  }

  lemma CustomerChangedTwice(db: Db, c: StripeCustomer)
    ensures var once := OnCustomerChanged(db, c);
            OnCustomerChanged(once.db, c) == once
  {
    var i := CustomerByStripeId(db.customers, c.id);
    if i < |db.customers| {
      var once := OnCustomerChanged(db, c).db;
      var row := once.customers[i];
      assert forall k | 0 <= k < i :: once.customers[k].stripeCustomerId != c.id;
      assert row.stripeCustomerId == c.id;
      assert CustomerByStripeId(once.customers, c.id) == i;
      if c.metadata.Some? { assert row.metadata + c.metadata.value == row.metadata; }
      assert UpdatedCustomer(row, c) == row;
      assert once.customers[i := row] == once.customers;
    }
  }

  /** A mirrored row is the one its subscription's next event finds again. */
  lemma LocateAgain(ss: seq<Subscription>, sub: StripeSubscription)
    requires UniqueSubscriptions(ss) && Locate(ss, sub) < |ss|
    ensures var i := Locate(ss, sub);
            Locate(ss[i := Mirrored(ss[i], sub)], sub) == i
  {
    var i := Locate(ss, sub);
    var after := ss[i := Mirrored(ss[i], sub)];
    MirroringKeepsUnique(ss, sub);
    if after[i].stripeId == sub.id {
      assert forall k | 0 <= k < i :: ss[k].stripeId != sub.id;
      SubscriptionByStripeIdAfterSave(ss, i, after[i], sub.id);
    } else {
      assert forall k | 0 <= k < |after| :: after[k].stripeId != sub.id;
      SubscriptionByIdAfterSave(ss, i, after[i], ExtractLocalIds(sub.metadata).subscriptionId.value);
    }
  }

  lemma SubscriptionChangedTwice(db: Db, sub: StripeSubscription, now: Time, later: Time)
    requires Valid(db)
    ensures var once := OnSubscriptionChanged(db, sub, now);
            OnSubscriptionChanged(once.db, sub, later) == once
  {
    var i := Locate(db.subscriptions, sub);
    if sub.id != "" && i < |db.subscriptions| {
      var mirrored := db.(subscriptions := db.subscriptions[i := Mirrored(db.subscriptions[i], sub)]);
      var once := Recomputed(mirrored, db.subscriptions[i].userId, now);
      LocateAgain(db.subscriptions, sub);
      MirroringKeepsUnique(db.subscriptions, sub);
      assert Mirrored(once.subscriptions[i], sub) == once.subscriptions[i];
      assert once.subscriptions[i := once.subscriptions[i]] == once.subscriptions;
      RecomputedTwice(mirrored, db.subscriptions[i].userId, now, later);
    }
  }

  /** The one stamp a repeat moves: when Stripe gave no cancellation time, the row takes the handler's own. */
  function Restamped(db: Db, sub: StripeSubscription, later: Time): Db {
    var i := SubscriptionByStripeId(db.subscriptions, sub.id);
    if i < |db.subscriptions| && sub.canceledAt.None?
    then db.(subscriptions := db.subscriptions[i := db.subscriptions[i].(canceledAt := Some(later))])
    else db
  }

  lemma SubscriptionDeletedTwice(db: Db, sub: StripeSubscription, now: Time, later: Time)
    requires Valid(db)
    ensures var once := OnSubscriptionDeleted(db, sub, now);
            OnSubscriptionDeleted(once.db, sub, later) == Result(Restamped(once.db, sub, later), once.outcome)
  {
    var i := SubscriptionByStripeId(db.subscriptions, sub.id);
    if i < |db.subscriptions| {
      var user := db.subscriptions[i].userId;
      var ended := db.(subscriptions := db.subscriptions[i := CanceledSubscription(db.subscriptions[i], sub, now)]);
      var again := db.(subscriptions := db.subscriptions[i := CanceledSubscription(db.subscriptions[i], sub, later)]);
      var once := Recomputed(ended, user, now);
      SubscriptionSaveKeepsUnique(db.subscriptions, i, ended.subscriptions[i]);
      assert SubscriptionByStripeId(once.subscriptions, sub.id) == i;
      assert once.subscriptions[i := CanceledSubscription(once.subscriptions[i], sub, later)] == again.subscriptions;
      RecomputedTwice(ended, user, now, later);
      CanceledExpectNothing(ended, again, i, user);
      assert Restamped(once, sub, later).subscriptions == again.subscriptions;
    }
  }

  /** Two databases that differ in one canceled subscription row expect the same entitlements. */
  lemma CanceledExpectNothing(a: Db, b: Db, i: nat, userId: int)
    requires i < |a.subscriptions| == |b.subscriptions| && a.subscriptions[i].status.Canceled?
    requires b.subscriptions == a.subscriptions[i := b.subscriptions[i]]
    requires b.subscriptions[i].status.Canceled?
    requires b == a.(subscriptions := b.subscriptions)
    ensures BuildExpected(a, userId) == BuildExpected(b, userId)
  {
    SameExpectations(a.subscriptions, b.subscriptions, a.plans, userId);
  }

  lemma {:induction false} SameExpectations(a: seq<Subscription>, b: seq<Subscription>, plans: map<Uuid, Plan>, userId: int)
    requires |a| == |b|
    requires forall k | 0 <= k < |a| :: a[k] == b[k] || (!Granting(a[k].status) && !Granting(b[k].status))
    ensures FromSubscriptions(a, plans, userId) == FromSubscriptions(b, plans, userId)
  {
    if a != [] {
      SameExpectations(a[..|a| - 1], b[..|b| - 1], plans, userId);
    }
  }

  lemma UpsertTwice(db: Db, inv: StripeInvoice, now: Time, later: Time)
    requires Valid(db) && UpsertInvoice(db, inv, now).Some?
    ensures var once := UpsertInvoice(db, inv, now).value;
            UpsertInvoice(once.db, inv, later) == Some(once)
  {
    var once := UpsertInvoice(db, inv, now).value;
    var i := InvoiceByStripeId(db.invoices, inv.id);
    assert once.db.invoices[i].stripeId == inv.id;
    assert InvoiceByStripeId(once.db.invoices, inv.id) == i;
    assert MirroredInvoice(once.db.invoices[i], inv, later) == once.db.invoices[i];
    assert once.db.invoices[i := once.db.invoices[i]] == once.db.invoices;
  }

  lemma FailPaymentTwice(ps: seq<Payment>, intent: Option<string>)
    requires UniquePayments(ps)
    ensures FailPaymentOf(FailPaymentOf(ps, intent), intent) == FailPaymentOf(ps, intent)
    ensures UniquePayments(FailPaymentOf(ps, intent))
  {
    if Truthy(intent) {
      var i := PaymentByIntent(ps, intent.value);
      if i < |ps| && !ps[i].status.Succeeded? {
        var after := FailPaymentOf(ps, intent);
        PaymentSaveKeepsUnique(ps, i, after[i]);
        assert PaymentByIntent(after, intent.value) == i;
        assert after[i := after[i]] == after;
      }
    }
  }

  lemma InvoicePaymentFailedTwice(db: Db, inv: StripeInvoice, now: Time, later: Time)
    requires Valid(db)
    ensures var once := OnInvoicePaymentFailed(db, inv, now);
            OnInvoicePaymentFailed(once.db, inv, later) == once
  {
    var saved := UpsertInvoice(db, inv, now);
    if inv.id != "" && saved.Some? {
      var failed := saved.value.db.(payments := FailPaymentOf(db.payments, inv.intent));
      var once := Recomputed(failed, saved.value.userId, now);
      FailPaymentTwice(db.payments, inv.intent);
      UpsertTwice(db, inv, now, later);
      UpsertReadsNoPayments(saved.value.db, once, inv, later);
      RecomputedTwice(failed, saved.value.userId, now, later);
    }
  }

  /** The upsert reads invoices, customers and subscriptions only. */
  lemma UpsertReadsNoPayments(a: Db, b: Db, inv: StripeInvoice, now: Time)
    requires b == a.(payments := b.payments, entitlements := b.entitlements)
    ensures UpsertInvoice(a, inv, now).Some? <==> UpsertInvoice(b, inv, now).Some?
    ensures UpsertInvoice(a, inv, now).Some? ==>
              UpsertInvoice(b, inv, now).value.userId == UpsertInvoice(a, inv, now).value.userId &&
              UpsertInvoice(b, inv, now).value.db
                == UpsertInvoice(a, inv, now).value.db.(payments := b.payments, entitlements := b.entitlements)
  {
  }

  /** The second handling repeats the first, but for the stamp of a deletion that carried none. */
  predicate Repeats(db: Db, kind: EventKind, o: EventObject, now: Time, later: Time) {
    var once := Handle(db, kind, o, now);
    Handle(once.db, kind, o, later) ==
      if kind.SubscriptionDeleted? && o.SubscriptionObject?
      then Result(Restamped(once.db, o.subscription, later), once.outcome) else once
  }

  lemma SessionTwice(db: Db, kind: EventKind, s: Session, now: Time, later: Time)
    requires Valid(db)
    ensures Repeats(db, kind, SessionObject(s), now, later)
  {
    match kind
    case CheckoutCompleted => CheckoutCompletedTwice(db, s);
    case CheckoutExpired => CheckoutExpiredTwice(db, s);
    case _ =>
  }

  lemma IntentTwice(db: Db, kind: EventKind, intent: Intent, now: Time, later: Time)
    requires Valid(db)
    ensures Repeats(db, kind, IntentObject(intent), now, later)
  {
    if kind.IntentSucceeded? {
      IntentSucceededTwice(db, intent, now, later);
    } else if kind.IntentFailed? {
      IntentFailedTwice(db, intent);
    }
  }

  lemma ChargeTwice(db: Db, kind: EventKind, charge: ChargeInfo, now: Time, later: Time)
    requires Valid(db)
    ensures Repeats(db, kind, ChargeObject(charge), now, later)
  {
    match kind
    case ChargeSucceeded => ChargeSucceededTwice(db, charge);
    case ChargeRefunded => ChargeRefundedTwice(db, charge, now, later);
    case _ =>
  }

  lemma SubscriptionTwice(db: Db, kind: EventKind, sub: StripeSubscription, now: Time, later: Time)
    requires Valid(db)
    ensures Repeats(db, kind, SubscriptionObject(sub), now, later)
  {
    match kind
    case SubscriptionChanged => SubscriptionChangedTwice(db, sub, now, later);
    case SubscriptionDeleted => SubscriptionDeletedTwice(db, sub, now, later);
    case _ =>
  }

  lemma InvoiceLifecycleTwice(db: Db, inv: StripeInvoice, now: Time, later: Time)
    requires Valid(db)
    ensures var once := OnInvoiceLifecycle(db, inv, now);
            OnInvoiceLifecycle(once.db, inv, later) == once
  {
    if UpsertInvoice(db, inv, now).Some? { UpsertTwice(db, inv, now, later); }
  }

  lemma InvoiceTwice(db: Db, kind: EventKind, inv: StripeInvoice, now: Time, later: Time)
    requires Valid(db)
    ensures Repeats(db, kind, InvoiceObject(inv), now, later)
  {
    match kind
    case InvoiceLifecycle => InvoiceLifecycleTwice(db, inv, now, later);
    case InvoicePaymentFailed => InvoicePaymentFailedTwice(db, inv, now, later);
    case _ =>
  }

  lemma CustomerTwice(db: Db, kind: EventKind, c: StripeCustomer, now: Time, later: Time)
    requires Valid(db)
    ensures Repeats(db, kind, CustomerObject(c), now, later)
  {
    CustomerChangedTwice(db, c);
  }

  lemma HandleTwice(db: Db, kind: EventKind, o: EventObject, now: Time, later: Time)
    requires Valid(db)
    ensures Repeats(db, kind, o, now, later)
  {
    match o
    case SessionObject(s) => SessionTwice(db, kind, s, now, later);
    case IntentObject(intent) => IntentTwice(db, kind, intent, now, later);
    case ChargeObject(charge) => ChargeTwice(db, kind, charge, now, later);
    case CustomerObject(c) => CustomerTwice(db, kind, c, now, later);
    case SubscriptionObject(sub) => SubscriptionTwice(db, kind, sub, now, later);
    case InvoiceObject(inv) => InvoiceTwice(db, kind, inv, now, later);
    case NullObject =>
  }

  /**
   * Dispatching any event twice in a row, at any two times, leaves every table as dispatching it once does,
   * up to the cancellation stamp of a deletion that carried none; the second outcome repeats the first.
   */
  lemma DispatchTwice(db: Db, e: Event, now: Time, later: Time)
    requires Valid(db)
    ensures var once := Dispatch(db, e, now);
            var twice := Dispatch(once.db, e, later);
            && twice.outcome == once.outcome
            && (twice.db == once.db ||
                (KindOf(e.eventType).SubscriptionDeleted? && e.data.Some? && e.data.value.SubscriptionObject? &&
                 twice.db == Restamped(once.db, e.data.value.subscription, later)))
  {
    HandleTwice(db, KindOf(e.eventType), OrElse(e.data, NullObject), now, later);
  }
}
