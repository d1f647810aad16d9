/** The webhook handlers as the service runs them: find a row, assign its fields, save it. */
module WebhookService {
  import opened Model
  import opened Snapshots
  import opened Handlers
  import opened HandlerInvariants
  import opened Store
  import opened EntitlementsService
  import WebhookLog

  /** A save that leaves a row's own keys alone is never refused. */
  lemma PaymentKeysKept(ps: seq<Payment>, i: nat, p: Payment)
    requires UniquePayments(ps) && i < |ps| && p.id == ps[i].id
    ensures p.intentId == ps[i].intentId && p.sessionId == ps[i].sessionId ==> !PaymentClash(ps, i, p)
    ensures !PaymentClash(ps, i, p) ==> UniquePayments(ps[i := p])
  {
    if !PaymentClash(ps, i, p) { PaymentSaveKeepsUnique(ps, i, p); }
  }

  lemma SubscriptionKeysKept(ss: seq<Subscription>, i: nat, s: Subscription)
    requires UniqueSubscriptions(ss) && i < |ss| && s.id == ss[i].id
    ensures s.stripeId == ss[i].stripeId && s.sessionId == ss[i].sessionId ==> !SubscriptionClash(ss, i, s)
    ensures !SubscriptionClash(ss, i, s) ==> UniqueSubscriptions(ss[i := s])
  {
    if !SubscriptionClash(ss, i, s) { SubscriptionSaveKeepsUnique(ss, i, s); }
  }

  lemma NoClashWhenUnique(ss: seq<Subscription>, i: nat, s: Subscription)
    requires i < |ss| && UniqueSubscriptions(ss[i := s])
    ensures !SubscriptionClash(ss, i, s)
  {
    var rs := ss[i := s];
    forall k | 0 <= k < |ss| && k != i
      ensures ss[k].stripeId != s.stripeId && (s.sessionId.Some? ==> ss[k].sessionId != s.sessionId)
    {
      assert rs[k] == ss[k] && rs[k].id != rs[i].id;
    }
  }

  class WebhookService {
    const store: BillingStore
    const entitlementsService: EntitlementsService
    var events: seq<WebhookLog.LogRow>

    constructor (store: BillingStore)
      ensures this.store == store && entitlementsService.store == store && events == []
    {
      this.store := store;
      events := [];
      this.entitlementsService := new EntitlementsService(store);
    }

    // ---- The event log ----

    /** `message` is what the handler reports if it fails. */
    method ReceiveEvent(event: Event, rawBody: string, message: string, now: Time) returns (reply: WebhookLog.Reply)
      requires Valid(store.View()) && entitlementsService.store == store
      modifies this`events, store
      ensures Valid(store.View())
      ensures WebhookLog.Served(store.View(), events, reply)
              == WebhookLog.Receive(old(store.View()), old(events), event, rawBody, message, now)
    {
      if event.id == "" || event.eventType == "" { return WebhookLog.Malformed; }
      var existing := WebhookLog.RowOf(events, event.id);
      if existing < |events| { return WebhookLog.Duplicate(events[existing].status); }
      var row := |events|;
      events := events + [WebhookLog.NewRow(event, rawBody, now)];
      var outcome := Dispatch(event, now);
      MarkRow(row, outcome, message, now);
      reply := if outcome.Threw? then WebhookLog.Raised else WebhookLog.Done(outcome);
    }

    method ReplayEvent(row: nat, message: string, now: Time) returns (reply: WebhookLog.Reply)
      requires Valid(store.View()) && entitlementsService.store == store
      modifies this`events, store
      ensures Valid(store.View())
      ensures WebhookLog.Served(store.View(), events, reply)
              == WebhookLog.Replayed(old(store.View()), old(events), row, message, now)
    {
      if row >= |events| { return WebhookLog.NoSuchRow; }
      var event := WebhookLog.Reconstruct(events[row].payload);
      if event.None? {
        MarkRow(row, Threw, WebhookLog.REPLAY_REFUSED, now);
        return WebhookLog.Done(Threw);
      }
      var outcome := Dispatch(event.value, now);
      MarkRow(row, outcome, message, now);
      reply := WebhookLog.Done(outcome);
    }

    /** markProcessed, markIgnored and markFailed. */
    method MarkRow(at: nat, outcome: Outcome, message: string, now: Time)
      requires at < |events|
      modifies this`events
      ensures events == WebhookLog.Marked(old(events), at, outcome, message, now)
    {
      match outcome {
        case Processed =>
          events := events[at := events[at].(status := WebhookLog.EventStatus.Processed, processedAt := Some(now), errorMessage := None)];
        case Ignored =>
          events := events[at := events[at].(status := WebhookLog.EventStatus.Ignored, processedAt := Some(now), errorMessage := None)];
        case Threw =>
          events := events[at := events[at].(attempts := events[at].attempts + 1)];
          events := events[at := events[at].(status := WebhookLog.EventStatus.Failed, errorMessage := Some(WebhookLog.Clip(message)))];
      }
    }

    /** Hands the event's object to the handler its type names. */
    method Dispatch(event: Event, now: Time) returns (outcome: Outcome)
      requires Valid(store.View()) && entitlementsService.store == store
      modifies store
      ensures Result(store.View(), outcome) == Handlers.Dispatch(old(store.View()), event, now)
      ensures Valid(store.View())
    {
      DispatchKeepsValid(store.View(), event, now);
      var payload := OrElse(event.data, NullObject);
      outcome := Threw;
      match KindOf(event.eventType) {
        case CheckoutCompleted =>
          if payload.SessionObject? { outcome := HandleCheckoutSessionCompleted(payload.session, ExtractLocalIds(payload.session.metadata)); }
        case CheckoutExpired =>
          if payload.SessionObject? { outcome := HandleCheckoutSessionExpired(payload.session, ExtractLocalIds(payload.session.metadata)); }
          else if payload.NullObject? { outcome := Ignored; }
        case IntentSucceeded =>
          if payload.IntentObject? { outcome := HandlePaymentIntentSucceeded(payload.intent, now); }
        case IntentFailed =>
          if payload.IntentObject? { outcome := HandlePaymentIntentFailed(payload.intent); }
        case ChargeSucceeded =>
          if payload.ChargeObject? { outcome := HandleChargeSucceeded(payload.charge); }
        case ChargeRefunded =>
          if payload.ChargeObject? { outcome := HandleChargeRefunded(payload.charge, now); }
        case CustomerChanged =>
          if payload.CustomerObject? { outcome := HandleCustomerUpsert(payload.customer); }
        case SubscriptionChanged =>
          if payload.SubscriptionObject? { outcome := HandleSubscriptionChanged(payload.subscription, now); }
        case SubscriptionDeleted =>
          if payload.SubscriptionObject? { outcome := HandleSubscriptionDeleted(payload.subscription, now); }
        case InvoiceLifecycle =>
          if payload.InvoiceObject? { outcome := HandleInvoiceLifecycle(payload.invoice, now); }
        case InvoicePaymentFailed =>
          if payload.InvoiceObject? { outcome := HandleInvoicePaymentFailed(payload.invoice, now); }
        case Unhandled => outcome := Ignored;
      }
    }

    // ---- Checkout sessions ----

    method HandleCheckoutSessionCompleted(session: Session, ids: LocalIds) returns (outcome: Outcome)
      requires Valid(store.View()) && ids == ExtractLocalIds(session.metadata)
      modifies store`payments, store`subscriptions
      ensures Result(store.View(), outcome) == OnCheckoutCompleted(old(store.View()), session)
    {
      if ids.paymentId.None? { return Ignored; }
      var i := PaymentById(store.payments, ids.paymentId.value);
      if i == |store.payments| { return Ignored; }
      var payment := store.payments[i];
      var intentId := IdOf(session.intent);

      var changed := false;
      if Truthy(intentId) && payment.intentId != intentId {
        payment := payment.(intentId := intentId);
        changed := true;
      }
      if session.id != "" && payment.sessionId != Some(session.id) {
        payment := payment.(sessionId := Some(session.id));
        changed := true;
      }
      if payment.status.CheckoutCreated? || payment.status.Pending? {
        payment := payment.(status := ToPaymentStatus(OrElse(session.paymentStatus, "succeeded")));
        changed := true;
      }
      PaymentKeysKept(store.payments, i, payment);
      if changed {
        var saved := store.SavePayment(i, payment);
        if !saved { return Threw; }
      }
      if session.mode == "subscription" && ids.subscriptionId.Some? {
        var bound := BindSubscription(session, ids);
        if !bound { return Threw; }
      }
      outcome := Processed;
    }

    /** Replaces the placeholder on a subscription shell; false when a unique index refuses the save. */
    method BindSubscription(session: Session, ids: LocalIds) returns (ok: bool)
      requires Valid(store.View()) && session.mode == "subscription" && ids.subscriptionId.Some?
      modifies store`subscriptions
      ensures Result(store.View(), if ok then Processed else Threw) == BindShell(old(store.View()), session, ids)
    {
      var j := SubscriptionById(store.subscriptions, ids.subscriptionId.value);
      if j == |store.subscriptions| { return true; }
      var subscription := store.subscriptions[j];
      var realSubId := IdOf(session.subscription);
      if !Truthy(realSubId) { return true; }

      var changed := false;
      if subscription.stripeId != realSubId.value {
        subscription := subscription.(stripeId := realSubId.value);
        changed := true;
      }
      if session.id != "" && subscription.sessionId != Some(session.id) {
        subscription := subscription.(sessionId := Some(session.id));
        changed := true;
      }
      ok := true;
      SubscriptionKeysKept(store.subscriptions, j, subscription);
      if changed { ok := store.SaveSubscription(j, subscription); }
    }

    method HandleCheckoutSessionExpired(session: Session, ids: LocalIds) returns (outcome: Outcome)
      requires Valid(store.View()) && ids == ExtractLocalIds(session.metadata)
      modifies store`payments, store`subscriptions
      ensures Result(store.View(), outcome) == OnCheckoutExpired(old(store.View()), session)
    {
      if ids.paymentId.None? { return Ignored; }
      var i := PaymentById(store.payments, ids.paymentId.value);
      if i == |store.payments| { return Ignored; }
      var payment := store.payments[i];
      if payment.status.Succeeded? { return Processed; }

      payment := payment.(status := PaymentStatus.Canceled);
      if !Truthy(payment.sessionId) { payment := payment.(sessionId := Some(session.id)); }
      PaymentKeysKept(store.payments, i, payment);
      var saved := store.SavePayment(i, payment);
      if !saved { return Threw; }
      ExpireSubscription(ids);
      outcome := Processed;
    }

    method ExpireSubscription(ids: LocalIds)
      requires UniqueSubscriptions(store.subscriptions)
      modifies store`subscriptions
      ensures store.View() == ExpireShell(old(store.View()), ids)
    {
      if ids.subscriptionId.None? { return; }
      var j := SubscriptionById(store.subscriptions, ids.subscriptionId.value);
      if j < |store.subscriptions| && store.subscriptions[j].status.Incomplete? {
        var subscription := store.subscriptions[j].(status := IncompleteExpired);
        SubscriptionKeysKept(store.subscriptions, j, subscription);
        var _ := store.SaveSubscription(j, subscription);
      }
    }

    // ---- Payment intents and charges ----

    method HandlePaymentIntentSucceeded(intent: Intent, now: Time) returns (outcome: Outcome)
      requires Valid(store.View()) && entitlementsService.store == store
      modifies store`payments, store`transactions, store`entitlements
      ensures Result(store.View(), outcome) == OnIntentSucceeded(old(store.View()), intent, now)
    {
      if intent.id == "" { return Ignored; }
      var i := PaymentByIntent(store.payments, intent.id);
      if i == |store.payments| { return Ignored; }
      var payment := store.payments[i];

      var changed := false;
      if !payment.status.Succeeded? && !payment.status.Refunded? && !payment.status.PartiallyRefunded? {
        payment := payment.(status := ToPaymentStatus(OrElse(intent.status, "succeeded")));
        changed := true;
      }
      PaymentKeysKept(store.payments, i, payment);
      if changed {
        var _ := store.SavePayment(i, payment);
      }
      RecordTransactionFromIntent(intent, payment, now);
      assert store.View() == old(store.View()).(
          payments := old(store.payments)[i := payment],
          transactions := RecordCharge(old(store.transactions), intent, payment, now));
      var _, _, _ := entitlementsService.RecomputeForUser(payment.userId, now);
      outcome := Processed;
    }

    method RecordTransactionFromIntent(intent: Intent, payment: Payment, now: Time)
      modifies store`transactions
      ensures store.transactions == RecordCharge(old(store.transactions), intent, payment, now)
    {
      var existing := ChargeByIntent(store.transactions, intent.id);
      if existing < |store.transactions| { return; }
      var amount := OrElse(intent.amount, payment.amount);
      if intent.amountReceived.Some? && intent.amountReceived.value > 0 { amount := intent.amountReceived.value; }
      var tx := Transaction(payment.userId, payment.id, Charge, amount, TransactionStatus.Succeeded,
                            Some(intent.id), intent.latestCharge, None, now);
      store.transactions := store.transactions + [tx];
    }

    method HandlePaymentIntentFailed(intent: Intent) returns (outcome: Outcome)
      requires Valid(store.View())
      modifies store`payments
      ensures Result(store.View(), outcome) == OnIntentFailed(old(store.View()), intent)
    {
      if intent.id == "" { return Ignored; }
      var i := PaymentByIntent(store.payments, intent.id);
      if i == |store.payments| { return Ignored; }
      var payment := store.payments[i];
      if payment.status.Succeeded? { return Processed; }
      payment := payment.(status := PaymentStatus.Failed);
      PaymentKeysKept(store.payments, i, payment);
      var _ := store.SavePayment(i, payment);
      outcome := Processed;
    }

    method HandleChargeSucceeded(charge: ChargeInfo) returns (outcome: Outcome)
      requires Valid(store.View())
      modifies store`payments
      ensures Result(store.View(), outcome) == OnChargeSucceeded(old(store.View()), charge)
    {
      if !Truthy(charge.intent) { return Ignored; }
      var i := PaymentByIntent(store.payments, charge.intent.value);
      if i == |store.payments| { return Ignored; }
      var payment := store.payments[i];
      if payment.status.Succeeded? || payment.status.Refunded? || payment.status.PartiallyRefunded? { return Processed; }
      payment := payment.(status := PaymentStatus.Succeeded);
      PaymentKeysKept(store.payments, i, payment);
      var _ := store.SavePayment(i, payment);
      outcome := Processed;
    }

    method HandleChargeRefunded(charge: ChargeInfo, now: Time) returns (outcome: Outcome)
      requires Valid(store.View())
      modifies store`payments, store`transactions
      ensures Result(store.View(), outcome) == OnChargeRefunded(old(store.View()), charge, now)
    {
      if !Truthy(charge.intent) { return Ignored; }
      var i := PaymentByIntent(store.payments, charge.intent.value);
      if i == |store.payments| { return Ignored; }
      var payment := store.payments[i];

      var refunds := OrElse(charge.refunds, []);
      if refunds == [] {
        payment := payment.(amountRefunded := OrElse(charge.amountRefunded, payment.amountRefunded));
        payment := payment.(status := if OrElse(charge.amountRefunded, 0) >= OrElse(charge.amount, payment.amount)
                                      then Refunded else PartiallyRefunded);
        PaymentKeysKept(store.payments, i, payment);
        var _ := store.SavePayment(i, payment);
        return Processed;
      }

      RecordNewRefunds(refunds, payment, charge, now);
      var totalRefunded := SumRefunds(payment.id);
      payment := payment.(amountRefunded := totalRefunded);
      payment := payment.(status := if totalRefunded >= payment.amount then Refunded else PartiallyRefunded);
      PaymentKeysKept(store.payments, i, payment);
      var _ := store.SavePayment(i, payment);
      outcome := Processed;
    }

    /** A row for each listed refund whose id is not on file. */
    method RecordNewRefunds(refunds: seq<RefundItem>, payment: Payment, charge: ChargeInfo, now: Time)
      modifies store`transactions
      ensures store.transactions == RecordRefunds(old(store.transactions), refunds, payment, charge, now)
    {
      ghost var before := store.transactions;
      for k := 0 to |refunds|
        invariant store.transactions == RecordRefunds(before, refunds[..k], payment, charge, now)
      {
        assert refunds[..k + 1][..k] == refunds[..k];
        var refund := refunds[k];
        if refund.id == "" { continue; }
        var existing := TransactionByRefund(store.transactions, refund.id);
        if existing < |store.transactions| { continue; }
        var tx := Transaction(payment.userId, payment.id, Refund, OrElse(refund.amount, 0),
                              ToTransactionStatus(OrElse(refund.status, "succeeded")),
                              charge.intent, Some(charge.id), Some(refund.id), now);
        store.transactions := store.transactions + [tx];
      }
      assert refunds[..|refunds|] == refunds;
    }

    /** The database's SUM over the payment's refund rows. */
    method SumRefunds(paymentId: Uuid) returns (sum: int)
      ensures sum == RefundSum(store.transactions, paymentId)
    {
      sum := 0;
      for k := 0 to |store.transactions|
        invariant sum == RefundSum(store.transactions[..k], paymentId)
      {
        assert store.transactions[..k + 1][..k] == store.transactions[..k];
        if IsRefundOf(store.transactions[k], paymentId) { sum := sum + store.transactions[k].amount; }
      }
      assert store.transactions[..|store.transactions|] == store.transactions;
    }

    // ---- Customers ----

    method HandleCustomerUpsert(customer: StripeCustomer) returns (outcome: Outcome)
      modifies store`customers
      ensures Result(store.View(), outcome) == OnCustomerChanged(old(store.View()), customer)
    {
      var i := CustomerByStripeId(store.customers, customer.id);
      if i == |store.customers| { return Ignored; }
      var local := store.customers[i];
      if Truthy(customer.email) && customer.email.value != local.email {
        local := local.(email := customer.email.value);
      }
      if customer.name.Some? { local := local.(name := customer.name.value); }
      if customer.metadata.Some? { local := local.(metadata := local.metadata + customer.metadata.value); }
      store.customers := store.customers[i := local];
      outcome := Processed;
    }

    // ---- Subscriptions ----

    method HandleSubscriptionChanged(sub: StripeSubscription, now: Time) returns (outcome: Outcome)
      requires Valid(store.View()) && entitlementsService.store == store
      modifies store`subscriptions, store`entitlements
      ensures Result(store.View(), outcome) == OnSubscriptionChanged(old(store.View()), sub, now)
    {
      var i := UpsertSubscriptionFromStripe(sub);
      if i.None? { return Ignored; }
      var _, _, _ := entitlementsService.RecomputeForUser(store.subscriptions[i.value].userId, now);
      outcome := Processed;
    }

    /** Finds the row the snapshot is about and mirrors it; None, and nothing saved, when there is none. */
    method UpsertSubscriptionFromStripe(sub: StripeSubscription) returns (at: Option<nat>)
      requires Valid(store.View())
      modifies store`subscriptions
      ensures Valid(store.View())
      ensures var was := old(store.subscriptions);
              var i := Locate(was, sub);
              if sub.id == "" || i == |was| then at == None && store.subscriptions == was
              else at == Some(i) && store.subscriptions == was[i := Mirrored(was[i], sub)]
    {
      if sub.id == "" { return None; }
      var ss := store.subscriptions;
      var i := SubscriptionByStripeId(ss, sub.id);
      var local: Subscription;
      if i < |ss| {
        local := ss[i];
      } else {
        var ids := ExtractLocalIds(sub.metadata);
        if ids.subscriptionId.Some? {
          i := SubscriptionById(ss, ids.subscriptionId.value);
          if i == |ss| { return None; }
          local := ss[i];
          if IsPlaceholder(local.stripeId) { local := local.(stripeId := sub.id); }
        } else if ids.paymentId.Some? {
          i := SubscriptionByStripeId(ss, Placeholder(ids.paymentId.value));
          if i == |ss| { return None; }
          local := ss[i].(stripeId := sub.id);
        } else {
          return None;
        }
      }
      local := MirrorSnapshot(local, sub);
      MirroringKeepsUnique(ss, sub);
      NoClashWhenUnique(ss, i, local);
      var _ := store.SaveSubscription(i, local);
      at := Some(i);
    }

    /** Every column of the snapshot but the id. */
    method MirrorSnapshot(subscription: Subscription, sub: StripeSubscription) returns (local: Subscription)
      ensures local == Mirrored(subscription, sub).(stripeId := subscription.stripeId)
    {
      local := subscription.(status := ToSubscriptionStatus(sub.status));
      local := local.(periodStart := EpochToTime(sub.periodStart), periodEnd := EpochToTime(sub.periodEnd));
      local := local.(trialEnd := EpochToTime(sub.trialEnd));
      local := local.(cancelAtPeriodEnd := OrElse(sub.cancelAtPeriodEnd, false));
      if sub.canceledAt.Some? && sub.canceledAt.value != 0 { local := local.(canceledAt := EpochToTime(sub.canceledAt)); }
      var invoice := IdOf(sub.latestInvoice);
      if Truthy(invoice) { local := local.(latestInvoiceId := invoice); }
    }

    method HandleSubscriptionDeleted(sub: StripeSubscription, now: Time) returns (outcome: Outcome)
      requires Valid(store.View()) && entitlementsService.store == store
      modifies store`subscriptions, store`entitlements
      ensures Result(store.View(), outcome) == OnSubscriptionDeleted(old(store.View()), sub, now)
    {
      var i := SubscriptionByStripeId(store.subscriptions, sub.id);
      if i == |store.subscriptions| { return Ignored; }
      var local := store.subscriptions[i];
      local := local.(status := SubscriptionStatus.Canceled);
      local := local.(cancelAtPeriodEnd := true);
      local := local.(canceledAt := Some(OrElse(EpochToTime(sub.canceledAt), now)));
      SubscriptionKeysKept(store.subscriptions, i, local);
      var _ := store.SaveSubscription(i, local);
      var _, _, _ := entitlementsService.RecomputeForUser(local.userId, now);
      outcome := Processed;
    }

    // ---- Invoices ----

    /** Finds or drafts the invoice row and mirrors the snapshot; None when its customer is unknown. */
    method UpsertInvoiceFromStripe(inv: StripeInvoice, now: Time) returns (owner: Option<int>)
      modifies store`invoices
      ensures var saved := UpsertInvoice(old(store.View()), inv, now);
              if saved.None? then owner == None && store.invoices == old(store.invoices)
              else owner == Some(saved.value.userId) && store.View() == saved.value.db
    {
      var i := InvoiceByStripeId(store.invoices, inv.id);
      var local: Invoice;
      if i < |store.invoices| {
        local := store.invoices[i];
      } else {
        var userId: Option<int> := None;
        var customerId := IdOf(inv.customer);
        if Truthy(customerId) {
          var c := CustomerByStripeId(store.customers, customerId.value);
          if c < |store.customers| { userId := Some(store.customers[c].userId); }
        }
        if userId.None? { return None; }
        var subscriptionId: Option<Uuid> := None;
        if Truthy(inv.subscription) {
          var j := SubscriptionByStripeId(store.subscriptions, inv.subscription.value);
          if j < |store.subscriptions| { subscriptionId := Some(store.subscriptions[j].id); }
        }
        local := NewInvoice(userId.value, subscriptionId, inv);
      }
      local := local.(status := ToInvoiceStatus(inv.status));
      local := local.(subtotal := OrElse(inv.subtotal, local.subtotal), total := OrElse(inv.total, local.total));
      local := local.(amountPaid := OrElse(inv.amountPaid, local.amountPaid));
      local := local.(amountDue := OrElse(inv.amountDue, local.amountDue));
      if inv.number.Some? { local := local.(number := inv.number); }
      local := local.(periodStart := EpochToTime(inv.periodStart), periodEnd := EpochToTime(inv.periodEnd));
      if inv.paidAt.Some? && inv.paidAt.value != 0 {
        local := local.(paidAt := EpochToTime(inv.paidAt));
      } else if local.status.Paid? && local.paidAt.None? {
        local := local.(paidAt := Some(now));
      }
      if inv.intent.Some? { local := local.(intentId := inv.intent); }
      store.invoices := if i < |store.invoices| then store.invoices[i := local] else store.invoices + [local];
      owner := Some(local.userId);
    }

    method HandleInvoiceLifecycle(inv: StripeInvoice, now: Time) returns (outcome: Outcome)
      modifies store`invoices
      ensures Result(store.View(), outcome) == OnInvoiceLifecycle(old(store.View()), inv, now)
    {
      if inv.id == "" { return Ignored; }
      var owner := UpsertInvoiceFromStripe(inv, now);
      outcome := if owner.None? then Ignored else Processed;
    }

    method HandleInvoicePaymentFailed(inv: StripeInvoice, now: Time) returns (outcome: Outcome)
      requires Valid(store.View()) && entitlementsService.store == store
      modifies store`payments, store`invoices, store`entitlements
      ensures Result(store.View(), outcome) == OnInvoicePaymentFailed(old(store.View()), inv, now)
    {
      if inv.id == "" { return Ignored; }
      var owner := UpsertInvoiceFromStripe(inv, now);
      if owner.None? { return Ignored; }
      if Truthy(inv.intent) {
        var i := PaymentByIntent(store.payments, inv.intent.value);
        if i < |store.payments| && !store.payments[i].status.Succeeded? {
          var payment := store.payments[i].(status := PaymentStatus.Failed);
          PaymentKeysKept(store.payments, i, payment);
          var _ := store.SavePayment(i, payment);
        }
      }
      var _, _, _ := entitlementsService.RecomputeForUser(owner.value, now);
      outcome := Processed;
    }
  }
}
