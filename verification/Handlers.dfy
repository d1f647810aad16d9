/**
 * What each webhook handler makes of the database: the specification the methods of WebhookService are
 * proved against, and the functions every statement about runs is about.
 */
module Handlers {
  import opened Model
  import opened Snapshots
  import opened Entitlements

  /** `Threw`: the handler raised an error; what it had saved before stays saved. */
  datatype Outcome = Processed | Ignored | Threw

  datatype Result = Result(db: Db, outcome: Outcome)

  const PENDING_PREFIX: string := "pending_sub:"

  function Placeholder(localPaymentId: string): string { PENDING_PREFIX + localPaymentId }

  predicate IsPlaceholder(stripeId: string) { PENDING_PREFIX <= stripeId }

  // ---- Checkout sessions ----

  /** The payment row after `checkout.session.completed`: bound to its intent and session, settled if still open. */
  function CompletedPayment(p: Payment, s: Session): Payment {
    var intent := IdOf(s.intent);
    p.(intentId := if Truthy(intent) then intent else p.intentId,
       sessionId := if s.id != "" then Some(s.id) else p.sessionId,
       status := if p.status.CheckoutCreated? || p.status.Pending?
                 then ToPaymentStatus(OrElse(s.paymentStatus, "succeeded")) else p.status)
  }

  function BoundSubscription(local: Subscription, s: Session, realId: string): Subscription {
    local.(stripeId := realId, sessionId := if s.id != "" then Some(s.id) else local.sessionId)
  }

  /** Puts the real Stripe id on the subscription shell, when the session carries one. */
  function BindShell(db: Db, s: Session, ids: LocalIds): Result {
    var realId := IdOf(s.subscription);
    if s.mode != "subscription" || ids.subscriptionId.None? || !Truthy(realId) then Result(db, Processed)
    else
      var j := SubscriptionById(db.subscriptions, ids.subscriptionId.value);
      if j == |db.subscriptions| then Result(db, Processed)
      else
        var bound := BoundSubscription(db.subscriptions[j], s, realId.value);
        if bound != db.subscriptions[j] && SubscriptionClash(db.subscriptions, j, bound) then Result(db, Threw)
        else Result(db.(subscriptions := db.subscriptions[j := bound]), Processed)
  }

  function OnCheckoutCompleted(db: Db, s: Session): Result {
    var ids := ExtractLocalIds(s.metadata);
    if ids.paymentId.None? then Result(db, Ignored)
    else
      var i := PaymentById(db.payments, ids.paymentId.value);
      if i == |db.payments| then Result(db, Ignored)
      else
        var p := CompletedPayment(db.payments[i], s);
        if p != db.payments[i] && PaymentClash(db.payments, i, p) then Result(db, Threw)
        else BindShell(db.(payments := db.payments[i := p]), s, ids)
  }

  function ExpireShell(db: Db, ids: LocalIds): Db {
    if ids.subscriptionId.None? then db
    else
      var j := SubscriptionById(db.subscriptions, ids.subscriptionId.value);
      if j < |db.subscriptions| && db.subscriptions[j].status.Incomplete?
      then db.(subscriptions := db.subscriptions[j := db.subscriptions[j].(status := IncompleteExpired)])
      else db
  }

  function OnCheckoutExpired(db: Db, s: Session): Result {
    var ids := ExtractLocalIds(s.metadata);
    if ids.paymentId.None? then Result(db, Ignored)
    else
      var i := PaymentById(db.payments, ids.paymentId.value);
      if i == |db.payments| then Result(db, Ignored)
      else if db.payments[i].status.Succeeded? then Result(db, Processed)
      else
        var p := db.payments[i].(status := PaymentStatus.Canceled,
                                 sessionId := if Truthy(db.payments[i].sessionId) then db.payments[i].sessionId else Some(s.id));
        if p.sessionId != db.payments[i].sessionId && PaymentClash(db.payments, i, p) then Result(db, Threw)
        else Result(ExpireShell(db.(payments := db.payments[i := p]), ids), Processed)
  }

  // ---- Payment intents and charges ----

  predicate Settled(status: PaymentStatus) {
    status.Succeeded? || status.Refunded? || status.PartiallyRefunded?
  }

  function RecordCharge(ts: seq<Transaction>, intent: Intent, p: Payment, now: Time): seq<Transaction> {
    if ChargeByIntent(ts, intent.id) < |ts| then ts
    else
      var amount := if intent.amountReceived.Some? && intent.amountReceived.value > 0
                    then intent.amountReceived.value else OrElse(intent.amount, p.amount);
      ts + [Transaction(p.userId, p.id, Charge, amount, TransactionStatus.Succeeded, Some(intent.id), intent.latestCharge, None, now)]
  }

  function OnIntentSucceeded(db: Db, intent: Intent, now: Time): Result {
    var i := PaymentByIntent(db.payments, intent.id);
    if intent.id == "" || i == |db.payments| then Result(db, Ignored)
    else
      var p := db.payments[i];
      var paid := p.(status := if Settled(p.status) then p.status else ToPaymentStatus(OrElse(intent.status, "succeeded")));
      var charged := db.(payments := db.payments[i := paid],
                         transactions := RecordCharge(db.transactions, intent, paid, now));
      Result(Recomputed(charged, p.userId, now), Processed)
  }

  function OnIntentFailed(db: Db, intent: Intent): Result {
    var i := PaymentByIntent(db.payments, intent.id);
    if intent.id == "" || i == |db.payments| then Result(db, Ignored)
    else if db.payments[i].status.Succeeded? then Result(db, Processed)
    else Result(db.(payments := db.payments[i := db.payments[i].(status := PaymentStatus.Failed)]), Processed)
  }

  function OnChargeSucceeded(db: Db, charge: ChargeInfo): Result {
    if !Truthy(charge.intent) then Result(db, Ignored)
    else
      var i := PaymentByIntent(db.payments, charge.intent.value);
      if i == |db.payments| then Result(db, Ignored)
      else if Settled(db.payments[i].status) then Result(db, Processed)
      else Result(db.(payments := db.payments[i := db.payments[i].(status := PaymentStatus.Succeeded)]), Processed)
  }

  /** One refund row per refund id: an id already on file, or none at all, adds nothing. */
  function RecordRefund(ts: seq<Transaction>, item: RefundItem, p: Payment, charge: ChargeInfo, now: Time): seq<Transaction> {
    if item.id == "" || TransactionByRefund(ts, item.id) < |ts| then ts
    else ts + [Transaction(p.userId, p.id, Refund, OrElse(item.amount, 0),
                           ToTransactionStatus(OrElse(item.status, "succeeded")),
                           charge.intent, Some(charge.id), Some(item.id), now)]
  }

  function RecordRefunds(ts: seq<Transaction>, items: seq<RefundItem>, p: Payment, charge: ChargeInfo, now: Time)
    : seq<Transaction>
  {
    if items == [] then ts
    else RecordRefund(RecordRefunds(ts, items[..|items| - 1], p, charge, now), items[|items| - 1], p, charge, now)
  }

  predicate IsRefundOf(t: Transaction, paymentId: Uuid) { t.kind.Refund? && t.paymentId == paymentId }

  /** The ledger's view of a payment: the sum of its refund rows. */
  function RefundSum(ts: seq<Transaction>, paymentId: Uuid): int {
    if ts == [] then 0
    else RefundSum(ts[..|ts| - 1], paymentId) +
         if IsRefundOf(ts[|ts| - 1], paymentId) then ts[|ts| - 1].amount else 0
  }

  function RefundStatus(refunded: int, amount: int): PaymentStatus {
    if refunded >= amount then Refunded else PartiallyRefunded
  }

  function OnChargeRefunded(db: Db, charge: ChargeInfo, now: Time): Result {
    if !Truthy(charge.intent) then Result(db, Ignored)
    else
      var i := PaymentByIntent(db.payments, charge.intent.value);
      if i == |db.payments| then Result(db, Ignored)
      else
        var p := db.payments[i];
        var items := OrElse(charge.refunds, []);
        if items == [] then
          var refunded := p.(amountRefunded := OrElse(charge.amountRefunded, p.amountRefunded),
                             status := RefundStatus(OrElse(charge.amountRefunded, 0), OrElse(charge.amount, p.amount)));
          Result(db.(payments := db.payments[i := refunded]), Processed)
        else
          var ts := RecordRefunds(db.transactions, items, p, charge, now);
          var total := RefundSum(ts, p.id);
          var refunded := p.(amountRefunded := total, status := RefundStatus(total, p.amount));
          Result(db.(payments := db.payments[i := refunded], transactions := ts), Processed)
  }

  // ---- Customers ----

  function UpdatedCustomer(local: Customer, c: StripeCustomer): Customer {
    local.(email := if Truthy(c.email) then c.email.value else local.email,
           name := if c.name.Some? then c.name.value else local.name,
           metadata := if c.metadata.Some? then local.metadata + c.metadata.value else local.metadata)
  }

  function OnCustomerChanged(db: Db, c: StripeCustomer): Result {
    var i := CustomerByStripeId(db.customers, c.id);
    if i == |db.customers| then Result(db, Ignored)
    else Result(db.(customers := db.customers[i := UpdatedCustomer(db.customers[i], c)]), Processed)
  }

  // ---- Subscriptions ----

  /**
   * The row a subscription event is about: the one with its Stripe id, else the one its metadata names by
   * local id, else the shell whose placeholder carries the local payment id. The table's length when none is.
   */
  function Locate(ss: seq<Subscription>, sub: StripeSubscription): (i: nat)
    ensures i <= |ss|
  {
    var i := SubscriptionByStripeId(ss, sub.id);
    var ids := ExtractLocalIds(sub.metadata);
    if i < |ss| then i
    else if ids.subscriptionId.Some? then SubscriptionById(ss, ids.subscriptionId.value)
    else if ids.paymentId.Some? then SubscriptionByStripeId(ss, Placeholder(ids.paymentId.value))
    else |ss|
  }

  /** Mirrors the Stripe snapshot; a placeholder id gives way to the real one, a real id never changes. */
  function Mirrored(local: Subscription, sub: StripeSubscription): Subscription {
    var invoice := IdOf(sub.latestInvoice);
    local.(stripeId := if IsPlaceholder(local.stripeId) then sub.id else local.stripeId,
           status := ToSubscriptionStatus(sub.status),
           periodStart := EpochToTime(sub.periodStart),
           periodEnd := EpochToTime(sub.periodEnd),
           trialEnd := EpochToTime(sub.trialEnd),
           cancelAtPeriodEnd := OrElse(sub.cancelAtPeriodEnd, false),
           canceledAt := if sub.canceledAt.Some? && sub.canceledAt.value != 0
                         then EpochToTime(sub.canceledAt) else local.canceledAt,
           latestInvoiceId := if Truthy(invoice) then invoice else local.latestInvoiceId)
  }

  function OnSubscriptionChanged(db: Db, sub: StripeSubscription, now: Time): Result {
    var i := Locate(db.subscriptions, sub);
    if sub.id == "" || i == |db.subscriptions| then Result(db, Ignored)
    else
      var mirrored := db.(subscriptions := db.subscriptions[i := Mirrored(db.subscriptions[i], sub)]);
      Result(Recomputed(mirrored, db.subscriptions[i].userId, now), Processed)
  }

  function CanceledSubscription(local: Subscription, sub: StripeSubscription, now: Time): Subscription {
    local.(status := SubscriptionStatus.Canceled, cancelAtPeriodEnd := true,
           canceledAt := Some(OrElse(EpochToTime(sub.canceledAt), now)))
  }

  function OnSubscriptionDeleted(db: Db, sub: StripeSubscription, now: Time): Result {
    var i := SubscriptionByStripeId(db.subscriptions, sub.id);
    if i == |db.subscriptions| then Result(db, Ignored)
    else
      var ended := db.(subscriptions := db.subscriptions[i := CanceledSubscription(db.subscriptions[i], sub, now)]);
      Result(Recomputed(ended, db.subscriptions[i].userId, now), Processed)
  }

  // ---- Invoices ----

  /** The owner of a Stripe customer id, if the customer is known here. */
  function OwnerOf(cs: seq<Customer>, customer: Ref): Option<int> {
    var id := IdOf(customer);
    if !Truthy(id) then None
    else
      var i := CustomerByStripeId(cs, id.value);
      if i == |cs| then None else Some(cs[i].userId)
  }

  function SubscriptionOfInvoice(ss: seq<Subscription>, inv: StripeInvoice): Option<Uuid> {
    if !Truthy(inv.subscription) then None
    else
      var j := SubscriptionByStripeId(ss, inv.subscription.value);
      if j == |ss| then None else Some(ss[j].id)
  }

  function MirroredInvoice(local: Invoice, inv: StripeInvoice, now: Time): Invoice {
    var status := ToInvoiceStatus(inv.status);
    local.(status := status,
           subtotal := OrElse(inv.subtotal, local.subtotal),
           total := OrElse(inv.total, local.total),
           amountPaid := OrElse(inv.amountPaid, local.amountPaid),
           amountDue := OrElse(inv.amountDue, local.amountDue),
           number := if inv.number.Some? then inv.number else local.number,
           periodStart := EpochToTime(inv.periodStart),
           periodEnd := EpochToTime(inv.periodEnd),
           paidAt := if inv.paidAt.Some? && inv.paidAt.value != 0 then EpochToTime(inv.paidAt)
                     else if status.Paid? && local.paidAt.None? then Some(now) else local.paidAt,
           intentId := if inv.intent.Some? then inv.intent else local.intentId)
  }

  function NewInvoice(userId: int, subscriptionId: Option<Uuid>, inv: StripeInvoice): Invoice {
    Invoice(userId, subscriptionId, inv.id, inv.intent, None, Draft, 0, 0, 0, 0, None, None, None)
  }

  /** The database with the invoice saved, and the user it belongs to. */
  datatype SavedInvoice = SavedInvoice(db: Db, userId: int)

  /** Upserts the invoice; None, and no change, when it is new and its customer is unknown. */
  function UpsertInvoice(db: Db, inv: StripeInvoice, now: Time): Option<SavedInvoice> {
    var i := InvoiceByStripeId(db.invoices, inv.id);
    if i < |db.invoices| then
      var saved := db.(invoices := db.invoices[i := MirroredInvoice(db.invoices[i], inv, now)]);
      Some(SavedInvoice(saved, db.invoices[i].userId))
    else
      var owner := OwnerOf(db.customers, inv.customer);
      if owner.None? then None
      else
        var blank := NewInvoice(owner.value, SubscriptionOfInvoice(db.subscriptions, inv), inv);
        var saved := db.(invoices := db.invoices + [MirroredInvoice(blank, inv, now)]);
        Some(SavedInvoice(saved, owner.value))
  }

  function OnInvoiceLifecycle(db: Db, inv: StripeInvoice, now: Time): Result {
    var saved := UpsertInvoice(db, inv, now);
    if inv.id == "" || saved.None? then Result(db, Ignored) else Result(saved.value.db, Processed)
  }

  function FailPaymentOf(ps: seq<Payment>, intent: Option<string>): seq<Payment> {
    if !Truthy(intent) then ps
    else
      var i := PaymentByIntent(ps, intent.value);
      if i == |ps| || ps[i].status.Succeeded? then ps
      else ps[i := ps[i].(status := PaymentStatus.Failed)]
  }

  function OnInvoicePaymentFailed(db: Db, inv: StripeInvoice, now: Time): Result {
    var saved := UpsertInvoice(db, inv, now);
    if inv.id == "" || saved.None? then Result(db, Ignored)
    else
      var failed := saved.value.db.(payments := FailPaymentOf(db.payments, inv.intent));
      Result(Recomputed(failed, saved.value.userId, now), Processed)
  }

  // ---- Dispatch ----

  /** A payload that is not of the kind its type announces makes the handler throw. */
  function Handle(db: Db, kind: EventKind, o: EventObject, now: Time): Result {
    match kind
    case CheckoutCompleted => if o.SessionObject? then OnCheckoutCompleted(db, o.session) else Result(db, Threw)
    case CheckoutExpired =>
      if o.SessionObject? then OnCheckoutExpired(db, o.session)
      else if o.NullObject? then Result(db, Ignored) else Result(db, Threw)
    case IntentSucceeded => if o.IntentObject? then OnIntentSucceeded(db, o.intent, now) else Result(db, Threw)
    case IntentFailed => if o.IntentObject? then OnIntentFailed(db, o.intent) else Result(db, Threw)
    case ChargeSucceeded => if o.ChargeObject? then OnChargeSucceeded(db, o.charge) else Result(db, Threw)
    case ChargeRefunded => if o.ChargeObject? then OnChargeRefunded(db, o.charge, now) else Result(db, Threw)
    case CustomerChanged => if o.CustomerObject? then OnCustomerChanged(db, o.customer) else Result(db, Threw)
    case SubscriptionChanged =>
      if o.SubscriptionObject? then OnSubscriptionChanged(db, o.subscription, now) else Result(db, Threw)
    case SubscriptionDeleted =>
      if o.SubscriptionObject? then OnSubscriptionDeleted(db, o.subscription, now) else Result(db, Threw)
    case InvoiceLifecycle => if o.InvoiceObject? then OnInvoiceLifecycle(db, o.invoice, now) else Result(db, Threw)
    case InvoicePaymentFailed =>
      if o.InvoiceObject? then OnInvoicePaymentFailed(db, o.invoice, now) else Result(db, Threw)
    case Unhandled => Result(db, Ignored)
  }

  function Dispatch(db: Db, e: Event, now: Time): Result {
    Handle(db, KindOf(e.eventType), OrElse(e.data, NullObject), now)
  }
}
