/** The parts of Stripe's webhook payloads the module reads, and their translation to local values. */
module Snapshots {
  import opened Model

  datatype MetadataValue = Text(text: string) | Number(number: int) | OtherValue

  type Metadata = map<string, MetadataValue>

  /** A field Stripe sends as an id, as an expanded object, or not at all. */
  datatype Ref = NoRef | IdRef(id: string) | ObjectRef(id: string)

  datatype Session = Session(
    id: string, mode: string, intent: Ref, paymentStatus: Option<string>,
    subscription: Ref, metadata: Option<Metadata>)

  datatype Intent = Intent(
    id: string, amount: Option<int>, amountReceived: Option<int>, status: Option<string>,
    latestCharge: Option<string>)

  datatype RefundItem = RefundItem(id: string, amount: Option<int>, status: Option<string>)

  datatype ChargeInfo = ChargeInfo(
    id: string, intent: Option<string>, amount: Option<int>, amountRefunded: Option<int>,
    refunds: Option<seq<RefundItem>>)

  datatype StripeSubscription = StripeSubscription(
    id: string, status: Option<string>, periodStart: Option<int>, periodEnd: Option<int>,
    trialEnd: Option<int>, cancelAtPeriodEnd: Option<bool>, canceledAt: Option<int>,
    latestInvoice: Ref, metadata: Option<Metadata>)

  datatype StripeInvoice = StripeInvoice(
    id: string, status: Option<string>, customer: Ref, subscription: Option<string>,
    intent: Option<string>, number: Option<string>,
    subtotal: Option<int>, total: Option<int>, amountPaid: Option<int>, amountDue: Option<int>,
    periodStart: Option<int>, periodEnd: Option<int>, paidAt: Option<int>)

  /** `name` keeps apart a missing field (None) and an explicit null (Some(None)). */
  datatype StripeCustomer = StripeCustomer(
    id: string, email: Option<string>, name: Option<Option<string>>, metadata: Option<map<string, string>>)

  datatype EventObject =
    | SessionObject(session: Session)
    | IntentObject(intent: Intent)
    | ChargeObject(charge: ChargeInfo)
    | CustomerObject(customer: StripeCustomer)
    | SubscriptionObject(subscription: StripeSubscription)
    | InvoiceObject(invoice: StripeInvoice)
    | NullObject

  datatype Event = Event(
    id: string, eventType: string, apiVersion: Option<string>, livemode: Option<bool>,
    created: Option<int>, data: Option<EventObject>, request: Option<string>)

  datatype EventKind =
    | CheckoutCompleted | CheckoutExpired | IntentSucceeded | IntentFailed | ChargeSucceeded | ChargeRefunded
    | CustomerChanged | SubscriptionChanged | SubscriptionDeleted | InvoiceLifecycle | InvoicePaymentFailed
    | Unhandled

  function KindOf(eventType: string): EventKind {
    if eventType == "checkout.session.completed" then CheckoutCompleted
    else if eventType == "checkout.session.expired" then CheckoutExpired
    else if eventType == "payment_intent.succeeded" then IntentSucceeded
    else if eventType == "payment_intent.payment_failed" then IntentFailed
    else if eventType == "charge.succeeded" then ChargeSucceeded
    else if eventType == "charge.refunded" then ChargeRefunded
    else if eventType in ["customer.created", "customer.updated"] then CustomerChanged
    else if eventType in ["customer.subscription.created", "customer.subscription.updated"] then SubscriptionChanged
    else if eventType == "customer.subscription.deleted" then SubscriptionDeleted
    else if eventType in ["invoice.created", "invoice.finalized", "invoice.paid", "invoice.voided",
                          "invoice.marked_uncollectible"] then InvoiceLifecycle
    else if eventType == "invoice.payment_failed" then InvoicePaymentFailed
    else Unhandled
  }

  // ---- JavaScript truthiness, `??` and the id coercions ----

  predicate Truthy(s: Option<string>) { s.Some? && s.value != "" }

  function OrElse<T>(o: Option<T>, fallback: T): T { if o.Some? then o.value else fallback }

  /** customerIdOf, subscriptionIdOf and invoiceIdOf: an empty id string counts as missing. */
  function IdOf(r: Ref): Option<string> {
    match r
    case NoRef => None
    case IdRef(id) => if id == "" then None else Some(id)
    case ObjectRef(id) => Some(id)
  }

  function EpochToTime(seconds: Option<int>): Option<Time> {
    if seconds.Some? then Some(seconds.value * 1000) else None
  }

  // ---- Local ids planted in the metadata at checkout ----

  datatype LocalIds = LocalIds(paymentId: Option<string>, subscriptionId: Option<string>)

  function TextAt(metadata: Metadata, key: string): Option<string> {
    if key in metadata && metadata[key].Text? && metadata[key].text != "" then Some(metadata[key].text) else None
  }

  function ExtractLocalIds(metadata: Option<Metadata>): LocalIds {
    if metadata.None? then LocalIds(None, None)
    else LocalIds(TextAt(metadata.value, "localPaymentId"), TextAt(metadata.value, "localSubscriptionId"))
  }

  // ---- Status mapping ----

  function ToSubscriptionStatus(status: Option<string>): SubscriptionStatus {
    if status.None? then Incomplete
    else if status.value == "trialing" then Trialing
    else if status.value == "active" then Active
    else if status.value == "past_due" then PastDue
    else if status.value == "canceled" then SubscriptionStatus.Canceled
    else if status.value == "unpaid" then Unpaid
    else if status.value == "paused" then Paused
    else if status.value == "incomplete_expired" then IncompleteExpired
    else Incomplete
  }

  function ToPaymentStatus(status: string): PaymentStatus {
    if status in ["succeeded", "paid"] then PaymentStatus.Succeeded
    else if status in ["canceled", "cancelled"] then PaymentStatus.Canceled
    else if status in ["failed", "unpaid"] then PaymentStatus.Failed
    else if status == "refunded" then Refunded
    else if status == "partially_refunded" then PartiallyRefunded
    else PaymentStatus.Pending
  }

  function ToInvoiceStatus(status: Option<string>): InvoiceStatus {
    if status.None? then Draft
    else if status.value == "open" then Open
    else if status.value == "paid" then Paid
    else if status.value == "void" then Void
    else if status.value == "uncollectible" then Uncollectible
    else Draft
  }

  function ToTransactionStatus(status: string): TransactionStatus {
    if status == "succeeded" then TransactionStatus.Succeeded
    else if status in ["failed", "canceled", "cancelled"] then TransactionStatus.Failed
    else TransactionStatus.Pending
  }
}
