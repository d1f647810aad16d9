/** Rows and tables of the billing module: one datatype per entity, one sequence per table. */
module Model {

  datatype Option<+T> = None | Some(value: T)

  /** A primary key drawn by the database: 36 characters, hexadecimal digits and hyphens only. */
  type Uuid = s: string | |s| == 36 && '|' !in s && ':' !in s
    witness "00000000-0000-0000-0000-000000000000"

  /** Milliseconds since the epoch, the resolution of the application's clock. */
  type Time = int

  datatype SubscriptionStatus =
    | Incomplete | Trialing | Active | PastDue | Canceled | Unpaid | Paused | IncompleteExpired

  datatype PaymentStatus =
    | CheckoutCreated | Pending | Succeeded | Failed | Canceled | Refunded | PartiallyRefunded

  datatype InvoiceStatus = Draft | Open | Paid | Void | Uncollectible

  datatype TransactionType = Charge | Refund

  datatype TransactionStatus = Pending | Succeeded | Failed

  datatype PriceType = OneTime | Recurring

  datatype SourceType = BySubscription | ByOneTimePayment | ByManualGrant

  datatype Plan = Plan(features: seq<string>)

  datatype Price = Price(planId: Uuid, priceType: PriceType)

  datatype Customer = Customer(
    userId: int, stripeCustomerId: string, email: string, name: Option<string>, metadata: map<string, string>)

  datatype Payment = Payment(
    id: Uuid, userId: int, priceId: Option<Uuid>,
    sessionId: Option<string>, intentId: Option<string>,
    amount: int, amountRefunded: int, status: PaymentStatus, createdAt: Time)

  datatype Subscription = Subscription(
    id: Uuid, userId: int, planId: Option<Uuid>,
    stripeId: string, sessionId: Option<string>, status: SubscriptionStatus,
    periodStart: Option<Time>, periodEnd: Option<Time>, trialEnd: Option<Time>,
    cancelAtPeriodEnd: bool, canceledAt: Option<Time>, latestInvoiceId: Option<string>,
    createdAt: Time)

  datatype Invoice = Invoice(
    userId: int, subscriptionId: Option<Uuid>, stripeId: string, intentId: Option<string>,
    number: Option<string>, status: InvoiceStatus,
    subtotal: int, total: int, amountPaid: int, amountDue: int,
    periodStart: Option<Time>, periodEnd: Option<Time>, paidAt: Option<Time>)

  datatype Transaction = Transaction(
    userId: int, paymentId: Uuid, kind: TransactionType, amount: int, status: TransactionStatus,
    intentId: Option<string>, chargeId: Option<string>, refundId: Option<string>, occurredAt: Time)

  datatype Entitlement = Entitlement(
    userId: int, featureKey: string, sourceType: SourceType, sourceId: Option<Uuid>,
    active: bool, startsAt: Option<Time>, endsAt: Option<Time>)

  /** The whole billing database. The catalog (plans and prices) is read, never written. */
  datatype Db = Db(
    payments: seq<Payment>, subscriptions: seq<Subscription>, invoices: seq<Invoice>,
    transactions: seq<Transaction>, customers: seq<Customer>, entitlements: seq<Entitlement>,
    plans: map<Uuid, Plan>, prices: map<Uuid, Price>)

  // ---- Lookups: the first matching row, or the table's length when there is none. ----

  function PaymentById(ps: seq<Payment>, id: string): (i: nat)
    ensures i <= |ps|
    ensures i < |ps| ==> ps[i].id == id
    ensures forall k | 0 <= k < i :: ps[k].id != id
  {
    if ps == [] || ps[0].id == id then 0 else 1 + PaymentById(ps[1..], id)
  }

  function PaymentByIntent(ps: seq<Payment>, intent: string): (i: nat)
    ensures i <= |ps|
    ensures i < |ps| ==> ps[i].intentId == Some(intent)
    ensures forall k | 0 <= k < i :: ps[k].intentId != Some(intent)
  {
    if ps == [] || ps[0].intentId == Some(intent) then 0 else 1 + PaymentByIntent(ps[1..], intent)
  }

  function SubscriptionById(ss: seq<Subscription>, id: string): (i: nat)
    ensures i <= |ss|
    ensures i < |ss| ==> ss[i].id == id
    ensures forall k | 0 <= k < i :: ss[k].id != id
  {
    if ss == [] || ss[0].id == id then 0 else 1 + SubscriptionById(ss[1..], id)
  }

  function SubscriptionByStripeId(ss: seq<Subscription>, stripeId: string): (i: nat)
    ensures i <= |ss|
    ensures i < |ss| ==> ss[i].stripeId == stripeId
    ensures forall k | 0 <= k < i :: ss[k].stripeId != stripeId
  {
    if ss == [] || ss[0].stripeId == stripeId then 0 else 1 + SubscriptionByStripeId(ss[1..], stripeId)
  }

  function InvoiceByStripeId(vs: seq<Invoice>, stripeId: string): (i: nat)
    ensures i <= |vs|
    ensures i < |vs| ==> vs[i].stripeId == stripeId
    ensures forall k | 0 <= k < i :: vs[k].stripeId != stripeId
  {
    if vs == [] || vs[0].stripeId == stripeId then 0 else 1 + InvoiceByStripeId(vs[1..], stripeId)
  }

  function CustomerByStripeId(cs: seq<Customer>, stripeId: string): (i: nat)
    ensures i <= |cs|
    ensures i < |cs| ==> cs[i].stripeCustomerId == stripeId
    ensures forall k | 0 <= k < i :: cs[k].stripeCustomerId != stripeId
  {
    if cs == [] || cs[0].stripeCustomerId == stripeId then 0 else 1 + CustomerByStripeId(cs[1..], stripeId)
  }

  function TransactionByRefund(ts: seq<Transaction>, refundId: string): (i: nat)
    ensures i <= |ts|
    ensures i < |ts| ==> ts[i].refundId == Some(refundId)
    ensures forall k | 0 <= k < i :: ts[k].refundId != Some(refundId)
  {
    if ts == [] || ts[0].refundId == Some(refundId) then 0 else 1 + TransactionByRefund(ts[1..], refundId)
  }

  function ChargeByIntent(ts: seq<Transaction>, intent: string): (i: nat)
    ensures i <= |ts|
    ensures i < |ts| ==> ts[i].kind.Charge? && ts[i].intentId == Some(intent)
    ensures forall k | 0 <= k < i :: !(ts[k].kind.Charge? && ts[k].intentId == Some(intent))
  {
    if ts == [] || (ts[0].kind.Charge? && ts[0].intentId == Some(intent)) then 0
    else 1 + ChargeByIntent(ts[1..], intent)
  }

  // ---- A saved row that keeps its key is found where it was ----

  lemma PaymentByIdAfterSave(ps: seq<Payment>, i: nat, p: Payment, id: string)
    requires i == PaymentById(ps, id) < |ps| && p.id == id
    ensures PaymentById(ps[i := p], id) == i
  {
    var qs := ps[i := p];
    assert forall k | 0 <= k < i :: qs[k].id != id;
    assert qs[i].id == id;
  }

  lemma PaymentByIntentAfterSave(ps: seq<Payment>, i: nat, p: Payment, intent: string)
    requires i == PaymentByIntent(ps, intent) < |ps| && p.intentId == Some(intent)
    ensures PaymentByIntent(ps[i := p], intent) == i
  {
    var qs := ps[i := p];
    assert forall k | 0 <= k < i :: qs[k].intentId != Some(intent);
    assert qs[i].intentId == Some(intent);
  }

  lemma SubscriptionByIdAfterSave(ss: seq<Subscription>, i: nat, s: Subscription, id: string)
    requires i == SubscriptionById(ss, id) < |ss| && s.id == id
    ensures SubscriptionById(ss[i := s], id) == i
  {
    var rs := ss[i := s];
    assert forall k | 0 <= k < i :: rs[k].id != id;
    assert rs[i].id == id;
  }

  lemma SubscriptionByStripeIdAfterSave(ss: seq<Subscription>, i: nat, s: Subscription, stripeId: string)
    requires i < |ss| && (forall k | 0 <= k < i :: ss[k].stripeId != stripeId) && s.stripeId == stripeId
    ensures SubscriptionByStripeId(ss[i := s], stripeId) == i
  {
    var rs := ss[i := s];
    assert forall k | 0 <= k < i :: rs[k].stripeId != stripeId;
    assert rs[i].stripeId == stripeId;
  }

  // ---- Unique indexes ----

  /** Saving `p` as row `i` would repeat another row's intent or checkout session. */
  predicate PaymentClash(ps: seq<Payment>, i: nat, p: Payment) {
    exists k | 0 <= k < |ps| ::
      k != i && ((p.intentId.Some? && ps[k].intentId == p.intentId) ||
                 (p.sessionId.Some? && ps[k].sessionId == p.sessionId))
  }

  /** Saving `s` as row `i` would repeat another row's Stripe id or checkout session. */
  predicate SubscriptionClash(ss: seq<Subscription>, i: nat, s: Subscription) {
    exists k | 0 <= k < |ss| ::
      k != i && (ss[k].stripeId == s.stripeId || (s.sessionId.Some? && ss[k].sessionId == s.sessionId))
  }

  predicate UniquePayments(ps: seq<Payment>) {
    forall i, j | 0 <= i < j < |ps| ::
      ps[i].id != ps[j].id &&
      (ps[i].intentId.Some? ==> ps[i].intentId != ps[j].intentId) &&
      (ps[i].sessionId.Some? ==> ps[i].sessionId != ps[j].sessionId)
  }

  predicate UniqueSubscriptions(ss: seq<Subscription>) {
    forall i, j | 0 <= i < j < |ss| ::
      ss[i].id != ss[j].id && ss[i].stripeId != ss[j].stripeId &&
      (ss[i].sessionId.Some? ==> ss[i].sessionId != ss[j].sessionId)
  }

  predicate UniqueInvoices(vs: seq<Invoice>) {
    forall i, j | 0 <= i < j < |vs| :: vs[i].stripeId != vs[j].stripeId
  }

  /** No database index asks for this: one charge per intent and one row per refund id. */
  predicate UniqueTransactions(ts: seq<Transaction>) {
    forall i, j | 0 <= i < j < |ts| ::
      (ts[i].kind.Charge? && ts[j].kind.Charge? ==> ts[i].intentId != ts[j].intentId) &&
      (ts[i].refundId.Some? ==> ts[i].refundId != ts[j].refundId)
  }

  predicate SameKey(a: Entitlement, b: Entitlement) {
    a.userId == b.userId && a.featureKey == b.featureKey &&
    a.sourceType == b.sourceType && a.sourceId == b.sourceId
  }

  /** Kept by application logic alone: one row per (user, feature, source type, source id). */
  predicate OneRowPerKey(es: seq<Entitlement>) {
    forall i, j | 0 <= i < j < |es| :: !SameKey(es[i], es[j])
  }

  /** What every serial run of the billing module keeps. */
  predicate Valid(db: Db) {
    UniquePayments(db.payments) && UniqueSubscriptions(db.subscriptions) &&
    UniqueInvoices(db.invoices) && UniqueTransactions(db.transactions) && OneRowPerKey(db.entitlements)
  }
}
