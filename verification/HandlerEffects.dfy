/**
 * What each event type promises, in Stripe's own words and by the columns of the tables: which row it is about, every
 * field it writes there, what it leaves alone, and when it is ignored or refused.
 */
module HandlerEffects {
  import opened Model
  import opened Snapshots
  import opened Entitlements
  import opened Handlers
  import opened HandlerInvariants

  // ---- Stripe's words ----

  /** A reference carries an id, as a string or inside an expanded object. */
  predicate Carries(r: Ref) { !r.NoRef? && r.id != "" }

  /** The metadata has a text, not an empty one, under this key. */
  predicate Says(metadata: Option<Metadata>, key: string) {
    metadata.Some? && key in metadata.value && metadata.value[key].Text? && metadata.value[key].text != ""
  }

  predicate NamesPayment(metadata: Option<Metadata>, p: Payment) {
    Says(metadata, "localPaymentId") && metadata.value["localPaymentId"].text == p.id
  }

  predicate NamesSubscription(metadata: Option<Metadata>, s: Subscription) {
    Says(metadata, "localSubscriptionId") && metadata.value["localSubscriptionId"].text == s.id
  }

  /** A word for a payment and the status kept for it; no word counts as paid, an unknown one as pending. */
  predicate PaymentWord(word: Option<string>, status: PaymentStatus) {
    (status.Succeeded? <==> word.None? || word == Some("succeeded") || word == Some("paid")) &&
    (status.Canceled? <==> word == Some("canceled") || word == Some("cancelled")) &&
    (status.Failed? <==> word == Some("failed") || word == Some("unpaid")) &&
    (status.Refunded? <==> word == Some("refunded")) &&
    (status.PartiallyRefunded? <==> word == Some("partially_refunded")) && !status.CheckoutCreated?
  }

  /** A refund's word and the status of its row; no word counts as succeeded, an unknown one as pending. */
  predicate RefundWord(word: Option<string>, status: TransactionStatus) {
    (status.Succeeded? <==> word.None? || word == Some("succeeded")) &&
    (status.Failed? <==> word == Some("failed") || word == Some("canceled") || word == Some("cancelled"))
  }

  /** A status word from Stripe and the status kept for it; an unknown or missing word counts as incomplete. */
  predicate StatusWord(word: Option<string>, status: SubscriptionStatus) {
    (status.Trialing? <==> word == Some("trialing")) && (status.Active? <==> word == Some("active")) &&
    (status.PastDue? <==> word == Some("past_due")) && (status.Canceled? <==> word == Some("canceled")) &&
    (status.Unpaid? <==> word == Some("unpaid")) && (status.Paused? <==> word == Some("paused")) &&
    (status.IncompleteExpired? <==> word == Some("incomplete_expired"))
  }

  /** Seconds in the snapshot, milliseconds on file. */
  predicate SameMoment(seconds: Option<int>, at: Option<Time>) {
    if seconds.None? then at.None? else at == Some(seconds.value * 1000)
  }

  // ---- Frames ----

  predicate PaymentsSameBut(a: seq<Payment>, b: seq<Payment>, i: nat) {
    |a| == |b| && forall k | 0 <= k < |a| && k != i :: b[k] == a[k]
  }

  predicate SubscriptionsSameBut(a: seq<Subscription>, b: seq<Subscription>, i: nat) {
    |a| == |b| && forall k | 0 <= k < |a| && k != i :: b[k] == a[k]
  }

  /** What a payment was created with, which no webhook changes. */
  predicate SamePurchase(p: Payment, q: Payment) {
    q.id == p.id && q.userId == p.userId && q.priceId == p.priceId && q.amount == p.amount && q.createdAt == p.createdAt
  }

  /** What a subscription was created with. */
  predicate SameContract(s: Subscription, t: Subscription) {
    t.id == s.id && t.userId == s.userId && t.planId == s.planId && t.createdAt == s.createdAt
  }

  // ---- The rows an event is about ----

  lemma NamedPayment(metadata: Option<Metadata>, ps: seq<Payment>, i: nat)
    requires UniquePayments(ps) && i < |ps| && NamesPayment(metadata, ps[i])
    ensures ExtractLocalIds(metadata).paymentId == Some(ps[i].id) && PaymentById(ps, ps[i].id) == i
  {
    var k := PaymentById(ps, ps[i].id);
    assert k <= i;
  }

  lemma NamedSubscription(metadata: Option<Metadata>, ss: seq<Subscription>, j: nat)
    requires UniqueSubscriptions(ss) && j < |ss| && NamesSubscription(metadata, ss[j])
    ensures ExtractLocalIds(metadata).subscriptionId == Some(ss[j].id) && SubscriptionById(ss, ss[j].id) == j
  {
    var k := SubscriptionById(ss, ss[j].id);
    assert k <= j;
  }

  lemma PaymentOfIntent(ps: seq<Payment>, i: nat, intent: string)
    requires UniquePayments(ps) && i < |ps| && ps[i].intentId == Some(intent)
    ensures PaymentByIntent(ps, intent) == i
  {
    var k := PaymentByIntent(ps, intent);
    assert k <= i;
  }

  // ---- Checkout sessions ----

  /** No other payment has the session's intent or its id. */
  predicate SessionIsNew(ps: seq<Payment>, i: nat, s: Session) {
    forall k | 0 <= k < |ps| && k != i ::
      !(Carries(s.intent) && ps[k].intentId == Some(s.intent.id)) && !(s.id != "" && ps[k].sessionId == Some(s.id))
  }

  /** The payment takes the session's intent and id, and its payment status if it was still open. */
  predicate Completes(was: Payment, row: Payment, s: Session) {
    SamePurchase(was, row) && row.amountRefunded == was.amountRefunded &&
    row.intentId == (if Carries(s.intent) then Some(s.intent.id) else was.intentId) &&
    row.sessionId == (if s.id != "" then Some(s.id) else was.sessionId) &&
    (if was.status.CheckoutCreated? || was.status.Pending? then PaymentWord(s.paymentStatus, row.status)
     else row.status == was.status)
  }

  lemma CompletedCompletes(ps: seq<Payment>, i: nat, s: Session)
    requires UniquePayments(ps) && i < |ps|
    ensures var p := CompletedPayment(ps[i], s);
            Completes(ps[i], p, s) && (p != ps[i] && PaymentClash(ps, i, p) <==> !SessionIsNew(ps, i, s))
  {
    var p := CompletedPayment(ps[i], s);
    forall k | 0 <= k < |ps| && k != i
      ensures ps[k].id != ps[i].id && (ps[i].intentId.Some? ==> ps[k].intentId != ps[i].intentId) &&
              (ps[i].sessionId.Some? ==> ps[k].sessionId != ps[i].sessionId)
    {
      if k < i { assert ps[k].id != ps[i].id; } else { assert ps[i].id != ps[k].id; }
    }
  }

  /**
   * A completion writes the payment its metadata names, and of the other tables at most the subscriptions. It is
   * refused, and changes nothing, exactly when another payment has the session's intent or id.
   */
  lemma CompletionEffect(db: Db, s: Session, i: nat)
    requires Valid(db) && i < |db.payments| && NamesPayment(s.metadata, db.payments[i])
    ensures var result := OnCheckoutCompleted(db, s);
            if !SessionIsNew(db.payments, i, s) then result == Result(db, Threw)
            else !result.outcome.Ignored? && PaymentsSameBut(db.payments, result.db.payments, i) &&
                 Completes(db.payments[i], result.db.payments[i], s) &&
                 result.db == db.(payments := result.db.payments, subscriptions := result.db.subscriptions)
  {
    NamedPayment(s.metadata, db.payments, i);
    CompletedCompletes(db.payments, i, s);
  }

  /** The session is a subscription's, carries its id, and names this row. */
  predicate BindsTo(s: Session, row: Subscription) {
    s.mode == "subscription" && Carries(s.subscription) && NamesSubscription(s.metadata, row)
  }

  /** Another subscription has the id the session carries, or the session. */
  predicate IdIsTaken(ss: seq<Subscription>, j: nat, s: Session)
    requires Carries(s.subscription)
  {
    exists k | 0 <= k < |ss| :: k != j && (ss[k].stripeId == s.subscription.id || (s.id != "" && ss[k].sessionId == Some(s.id)))
  }

  /**
   * The completion of a subscription's session puts the id it carries, and the session, on the subscription it names,
   * unless another one has either: then it is refused, with the payment already written. Nothing else of any
   * subscription changes.
   */
  lemma CompletionBindsShell(db: Db, s: Session, i: nat)
    requires Valid(db) && i < |db.payments| && NamesPayment(s.metadata, db.payments[i]) && SessionIsNew(db.payments, i, s)
    ensures var ss, result := db.subscriptions, OnCheckoutCompleted(db, s);
            && ((forall j | 0 <= j < |ss| :: !BindsTo(s, ss[j])) ==> result.outcome.Processed? && result.db.subscriptions == ss)
            && forall j | 0 <= j < |ss| && BindsTo(s, ss[j]) ::
                 if IdIsTaken(ss, j, s) then result.outcome.Threw? && result.db.subscriptions == ss
                 else result.outcome.Processed? &&
                      result.db.subscriptions == ss[j := ss[j].(stripeId := s.subscription.id,
                                                                sessionId := if s.id != "" then Some(s.id) else ss[j].sessionId)]
  {
    var ss, result := db.subscriptions, OnCheckoutCompleted(db, s);
    var p := CompletedPayment(db.payments[i], s);
    NamedPayment(s.metadata, db.payments, i);
    CompletedCompletes(db.payments, i, s);
    assert result == BindShell(db.(payments := db.payments[i := p]), s, ExtractLocalIds(s.metadata));
    ShellIsBound(db.(payments := db.payments[i := p]), s);
  }

  lemma ShellIsBound(db: Db, s: Session)
    requires UniqueSubscriptions(db.subscriptions)
    ensures var ss, result := db.subscriptions, BindShell(db, s, ExtractLocalIds(s.metadata));
            && ((forall j | 0 <= j < |ss| :: !BindsTo(s, ss[j])) ==> result.outcome.Processed? && result.db.subscriptions == ss)
            && forall j | 0 <= j < |ss| && BindsTo(s, ss[j]) ::
                 if IdIsTaken(ss, j, s) then result.outcome.Threw? && result.db.subscriptions == ss
                 else result.outcome.Processed? &&
                      result.db.subscriptions == ss[j := ss[j].(stripeId := s.subscription.id,
                                                                sessionId := if s.id != "" then Some(s.id) else ss[j].sessionId)]
  {
    var ss, ids := db.subscriptions, ExtractLocalIds(s.metadata);
    forall j | 0 <= j < |ss| && BindsTo(s, ss[j])
      ensures ids.subscriptionId == Some(ss[j].id) && SubscriptionById(ss, ss[j].id) == j
      ensures var bound := BoundSubscription(ss[j], s, s.subscription.id);
              bound != ss[j] && SubscriptionClash(ss, j, bound) <==> IdIsTaken(ss, j, s)
    {
      NamedSubscription(s.metadata, ss, j);
      BoundIsTaken(ss, j, s);
    }
    if ids.subscriptionId.Some? {
      var j := SubscriptionById(ss, ids.subscriptionId.value);
      if j < |ss| && s.mode == "subscription" && Carries(s.subscription) { assert BindsTo(s, ss[j]); }
    }
  }

  lemma BoundIsTaken(ss: seq<Subscription>, j: nat, s: Session)
    requires UniqueSubscriptions(ss) && j < |ss| && Carries(s.subscription)
    ensures var bound := BoundSubscription(ss[j], s, s.subscription.id);
            bound != ss[j] && SubscriptionClash(ss, j, bound) <==> IdIsTaken(ss, j, s)
  {
    forall k | 0 <= k < |ss| && k != j
      ensures ss[k].stripeId != ss[j].stripeId && (ss[j].sessionId.Some? ==> ss[k].sessionId != ss[j].sessionId)
    {
      if k < j { assert ss[k].id != ss[j].id; } else { assert ss[j].id != ss[k].id; }
    }
  }

  /**
   * An expiry cancels the payment its metadata names unless it succeeded, and gives it the session if it had none; it
   * is refused, and changes nothing, exactly when another payment has that session.
   */
  lemma ExpiryEffect(db: Db, s: Session, i: nat)
    requires Valid(db) && i < |db.payments| && NamesPayment(s.metadata, db.payments[i])
    ensures var p, result := db.payments[i], OnCheckoutExpired(db, s);
            var own := p.sessionId.Some? && p.sessionId.value != "";
            if p.status.Succeeded? then result == Result(db, Processed)
            else if !own && exists k | 0 <= k < |db.payments| && k != i :: db.payments[k].sessionId == Some(s.id)
            then result == Result(db, Threw)
            else result.outcome.Processed? &&
                 result.db.payments == db.payments[i := p.(status := PaymentStatus.Canceled,
                                                           sessionId := if own then p.sessionId else Some(s.id))] &&
                 result.db == db.(payments := result.db.payments, subscriptions := result.db.subscriptions)
  {
    var ps := db.payments;
    NamedPayment(s.metadata, ps, i);
    forall k | 0 <= k < |ps| && k != i
      ensures (ps[i].intentId.Some? ==> ps[k].intentId != ps[i].intentId) && (ps[i].sessionId.Some? ==> ps[k].sessionId != ps[i].sessionId)
    {
      if k < i { assert ps[k].id != ps[i].id; } else { assert ps[i].id != ps[k].id; }
    }
  }

  /** An expiry that cancels its payment also expires the subscription its metadata names, if that is incomplete, and no other. */
  lemma ExpiryExpiresShell(db: Db, s: Session)
    requires Valid(db)
    ensures var ss, after := db.subscriptions, OnCheckoutExpired(db, s).db;
            && (after.payments == db.payments && OnCheckoutExpired(db, s).outcome != Processed ==> after.subscriptions == ss)
            && ((forall j | 0 <= j < |ss| :: !(NamesSubscription(s.metadata, ss[j]) && ss[j].status.Incomplete?)) ==>
                after.subscriptions == ss)
            && forall i, j | 0 <= i < |db.payments| && NamesPayment(s.metadata, db.payments[i]) &&
                             0 <= j < |ss| && NamesSubscription(s.metadata, ss[j]) && ss[j].status.Incomplete? ::
                 after.subscriptions == if !db.payments[i].status.Succeeded? && OnCheckoutExpired(db, s).outcome.Processed?
                                        then ss[j := ss[j].(status := IncompleteExpired)] else ss
  {
    var ss, ids := db.subscriptions, ExtractLocalIds(s.metadata);
    forall i | 0 <= i < |db.payments| && NamesPayment(s.metadata, db.payments[i])
      ensures ids.paymentId == Some(db.payments[i].id) && PaymentById(db.payments, db.payments[i].id) == i
    {
      NamedPayment(s.metadata, db.payments, i);
    }
    forall j | 0 <= j < |ss| && NamesSubscription(s.metadata, ss[j])
      ensures ids.subscriptionId == Some(ss[j].id) && SubscriptionById(ss, ss[j].id) == j
    {
      NamedSubscription(s.metadata, ss, j);
    }
    if ids.subscriptionId.Some? {
      var j := SubscriptionById(ss, ids.subscriptionId.value);
      if j < |ss| { assert NamesSubscription(s.metadata, ss[j]); }
    }
  }

  // ---- Payment intents and charges ----

  /** A charge row for the intent: the received amount when it is positive, else the intent's, else the payment's. */
  predicate ChargeRow(t: Transaction, intent: Intent, p: Payment, now: Time) {
    t.kind.Charge? && t.status.Succeeded? && t.userId == p.userId && t.paymentId == p.id &&
    t.intentId == Some(intent.id) && t.chargeId == intent.latestCharge && t.refundId.None? && t.occurredAt == now &&
    t.amount == (if intent.amountReceived.Some? && intent.amountReceived.value > 0 then intent.amountReceived.value
                 else if intent.amount.Some? then intent.amount.value else p.amount)
  }

  predicate HasCharge(ts: seq<Transaction>, intentId: string) {
    exists k | 0 <= k < |ts| :: ts[k].kind.Charge? && ts[k].intentId == Some(intentId)
  }

  /**
   * An intent's success takes its payment's status from the intent unless the payment is settled or refunded, books a
   * charge if the intent has none, and settles its user's entitlements; nothing else changes.
   */
  lemma SuccessEffect(db: Db, intent: Intent, now: Time, i: nat)
    requires Valid(db) && intent.id != "" && i < |db.payments| && db.payments[i].intentId == Some(intent.id)
    ensures var p, result := db.payments[i], OnIntentSucceeded(db, intent, now);
            var after, ts := result.db, result.db.transactions;
            && result.outcome.Processed?
            && PaymentsSameBut(db.payments, after.payments, i) && after.payments[i] == p.(status := after.payments[i].status)
            && (if p.status.Succeeded? || p.status.Refunded? || p.status.PartiallyRefunded? then after.payments[i].status == p.status
                else PaymentWord(intent.status, after.payments[i].status))
            && (if HasCharge(db.transactions, intent.id) then ts == db.transactions
                else |ts| == |db.transactions| + 1 && db.transactions <= ts && ChargeRow(ts[|db.transactions|], intent, p, now))
            && IndexSettled(db.entitlements, after, p.userId, now)
            && after == db.(payments := after.payments, transactions := ts, entitlements := after.entitlements)
  {
    var p := db.payments[i];
    PaymentOfIntent(db.payments, i, intent.id);
    var paid := p.(status := if Settled(p.status) then p.status else ToPaymentStatus(OrElse(intent.status, "succeeded")));
    var saved := db.(payments := db.payments[i := paid], transactions := RecordCharge(db.transactions, intent, paid, now));
    assert OnIntentSucceeded(db, intent, now) == Result(Recomputed(saved, p.userId, now), Processed);
    assert Valid(saved) by { SuccessStaysValid(db, intent, now, i, paid); }
    ChargeIsBooked(db.transactions, intent, p, paid, now);
    RecomputeSettles(saved, p.userId, now);
  }

  lemma SuccessStaysValid(db: Db, intent: Intent, now: Time, i: nat, paid: Payment)
    requires Valid(db) && i < |db.payments| && paid == db.payments[i].(status := paid.status)
    ensures Valid(db.(payments := db.payments[i := paid], transactions := RecordCharge(db.transactions, intent, paid, now)))
  {
    PaymentSaveKeepsUnique(db.payments, i, paid);
  }

  lemma ChargeIsBooked(ts: seq<Transaction>, intent: Intent, p: Payment, paid: Payment, now: Time)
    requires paid == p.(status := paid.status)
    ensures var after := RecordCharge(ts, intent, paid, now);
            if HasCharge(ts, intent.id) then after == ts
            else |after| == |ts| + 1 && ts <= after && ChargeRow(after[|ts|], intent, p, now)
  {
    var c := ChargeByIntent(ts, intent.id);
    assert c < |ts| ==> HasCharge(ts, intent.id);
  }

  /** A payment failure marks the intent's payment failed unless it succeeded, and changes nothing else. */
  lemma FailureEffect(db: Db, intent: Intent, i: nat)
    requires Valid(db) && intent.id != "" && i < |db.payments| && db.payments[i].intentId == Some(intent.id)
    ensures var after := OnIntentFailed(db, intent).db;
            && OnIntentFailed(db, intent).outcome.Processed?
            && PaymentsSameBut(db.payments, after.payments, i) && after == db.(payments := after.payments)
            && after.payments[i] == db.payments[i].(status := after.payments[i].status)
            && (db.payments[i].status.Succeeded? ==> after.payments[i].status.Succeeded?)
            && (after.payments[i].status.Failed? <==> !db.payments[i].status.Succeeded?)
  {
    PaymentOfIntent(db.payments, i, intent.id);
  }

  /** A charge's success settles its payment, refunded ones excepted; nothing else in the database changes. */
  lemma ChargeSuccessEffect(db: Db, charge: ChargeInfo, i: nat)
    requires Valid(db) && i < |db.payments| && charge.intent.Some? && charge.intent.value != ""
    requires db.payments[i].intentId == charge.intent
    ensures var after := OnChargeSucceeded(db, charge).db;
            && OnChargeSucceeded(db, charge).outcome.Processed?
            && PaymentsSameBut(db.payments, after.payments, i) && after == db.(payments := after.payments)
            && after.payments[i] == db.payments[i].(status := after.payments[i].status)
            && (after.payments[i].status.Succeeded? <==> !db.payments[i].status.Refunded? && !db.payments[i].status.PartiallyRefunded?)
            && (!after.payments[i].status.Succeeded? ==> after == db)
  {
    PaymentOfIntent(db.payments, i, charge.intent.value);
  }

  /** The row booked for one listed refund of the payment. */
  predicate RefundRow(t: Transaction, item: RefundItem, p: Payment, charge: ChargeInfo, now: Time) {
    t.kind.Refund? && t.userId == p.userId && t.paymentId == p.id && t.intentId == charge.intent && t.chargeId == Some(charge.id) &&
    item.id != "" && t.refundId == Some(item.id) && t.amount == (if item.amount.Some? then item.amount.value else 0) &&
    RefundWord(item.status, t.status) && t.occurredAt == now
  }

  predicate BookedBy(t: Transaction, p: Payment, charge: ChargeInfo, items: seq<RefundItem>, now: Time) {
    exists k | 0 <= k < |items| :: RefundRow(t, items[k], p, charge, now)
  }

  lemma {:induction false} OnlyListedRefundsAreBooked(ts: seq<Transaction>, items: seq<RefundItem>, p: Payment, charge: ChargeInfo, now: Time)
    ensures var after := RecordRefunds(ts, items, p, charge, now);
            ts <= after && forall k | |ts| <= k < |after| :: BookedBy(after[k], p, charge, items, now)
  {
    if items != [] {
      var n := |items| - 1;
      OnlyListedRefundsAreBooked(ts, items[..n], p, charge, now);
      var mid, after := RecordRefunds(ts, items[..n], p, charge, now), RecordRefunds(ts, items, p, charge, now);
      forall k | |ts| <= k < |after| ensures BookedBy(after[k], p, charge, items, now) {
        if k < |mid| {
          assert BookedBy(mid[k], p, charge, items[..n], now);
          var j :| 0 <= j < n && RefundRow(mid[k], items[..n][j], p, charge, now);
          assert RefundRow(after[k], items[j], p, charge, now);
        } else {
          assert RefundRow(after[k], items[n], p, charge, now);
        }
      }
    }
  }

  /**
   * A refund notice writes its payment's balance and status, and books listed refunds only; nothing else changes.
   * Without a list the balance is Stripe's reported total, or stays if none is reported, and the payment reads refunded
   * exactly when the reported total, 0 if missing, reaches the charge's amount, the payment's own if missing.
   */
  lemma RefundEffect(db: Db, charge: ChargeInfo, now: Time, i: nat)
    requires Valid(db) && i < |db.payments| && charge.intent.Some? && charge.intent.value != ""
    requires db.payments[i].intentId == charge.intent
    ensures var was, result := db.payments[i], OnChargeRefunded(db, charge, now);
            var after, row := result.db, result.db.payments[i];
            && result.outcome.Processed?
            && PaymentsSameBut(db.payments, after.payments, i)
            && row == was.(amountRefunded := row.amountRefunded, status := row.status)
            && (row.status.Refunded? || row.status.PartiallyRefunded?)
            && after == db.(payments := after.payments, transactions := after.transactions)
            && db.transactions <= after.transactions
            && (forall k | |db.transactions| <= k < |after.transactions| ::
                  charge.refunds.Some? && BookedBy(after.transactions[k], was, charge, charge.refunds.value, now))
            && (if charge.refunds.None? || charge.refunds.value == [] then
                  after.transactions == db.transactions &&
                  (charge.amountRefunded.Some? ==> row.amountRefunded == charge.amountRefunded.value) &&
                  (charge.amountRefunded.None? ==> row.amountRefunded == was.amountRefunded) &&
                  (row.status.Refunded? <==>
                     (if charge.amountRefunded.Some? then charge.amountRefunded.value else 0) >=
                     (if charge.amount.Some? then charge.amount.value else was.amount))
                else row.status.Refunded? <==> row.amountRefunded >= was.amount)
  {
    PaymentOfIntent(db.payments, i, charge.intent.value);
    OnlyListedRefundsAreBooked(db.transactions, OrElse(charge.refunds, []), db.payments[i], charge, now);
  }

  // ---- Customers ----

  /** A known customer takes the snapshot's email unless empty, its name if it has one or a null, and gains its metadata. */
  lemma CustomerEffect(db: Db, c: StripeCustomer)
    requires CustomerByStripeId(db.customers, c.id) < |db.customers|
    ensures var i, after := CustomerByStripeId(db.customers, c.id), OnCustomerChanged(db, c).db;
            var was, now := db.customers[i], after.customers[i];
            && OnCustomerChanged(db, c).outcome.Processed?
            && after == db.(customers := db.customers[i := now])
            && now.userId == was.userId && now.stripeCustomerId == was.stripeCustomerId
            && now.email == (if c.email.Some? && c.email.value != "" then c.email.value else was.email)
            && (c.name.Some? ==> now.name == c.name.value) && (c.name.None? ==> now.name == was.name)
            && (forall k :: k in now.metadata <==> k in was.metadata || (c.metadata.Some? && k in c.metadata.value))
            && (forall k | k in now.metadata ::
                  now.metadata[k] == if c.metadata.Some? && k in c.metadata.value then c.metadata.value[k] else was.metadata[k])
  {
  }

  // ---- Subscriptions ----

  /**
   * The row a subscription event is about: the one with its Stripe id; if there is none, the one its metadata names;
   * if it names no subscription but a payment, the shell with that payment's placeholder.
   */
  predicate IsAbout(ss: seq<Subscription>, sub: StripeSubscription, k: nat)
    requires k < |ss|
  {
    ss[k].stripeId == sub.id ||
    ((forall j | 0 <= j < |ss| :: ss[j].stripeId != sub.id) &&
     if Says(sub.metadata, "localSubscriptionId") then NamesSubscription(sub.metadata, ss[k])
     else Says(sub.metadata, "localPaymentId") && ss[k].stripeId == "pending_sub:" + sub.metadata.value["localPaymentId"].text)
  }

  lemma UpdateFindsItsRow(ss: seq<Subscription>, sub: StripeSubscription, k: nat)
    requires UniqueSubscriptions(ss) && k < |ss| && IsAbout(ss, sub, k)
    ensures Locate(ss, sub) == k
  {
    var i := SubscriptionByStripeId(ss, sub.id);
    if ss[k].stripeId == sub.id {
      assert i == k;
    } else if Says(sub.metadata, "localSubscriptionId") {
      NamedSubscription(sub.metadata, ss, k);
    } else {
      var p := SubscriptionByStripeId(ss, ss[k].stripeId);
      assert p == k;
    }
  }

  lemma UpdateFindsNothing(ss: seq<Subscription>, sub: StripeSubscription)
    requires forall k | 0 <= k < |ss| :: !IsAbout(ss, sub, k)
    ensures Locate(ss, sub) == |ss|
  {
    var i := Locate(ss, sub);
    if i < |ss| { assert IsAbout(ss, sub, i); }
  }

  /**
   * A subscription update writes the row it is about from the snapshot and settles its user's entitlements. A
   * placeholder gives way to the real id; what the snapshot leaves open of cancellation and invoice stays.
   */
  lemma UpdateEffect(db: Db, sub: StripeSubscription, now: Time, k: nat)
    requires Valid(db) && sub.id != "" && k < |db.subscriptions| && IsAbout(db.subscriptions, sub, k)
    ensures var was, result := db.subscriptions[k], OnSubscriptionChanged(db, sub, now);
            var after, row := result.db, result.db.subscriptions[k];
            && result.outcome.Processed?
            && SubscriptionsSameBut(db.subscriptions, after.subscriptions, k) && SameContract(was, row)
            && row.stripeId == (if "pending_sub:" <= was.stripeId then sub.id else was.stripeId)
            && row.sessionId == was.sessionId && StatusWord(sub.status, row.status)
            && SameMoment(sub.periodStart, row.periodStart) && SameMoment(sub.periodEnd, row.periodEnd)
            && SameMoment(sub.trialEnd, row.trialEnd) && (row.cancelAtPeriodEnd <==> sub.cancelAtPeriodEnd == Some(true))
            && row.canceledAt == (if sub.canceledAt.Some? && sub.canceledAt.value != 0 then Some(sub.canceledAt.value * 1000) else was.canceledAt)
            && row.latestInvoiceId == (if Carries(sub.latestInvoice) then Some(sub.latestInvoice.id) else was.latestInvoiceId)
            && IndexSettled(db.entitlements, after, was.userId, now)
            && after == db.(subscriptions := after.subscriptions, entitlements := after.entitlements)
  {
    UpdateFindsItsRow(db.subscriptions, sub, k);
    MirroringKeepsUnique(db.subscriptions, sub);
    RecomputeSettles(db.(subscriptions := db.subscriptions[k := Mirrored(db.subscriptions[k], sub)]), db.subscriptions[k].userId, now);
  }

  /** An update is ignored, and changes nothing, exactly when it has no id or no row is what it is about. */
  lemma UpdateIgnoredExactlyWhen(db: Db, sub: StripeSubscription, now: Time)
    requires Valid(db)
    ensures var result := OnSubscriptionChanged(db, sub, now);
            && (result.outcome.Ignored? <==> sub.id == "" || forall k | 0 <= k < |db.subscriptions| :: !IsAbout(db.subscriptions, sub, k))
            && (result.outcome.Ignored? ==> result.db == db)
  {
    if k :| 0 <= k < |db.subscriptions| && IsAbout(db.subscriptions, sub, k) {
      UpdateFindsItsRow(db.subscriptions, sub, k);
    } else {
      UpdateFindsNothing(db.subscriptions, sub);
    }
  }

  /** A deletion cancels the one row with its Stripe id, at Stripe's time or else now, and settles its user's entitlements. */
  lemma DeletionEffect(db: Db, sub: StripeSubscription, now: Time, k: nat)
    requires Valid(db) && k < |db.subscriptions| && db.subscriptions[k].stripeId == sub.id
    ensures var was, after := db.subscriptions[k], OnSubscriptionDeleted(db, sub, now).db;
            && OnSubscriptionDeleted(db, sub, now).outcome.Processed?
            && SubscriptionsSameBut(db.subscriptions, after.subscriptions, k)
            && (var row := after.subscriptions[k];
                row.status.Canceled? && row.cancelAtPeriodEnd &&
                row.canceledAt == Some(if sub.canceledAt.Some? then sub.canceledAt.value * 1000 else now) &&
                row == was.(status := row.status, cancelAtPeriodEnd := true, canceledAt := row.canceledAt))
            && IndexSettled(db.entitlements, after, was.userId, now)
            && after == db.(subscriptions := after.subscriptions, entitlements := after.entitlements)
  {
    var i := SubscriptionByStripeId(db.subscriptions, sub.id);
    assert i == k;
    var row := CanceledSubscription(db.subscriptions[k], sub, now);
    SubscriptionSaveKeepsUnique(db.subscriptions, k, row);
    RecomputeSettles(db.(subscriptions := db.subscriptions[k := row]), row.userId, now);
  }

  // ---- Invoices ----

  /**
   * A failed invoice payment mirrors the invoice as any invoice event does, fails the payment with the invoice's intent
   * unless that succeeded, and settles the entitlements of the invoice's user.
   */
  lemma InvoiceFailureEffect(db: Db, inv: StripeInvoice, now: Time)
    requires Valid(db) && OnInvoicePaymentFailed(db, inv, now).outcome.Processed?
    ensures var result, mirrored := OnInvoicePaymentFailed(db, inv, now), OnInvoiceLifecycle(db, inv, now);
            var after, i := result.db, InvoiceByStripeId(mirrored.db.invoices, inv.id);
            && mirrored.outcome.Processed? && after.invoices == mirrored.db.invoices && i < |after.invoices|
            && |after.payments| == |db.payments|
            && (forall k | 0 <= k < |db.payments| ::
                  after.payments[k] ==
                    if inv.intent.Some? && inv.intent.value != "" && db.payments[k].intentId == inv.intent && !db.payments[k].status.Succeeded?
                    then db.payments[k].(status := PaymentStatus.Failed) else db.payments[k])
            && after == db.(invoices := after.invoices, payments := after.payments, entitlements := after.entitlements)
            && IndexSettled(db.entitlements, after, after.invoices[i].userId, now)
  {
    var saved := UpsertInvoice(db, inv, now).value;
    var failed := saved.db.(payments := FailPaymentOf(db.payments, inv.intent));
    FailsOneIntent(db.payments, inv.intent);
    UpsertedOwner(db, inv, now);
    RecomputeSettles(failed, saved.userId, now);
  }

  lemma FailsOneIntent(ps: seq<Payment>, intent: Option<string>)
    requires UniquePayments(ps)
    ensures var after := FailPaymentOf(ps, intent);
            |after| == |ps| && UniquePayments(after) &&
            forall k | 0 <= k < |ps| ::
              after[k] == if intent.Some? && intent.value != "" && ps[k].intentId == intent && !ps[k].status.Succeeded?
                          then ps[k].(status := PaymentStatus.Failed) else ps[k]
  {
    if Truthy(intent) {
      var i := PaymentByIntent(ps, intent.value);
      if i < |ps| {
        PaymentSaveKeepsUnique(ps, i, ps[i].(status := PaymentStatus.Failed));
        forall k | 0 <= k < |ps| && k != i ensures ps[k].intentId != intent { if i < k { assert ps[i].id != ps[k].id; } }
      }
    }
  }

  lemma UpsertedOwner(db: Db, inv: StripeInvoice, now: Time)
    requires UpsertInvoice(db, inv, now).Some?
    ensures var saved := UpsertInvoice(db, inv, now).value;
            var i := InvoiceByStripeId(saved.db.invoices, inv.id);
            i < |saved.db.invoices| && saved.db.invoices[i].userId == saved.userId
  {
    var saved, i := UpsertInvoice(db, inv, now).value, InvoiceByStripeId(db.invoices, inv.id);
    assert saved.db.invoices[i].stripeId == inv.id && saved.db.invoices[i].userId == saved.userId;
    assert forall k | 0 <= k < i :: saved.db.invoices[k].stripeId != inv.id;
    assert InvoiceByStripeId(saved.db.invoices, inv.id) == i;
  }

  // ---- Events that change nothing ----

  /** No row on file is what the event is about. */
  predicate NothingOnFile(db: Db, kind: EventKind, o: EventObject) {
    match o
    case SessionObject(s) =>
      (kind.CheckoutCompleted? || kind.CheckoutExpired?) && forall k | 0 <= k < |db.payments| :: !NamesPayment(s.metadata, db.payments[k])
    case IntentObject(intent) =>
      (kind.IntentSucceeded? || kind.IntentFailed?) &&
      (intent.id == "" || forall k | 0 <= k < |db.payments| :: db.payments[k].intentId != Some(intent.id))
    case ChargeObject(charge) =>
      (kind.ChargeSucceeded? || kind.ChargeRefunded?) &&
      (charge.intent.None? || charge.intent.value == "" || forall k | 0 <= k < |db.payments| :: db.payments[k].intentId != charge.intent)
    case CustomerObject(c) =>
      kind.CustomerChanged? && forall k | 0 <= k < |db.customers| :: db.customers[k].stripeCustomerId != c.id
    case SubscriptionObject(sub) =>
      (kind.SubscriptionDeleted? && forall k | 0 <= k < |db.subscriptions| :: db.subscriptions[k].stripeId != sub.id) ||
      (kind.SubscriptionChanged? &&
       (sub.id == "" || forall k | 0 <= k < |db.subscriptions| :: !IsAbout(db.subscriptions, sub, k)))
    case InvoiceObject(inv) =>
      (kind.InvoiceLifecycle? || kind.InvoicePaymentFailed?) &&
      (inv.id == "" ||
       ((forall k | 0 <= k < |db.invoices| :: db.invoices[k].stripeId != inv.id) &&
        !(Carries(inv.customer) && exists c | 0 <= c < |db.customers| :: db.customers[c].stripeCustomerId == inv.customer.id)))
    case NullObject => kind.CheckoutExpired?
  }

  lemma SessionIgnored(db: Db, s: Session)
    requires Valid(db)
    ensures OnCheckoutCompleted(db, s).outcome.Ignored? <==> NothingOnFile(db, CheckoutCompleted, SessionObject(s))
    ensures OnCheckoutExpired(db, s).outcome.Ignored? <==> NothingOnFile(db, CheckoutExpired, SessionObject(s))
  {
    var ps, id := db.payments, ExtractLocalIds(s.metadata).paymentId;
    assert id.Some? && PaymentById(ps, id.value) < |ps| ==> NamesPayment(s.metadata, ps[PaymentById(ps, id.value)]);
    forall i | 0 <= i < |ps| && NamesPayment(s.metadata, ps[i]) ensures id.Some? && PaymentById(ps, id.value) < |ps| {
      NamedPayment(s.metadata, ps, i);
    }
  }

  lemma InvoiceIgnored(db: Db, inv: StripeInvoice, now: Time)
    ensures OnInvoiceLifecycle(db, inv, now).outcome.Ignored? <==> NothingOnFile(db, InvoiceLifecycle, InvoiceObject(inv))
    ensures OnInvoicePaymentFailed(db, inv, now).outcome.Ignored? <==> NothingOnFile(db, InvoicePaymentFailed, InvoiceObject(inv))
  {
  }

  /** An event is ignored exactly when it is of a kind nobody handles, or no row on file is what it is about. */
  lemma IgnoredExactlyWhen(db: Db, kind: EventKind, o: EventObject, now: Time)
    requires Valid(db)
    ensures Handle(db, kind, o, now).outcome.Ignored? <==> kind.Unhandled? || NothingOnFile(db, kind, o)
    ensures Handle(db, kind, o, now).outcome.Ignored? ==> Handle(db, kind, o, now).db == db
  {
    match kind
    case CheckoutCompleted => if o.SessionObject? { SessionIgnored(db, o.session); }
    case CheckoutExpired => if o.SessionObject? { SessionIgnored(db, o.session); }
    case SubscriptionChanged => if o.SubscriptionObject? { UpdateIgnoredExactlyWhen(db, o.subscription, now); }
    case InvoiceLifecycle => if o.InvoiceObject? { InvoiceIgnored(db, o.invoice, now); }
    case InvoicePaymentFailed => if o.InvoiceObject? { InvoiceIgnored(db, o.invoice, now); }
    case _ =>
  }

  // ---- Event types ----

  const HANDLED: set<string> := {
    "checkout.session.completed", "checkout.session.expired", "payment_intent.succeeded", "payment_intent.payment_failed",
    "charge.succeeded", "charge.refunded", "customer.created", "customer.updated", "customer.subscription.created",
    "customer.subscription.updated", "customer.subscription.deleted", "invoice.created", "invoice.finalized", "invoice.paid",
    "invoice.voided", "invoice.marked_uncollectible", "invoice.payment_failed"
  }

  /** The result goes with one of the types: its handler's for the object it announces, a failure for any other. */
  predicate RoutedSession(t: string, o: EventObject, db: Db, result: Result) {
    (t == "checkout.session.completed" && result == if o.SessionObject? then OnCheckoutCompleted(db, o.session) else Result(db, Threw)) ||
    (t == "checkout.session.expired" &&
     result == if o.SessionObject? then OnCheckoutExpired(db, o.session) else Result(db, if o.NullObject? then Ignored else Threw))
  }

  predicate RoutedPayment(t: string, o: EventObject, db: Db, now: Time, result: Result) {
    (t == "payment_intent.succeeded" && result == if o.IntentObject? then OnIntentSucceeded(db, o.intent, now) else Result(db, Threw)) ||
    (t == "payment_intent.payment_failed" && result == if o.IntentObject? then OnIntentFailed(db, o.intent) else Result(db, Threw)) ||
    (t == "charge.succeeded" && result == if o.ChargeObject? then OnChargeSucceeded(db, o.charge) else Result(db, Threw)) ||
    (t == "charge.refunded" && result == if o.ChargeObject? then OnChargeRefunded(db, o.charge, now) else Result(db, Threw))
  }

  predicate RoutedCustomer(t: string, o: EventObject, db: Db, now: Time, result: Result) {
    (t in {"customer.created", "customer.updated"} && result == if o.CustomerObject? then OnCustomerChanged(db, o.customer) else Result(db, Threw)) ||
    (t in {"customer.subscription.created", "customer.subscription.updated"} &&
     result == if o.SubscriptionObject? then OnSubscriptionChanged(db, o.subscription, now) else Result(db, Threw)) ||
    (t == "customer.subscription.deleted" &&
     result == if o.SubscriptionObject? then OnSubscriptionDeleted(db, o.subscription, now) else Result(db, Threw)) ||
    (t in {"invoice.created", "invoice.finalized", "invoice.paid", "invoice.voided", "invoice.marked_uncollectible"} &&
     result == if o.InvoiceObject? then OnInvoiceLifecycle(db, o.invoice, now) else Result(db, Threw)) ||
    (t == "invoice.payment_failed" && result == if o.InvoiceObject? then OnInvoicePaymentFailed(db, o.invoice, now) else Result(db, Threw))
  }

  lemma KindsAreTypes(t: string)
    ensures match KindOf(t)
            case CheckoutCompleted => t == "checkout.session.completed"
            case CheckoutExpired => t == "checkout.session.expired"
            case IntentSucceeded => t == "payment_intent.succeeded"
            case IntentFailed => t == "payment_intent.payment_failed"
            case ChargeSucceeded => t == "charge.succeeded"
            case ChargeRefunded => t == "charge.refunded"
            case CustomerChanged => t in {"customer.created", "customer.updated"}
            case SubscriptionChanged => t in {"customer.subscription.created", "customer.subscription.updated"}
            case SubscriptionDeleted => t == "customer.subscription.deleted"
            case InvoiceLifecycle =>
              t in {"invoice.created", "invoice.finalized", "invoice.paid", "invoice.voided", "invoice.marked_uncollectible"}
            case InvoicePaymentFailed => t == "invoice.payment_failed"
            case Unhandled => t !in HANDLED
  {
  }

  /** Every event goes to its type's handler; one of a type nobody handles is ignored and changes nothing. */
  lemma EventsAreRouted(db: Db, e: Event, now: Time)
    ensures var o, result := if e.data.Some? then e.data.value else NullObject, Dispatch(db, e, now);
            RoutedSession(e.eventType, o, db, result) || RoutedPayment(e.eventType, o, db, now, result) ||
            RoutedCustomer(e.eventType, o, db, now, result) || (e.eventType !in HANDLED && result == Result(db, Ignored))
  {
    KindsAreTypes(e.eventType);
  }
}
