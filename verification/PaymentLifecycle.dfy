/** How a payment's status moves under any sequence of webhook events, and when access answers are up to date. */
module PaymentLifecycle {
  import opened Model
  import opened Snapshots
  import opened Entitlements
  import opened Handlers
  import opened HandlerInvariants
  import opened HandlerReplay

  /** Events in the order they are dispatched, each with the time it is handled at. */
  datatype Delivery = Delivery(event: Event, at: Time)

  function Run(db: Db, ds: seq<Delivery>): Db {
    if ds == [] then db
    else Dispatch(Run(db, ds[..|ds| - 1]), ds[|ds| - 1].event, ds[|ds| - 1].at).db
  }

  /** Serial runs of any events keep every unique index and every rule the code alone enforces. */
  lemma {:induction false} RunKeepsValid(db: Db, ds: seq<Delivery>)
    requires Valid(db)
    ensures Valid(Run(db, ds))
    ensures |Run(db, ds).payments| == |db.payments|
    ensures forall i | 0 <= i < |db.payments| :: Run(db, ds).payments[i].id == db.payments[i].id
  {
    if ds != [] {
      RunKeepsValid(db, ds[..|ds| - 1]);
      var mid, d := Run(db, ds[..|ds| - 1]), ds[|ds| - 1];
      DispatchKeepsValid(mid, d.event, d.at);
      PaymentsKeepPlace(mid, KindOf(d.event.eventType), OrElse(d.event.data, NullObject), d.at);
    }
  }

  /** No row added, removed or moved, and none given another amount or owner. */
  predicate InPlace(ps: seq<Payment>, qs: seq<Payment>) {
    |qs| == |ps| && forall i | 0 <= i < |ps| :: qs[i].id == ps[i].id && qs[i].amount == ps[i].amount && qs[i].userId == ps[i].userId
  }

  lemma CompletionKeepsPlace(db: Db, s: Session)
    ensures InPlace(db.payments, OnCheckoutCompleted(db, s).db.payments)
  {
    var ids, ps := ExtractLocalIds(s.metadata), OnCheckoutCompleted(db, s).db.payments;
    if ids.paymentId.Some? && PaymentById(db.payments, ids.paymentId.value) < |db.payments| {
      var i := PaymentById(db.payments, ids.paymentId.value);
      assert ps == db.payments || ps == db.payments[i := CompletedPayment(db.payments[i], s)];
    }
  }

  lemma ExpiryKeepsPlace(db: Db, s: Session)
    ensures InPlace(db.payments, OnCheckoutExpired(db, s).db.payments)
  {
  }

  lemma IntentKeepsPlace(db: Db, intent: Intent, now: Time)
    ensures InPlace(db.payments, OnIntentSucceeded(db, intent, now).db.payments)
    ensures InPlace(db.payments, OnIntentFailed(db, intent).db.payments)
  {
  }

  lemma ChargeKeepsPlace(db: Db, charge: ChargeInfo, now: Time)
    ensures InPlace(db.payments, OnChargeSucceeded(db, charge).db.payments)
    ensures InPlace(db.payments, OnChargeRefunded(db, charge, now).db.payments)
  {
  }

  lemma PaymentsKeepPlace(db: Db, kind: EventKind, o: EventObject, now: Time)
    ensures InPlace(db.payments, Handle(db, kind, o, now).db.payments)
  {
    match kind
    case CheckoutCompleted => if o.SessionObject? { CompletionKeepsPlace(db, o.session); }
    case CheckoutExpired => if o.SessionObject? { ExpiryKeepsPlace(db, o.session); }
    case IntentSucceeded => if o.IntentObject? { IntentKeepsPlace(db, o.intent, now); }
    case IntentFailed => if o.IntentObject? { IntentKeepsPlace(db, o.intent, now); }
    case ChargeSucceeded => if o.ChargeObject? { ChargeKeepsPlace(db, o.charge, now); }
    case ChargeRefunded => if o.ChargeObject? { ChargeKeepsPlace(db, o.charge, now); }
    case InvoicePaymentFailed => if o.InvoiceObject? { FailedInvoiceKeepsPlace(db, o.invoice, now); }
    case _ =>
  }

  lemma FailedInvoiceKeepsPlace(db: Db, inv: StripeInvoice, now: Time)
    ensures InPlace(db.payments, OnInvoicePaymentFailed(db, inv, now).db.payments)
  {
  }

  // ---- Success is final, except for refunds ----

  predicate RefundNotice(kind: EventKind, o: EventObject, intent: Option<string>) {
    kind.ChargeRefunded? && o.ChargeObject? && Truthy(o.charge.intent) && o.charge.intent == intent
  }

  lemma SessionLeavesSucceeded(db: Db, s: Session, i: nat)
    requires Valid(db) && i < |db.payments| && db.payments[i].status.Succeeded?
    ensures |OnCheckoutCompleted(db, s).db.payments| == |OnCheckoutExpired(db, s).db.payments| == |db.payments|
    ensures OnCheckoutCompleted(db, s).db.payments[i].status.Succeeded?
    ensures OnCheckoutExpired(db, s).db.payments[i].status.Succeeded?
  {
  }

  lemma IntentLeavesSucceeded(db: Db, intent: Intent, now: Time, i: nat)
    requires Valid(db) && i < |db.payments| && db.payments[i].status.Succeeded?
    ensures |OnIntentSucceeded(db, intent, now).db.payments| == |OnIntentFailed(db, intent).db.payments| == |db.payments|
    ensures OnIntentSucceeded(db, intent, now).db.payments[i].status.Succeeded?
    ensures OnIntentFailed(db, intent).db.payments[i].status.Succeeded?
  {
  }

  lemma InvoiceLeavesSucceeded(db: Db, inv: StripeInvoice, now: Time, i: nat)
    requires Valid(db) && i < |db.payments| && db.payments[i].status.Succeeded?
    ensures |OnInvoiceLifecycle(db, inv, now).db.payments| == |OnInvoicePaymentFailed(db, inv, now).db.payments| == |db.payments|
    ensures OnInvoiceLifecycle(db, inv, now).db.payments[i].status.Succeeded?
    ensures OnInvoicePaymentFailed(db, inv, now).db.payments[i].status.Succeeded?
  {
  }

  lemma ChargeLeavesSucceeded(db: Db, charge: ChargeInfo, now: Time, i: nat)
    requires Valid(db) && i < |db.payments| && db.payments[i].status.Succeeded?
    ensures |OnChargeSucceeded(db, charge).db.payments| == |OnChargeRefunded(db, charge, now).db.payments| == |db.payments|
    ensures OnChargeSucceeded(db, charge).db.payments[i].status.Succeeded?
    ensures OnChargeRefunded(db, charge, now).db.payments[i].status.Succeeded? ||
            (Truthy(charge.intent) && charge.intent == db.payments[i].intentId)
  {
  }

  lemma HandleLeavesSucceeded(db: Db, kind: EventKind, o: EventObject, now: Time, i: nat)
    requires Valid(db) && i < |db.payments| && db.payments[i].status.Succeeded?
    ensures i < |Handle(db, kind, o, now).db.payments|
    ensures Handle(db, kind, o, now).db.payments[i].status.Succeeded? || RefundNotice(kind, o, db.payments[i].intentId)
  {
    match kind
    case CheckoutCompleted => if o.SessionObject? { SessionLeavesSucceeded(db, o.session, i); }
    case CheckoutExpired => if o.SessionObject? { SessionLeavesSucceeded(db, o.session, i); }
    case IntentSucceeded => if o.IntentObject? { IntentLeavesSucceeded(db, o.intent, now, i); }
    case IntentFailed => if o.IntentObject? { IntentLeavesSucceeded(db, o.intent, now, i); }
    case ChargeSucceeded => if o.ChargeObject? { ChargeLeavesSucceeded(db, o.charge, now, i); }
    case ChargeRefunded => if o.ChargeObject? { ChargeLeavesSucceeded(db, o.charge, now, i); }
    case InvoiceLifecycle => if o.InvoiceObject? { InvoiceLeavesSucceeded(db, o.invoice, now, i); }
    case InvoicePaymentFailed => if o.InvoiceObject? { InvoiceLeavesSucceeded(db, o.invoice, now, i); }
    case _ =>
  }

  /** Only a refund notice for its own intent takes a payment out of `Succeeded`. */
  lemma OnlyRefundsLeaveSucceeded(db: Db, e: Event, now: Time, i: nat)
    requires Valid(db) && i < |db.payments| && db.payments[i].status.Succeeded?
    ensures i < |Dispatch(db, e, now).db.payments|
    ensures Dispatch(db, e, now).db.payments[i].status.Succeeded? ||
            RefundNotice(KindOf(e.eventType), OrElse(e.data, NullObject), db.payments[i].intentId)
  {
    HandleLeavesSucceeded(db, KindOf(e.eventType), OrElse(e.data, NullObject), now, i);
  }

  // ---- Refunds are not final ----

  /** The events that push a refunded payment back to `Failed` or `Canceled`: their handlers only spare `Succeeded`. */
  predicate Regresses(db: Db, kind: EventKind, o: EventObject, i: nat)
    requires i < |db.payments|
  {
    var p := db.payments[i];
    match o
    case SessionObject(s) =>
      kind.CheckoutExpired? && ExtractLocalIds(s.metadata).paymentId == Some(p.id) &&
      (Truthy(p.sessionId) || p.sessionId == Some(s.id) || forall k | 0 <= k < |db.payments| && k != i :: db.payments[k].sessionId != Some(s.id))
    case IntentObject(intent) => kind.IntentFailed? && intent.id != "" && p.intentId == Some(intent.id)
    case InvoiceObject(inv) =>
      kind.InvoicePaymentFailed? && inv.id != "" && Truthy(inv.intent) && p.intentId == inv.intent &&
      (InvoiceByStripeId(db.invoices, inv.id) < |db.invoices| || OwnerOf(db.customers, inv.customer).Some?)
    case _ => false
  }

  lemma FoundById(ps: seq<Payment>, i: nat)
    requires UniquePayments(ps) && i < |ps|
    ensures PaymentById(ps, ps[i].id) == i
    ensures ps[i].intentId.Some? ==> PaymentByIntent(ps, ps[i].intentId.value) == i
  {
  }

  lemma CompletedSparesRefunded(db: Db, s: Session, i: nat)
    requires Valid(db) && i < |db.payments|
    requires db.payments[i].status.Refunded? || db.payments[i].status.PartiallyRefunded?
    ensures |OnCheckoutCompleted(db, s).db.payments| == |db.payments|
    ensures OnCheckoutCompleted(db, s).db.payments[i].status == db.payments[i].status
  {
  }

  lemma ExpiryRegresses(db: Db, s: Session, i: nat)
    requires Valid(db) && i < |db.payments|
    requires db.payments[i].status.Refunded? || db.payments[i].status.PartiallyRefunded?
    ensures |OnCheckoutExpired(db, s).db.payments| == |db.payments|
    ensures OnCheckoutExpired(db, s).db.payments[i].status ==
            if Regresses(db, CheckoutExpired, SessionObject(s), i) then PaymentStatus.Canceled else db.payments[i].status
  {
    FoundById(db.payments, i);
    var p, paymentId := db.payments[i], ExtractLocalIds(s.metadata).paymentId;
    if paymentId == Some(p.id) {
      var q := p.(status := PaymentStatus.Canceled, sessionId := if Truthy(p.sessionId) then p.sessionId else Some(s.id));
      if q.sessionId != p.sessionId {
        ClashBySession(db.payments, i, q);
      }
    }
  }

  /** A payment that keeps its intent clashes only over the checkout session. */
  lemma ClashBySession(ps: seq<Payment>, i: nat, q: Payment)
    requires UniquePayments(ps) && i < |ps| && q.intentId == ps[i].intentId && q.sessionId.Some?
    ensures PaymentClash(ps, i, q) <==> exists k | 0 <= k < |ps| :: k != i && ps[k].sessionId == q.sessionId
  {
    assert forall k | 0 <= k < |ps| && k != i && q.intentId.Some? :: ps[k].intentId != q.intentId;
  }

  lemma IntentRegresses(db: Db, intent: Intent, now: Time, i: nat)
    requires Valid(db) && i < |db.payments|
    requires db.payments[i].status.Refunded? || db.payments[i].status.PartiallyRefunded?
    ensures |OnIntentSucceeded(db, intent, now).db.payments| == |OnIntentFailed(db, intent).db.payments| == |db.payments|
    ensures OnIntentSucceeded(db, intent, now).db.payments[i].status == db.payments[i].status
    ensures OnIntentFailed(db, intent).db.payments[i].status ==
            if Regresses(db, IntentFailed, IntentObject(intent), i) then PaymentStatus.Failed else db.payments[i].status
  {
    FoundById(db.payments, i);
  }

  lemma ChargeKeepsRefunded(db: Db, charge: ChargeInfo, now: Time, i: nat)
    requires Valid(db) && i < |db.payments|
    requires db.payments[i].status.Refunded? || db.payments[i].status.PartiallyRefunded?
    ensures |OnChargeSucceeded(db, charge).db.payments| == |OnChargeRefunded(db, charge, now).db.payments| == |db.payments|
    ensures OnChargeSucceeded(db, charge).db.payments[i].status == db.payments[i].status
    ensures var after := OnChargeRefunded(db, charge, now).db.payments[i].status; after.Refunded? || after.PartiallyRefunded?
  {
  }

  lemma InvoiceRegresses(db: Db, inv: StripeInvoice, now: Time, i: nat)
    requires Valid(db) && i < |db.payments|
    requires db.payments[i].status.Refunded? || db.payments[i].status.PartiallyRefunded?
    ensures |OnInvoiceLifecycle(db, inv, now).db.payments| == |OnInvoicePaymentFailed(db, inv, now).db.payments| == |db.payments|
    ensures OnInvoiceLifecycle(db, inv, now).db.payments[i].status == db.payments[i].status
    ensures OnInvoicePaymentFailed(db, inv, now).db.payments[i].status ==
            if Regresses(db, InvoicePaymentFailed, InvoiceObject(inv), i) then PaymentStatus.Failed else db.payments[i].status
  {
    FoundById(db.payments, i);
  }

  /** Exactly which events undo a refunded status. */
  lemma RefundedRegressesExactlyWhen(db: Db, kind: EventKind, o: EventObject, now: Time, i: nat)
    requires Valid(db) && i < |db.payments|
    requires db.payments[i].status.Refunded? || db.payments[i].status.PartiallyRefunded?
    ensures i < |Handle(db, kind, o, now).db.payments|
    ensures var after := Handle(db, kind, o, now).db.payments[i].status;
            if Regresses(db, kind, o, i) then after.Failed? || after.Canceled? else after.Refunded? || after.PartiallyRefunded?
  {
    PaymentsKeepPlace(db, kind, o, now);
    match kind
    case CheckoutCompleted => if o.SessionObject? { CompletedSparesRefunded(db, o.session, i); }
    case CheckoutExpired => if o.SessionObject? { ExpiryRegresses(db, o.session, i); }
    case IntentSucceeded => if o.IntentObject? { IntentRegresses(db, o.intent, now, i); }
    case IntentFailed => if o.IntentObject? { IntentRegresses(db, o.intent, now, i); }
    case ChargeSucceeded => if o.ChargeObject? { ChargeKeepsRefunded(db, o.charge, now, i); }
    case ChargeRefunded => if o.ChargeObject? { ChargeKeepsRefunded(db, o.charge, now, i); }
    case InvoiceLifecycle => if o.InvoiceObject? { InvoiceRegresses(db, o.invoice, now, i); }
    case InvoicePaymentFailed => if o.InvoiceObject? { InvoiceRegresses(db, o.invoice, now, i); }
    case _ =>
  }

  /** A payment of 100 on pi_1, all of it refunded. */
  function RefundedPayment(id: Uuid): Db {
    Db([Payment(id, 1, None, None, Some("pi_1"), 100, 100, Refunded, 0)], [], [], [], [], [], map[], map[])
  }

  /** A late failure notice turns it into a failed one. */
  lemma LateFailureUndoesRefund(id: Uuid, now: Time)
    ensures var db, o := RefundedPayment(id), IntentObject(Intent("pi_1", None, None, None, None));
            Valid(db) && Handle(db, IntentFailed, o, now).db == db.(payments := [db.payments[0].(status := PaymentStatus.Failed)])
  {
    var db := RefundedPayment(id);
    assert PaymentByIntent(db.payments, "pi_1") == 0;
  }

  // ---- What makes a payment read failed ----

  /** Stripe's words for a payment that did not go through. */
  predicate FailureWord(word: Option<string>) { word == Some("failed") || word == Some("unpaid") }

  /**
   * The events that turn payment `i` to failed, told from the state before: a failure notice for its intent, or a
   * failed invoice on file or of a known customer with its intent, unless it succeeded; a success notice with a
   * failure word, unless it is settled; a completion with one, if it is still open and the save is accepted.
   */
  predicate TurnsFailed(db: Db, kind: EventKind, o: EventObject, i: nat)
    requires i < |db.payments|
  {
    var p := db.payments[i];
    match o
    case IntentObject(intent) =>
      intent.id != "" && p.intentId == Some(intent.id) &&
      (if kind.IntentFailed? then !p.status.Succeeded?
       else kind.IntentSucceeded? && !Settled(p.status) && FailureWord(intent.status))
    case InvoiceObject(inv) =>
      kind.InvoicePaymentFailed? && inv.id != "" && Truthy(inv.intent) && p.intentId == inv.intent && !p.status.Succeeded? &&
      (InvoiceByStripeId(db.invoices, inv.id) < |db.invoices| || OwnerOf(db.customers, inv.customer).Some?)
    case SessionObject(s) =>
      kind.CheckoutCompleted? && ExtractLocalIds(s.metadata).paymentId == Some(p.id) &&
      (p.status.CheckoutCreated? || p.status.Pending?) && FailureWord(s.paymentStatus) &&
      !PaymentClash(db.payments, i, CompletedPayment(p, s))
    case _ => false
  }

  lemma IntentTurnsFailed(db: Db, intent: Intent, now: Time, i: nat)
    requires Valid(db) && i < |db.payments| && !db.payments[i].status.Failed?
    ensures |OnIntentSucceeded(db, intent, now).db.payments| == |OnIntentFailed(db, intent).db.payments| == |db.payments|
    ensures OnIntentFailed(db, intent).db.payments[i].status.Failed? <==> TurnsFailed(db, IntentFailed, IntentObject(intent), i)
    ensures OnIntentSucceeded(db, intent, now).db.payments[i].status.Failed? <==> TurnsFailed(db, IntentSucceeded, IntentObject(intent), i)
  {
    FoundById(db.payments, i);
  }

  lemma InvoiceTurnsFailed(db: Db, inv: StripeInvoice, now: Time, i: nat)
    requires Valid(db) && i < |db.payments| && !db.payments[i].status.Failed?
    ensures |OnInvoiceLifecycle(db, inv, now).db.payments| == |OnInvoicePaymentFailed(db, inv, now).db.payments| == |db.payments|
    ensures !OnInvoiceLifecycle(db, inv, now).db.payments[i].status.Failed?
    ensures OnInvoicePaymentFailed(db, inv, now).db.payments[i].status.Failed? <==>
            TurnsFailed(db, InvoicePaymentFailed, InvoiceObject(inv), i)
  {
    FoundById(db.payments, i);
  }

  lemma CompletionTurnsFailed(db: Db, s: Session, i: nat)
    requires Valid(db) && i < |db.payments| && !db.payments[i].status.Failed?
    ensures |OnCheckoutCompleted(db, s).db.payments| == |db.payments|
    ensures OnCheckoutCompleted(db, s).db.payments[i].status.Failed? <==> TurnsFailed(db, CheckoutCompleted, SessionObject(s), i)
  {
    if ExtractLocalIds(s.metadata).paymentId == Some(db.payments[i].id) {
      FoundById(db.payments, i);
    } else {
      OtherCompletionMovesNothing(db, s, i);
    }
  }

  lemma ExpiryFailsNothing(db: Db, s: Session, i: nat)
    requires i < |db.payments| && !db.payments[i].status.Failed?
    ensures |OnCheckoutExpired(db, s).db.payments| == |db.payments|
    ensures !OnCheckoutExpired(db, s).db.payments[i].status.Failed?
  {
  }

  lemma ChargeFailsNothing(db: Db, charge: ChargeInfo, now: Time, i: nat)
    requires i < |db.payments| && !db.payments[i].status.Failed?
    ensures |OnChargeSucceeded(db, charge).db.payments| == |OnChargeRefunded(db, charge, now).db.payments| == |db.payments|
    ensures !OnChargeSucceeded(db, charge).db.payments[i].status.Failed?
    ensures !OnChargeRefunded(db, charge, now).db.payments[i].status.Failed?
  {
  }

  /** An event makes a payment read failed exactly when it turns it to failed. */
  lemma FailsExactlyWhen(db: Db, kind: EventKind, o: EventObject, now: Time, i: nat)
    requires Valid(db) && i < |db.payments| && !db.payments[i].status.Failed?
    ensures i < |Handle(db, kind, o, now).db.payments|
    ensures Handle(db, kind, o, now).db.payments[i].status.Failed? <==> TurnsFailed(db, kind, o, i)
  {
    match kind
    case CheckoutCompleted => if o.SessionObject? { CompletionTurnsFailed(db, o.session, i); }
    case CheckoutExpired => if o.SessionObject? { ExpiryFailsNothing(db, o.session, i); }
    case IntentSucceeded => if o.IntentObject? { IntentTurnsFailed(db, o.intent, now, i); }
    case IntentFailed => if o.IntentObject? { IntentTurnsFailed(db, o.intent, now, i); }
    case ChargeSucceeded => if o.ChargeObject? { ChargeFailsNothing(db, o.charge, now, i); }
    case ChargeRefunded => if o.ChargeObject? { ChargeFailsNothing(db, o.charge, now, i); }
    case InvoiceLifecycle => if o.InvoiceObject? { InvoiceTurnsFailed(db, o.invoice, now, i); }
    case InvoicePaymentFailed => if o.InvoiceObject? { InvoiceTurnsFailed(db, o.invoice, now, i); }
    case _ =>
  }

  /** Delivery `k` of the run turns payment `i` to failed. */
  predicate FailedBy(db: Db, ds: seq<Delivery>, k: nat, i: nat)
    requires k < |ds| && i < |Run(db, ds[..k]).payments|
  {
    TurnsFailed(Run(db, ds[..k]), KindOf(ds[k].event.eventType), OrElse(ds[k].event.data, NullObject), i)
  }

  /** In every run, a payment that has come to read failed was turned so by one of the deliveries. */
  lemma {:induction false} FailedHasACause(db: Db, ds: seq<Delivery>, i: nat) returns (k: nat)
    requires Valid(db) && i < |db.payments| == |Run(db, ds).payments|
    requires !db.payments[i].status.Failed? && Run(db, ds).payments[i].status.Failed?
    ensures k < |ds| && i < |Run(db, ds[..k]).payments| && FailedBy(db, ds, k, i)
  {
    k := |ds| - 1;
    RunKeepsValid(db, ds[..k]);
    if Run(db, ds[..k]).payments[i].status.Failed? {
      var j := FailedHasACause(db, ds[..k], i);
      assert ds[..k][..j] == ds[..j];
      k := j;
    } else {
      FailsExactlyWhen(Run(db, ds[..k]), KindOf(ds[k].event.eventType), OrElse(ds[k].event.data, NullObject), ds[k].at, i);
    }
  }

  // ---- Any order of success and failure notices ends in the same status ----

  datatype Notice = Success | Failure | Neutral | Other

  /** What an event says about the payment with this id, bound to `intent`. */
  function NoticeFor(kind: EventKind, o: EventObject, paymentId: Uuid, intent: string): Notice {
    match kind
    case IntentSucceeded =>
      if !o.IntentObject? || o.intent.id != intent then Neutral
      else if ToPaymentStatus(OrElse(o.intent.status, "succeeded")).Succeeded? then Success else Other
    case IntentFailed => if o.IntentObject? && o.intent.id == intent then Failure else Neutral
    case ChargeSucceeded => if o.ChargeObject? && o.charge.intent == Some(intent) then Success else Neutral
    case InvoicePaymentFailed => if o.InvoiceObject? && o.invoice.intent == Some(intent) then Other else Neutral
    case ChargeRefunded => if o.ChargeObject? && o.charge.intent == Some(intent) then Other else Neutral
    case CheckoutCompleted => if IsCheckoutOf(o, paymentId) then Other else Neutral
    case CheckoutExpired => if IsCheckoutOf(o, paymentId) then Other else Neutral
    case _ => Neutral
  }

  predicate IsCheckoutOf(o: EventObject, paymentId: Uuid) {
    o.SessionObject? && ExtractLocalIds(o.session.metadata).paymentId == Some(paymentId)
  }

  function NoticeOf(d: Delivery, paymentId: Uuid, intent: string): Notice {
    NoticeFor(KindOf(d.event.eventType), OrElse(d.event.data, NullObject), paymentId, intent)
  }

  function Moved(status: PaymentStatus, n: Notice): PaymentStatus {
    match n
    case Success => PaymentStatus.Succeeded
    case Failure => if status.Succeeded? then status else PaymentStatus.Failed
    case _ => status
  }

  lemma IntentMoves(db: Db, intent: Intent, now: Time, i: nat, bound: string)
    requires Valid(db) && i < |db.payments| && bound != "" && db.payments[i].intentId == Some(bound)
    requires !db.payments[i].status.Refunded? && !db.payments[i].status.PartiallyRefunded?
    ensures |OnIntentSucceeded(db, intent, now).db.payments| == |OnIntentFailed(db, intent).db.payments| == |db.payments|
    ensures var n := NoticeFor(IntentSucceeded, IntentObject(intent), db.payments[i].id, bound);
            !n.Other? ==> OnIntentSucceeded(db, intent, now).db.payments[i]
                          == db.payments[i].(status := Moved(db.payments[i].status, n))
    ensures OnIntentFailed(db, intent).db.payments[i]
            == db.payments[i].(status := Moved(db.payments[i].status, NoticeFor(IntentFailed, IntentObject(intent), db.payments[i].id, bound)))
  {
    FoundById(db.payments, i);
  }

  lemma ChargeMoves(db: Db, charge: ChargeInfo, now: Time, i: nat, bound: string)
    requires Valid(db) && i < |db.payments| && bound != "" && db.payments[i].intentId == Some(bound)
    requires !db.payments[i].status.Refunded? && !db.payments[i].status.PartiallyRefunded?
    ensures |OnChargeSucceeded(db, charge).db.payments| == |OnChargeRefunded(db, charge, now).db.payments| == |db.payments|
    ensures OnChargeSucceeded(db, charge).db.payments[i]
            == db.payments[i].(status := Moved(db.payments[i].status, NoticeFor(ChargeSucceeded, ChargeObject(charge), db.payments[i].id, bound)))
    ensures charge.intent != Some(bound) ==> OnChargeRefunded(db, charge, now).db.payments[i] == db.payments[i]
  {
    FoundById(db.payments, i);
  }

  lemma InvoiceMoves(db: Db, inv: StripeInvoice, now: Time, i: nat, bound: string)
    requires Valid(db) && i < |db.payments| && db.payments[i].intentId == Some(bound)
    ensures |OnInvoiceLifecycle(db, inv, now).db.payments| == |OnInvoicePaymentFailed(db, inv, now).db.payments| == |db.payments|
    ensures OnInvoiceLifecycle(db, inv, now).db.payments[i] == db.payments[i]
    ensures inv.intent != Some(bound) ==> OnInvoicePaymentFailed(db, inv, now).db.payments[i] == db.payments[i]
  {
  }

  /** The completion or expiry of another payment's checkout. */
  lemma OtherCheckoutMovesNothing(db: Db, s: Session, i: nat)
    requires Valid(db) && i < |db.payments| && ExtractLocalIds(s.metadata).paymentId != Some(db.payments[i].id)
    ensures |OnCheckoutCompleted(db, s).db.payments| == |OnCheckoutExpired(db, s).db.payments| == |db.payments|
    ensures OnCheckoutCompleted(db, s).db.payments[i] == OnCheckoutExpired(db, s).db.payments[i] == db.payments[i]
  {
    OtherCompletionMovesNothing(db, s, i);
    OtherExpiryMovesNothing(db, s, i);
  }

  lemma OtherCompletionMovesNothing(db: Db, s: Session, i: nat)
    requires i < |db.payments| && ExtractLocalIds(s.metadata).paymentId != Some(db.payments[i].id)
    ensures |OnCheckoutCompleted(db, s).db.payments| == |db.payments| && OnCheckoutCompleted(db, s).db.payments[i] == db.payments[i]
  {
  }

  lemma OtherExpiryMovesNothing(db: Db, s: Session, i: nat)
    requires i < |db.payments| && ExtractLocalIds(s.metadata).paymentId != Some(db.payments[i].id)
    ensures |OnCheckoutExpired(db, s).db.payments| == |db.payments| && OnCheckoutExpired(db, s).db.payments[i] == db.payments[i]
  {
  }

  lemma NoticeMoves(db: Db, kind: EventKind, o: EventObject, now: Time, i: nat, bound: string)
    requires Valid(db) && i < |db.payments| && bound != "" && db.payments[i].intentId == Some(bound)
    requires !NoticeFor(kind, o, db.payments[i].id, bound).Other?
    requires !db.payments[i].status.Refunded? && !db.payments[i].status.PartiallyRefunded?
    ensures i < |Handle(db, kind, o, now).db.payments|
    ensures Handle(db, kind, o, now).db.payments[i]
            == db.payments[i].(status := Moved(db.payments[i].status, NoticeFor(kind, o, db.payments[i].id, bound)))
  {
    PaymentsKeepPlace(db, kind, o, now);
    match kind
    case CheckoutCompleted => if o.SessionObject? { OtherCheckoutMovesNothing(db, o.session, i); }
    case CheckoutExpired => if o.SessionObject? { OtherCheckoutMovesNothing(db, o.session, i); }
    case IntentSucceeded => if o.IntentObject? { IntentMoves(db, o.intent, now, i, bound); }
    case IntentFailed => if o.IntentObject? { IntentMoves(db, o.intent, now, i, bound); }
    case ChargeSucceeded => if o.ChargeObject? { ChargeMoves(db, o.charge, now, i, bound); }
    case ChargeRefunded => if o.ChargeObject? { ChargeMoves(db, o.charge, now, i, bound); }
    case InvoiceLifecycle => if o.InvoiceObject? { InvoiceMoves(db, o.invoice, now, i, bound); }
    case InvoicePaymentFailed => if o.InvoiceObject? { InvoiceMoves(db, o.invoice, now, i, bound); }
    case _ =>
  }

  predicate Mentions(ds: seq<Delivery>, paymentId: Uuid, intent: string, n: Notice) {
    exists d | d in ds :: NoticeOf(d, paymentId, intent) == n
  }

  function SettledStatus(start: PaymentStatus, succeeded: bool, failed: bool): PaymentStatus {
    if start.Succeeded? || succeeded then PaymentStatus.Succeeded
    else if failed then PaymentStatus.Failed
    else start
  }

  /**
   * However success and failure notices for one intent are ordered, repeated and mixed with events that are not
   * about the payment or its intent, the payment ends Succeeded if any success arrived, else Failed if any failure did, else unmoved.
   */
  lemma {:induction false} NoticesConverge(db: Db, ds: seq<Delivery>, i: nat, intent: string)
    requires Valid(db) && i < |db.payments| && intent != "" && db.payments[i].intentId == Some(intent)
    requires !db.payments[i].status.Refunded? && !db.payments[i].status.PartiallyRefunded?
    requires !Mentions(ds, db.payments[i].id, intent, Other)
    ensures i < |Run(db, ds).payments| && Run(db, ds).payments[i].intentId == Some(intent)
    ensures Run(db, ds).payments[i].status ==
            SettledStatus(db.payments[i].status, Mentions(ds, db.payments[i].id, intent, Success), Mentions(ds, db.payments[i].id, intent, Failure))
  {
    if ds != [] {
      var head, d := ds[..|ds| - 1], ds[|ds| - 1];
      assert ds == head + [d];
      var id := db.payments[i].id;
      assert forall n :: Mentions(ds, id, intent, n) <==> Mentions(head, id, intent, n) || NoticeOf(d, id, intent) == n;
      NoticesConverge(db, head, i, intent);
      RunKeepsValid(db, head);
      NoticeMoves(Run(db, head), KindOf(d.event.eventType), OrElse(d.event.data, NullObject), d.at, i, intent);
    }
  }

  /** Reordering, repeating or dropping repeats of the deliveries does not change the payment's final status. */
  lemma OrderDoesNotMatter(db: Db, a: seq<Delivery>, b: seq<Delivery>, i: nat, intent: string)
    requires Valid(db) && i < |db.payments| && intent != "" && db.payments[i].intentId == Some(intent)
    requires !db.payments[i].status.Refunded? && !db.payments[i].status.PartiallyRefunded?
    requires !Mentions(a, db.payments[i].id, intent, Other) && forall d :: d in a <==> d in b
    ensures i < |Run(db, a).payments| == |Run(db, b).payments|
    ensures Run(db, a).payments[i].status == Run(db, b).payments[i].status
  {
    NoticesConverge(db, a, i, intent);
    NoticesConverge(db, b, i, intent);
    RunKeepsValid(db, a);
    RunKeepsValid(db, b);
  }

  // ---- Access answers after the handlers that recompute ----

  /** The entitlement index of the user says what a recompute, at any time, would make it say. */
  ghost predicate UpToDate(db: Db, userId: int) {
    forall t: Time :: Recomputed(db, userId, t) == db
  }

  /** The user whose index the event's handler recomputes, if it gets that far. */
  function RecomputedUser(db: Db, kind: EventKind, o: EventObject, now: Time): Option<int> {
    if kind.IntentSucceeded? && o.IntentObject? then
      var i := PaymentByIntent(db.payments, o.intent.id);
      if o.intent.id == "" || i == |db.payments| then None else Some(db.payments[i].userId)
    else if kind.SubscriptionChanged? && o.SubscriptionObject? then
      var i := Locate(db.subscriptions, o.subscription);
      if o.subscription.id == "" || i == |db.subscriptions| then None else Some(db.subscriptions[i].userId)
    else if kind.SubscriptionDeleted? && o.SubscriptionObject? then
      var i := SubscriptionByStripeId(db.subscriptions, o.subscription.id);
      if i == |db.subscriptions| then None else Some(db.subscriptions[i].userId)
    else if kind.InvoicePaymentFailed? && o.InvoiceObject? then
      var saved := UpsertInvoice(db, o.invoice, now);
      if o.invoice.id == "" || saved.None? then None else Some(saved.value.userId)
    else None
  }

  lemma RecomputedIsUpToDate(db: Db, userId: int, now: Time)
    requires Valid(db)
    ensures UpToDate(Recomputed(db, userId, now), userId)
  {
    forall t: Time ensures Recomputed(Recomputed(db, userId, now), userId, t) == Recomputed(db, userId, now) {
      RecomputedTwice(db, userId, now, t);
    }
  }

  lemma IntentRecomputes(db: Db, intent: Intent, now: Time)
    requires Valid(db) && RecomputedUser(db, IntentSucceeded, IntentObject(intent), now).Some?
    ensures UpToDate(Handle(db, IntentSucceeded, IntentObject(intent), now).db,
                     RecomputedUser(db, IntentSucceeded, IntentObject(intent), now).value)
  {
    var i := PaymentByIntent(db.payments, intent.id);
    var p := db.payments[i];
    var paid := p.(status := if Settled(p.status) then p.status else ToPaymentStatus(OrElse(intent.status, "succeeded")));
    PaymentSaveKeepsUnique(db.payments, i, paid);
    RecomputedIsUpToDate(db.(payments := db.payments[i := paid],
                             transactions := RecordCharge(db.transactions, intent, paid, now)), p.userId, now);
  }

  lemma ChangeRecomputes(db: Db, sub: StripeSubscription, now: Time)
    requires Valid(db) && RecomputedUser(db, SubscriptionChanged, SubscriptionObject(sub), now).Some?
    ensures UpToDate(Handle(db, SubscriptionChanged, SubscriptionObject(sub), now).db,
                     RecomputedUser(db, SubscriptionChanged, SubscriptionObject(sub), now).value)
  {
    var i := Locate(db.subscriptions, sub);
    MirroringKeepsUnique(db.subscriptions, sub);
    RecomputedIsUpToDate(db.(subscriptions := db.subscriptions[i := Mirrored(db.subscriptions[i], sub)]),
                         db.subscriptions[i].userId, now);
  }

  lemma DeletionRecomputes(db: Db, sub: StripeSubscription, now: Time)
    requires Valid(db) && RecomputedUser(db, SubscriptionDeleted, SubscriptionObject(sub), now).Some?
    ensures UpToDate(Handle(db, SubscriptionDeleted, SubscriptionObject(sub), now).db,
                     RecomputedUser(db, SubscriptionDeleted, SubscriptionObject(sub), now).value)
  {
    var i := SubscriptionByStripeId(db.subscriptions, sub.id);
    var ended := CanceledSubscription(db.subscriptions[i], sub, now);
    SubscriptionSaveKeepsUnique(db.subscriptions, i, ended);
    RecomputedIsUpToDate(db.(subscriptions := db.subscriptions[i := ended]), db.subscriptions[i].userId, now);
  }

  lemma InvoiceRecomputes(db: Db, inv: StripeInvoice, now: Time)
    requires Valid(db) && RecomputedUser(db, InvoicePaymentFailed, InvoiceObject(inv), now).Some?
    ensures UpToDate(Handle(db, InvoicePaymentFailed, InvoiceObject(inv), now).db,
                     RecomputedUser(db, InvoicePaymentFailed, InvoiceObject(inv), now).value)
  {
    var saved := UpsertInvoice(db, inv, now).value;
    var failed := saved.db.(payments := FailPaymentOf(db.payments, inv.intent));
    assert Valid(failed) by { FailedPaymentStaysValid(db, inv, now); }
    RecomputedIsUpToDate(failed, saved.userId, now);
  }

  lemma FailedPaymentStaysValid(db: Db, inv: StripeInvoice, now: Time)
    requires Valid(db) && UpsertInvoice(db, inv, now).Some?
    ensures Valid(UpsertInvoice(db, inv, now).value.db.(payments := FailPaymentOf(db.payments, inv.intent)))
  {
    FailPaymentTwice(db.payments, inv.intent);
  }

  lemma HandlerRecomputes(db: Db, kind: EventKind, o: EventObject, now: Time)
    requires Valid(db) && RecomputedUser(db, kind, o, now).Some?
    ensures UpToDate(Handle(db, kind, o, now).db, RecomputedUser(db, kind, o, now).value)
  {
    if kind.IntentSucceeded? {
      IntentRecomputes(db, o.intent, now);
    } else if kind.InvoicePaymentFailed? {
      InvoiceRecomputes(db, o.invoice, now);
    } else if kind.SubscriptionChanged? {
      ChangeRecomputes(db, o.subscription, now);
    } else {
      DeletionRecomputes(db, o.subscription, now);
    }
  }

  /**
   * After a handled subscription event, payment success or failed invoice payment, every access question about
   * that user, at any time, gets the answer the billing rows give.
   */
  lemma AccessAfterDispatch(db: Db, e: Event, now: Time, userId: int, featureKey: string, at: Time)
    requires Valid(db) && userId > 0 && featureKey != ""
    requires RecomputedUser(db, KindOf(e.eventType), OrElse(e.data, NullObject), now) == Some(userId)
    ensures var after := Dispatch(db, e, now).db;
            CanAccess(after.entitlements, userId, featureKey, at) <==> Entitled(after, userId, featureKey, at)
  {
    var after := Dispatch(db, e, now).db;
    HandlerRecomputes(db, KindOf(e.eventType), OrElse(e.data, NullObject), now);
    DispatchKeepsValid(db, e, now);
    assert Recomputed(after, userId, now) == after;
    AccessAfterRecompute(after, userId, now, featureKey, at);
  }
}
