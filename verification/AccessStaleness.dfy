/** Which events leave a user's entitlement index behind what the billing rows say. */
module AccessStaleness {
  import opened Model
  import opened Snapshots
  import opened Entitlements
  import opened Handlers
  import opened HandlerInvariants
  import opened PaymentLifecycle

  // ---- An index in order, row by row ----

  /** No row of the user's wants changing, and every expectation has its row. */
  predicate InOrder(rows: seq<Entitlement>, es: seq<Expected>, userId: int) {
    (forall k | 0 <= k < |rows| :: !Stale(rows[k], es, userId) && Touch(rows[k], es, userId) == rows[k]) &&
    (forall e | e in es :: HasRow(rows, userId, e))
  }

  lemma UpToDateRowByRow(db: Db, userId: int)
    ensures UpToDate(db, userId) <==> InOrder(db.entitlements, BuildExpected(db, userId), userId)
  {
    var es, rows := BuildExpected(db, userId), db.entitlements;
    if InOrder(rows, es, userId) {
      NothingMissing(es, rows, userId);
      forall t: Time ensures Recomputed(db, userId, t) == db {
        assert RecomputedRows(rows, es, userId, t) == rows;
      }
    }
    if UpToDate(db, userId) {
      var t: Time := 0;
      assert Recomputed(db, userId, t) == db;
      assert |RecomputedRows(rows, es, userId, t)| == |rows|;
      assert Inserted(es, rows, userId) == [];
      forall k | 0 <= k < |rows| ensures !Stale(rows[k], es, userId) && Touch(rows[k], es, userId) == rows[k] {
        assert Reconcile(rows[k], es, userId, t) == rows[k];
      }
      forall e | e in es ensures HasRow(rows, userId, e) { InsertedCovers(es, rows, userId, e); }
    }
  }

  // ---- Tables that expect the same ----

  /** The two rows expect the same of this user. */
  predicate SameGrantOfPayment(prices: map<Uuid, Price>, p: Payment, q: Payment, userId: int) {
    p.id == q.id && p.priceId == q.priceId && p.createdAt == q.createdAt &&
    (OneTimePurchase(prices, p, userId) <==> OneTimePurchase(prices, q, userId))
  }

  predicate SameGrantOfSubscription(s: Subscription, t: Subscription, userId: int) {
    s.id == t.id && s.userId == t.userId &&
    (s.userId == userId ==>
      (Granting(s.status) <==> Granting(t.status)) &&
      (Granting(s.status) ==> s.planId == t.planId && s.periodStart == t.periodStart && s.periodEnd == t.periodEnd))
  }

  lemma {:induction false} SamePaymentsExpectSame(a: seq<Payment>, b: seq<Payment>, prices: map<Uuid, Price>, plans: map<Uuid, Plan>, userId: int)
    requires |a| == |b|
    requires forall k | 0 <= k < |a| ::
      SameGrantOfPayment(prices, a[k], b[k], userId) ||
      FeaturesOf(plans, PlanOfPayment(prices, a[k])) == FeaturesOf(plans, PlanOfPayment(prices, b[k])) == []
    ensures FromPayments(a, prices, plans, userId) == FromPayments(b, prices, plans, userId)
  {
    if a != [] {
      SamePaymentsExpectSame(a[..|a| - 1], b[..|a| - 1], prices, plans, userId);
      var x := a[|a| - 1];
      assert FeaturesOf(plans, PlanOfPayment(prices, x)) == [] ==>
        Project(FeaturesOf(plans, PlanOfPayment(prices, x)), ByOneTimePayment, x.id, Some(x.createdAt), None) == [];
    }
  }

  lemma {:induction false} SameSubscriptionsExpectSame(a: seq<Subscription>, b: seq<Subscription>, plans: map<Uuid, Plan>, userId: int)
    requires |a| == |b| && forall k | 0 <= k < |a| :: SameGrantOfSubscription(a[k], b[k], userId)
    ensures FromSubscriptions(a, plans, userId) == FromSubscriptions(b, plans, userId)
  {
    if a != [] {
      SameSubscriptionsExpectSame(a[..|a| - 1], b[..|a| - 1], plans, userId);
      assert SameGrantOfSubscription(a[|a| - 1], b[|a| - 1], userId);
    }
  }

  // ---- One payment changes its status ----

  /** Paying for it, or no longer having paid, makes a difference: a one-time price of a plan with features. */
  predicate Sells(db: Db, p: Payment) {
    p.priceId.Some? && p.priceId.value in db.prices && db.prices[p.priceId.value].priceType.OneTime? &&
    FeaturesOf(db.plans, PlanOfPayment(db.prices, p)) != []
  }

  /** An index in order has an active row for the purchase exactly when the payment is one. */
  predicate HasPurchaseRow(rows: seq<Entitlement>, userId: int, paymentId: Uuid) {
    exists r | r in rows :: r.userId == userId && r.active && r.sourceType.ByOneTimePayment? && r.sourceId == Some(paymentId)
  }

  lemma PurchaseHasRow(db: Db, userId: int, i: nat)
    requires Valid(db) && i < |db.payments| && Sells(db, db.payments[i]) && db.payments[i].userId == userId
    requires InOrder(db.entitlements, BuildExpected(db, userId), userId)
    ensures HasPurchaseRow(db.entitlements, userId, db.payments[i].id) <==> db.payments[i].status.Succeeded?
  {
    if db.payments[i].status.Succeeded? { PaidHasRow(db, userId, i); }
    if HasPurchaseRow(db.entitlements, userId, db.payments[i].id) { RowIsPaid(db, userId, i); }
  }

  lemma PaidHasRow(db: Db, userId: int, i: nat)
    requires i < |db.payments| && Sells(db, db.payments[i]) && db.payments[i].userId == userId && db.payments[i].status.Succeeded?
    requires InOrder(db.entitlements, BuildExpected(db, userId), userId)
    ensures HasPurchaseRow(db.entitlements, userId, db.payments[i].id)
  {
    var p, es, rows := db.payments[i], BuildExpected(db, userId), db.entitlements;
    var f := FeaturesOf(db.plans, PlanOfPayment(db.prices, p))[0];
    var e := Expected(f, ByOneTimePayment, p.id, Some(p.createdAt), None);
    assert PaymentExpects(p, db.prices, db.plans, userId, e);
    PaymentsExpect(db.payments, db.prices, db.plans, userId, e);
    assert e in es;
    assert HasRow(rows, userId, e);
    var k :| 0 <= k < |rows| && rows[k].userId == userId && Matches(rows[k], e);
    var j :| 0 <= j < |es| && es[j] == e;
    assert ExpectedFor(es, rows[k]) <= j;
    assert Touch(rows[k], es, userId) == rows[k];
    assert rows[k] in rows;
  }

  lemma RowIsPaid(db: Db, userId: int, i: nat)
    requires Valid(db) && i < |db.payments| && HasPurchaseRow(db.entitlements, userId, db.payments[i].id)
    requires InOrder(db.entitlements, BuildExpected(db, userId), userId)
    ensures db.payments[i].status.Succeeded?
  {
    var es, rows := BuildExpected(db, userId), db.entitlements;
    var k :| 0 <= k < |rows| && rows[k].userId == userId && rows[k].active && rows[k].sourceType.ByOneTimePayment? &&
             rows[k].sourceId == Some(db.payments[i].id);
    assert !Stale(rows[k], es, userId);
    var e := es[ExpectedFor(es, rows[k])];
    assert e in es;
    SubscriptionsExpect(db.subscriptions, db.plans, userId, e);
    PaymentsExpect(db.payments, db.prices, db.plans, userId, e);
    var j :| 0 <= j < |db.payments| && PaymentExpects(db.payments[j], db.prices, db.plans, userId, e);
    assert j == i;
  }

  /** The change of status is one the user's index has to follow. */
  predicate Matters(db: Db, i: nat, after: PaymentStatus, userId: int)
    requires i < |db.payments|
  {
    var p := db.payments[i];
    p.userId == userId && Sells(db, p) && (p.status.Succeeded? <==> !after.Succeeded?)
  }

  /** The payments after a save that leaves what was bought alone; the other tables that count are as they were. */
  predicate OnlyPaymentSaved(db: Db, after: Db, i: nat, q: Payment)
    requires i < |db.payments|
  {
    var p := db.payments[i];
    after.payments == db.payments[i := q] && q.id == p.id && q.userId == p.userId && q.priceId == p.priceId && q.createdAt == p.createdAt &&
    after.entitlements == db.entitlements && after.plans == db.plans && after.prices == db.prices &&
    |after.subscriptions| == |db.subscriptions|
  }

  lemma UnmovedExpectations(db: Db, after: Db, i: nat, q: Payment, userId: int)
    requires i < |db.payments| && OnlyPaymentSaved(db, after, i, q) && !Matters(db, i, q.status, userId)
    requires forall k | 0 <= k < |db.subscriptions| :: SameGrantOfSubscription(db.subscriptions[k], after.subscriptions[k], userId)
    ensures BuildExpected(after, userId) == BuildExpected(db, userId)
  {
    var ps, qs := db.payments, after.payments;
    forall k | 0 <= k < |ps|
      ensures SameGrantOfPayment(db.prices, ps[k], qs[k], userId) ||
              FeaturesOf(db.plans, PlanOfPayment(db.prices, ps[k])) == FeaturesOf(db.plans, PlanOfPayment(db.prices, qs[k])) == []
    {
      assert k != i ==> qs[k] == ps[k];
    }
    SamePaymentsExpectSame(ps, qs, db.prices, db.plans, userId);
    SameSubscriptionsExpectSame(db.subscriptions, after.subscriptions, db.plans, userId);
  }

  /** A saved payment leaves an index in order exactly when its change of status does not matter to it. */
  lemma PaymentSaveLeavesOrder(db: Db, after: Db, i: nat, q: Payment, userId: int)
    requires Valid(db) && Valid(after) && i < |db.payments| && OnlyPaymentSaved(db, after, i, q)
    requires forall k | 0 <= k < |db.subscriptions| :: SameGrantOfSubscription(db.subscriptions[k], after.subscriptions[k], userId)
    requires InOrder(db.entitlements, BuildExpected(db, userId), userId)
    ensures InOrder(after.entitlements, BuildExpected(after, userId), userId) <==> !Matters(db, i, q.status, userId)
  {
    if !Matters(db, i, q.status, userId) {
      UnmovedExpectations(db, after, i, q, userId);
    } else {
      PurchaseHasRow(db, userId, i);
      assert after.payments[i] == q;
      if InOrder(after.entitlements, BuildExpected(after, userId), userId) { PurchaseHasRow(after, userId, i); }
    }
  }

  // ---- A recompute for somebody else ----

  lemma OthersRowsStayInOrder(db: Db, other: int, userId: int, now: Time, k: nat)
    requires other != userId && InOrder(db.entitlements, BuildExpected(db, userId), userId)
    requires k < |Recomputed(db, other, now).entitlements|
    ensures var row, es := Recomputed(db, other, now).entitlements[k], BuildExpected(db, userId);
            !Stale(row, es, userId) && Touch(row, es, userId) == row
  {
    var others, rows := BuildExpected(db, other), db.entitlements;
    var row := Recomputed(db, other, now).entitlements[k];
    if k < |rows| {
      assert row == Reconcile(rows[k], others, other, now);
      assert rows[k].userId != other ==> row == rows[k];
    } else {
      assert row == Inserted(others, rows, other)[k - |rows|];
      InsertedOrigin(others, rows, other, row);
    }
  }

  lemma OthersRecomputeKeepsRows(db: Db, other: int, userId: int, now: Time, e: Expected)
    requires other != userId && HasRow(db.entitlements, userId, e)
    ensures HasRow(Recomputed(db, other, now).entitlements, userId, e)
  {
    var rows := db.entitlements;
    var k :| 0 <= k < |rows| && rows[k].userId == userId && Matches(rows[k], e);
    assert Recomputed(db, other, now).entitlements[k] == Reconcile(rows[k], BuildExpected(db, other), other, now) == rows[k];
  }

  lemma OthersRecomputeKeepsOrder(db: Db, other: int, userId: int, now: Time)
    requires other != userId && InOrder(db.entitlements, BuildExpected(db, userId), userId)
    ensures var after := Recomputed(db, other, now);
            InOrder(after.entitlements, BuildExpected(after, userId), userId)
  {
    var es, after := BuildExpected(db, userId), Recomputed(db, other, now);
    assert BuildExpected(after, userId) == es;
    forall k | 0 <= k < |after.entitlements|
      ensures !Stale(after.entitlements[k], es, userId) && Touch(after.entitlements[k], es, userId) == after.entitlements[k]
    {
      OthersRowsStayInOrder(db, other, userId, now, k);
    }
    forall e | e in es ensures HasRow(after.entitlements, userId, e) {
      OthersRecomputeKeepsRows(db, other, userId, now, e);
    }
  }

  /** After a recompute for anybody, a user whose index was in order, or whom it was for, has an index in order. */
  lemma AnyRecomputeKeepsOrder(db: Db, other: int, userId: int, now: Time)
    requires Valid(db) && (other != userId ==> InOrder(db.entitlements, BuildExpected(db, userId), userId))
    ensures UpToDate(Recomputed(db, other, now), userId)
  {
    if other == userId {
      RecomputedIsUpToDate(db, userId, now);
    } else {
      OthersRecomputeKeepsOrder(db, other, userId, now);
      UpToDateRowByRow(Recomputed(db, other, now), userId);
    }
  }

  // ---- The handlers ----

  /** A word that counts as payment; a session or intent that says nothing is taken as paid. */
  predicate PaidWord(word: Option<string>) { word.None? || word == Some("succeeded") || word == Some("paid") }

  /**
   * The events that leave the user's index behind, told from the state before: a charge's success for a payment that
   * is not settled, a refund notice for one that succeeded, and a completion that pays an open one and is accepted;
   * each for a one-time purchase, of the user's, of a plan with features.
   */
  predicate LeavesBehind(db: Db, kind: EventKind, o: EventObject, userId: int) {
    match o
    case ChargeObject(charge) =>
      var i := PaymentByIntent(db.payments, OrElse(charge.intent, ""));
      Truthy(charge.intent) && i < |db.payments| && db.payments[i].userId == userId && Sells(db, db.payments[i]) &&
      (if kind.ChargeSucceeded? then !Settled(db.payments[i].status)
       else kind.ChargeRefunded? && db.payments[i].status.Succeeded?)
    case SessionObject(s) =>
      var i := PaymentById(db.payments, OrElse(ExtractLocalIds(s.metadata).paymentId, ""));
      kind.CheckoutCompleted? && ExtractLocalIds(s.metadata).paymentId.Some? && i < |db.payments| &&
      db.payments[i].userId == userId && Sells(db, db.payments[i]) &&
      (db.payments[i].status.CheckoutCreated? || db.payments[i].status.Pending?) && PaidWord(s.paymentStatus) &&
      !PaymentClash(db.payments, i, CompletedPayment(db.payments[i], s))
    case _ => false
  }

  /** What these lemmas say of each handler's tables. */
  predicate Follows(db: Db, after: Db, userId: int, behind: bool) {
    InOrder(after.entitlements, BuildExpected(after, userId), userId) <==> !behind
  }

  lemma SameSubscriptions(ss: seq<Subscription>, userId: int)
    ensures forall k | 0 <= k < |ss| :: SameGrantOfSubscription(ss[k], ss[k], userId)
  {
  }

  lemma ChargeLeavesBehind(db: Db, charge: ChargeInfo, userId: int)
    requires Valid(db) && InOrder(db.entitlements, BuildExpected(db, userId), userId)
    ensures Follows(db, OnChargeSucceeded(db, charge).db, userId, LeavesBehind(db, ChargeSucceeded, ChargeObject(charge), userId))
  {
    var i, after := PaymentByIntent(db.payments, OrElse(charge.intent, "")), OnChargeSucceeded(db, charge).db;
    if Truthy(charge.intent) && i < |db.payments| && after != db {
      SameSubscriptions(db.subscriptions, userId);
      ChargeSucceededKeepsValid(db, charge);
      assert OnlyPaymentSaved(db, after, i, after.payments[i]);
      PaymentSaveLeavesOrder(db, after, i, after.payments[i], userId);
    }
  }

  lemma RefundLeavesBehind(db: Db, charge: ChargeInfo, now: Time, userId: int)
    requires Valid(db) && InOrder(db.entitlements, BuildExpected(db, userId), userId)
    ensures Follows(db, OnChargeRefunded(db, charge, now).db, userId, LeavesBehind(db, ChargeRefunded, ChargeObject(charge), userId))
  {
    var i, after := PaymentByIntent(db.payments, OrElse(charge.intent, "")), OnChargeRefunded(db, charge, now).db;
    if Truthy(charge.intent) && i < |db.payments| {
      SameSubscriptions(db.subscriptions, userId);
      ChargeRefundedKeepsValid(db, charge, now);
      RefundSavesOnePayment(db, charge, now, i);
      PaymentSaveLeavesOrder(db, after, i, after.payments[i], userId);
    }
  }

  lemma RefundSavesOnePayment(db: Db, charge: ChargeInfo, now: Time, i: nat)
    requires Truthy(charge.intent) && i == PaymentByIntent(db.payments, charge.intent.value) < |db.payments|
    ensures var after := OnChargeRefunded(db, charge, now).db;
            |after.payments| == |db.payments| && OnlyPaymentSaved(db, after, i, after.payments[i]) &&
            after.subscriptions == db.subscriptions && !after.payments[i].status.Succeeded?
  {
  }

  lemma CompletionLeavesBehind(db: Db, s: Session, userId: int)
    requires Valid(db) && InOrder(db.entitlements, BuildExpected(db, userId), userId)
    ensures Follows(db, OnCheckoutCompleted(db, s).db, userId, LeavesBehind(db, CheckoutCompleted, SessionObject(s), userId))
  {
    var ids, after := ExtractLocalIds(s.metadata), OnCheckoutCompleted(db, s).db;
    var i := PaymentById(db.payments, OrElse(ids.paymentId, ""));
    if ids.paymentId.Some? && i < |db.payments| {
      var p := CompletedPayment(db.payments[i], s);
      CompletionMatters(db, s, i, userId);
      if p == db.payments[i] || !PaymentClash(db.payments, i, p) {
        assert OnlyPaymentSaved(db, after, i, p) by { CompletionSaves(db, s, i); }
        assert Valid(after) by { CheckoutCompletedKeepsValid(db, s); }
        CompletionGrantsSame(db, s, userId);
        PaymentSaveLeavesOrder(db, after, i, p, userId);
      } else {
        assert after == db;
      }
    }
  }

  lemma CompletionSaves(db: Db, s: Session, i: nat)
    requires ExtractLocalIds(s.metadata).paymentId.Some? && i == PaymentById(db.payments, ExtractLocalIds(s.metadata).paymentId.value)
    requires i < |db.payments|
    requires var p := CompletedPayment(db.payments[i], s); p == db.payments[i] || !PaymentClash(db.payments, i, p)
    ensures OnlyPaymentSaved(db, OnCheckoutCompleted(db, s).db, i, CompletedPayment(db.payments[i], s))
  {
  }

  /** An accepted completion matters exactly when it leaves the index behind. */
  lemma CompletionMatters(db: Db, s: Session, i: nat, userId: int)
    requires ExtractLocalIds(s.metadata).paymentId.Some? && i == PaymentById(db.payments, ExtractLocalIds(s.metadata).paymentId.value)
    requires i < |db.payments|
    ensures var p := CompletedPayment(db.payments[i], s);
            LeavesBehind(db, CheckoutCompleted, SessionObject(s), userId) <==>
            (p == db.payments[i] || !PaymentClash(db.payments, i, p)) && Matters(db, i, p.status, userId)
  {
  }

  lemma CompletionGrantsSame(db: Db, s: Session, userId: int)
    ensures var after := OnCheckoutCompleted(db, s).db;
            |after.subscriptions| == |db.subscriptions| &&
            forall k | 0 <= k < |db.subscriptions| :: SameGrantOfSubscription(db.subscriptions[k], after.subscriptions[k], userId)
  {
  }

  lemma ExpiryFollows(db: Db, s: Session, userId: int)
    requires Valid(db) && InOrder(db.entitlements, BuildExpected(db, userId), userId)
    ensures Follows(db, OnCheckoutExpired(db, s).db, userId, false)
  {
    var ids, after := ExtractLocalIds(s.metadata), OnCheckoutExpired(db, s).db;
    var i := PaymentById(db.payments, OrElse(ids.paymentId, ""));
    if ids.paymentId.Some? && i < |db.payments| && after != db {
      CheckoutExpiredKeepsValid(db, s);
      ExpiryGrantsSame(db, s, userId);
      PaymentSaveLeavesOrder(db, after, i, after.payments[i], userId);
    }
  }

  lemma ExpiryGrantsSame(db: Db, s: Session, userId: int)
    ensures var after := OnCheckoutExpired(db, s).db;
            |after.subscriptions| == |db.subscriptions| &&
            forall k | 0 <= k < |db.subscriptions| :: SameGrantOfSubscription(db.subscriptions[k], after.subscriptions[k], userId)
  {
  }

  lemma FailureFollows(db: Db, intent: Intent, userId: int)
    requires Valid(db) && InOrder(db.entitlements, BuildExpected(db, userId), userId)
    ensures Follows(db, OnIntentFailed(db, intent).db, userId, false)
  {
    var i, after := PaymentByIntent(db.payments, intent.id), OnIntentFailed(db, intent).db;
    if after != db {
      SameSubscriptions(db.subscriptions, userId);
      PaymentSaveKeepsUnique(db.payments, i, after.payments[i]);
      PaymentSaveLeavesOrder(db, after, i, after.payments[i], userId);
    }
  }

  lemma SuccessFollows(db: Db, intent: Intent, now: Time, userId: int)
    requires Valid(db) && InOrder(db.entitlements, BuildExpected(db, userId), userId)
    ensures UpToDate(OnIntentSucceeded(db, intent, now).db, userId)
  {
    var i := PaymentByIntent(db.payments, intent.id);
    if intent.id == "" || i == |db.payments| {
      UpToDateRowByRow(db, userId);
    } else {
      var p := db.payments[i];
      var paid := p.(status := if Settled(p.status) then p.status else ToPaymentStatus(OrElse(intent.status, "succeeded")));
      var charged := db.(payments := db.payments[i := paid], transactions := RecordCharge(db.transactions, intent, paid, now));
      PaymentSaveKeepsUnique(db.payments, i, paid);
      SameSubscriptions(db.subscriptions, userId);
      PaymentSaveLeavesOrder(db, charged, i, paid, userId);
      AnyRecomputeKeepsOrder(charged, p.userId, userId, now);
    }
  }

  /** A subscription's row is saved and its user's index recomputed. */
  lemma SubscriptionSaveFollows(db: Db, i: nat, s: Subscription, now: Time, userId: int)
    requires Valid(db) && i < |db.subscriptions| && s.id == db.subscriptions[i].id && s.userId == db.subscriptions[i].userId
    requires UniqueSubscriptions(db.subscriptions[i := s]) && InOrder(db.entitlements, BuildExpected(db, userId), userId)
    ensures UpToDate(Recomputed(db.(subscriptions := db.subscriptions[i := s]), s.userId, now), userId)
  {
    var saved := db.(subscriptions := db.subscriptions[i := s]);
    if s.userId != userId { SameSubscriptionsExpectSame(db.subscriptions, saved.subscriptions, db.plans, userId); }
    AnyRecomputeKeepsOrder(saved, s.userId, userId, now);
  }

  lemma SubscriptionFollows(db: Db, sub: StripeSubscription, now: Time, userId: int)
    requires Valid(db) && InOrder(db.entitlements, BuildExpected(db, userId), userId)
    ensures UpToDate(OnSubscriptionChanged(db, sub, now).db, userId)
    ensures UpToDate(OnSubscriptionDeleted(db, sub, now).db, userId)
  {
    UpToDateRowByRow(db, userId);
    var i, k := Locate(db.subscriptions, sub), SubscriptionByStripeId(db.subscriptions, sub.id);
    if i < |db.subscriptions| {
      MirroringKeepsUnique(db.subscriptions, sub);
      SubscriptionSaveFollows(db, i, Mirrored(db.subscriptions[i], sub), now, userId);
    }
    if k < |db.subscriptions| {
      var ended := CanceledSubscription(db.subscriptions[k], sub, now);
      SubscriptionSaveKeepsUnique(db.subscriptions, k, ended);
      SubscriptionSaveFollows(db, k, ended, now, userId);
    }
  }

  lemma InvoiceFollows(db: Db, inv: StripeInvoice, now: Time, userId: int)
    requires Valid(db) && InOrder(db.entitlements, BuildExpected(db, userId), userId)
    ensures UpToDate(OnInvoicePaymentFailed(db, inv, now).db, userId)
  {
    var saved := UpsertInvoice(db, inv, now);
    if inv.id == "" || saved.None? {
      UpToDateRowByRow(db, userId);
    } else {
      var failed := saved.value.db.(payments := FailPaymentOf(db.payments, inv.intent));
      FailedPaymentStaysValid(db, inv, now);
      FailedInvoiceExpectsSame(db, failed, inv, userId);
      AnyRecomputeKeepsOrder(failed, saved.value.userId, userId, now);
    }
  }

  lemma FailedInvoiceExpectsSame(db: Db, failed: Db, inv: StripeInvoice, userId: int)
    requires failed == db.(invoices := failed.invoices, payments := FailPaymentOf(db.payments, inv.intent))
    ensures BuildExpected(failed, userId) == BuildExpected(db, userId)
  {
    SamePaymentsExpectSame(db.payments, failed.payments, db.prices, db.plans, userId);
  }

  // ---- Every event ----

  lemma SessionsAndAccess(db: Db, s: Session, userId: int)
    requires Valid(db) && UpToDate(db, userId)
    ensures UpToDate(OnCheckoutCompleted(db, s).db, userId) <==> !LeavesBehind(db, CheckoutCompleted, SessionObject(s), userId)
    ensures UpToDate(OnCheckoutExpired(db, s).db, userId)
  {
    UpToDateRowByRow(db, userId);
    CompletionLeavesBehind(db, s, userId);
    UpToDateRowByRow(OnCheckoutCompleted(db, s).db, userId);
    ExpiryFollows(db, s, userId);
    UpToDateRowByRow(OnCheckoutExpired(db, s).db, userId);
  }

  lemma ChargesAndAccess(db: Db, charge: ChargeInfo, now: Time, userId: int)
    requires Valid(db) && UpToDate(db, userId)
    ensures UpToDate(OnChargeSucceeded(db, charge).db, userId) <==> !LeavesBehind(db, ChargeSucceeded, ChargeObject(charge), userId)
    ensures UpToDate(OnChargeRefunded(db, charge, now).db, userId) <==> !LeavesBehind(db, ChargeRefunded, ChargeObject(charge), userId)
  {
    UpToDateRowByRow(db, userId);
    ChargeLeavesBehind(db, charge, userId);
    UpToDateRowByRow(OnChargeSucceeded(db, charge).db, userId);
    RefundLeavesBehind(db, charge, now, userId);
    UpToDateRowByRow(OnChargeRefunded(db, charge, now).db, userId);
  }

  lemma FailuresAndAccess(db: Db, intent: Intent, userId: int)
    requires Valid(db) && UpToDate(db, userId)
    ensures UpToDate(OnIntentFailed(db, intent).db, userId)
  {
    UpToDateRowByRow(db, userId);
    FailureFollows(db, intent, userId);
    UpToDateRowByRow(OnIntentFailed(db, intent).db, userId);
  }

  lemma SuccessesAndAccess(db: Db, intent: Intent, now: Time, userId: int)
    requires Valid(db) && UpToDate(db, userId)
    ensures UpToDate(OnIntentSucceeded(db, intent, now).db, userId)
  {
    UpToDateRowByRow(db, userId);
    SuccessFollows(db, intent, now, userId);
  }

  lemma InvoicesAndAccess(db: Db, inv: StripeInvoice, now: Time, userId: int)
    requires Valid(db) && UpToDate(db, userId)
    ensures UpToDate(OnInvoicePaymentFailed(db, inv, now).db, userId)
  {
    UpToDateRowByRow(db, userId);
    InvoiceFollows(db, inv, now, userId);
  }

  lemma SubscriptionsAndAccess(db: Db, sub: StripeSubscription, now: Time, userId: int)
    requires Valid(db) && UpToDate(db, userId)
    ensures UpToDate(OnSubscriptionChanged(db, sub, now).db, userId)
    ensures UpToDate(OnSubscriptionDeleted(db, sub, now).db, userId)
  {
    UpToDateRowByRow(db, userId);
    SubscriptionFollows(db, sub, now, userId);
  }

  /** Events that save neither payments nor subscriptions. */
  lemma OthersAndAccess(db: Db, after: Db, userId: int)
    requires UpToDate(db, userId) && after == db.(customers := after.customers, invoices := after.invoices)
    ensures UpToDate(after, userId)
  {
    assert BuildExpected(after, userId) == BuildExpected(db, userId);
    forall t: Time ensures Recomputed(after, userId, t) == after {
      assert Recomputed(db, userId, t) == db;
    }
  }

  /** The index is behind after an event exactly when the event leaves it behind. */
  lemma BehindExactlyWhen(db: Db, kind: EventKind, o: EventObject, now: Time, userId: int)
    requires Valid(db) && UpToDate(db, userId)
    ensures UpToDate(Handle(db, kind, o, now).db, userId) <==> !LeavesBehind(db, kind, o, userId)
  {
    match kind
    case CheckoutCompleted => if o.SessionObject? { SessionsAndAccess(db, o.session, userId); }
    case CheckoutExpired => if o.SessionObject? { SessionsAndAccess(db, o.session, userId); }
    case ChargeSucceeded => if o.ChargeObject? { ChargesAndAccess(db, o.charge, now, userId); }
    case ChargeRefunded => if o.ChargeObject? { ChargesAndAccess(db, o.charge, now, userId); }
    case IntentFailed => if o.IntentObject? { FailuresAndAccess(db, o.intent, userId); }
    case CustomerChanged => OthersAndAccess(db, Handle(db, kind, o, now).db, userId);
    case InvoiceLifecycle => OthersAndAccess(db, Handle(db, kind, o, now).db, userId);
    case Unhandled =>
    case IntentSucceeded => if o.IntentObject? { SuccessesAndAccess(db, o.intent, now, userId); }
    case InvoicePaymentFailed => if o.InvoiceObject? { InvoicesAndAccess(db, o.invoice, now, userId); }
    case SubscriptionChanged => if o.SubscriptionObject? { SubscriptionsAndAccess(db, o.subscription, now, userId); }
    case SubscriptionDeleted => if o.SubscriptionObject? { SubscriptionsAndAccess(db, o.subscription, now, userId); }
  }

  predicate NeverBehind(db: Db, ds: seq<Delivery>, userId: int) {
    ds == [] ||
    (var rest, last := ds[..|ds| - 1], ds[|ds| - 1];
     NeverBehind(db, rest, userId) &&
     !LeavesBehind(Run(db, rest), KindOf(last.event.eventType), OrElse(last.event.data, NullObject), userId))
  }

  /** Over every run without such an event, every access answer stays the one the billing rows give. */
  lemma {:induction false} AccessStaysRight(db: Db, ds: seq<Delivery>, userId: int, featureKey: string, at: Time)
    requires Valid(db) && UpToDate(db, userId) && NeverBehind(db, ds, userId) && userId > 0 && featureKey != ""
    ensures Valid(Run(db, ds)) && UpToDate(Run(db, ds), userId)
    ensures CanAccess(Run(db, ds).entitlements, userId, featureKey, at) <==> Entitled(Run(db, ds), userId, featureKey, at)
  {
    RunKeepsValid(db, ds);
    if ds != [] {
      var rest, last := ds[..|ds| - 1], ds[|ds| - 1];
      AccessStaysRight(db, rest, userId, featureKey, at);
      BehindExactlyWhen(Run(db, rest), KindOf(last.event.eventType), OrElse(last.event.data, NullObject), last.at, userId);
    }
    assert Recomputed(Run(db, ds), userId, at) == Run(db, ds);
    AccessAfterRecompute(Run(db, ds), userId, at, featureKey, at);
  }
}
