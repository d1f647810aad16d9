/** Handlers that fail between two of their saves, and what replaying their event makes of the tables. */
module InterruptedHandlers {
  import opened Model
  import opened Snapshots
  import opened Entitlements
  import opened Handlers
  import opened HandlerInvariants
  import opened HandlerReplay
  import Loops = EntitlementsService

  // ---- The tables after so many saves ----

  /** A recompute's rows after `n` saves: the expectations one by one, then the deactivations row by row. */
  ghost function PartRows(rows: seq<Entitlement>, es: seq<Expected>, userId: int, now: Time, n: nat): seq<Entitlement> {
    if n <= |es| then Loops.Midway(rows, es[..n], userId)
    else Loops.Settling(rows, es, userId, now, n - |es|)
  }

  ghost function PartRecomputed(db: Db, userId: int, now: Time, n: nat): Db {
    db.(entitlements := PartRows(db.entitlements, BuildExpected(db, userId), userId, now, n))
  }

  ghost function PartCompleted(db: Db, s: Session, n: nat): Db {
    var id := ExtractLocalIds(s.metadata).paymentId;
    var i := PaymentById(db.payments, OrElse(id, ""));
    if n == 1 && id.Some? && i < |db.payments| &&
       (CompletedPayment(db.payments[i], s) == db.payments[i] || !PaymentClash(db.payments, i, CompletedPayment(db.payments[i], s)))
    then db.(payments := db.payments[i := CompletedPayment(db.payments[i], s)])
    else OnCheckoutCompleted(db, s).db
  }

  ghost function PartExpired(db: Db, s: Session, n: nat): Db {
    if n == 1 then db.(payments := OnCheckoutExpired(db, s).db.payments) else OnCheckoutExpired(db, s).db
  }

  function PaidBy(p: Payment, intent: Intent): Payment {
    p.(status := if Settled(p.status) then p.status else ToPaymentStatus(OrElse(intent.status, "succeeded")))
  }

  ghost function PartSucceeded(db: Db, intent: Intent, now: Time, n: nat): Db {
    var i := PaymentByIntent(db.payments, intent.id);
    if intent.id == "" || i == |db.payments| then db
    else
      var paid := PaidBy(db.payments[i], intent);
      var saved := db.(payments := db.payments[i := paid]);
      if n == 1 then saved
      else PartRecomputed(saved.(transactions := RecordCharge(db.transactions, intent, paid, now)), paid.userId, now, if n < 2 then 0 else n - 2)
  }

  ghost function PartRefunded(db: Db, charge: ChargeInfo, now: Time, n: nat): Db {
    var items, i := OrElse(charge.refunds, []), PaymentByIntent(db.payments, OrElse(charge.intent, ""));
    if n <= |items| && Truthy(charge.intent) && i < |db.payments|
    then db.(transactions := RecordRefunds(db.transactions, items[..n], db.payments[i], charge, now))
    else OnChargeRefunded(db, charge, now).db
  }

  ghost function PartChanged(db: Db, sub: StripeSubscription, now: Time, n: nat): Db
    requires n > 0
  {
    var i := Locate(db.subscriptions, sub);
    if sub.id == "" || i == |db.subscriptions| then db
    else PartRecomputed(db.(subscriptions := db.subscriptions[i := Mirrored(db.subscriptions[i], sub)]),
                        db.subscriptions[i].userId, now, n - 1)
  }

  ghost function PartDeleted(db: Db, sub: StripeSubscription, now: Time, n: nat): Db
    requires n > 0
  {
    var i := SubscriptionByStripeId(db.subscriptions, sub.id);
    if i == |db.subscriptions| then db
    else PartRecomputed(db.(subscriptions := db.subscriptions[i := CanceledSubscription(db.subscriptions[i], sub, now)]),
                        db.subscriptions[i].userId, now, n - 1)
  }

  ghost function PartInvoiceFailed(db: Db, inv: StripeInvoice, now: Time, n: nat): Db {
    var saved := UpsertInvoice(db, inv, now);
    if inv.id == "" || saved.None? then db
    else if n == 1 then saved.value.db
    else PartRecomputed(saved.value.db.(payments := FailPaymentOf(db.payments, inv.intent)), saved.value.userId, now,
                        if n < 2 then 0 else n - 2)
  }

  /** The tables when the handler stops after its first `n` saves; a handler with fewer has then run to its end. */
  ghost function Interrupted(db: Db, kind: EventKind, o: EventObject, now: Time, n: nat): Db {
    if n == 0 then db
    else match kind
      case CheckoutCompleted => if o.SessionObject? then PartCompleted(db, o.session, n) else db
      case CheckoutExpired => if o.SessionObject? then PartExpired(db, o.session, n) else db
      case IntentSucceeded => if o.IntentObject? then PartSucceeded(db, o.intent, now, n) else db
      case ChargeRefunded => if o.ChargeObject? then PartRefunded(db, o.charge, now, n) else db
      case SubscriptionChanged => if o.SubscriptionObject? then PartChanged(db, o.subscription, now, n) else db
      case SubscriptionDeleted => if o.SubscriptionObject? then PartDeleted(db, o.subscription, now, n) else db
      case InvoicePaymentFailed => if o.InvoiceObject? then PartInvoiceFailed(db, o.invoice, now, n) else db
      case _ => Handle(db, kind, o, now).db
  }

  // ---- Each step is one save ----

  /** The table with at most one row changed or appended. */
  predicate OneRow<T(==)>(a: seq<T>, b: seq<T>) {
    b == a || (|b| == |a| + 1 && b[..|a|] == a) || (|b| == |a| && exists i | 0 <= i < |a| :: b == a[i := b[i]])
  }

  predicate OneSave(a: Db, b: Db) {
    (b == a.(payments := b.payments) && OneRow(a.payments, b.payments)) ||
    (b == a.(subscriptions := b.subscriptions) && OneRow(a.subscriptions, b.subscriptions)) ||
    (b == a.(invoices := b.invoices) && OneRow(a.invoices, b.invoices)) ||
    (b == a.(transactions := b.transactions) && OneRow(a.transactions, b.transactions)) ||
    (b == a.(customers := b.customers) && OneRow(a.customers, b.customers)) ||
    (b == a.(entitlements := b.entitlements) && OneRow(a.entitlements, b.entitlements))
  }

  // ---- Tables that differ in stamps only ----

  /** `a` is `b`, or carries one of `times` where `b` carries `later` as the time it was written. */
  predicate SameTransaction(a: Transaction, b: Transaction, times: set<Time>, later: Time) {
    a == b || (b.occurredAt == later && a.occurredAt in times && a == b.(occurredAt := a.occurredAt))
  }

  predicate SameInvoice(a: Invoice, b: Invoice, times: set<Time>, later: Time) {
    a == b || (b.paidAt == Some(later) && a.paidAt.Some? && a.paidAt.value in times && a == b.(paidAt := a.paidAt))
  }

  predicate SameEntitlement(a: Entitlement, b: Entitlement, times: set<Time>, later: Time) {
    a == b || (!b.active && b.endsAt == Some(later) && a.endsAt.Some? && a.endsAt.value in times && a == b.(endsAt := a.endsAt))
  }

  predicate SameTransactions(a: seq<Transaction>, b: seq<Transaction>, times: set<Time>, later: Time) {
    |a| == |b| && forall k | 0 <= k < |a| :: SameTransaction(a[k], b[k], times, later)
  }

  predicate SameInvoices(a: seq<Invoice>, b: seq<Invoice>, times: set<Time>, later: Time) {
    |a| == |b| && forall k | 0 <= k < |a| :: SameInvoice(a[k], b[k], times, later)
  }

  predicate SameEntitlements(a: seq<Entitlement>, b: seq<Entitlement>, times: set<Time>, later: Time) {
    |a| == |b| && forall k | 0 <= k < |a| :: SameEntitlement(a[k], b[k], times, later)
  }

  /**
   * The same tables, but for the moment a charge or refund was booked, an undated invoice was paid, or a row that
   * grants nothing any more was closed: there `b` says `later` and `a` the time of an attempt.
   */
  predicate SameTables(a: Db, b: Db, times: set<Time>, later: Time) {
    a == b.(transactions := a.transactions, invoices := a.invoices, entitlements := a.entitlements) &&
    SameTransactions(a.transactions, b.transactions, times, later) &&
    SameInvoices(a.invoices, b.invoices, times, later) &&
    SameEntitlements(a.entitlements, b.entitlements, times, later)
  }

  lemma SameAsItself(a: Db, times: set<Time>, later: Time)
    ensures SameTables(a, a, times, later)
  {
  }

  lemma SameTablesChain(a: Db, b: Db, c: Db, few: set<Time>, times: set<Time>, later: Time)
    requires SameTables(a, b, times, later) && SameTables(b, c, few, later) && few <= times
    ensures SameTables(a, c, times, later)
  {
  }

  /** Tables that differ in stamps only give the same access. */
  lemma SameTablesSameAccess(a: Db, b: Db, times: set<Time>, later: Time, userId: int, featureKey: string, at: Time)
    requires SameTables(a, b, times, later)
    ensures CanAccess(a.entitlements, userId, featureKey, at) == CanAccess(b.entitlements, userId, featureKey, at)
  {
    var x, y := a.entitlements, b.entitlements;
    forall k | 0 <= k < |x| ensures x[k] in x && y[k] in y && (x[k].active ==> x[k] == y[k]) && (y[k].active ==> x[k] == y[k]) {
      assert SameEntitlement(x[k], y[k], times, later);
    }
  }

  // ---- A recompute after part of a recompute ----

  lemma TouchedByPrefix(row: Entitlement, es: seq<Expected>, n: nat, userId: int)
    requires n <= |es|
    ensures Touch(row, es[..n], userId) == row || Touch(row, es[..n], userId) == Touch(row, es, userId)
  {
    var k, m := ExpectedFor(es[..n], row), ExpectedFor(es, row);
    if k < n {
      assert Matches(row, es[k]) && forall j | 0 <= j < k :: !Matches(row, es[..n][j]);
      assert m == k;
    }
  }

  /** What part of a recompute has made of the rows that were there: nothing yet, or its final word. */
  lemma PartRow(rows: seq<Entitlement>, es: seq<Expected>, userId: int, now: Time, n: nat, i: nat)
    requires i < |rows|
    ensures |PartRows(rows, es, userId, now, n)| >= |rows|
    ensures var x := PartRows(rows, es, userId, now, n)[i];
            x == rows[i] || x == Touch(rows[i], es, userId) || x == Reconcile(rows[i], es, userId, now)
  {
    if n <= |es| { TouchedByPrefix(rows[i], es, n, userId); }
  }

  lemma PartTail(rows: seq<Entitlement>, es: seq<Expected>, userId: int, now: Time, n: nat)
    ensures var done := if n <= |es| then n else |es|;
            |PartRows(rows, es, userId, now, n)| >= |rows| &&
            PartRows(rows, es, userId, now, n)[|rows|..] == Inserted(es[..done], rows, userId)
  {
    assert es[..|es|] == es;
  }

  /** Every row of a table has its key's row in the other. */
  predicate SameKeys(a: seq<Entitlement>, b: seq<Entitlement>) {
    |a| == |b| && forall i | 0 <= i < |a| :: SameKey(a[i], b[i])
  }

  lemma SameKeysSameRows(a: seq<Entitlement>, b: seq<Entitlement>, userId: int, e: Expected)
    requires SameKeys(a, b)
    ensures HasRow(a, userId, e) <==> HasRow(b, userId, e)
  {
    if HasRow(a, userId, e) {
      var i :| 0 <= i < |a| && a[i].userId == userId && Matches(a[i], e);
      assert SameKey(a[i], b[i]) && b[i] in b;
    }
    if HasRow(b, userId, e) {
      var i :| 0 <= i < |b| && b[i].userId == userId && Matches(b[i], e);
      assert SameKey(a[i], b[i]) && a[i] in a;
    }
  }

  lemma SameKeysSameRule(a: seq<Entitlement>, b: seq<Entitlement>)
    requires SameKeys(a, b) && OneRowPerKey(b)
    ensures OneRowPerKey(a)
  {
    forall i, j | 0 <= i < j < |a| ensures !SameKey(a[i], a[j]) {
      assert SameKey(a[i], b[i]) && SameKey(a[j], b[j]);
    }
  }

  lemma PartKeepsKeys(rows: seq<Entitlement>, es: seq<Expected>, userId: int, now: Time, n: nat)
    requires OneRowPerKey(rows)
    ensures OneRowPerKey(PartRows(rows, es, userId, now, n))
  {
    if n <= |es| {
      Loops.MidwayKeepsKeys(rows, es[..n], userId);
    } else {
      Loops.MidwayKeepsKeys(rows, es, userId);
      var part, mid := PartRows(rows, es, userId, now, n), Loops.Midway(rows, es, userId);
      assert SameKeys(part, mid) by { SettlingKeepsKeys(rows, es, userId, now, n - |es|); }
      SameKeysSameRule(part, mid);
    }
  }

  lemma SettlingKeepsKeys(rows: seq<Entitlement>, es: seq<Expected>, userId: int, now: Time, reach: nat)
    ensures SameKeys(Loops.Settling(rows, es, userId, now, reach), Loops.Midway(rows, es, userId))
  {
  }

  lemma RowAfterReplay(row: Entitlement, x: Entitlement, es: seq<Expected>, userId: int, now: Time, later: Time)
    requires x == row || x == Touch(row, es, userId) || x == Reconcile(row, es, userId, now)
    ensures SameEntitlement(Reconcile(x, es, userId, later), Reconcile(row, es, userId, later), {now}, later)
  {
    assert SameKey(x, row);
    SameExpectation(es, x, row);
  }

  lemma NewRowStays(rows: seq<Entitlement>, es: seq<Expected>, n: nat, userId: int, row: Entitlement, later: Time)
    requires WellFormed(es) && n <= |es| && row in Inserted(es[..n], rows, userId)
    ensures Reconcile(row, es, userId, later) == row
  {
    InsertedOrigin(es[..n], rows, userId, row);
    var e :| e in es[..n] && row == NewRow(userId, e);
    var j :| 0 <= j < |es[..n]| && es[..n][j] == e;
    assert Matches(row, es[j]);
    var k := ExpectedFor(es, row);
    assert es[k] in es && es[j] in es;
  }

  lemma NothingMissingYet(es: seq<Expected>, rows: seq<Entitlement>, mid: seq<Entitlement>, userId: int)
    requires SameKeys(mid, rows + Inserted(es, rows, userId))
    ensures Inserted(es, mid, userId) == []
  {
    var added := Inserted(es, rows, userId);
    forall e | e in es ensures HasRow(mid, userId, e) {
      InsertedCovers(es, rows, userId, e);
      HasRowInEither(rows, added, userId, e);
      if !HasRow(rows, userId, e) {
        var d: Expected :| NewRow(userId, d) in added && Matches(NewRow(userId, d), e);
        assert HasRow(added, userId, e);
      }
      SameKeysSameRows(mid, rows + added, userId, e);
    }
    NothingMissing(es, mid, userId);
  }

  lemma StillMissing(rows: seq<Entitlement>, head: seq<Entitlement>, rest: seq<Entitlement>, mid: seq<Entitlement>, userId: int, e: Expected)
    requires SameKeys(mid, rows + head)
    ensures HasRow(rows + (head + rest), userId, e) <==> HasRow(mid + rest, userId, e)
  {
    HasRowInEither(rows, head + rest, userId, e);
    HasRowInEither(head, rest, userId, e);
    HasRowInEither(mid, rest, userId, e);
    HasRowInEither(rows, head, userId, e);
    SameKeysSameRows(mid, rows + head, userId, e);
  }

  /** What is still missing after a prefix has been honoured is what the whole list adds after the prefix's rows. */
  lemma {:induction false} InsertedSplits(es: seq<Expected>, rows: seq<Entitlement>, mid: seq<Entitlement>, n: nat, userId: int)
    requires n <= |es| && SameKeys(mid, rows + Inserted(es[..n], rows, userId))
    ensures Inserted(es, rows, userId) == Inserted(es[..n], rows, userId) + Inserted(es, mid, userId)
  {
    var head := Inserted(es[..n], rows, userId);
    if n == |es| {
      assert es[..n] == es;
      NothingMissingYet(es, rows, mid, userId);
    } else {
      var most := es[..|es| - 1];
      assert most[..n] == es[..n];
      InsertedSplits(most, rows, mid, n, userId);
      StillMissing(rows, head, Inserted(most, mid, userId), mid, userId, es[|es| - 1]);
    }
  }

  lemma PartSplits(rows: seq<Entitlement>, es: seq<Expected>, userId: int, now: Time, n: nat)
    ensures var part, done := PartRows(rows, es, userId, now, n), if n <= |es| then n else |es|;
            Inserted(es, rows, userId) == Inserted(es[..done], rows, userId) + Inserted(es, part, userId)
  {
    var part, done := PartRows(rows, es, userId, now, n), if n <= |es| then n else |es|;
    PartTail(rows, es, userId, now, n);
    var all := rows + Inserted(es[..done], rows, userId);
    assert |part| == |all|;
    forall i | 0 <= i < |part| ensures SameKey(part[i], all[i]) {
      if i < |rows| {
        PartRow(rows, es, userId, now, n, i);
      } else {
        assert part[i] == part[|rows|..][i - |rows|];
      }
    }
    assert SameKeys(part, all);
    InsertedSplits(es, rows, part, done, userId);
  }

  /** The recomputed tables meet row by row: the old rows, the prefix's new ones, and those that were still missing. */
  lemma RowsMeet(rows: seq<Entitlement>, part: seq<Entitlement>, head: seq<Entitlement>, es: seq<Expected>, userId: int,
                 now: Time, later: Time, k: nat)
    requires k < |RecomputedRows(part, es, userId, later)| && |part| == |rows| + |head|
    requires Inserted(es, rows, userId) == head + Inserted(es, part, userId)
    requires k < |rows| ==> part[k] == rows[k] || part[k] == Touch(rows[k], es, userId) || part[k] == Reconcile(rows[k], es, userId, now)
    requires |rows| <= k < |part| ==> part[k] == head[k - |rows|] == Reconcile(part[k], es, userId, later)
    ensures k < |RecomputedRows(rows, es, userId, later)|
    ensures SameEntitlement(RecomputedRows(part, es, userId, later)[k], RecomputedRows(rows, es, userId, later)[k], {now}, later)
  {
    if k < |rows| { RowAfterReplay(rows[k], part[k], es, userId, now, later); }
  }

  lemma PartNewRow(rows: seq<Entitlement>, es: seq<Expected>, userId: int, now: Time, later: Time, n: nat, k: nat)
    requires WellFormed(es) && |rows| <= k < |PartRows(rows, es, userId, now, n)|
    ensures var x, head := PartRows(rows, es, userId, now, n)[k], Inserted(es[..if n <= |es| then n else |es|], rows, userId);
            k - |rows| < |head| && x == head[k - |rows|] == Reconcile(x, es, userId, later)
  {
    var part, done := PartRows(rows, es, userId, now, n), if n <= |es| then n else |es|;
    PartTail(rows, es, userId, now, n);
    assert part[k] == part[|rows|..][k - |rows|];
    NewRowStays(rows, es, done, userId, part[k], later);
  }

  lemma PartSize(rows: seq<Entitlement>, es: seq<Expected>, userId: int, now: Time, n: nat)
    ensures |PartRows(rows, es, userId, now, n)| == |rows| + |Inserted(es[..if n <= |es| then n else |es|], rows, userId)|
  {
    PartTail(rows, es, userId, now, n);
  }

  /** Recomputing from where a recompute stopped gives what recomputing from the start would. */
  lemma RecomputeAfterPart(rows: seq<Entitlement>, es: seq<Expected>, userId: int, now: Time, later: Time, n: nat)
    requires WellFormed(es)
    ensures SameEntitlements(RecomputedRows(PartRows(rows, es, userId, now, n), es, userId, later),
                             RecomputedRows(rows, es, userId, later), {now}, later)
  {
    var part, head := PartRows(rows, es, userId, now, n), Inserted(es[..if n <= |es| then n else |es|], rows, userId);
    var a, b := RecomputedRows(part, es, userId, later), RecomputedRows(rows, es, userId, later);
    PartSize(rows, es, userId, now, n);
    PartSplits(rows, es, userId, now, n);
    assert |a| == |b|;
    forall k | 0 <= k < |a| ensures SameEntitlement(a[k], b[k], {now}, later) {
      if k < |rows| {
        PartRow(rows, es, userId, now, n, k);
      } else if k < |part| {
        PartNewRow(rows, es, userId, now, later, n, k);
      }
      RowsMeet(rows, part, head, es, userId, now, later, k);
    }
  }

  /** A recompute that resumes on tables that differ in stamps only ends on tables that differ in stamps only. */
  lemma ResumedRecompute(part: Db, clean: Db, es: seq<Expected>, userId: int, now: Time, later: Time, n: nat)
    requires part.entitlements == PartRows(clean.entitlements, es, userId, now, n)
    requires BuildExpected(part, userId) == es == BuildExpected(clean, userId) && WellFormed(es)
    requires part == clean.(transactions := part.transactions, invoices := part.invoices, entitlements := part.entitlements)
    requires SameTransactions(part.transactions, clean.transactions, {now}, later)
    requires SameInvoices(part.invoices, clean.invoices, {now}, later)
    ensures SameTables(Recomputed(part, userId, later), Recomputed(clean, userId, later), {now}, later)
  {
    RecomputeAfterPart(clean.entitlements, es, userId, now, later, n);
  }

  // ---- Checkout sessions ----

  lemma CompletedHeals(db: Db, s: Session, n: nat)
    requires Valid(db) && n > 0
    ensures OnCheckoutCompleted(PartCompleted(db, s, n), s) == OnCheckoutCompleted(db, s)
  {
    var id := ExtractLocalIds(s.metadata).paymentId;
    var i := PaymentById(db.payments, OrElse(id, ""));
    if PartCompleted(db, s, n) == OnCheckoutCompleted(db, s).db {
      CheckoutCompletedTwice(db, s);
    } else {
      var p := CompletedPayment(db.payments[i], s);
      PaymentByIdAfterSave(db.payments, i, p, id.value);
      assert CompletedPayment(p, s) == p;
      assert db.payments[i := p][i := p] == db.payments[i := p];
    }
  }

  lemma ExpiredHeals(db: Db, s: Session, n: nat)
    requires Valid(db) && n > 0
    ensures OnCheckoutExpired(PartExpired(db, s, n), s) == OnCheckoutExpired(db, s)
  {
    var ids := ExtractLocalIds(s.metadata);
    var i := PaymentById(db.payments, OrElse(ids.paymentId, ""));
    if PartExpired(db, s, n) == OnCheckoutExpired(db, s).db {
      CheckoutExpiredTwice(db, s);
    } else {
      ExpiredOnce(db, s, i, ids);
      ExpiredAgain(PartExpired(db, s, n), s, i, ids);
    }
  }

  // ---- Payment intents and refunds ----

  lemma ChargeRecordedOnce(ts: seq<Transaction>, intent: Intent, p: Payment, now: Time, later: Time)
    ensures var booked := RecordCharge(ts, intent, p, now);
            RecordCharge(booked, intent, p, later) == booked &&
            SameTransactions(booked, RecordCharge(ts, intent, p, later), {now}, later)
  {
    var booked := RecordCharge(ts, intent, p, now);
    if ChargeByIntent(ts, intent.id) == |ts| {
      assert booked[|ts|].kind.Charge? && booked[|ts|].intentId == Some(intent.id);
      assert ChargeByIntent(booked, intent.id) < |booked|;
    }
  }

  lemma PaidTwice(p: Payment, intent: Intent)
    ensures PaidBy(PaidBy(p, intent), intent) == PaidBy(p, intent)
  {
  }

  /** Wherever the handler stopped, handling the intent again books its charge if need be and recomputes. */
  lemma SuccessResumes(db: Db, intent: Intent, now: Time, later: Time, n: nat)
    requires n > 0 && intent.id != "" && PaymentByIntent(db.payments, intent.id) < |db.payments|
    ensures var part, paid := PartSucceeded(db, intent, now, n), PaidBy(db.payments[PaymentByIntent(db.payments, intent.id)], intent);
            OnIntentSucceeded(part, intent, later)
              == Result(Recomputed(part.(transactions := RecordCharge(part.transactions, intent, paid, later)), paid.userId, later), Processed)
  {
    var i, part := PaymentByIntent(db.payments, intent.id), PartSucceeded(db, intent, now, n);
    var paid := PaidBy(db.payments[i], intent);
    PaymentByIntentAfterSave(db.payments, i, paid, intent.id);
    PaidTwice(db.payments[i], intent);
    assert part.payments == db.payments[i := paid];
    assert part.payments[i := paid] == part.payments;
  }

  lemma SucceededHeals(db: Db, intent: Intent, now: Time, later: Time, n: nat)
    requires Valid(db) && n > 0
    ensures var again, clean := OnIntentSucceeded(PartSucceeded(db, intent, now, n), intent, later), OnIntentSucceeded(db, intent, later);
            again.outcome == clean.outcome && SameTables(again.db, clean.db, {now}, later)
  {
    var i := PaymentByIntent(db.payments, intent.id);
    if intent.id != "" && i < |db.payments| {
      var part, paid := PartSucceeded(db, intent, now, n), PaidBy(db.payments[i], intent);
      var saved := db.(payments := db.payments[i := paid]);
      var clean := saved.(transactions := RecordCharge(db.transactions, intent, paid, later));
      assert OnIntentSucceeded(db, intent, later) == Result(Recomputed(clean, paid.userId, later), Processed);
      assert OnIntentSucceeded(part, intent, later)
          == Result(Recomputed(part.(transactions := RecordCharge(part.transactions, intent, paid, later)), paid.userId, later), Processed) by {
        SuccessResumes(db, intent, now, later, n);
      }
      if n == 1 {
        assert part == saved;
        SameAsItself(Recomputed(clean, paid.userId, later), {now}, later);
      } else {
        ChargedRecomputeHeals(db, i, paid, intent, now, later, n - 2);
      }
    }
  }

  lemma ChargedRecomputeHeals(db: Db, i: nat, paid: Payment, intent: Intent, now: Time, later: Time, n: nat)
    requires Valid(db) && i < |db.payments| && paid == PaidBy(db.payments[i], intent)
    ensures var saved := db.(payments := db.payments[i := paid]);
            var part := PartRecomputed(saved.(transactions := RecordCharge(db.transactions, intent, paid, now)), paid.userId, now, n);
            SameTables(Recomputed(part.(transactions := RecordCharge(part.transactions, intent, paid, later)), paid.userId, later),
                       Recomputed(saved.(transactions := RecordCharge(db.transactions, intent, paid, later)), paid.userId, later), {now}, later)
  {
    var saved := db.(payments := db.payments[i := paid]);
    var booked := saved.(transactions := RecordCharge(db.transactions, intent, paid, now));
    var clean := saved.(transactions := RecordCharge(db.transactions, intent, paid, later));
    ChargeRecordedOnce(db.transactions, intent, paid, now, later);
    PaymentSaveKeepsUnique(db.payments, i, paid);
    ExpectedIsWellFormed(saved, paid.userId);
    var es := BuildExpected(clean, paid.userId);
    assert BuildExpected(booked, paid.userId) == es == BuildExpected(saved, paid.userId);
    ResumedRecompute(PartRecomputed(booked, paid.userId, now, n), clean, es, paid.userId, now, later, n);
  }

  lemma {:induction false} RefundsDifferInStamps(ts: seq<Transaction>, items: seq<RefundItem>, p: Payment, charge: ChargeInfo, now: Time, later: Time)
    ensures SameTransactions(RecordRefunds(ts, items, p, charge, now), RecordRefunds(ts, items, p, charge, later), {now}, later)
  {
    if items != [] {
      RefundsDifferInStamps(ts, items[..|items| - 1], p, charge, now, later);
      SameRefundsFound(RecordRefunds(ts, items[..|items| - 1], p, charge, now), RecordRefunds(ts, items[..|items| - 1], p, charge, later),
                       {now}, later, items[|items| - 1].id);
    }
  }

  lemma SameRefundsFound(a: seq<Transaction>, b: seq<Transaction>, times: set<Time>, later: Time, id: string)
    requires SameTransactions(a, b, times, later)
    ensures TransactionByRefund(a, id) == TransactionByRefund(b, id)
  {
    assert forall k | 0 <= k < |a| :: a[k].refundId == b[k].refundId;
  }

  lemma {:induction false} SameRefundSum(a: seq<Transaction>, b: seq<Transaction>, times: set<Time>, later: Time, paymentId: Uuid)
    requires SameTransactions(a, b, times, later)
    ensures RefundSum(a, paymentId) == RefundSum(b, paymentId)
  {
    if a != [] {
      SameRefundSum(a[..|a| - 1], b[..|b| - 1], times, later, paymentId);
      assert SameTransaction(a[|a| - 1], b[|b| - 1], times, later);
    }
  }

  /** Recording the whole list after a prefix of it adds what the prefix left out, in the list's order. */
  lemma {:induction false} RefundsResume(ts: seq<Transaction>, items: seq<RefundItem>, n: nat, p: Payment, charge: ChargeInfo, now: Time, later: Time)
    requires n <= |items|
    ensures SameTransactions(RecordRefunds(RecordRefunds(ts, items[..n], p, charge, now), items, p, charge, later),
                             RecordRefunds(ts, items, p, charge, later), {now}, later)
  {
    var part := RecordRefunds(ts, items[..n], p, charge, now);
    if n == |items| {
      assert items[..n] == items;
      RefundsRecorded(ts, items, p, charge, now);
      NoNewRefunds(part, items, p, charge, later);
      RefundsDifferInStamps(ts, items, p, charge, now, later);
    } else {
      var most := items[..|items| - 1];
      assert most[..n] == items[..n];
      RefundsResume(ts, most, n, p, charge, now, later);
      SameRefundsFound(RecordRefunds(part, most, p, charge, later), RecordRefunds(ts, most, p, charge, later), {now}, later, items[|items| - 1].id);
    }
  }

  lemma RefundedHeals(db: Db, charge: ChargeInfo, now: Time, later: Time, n: nat)
    requires Valid(db)
    ensures var again, clean := OnChargeRefunded(PartRefunded(db, charge, now, n), charge, later), OnChargeRefunded(db, charge, later);
            again.outcome == clean.outcome && SameTables(again.db, clean.db, {now}, later)
  {
    var items, i := OrElse(charge.refunds, []), PaymentByIntent(db.payments, OrElse(charge.intent, ""));
    if Truthy(charge.intent) && i < |db.payments| {
      var p := db.payments[i];
      if n <= |items| {
        RefundsResume(db.transactions, items, n, p, charge, now, later);
        SameRefundSum(RecordRefunds(RecordRefunds(db.transactions, items[..n], p, charge, now), items, p, charge, later),
                      RecordRefunds(db.transactions, items, p, charge, later), {now}, later, p.id);
        if items == [] { assert PartRefunded(db, charge, now, n) == db; }
      } else {
        ChargeRefundedTwice(db, charge, now, later);
        RefundsDifferInStamps(db.transactions, items, p, charge, now, later);
        SameRefundSum(RecordRefunds(db.transactions, items, p, charge, now), RecordRefunds(db.transactions, items, p, charge, later),
                      {now}, later, p.id);
      }
    }
  }

  // ---- Subscriptions ----

  lemma ChangedHeals(db: Db, sub: StripeSubscription, now: Time, later: Time, n: nat)
    requires Valid(db) && n > 0
    ensures var again, clean := OnSubscriptionChanged(PartChanged(db, sub, now, n), sub, later), OnSubscriptionChanged(db, sub, later);
            again.outcome == clean.outcome && SameTables(again.db, clean.db, {now}, later)
  {
    var i := Locate(db.subscriptions, sub);
    if sub.id != "" && i < |db.subscriptions| {
      var part, userId := PartChanged(db, sub, now, n), db.subscriptions[i].userId;
      var clean := db.(subscriptions := part.subscriptions);
      LocateAgain(db.subscriptions, sub);
      MirroringKeepsUnique(db.subscriptions, sub);
      assert Mirrored(part.subscriptions[i], sub) == part.subscriptions[i];
      assert part.subscriptions[i := part.subscriptions[i]] == part.subscriptions;
      ExpectedIsWellFormed(clean, userId);
      ResumedRecompute(part, clean, BuildExpected(clean, userId), userId, now, later, n - 1);
    }
  }

  /** Wherever the handler stopped, handling the deletion again dates the row anew and recomputes. */
  lemma DeletionResumes(db: Db, sub: StripeSubscription, now: Time, later: Time, n: nat, i: nat)
    requires n > 0 && i == SubscriptionByStripeId(db.subscriptions, sub.id) < |db.subscriptions|
    ensures var part, ss := PartDeleted(db, sub, now, n), db.subscriptions[i := CanceledSubscription(db.subscriptions[i], sub, later)];
            OnSubscriptionDeleted(part, sub, later) == Result(Recomputed(part.(subscriptions := ss), db.subscriptions[i].userId, later), Processed)
  {
    var part, ended := PartDeleted(db, sub, now, n), CanceledSubscription(db.subscriptions[i], sub, later);
    SubscriptionByStripeIdAfterSave(db.subscriptions, i, part.subscriptions[i], sub.id);
    assert CanceledSubscription(part.subscriptions[i], sub, later) == ended;
    assert part.subscriptions[i := ended] == db.subscriptions[i := ended];
  }

  lemma DeletedRecomputeHeals(db: Db, sub: StripeSubscription, now: Time, later: Time, n: nat, i: nat)
    requires Valid(db) && i < |db.subscriptions|
    ensures var userId := db.subscriptions[i].userId;
            var early := db.(subscriptions := db.subscriptions[i := CanceledSubscription(db.subscriptions[i], sub, now)]);
            var late := db.(subscriptions := db.subscriptions[i := CanceledSubscription(db.subscriptions[i], sub, later)]);
            SameTables(Recomputed(PartRecomputed(early, userId, now, n).(subscriptions := late.subscriptions), userId, later),
                       Recomputed(late, userId, later), {now}, later)
  {
    var userId := db.subscriptions[i].userId;
    var early := db.(subscriptions := db.subscriptions[i := CanceledSubscription(db.subscriptions[i], sub, now)]);
    var late := db.(subscriptions := db.subscriptions[i := CanceledSubscription(db.subscriptions[i], sub, later)]);
    SubscriptionSaveKeepsUnique(db.subscriptions, i, late.subscriptions[i]);
    CanceledExpectNothing(early, late, i, userId);
    ExpectedIsWellFormed(late, userId);
    var part, es := PartRecomputed(early, userId, now, n).(subscriptions := late.subscriptions), BuildExpected(late, userId);
    ResumedRecompute(part, late, es, userId, now, later, n);
  }

  lemma DeletedHeals(db: Db, sub: StripeSubscription, now: Time, later: Time, n: nat)
    requires Valid(db) && n > 0
    ensures var again, clean := OnSubscriptionDeleted(PartDeleted(db, sub, now, n), sub, later), OnSubscriptionDeleted(db, sub, later);
            again.outcome == clean.outcome && SameTables(again.db, clean.db, {now}, later)
  {
    var i := SubscriptionByStripeId(db.subscriptions, sub.id);
    if i < |db.subscriptions| {
      DeletionResumes(db, sub, now, later, n, i);
      DeletedRecomputeHeals(db, sub, now, later, n - 1, i);
    }
  }

  // ---- Invoices ----

  lemma UpsertDiffersInStamps(db: Db, inv: StripeInvoice, now: Time, later: Time)
    ensures var a, b := UpsertInvoice(db, inv, now), UpsertInvoice(db, inv, later);
            (a.Some? <==> b.Some?) &&
            (a.Some? ==> a.value.userId == b.value.userId && a.value.db == b.value.db.(invoices := a.value.db.invoices) &&
                         SameInvoices(a.value.db.invoices, b.value.db.invoices, {now}, later))
  {
    var i := InvoiceByStripeId(db.invoices, inv.id);
    if i < |db.invoices| { MirrorsDifferInStamps(db.invoices[i], inv, now, later); }
    else {
      var owner := OwnerOf(db.customers, inv.customer);
      if owner.Some? {
        MirrorsDifferInStamps(NewInvoice(owner.value, SubscriptionOfInvoice(db.subscriptions, inv), inv), inv, now, later);
      }
    }
  }

  lemma MirrorsDifferInStamps(local: Invoice, inv: StripeInvoice, now: Time, later: Time)
    ensures SameInvoice(MirroredInvoice(local, inv, now), MirroredInvoice(local, inv, later), {now}, later)
  {
  }

  lemma LifecycleHeals(db: Db, inv: StripeInvoice, now: Time, later: Time)
    requires Valid(db)
    ensures var again, clean := OnInvoiceLifecycle(OnInvoiceLifecycle(db, inv, now).db, inv, later), OnInvoiceLifecycle(db, inv, later);
            again.outcome == clean.outcome && SameTables(again.db, clean.db, {now}, later)
  {
    UpsertDiffersInStamps(db, inv, now, later);
    if UpsertInvoice(db, inv, now).Some? { UpsertTwice(db, inv, now, later); }
  }

  /** Wherever the handler stopped, handling the notice again comes to recomputing on the invoice's and payment's rows. */
  lemma InvoiceFailureResumes(db: Db, inv: StripeInvoice, now: Time, later: Time, n: nat)
    requires Valid(db) && n > 0 && inv.id != "" && UpsertInvoice(db, inv, now).Some?
    ensures var part, saved := PartInvoiceFailed(db, inv, now, n), UpsertInvoice(db, inv, now).value;
            OnInvoicePaymentFailed(part, inv, later)
              == Result(Recomputed(part.(payments := FailPaymentOf(db.payments, inv.intent)), saved.userId, later), Processed)
  {
    var part, saved := PartInvoiceFailed(db, inv, now, n), UpsertInvoice(db, inv, now).value;
    FailPaymentTwice(db.payments, inv.intent);
    UpsertTwice(db, inv, now, later);
    UpsertReadsNoPayments(saved.db, part, inv, later);
  }

  /** The invoice saved by the failed attempt, then the payment and the recompute done over, against all of it done once. */
  lemma FailedRecomputeHeals(db: Db, early: Db, late: Db, ps: seq<Payment>, userId: int, now: Time, later: Time, n: nat)
    requires Valid(db) && UniquePayments(ps)
    requires early == db.(invoices := early.invoices) && late == db.(invoices := late.invoices)
    requires SameInvoices(early.invoices, late.invoices, {now}, later)
    ensures var part := PartRecomputed(early.(payments := ps), userId, now, n);
            SameTables(Recomputed(part, userId, later), Recomputed(late.(payments := ps), userId, later), {now}, later)
  {
    var clean, part := late.(payments := ps), PartRecomputed(early.(payments := ps), userId, now, n);
    ExpectedIsWellFormed(db.(payments := ps), userId);
    var es := BuildExpected(clean, userId);
    assert BuildExpected(early.(payments := ps), userId) == es;
    ResumedRecompute(part, clean, es, userId, now, later, n);
  }

  lemma InvoiceFailureHeals(db: Db, inv: StripeInvoice, now: Time, later: Time, n: nat)
    requires Valid(db) && n > 0
    ensures var again, clean := OnInvoicePaymentFailed(PartInvoiceFailed(db, inv, now, n), inv, later), OnInvoicePaymentFailed(db, inv, later);
            again.outcome == clean.outcome && SameTables(again.db, clean.db, {now}, later)
  {
    UpsertDiffersInStamps(db, inv, now, later);
    if inv.id != "" && UpsertInvoice(db, inv, now).Some? {
      var early, late := UpsertInvoice(db, inv, now).value, UpsertInvoice(db, inv, later).value;
      var ps, m := FailPaymentOf(db.payments, inv.intent), if n < 2 then 0 else n - 2;
      assert UniquePayments(ps) by { FailPaymentTwice(db.payments, inv.intent); }
      FailedRecomputeHeals(db, early.db, late.db, ps, early.userId, now, later, m);
      PartRecomputedStart(early.db.(payments := ps), early.userId, now);
      assert PartInvoiceFailed(db, inv, now, n).(payments := ps) == PartRecomputed(early.db.(payments := ps), early.userId, now, m);
      InvoiceFailureResumes(db, inv, now, later, n);
    }
  }

  lemma PartRecomputedStart(db: Db, userId: int, now: Time)
    ensures PartRecomputed(db, userId, now, 0) == db
  {
    PartRowsStart(db.entitlements, BuildExpected(db, userId), userId, now);
  }

  // ---- Every handler, wherever it stopped ----

  /** Handled again, the event leaves the tables as one undisturbed handling at that time would, up to stamps. */
  ghost predicate Heals(db: Db, kind: EventKind, o: EventObject, now: Time, later: Time, n: nat) {
    var again, clean := Handle(Interrupted(db, kind, o, now, n), kind, o, later), Handle(db, kind, o, later);
    again.outcome == clean.outcome && SameTables(again.db, clean.db, {now}, later)
  }

  lemma ReplayHeals(db: Db, kind: EventKind, o: EventObject, now: Time, later: Time, n: nat)
    requires Valid(db)
    ensures Heals(db, kind, o, now, later, n)
  {
    if n > 0 {
      match kind
      case CheckoutCompleted => if o.SessionObject? { CompletedHeals(db, o.session, n); }
      case CheckoutExpired => if o.SessionObject? { ExpiredHeals(db, o.session, n); }
      case IntentSucceeded => if o.IntentObject? { SucceededHeals(db, o.intent, now, later, n); }
      case ChargeRefunded => if o.ChargeObject? { RefundedHeals(db, o.charge, now, later, n); }
      case SubscriptionChanged => if o.SubscriptionObject? { ChangedHeals(db, o.subscription, now, later, n); }
      case SubscriptionDeleted => if o.SubscriptionObject? { DeletedHeals(db, o.subscription, now, later, n); }
      case InvoicePaymentFailed => if o.InvoiceObject? { InvoiceFailureHeals(db, o.invoice, now, later, n); }
      case InvoiceLifecycle => if o.InvoiceObject? { LifecycleHeals(db, o.invoice, now, later); }
      case IntentFailed => if o.IntentObject? { IntentFailedTwice(db, o.intent); }
      case ChargeSucceeded => if o.ChargeObject? { ChargeSucceededTwice(db, o.charge); }
      case CustomerChanged => if o.CustomerObject? { CustomerChangedTwice(db, o.customer); }
      case Unhandled =>
    }
  }

  // ---- What an interruption keeps, and that each step is one save ----

  lemma PartRecomputedKeepsValid(db: Db, userId: int, now: Time, n: nat)
    requires Valid(db)
    ensures Valid(PartRecomputed(db, userId, now, n))
  {
    PartKeepsKeys(db.entitlements, BuildExpected(db, userId), userId, now, n);
  }

  lemma PartSessionKeepsValid(db: Db, s: Session, n: nat)
    requires Valid(db)
    ensures Valid(PartCompleted(db, s, n)) && Valid(PartExpired(db, s, n))
  {
    CheckoutCompletedKeepsValid(db, s);
    CheckoutExpiredKeepsValid(db, s);
    var id := ExtractLocalIds(s.metadata).paymentId;
    var i := PaymentById(db.payments, OrElse(id, ""));
    if id.Some? && i < |db.payments| && !PaymentClash(db.payments, i, CompletedPayment(db.payments[i], s)) {
      PaymentSaveKeepsUnique(db.payments, i, CompletedPayment(db.payments[i], s));
    }
  }

  lemma PartIntentKeepsValid(db: Db, intent: Intent, now: Time, n: nat)
    requires Valid(db)
    ensures Valid(PartSucceeded(db, intent, now, n))
  {
    var i := PaymentByIntent(db.payments, intent.id);
    if intent.id != "" && i < |db.payments| {
      var paid := PaidBy(db.payments[i], intent);
      PaymentSaveKeepsUnique(db.payments, i, paid);
      PartRecomputedKeepsValid(db.(payments := db.payments[i := paid], transactions := RecordCharge(db.transactions, intent, paid, now)),
                               paid.userId, now, if n < 2 then 0 else n - 2);
    }
  }

  lemma PartChargeKeepsValid(db: Db, charge: ChargeInfo, now: Time, n: nat)
    requires Valid(db)
    ensures Valid(PartRefunded(db, charge, now, n))
  {
    ChargeRefundedKeepsValid(db, charge, now);
    var items, i := OrElse(charge.refunds, []), PaymentByIntent(db.payments, OrElse(charge.intent, ""));
    if n <= |items| && i < |db.payments| { RefundsKeepUnique(db.transactions, items[..n], db.payments[i], charge, now); }
  }

  lemma PartChangedKeepsValid(db: Db, sub: StripeSubscription, now: Time, n: nat)
    requires Valid(db) && n > 0
    ensures Valid(PartChanged(db, sub, now, n))
  {
    var i := Locate(db.subscriptions, sub);
    if i < |db.subscriptions| {
      MirroringKeepsUnique(db.subscriptions, sub);
      PartRecomputedKeepsValid(db.(subscriptions := db.subscriptions[i := Mirrored(db.subscriptions[i], sub)]),
                               db.subscriptions[i].userId, now, n - 1);
    }
  }

  lemma PartDeletedKeepsValid(db: Db, sub: StripeSubscription, now: Time, n: nat)
    requires Valid(db) && n > 0
    ensures Valid(PartDeleted(db, sub, now, n))
  {
    var k := SubscriptionByStripeId(db.subscriptions, sub.id);
    if k < |db.subscriptions| {
      var ended := db.(subscriptions := db.subscriptions[k := CanceledSubscription(db.subscriptions[k], sub, now)]);
      assert Valid(ended) by { SubscriptionSaveKeepsUnique(db.subscriptions, k, ended.subscriptions[k]); }
      PartRecomputedKeepsValid(ended, db.subscriptions[k].userId, now, n - 1);
      assert PartDeleted(db, sub, now, n) == PartRecomputed(ended, db.subscriptions[k].userId, now, n - 1);
    }
  }

  lemma PartInvoiceKeepsValid(db: Db, inv: StripeInvoice, now: Time, n: nat)
    requires Valid(db)
    ensures Valid(PartInvoiceFailed(db, inv, now, n))
  {
    var saved := UpsertInvoice(db, inv, now);
    if inv.id != "" && saved.Some? {
      InvoiceEventsKeepValid(db, inv, now);
      FailPaymentTwice(db.payments, inv.intent);
      PartRecomputedKeepsValid(saved.value.db.(payments := FailPaymentOf(db.payments, inv.intent)), saved.value.userId, now,
                               if n < 2 then 0 else n - 2);
    }
  }

  lemma InterruptedKeepsValid(db: Db, kind: EventKind, o: EventObject, now: Time, n: nat)
    requires Valid(db)
    ensures Valid(Interrupted(db, kind, o, now, n))
  {
    match kind
    case CheckoutCompleted => if o.SessionObject? { PartSessionKeepsValid(db, o.session, n); }
    case CheckoutExpired => if o.SessionObject? { PartSessionKeepsValid(db, o.session, n); }
    case IntentSucceeded => if o.IntentObject? { PartIntentKeepsValid(db, o.intent, now, n); }
    case ChargeRefunded => if o.ChargeObject? { PartChargeKeepsValid(db, o.charge, now, n); }
    case SubscriptionChanged => if o.SubscriptionObject? && n > 0 { PartChangedKeepsValid(db, o.subscription, now, n); }
    case SubscriptionDeleted => if o.SubscriptionObject? && n > 0 { PartDeletedKeepsValid(db, o.subscription, now, n); }
    case InvoicePaymentFailed => if o.InvoiceObject? { PartInvoiceKeepsValid(db, o.invoice, now, n); }
    case _ => HandleKeepsValid(db, kind, o, now);
  }

  lemma HonouredIsOneRow(rows: seq<Entitlement>, userId: int, e: Expected)
    ensures OneRow(rows, Loops.Honoured(rows, userId, e))
  {
    var h := Loops.FindRow(rows, userId, e);
    var after := Loops.Honoured(rows, userId, e);
    if h < |rows| { assert after == rows[h := after[h]]; }
  }

  lemma SettlingIsOneRow(rows: seq<Entitlement>, es: seq<Expected>, userId: int, now: Time, reach: nat)
    ensures OneRow(Loops.Settling(rows, es, userId, now, reach), Loops.Settling(rows, es, userId, now, reach + 1))
  {
    var a, b := Loops.Settling(rows, es, userId, now, reach), Loops.Settling(rows, es, userId, now, reach + 1);
    if reach < |rows| {
      Loops.SettlingStep(rows, es, userId, now, reach, reach + 1);
      assert b == a[reach := b[reach]];
    } else {
      assert a == b;
    }
  }

  lemma SettlingStart(rows: seq<Entitlement>, es: seq<Expected>, userId: int, now: Time)
    ensures Loops.Settling(rows, es, userId, now, 0) == Loops.Midway(rows, es[..|es|], userId)
  {
    assert es[..|es|] == es;
  }

  lemma PartRowsStep(rows: seq<Entitlement>, es: seq<Expected>, userId: int, now: Time, n: nat)
    requires OneRowPerKey(rows) && WellFormed(es)
    ensures OneRow(PartRows(rows, es, userId, now, n), PartRows(rows, es, userId, now, n + 1))
  {
    var a, b := PartRows(rows, es, userId, now, n), PartRows(rows, es, userId, now, n + 1);
    if n < |es| {
      var mid := Loops.Midway(rows, es[..n], userId);
      assert a == mid && b == Loops.Honoured(mid, userId, es[n]) by { Loops.MidwayStep(rows, es, n, userId); }
      HonouredIsOneRow(mid, userId, es[n]);
    } else {
      var reach := n - |es|;
      assert a == Loops.Settling(rows, es, userId, now, reach) by { if reach == 0 { SettlingStart(rows, es, userId, now); } }
      assert b == Loops.Settling(rows, es, userId, now, reach + 1);
      SettlingIsOneRow(rows, es, userId, now, reach);
    }
  }

  lemma PartRowsStart(rows: seq<Entitlement>, es: seq<Expected>, userId: int, now: Time)
    ensures PartRows(rows, es, userId, now, 0) == rows
  {
    assert es[..0] == [];
    assert Loops.Midway(rows, [], userId) == rows;
  }

  lemma PartRowsEnd(rows: seq<Entitlement>, es: seq<Expected>, userId: int, now: Time)
    ensures PartRows(rows, es, userId, now, |es| + |rows| + 1) == RecomputedRows(rows, es, userId, now)
  {
    var a := Loops.Settling(rows, es, userId, now, |rows| + 1);
    assert a[..|rows|] == RecomputedRows(rows, es, userId, now)[..|rows|];
  }

  lemma PartRecomputedStep(db: Db, userId: int, now: Time, n: nat)
    requires Valid(db)
    ensures OneSave(PartRecomputed(db, userId, now, n), PartRecomputed(db, userId, now, n + 1))
    ensures PartRecomputed(db, userId, now, 0) == db
  {
    ExpectedIsWellFormed(db, userId);
    PartRowsStep(db.entitlements, BuildExpected(db, userId), userId, now, n);
    PartRecomputedStart(db, userId, now);
  }

  lemma PartSessionStep(db: Db, s: Session, n: nat)
    requires n > 0
    ensures OneSave(db, PartCompleted(db, s, 1)) && OneSave(db, PartExpired(db, s, 1))
    ensures OneSave(PartCompleted(db, s, n), PartCompleted(db, s, n + 1)) && OneSave(PartExpired(db, s, n), PartExpired(db, s, n + 1))
  {
    CompletedStep(db, s);
    ExpiredStep(db, s);
  }

  lemma CompletedStep(db: Db, s: Session)
    ensures OneSave(db, PartCompleted(db, s, 1)) && OneSave(PartCompleted(db, s, 1), OnCheckoutCompleted(db, s).db)
  {
    var ids := ExtractLocalIds(s.metadata);
    var i := PaymentById(db.payments, OrElse(ids.paymentId, ""));
    var once, twice := PartCompleted(db, s, 1), OnCheckoutCompleted(db, s).db;
    if ids.paymentId.Some? && i < |db.payments| && once != db {
      assert once.payments == db.payments[i := once.payments[i]];
      if twice != once {
        var j := SubscriptionById(db.subscriptions, ids.subscriptionId.value);
        assert twice.subscriptions == once.subscriptions[j := twice.subscriptions[j]];
      }
    }
  }

  lemma ExpiredStep(db: Db, s: Session)
    ensures OneSave(db, PartExpired(db, s, 1)) && OneSave(PartExpired(db, s, 1), OnCheckoutExpired(db, s).db)
  {
    var ids := ExtractLocalIds(s.metadata);
    var i := PaymentById(db.payments, OrElse(ids.paymentId, ""));
    var once, twice := PartExpired(db, s, 1), OnCheckoutExpired(db, s).db;
    if ids.paymentId.Some? && i < |db.payments| {
      assert once.payments == db.payments[i := once.payments[i]];
      if twice != once {
        var j := SubscriptionById(db.subscriptions, ids.subscriptionId.value);
        assert twice.subscriptions == once.subscriptions[j := twice.subscriptions[j]];
      }
    }
  }

  lemma SucceededStep(db: Db, intent: Intent, now: Time, n: nat)
    requires Valid(db)
    ensures n == 0 ==> OneSave(db, PartSucceeded(db, intent, now, 1))
    ensures n > 0 ==> OneSave(PartSucceeded(db, intent, now, n), PartSucceeded(db, intent, now, n + 1))
  {
    var i := PaymentByIntent(db.payments, intent.id);
    if intent.id != "" && i < |db.payments| {
      var paid := PaidBy(db.payments[i], intent);
      var saved := db.(payments := db.payments[i := paid]);
      var booked := saved.(transactions := RecordCharge(db.transactions, intent, paid, now));
      PaymentSaveKeepsUnique(db.payments, i, paid);
      PartRecomputedStep(booked, paid.userId, now, if n < 2 then 0 else n - 2);
      assert saved.payments == db.payments[i := saved.payments[i]];
      assert OneRow(saved.transactions, booked.transactions);
    }
  }

  lemma RefundedStep(db: Db, charge: ChargeInfo, now: Time, n: nat)
    ensures OneSave(if n == 0 then db else PartRefunded(db, charge, now, n), PartRefunded(db, charge, now, n + 1))
  {
    var items, i := OrElse(charge.refunds, []), PaymentByIntent(db.payments, OrElse(charge.intent, ""));
    if Truthy(charge.intent) && i < |db.payments| {
      var p := db.payments[i];
      var before, after := PartRefunded(db, charge, now, n), PartRefunded(db, charge, now, n + 1);
      if n == 0 { assert before.transactions == db.transactions; }
      if n < |items| {
        assert items[..n + 1][..n] == items[..n];
        assert after.transactions == RecordRefund(before.transactions, items[n], p, charge, now);
      } else if n == |items| {
        assert items[..n] == items;
        assert after.payments == db.payments[i := after.payments[i]];
        assert after == before.(payments := after.payments);
      }
    }
  }

  lemma ChangedStep(db: Db, sub: StripeSubscription, now: Time, n: nat)
    requires Valid(db)
    ensures n == 0 ==> OneSave(db, PartChanged(db, sub, now, 1))
    ensures n > 0 ==> OneSave(PartChanged(db, sub, now, n), PartChanged(db, sub, now, n + 1))
  {
    var i := Locate(db.subscriptions, sub);
    if sub.id != "" && i < |db.subscriptions| {
      var saved := db.(subscriptions := db.subscriptions[i := Mirrored(db.subscriptions[i], sub)]);
      MirroringKeepsUnique(db.subscriptions, sub);
      PartRecomputedStep(saved, db.subscriptions[i].userId, now, if n == 0 then 0 else n - 1);
      assert saved.subscriptions == db.subscriptions[i := saved.subscriptions[i]];
    }
  }

  lemma DeletedStep(db: Db, sub: StripeSubscription, now: Time, n: nat)
    requires Valid(db)
    ensures n == 0 ==> OneSave(db, PartDeleted(db, sub, now, 1))
    ensures n > 0 ==> OneSave(PartDeleted(db, sub, now, n), PartDeleted(db, sub, now, n + 1))
  {
    var i := SubscriptionByStripeId(db.subscriptions, sub.id);
    if i < |db.subscriptions| {
      var ended := CanceledSubscription(db.subscriptions[i], sub, now);
      var saved := db.(subscriptions := db.subscriptions[i := ended]);
      SubscriptionSaveKeepsUnique(db.subscriptions, i, ended);
      PartRecomputedStep(saved, db.subscriptions[i].userId, now, if n == 0 then 0 else n - 1);
      assert saved.subscriptions == db.subscriptions[i := saved.subscriptions[i]];
    }
  }

  lemma UpsertIsOneSave(db: Db, inv: StripeInvoice, now: Time)
    requires UpsertInvoice(db, inv, now).Some?
    ensures OneSave(db, UpsertInvoice(db, inv, now).value.db)
  {
    var saved, i := UpsertInvoice(db, inv, now).value.db, InvoiceByStripeId(db.invoices, inv.id);
    if i < |db.invoices| { assert saved.invoices == db.invoices[i := saved.invoices[i]]; }
  }

  lemma FailingIsOneRow(ps: seq<Payment>, intent: Option<string>)
    ensures OneRow(ps, FailPaymentOf(ps, intent))
  {
    var after := FailPaymentOf(ps, intent);
    if after != ps {
      var i := PaymentByIntent(ps, intent.value);
      assert after == ps[i := after[i]];
    }
  }

  lemma InvoiceFailedStep(db: Db, inv: StripeInvoice, now: Time, n: nat)
    requires Valid(db)
    ensures n == 0 ==> OneSave(db, PartInvoiceFailed(db, inv, now, 1))
    ensures n > 0 ==> OneSave(PartInvoiceFailed(db, inv, now, n), PartInvoiceFailed(db, inv, now, n + 1))
  {
    var saved := UpsertInvoice(db, inv, now);
    if inv.id != "" && saved.Some? {
      var failed := saved.value.db.(payments := FailPaymentOf(db.payments, inv.intent));
      InvoiceEventsKeepValid(db, inv, now);
      FailPaymentTwice(db.payments, inv.intent);
      UpsertIsOneSave(db, inv, now);
      FailingIsOneRow(db.payments, inv.intent);
      PartRecomputedStep(failed, saved.value.userId, now, if n < 2 then 0 else n - 2);
    }
  }

  lemma SingleSave(db: Db, kind: EventKind, o: EventObject, now: Time)
    requires kind.IntentFailed? || kind.ChargeSucceeded? || kind.CustomerChanged? || kind.InvoiceLifecycle? || kind.Unhandled?
    ensures OneSave(db, Handle(db, kind, o, now).db)
  {
    var after := Handle(db, kind, o, now).db;
    match kind
    case IntentFailed =>
      if o.IntentObject? && after != db {
        var i := PaymentByIntent(db.payments, o.intent.id);
        assert after.payments == db.payments[i := after.payments[i]];
      }
    case ChargeSucceeded =>
      if o.ChargeObject? && after != db {
        var i := PaymentByIntent(db.payments, o.charge.intent.value);
        assert after.payments == db.payments[i := after.payments[i]];
      }
    case CustomerChanged =>
      if o.CustomerObject? && after != db {
        var i := CustomerByStripeId(db.customers, o.customer.id);
        assert after.customers == db.customers[i := after.customers[i]];
      }
    case InvoiceLifecycle =>
      if o.InvoiceObject? && UpsertInvoice(db, o.invoice, now).Some? { UpsertIsOneSave(db, o.invoice, now); }
    case Unhandled =>
  }

  lemma SubscriptionChangedStep(db: Db, sub: StripeSubscription, now: Time, n: nat)
    requires Valid(db)
    ensures var o := SubscriptionObject(sub);
            OneSave(Interrupted(db, SubscriptionChanged, o, now, n), Interrupted(db, SubscriptionChanged, o, now, n + 1))
  {
    ChangedStep(db, sub, now, n);
  }

  lemma SubscriptionDeletedStep(db: Db, sub: StripeSubscription, now: Time, n: nat)
    requires Valid(db)
    ensures var o := SubscriptionObject(sub);
            OneSave(Interrupted(db, SubscriptionDeleted, o, now, n), Interrupted(db, SubscriptionDeleted, o, now, n + 1))
  {
    DeletedStep(db, sub, now, n);
  }

  lemma PaidOrFailedStep(db: Db, kind: EventKind, o: EventObject, now: Time, n: nat)
    requires Valid(db) && (kind.IntentSucceeded? || kind.InvoicePaymentFailed?)
    ensures OneSave(Interrupted(db, kind, o, now, n), Interrupted(db, kind, o, now, n + 1))
  {
    if kind.IntentSucceeded? && o.IntentObject? { SucceededStep(db, o.intent, now, n); }
    if kind.InvoicePaymentFailed? && o.InvoiceObject? { InvoiceFailedStep(db, o.invoice, now, n); }
  }

  /** One save more changes or appends at most one row of one table. */
  lemma InterruptedStep(db: Db, kind: EventKind, o: EventObject, now: Time, n: nat)
    requires Valid(db)
    ensures Interrupted(db, kind, o, now, 0) == db
    ensures OneSave(Interrupted(db, kind, o, now, n), Interrupted(db, kind, o, now, n + 1))
  {
    match kind
    case CheckoutCompleted => if o.SessionObject? { PartSessionStep(db, o.session, if n == 0 then 1 else n); }
    case CheckoutExpired => if o.SessionObject? { PartSessionStep(db, o.session, if n == 0 then 1 else n); }
    case ChargeRefunded => if o.ChargeObject? { RefundedStep(db, o.charge, now, n); }
    case IntentFailed => if n == 0 { SingleSave(db, kind, o, now); }
    case ChargeSucceeded => if n == 0 { SingleSave(db, kind, o, now); }
    case CustomerChanged => if n == 0 { SingleSave(db, kind, o, now); }
    case InvoiceLifecycle => if n == 0 { SingleSave(db, kind, o, now); }
    case Unhandled => if n == 0 { SingleSave(db, kind, o, now); }
    case IntentSucceeded => PaidOrFailedStep(db, kind, o, now, n);
    case InvoicePaymentFailed => PaidOrFailedStep(db, kind, o, now, n);
    case SubscriptionChanged => if o.SubscriptionObject? { SubscriptionChangedStep(db, o.subscription, now, n); }
    case SubscriptionDeleted => if o.SubscriptionObject? { SubscriptionDeletedStep(db, o.subscription, now, n); }
  }

  lemma PartRecomputedEnds(db: Db, userId: int, now: Time) returns (n: nat)
    ensures PartRecomputed(db, userId, now, n) == Recomputed(db, userId, now)
  {
    n := |BuildExpected(db, userId)| + |db.entitlements| + 1;
    PartRowsEnd(db.entitlements, BuildExpected(db, userId), userId, now);
  }

  lemma SucceededEnds(db: Db, intent: Intent, now: Time) returns (n: nat)
    ensures n > 0 && PartSucceeded(db, intent, now, n) == OnIntentSucceeded(db, intent, now).db
  {
    n := 2;
    var i := PaymentByIntent(db.payments, intent.id);
    if intent.id != "" && i < |db.payments| {
      var paid := PaidBy(db.payments[i], intent);
      var m := PartRecomputedEnds(db.(payments := db.payments[i := paid],
                                      transactions := RecordCharge(db.transactions, intent, paid, now)), paid.userId, now);
      n := m + 2;
    }
  }

  lemma ChangedEnds(db: Db, sub: StripeSubscription, now: Time) returns (n: nat)
    ensures n > 0 && PartChanged(db, sub, now, n) == OnSubscriptionChanged(db, sub, now).db
  {
    n := 1;
    var i := Locate(db.subscriptions, sub);
    if i < |db.subscriptions| {
      var m := PartRecomputedEnds(db.(subscriptions := db.subscriptions[i := Mirrored(db.subscriptions[i], sub)]),
                                  db.subscriptions[i].userId, now);
      n := m + 1;
    }
  }

  lemma DeletedEnds(db: Db, sub: StripeSubscription, now: Time) returns (n: nat)
    ensures n > 0 && PartDeleted(db, sub, now, n) == OnSubscriptionDeleted(db, sub, now).db
  {
    n := 1;
    var i := SubscriptionByStripeId(db.subscriptions, sub.id);
    if i < |db.subscriptions| {
      var m := PartRecomputedEnds(db.(subscriptions := db.subscriptions[i := CanceledSubscription(db.subscriptions[i], sub, now)]),
                                  db.subscriptions[i].userId, now);
      n := m + 1;
    }
  }

  lemma InvoiceFailedEnds(db: Db, inv: StripeInvoice, now: Time) returns (n: nat)
    ensures n > 0 && PartInvoiceFailed(db, inv, now, n) == OnInvoicePaymentFailed(db, inv, now).db
  {
    n := 2;
    if UpsertInvoice(db, inv, now).Some? {
      var saved := UpsertInvoice(db, inv, now).value;
      var m := PartRecomputedEnds(saved.db.(payments := FailPaymentOf(db.payments, inv.intent)), saved.userId, now);
      n := m + 2;
    }
  }

  /** After enough saves the handler is done. */
  lemma InterruptedEnds(db: Db, kind: EventKind, o: EventObject, now: Time)
    ensures exists n: nat :: Interrupted(db, kind, o, now, n) == Handle(db, kind, o, now).db
  {
    var n: nat := 2;
    match kind {
      case IntentSucceeded => if o.IntentObject? { n := SucceededEnds(db, o.intent, now); }
      case ChargeRefunded => if o.ChargeObject? { n := |OrElse(o.charge.refunds, [])| + 1; }
      case SubscriptionChanged => if o.SubscriptionObject? { n := ChangedEnds(db, o.subscription, now); }
      case SubscriptionDeleted => if o.SubscriptionObject? { n := DeletedEnds(db, o.subscription, now); }
      case InvoicePaymentFailed => if o.InvoiceObject? { n := InvoiceFailedEnds(db, o.invoice, now); }
      case _ =>
    }
    assert Interrupted(db, kind, o, now, n) == Handle(db, kind, o, now).db;
  }

  // ---- Any number of failed attempts ----

  /** A dispatch, at its first delivery or at a replay, that failed after so many saves. */
  datatype Attempt = Attempt(at: Time, saves: nat)

  ghost function AfterAttempts(db: Db, kind: EventKind, o: EventObject, attempts: seq<Attempt>): Db {
    if attempts == [] then db
    else
      var last := attempts[|attempts| - 1];
      Interrupted(AfterAttempts(db, kind, o, attempts[..|attempts| - 1]), kind, o, last.at, last.saves)
  }

  function TimesOf(attempts: seq<Attempt>): set<Time> {
    set k | 0 <= k < |attempts| :: attempts[k].at
  }

  /**
   * After any number of attempts, each failed anywhere between its saves, one replay that comes through leaves every
   * table as a single undisturbed dispatch at the replay's time would have, but for stamps an attempt set; its outcome
   * is that dispatch's.
   */
  lemma {:induction false} ReplayHealsInterruptions(db: Db, kind: EventKind, o: EventObject, attempts: seq<Attempt>, later: Time)
    requires Valid(db)
    ensures Valid(AfterAttempts(db, kind, o, attempts))
    ensures var again, clean := Handle(AfterAttempts(db, kind, o, attempts), kind, o, later), Handle(db, kind, o, later);
            again.outcome == clean.outcome && SameTables(again.db, clean.db, TimesOf(attempts), later)
  {
    if attempts != [] {
      var before, last := attempts[..|attempts| - 1], attempts[|attempts| - 1];
      var mid := AfterAttempts(db, kind, o, before);
      ReplayHealsInterruptions(db, kind, o, before, later);
      InterruptedKeepsValid(mid, kind, o, last.at, last.saves);
      ReplayHeals(mid, kind, o, last.at, later, last.saves);
      var again, direct, clean := Handle(Interrupted(mid, kind, o, last.at, last.saves), kind, o, later).db,
                                  Handle(mid, kind, o, later).db, Handle(db, kind, o, later).db;
      assert last.at in TimesOf(attempts);
      assert TimesOf(before) <= TimesOf(attempts) by {
        forall t | t in TimesOf(before) ensures t in TimesOf(attempts) {
          var k :| 0 <= k < |before| && before[k].at == t;
          assert attempts[k].at == t;
        }
      }
      MoreTimes(again, direct, {last.at}, TimesOf(attempts), later);
      SameTablesChain(again, direct, clean, TimesOf(before), TimesOf(attempts), later);
    }
  }

  lemma MoreTimes(a: Db, b: Db, few: set<Time>, times: set<Time>, later: Time)
    requires SameTables(a, b, few, later) && few <= times
    ensures SameTables(a, b, times, later)
  {
  }

  /** In particular every access question is then answered as after that dispatch. */
  lemma ReplayHealsAccess(db: Db, kind: EventKind, o: EventObject, attempts: seq<Attempt>, later: Time,
                          userId: int, featureKey: string, at: Time)
    requires Valid(db)
    ensures CanAccess(Handle(AfterAttempts(db, kind, o, attempts), kind, o, later).db.entitlements, userId, featureKey, at)
         == CanAccess(Handle(db, kind, o, later).db.entitlements, userId, featureKey, at)
  {
    ReplayHealsInterruptions(db, kind, o, attempts, later);
    SameTablesSameAccess(Handle(AfterAttempts(db, kind, o, attempts), kind, o, later).db, Handle(db, kind, o, later).db,
                         TimesOf(attempts), later, userId, featureKey, at);
  }
}
