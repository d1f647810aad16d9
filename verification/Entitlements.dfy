/**
 * What a recompute makes of a user's entitlement rows, stated row by row, and what access follows from it.
 * EntitlementsService holds the loops that are proved to produce exactly these rows.
 */
module Entitlements {
  import opened Model

  datatype Expected = Expected(
    featureKey: string, sourceType: SourceType, sourceId: Uuid, startsAt: Option<Time>, endsAt: Option<Time>)

  predicate Granting(status: SubscriptionStatus) {
    status.Active? || status.Trialing? || status.PastDue?
  }

  // ---- The expected entitlements ----

  function FeaturesOf(plans: map<Uuid, Plan>, planId: Option<Uuid>): seq<string> {
    if planId.Some? && planId.value in plans then plans[planId.value].features else []
  }

  /** A deleted price, like a missing one, leaves the payment without a plan. */
  function PlanOfPayment(prices: map<Uuid, Price>, p: Payment): Option<Uuid> {
    if p.priceId.Some? && p.priceId.value in prices then Some(prices[p.priceId.value].planId) else None
  }

  predicate OneTimePurchase(prices: map<Uuid, Price>, p: Payment, userId: int) {
    p.userId == userId && p.status.Succeeded? &&
    p.priceId.Some? && p.priceId.value in prices && prices[p.priceId.value].priceType.OneTime?
  }

  predicate SubscriptionExpects(s: Subscription, plans: map<Uuid, Plan>, userId: int, e: Expected) {
    s.userId == userId && Granting(s.status) && e.featureKey in FeaturesOf(plans, s.planId) &&
    e == Expected(e.featureKey, BySubscription, s.id, s.periodStart, s.periodEnd)
  }

  predicate PaymentExpects(p: Payment, prices: map<Uuid, Price>, plans: map<Uuid, Plan>, userId: int, e: Expected) {
    OneTimePurchase(prices, p, userId) && e.featureKey in FeaturesOf(plans, PlanOfPayment(prices, p)) &&
    e == Expected(e.featureKey, ByOneTimePayment, p.id, Some(p.createdAt), None)
  }

  function Project(features: seq<string>, sourceType: SourceType, id: Uuid, startsAt: Option<Time>, endsAt: Option<Time>)
    : (r: seq<Expected>)
    ensures forall e :: e in r <==> e.featureKey in features && e == Expected(e.featureKey, sourceType, id, startsAt, endsAt)
  {
    if features == [] then []
    else [Expected(features[0], sourceType, id, startsAt, endsAt)] + Project(features[1..], sourceType, id, startsAt, endsAt)
  }

  function FromSubscriptions(ss: seq<Subscription>, plans: map<Uuid, Plan>, userId: int): seq<Expected> {
    if ss == [] then []
    else
      var s := ss[|ss| - 1];
      var rest := FromSubscriptions(ss[..|ss| - 1], plans, userId);
      if s.userId == userId && Granting(s.status)
      then rest + Project(FeaturesOf(plans, s.planId), BySubscription, s.id, s.periodStart, s.periodEnd)
      else rest
  }

  function FromPayments(ps: seq<Payment>, prices: map<Uuid, Price>, plans: map<Uuid, Plan>, userId: int): seq<Expected> {
    if ps == [] then []
    else
      var p := ps[|ps| - 1];
      var rest := FromPayments(ps[..|ps| - 1], prices, plans, userId);
      if OneTimePurchase(prices, p, userId)
      then rest + Project(FeaturesOf(plans, PlanOfPayment(prices, p)), ByOneTimePayment, p.id, Some(p.createdAt), None)
      else rest
  }

  function BuildExpected(db: Db, userId: int): seq<Expected> {
    FromSubscriptions(db.subscriptions, db.plans, userId) + FromPayments(db.payments, db.prices, db.plans, userId)
  }

  /** `e` is expected exactly when some granting subscription, or some one-time purchase, expects it. */
  lemma {:induction false} SubscriptionsExpect(ss: seq<Subscription>, plans: map<Uuid, Plan>, userId: int, e: Expected)
    ensures e in FromSubscriptions(ss, plans, userId) <==> exists i | 0 <= i < |ss| :: SubscriptionExpects(ss[i], plans, userId, e)
  {
    if ss != [] {
      var n := |ss| - 1;
      SubscriptionsExpect(ss[..n], plans, userId, e);
      assert forall i | 0 <= i < n :: ss[..n][i] == ss[i];
      if SubscriptionExpects(ss[n], plans, userId, e) { assert e in FromSubscriptions(ss, plans, userId); }
    }
  }

  lemma {:induction false} PaymentsExpect(ps: seq<Payment>, prices: map<Uuid, Price>, plans: map<Uuid, Plan>, userId: int, e: Expected)
    ensures e in FromPayments(ps, prices, plans, userId) <==> exists i | 0 <= i < |ps| :: PaymentExpects(ps[i], prices, plans, userId, e)
  {
    if ps != [] {
      var n := |ps| - 1;
      PaymentsExpect(ps[..n], prices, plans, userId, e);
      assert forall i | 0 <= i < n :: ps[..n][i] == ps[i];
      if PaymentExpects(ps[n], prices, plans, userId, e) { assert e in FromPayments(ps, prices, plans, userId); }
    }
  }

  // ---- Rows against expectations ----

  predicate Matches(row: Entitlement, e: Expected) {
    row.featureKey == e.featureKey && row.sourceType == e.sourceType && row.sourceId == Some(e.sourceId)
  }

  predicate HasRow(rows: seq<Entitlement>, userId: int, e: Expected) {
    exists r | r in rows :: r.userId == userId && Matches(r, e)
  }

  /** A list never mentions one source twice with different windows, and never mentions manual grants. */
  predicate WellFormed(es: seq<Expected>) {
    (forall e | e in es :: !e.sourceType.ByManualGrant?) &&
    (forall d, e | d in es && e in es && d.sourceType == e.sourceType && d.sourceId == e.sourceId ::
      d.startsAt == e.startsAt && d.endsAt == e.endsAt)
  }

  lemma ExpectedIsWellFormed(db: Db, userId: int)
    requires Valid(db)
    ensures WellFormed(BuildExpected(db, userId))
  {
    var es := BuildExpected(db, userId);
    forall e { SubscriptionsExpect(db.subscriptions, db.plans, userId, e); }
    forall e { PaymentsExpect(db.payments, db.prices, db.plans, userId, e); }
    forall d, e | d in es && e in es && d.sourceType == e.sourceType && d.sourceId == e.sourceId
      ensures d.startsAt == e.startsAt && d.endsAt == e.endsAt
    {
      if d.sourceType.BySubscription? {
        var i :| 0 <= i < |db.subscriptions| && SubscriptionExpects(db.subscriptions[i], db.plans, userId, d);
        var j :| 0 <= j < |db.subscriptions| && SubscriptionExpects(db.subscriptions[j], db.plans, userId, e);
        assert i == j;
      } else {
        var i :| 0 <= i < |db.payments| && PaymentExpects(db.payments[i], db.prices, db.plans, userId, d);
        var j :| 0 <= j < |db.payments| && PaymentExpects(db.payments[j], db.prices, db.plans, userId, e);
        assert i == j;
      }
    }
  }

  function ExpectedFor(es: seq<Expected>, row: Entitlement): (k: nat)
    ensures k <= |es|
    ensures k < |es| ==> Matches(row, es[k])
    ensures forall j | 0 <= j < k :: !Matches(row, es[j])
  {
    if es == [] || Matches(row, es[0]) then 0 else 1 + ExpectedFor(es[1..], row)
  }

  function Activate(row: Entitlement, e: Expected): Entitlement {
    row.(active := true, startsAt := e.startsAt, endsAt := e.endsAt)
  }

  function NewRow(userId: int, e: Expected): Entitlement {
    Entitlement(userId, e.featureKey, e.sourceType, Some(e.sourceId), true, e.startsAt, e.endsAt)
  }

  /** An existing row once every expectation has been honoured. */
  function Touch(row: Entitlement, es: seq<Expected>, userId: int): Entitlement {
    var k := ExpectedFor(es, row);
    if row.userId == userId && k < |es| then Activate(row, es[k]) else row
  }

  /** An active computed row of the user that nothing expects any more. */
  predicate Stale(row: Entitlement, es: seq<Expected>, userId: int) {
    row.userId == userId && row.active && !row.sourceType.ByManualGrant? && ExpectedFor(es, row) == |es|
  }

  /** What a recompute makes of one existing row. */
  function Reconcile(row: Entitlement, es: seq<Expected>, userId: int, now: Time): Entitlement {
    if Stale(row, es, userId) then row.(active := false, endsAt := Some(now)) else Touch(row, es, userId)
  }

  /** The rows a recompute adds: one per expected key that no row has, in the order first expected. */
  function Inserted(es: seq<Expected>, rows: seq<Entitlement>, userId: int): seq<Entitlement> {
    if es == [] then []
    else
      var rest := Inserted(es[..|es| - 1], rows, userId);
      var e := es[|es| - 1];
      if HasRow(rows + rest, userId, e) then rest else rest + [NewRow(userId, e)]
  }

  function RecomputedRows(rows: seq<Entitlement>, es: seq<Expected>, userId: int, now: Time): (r: seq<Entitlement>)
    ensures |r| >= |rows|
    ensures forall i | 0 <= i < |rows| :: r[i] == Reconcile(rows[i], es, userId, now)
  {
    seq(|rows|, i requires 0 <= i < |rows| => Reconcile(rows[i], es, userId, now)) + Inserted(es, rows, userId)
  }

  function Recomputed(db: Db, userId: int, now: Time): Db {
    db.(entitlements := RecomputedRows(db.entitlements, BuildExpected(db, userId), userId, now))
  }

  // ---- Properties ----

  lemma HasRowInEither(a: seq<Entitlement>, b: seq<Entitlement>, userId: int, e: Expected)
    ensures HasRow(a + b, userId, e) <==> HasRow(a, userId, e) || HasRow(b, userId, e)
  {
    forall r ensures r in a + b <==> r in a || r in b {}
  }

  lemma {:induction false} InsertedOrigin(es: seq<Expected>, rows: seq<Entitlement>, userId: int, row: Entitlement)
    requires row in Inserted(es, rows, userId)
    ensures exists e | e in es :: row == NewRow(userId, e) && !HasRow(rows, userId, e)
  {
    var n := |es| - 1;
    var rest := Inserted(es[..n], rows, userId);
    if row in rest {
      InsertedOrigin(es[..n], rows, userId, row);
      var e :| e in es[..n] && row == NewRow(userId, e) && !HasRow(rows, userId, e);
      assert e in es;
    } else {
      HasRowInEither(rows, rest, userId, es[n]);
      assert es[n] in es;
    }
  }

  lemma {:induction false} InsertedCovers(es: seq<Expected>, rows: seq<Entitlement>, userId: int, e: Expected)
    requires e in es
    ensures HasRow(rows, userId, e) || NewRowIn(Inserted(es, rows, userId), userId, e)
  {
    var n := |es| - 1;
    var rest := Inserted(es[..n], rows, userId);
    if e in es[..n] {
      InsertedCovers(es[..n], rows, userId, e);
    } else {
      assert e == es[n];
      HasRowInEither(rows, rest, userId, e);
      if HasRow(rest, userId, e) {
        var r :| r in rest && r.userId == userId && Matches(r, e);
        InsertedOrigin(es[..n], rows, userId, r);
        var d :| d in es[..n] && r == NewRow(userId, d);
        assert NewRow(userId, d) in Inserted(es, rows, userId);
      } else if !HasRow(rows, userId, e) {
        assert NewRow(userId, e) in Inserted(es, rows, userId);
      }
    }
  }

  /** A new row for an expectation with the same key as `e`. */
  ghost predicate NewRowIn(rows: seq<Entitlement>, userId: int, e: Expected) {
    exists d: Expected :: NewRow(userId, d) in rows && Matches(NewRow(userId, d), e)
  }

  lemma {:induction false} InsertedDistinct(es: seq<Expected>, rows: seq<Entitlement>, userId: int)
    ensures OneRowPerKey(Inserted(es, rows, userId))
  {
    if es != [] {
      var n := |es| - 1;
      var rest := Inserted(es[..n], rows, userId);
      InsertedDistinct(es[..n], rows, userId);
      HasRowInEither(rows, rest, userId, es[n]);
      assert forall i | 0 <= i < |rest| :: rest[i] in rest;
    }
  }

  /** The one-row-per-key rule survives, even when a plan lists a feature twice. */
  lemma RecomputeKeepsOneRowPerKey(rows: seq<Entitlement>, es: seq<Expected>, userId: int, now: Time)
    requires OneRowPerKey(rows)
    ensures OneRowPerKey(RecomputedRows(rows, es, userId, now))
  {
    InsertedDistinct(es, rows, userId);
    var r, added := RecomputedRows(rows, es, userId, now), Inserted(es, rows, userId);
    assert forall i | 0 <= i < |rows| :: SameKey(r[i], rows[i]);
    forall i, j | 0 <= i < |rows| <= j < |r|
      ensures !SameKey(r[i], r[j])
    {
      assert r[j] == added[j - |rows|];
      InsertedOrigin(es, rows, userId, r[j]);
      assert rows[i] in rows;
    }
  }

  /** An active computed row of the user is the row some expectation asks for, window included. */
  lemma ActiveRowIsExpected(rows: seq<Entitlement>, es: seq<Expected>, userId: int, now: Time, row: Entitlement)
    requires row in RecomputedRows(rows, es, userId, now)
    requires row.userId == userId && row.active && !row.sourceType.ByManualGrant?
    ensures exists e | e in es :: row == NewRow(userId, e)
  {
    var r := RecomputedRows(rows, es, userId, now);
    var i :| 0 <= i < |r| && r[i] == row;
    if i < |rows| {
      var k := ExpectedFor(es, rows[i]);
      assert k < |es|;
      assert es[k] in es && row == NewRow(userId, es[k]);
    } else {
      InsertedOrigin(es, rows, userId, row);
    }
  }

  /** Every expectation ends up with its active row. */
  lemma ExpectedIsActive(rows: seq<Entitlement>, es: seq<Expected>, userId: int, now: Time, e: Expected)
    requires WellFormed(es) && e in es
    ensures NewRow(userId, e) in RecomputedRows(rows, es, userId, now)
  {
    var r, added := RecomputedRows(rows, es, userId, now), Inserted(es, rows, userId);
    InsertedCovers(es, rows, userId, e);
    if HasRow(rows, userId, e) {
      var i :| 0 <= i < |rows| && rows[i].userId == userId && Matches(rows[i], e);
      var k := ExpectedFor(es, rows[i]);
      var j :| 0 <= j < |es| && es[j] == e;
      assert k <= j && es[k] in es;
      assert r[i] == NewRow(userId, e);
    } else {
      var d: Expected :| NewRow(userId, d) in added && Matches(NewRow(userId, d), e);
      InsertedOrigin(es, rows, userId, NewRow(userId, d));
      var c :| c in es && NewRow(userId, d) == NewRow(userId, c);
      assert NewRow(userId, d) in r;
    }
  }

  /** After a recompute the user's active computed rows are the expected ones, windows included, and no others. */
  lemma ActiveRowsAreTheExpectedOnes(rows: seq<Entitlement>, es: seq<Expected>, userId: int, now: Time, row: Entitlement)
    requires WellFormed(es)
    requires row.userId == userId && row.active && !row.sourceType.ByManualGrant?
    ensures row in RecomputedRows(rows, es, userId, now) <==> exists e | e in es :: row == NewRow(userId, e)
  {
    if row in RecomputedRows(rows, es, userId, now) {
      ActiveRowIsExpected(rows, es, userId, now, row);
    }
    if exists e | e in es :: row == NewRow(userId, e) {
      var e :| e in es && row == NewRow(userId, e);
      ExpectedIsActive(rows, es, userId, now, e);
    }
  }

  /** Manual grants and other users' rows are left exactly as they were, in place, and none is created. */
  lemma RecomputeLeavesOthersAlone(rows: seq<Entitlement>, es: seq<Expected>, userId: int, now: Time, i: nat)
    requires WellFormed(es)
    requires i < |RecomputedRows(rows, es, userId, now)|
    requires var row := RecomputedRows(rows, es, userId, now)[i]; row.userId != userId || row.sourceType.ByManualGrant?
    ensures i < |rows| && RecomputedRows(rows, es, userId, now)[i] == rows[i]
  {
    var row := RecomputedRows(rows, es, userId, now)[i];
    if i >= |rows| {
      assert row == Inserted(es, rows, userId)[i - |rows|];
      InsertedOrigin(es, rows, userId, row);
      assert false;
    } else {
      var k := ExpectedFor(es, rows[i]);
      assert k < |es| ==> es[k] in es;
    }
  }

  /** Nothing is inserted when every expected key already has its row. */
  lemma {:induction false} NothingMissing(es: seq<Expected>, rows: seq<Entitlement>, userId: int)
    requires forall e | e in es :: HasRow(rows, userId, e)
    ensures Inserted(es, rows, userId) == []
  {
    if es != [] {
      NothingMissing(es[..|es| - 1], rows, userId);
      assert es[|es| - 1] in es;
      assert rows + [] == rows;
    }
  }

  /** No existing row wants changing any more. */
  lemma NoRowWantsChanging(rows: seq<Entitlement>, es: seq<Expected>, userId: int, now: Time, later: Time, i: nat)
    requires WellFormed(es) && i < |RecomputedRows(rows, es, userId, now)|
    ensures var row := RecomputedRows(rows, es, userId, now)[i];
            Reconcile(row, es, userId, later) == row && !Stale(row, es, userId)
  {
    var row := RecomputedRows(rows, es, userId, now)[i];
    var k := ExpectedFor(es, row);
    if i < |rows| {
      SameExpectation(es, rows[i], row);
    } else {
      assert row == Inserted(es, rows, userId)[i - |rows|];
      InsertedOrigin(es, rows, userId, row);
      var e :| e in es && row == NewRow(userId, e);
      var j :| 0 <= j < |es| && es[j] == e;
      assert Matches(row, es[j]);
      assert es[k] in es && es[j] in es;
    }
  }

  /** A second recompute, at any later time, changes nothing, keeps every expectation and finds nothing stale. */
  lemma RecomputeTwice(rows: seq<Entitlement>, es: seq<Expected>, userId: int, now: Time, later: Time)
    requires WellFormed(es)
    ensures var r := RecomputedRows(rows, es, userId, now);
            && RecomputedRows(r, es, userId, later) == r
            && (forall n | 0 <= n < |es| :: HasActiveRow(r, userId, es[n]))
            && (forall i | 0 <= i < |r| :: !Stale(r[i], es, userId))
  {
    var r := RecomputedRows(rows, es, userId, now);
    forall e | e in es
      ensures HasRow(r, userId, e) && HasActiveRow(r, userId, e)
    {
      ExpectedIsActive(rows, es, userId, now, e);
    }
    NothingMissing(es, r, userId);
    forall i | 0 <= i < |r|
      ensures Reconcile(r[i], es, userId, later) == r[i] && !Stale(r[i], es, userId)
    {
      NoRowWantsChanging(rows, es, userId, now, later, i);
    }
  }

  lemma SameExpectation(es: seq<Expected>, a: Entitlement, b: Entitlement)
    requires SameKey(a, b)
    ensures ExpectedFor(es, a) == ExpectedFor(es, b)
  {
    assert forall k | 0 <= k < |es| :: Matches(a, es[k]) == Matches(b, es[k]);
  }

  predicate HasActiveRow(rows: seq<Entitlement>, userId: int, e: Expected) {
    exists r | r in rows :: r.userId == userId && r.active && Matches(r, e)
  }

  // ---- Access ----

  /** Twenty-four hours of tolerance for clock drift and late deliveries. */
  const ACCESS_GRACE: Time := 24 * 60 * 60 * 1000

  predicate WindowOpen(endsAt: Option<Time>, at: Time) {
    endsAt.None? || endsAt.value > at - ACCESS_GRACE
  }

  function CanAccess(rows: seq<Entitlement>, userId: int, featureKey: string, at: Time): bool {
    userId > 0 && featureKey != "" &&
    exists r | r in rows :: r.userId == userId && r.featureKey == featureKey && r.active && WindowOpen(r.endsAt, at)
  }

  /** Nobody without a user id gets access, nor to a feature without a name; a row lets in until a day after its end. */
  lemma AccessExactlyWhen(rows: seq<Entitlement>, userId: int, featureKey: string, at: Time)
    ensures CanAccess(rows, userId, featureKey, at) <==>
            userId >= 1 && |featureKey| >= 1 &&
            exists k | 0 <= k < |rows| ::
              rows[k].userId == userId && rows[k].featureKey == featureKey && rows[k].active &&
              (rows[k].endsAt.Some? ==> rows[k].endsAt.value + 86_400_000 > at)
  {
    if k :| 0 <= k < |rows| && rows[k].userId == userId && rows[k].featureKey == featureKey && rows[k].active &&
            (rows[k].endsAt.Some? ==> rows[k].endsAt.value + 86_400_000 > at) {
      assert rows[k] in rows && WindowOpen(rows[k].endsAt, at);
    }
  }

  predicate SubscriptionGrants(db: Db, s: Subscription, userId: int, featureKey: string, at: Time) {
    s.userId == userId && Granting(s.status) && featureKey in FeaturesOf(db.plans, s.planId) && WindowOpen(s.periodEnd, at)
  }

  predicate PaymentGrants(db: Db, p: Payment, userId: int, featureKey: string) {
    OneTimePurchase(db.prices, p, userId) && featureKey in FeaturesOf(db.plans, PlanOfPayment(db.prices, p))
  }

  predicate ManuallyGranted(rows: seq<Entitlement>, userId: int, featureKey: string, at: Time) {
    exists r | r in rows ::
      r.userId == userId && r.featureKey == featureKey && r.active && r.sourceType.ByManualGrant? && WindowOpen(r.endsAt, at)
  }

  /** Access read off the billing state itself, without the entitlement index. */
  predicate Entitled(db: Db, userId: int, featureKey: string, at: Time) {
    (exists s | s in db.subscriptions :: SubscriptionGrants(db, s, userId, featureKey, at)) ||
    (exists p | p in db.payments :: PaymentGrants(db, p, userId, featureKey)) ||
    ManuallyGranted(db.entitlements, userId, featureKey, at)
  }

  lemma AccessComesFromBilling(db: Db, userId: int, now: Time, featureKey: string, at: Time)
    requires Valid(db)
    requires CanAccess(Recomputed(db, userId, now).entitlements, userId, featureKey, at)
    ensures Entitled(db, userId, featureKey, at)
  {
    var es, rows := BuildExpected(db, userId), Recomputed(db, userId, now).entitlements;
    ExpectedIsWellFormed(db, userId);
    var i :| 0 <= i < |rows| && rows[i].userId == userId && rows[i].featureKey == featureKey && rows[i].active
             && WindowOpen(rows[i].endsAt, at);
    if rows[i].sourceType.ByManualGrant? {
      RecomputeLeavesOthersAlone(db.entitlements, es, userId, now, i);
    } else {
      ActiveRowIsExpected(db.entitlements, es, userId, now, rows[i]);
      var e :| e in es && rows[i] == NewRow(userId, e);
      SubscriptionsExpect(db.subscriptions, db.plans, userId, e);
      PaymentsExpect(db.payments, db.prices, db.plans, userId, e);
      if k :| 0 <= k < |db.subscriptions| && SubscriptionExpects(db.subscriptions[k], db.plans, userId, e) {
        assert SubscriptionGrants(db, db.subscriptions[k], userId, featureKey, at);
      } else {
        var k :| 0 <= k < |db.payments| && PaymentExpects(db.payments[k], db.prices, db.plans, userId, e);
        assert PaymentGrants(db, db.payments[k], userId, featureKey);
      }
    }
  }

  /** An expectation whose window is open gives access to its feature. */
  lemma ExpectationGivesAccess(db: Db, userId: int, now: Time, e: Expected, at: Time)
    requires Valid(db) && userId > 0 && e.featureKey != "" && WindowOpen(e.endsAt, at)
    requires e in BuildExpected(db, userId)
    ensures CanAccess(Recomputed(db, userId, now).entitlements, userId, e.featureKey, at)
  {
    ExpectedIsWellFormed(db, userId);
    ExpectedIsActive(db.entitlements, BuildExpected(db, userId), userId, now, e);
  }

  lemma BillingGivesAccess(db: Db, userId: int, now: Time, featureKey: string, at: Time)
    requires Valid(db) && userId > 0 && featureKey != "" && Entitled(db, userId, featureKey, at)
    ensures CanAccess(Recomputed(db, userId, now).entitlements, userId, featureKey, at)
  {
    var es, rows := BuildExpected(db, userId), Recomputed(db, userId, now).entitlements;
    if k :| 0 <= k < |db.subscriptions| && SubscriptionGrants(db, db.subscriptions[k], userId, featureKey, at) {
      var s := db.subscriptions[k];
      var e := Expected(featureKey, BySubscription, s.id, s.periodStart, s.periodEnd);
      assert SubscriptionExpects(s, db.plans, userId, e);
      SubscriptionsExpect(db.subscriptions, db.plans, userId, e);
      ExpectationGivesAccess(db, userId, now, e, at);
    } else if k :| 0 <= k < |db.payments| && PaymentGrants(db, db.payments[k], userId, featureKey) {
      var p := db.payments[k];
      var e := Expected(featureKey, ByOneTimePayment, p.id, Some(p.createdAt), None);
      assert PaymentExpects(p, db.prices, db.plans, userId, e);
      PaymentsExpect(db.payments, db.prices, db.plans, userId, e);
      ExpectationGivesAccess(db, userId, now, e, at);
    } else {
      var i :| 0 <= i < |db.entitlements| && db.entitlements[i].userId == userId
               && db.entitlements[i].featureKey == featureKey && db.entitlements[i].active
               && db.entitlements[i].sourceType.ByManualGrant? && WindowOpen(db.entitlements[i].endsAt, at);
      ExpectedIsWellFormed(db, userId);
      assert rows[i].userId == userId && rows[i].sourceType.ByManualGrant?;
      RecomputeLeavesOthersAlone(db.entitlements, es, userId, now, i);
      assert rows[i] in rows;
    }
  }

  /** The index a recompute leaves behind answers every access question as the billing state does. */
  lemma AccessAfterRecompute(db: Db, userId: int, now: Time, featureKey: string, at: Time)
    requires Valid(db) && userId > 0 && featureKey != ""
    ensures CanAccess(Recomputed(db, userId, now).entitlements, userId, featureKey, at)
            <==> Entitled(db, userId, featureKey, at)
  {
    if CanAccess(Recomputed(db, userId, now).entitlements, userId, featureKey, at) {
      AccessComesFromBilling(db, userId, now, featureKey, at);
    }
    if Entitled(db, userId, featureKey, at) {
      BillingGivesAccess(db, userId, now, featureKey, at);
    }
  }

  // ---- The rows, spelled out ----

  /** Subscription `s` grants the row's feature to the row's user, and is the row's source. */
  predicate EarnedBySubscription(row: Entitlement, s: Subscription, plans: map<Uuid, Plan>) {
    row.sourceType.BySubscription? && row.sourceId == Some(s.id) && row.userId == s.userId &&
    (s.status.Active? || s.status.Trialing? || s.status.PastDue?) &&
    s.planId.Some? && s.planId.value in plans && row.featureKey in plans[s.planId.value].features
  }

  /** Payment `p` bought the row's feature for the row's user, and is the row's source. */
  predicate EarnedByPayment(row: Entitlement, p: Payment, prices: map<Uuid, Price>, plans: map<Uuid, Plan>) {
    row.sourceType.ByOneTimePayment? && row.sourceId == Some(p.id) && row.userId == p.userId && p.status.Succeeded? &&
    p.priceId.Some? && p.priceId.value in prices && prices[p.priceId.value].priceType.OneTime? &&
    prices[p.priceId.value].planId in plans && row.featureKey in plans[prices[p.priceId.value].planId].features
  }

  predicate Earned(row: Entitlement, db: Db) {
    (exists i | 0 <= i < |db.subscriptions| :: EarnedBySubscription(row, db.subscriptions[i], db.plans)) ||
    (exists i | 0 <= i < |db.payments| :: EarnedByPayment(row, db.payments[i], db.prices, db.plans))
  }

  /** It is earned, and open for the period of the subscription that earns it, or from its payment on for good. */
  predicate EarnedAndOpen(row: Entitlement, db: Db) {
    (exists i | 0 <= i < |db.subscriptions| :: EarnedBySubscription(row, db.subscriptions[i], db.plans) &&
      row.startsAt == db.subscriptions[i].periodStart && row.endsAt == db.subscriptions[i].periodEnd) ||
    (exists i | 0 <= i < |db.payments| :: EarnedByPayment(row, db.payments[i], db.prices, db.plans) &&
      row.startsAt == Some(db.payments[i].createdAt) && row.endsAt.None?)
  }

  /** The row asked for by an expectation is earned and open as billing has it. */
  lemma ExpectedIsEarned(row: Entitlement, db: Db, e: Expected)
    requires e in BuildExpected(db, row.userId) && Matches(row, e) && row.startsAt == e.startsAt && row.endsAt == e.endsAt
    ensures Earned(row, db) && EarnedAndOpen(row, db)
  {
    SubscriptionsExpect(db.subscriptions, db.plans, row.userId, e);
    PaymentsExpect(db.payments, db.prices, db.plans, row.userId, e);
    if k :| 0 <= k < |db.subscriptions| && SubscriptionExpects(db.subscriptions[k], db.plans, row.userId, e) {
      assert EarnedBySubscription(row, db.subscriptions[k], db.plans);
    } else {
      var k :| 0 <= k < |db.payments| && PaymentExpects(db.payments[k], db.prices, db.plans, row.userId, e);
      assert EarnedByPayment(row, db.payments[k], db.prices, db.plans);
    }
  }

  /** And an earned row is asked for, with the window it is open for if it is. */
  lemma EarnedIsExpected(row: Entitlement, db: Db)
    requires Earned(row, db)
    ensures exists e | e in BuildExpected(db, row.userId) :: Matches(row, e) &&
              (EarnedAndOpen(row, db) ==> row.startsAt == e.startsAt && row.endsAt == e.endsAt)
  {
    var open := EarnedAndOpen(row, db);
    if i :| 0 <= i < |db.subscriptions| && EarnedBySubscription(row, db.subscriptions[i], db.plans) &&
            (open ==> row.startsAt == db.subscriptions[i].periodStart && row.endsAt == db.subscriptions[i].periodEnd) {
      var s := db.subscriptions[i];
      var e := Expected(row.featureKey, BySubscription, s.id, s.periodStart, s.periodEnd);
      assert SubscriptionExpects(s, db.plans, row.userId, e);
      SubscriptionsExpect(db.subscriptions, db.plans, row.userId, e);
      assert Matches(row, e);
    } else {
      var i :| 0 <= i < |db.payments| && EarnedByPayment(row, db.payments[i], db.prices, db.plans) &&
               (open ==> row.startsAt == Some(db.payments[i].createdAt) && row.endsAt.None?);
      var p := db.payments[i];
      var e := Expected(row.featureKey, ByOneTimePayment, p.id, Some(p.createdAt), None);
      assert PaymentExpects(p, db.prices, db.plans, row.userId, e);
      PaymentsExpect(db.payments, db.prices, db.plans, row.userId, e);
      assert Matches(row, e);
    }
  }

  /**
   * After a recompute an active row of the user's that is no manual grant is there exactly when a subscription or a
   * payment earns it, and it starts and ends as that one says.
   */
  lemma ActiveRowsAreEarned(db: Db, userId: int, now: Time, row: Entitlement)
    requires Valid(db) && row.userId == userId && row.active && !row.sourceType.ByManualGrant?
    ensures row in Recomputed(db, userId, now).entitlements <==> EarnedAndOpen(row, db)
  {
    var es := BuildExpected(db, userId);
    ExpectedIsWellFormed(db, userId);
    ActiveRowsAreTheExpectedOnes(db.entitlements, es, userId, now, row);
    if EarnedAndOpen(row, db) {
      EarnedIsExpected(row, db);
      var e :| e in es && Matches(row, e) && row.startsAt == e.startsAt && row.endsAt == e.endsAt;
      assert row == NewRow(userId, e);
    }
    if e :| e in es && row == NewRow(userId, e) { ExpectedIsEarned(row, db, e); }
  }

  /** What a recompute at `now` makes of a row that was there, told from the billing rows. */
  predicate RowSettled(was: Entitlement, row: Entitlement, db: Db, userId: int, now: Time) {
    SameKey(row, was) &&
    if was.userId != userId || was.sourceType.ByManualGrant? then row == was
    else if Earned(was, db) then row.active && EarnedAndOpen(row, db)
    else if was.active then row == was.(active := false, endsAt := Some(now))
    else row == was
  }

  /**
   * The index of `db` settles `rows` for the user: the old rows one by one, new ones the user's own, and of the user's
   * active rows that are no manual grants exactly the earned ones.
   */
  ghost predicate IndexSettled(rows: seq<Entitlement>, db: Db, userId: int, now: Time) {
    |rows| <= |db.entitlements| &&
    (forall k | 0 <= k < |rows| :: RowSettled(rows[k], db.entitlements[k], db, userId, now)) &&
    (forall k | |rows| <= k < |db.entitlements| ::
      db.entitlements[k].userId == userId && db.entitlements[k].active && !db.entitlements[k].sourceType.ByManualGrant?) &&
    (forall row: Entitlement | row.userId == userId && row.active && !row.sourceType.ByManualGrant? ::
      row in db.entitlements <==> EarnedAndOpen(row, db))
  }

  lemma RecomputeSettlesRow(db: Db, userId: int, now: Time, k: nat)
    requires Valid(db) && k < |db.entitlements|
    ensures RowSettled(db.entitlements[k], Recomputed(db, userId, now).entitlements[k], db, userId, now)
  {
    var was, es := db.entitlements[k], BuildExpected(db, userId);
    var row := Recomputed(db, userId, now).entitlements[k];
    ExpectedIsWellFormed(db, userId);
    if was.userId != userId || was.sourceType.ByManualGrant? {
      assert SameKey(row, was);
      RecomputeLeavesOthersAlone(db.entitlements, es, userId, now, k);
    } else {
      var j := ExpectedFor(es, was);
      if j < |es| {
        assert es[j] in es && Matches(row, es[j]);
        ExpectedIsEarned(row, db, es[j]);
        SameKeySameEarnings(row, was, db);
      } else if Earned(was, db) {
        EarnedIsExpected(was, db);
        assert false;
      }
    }
  }

  lemma SameKeySameEarnings(a: Entitlement, b: Entitlement, db: Db)
    requires SameKey(a, b)
    ensures Earned(a, db) <==> Earned(b, db)
  {
    assert forall s: Subscription :: EarnedBySubscription(a, s, db.plans) == EarnedBySubscription(b, s, db.plans);
    assert forall p: Payment :: EarnedByPayment(a, p, db.prices, db.plans) == EarnedByPayment(b, p, db.prices, db.plans);
  }

  /** A recompute settles every row of the table, and adds what is earned and missing. */
  lemma RecomputeSettles(db: Db, userId: int, now: Time)
    requires Valid(db)
    ensures IndexSettled(db.entitlements, Recomputed(db, userId, now), userId, now)
  {
    var rows, after := db.entitlements, Recomputed(db, userId, now);
    ExpectedIsWellFormed(db, userId);
    forall k | 0 <= k < |rows| ensures RowSettled(rows[k], after.entitlements[k], after, userId, now) {
      RecomputeSettlesRow(db, userId, now, k);
      SameBillingSameEarnings(rows[k], db, after);
      SameBillingSameEarnings(after.entitlements[k], db, after);
    }
    forall k | |rows| <= k < |after.entitlements|
      ensures var row := after.entitlements[k]; row.userId == userId && row.active && !row.sourceType.ByManualGrant?
    {
      assert after.entitlements[k] == Inserted(BuildExpected(db, userId), rows, userId)[k - |rows|];
      InsertedOrigin(BuildExpected(db, userId), rows, userId, after.entitlements[k]);
    }
    forall row: Entitlement | row.userId == userId && row.active && !row.sourceType.ByManualGrant?
      ensures row in after.entitlements <==> EarnedAndOpen(row, after)
    {
      ActiveRowsAreEarned(db, userId, now, row);
      SameBillingSameEarnings(row, db, after);
    }
  }

  lemma SameBillingSameEarnings(row: Entitlement, a: Db, b: Db)
    requires a.subscriptions == b.subscriptions && a.payments == b.payments && a.plans == b.plans && a.prices == b.prices
    ensures Earned(row, a) <==> Earned(row, b)
    ensures EarnedAndOpen(row, a) <==> EarnedAndOpen(row, b)
  {
  }

  // ---- The joined key of the removal test ----

  function TypeName(t: SourceType): string {
    match t
    case BySubscription => "subscription"
    case ByOneTimePayment => "one_time_payment"
    case ByManualGrant => "manual"
  }

  function JoinedKey(featureKey: string, sourceType: SourceType, sourceId: Option<Uuid>): string {
    featureKey + "|" + TypeName(sourceType) + "|" + (if sourceId.Some? then sourceId.value else "null")
  }

  lemma LastBar(a: string, x: string, b: string, y: string)
    requires a + "|" + x == b + "|" + y && '|' !in x && '|' !in y
    ensures a == b && x == y
  {
    var whole := a + "|" + x;
    assert whole[|a|] == '|' && whole[|b|] == '|';
    assert forall k | |a| < k < |whole| :: whole[k] == x[k - |a| - 1];
    assert forall k | |b| < k < |whole| :: whole[k] == y[k - |b| - 1];
    assert |a| == |b|;
    assert a == whole[..|a|] && x == whole[|a| + 1..];
    assert b == whole[..|b|] && y == whole[|b| + 1..];
  }

  /** Bars inside feature keys never make the joined key ambiguous. */
  lemma JoinedKeyIsInjective(f: string, s: SourceType, i: Option<Uuid>, g: string, t: SourceType, j: Option<Uuid>)
    requires JoinedKey(f, s, i) == JoinedKey(g, t, j)
    ensures f == g && s == t && i == j
  {
    var x, y := if i.Some? then i.value else "null", if j.Some? then j.value else "null";
    assert JoinedKey(f, s, i) == (f + "|" + TypeName(s)) + "|" + x;
    assert JoinedKey(g, t, j) == (g + "|" + TypeName(t)) + "|" + y;
    LastBar(f + "|" + TypeName(s), x, g + "|" + TypeName(t), y);
    LastBar(f, TypeName(s), g, TypeName(t));
    assert |x| == |y|;
    assert |"subscription"| == 12 && |"one_time_payment"| == 16 && |"manual"| == 6;
  }
}
