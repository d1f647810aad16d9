/** Binding a checkout shell to its Stripe subscription: the completion notice may fall anywhere among the others. */
module CheckoutBinding {
  import opened Model
  import opened Snapshots
  import opened Entitlements
  import opened Handlers
  import opened HandlerInvariants

  /** A subscription event: the snapshot, whether it announces the end, and the time it is handled at. */
  datatype SubscriptionEvent = SubscriptionEvent(sub: StripeSubscription, deleted: bool, at: Time)

  function Apply(db: Db, e: SubscriptionEvent): Db {
    if e.deleted then OnSubscriptionDeleted(db, e.sub, e.at).db else OnSubscriptionChanged(db, e.sub, e.at).db
  }

  function Completing(s: Session): Db -> Db { db => OnCheckoutCompleted(db, s).db }

  function ApplyAll(db: Db, es: seq<SubscriptionEvent>): Db { Fold(Apply, db, es) }

  /** The events in order, with the session's completion handled just before the `k`th of them. */
  function WithCompletionAt(db: Db, es: seq<SubscriptionEvent>, k: nat, s: Session): Db
    requires k <= |es|
  {
    FoldWith(Apply, Completing(s), db, es, k)
  }

  // ---- Steps in any order with one other ----

  function Fold<S, E>(step: (S, E) -> S, x: S, es: seq<E>): S
    decreases es
  {
    if es == [] then x else Fold(step, step(x, es[0]), es[1..])
  }

  /** The steps in order, with `once` done just before the `k`th of them. */
  function FoldWith<S, E>(step: (S, E) -> S, once: S -> S, x: S, es: seq<E>, k: nat): S
    requires k <= |es|
    decreases k
  {
    if k == 0 then Fold(step, once(x), es) else FoldWith(step, once, step(x, es[0]), es[1..], k - 1)
  }

  /** Each step, where it comes, can change places with `once`. */
  predicate AllSwap<S(==), E>(step: (S, E) -> S, once: S -> S, x: S, es: seq<E>)
    decreases es
  {
    es == [] || (step(once(x), es[0]) == once(step(x, es[0])) && AllSwap(step, once, step(x, es[0]), es[1..]))
  }

  lemma {:induction false} SwappingMayWait<S, E>(step: (S, E) -> S, once: S -> S, x: S, es: seq<E>, k: nat)
    requires AllSwap(step, once, x, es) && k <= |es|
    ensures FoldWith(step, once, x, es, k) == Fold(step, once(x), es)
    decreases k
  {
    if k > 0 { SwappingMayWait(step, once, step(x, es[0]), es[1..], k - 1); }
  }

  /**
   * Payment `i` and subscription `j` are the shell the session was opened for: its metadata names both, it
   * carries a real subscription id, nothing else holds the ids it brings, and the price is a recurring one.
   */
  predicate Shell(db: Db, s: Session, i: nat, j: nat) {
    i < |db.payments| && j < |db.subscriptions| && s.mode == "subscription" &&
    ExtractLocalIds(s.metadata) == LocalIds(Some(db.payments[i].id), Some(db.subscriptions[j].id)) &&
    Truthy(IdOf(s.subscription)) && !IsPlaceholder(IdOf(s.subscription).value) &&
    (IsPlaceholder(db.subscriptions[j].stripeId) || Bound(db, s, j)) &&
    !PaymentClash(db.payments, i, CompletedPayment(db.payments[i], s)) &&
    !SubscriptionClash(db.subscriptions, j, BoundSubscription(db.subscriptions[j], s, IdOf(s.subscription).value)) &&
    !(db.payments[i].priceId.Some? && db.payments[i].priceId.value in db.prices &&
      db.prices[db.payments[i].priceId.value].priceType.OneTime?)
  }

  predicate Bound(db: Db, s: Session, j: nat)
    requires j < |db.subscriptions|
  {
    Some(db.subscriptions[j].stripeId) == IdOf(s.subscription)
  }

  /** The event is about the session's subscription, and reaches the shell as things stand. */
  predicate Reaches(db: Db, s: Session, j: nat, e: SubscriptionEvent)
    requires j < |db.subscriptions|
  {
    Some(e.sub.id) == IdOf(s.subscription) &&
    (Bound(db, s, j) || (!e.deleted && Locate(db.subscriptions, e.sub) == j))
  }

  // ---- Neither side of the commutation changes what the recompute expects ----

  lemma {:induction false} SamePaymentExpectations(a: seq<Payment>, b: seq<Payment>, prices: map<Uuid, Price>, plans: map<Uuid, Plan>, userId: int)
    requires |a| == |b|
    requires forall k | 0 <= k < |a| ::
      (a[k] == b[k] || (!OneTimePurchase(prices, a[k], userId) && !OneTimePurchase(prices, b[k], userId)))
    ensures FromPayments(a, prices, plans, userId) == FromPayments(b, prices, plans, userId)
  {
    if a != [] {
      SamePaymentExpectations(a[..|a| - 1], b[..|b| - 1], prices, plans, userId);
    }
  }

  lemma {:induction false} SameSubscriptionExpectations(a: seq<Subscription>, b: seq<Subscription>, plans: map<Uuid, Plan>, userId: int)
    requires |a| == |b|
    requires forall k | 0 <= k < |a| :: a[k].(stripeId := "", sessionId := None) == b[k].(stripeId := "", sessionId := None)
    ensures FromSubscriptions(a, plans, userId) == FromSubscriptions(b, plans, userId)
  {
    if a != [] {
      SameSubscriptionExpectations(a[..|a| - 1], b[..|b| - 1], plans, userId);
      var x, y := a[|a| - 1], b[|a| - 1];
      assert x.(stripeId := "", sessionId := None) == y.(stripeId := "", sessionId := None);
      assert x.id == x.(stripeId := "", sessionId := None).id && x.userId == x.(stripeId := "", sessionId := None).userId;
      assert x.status == x.(stripeId := "", sessionId := None).status && x.planId == x.(stripeId := "", sessionId := None).planId;
    }
  }

  // ---- One step ----

  /** What a completion makes of its own shell. */
  function Completed(db: Db, s: Session, i: nat, j: nat): Db
    requires Shell(db, s, i, j)
  {
    db.(payments := db.payments[i := CompletedPayment(db.payments[i], s)],
        subscriptions := db.subscriptions[j := BoundSubscription(db.subscriptions[j], s, IdOf(s.subscription).value)])
  }

  lemma CompletionOfShell(db: Db, s: Session, i: nat, j: nat)
    requires Valid(db) && Shell(db, s, i, j)
    ensures OnCheckoutCompleted(db, s) == Result(Completed(db, s, i, j), Processed)
  {
    assert PaymentById(db.payments, db.payments[i].id) == i;
    assert SubscriptionById(db.subscriptions, db.subscriptions[j].id) == j;
  }

  /** What a subscription event makes of the row it reaches. */
  function Changed(local: Subscription, e: SubscriptionEvent): Subscription {
    if e.deleted then CanceledSubscription(local, e.sub, e.at) else Mirrored(local, e.sub)
  }

  lemma EventOfShell(db: Db, s: Session, i: nat, j: nat, e: SubscriptionEvent)
    requires Valid(db) && Shell(db, s, i, j) && Reaches(db, s, j, e)
    ensures Apply(db, e) == Recomputed(db.(subscriptions := db.subscriptions[j := Changed(db.subscriptions[j], e)]),
                                       db.subscriptions[j].userId, e.at)
    ensures Changed(db.subscriptions[j], e).stripeId == e.sub.id
  {
    if Bound(db, s, j) {
      assert SubscriptionByStripeId(db.subscriptions, e.sub.id) == j;
    }
  }

  /** The shell stays a shell, and is bound, after an event that reaches it. */
  lemma EventKeepsShell(db: Db, s: Session, i: nat, j: nat, e: SubscriptionEvent)
    requires Valid(db) && Shell(db, s, i, j) && Reaches(db, s, j, e)
    ensures Valid(Apply(db, e)) && Shell(Apply(db, e), s, i, j) && Bound(Apply(db, e), s, j)
  {
    EventOfShell(db, s, i, j, e);
    SubscriptionEventsKeepValid(db, e.sub, e.at);
    var realId := IdOf(s.subscription).value;
    var before, after := db.subscriptions, Apply(db, e).subscriptions;
    assert after == before[j := after[j]];
    forall k | 0 <= k < |after| && k != j
      ensures after[k].stripeId != realId
      ensures var b := BoundSubscription(after[j], s, realId); b.sessionId.Some? ==> after[k].sessionId != b.sessionId
    {
      assert after[k] == before[k];
      assert BoundSubscription(after[j], s, realId).sessionId == BoundSubscription(before[j], s, realId).sessionId;
    }
  }

  /** The shell's row after the completion and the event, in either order. */
  function Both(local: Subscription, s: Session, e: SubscriptionEvent): Subscription
    requires IdOf(s.subscription).Some?
  {
    BoundSubscription(Changed(local, e), s, IdOf(s.subscription).value)
  }

  lemma EventAfterCompletion(db: Db, s: Session, i: nat, j: nat, e: SubscriptionEvent)
    requires Valid(db) && Shell(db, s, i, j) && Some(e.sub.id) == IdOf(s.subscription)
    ensures Apply(OnCheckoutCompleted(db, s).db, e) ==
            Recomputed(db.(payments := db.payments[i := CompletedPayment(db.payments[i], s)],
                           subscriptions := db.subscriptions[j := Both(db.subscriptions[j], s, e)]),
                       db.subscriptions[j].userId, e.at)
  {
    CompletionOfShell(db, s, i, j);
    CheckoutCompletedKeepsValid(db, s);
    var first, realId := Completed(db, s, i, j), IdOf(s.subscription).value;
    assert first.subscriptions[j].stripeId == realId;
    assert SubscriptionByStripeId(first.subscriptions, realId) == j;
    assert Changed(first.subscriptions[j], e) == Both(db.subscriptions[j], s, e);
    assert first.subscriptions[j := Both(db.subscriptions[j], s, e)] == db.subscriptions[j := Both(db.subscriptions[j], s, e)];
  }

  lemma CompletionAfterEvent(db: Db, s: Session, i: nat, j: nat, e: SubscriptionEvent)
    requires Valid(db) && Shell(db, s, i, j) && Reaches(db, s, j, e)
    ensures var local := db.subscriptions[j];
            var changed := db.(subscriptions := db.subscriptions[j := Changed(local, e)]);
            OnCheckoutCompleted(Apply(db, e), s).db ==
            Recomputed(changed, local.userId, e.at).(
              payments := db.payments[i := CompletedPayment(db.payments[i], s)],
              subscriptions := db.subscriptions[j := Both(local, s, e)])
  {
    EventOfShell(db, s, i, j, e);
    EventKeepsShell(db, s, i, j, e);
    CompletionOfShell(Apply(db, e), s, i, j);
    assert Apply(db, e).subscriptions[j := Both(db.subscriptions[j], s, e)] == db.subscriptions[j := Both(db.subscriptions[j], s, e)];
  }

  lemma SameRecompute(a: Db, b: Db, userId: int, now: Time)
    requires a.entitlements == b.entitlements && BuildExpected(a, userId) == BuildExpected(b, userId)
    ensures Recomputed(a, userId, now).entitlements == Recomputed(b, userId, now).entitlements
  {
  }

  /** A recurring price makes the payment irrelevant to the recompute, and so are the ids of a subscription. */
  lemma CompletionExpectsNothing(db: Db, s: Session, i: nat, j: nat, e: SubscriptionEvent)
    requires Valid(db) && Shell(db, s, i, j)
    ensures var local, userId := db.subscriptions[j], db.subscriptions[j].userId;
            var changed := db.(subscriptions := db.subscriptions[j := Changed(local, e)]);
            var both := db.(payments := db.payments[i := CompletedPayment(db.payments[i], s)],
                            subscriptions := db.subscriptions[j := Both(local, s, e)]);
            BuildExpected(both, userId) == BuildExpected(changed, userId)
  {
    var local, userId := db.subscriptions[j], db.subscriptions[j].userId;
    var ps, ss := db.payments[i := CompletedPayment(db.payments[i], s)], db.subscriptions[j := Both(local, s, e)];
    assert forall k | 0 <= k < |ps| && k != i :: ps[k] == db.payments[k];
    SamePaymentExpectations(ps, db.payments, db.prices, db.plans, userId);
    SameSubscriptionExpectations(ss, db.subscriptions[j := Changed(local, e)], db.plans, userId);
  }

  /** A completion and an event that reaches the shell can be handled in either order. */
  lemma CompletionCommutes(db: Db, s: Session, i: nat, j: nat, e: SubscriptionEvent)
    requires Valid(db) && Shell(db, s, i, j) && Reaches(db, s, j, e)
    ensures Apply(OnCheckoutCompleted(db, s).db, e) == OnCheckoutCompleted(Apply(db, e), s).db
  {
    EventAfterCompletion(db, s, i, j, e);
    CompletionAfterEvent(db, s, i, j, e);
    CompletionExpectsNothing(db, s, i, j, e);
    var local := db.subscriptions[j];
    SameRecompute(db.(payments := db.payments[i := CompletedPayment(db.payments[i], s)],
                      subscriptions := db.subscriptions[j := Both(local, s, e)]),
                  db.(subscriptions := db.subscriptions[j := Changed(local, e)]), local.userId, e.at);
  }

  // ---- Any number of events ----

  predicate AllAbout(es: seq<SubscriptionEvent>, s: Session) {
    forall e | e in es :: Some(e.sub.id) == IdOf(s.subscription)
  }

  /** Events after the first find the shell by its real id, whatever their metadata. */
  predicate StartsWithBinding(db: Db, s: Session, j: nat, es: seq<SubscriptionEvent>)
    requires j < |db.subscriptions|
  {
    AllAbout(es, s) && (es == [] || Reaches(db, s, j, es[0]))
  }

  lemma FirstEvent(db: Db, s: Session, i: nat, j: nat, es: seq<SubscriptionEvent>)
    requires Valid(db) && Shell(db, s, i, j) && es != [] && StartsWithBinding(db, s, j, es)
    ensures var next := Apply(db, es[0]);
            Valid(next) && Shell(next, s, i, j) && Bound(next, s, j) && StartsWithBinding(next, s, j, es[1..])
  {
    EventKeepsShell(db, s, i, j, es[0]);
  }

  lemma {:induction false} ShellEventsSwap(db: Db, s: Session, i: nat, j: nat, es: seq<SubscriptionEvent>)
    requires Valid(db) && Shell(db, s, i, j) && StartsWithBinding(db, s, j, es)
    ensures AllSwap(Apply, Completing(s), db, es)
    decreases es
  {
    if es != [] {
      assert Apply(Completing(s)(db), es[0]) == Completing(s)(Apply(db, es[0])) by { CompletionCommutes(db, s, i, j, es[0]); }
      assert AllSwap(Apply, Completing(s), Apply(db, es[0]), es[1..]) by {
        FirstEvent(db, s, i, j, es);
        ShellEventsSwap(Apply(db, es[0]), s, i, j, es[1..]);
      }
    }
  }

  /**
   * In any sequence of events for the shell's Stripe subscription that starts with one that reaches the shell,
   * where the completion notice falls does not change the final database.
   */
  lemma CompletionMayFallAnywhere(db: Db, s: Session, i: nat, j: nat, es: seq<SubscriptionEvent>, k: nat)
    requires Valid(db) && Shell(db, s, i, j) && StartsWithBinding(db, s, j, es) && k <= |es|
    ensures WithCompletionAt(db, es, k, s) == ApplyAll(OnCheckoutCompleted(db, s).db, es)
  {
    ShellEventsSwap(db, s, i, j, es);
    SwappingMayWait(Apply, Completing(s), db, es, k);
  }

  /** From its first event on, the shell carries the real id; no later event of its subscription changes it. */
  lemma {:induction false} BoundOnceAndForAll(db: Db, s: Session, i: nat, j: nat, es: seq<SubscriptionEvent>)
    requires Valid(db) && Shell(db, s, i, j) && es != [] && StartsWithBinding(db, s, j, es)
    ensures j < |ApplyAll(db, es).subscriptions| && Bound(ApplyAll(db, es), s, j) && Valid(ApplyAll(db, es))
    decreases es
  {
    EventKeepsShell(db, s, i, j, es[0]);
    ApplyAllUnfolds(db, es);
    if |es| > 1 {
      BoundOnceAndForAll(Apply(db, es[0]), s, i, j, es[1..]);
    }
  }

  lemma ApplyAllUnfolds(db: Db, es: seq<SubscriptionEvent>)
    requires es != []
    ensures ApplyAll(db, es) == ApplyAll(Apply(db, es[0]), es[1..])
    ensures |es| == 1 ==> ApplyAll(db, es) == Apply(db, es[0])
  {
  }

  /** The binding that takes row `was` to a new Stripe id: a placeholder replaced, or a completion naming the row. */
  predicate Binds(was: Subscription, stripeId: string, kind: EventKind, o: EventObject) {
    (kind.SubscriptionChanged? && o.SubscriptionObject? && IsPlaceholder(was.stripeId) && stripeId == o.subscription.id) ||
    (kind.CheckoutCompleted? && o.SessionObject? && Some(stripeId) == IdOf(o.session.subscription) &&
     ExtractLocalIds(o.session.metadata).subscriptionId == Some(was.id))
  }

  lemma CompletionRenames(db: Db, s: Session, j: nat)
    requires j < |db.subscriptions|
    ensures j < |OnCheckoutCompleted(db, s).db.subscriptions|
    ensures var was, became := db.subscriptions[j], OnCheckoutCompleted(db, s).db.subscriptions[j];
            became.id == was.id && became.userId == was.userId &&
            (became.stripeId != was.stripeId ==> Binds(was, became.stripeId, CheckoutCompleted, SessionObject(s)))
  {
  }

  /** Only two events ever rename a subscription: the one that replaces its placeholder, or a completion naming it. */
  lemma RenamedOnlyByBinding(db: Db, kind: EventKind, o: EventObject, now: Time, j: nat)
    requires j < |db.subscriptions|
    ensures j < |Handle(db, kind, o, now).db.subscriptions|
    ensures var was, became := db.subscriptions[j], Handle(db, kind, o, now).db.subscriptions[j];
            became.id == was.id && became.userId == was.userId &&
            (became.stripeId != was.stripeId ==> Binds(was, became.stripeId, kind, o))
  {
    match kind
    case CheckoutCompleted => if o.SessionObject? { CompletionRenames(db, o.session, j); }
    case CheckoutExpired => if o.SessionObject? { ExpiryRenamesNothing(db, o.session, j); }
    case _ =>
  }

  lemma ExpiryRenamesNothing(db: Db, s: Session, j: nat)
    requires j < |db.subscriptions|
    ensures |OnCheckoutExpired(db, s).db.subscriptions| == |db.subscriptions|
    ensures var was, became := db.subscriptions[j], OnCheckoutExpired(db, s).db.subscriptions[j];
            became.id == was.id && became.userId == was.userId && became.stripeId == was.stripeId
  {
  }
}
