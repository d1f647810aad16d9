/**
 * Subscription checkout: the two transactions that run under the user's row lock, what follows them once Stripe
 * has answered, and the rule that a user has at most one live subscription.
 */
module SubscriptionCheckout {
  import opened Model
  import opened Snapshots
  import opened Handlers
  import opened HandlerInvariants
  import opened Store

  const GRACE: Time := 30 * 60 * 1000

  predicate Live(status: SubscriptionStatus) {
    status.Incomplete? || status.Trialing? || status.Active? || status.PastDue? || status.Paused? || status.Unpaid?
  }

  predicate LiveFor(s: Subscription, userId: int) { s.userId == userId && Live(s.status) }

  function LiveRow(ss: seq<Subscription>, userId: int): (i: nat)
    ensures i <= |ss|
    ensures i < |ss| ==> LiveFor(ss[i], userId)
    ensures forall k | 0 <= k < i :: !LiveFor(ss[k], userId)
  {
    if ss == [] || LiveFor(ss[0], userId) then 0 else 1 + LiveRow(ss[1..], userId)
  }

  /** At most one live row for each user. */
  predicate OneLive(ss: seq<Subscription>) {
    forall i, j | 0 <= i < j < |ss| && Live(ss[i].status) && Live(ss[j].status) :: ss[i].userId != ss[j].userId
  }

  // ---- The transactions under the lock ----

  /** `Clear(Some(i))`: row `i` is an abandoned shell, to be expired first. */
  datatype Verdict = Clear(abandoned: Option<nat>) | UserMissing | AlreadyActive(id: Uuid) | InProgress

  function Judge(db: Db, users: set<int>, userId: int, now: Time): (v: Verdict)
    ensures v.Clear? && v.abandoned.Some? ==> v.abandoned.value == LiveRow(db.subscriptions, userId) < |db.subscriptions|
  {
    var i := LiveRow(db.subscriptions, userId);
    if userId !in users then UserMissing
    else if i == |db.subscriptions| then Clear(None)
    else if !IsPlaceholder(db.subscriptions[i].stripeId) then AlreadyActive(db.subscriptions[i].id)
    else if now - db.subscriptions[i].createdAt < GRACE then InProgress
    else Clear(Some(i))
  }

  function Expire(ss: seq<Subscription>, i: Option<nat>): seq<Subscription>
    requires i.Some? ==> i.value < |ss|
  {
    if i.Some? then ss[i.value := ss[i.value].(status := IncompleteExpired)] else ss
  }

  /** lockAndAssertNoActiveSubscription. */
  function AfterCheck(db: Db, users: set<int>, userId: int, now: Time): Db {
    var v := Judge(db, users, userId, now);
    if v.Clear? then db.(subscriptions := Expire(db.subscriptions, v.abandoned)) else db
  }

  /** The ids are the ones the database draws for the two new rows. */
  datatype Order = Order(userId: int, planId: Uuid, priceId: Uuid, amount: int, paymentId: Uuid, subscriptionId: Uuid)

  function ShellPayment(o: Order, now: Time): Payment {
    Payment(o.paymentId, o.userId, Some(o.priceId), None, None, o.amount, 0, CheckoutCreated, now)
  }

  function Shell(o: Order, now: Time): Subscription {
    Subscription(o.subscriptionId, o.userId, Some(o.planId), Placeholder(o.paymentId), None, Incomplete,
                 None, None, None, false, None, None, now)
  }

  datatype Reply = Opened | Refused(why: Verdict) | KeyTaken

  datatype Checkout = Checkout(db: Db, reply: Reply)

  /** A key one of the new rows would repeat. */
  predicate Taken(db: Db, o: Order) {
    PaymentById(db.payments, o.paymentId) < |db.payments| ||
    SubscriptionById(db.subscriptions, o.subscriptionId) < |db.subscriptions| ||
    SubscriptionByStripeId(db.subscriptions, Placeholder(o.paymentId)) < |db.subscriptions|
  }

  /** lockAndCreateSubscriptionCheckout; a refused insert rolls the whole transaction back. */
  function LockAndCreate(db: Db, users: set<int>, o: Order, now: Time): Checkout {
    var v := Judge(db, users, o.userId, now);
    if !v.Clear? then Checkout(db, Refused(v))
    else if Taken(db, o) then Checkout(db, KeyTaken)
    else Checkout(db.(payments := db.payments + [ShellPayment(o, now)],
                      subscriptions := Expire(db.subscriptions, v.abandoned) + [Shell(o, now)]), Opened)
  }

  // ---- After the lock has been released ----

  /** Writes the in-memory shell over its row; an update the unique indexes refuse writes nothing. */
  function Overwrite(ss: seq<Subscription>, shell: Subscription): Option<seq<Subscription>> {
    var j := SubscriptionById(ss, shell.id);
    if j == |ss| then Some(ss)
    else
      var s := ss[j].(stripeId := shell.stripeId, sessionId := shell.sessionId, status := shell.status);
      if SubscriptionClash(ss, j, s) then None else Some(ss[j := s])
  }

  /** The catch block: the shell, as the checkout remembers it, is saved as expired; a second failure is swallowed. */
  function CleanUp(db: Db, shell: Subscription): Db {
    db.(subscriptions := OrElse(Overwrite(db.subscriptions, shell.(status := IncompleteExpired)), db.subscriptions))
  }

  /** Writes the session id, and the rest of the in-memory payment, over its row. */
  function SaveSession(db: Db, payment: Payment, session: string): Option<Db> {
    var i := PaymentById(db.payments, payment.id);
    if i == |db.payments| then Some(db)
    else
      var p := db.payments[i].(sessionId := Some(session), status := payment.status, intentId := payment.intentId);
      if PaymentClash(db.payments, i, p) then None else Some(db.(payments := db.payments[i := p]))
  }

  /**
   * Stripe's answer, a session id or an error, to a checkout that remembers these two rows; `recorded` and `released`
   * say whether the idempotency key could then be marked completed, or failed.
   */
  datatype Answer = Answer(payment: Payment, shell: Subscription, session: Option<string>, recorded: bool, released: bool)

  /** The try block: how far the saves came, the shell as then remembered, and whether everything went through. */
  datatype Attempt = Attempt(db: Db, shell: Subscription, ok: bool)

  function TryToFinish(db: Db, a: Answer): Attempt {
    if a.session.None? then Attempt(db, a.shell, false)
    else
      var titled, paid := a.shell.(sessionId := a.session), SaveSession(db, a.payment, a.session.value);
      if paid.None? then Attempt(db, titled, false)
      else
        var ss := Overwrite(db.subscriptions, titled);
        if ss.None? then Attempt(paid.value, titled, false)
        else Attempt(paid.value.(subscriptions := ss.value), titled, a.recorded)
  }

  /** After a failure the key is marked failed first; if that throws too, the shell is not cleaned up. */
  function AfterStripe(db: Db, a: Answer): Db {
    var attempt := TryToFinish(db, a);
    if attempt.ok || !a.released then attempt.db else CleanUp(attempt.db, attempt.shell)
  }

  /** createSubscriptionFromPayment's own insert, which no lock covers. */
  function Activate(db: Db, s: Subscription): Db {
    if SubscriptionById(db.subscriptions, s.id) < |db.subscriptions| ||
       SubscriptionClash(db.subscriptions, |db.subscriptions|, s) then db
    else db.(subscriptions := db.subscriptions + [s.(status := Active)])
  }

  // ---- Runs ----

  datatype Step =
    | OpenCheckout(order: Order, at: Time)
    | CheckNoActive(userId: int, at: Time)
    | StripeAnswered(answer: Answer)
    | SubscribeFromPayment(row: Subscription)
    | Deliver(event: Event, at: Time)

  function Apply(db: Db, users: set<int>, step: Step): Db {
    match step
    case OpenCheckout(o, at) => LockAndCreate(db, users, o, at).db
    case CheckNoActive(userId, at) => AfterCheck(db, users, userId, at)
    case StripeAnswered(answer) => AfterStripe(db, answer)
    case SubscribeFromPayment(row) => Activate(db, row)
    case Deliver(e, at) => Dispatch(db, e, at).db
  }

  function Run(db: Db, users: set<int>, steps: seq<Step>): Db {
    if steps == [] then db else Apply(Run(db, users, steps[..|steps| - 1]), users, steps[|steps| - 1])
  }

  /** Row `j` may take this status: it is not live, or the row already is, or no row of the user's is. */
  predicate Rightful(ss: seq<Subscription>, j: nat, status: SubscriptionStatus)
    requires j < |ss|
  {
    Live(status) ==> Live(ss[j].status) || LiveRow(ss, ss[j].userId) == |ss|
  }

  /** An update of a subscription may give its row the status it carries. */
  predicate RightfulEvent(ss: seq<Subscription>, kind: EventKind, o: EventObject) {
    if kind.SubscriptionChanged? && o.SubscriptionObject? && o.subscription.id != "" then
      var j := Locate(ss, o.subscription);
      j < |ss| ==> Rightful(ss, j, ToSubscriptionStatus(o.subscription.status))
    else true
  }

  /** Both saves of the try block are accepted. */
  predicate SavesShell(db: Db, a: Answer) {
    a.session.Some? && SaveSession(db, a.payment, a.session.value).Some? &&
    Overwrite(db.subscriptions, a.shell.(sessionId := a.session)).Some?
  }

  /** The guard of the three writes made outside the lock. */
  predicate Orderly(db: Db, step: Step) {
    var ss := db.subscriptions;
    match step
    case OpenCheckout(_, _) => true
    case CheckNoActive(_, _) => true
    case StripeAnswered(a) =>
      var j := SubscriptionById(ss, a.shell.id);
      if SavesShell(db, a) && (a.recorded || !a.released) && j < |ss| then Rightful(ss, j, a.shell.status) else true
    case SubscribeFromPayment(row) =>
      SubscriptionById(ss, row.id) == |ss| && !SubscriptionClash(ss, |ss|, row) ==> LiveRow(ss, row.userId) == |ss|
    case Deliver(e, _) => RightfulEvent(ss, KindOf(e.eventType), OrElse(e.data, NullObject))
  }

  // ---- At most one live subscription ----

  lemma OneLiveAfterSave(ss: seq<Subscription>, j: nat, s: Subscription)
    requires OneLive(ss) && j < |ss| && s.userId == ss[j].userId
    ensures OneLive(ss[j := s]) <==> Rightful(ss, j, s.status)
  {
    var rs, l := ss[j := s], LiveRow(ss, ss[j].userId);
    if !Rightful(ss, j, s.status) {
      assert l != j && rs[l] == ss[l];
      assert Live(rs[l].status) && Live(rs[j].status) && rs[l].userId == rs[j].userId;
    } else {
      forall a, b | 0 <= a < b < |rs| && Live(rs[a].status) && Live(rs[b].status) ensures rs[a].userId != rs[b].userId {
        if a == j { assert Live(ss[b].status); } else if b == j { assert Live(ss[a].status); }
      }
    }
  }

  lemma OneLiveAfterInsert(ss: seq<Subscription>, s: Subscription)
    requires OneLive(ss) && Live(s.status)
    ensures OneLive(ss + [s]) <==> LiveRow(ss, s.userId) == |ss|
  {
    var rs, l := ss + [s], LiveRow(ss, s.userId);
    if l < |ss| { assert Live(rs[l].status) && Live(rs[|ss|].status) && rs[l].userId == rs[|ss|].userId; }
  }

  /** Nothing left of a user's live row once it has been expired. */
  lemma NoneLiveAfterExpiry(ss: seq<Subscription>, userId: int)
    requires OneLive(ss)
    ensures var l := LiveRow(ss, userId);
            var rs := Expire(ss, if l < |ss| then Some(l) else None);
            OneLive(rs) && LiveRow(rs, userId) == |rs| == |ss|
  {
    var l := LiveRow(ss, userId);
    if l < |ss| { OneLiveAfterSave(ss, l, ss[l].(status := IncompleteExpired)); }
  }

  lemma OpenKeepsOneLive(db: Db, users: set<int>, o: Order, now: Time)
    requires OneLive(db.subscriptions)
    ensures OneLive(LockAndCreate(db, users, o, now).db.subscriptions)
    ensures OneLive(AfterCheck(db, users, o.userId, now).subscriptions)
  {
    NoneLiveAfterExpiry(db.subscriptions, o.userId);
    var v := Judge(db, users, o.userId, now);
    if v.Clear? { OneLiveAfterInsert(Expire(db.subscriptions, v.abandoned), Shell(o, now)); }
  }

  lemma OverwriteKeepsOneLive(ss: seq<Subscription>, shell: Subscription)
    requires OneLive(ss) && Overwrite(ss, shell).Some?
    ensures OneLive(Overwrite(ss, shell).value) <==>
            (SubscriptionById(ss, shell.id) < |ss| ==> Rightful(ss, SubscriptionById(ss, shell.id), shell.status))
  {
    var j := SubscriptionById(ss, shell.id);
    if j < |ss| {
      OneLiveAfterSave(ss, j, ss[j].(stripeId := shell.stripeId, sessionId := shell.sessionId, status := shell.status));
    }
  }

  lemma CleanUpKeepsOneLive(db: Db, shell: Subscription)
    requires OneLive(db.subscriptions)
    ensures OneLive(CleanUp(db, shell).subscriptions)
  {
    var expired := shell.(status := IncompleteExpired);
    if Overwrite(db.subscriptions, expired).Some? { OverwriteKeepsOneLive(db.subscriptions, expired); }
  }

  /** Cleaning up what was just saved leaves the shell's row as expired, whatever status it was saved with. */
  lemma SavedThenCleanedUp(ss: seq<Subscription>, shell: Subscription)
    requires Overwrite(ss, shell).Some?
    ensures Overwrite(Overwrite(ss, shell).value, shell.(status := IncompleteExpired))
            == Overwrite(ss, shell.(status := IncompleteExpired))
    ensures Overwrite(ss, shell.(status := IncompleteExpired)).Some?
  {
    var j := SubscriptionById(ss, shell.id);
    if j < |ss| {
      var saved := ss[j].(stripeId := shell.stripeId, sessionId := shell.sessionId, status := shell.status);
      var expired, rs := saved.(status := IncompleteExpired), ss[j := saved];
      SubscriptionByIdAfterSave(ss, j, saved, shell.id);
      assert !SubscriptionClash(ss, j, expired);
      assert !SubscriptionClash(rs, j, expired);
      assert rs[j := expired] == ss[j := expired];
    }
  }

  lemma AnswerKeepsOneLive(db: Db, a: Answer)
    requires OneLive(db.subscriptions)
    ensures OneLive(AfterStripe(db, a).subscriptions) <==> Orderly(db, StripeAnswered(a))
  {
    var titled := a.shell.(sessionId := a.session);
    CleanUpKeepsOneLive(db, a.shell);
    CleanUpKeepsOneLive(db, titled);
    if a.session.Some? && SaveSession(db, a.payment, a.session.value).Some? {
      CleanUpKeepsOneLive(SaveSession(db, a.payment, a.session.value).value, titled);
      if Overwrite(db.subscriptions, titled).Some? {
        OverwriteKeepsOneLive(db.subscriptions, titled);
        SavedThenCleanedUp(db.subscriptions, titled);
      }
    }
  }

  /** Rows keep their users, and none comes to life. */
  predicate NoneRevived(ss: seq<Subscription>, rs: seq<Subscription>) {
    |ss| == |rs| && forall i | 0 <= i < |ss| :: rs[i].userId == ss[i].userId && (Live(rs[i].status) ==> Live(ss[i].status))
  }

  lemma CompletionRevivesNothing(db: Db, session: Session)
    ensures NoneRevived(db.subscriptions, OnCheckoutCompleted(db, session).db.subscriptions)
  {
  }

  lemma ExpiryRevivesNothing(db: Db, session: Session)
    ensures NoneRevived(db.subscriptions, OnCheckoutExpired(db, session).db.subscriptions)
  {
  }

  lemma OtherEventsReviveNothing(db: Db, kind: EventKind, o: EventObject, now: Time)
    requires !(kind.SubscriptionChanged? && o.SubscriptionObject?)
    ensures NoneRevived(db.subscriptions, Handle(db, kind, o, now).db.subscriptions)
  {
    match kind
    case CheckoutCompleted => if o.SessionObject? { CompletionRevivesNothing(db, o.session); }
    case CheckoutExpired => if o.SessionObject? { ExpiryRevivesNothing(db, o.session); }
    case SubscriptionDeleted => if o.SubscriptionObject? { DeletionRevivesNothing(db, o.subscription, now); }
    case _ =>
  }

  lemma DeletionRevivesNothing(db: Db, sub: StripeSubscription, now: Time)
    ensures NoneRevived(db.subscriptions, OnSubscriptionDeleted(db, sub, now).db.subscriptions)
  {
  }

  lemma HandlerKeepsOneLive(db: Db, kind: EventKind, o: EventObject, now: Time)
    requires OneLive(db.subscriptions)
    ensures OneLive(Handle(db, kind, o, now).db.subscriptions) <==> RightfulEvent(db.subscriptions, kind, o)
  {
    if kind.SubscriptionChanged? && o.SubscriptionObject? {
      ChangeKeepsOneLive(db, o.subscription, now);
    } else {
      assert OneLive(Handle(db, kind, o, now).db.subscriptions) by {
        OtherEventsReviveNothing(db, kind, o, now);
        NoneRevivedKeepsOneLive(db.subscriptions, Handle(db, kind, o, now).db.subscriptions);
      }
    }
  }

  lemma NoneRevivedKeepsOneLive(ss: seq<Subscription>, rs: seq<Subscription>)
    requires OneLive(ss) && NoneRevived(ss, rs)
    ensures OneLive(rs)
  {
  }

  lemma ChangeKeepsOneLive(db: Db, sub: StripeSubscription, now: Time)
    requires OneLive(db.subscriptions)
    ensures OneLive(OnSubscriptionChanged(db, sub, now).db.subscriptions) <==>
            (sub.id != "" && Locate(db.subscriptions, sub) < |db.subscriptions| ==>
               Rightful(db.subscriptions, Locate(db.subscriptions, sub), ToSubscriptionStatus(sub.status)))
  {
    var j := Locate(db.subscriptions, sub);
    if j < |db.subscriptions| { OneLiveAfterSave(db.subscriptions, j, Mirrored(db.subscriptions[j], sub)); }
  }

  /**
   * Any step from a state with at most one live subscription for each user keeps it so exactly when its guard
   * holds. The checks and checkouts under the lock, the clean-ups, and every event that does not update a
   * subscription have no guard to meet.
   */
  lemma StepKeepsOneLiveExactlyWhen(db: Db, users: set<int>, step: Step)
    requires OneLive(db.subscriptions)
    ensures OneLive(Apply(db, users, step).subscriptions) <==> Orderly(db, step)
  {
    match step
    case OpenCheckout(o, at) => OpenKeepsOneLive(db, users, o, at);
    case CheckNoActive(userId, at) =>
      NoneLiveAfterExpiry(db.subscriptions, userId);
    case StripeAnswered(a) => AnswerKeepsOneLive(db, a);
    case SubscribeFromPayment(row) => OneLiveAfterInsert(db.subscriptions, row.(status := Active));
    case Deliver(e, at) => HandlerKeepsOneLive(db, KindOf(e.eventType), OrElse(e.data, NullObject), at);
  }

  predicate OrderlyRun(db: Db, users: set<int>, steps: seq<Step>) {
    steps == [] ||
    (OrderlyRun(db, users, steps[..|steps| - 1]) && Orderly(Run(db, users, steps[..|steps| - 1]), steps[|steps| - 1]))
  }

  /** Over every run whose unlocked writes meet their guard, nobody ever has two live subscriptions. */
  lemma {:induction false} RunKeepsOneLive(db: Db, users: set<int>, steps: seq<Step>)
    requires OneLive(db.subscriptions) && OrderlyRun(db, users, steps)
    ensures OneLive(Run(db, users, steps).subscriptions)
  {
    if steps != [] {
      RunKeepsOneLive(db, users, steps[..|steps| - 1]);
      StepKeepsOneLiveExactlyWhen(Run(db, users, steps[..|steps| - 1]), users, steps[|steps| - 1]);
    }
  }

  // ---- The grace window ----

  /** The two transactions touch no existing row but a live placeholder at least 30 minutes old, and only expire it. */
  lemma YoungShellsSurvive(db: Db, users: set<int>, step: Step, i: nat)
    requires step.OpenCheckout? || step.CheckNoActive?
    requires i < |db.subscriptions|
    ensures var ss, rs := db.subscriptions, Apply(db, users, step).subscriptions;
            && i < |rs|
            && (rs[i] != ss[i] ==>
                IsPlaceholder(ss[i].stripeId) && step.at - ss[i].createdAt >= 1_800_000 && Live(ss[i].status) &&
                rs[i] == ss[i].(status := IncompleteExpired))
  {
  }

  /**
   * A checkout opens exactly when the user exists, both ids are new and the user's live subscription, if there is
   * one, is an abandoned shell; the new shell is then the user's one live row, under its payment's placeholder.
   */
  lemma OpenedIsTheLiveRow(db: Db, users: set<int>, o: Order, now: Time)
    requires OneLive(db.subscriptions)
    ensures var ss, call := db.subscriptions, LockAndCreate(db, users, o, now);
            var rs := call.db.subscriptions;
            && (call.reply.Opened? <==>
                o.userId in users && !Taken(db, o) &&
                forall i | 0 <= i < |ss| && LiveFor(ss[i], o.userId) ::
                  IsPlaceholder(ss[i].stripeId) && now - ss[i].createdAt >= GRACE)
            && (if call.reply.Opened?
                then |rs| == |ss| + 1 && LiveRow(rs, o.userId) == |ss| && rs[|ss|].stripeId == Placeholder(o.paymentId)
                else call.db == db)
  {
    var ss := db.subscriptions;
    NoneLiveAfterExpiry(ss, o.userId);
    var l := LiveRow(ss, o.userId);
    assert forall i | 0 <= i < |ss| && LiveFor(ss[i], o.userId) :: i == l;
    var rs := LockAndCreate(db, users, o, now).db.subscriptions;
    if |rs| > |ss| {
      var expired := Expire(ss, if l < |ss| then Some(l) else None);
      assert forall k | 0 <= k < |ss| :: rs[k] == expired[k] && !LiveFor(expired[k], o.userId);
      assert LiveFor(rs[|ss|], o.userId);
    }
  }

  // ---- What the transactions write, and why they refuse ----

  /** The payment a checkout opens: the order's whole amount, nothing refunded, and not yet bound to anything. */
  predicate OpenedPayment(p: Payment, o: Order, now: Time) {
    p.id == o.paymentId && p.userId == o.userId && p.priceId == Some(o.priceId) && p.amount == o.amount && p.amountRefunded == 0 &&
    p.status.CheckoutCreated? && p.intentId.None? && p.sessionId.None? && p.createdAt == now
  }

  /** The subscription it opens: incomplete, on the order's plan, under the payment's placeholder. */
  predicate OpenedSubscription(s: Subscription, o: Order, now: Time) {
    s.id == o.subscriptionId && s.userId == o.userId && s.planId == Some(o.planId) && s.status.Incomplete? &&
    s.stripeId == "pending_sub:" + o.paymentId && s.sessionId.None? && s.createdAt == now && s.periodStart.None? &&
    s.periodEnd.None? && s.trialEnd.None? && !s.cancelAtPeriodEnd && s.canceledAt.None? && s.latestInvoiceId.None?
  }

  /** Neither canceled nor expired. */
  predicate OpenFor(s: Subscription, userId: int) {
    s.userId == userId && !s.status.Canceled? && !s.status.IncompleteExpired?
  }

  /** The user's live rows have expired; every other row is as it was. */
  predicate LiveRowsExpired(ss: seq<Subscription>, rs: seq<Subscription>, userId: int) {
    |ss| <= |rs| && forall k | 0 <= k < |ss| ::
      rs[k] == if OpenFor(ss[k], userId) then ss[k].(status := IncompleteExpired) else ss[k]
  }

  lemma OneLiveRowExpires(ss: seq<Subscription>, userId: int)
    requires OneLive(ss)
    ensures var l := LiveRow(ss, userId);
            LiveRowsExpired(ss, Expire(ss, if l < |ss| then Some(l) else None), userId)
  {
  }

  /**
   * An opened checkout has added exactly its payment and its subscription, expired the user's abandoned shell, and
   * touched nothing else.
   */
  lemma OpenedCheckoutWrites(db: Db, users: set<int>, o: Order, now: Time)
    requires OneLive(db.subscriptions) && LockAndCreate(db, users, o, now).reply.Opened?
    ensures var after := LockAndCreate(db, users, o, now).db;
            var m, n := |db.payments|, |db.subscriptions|;
            && |after.payments| == m + 1 && after.payments[..m] == db.payments && OpenedPayment(after.payments[m], o, now)
            && |after.subscriptions| == n + 1 && LiveRowsExpired(db.subscriptions, after.subscriptions, o.userId)
            && OpenedSubscription(after.subscriptions[n], o, now)
            && after == db.(payments := after.payments, subscriptions := after.subscriptions)
  {
    OneLiveRowExpires(db.subscriptions, o.userId);
  }

  /** The user's live subscription is a real one, not a shell. */
  predicate HasRealSubscription(ss: seq<Subscription>, userId: int) {
    exists k | 0 <= k < |ss| :: OpenFor(ss[k], userId) && !("pending_sub:" <= ss[k].stripeId)
  }

  /** It is a shell less than thirty minutes old. */
  predicate HasYoungShell(ss: seq<Subscription>, userId: int, now: Time) {
    exists k | 0 <= k < |ss| :: OpenFor(ss[k], userId) && "pending_sub:" <= ss[k].stripeId && now - ss[k].createdAt < 1_800_000
  }

  /** An id the order was drawn, or the placeholder made of it, is another row's already. */
  predicate IdsAreTaken(db: Db, o: Order) {
    (exists k | 0 <= k < |db.payments| :: db.payments[k].id == o.paymentId) ||
    exists k | 0 <= k < |db.subscriptions| ::
      db.subscriptions[k].id == o.subscriptionId || db.subscriptions[k].stripeId == "pending_sub:" + o.paymentId
  }

  lemma VerdictExactlyWhen(db: Db, users: set<int>, userId: int, now: Time)
    requires OneLive(db.subscriptions)
    ensures var ss, v := db.subscriptions, Judge(db, users, userId, now);
            && (v.UserMissing? <==> userId !in users)
            && (v.AlreadyActive? <==> userId in users && HasRealSubscription(ss, userId))
            && (v.AlreadyActive? ==> exists k | 0 <= k < |ss| :: OpenFor(ss[k], userId) && ss[k].id == v.id)
            && (v.InProgress? <==> userId in users && HasYoungShell(ss, userId, now))
            && (v.Clear? ==> (v.abandoned.Some? <==> exists k | 0 <= k < |ss| :: OpenFor(ss[k], userId)))
  {
    var ss, l := db.subscriptions, LiveRow(db.subscriptions, userId);
    forall k | 0 <= k < |ss| && OpenFor(ss[k], userId) ensures k == l {}
  }

  /** A refused checkout changes nothing, and each refusal has its own exact condition. */
  lemma RefusedExactlyWhen(db: Db, users: set<int>, o: Order, now: Time)
    requires OneLive(db.subscriptions)
    ensures var ss, call := db.subscriptions, LockAndCreate(db, users, o, now);
            && (call.reply == Refused(UserMissing) <==> o.userId !in users)
            && (call.reply.Refused? && call.reply.why.AlreadyActive? <==> o.userId in users && HasRealSubscription(ss, o.userId))
            && (call.reply == Refused(InProgress) <==> o.userId in users && HasYoungShell(ss, o.userId, now))
            && (call.reply.KeyTaken? <==> o.userId in users && !HasRealSubscription(ss, o.userId) &&
                                          !HasYoungShell(ss, o.userId, now) && IdsAreTaken(db, o))
            && (!call.reply.Opened? ==> call.db == db)
  {
    VerdictExactlyWhen(db, users, o.userId, now);
    TakenIsTaken(db, o);
  }

  lemma TakenIsTaken(db: Db, o: Order)
    ensures Taken(db, o) <==> IdsAreTaken(db, o)
  {
  }

  /** The check alone expires the abandoned shell when it passes, and otherwise changes nothing. */
  lemma CheckExpiresTheShell(db: Db, users: set<int>, userId: int, now: Time)
    requires OneLive(db.subscriptions)
    ensures var after := AfterCheck(db, users, userId, now);
            && after == db.(subscriptions := after.subscriptions) && |after.subscriptions| == |db.subscriptions|
            && (if userId in users && !HasRealSubscription(db.subscriptions, userId) && !HasYoungShell(db.subscriptions, userId, now)
                then LiveRowsExpired(db.subscriptions, after.subscriptions, userId) else after == db)
  {
    VerdictExactlyWhen(db, users, userId, now);
    OneLiveRowExpires(db.subscriptions, userId);
  }

  // ---- What Stripe's answer writes ----

  /** Both of the checkout's rows are on file, and no other row has its session or the shell's id. */
  predicate SessionFits(db: Db, a: Answer, i: nat, j: nat)
    requires i < |db.payments| && j < |db.subscriptions|
  {
    db.payments[i].id == a.payment.id && db.subscriptions[j].id == a.shell.id && a.session.Some? &&
    (forall k | 0 <= k < |db.payments| && k != i ::
       db.payments[k].sessionId != a.session && (a.payment.intentId.Some? ==> db.payments[k].intentId != a.payment.intentId)) &&
    (forall k | 0 <= k < |db.subscriptions| && k != j ::
       db.subscriptions[k].sessionId != a.session && db.subscriptions[k].stripeId != a.shell.stripeId)
  }

  /**
   * A session that fits is put on both rows, with what the call remembers of them; when recording fails and the key is
   * released the subscription ends expired instead. Nothing else changes.
   */
  lemma AnswerPutsSession(db: Db, a: Answer, i: nat, j: nat)
    requires Valid(db) && i < |db.payments| && j < |db.subscriptions| && SessionFits(db, a, i, j)
    ensures var after := AfterStripe(db, a);
            && SavesShell(db, a)
            && after.payments == db.payments[i := db.payments[i].(sessionId := a.session, status := a.payment.status, intentId := a.payment.intentId)]
            && after.subscriptions == db.subscriptions[j := db.subscriptions[j].(
                 stripeId := a.shell.stripeId, sessionId := a.session,
                 status := if a.recorded || !a.released then a.shell.status else IncompleteExpired)]
            && after == db.(payments := after.payments, subscriptions := after.subscriptions)
  {
    var titled := a.shell.(sessionId := a.session);
    assert PaymentById(db.payments, a.payment.id) == i by { var k := PaymentById(db.payments, a.payment.id); assert k <= i; }
    assert SubscriptionById(db.subscriptions, a.shell.id) == j by { var k := SubscriptionById(db.subscriptions, a.shell.id); assert k <= j; }
    SavedThenCleanedUp(db.subscriptions, titled);
  }

  /** When Stripe refuses, a released key leaves the shell expired, an unreleased one everything as it was. */
  lemma RefusalExpiresShell(db: Db, a: Answer, j: nat)
    requires Valid(db) && j < |db.subscriptions| && db.subscriptions[j].id == a.shell.id && a.session.None?
    requires forall k | 0 <= k < |db.subscriptions| && k != j ::
               db.subscriptions[k].stripeId != a.shell.stripeId && (a.shell.sessionId.Some? ==> db.subscriptions[k].sessionId != a.shell.sessionId)
    ensures AfterStripe(db, a) ==
            if !a.released then db
            else db.(subscriptions := db.subscriptions[j := db.subscriptions[j].(
                   stripeId := a.shell.stripeId, sessionId := a.shell.sessionId, status := IncompleteExpired)])
  {
    assert SubscriptionById(db.subscriptions, a.shell.id) == j by { var k := SubscriptionById(db.subscriptions, a.shell.id); assert k <= j; }
  }

  /** A subscription made from a payment is added active and otherwise as given, unless an id of its is taken. */
  lemma SubscribedRowIsActive(db: Db, s: Subscription)
    ensures var after, n := Activate(db, s), |db.subscriptions|;
            if exists k | 0 <= k < n :: db.subscriptions[k].id == s.id || db.subscriptions[k].stripeId == s.stripeId ||
                                        (s.sessionId.Some? && db.subscriptions[k].sessionId == s.sessionId)
            then after == db
            else |after.subscriptions| == n + 1 && after.subscriptions[..n] == db.subscriptions &&
                 after.subscriptions[n] == s.(status := SubscriptionStatus.Active) && after == db.(subscriptions := after.subscriptions)
  {
    var ss := db.subscriptions;
    if k :| 0 <= k < |ss| && ss[k].id == s.id { assert SubscriptionById(ss, s.id) < |ss|; }
  }

  // ---- What the guards rule out ----

  /** A subscription made from a payment is saved after the lock is gone: a checkout may have opened in between. */
  lemma UnlockedInsertBreaksOneLive(db: Db, users: set<int>, o: Order, row: Subscription, now: Time)
    requires db.subscriptions == [] && o.userId in users && !Taken(db, o)
    requires row.userId == o.userId && row.id != o.subscriptionId && row.stripeId != Placeholder(o.paymentId) && row.sessionId.None?
    ensures !OneLive(Run(db, users, [CheckNoActive(o.userId, now), OpenCheckout(o, now), SubscribeFromPayment(row)]).subscriptions)
  {
    var steps := [CheckNoActive(o.userId, now), OpenCheckout(o, now), SubscribeFromPayment(row)];
    assert steps[..2][..1] == steps[..1] && steps[..1][..0] == [];
    assert Run(db, users, steps[..1]) == db;
    assert Run(db, users, steps[..2]) == LockAndCreate(db, users, o, now).db;
    OpenedIsTheLiveRow(db, users, o, now);
    OpenKeepsOneLive(db, users, o, now);
    StepKeepsOneLiveExactlyWhen(LockAndCreate(db, users, o, now).db, users, SubscribeFromPayment(row));
  }

  /** Nor is the session id saved under the lock: by then the shell may have been expired and another one opened. */
  lemma SlowAnswerBreaksOneLive(db: Db, users: set<int>, o: Order, p: Order, session: string, now: Time, later: Time)
    requires db.subscriptions == [] && db.payments == [] && o.userId in users && p.userId == o.userId
    requires o.paymentId != p.paymentId && o.subscriptionId != p.subscriptionId && later - now >= GRACE
    ensures var answer := StripeAnswered(Answer(ShellPayment(o, now), Shell(o, now), Some(session), true, true));
            !OneLive(Run(db, users, [OpenCheckout(o, now), OpenCheckout(p, later), answer]).subscriptions)
  {
    var answer := StripeAnswered(Answer(ShellPayment(o, now), Shell(o, now), Some(session), true, true));
    var steps := [OpenCheckout(o, now), OpenCheckout(p, later), answer];
    assert steps[..2][..1] == steps[..1] && steps[..1][..0] == [];
    assert |steps[..1]| == 1 && Run(db, users, []) == db;
    var first := LockAndCreate(db, users, o, now).db;
    assert Run(db, users, steps[..1]) == first;
    assert first.subscriptions == [Shell(o, now)] && first.payments == [ShellPayment(o, now)];
    SecondCheckout(first, users, o, p, now, later);
    var second := LockAndCreate(first, users, p, later).db;
    assert Run(db, users, steps[..2]) == second;
    LateSave(second, o, p, session, now, later);
    assert Run(db, users, steps) == Apply(second, users, answer);
  }

  lemma SecondCheckout(db: Db, users: set<int>, o: Order, p: Order, now: Time, later: Time)
    requires db.subscriptions == [Shell(o, now)] && db.payments == [ShellPayment(o, now)]
    requires p.userId == o.userId && o.userId in users && o.paymentId != p.paymentId && o.subscriptionId != p.subscriptionId && later - now >= GRACE
    ensures var after := LockAndCreate(db, users, p, later).db;
            after.subscriptions == [Shell(o, now).(status := IncompleteExpired), Shell(p, later)] &&
            after.payments == [ShellPayment(o, now), ShellPayment(p, later)]
  {
    PlaceholdersDiffer(o.paymentId, p.paymentId);
  }

  lemma LateSave(db: Db, o: Order, p: Order, session: string, now: Time, later: Time)
    requires db.subscriptions == [Shell(o, now).(status := IncompleteExpired), Shell(p, later)]
    requires db.payments == [ShellPayment(o, now), ShellPayment(p, later)] && p.userId == o.userId
    requires o.paymentId != p.paymentId && o.subscriptionId != p.subscriptionId
    ensures !OneLive(AfterStripe(db, Answer(ShellPayment(o, now), Shell(o, now), Some(session), true, true)).subscriptions)
  {
    PlaceholdersDiffer(o.paymentId, p.paymentId);
    var after := AfterStripe(db, Answer(ShellPayment(o, now), Shell(o, now), Some(session), true, true));
    assert after.subscriptions == [Shell(o, now).(sessionId := Some(session)), Shell(p, later)];
    assert Live(after.subscriptions[0].status) && Live(after.subscriptions[1].status);
  }

  lemma PlaceholdersDiffer(a: string, b: string)
    requires a != b
    ensures Placeholder(a) != Placeholder(b)
  {
    assert Placeholder(a)[|PENDING_PREFIX|..] == a && Placeholder(b)[|PENDING_PREFIX|..] == b;
  }

  // ---- The service ----

  class CheckoutService {
    const store: BillingStore
    const users: set<int>

    constructor (store: BillingStore, users: set<int>)
      ensures this.store == store && this.users == users
    {
      this.store, this.users := store, users;
    }

    method LockAndAssertNoActiveSubscription(userId: int, now: Time) returns (verdict: Verdict)
      requires Valid(store.View())
      modifies store`subscriptions
      ensures verdict == Judge(old(store.View()), users, userId, now)
      ensures store.View() == AfterCheck(old(store.View()), users, userId, now)
    {
      if userId !in users { return UserMissing; }
      var i := LiveRow(store.subscriptions, userId);
      if i == |store.subscriptions| { return Clear(None); }
      var existing := store.subscriptions[i];
      if !IsPlaceholder(existing.stripeId) { return AlreadyActive(existing.id); }
      var age := now - existing.createdAt;
      if age < GRACE { return InProgress; }
      existing := existing.(status := IncompleteExpired);
      StatusSaveIsAccepted(store.subscriptions, i, existing);
      var _ := store.SaveSubscription(i, existing);
      verdict := Clear(Some(i));
    }

    method LockAndCreateSubscriptionCheckout(order: Order, now: Time) returns (reply: Reply)
      requires Valid(store.View())
      modifies store`payments, store`subscriptions
      ensures Checkout(store.View(), reply) == LockAndCreate(old(store.View()), users, order, now)
      ensures Valid(store.View())
    {
      OpenKeepsValid(store.View(), users, order, now);
      if order.userId !in users { return Refused(UserMissing); }
      var expired := store.subscriptions;
      var i := LiveRow(store.subscriptions, order.userId);
      if i < |store.subscriptions| {
        var existing := store.subscriptions[i];
        if !IsPlaceholder(existing.stripeId) { return Refused(AlreadyActive(existing.id)); }
        var age := now - existing.createdAt;
        if age < GRACE { return Refused(InProgress); }
        existing := existing.(status := IncompleteExpired);
        expired := expired[i := existing];
      }
      if Taken(store.View(), order) { return KeyTaken; }
      store.payments := store.payments + [ShellPayment(order, now)];
      store.subscriptions := expired + [Shell(order, now)];
      reply := Opened;
    }

    method CleanUpShell(shell: Subscription)
      modifies store`subscriptions
      ensures store.View() == CleanUp(old(store.View()), shell)
    {
      var j := SubscriptionById(store.subscriptions, shell.id);
      if j == |store.subscriptions| { return; }
      var row := store.subscriptions[j].(stripeId := shell.stripeId, sessionId := shell.sessionId, status := IncompleteExpired);
      var _ := store.SaveSubscription(j, row);
    }

    /** The rest of createSubscriptionCheckout, from Stripe's answer on; false when it throws. */
    method FinishCheckout(a: Answer) returns (ok: bool)
      modifies store`payments, store`subscriptions
      ensures store.View() == AfterStripe(old(store.View()), a)
      ensures ok <==> SavesShell(old(store.View()), a) && a.recorded
    {
      var subscription := a.shell;
      ok := a.session.Some?;
      if ok {
        subscription := subscription.(sessionId := a.session);
        var i := PaymentById(store.payments, a.payment.id);
        if i < |store.payments| {
          var row := store.payments[i].(sessionId := a.session, status := a.payment.status, intentId := a.payment.intentId);
          ok := store.SavePayment(i, row);
        }
      }
      var j := SubscriptionById(store.subscriptions, subscription.id);
      if ok && j < |store.subscriptions| {
        var row := store.subscriptions[j].(stripeId := subscription.stripeId, sessionId := subscription.sessionId,
                                           status := subscription.status);
        ok := store.SaveSubscription(j, row);
      }
      ok := ok && a.recorded;
      if !ok && a.released { CleanUpShell(subscription); }
    }
  }

  /** A checkout that throws although Stripe has made its session leaves no live shell, when the key can be released. */
  lemma ThrownCheckoutIsExpired(db: Db, a: Answer)
    requires SavesShell(db, a) && !a.recorded && a.released && SubscriptionById(db.subscriptions, a.shell.id) < |db.subscriptions|
    ensures var j := SubscriptionById(db.subscriptions, a.shell.id);
            |AfterStripe(db, a).subscriptions| == |db.subscriptions| &&
            AfterStripe(db, a).subscriptions[j].status.IncompleteExpired? &&
            AfterStripe(db, a).subscriptions[j].sessionId == a.session
  {
    SavedThenCleanedUp(db.subscriptions, a.shell.(sessionId := a.session));
  }

  lemma StatusSaveIsAccepted(ss: seq<Subscription>, i: nat, s: Subscription)
    requires UniqueSubscriptions(ss) && i < |ss| && s == ss[i].(status := s.status)
    ensures !SubscriptionClash(ss, i, s)
  {
    forall k | 0 <= k < |ss| && k != i
      ensures ss[k].stripeId != s.stripeId && (s.sessionId.Some? ==> ss[k].sessionId != s.sessionId)
    {
      assert ss[k].id != ss[i].id;
    }
  }

  lemma OpenKeepsValid(db: Db, users: set<int>, o: Order, now: Time)
    requires Valid(db)
    ensures Valid(LockAndCreate(db, users, o, now).db)
    ensures Valid(AfterCheck(db, users, o.userId, now))
  {
    var v := Judge(db, users, o.userId, now);
    if v.Clear? && v.abandoned.Some? {
      var i := v.abandoned.value;
      SubscriptionSaveKeepsUnique(db.subscriptions, i, db.subscriptions[i].(status := IncompleteExpired));
    }
    if v.Clear? && !Taken(db, o) {
      var ss := Expire(db.subscriptions, v.abandoned);
      forall i | 0 <= i < |ss| ensures ss[i].id != o.subscriptionId && ss[i].stripeId != Placeholder(o.paymentId) {
        assert ss[i].id == db.subscriptions[i].id;
      }
      assert UniqueSubscriptions(ss + [Shell(o, now)]);
      assert UniquePayments(db.payments + [ShellPayment(o, now)]);
    }
  }
}
