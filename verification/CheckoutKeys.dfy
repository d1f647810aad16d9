/** Subscription checkout under its idempotency key: which checkouts leave their key locked for good. */
module CheckoutKeys {
  import opened Model
  import opened Snapshots
  import opened Idempotency
  import opened IdempotencyService
  import opened CanonicalJson
  import opened Handlers
  import Checkout = SubscriptionCheckout
  import RefundRequest
  import JsonText

  // ---- One call, up to the point where it waits for Stripe ----

  datatype Input = Input(userId: int, priceId: Uuid, quantity: int, clientReferenceId: Option<string>,
                         trialDays: Option<int>, allowPromotionCodes: bool)

  /** A price as the catalog shows it. */
  datatype Offer = Offer(active: bool, priceType: PriceType, planId: Uuid, unitAmount: int)

  /** The prices, and of each plan whether it is archived. */
  datatype Catalog = Catalog(offers: map<Uuid, Offer>, archived: map<Uuid, bool>)

  /** A call, and what is outside it: the catalog, the customer lookup, the configured URLs, and the ids drawn. */
  datatype Ask = Ask(key: string, input: Input, catalog: Catalog, customer: bool, configured: bool,
                     paymentId: Uuid, subscriptionId: Uuid, at: Time, ttl: Time)

  datatype Cause =
    | NoPrice | PriceInactive | WrongType | NoPlan | PlanArchived | NoCustomer
    | Barred(why: Checkout.Verdict) | IdTaken | NotConfigured

  /** `Waiting`: the session is being made at Stripe. */
  datatype Reply = Waiting | Thrown(cause: Cause) | Replayed(session: Option<string>) | KeyConflict | KeyInFlight

  function NumberOrNull(n: Option<int>): Json {
    if n.Some? then Json.Number(RefundRequest.AmountNumeral(n.value)) else Json.Null
  }

  const PRICE_ID: JsString := [112, 114, 105, 99, 101, 73, 100]
  const QUANTITY: JsString := [113, 117, 97, 110, 116, 105, 116, 121]
  const REFERENCE: JsString := [99, 108, 105, 101, 110, 116, 82, 101, 102, 101, 114, 101, 110, 99, 101, 73, 100]
  const TRIAL_DAYS: JsString := [116, 114, 105, 97, 108, 68, 97, 121, 115]
  const PROMOTION: JsString := [97, 108, 108, 111, 119, 80, 114, 111, 109, 111, 116, 105, 111, 110, 67, 111, 100, 101, 115]

  /** `{ priceId, quantity, clientReferenceId, trialDays, allowPromotionCodes }` */
  function RequestOf(input: Input): Json {
    Obj([Member(PRICE_ID, Json.Text(RefundRequest.Units(input.priceId))),
         Member(QUANTITY, NumberOrNull(Some(input.quantity))),
         Member(REFERENCE, if input.clientReferenceId.Some? then Json.Text(RefundRequest.Units(input.clientReferenceId.value)) else Json.Null),
         Member(TRIAL_DAYS, NumberOrNull(input.trialDays)),
         Member(PROMOTION, Json.Boolean(input.allowPromotionCodes))])
  }

  function HashOf(digest: JsString -> string, input: Input): string { digest(JsonText.CanonicalText(RequestOf(input))) }

  /** The checks before the lock: of the price, its type, its plan and the customer, in that order. */
  function Screen(ask: Ask): (cause: Option<Cause>)
    ensures cause.None? ==> ask.input.priceId in ask.catalog.offers
  {
    if ask.input.priceId !in ask.catalog.offers then Some(NoPrice)
    else
      var offer := ask.catalog.offers[ask.input.priceId];
      if !offer.active then Some(PriceInactive)
      else if !offer.priceType.Recurring? then Some(WrongType)
      else if offer.planId !in ask.catalog.archived then Some(NoPlan)
      else if ask.catalog.archived[offer.planId] then Some(PlanArchived)
      else if !ask.customer then Some(NoCustomer)
      else None
  }

  function OrderOf(ask: Ask): Checkout.Order
    requires ask.input.priceId in ask.catalog.offers
  {
    var offer := ask.catalog.offers[ask.input.priceId];
    Checkout.Order(ask.input.userId, offer.planId, ask.input.priceId, offer.unitAmount * ask.input.quantity, ask.paymentId, ask.subscriptionId)
  }

  datatype Started = Started(db: Db, reply: Reply)

  /** What runs between the reservation and the try block: nothing here records a failure. */
  function Start(db: Db, users: set<int>, ask: Ask): Started {
    var cause := Screen(ask);
    if cause.Some? then Started(db, Thrown(cause.value))
    else
      var call := Checkout.LockAndCreate(db, users, OrderOf(ask), ask.at);
      match call.reply
      case Refused(why) => Started(call.db, Thrown(Barred(why)))
      case KeyTaken => Started(call.db, Thrown(IdTaken))
      case Opened => Started(call.db, if ask.configured then Waiting else Thrown(NotConfigured))
  }

  /** The user's live subscription, when there is one, is a shell abandoned long enough ago. */
  predicate NoneInTheWay(ss: seq<Subscription>, userId: int, now: Time) {
    var i := Checkout.LiveRow(ss, userId);
    i < |ss| ==> IsPlaceholder(ss[i].stripeId) && now - ss[i].createdAt >= Checkout.GRACE
  }

  /** The checkout gets as far as Stripe, told from the state before. */
  predicate Clears(db: Db, users: set<int>, ask: Ask) {
    var input, offers, plans := ask.input, ask.catalog.offers, ask.catalog.archived;
    input.priceId in offers && offers[input.priceId].active && offers[input.priceId].priceType.Recurring? &&
    offers[input.priceId].planId in plans && !plans[offers[input.priceId].planId] &&
    ask.customer && ask.configured && input.userId in users &&
    NoneInTheWay(db.subscriptions, input.userId, ask.at) && !Checkout.Taken(db, OrderOf(ask))
  }

  lemma WaitsExactlyWhenClear(db: Db, users: set<int>, ask: Ask)
    ensures Start(db, users, ask).reply.Waiting? <==> Clears(db, users, ask)
    ensures Start(db, users, ask).reply.Waiting? || Start(db, users, ask).reply.Thrown?
  {
  }

  // ---- Why a call throws, and what it opens ----

  predicate KnownOffer(ask: Ask) { ask.input.priceId in ask.catalog.offers }

  predicate RecurringOffer(ask: Ask) {
    KnownOffer(ask) && ask.catalog.offers[ask.input.priceId].active && ask.catalog.offers[ask.input.priceId].priceType.Recurring?
  }

  predicate SoldPlan(ask: Ask) {
    RecurringOffer(ask) && ask.catalog.offers[ask.input.priceId].planId in ask.catalog.archived &&
    !ask.catalog.archived[ask.catalog.offers[ask.input.priceId].planId]
  }

  /** Each cause for a call that passed the checks before it. */
  predicate CauseOf(ask: Ask, cause: Cause) {
    match cause
    case NoPrice => !KnownOffer(ask)
    case PriceInactive => KnownOffer(ask) && !ask.catalog.offers[ask.input.priceId].active
    case WrongType => KnownOffer(ask) && ask.catalog.offers[ask.input.priceId].active && !RecurringOffer(ask)
    case NoPlan => RecurringOffer(ask) && ask.catalog.offers[ask.input.priceId].planId !in ask.catalog.archived
    case PlanArchived =>
      RecurringOffer(ask) && ask.catalog.offers[ask.input.priceId].planId in ask.catalog.archived && !SoldPlan(ask)
    case NoCustomer => SoldPlan(ask) && !ask.customer
    case _ => false
  }

  /** Before the lock a call throws exactly for the first check it fails; nothing is written then. */
  lemma ScreenedOutExactlyWhen(db: Db, users: set<int>, ask: Ask, cause: Cause)
    requires !cause.Barred? && !cause.IdTaken? && !cause.NotConfigured?
    ensures Start(db, users, ask).reply == Thrown(cause) <==> CauseOf(ask, cause)
    ensures Start(db, users, ask).reply == Thrown(cause) ==> Start(db, users, ask).db == db
  {
  }

  /** Under the lock and after it, for a call that passed the checks. */
  lemma BarredExactlyWhen(db: Db, users: set<int>, ask: Ask)
    requires SoldPlan(ask) && ask.customer && Checkout.OneLive(db.subscriptions)
    ensures var ss, userId, started := db.subscriptions, ask.input.userId, Start(db, users, ask);
            var held, young := Checkout.HasRealSubscription(ss, userId), Checkout.HasYoungShell(ss, userId, ask.at);
            && (started.reply == Thrown(Barred(Checkout.UserMissing)) <==> userId !in users)
            && (started.reply.Thrown? && started.reply.cause.Barred? && started.reply.cause.why.AlreadyActive? <==> userId in users && held)
            && (started.reply == Thrown(Barred(Checkout.InProgress)) <==> userId in users && young)
            && (started.reply == Thrown(IdTaken) <==> userId in users && !held && !young && Checkout.IdsAreTaken(db, OrderOf(ask)))
            && (started.reply == Thrown(NotConfigured) <==>
                userId in users && !held && !young && !Checkout.IdsAreTaken(db, OrderOf(ask)) && !ask.configured)
  {
    Checkout.RefusedExactlyWhen(db, users, OrderOf(ask), ask.at);
  }

  /** What a call opens costs the price times the quantity, is on the price's plan, and is what the call remembers. */
  lemma OpensWhatWasAsked(s: Shop, users: set<int>, digest: JsString -> string, ask: Ask)
    requires Granted(s, digest, ask) && Clears(s.db, users, ask)
    ensures var offer, call := ask.catalog.offers[ask.input.priceId], Take(s, users, digest, ask);
            var db, m, n := call.shop.db, |s.db.payments|, |s.db.subscriptions|;
            && |db.payments| == m + 1 && |db.subscriptions| == n + 1 && |call.shop.open| == |s.open| + 1
            && db.payments[m].amount == offer.unitAmount * ask.input.quantity && db.payments[m].priceId == Some(ask.input.priceId)
            && db.payments[m].userId == ask.input.userId && db.payments[m].amountRefunded == 0
            && db.subscriptions[n].planId == Some(offer.planId) && db.subscriptions[n].userId == ask.input.userId
            && call.shop.open[|s.open|] == OpenCall(ask.key, db.payments[m], db.subscriptions[n])
  {
    WaitsExactlyWhenClear(s.db, users, ask);
  }

  // ---- What the key is bound to ----

  /** All of the input but the user. */
  predicate SameInput(a: Input, b: Input) {
    a.priceId == b.priceId && a.quantity == b.quantity && a.clientReferenceId == b.clientReferenceId &&
    a.trialDays == b.trialDays && a.allowPromotionCodes == b.allowPromotionCodes
  }

  lemma KeysDiffer()
    ensures forall i, j | 0 <= i < j < 5 ::
              [PRICE_ID, QUANTITY, REFERENCE, TRIAL_DAYS, PROMOTION][i] != [PRICE_ID, QUANTITY, REFERENCE, TRIAL_DAYS, PROMOTION][j]
    ensures PROTO !in [PRICE_ID, QUANTITY, REFERENCE, TRIAL_DAYS, PROMOTION]
  {
    assert |PRICE_ID| == 7 && |QUANTITY| == 8 && |REFERENCE| == 17 && |TRIAL_DAYS| == 9 && |PROMOTION| == 19 && |PROTO| == 9;
    assert PROTO[0] == 95 && TRIAL_DAYS[0] == 116;
  }

  lemma RequestMembers(input: Input)
    ensures var ms := RequestOf(input).members;
            |ms| == 5 && ms[0].key == PRICE_ID && ms[1].key == QUANTITY && ms[2].key == REFERENCE && ms[3].key == TRIAL_DAYS && ms[4].key == PROMOTION
  {
  }

  lemma NumbersDiffer(m: Option<int>, n: Option<int>)
    ensures NumberOrNull(m) == NumberOrNull(n) ==> m == n
    ensures JsonText.Numeric(NumberOrNull(m)) && WellFormed(NumberOrNull(m))
  {
    RefundRequest.AmountNumeralFacts(OrElse(m, 0), OrElse(n, 0));
  }

  lemma TextsDiffer(s: string, t: string)
    ensures RefundRequest.Units(s) == RefundRequest.Units(t) ==> s == t
  {
    if RefundRequest.Units(s) == RefundRequest.Units(t) { RefundRequest.UnitsDiffer(s, t); }
  }

  lemma RequestIsProper(input: Input)
    ensures WellFormed(RequestOf(input)) && JsonText.Numeric(RequestOf(input))
  {
    KeysDiffer();
    NumbersDiffer(Some(input.quantity), None);
    NumbersDiffer(input.trialDays, None);
    var ms := RequestOf(input).members;
    forall i, j | 0 <= i < j < |ms| ensures ms[i].key != ms[j].key {
      assert ms[i].key == [PRICE_ID, QUANTITY, REFERENCE, TRIAL_DAYS, PROMOTION][i];
      assert ms[j].key == [PRICE_ID, QUANTITY, REFERENCE, TRIAL_DAYS, PROMOTION][j];
    }
  }

  lemma RequestsDiffer(a: Input, b: Input)
    requires Same(RequestOf(a), RequestOf(b))
    ensures SameInput(a, b)
  {
    KeysDiffer();
    var x, y := RequestOf(a).members, RequestOf(b).members;
    assert Same(x[0].value, y[0].value) && Same(x[1].value, y[1].value) && Same(x[2].value, y[2].value) &&
           Same(x[3].value, y[3].value) && Same(x[4].value, y[4].value);
    TextsDiffer(a.priceId, b.priceId);
    TextsDiffer(OrElse(a.clientReferenceId, ""), OrElse(b.clientReferenceId, ""));
    NumbersDiffer(Some(a.quantity), Some(b.quantity));
    NumbersDiffer(a.trialDays, b.trialDays);
  }

  /** Unless the digest collides on the two, one hash means one price, quantity, reference, trial and promotion flag. */
  lemma HashTellsInputs(digest: JsString -> string, a: Input, b: Input)
    requires JsonText.NoCollision(digest, RequestOf(a), RequestOf(b))
    ensures HashOf(digest, a) == HashOf(digest, b) <==> SameInput(a, b)
  {
    RequestIsProper(a);
    RequestIsProper(b);
    JsonText.HashIdentifiesRequest(digest, RequestOf(a), RequestOf(b));
    if HashOf(digest, a) == HashOf(digest, b) { RequestsDiffer(a, b); }
    if SameInput(a, b) { assert RequestOf(a) == RequestOf(b); }
  }

  // ---- Calls that wait ----

  /** A call that waits for its session, with the two rows it remembers. */
  datatype OpenCall = OpenCall(key: string, payment: Payment, shell: Subscription)

  type Keys = map<string, KeyRow<string>>

  /** The tables, the keys and the calls that wait. */
  datatype Shop = Shop(db: Db, keys: Keys, open: seq<OpenCall>)

  /** A call that answers leaves the calls that wait as they are; one that waits joins them. */
  datatype Call = Call(shop: Shop, reply: Reply)

  function Take(s: Shop, users: set<int>, digest: JsString -> string, ask: Ask): Call {
    var row, hash := RowOf(s.keys, ask.key), HashOf(digest, ask.input);
    var held := s.(keys := s.keys[ask.key := ReservedRow(row, hash, ask.at, ask.ttl)]);
    match ReserveAnswer(row, hash, ask.at)
    case ConflictError => Call(held, KeyConflict)
    case InFlightError => Call(held, KeyInFlight)
    case Cached(session) => Call(held, Replayed(session))
    case _ => Proceed(held, users, ask)
  }

  function Proceed(held: Shop, users: set<int>, ask: Ask): Call {
    var started := Start(held.db, users, ask);
    var shop := held.(db := started.db);
    if !started.reply.Waiting? then Call(shop, started.reply)
    else
      var order := OrderOf(ask);
      var waiting := OpenCall(ask.key, Checkout.ShellPayment(order, ask.at), Checkout.Shell(order, ask.at));
      Call(shop.(open := shop.open + [waiting]), Waiting)
  }

  /** Stripe's answer to a call that waits: a session or an error, and whether the key could be marked then. */
  datatype News = News(session: Option<string>, recorded: bool, released: bool)

  function AnswerTo(call: OpenCall, news: News): Checkout.Answer {
    Checkout.Answer(call.payment, call.shell, news.session, news.recorded, news.released)
  }

  predicate Succeeds(db: Db, call: OpenCall, news: News) {
    Checkout.SavesShell(db, AnswerTo(call, news)) && news.recorded
  }

  /** The rest of the call: the try block, or its catch block. */
  function Finish(db: Db, keys: Keys, call: OpenCall, news: News): (Db, Keys) {
    var result := if Succeeds(db, call, news) then news.session else None;
    (Checkout.AfterStripe(db, AnswerTo(call, news)),
     if call.key in keys && (result.Some? || news.released) then keys[call.key := RecordedRow(keys[call.key], result)] else keys)
  }

  datatype Step =
    | Asked(ask: Ask)
    | StripeReplied(k: nat, news: News)
    | Crashed(k: nat)
    | Elsewhere(db: Db)      // anything at all that happens to the tables in between

  function Without(open: seq<OpenCall>, k: nat): seq<OpenCall>
    requires k < |open|
  {
    open[..k] + open[k + 1..]
  }

  function Apply(s: Shop, users: set<int>, digest: JsString -> string, step: Step): Shop {
    match step
    case Asked(ask) => Take(s, users, digest, ask).shop
    case StripeReplied(k, news) =>
      if k >= |s.open| then s
      else
        var (db, keys) := Finish(s.db, s.keys, s.open[k], news);
        Shop(db, keys, Without(s.open, k))
    case Crashed(k) => if k >= |s.open| then s else s.(open := Without(s.open, k))
    case Elsewhere(db) => s.(db := db)
  }

  function Run(s: Shop, users: set<int>, digest: JsString -> string, steps: seq<Step>): Shop {
    if steps == [] then s else Apply(Run(s, users, digest, steps[..|steps| - 1]), users, digest, steps[|steps| - 1])
  }

  /** The key of a call that has been answered: completed with its session, failed, or left in progress. */
  lemma KeyAfterAnswer(db: Db, keys: Keys, call: OpenCall, news: News)
    requires call.key in keys && keys[call.key].status.InProgress? && keys[call.key].snapshot.None?
    ensures var after := Finish(db, keys, call, news).1;
            && call.key in after && after == keys[call.key := after[call.key]]
            && var row := after[call.key];
               row == keys[call.key].(status := row.status, snapshot := row.snapshot) &&
               if Succeeds(db, call, news) then row.status.Completed? && row.snapshot == news.session
               else row.snapshot.None? && if news.released then row.status.Failed? else row.status.InProgress?
  {
  }

  // ---- Keys that nobody will ever mark ----

  predicate InProgress(s: Shop, key: string) { key in s.keys && s.keys[key].status.InProgress? }

  predicate Waits(s: Shop, key: string) { exists k | 0 <= k < |s.open| :: s.open[k].key == key }

  /** Nobody waits under a key that is not in progress, and no two under one key. */
  predicate Inv(s: Shop) {
    (forall k | 0 <= k < |s.open| :: InProgress(s, s.open[k].key)) &&
    (forall j, k | 0 <= j < k < |s.open| :: s.open[j].key != s.open[k].key)
  }

  /** No call under way, and no key in progress. */
  predicate Init(s: Shop) { s.open == [] && forall key | key in s.keys :: !s.keys[key].status.InProgress? }

  predicate Stuck(s: Shop, key: string) { InProgress(s, key) && !Waits(s, key) }

  predicate Granted(s: Shop, digest: JsString -> string, ask: Ask) {
    var answer := ReserveAnswer(RowOf(s.keys, ask.key), HashOf(digest, ask.input), ask.at);
    answer.Fresh? || answer.Retry?
  }

  /**
   * The step loses its key: a call that is let in but does not clear, a call that fails after waiting and cannot mark
   * its key, or one that crashes while it waits.
   */
  predicate Loses(s: Shop, users: set<int>, digest: JsString -> string, step: Step, key: string) {
    match step
    case Asked(ask) => ask.key == key && Granted(s, digest, ask) && !Clears(s.db, users, ask)
    case StripeReplied(k, news) =>
      k < |s.open| && s.open[k].key == key && !Succeeds(s.db, s.open[k], news) && !news.released
    case Crashed(k) => k < |s.open| && s.open[k].key == key
    case Elsewhere(_) => false
  }

  lemma WithoutOne(open: seq<OpenCall>, k: nat, key: string)
    requires k < |open| && forall i, j | 0 <= i < j < |open| :: open[i].key != open[j].key
    ensures forall i, j | 0 <= i < j < |Without(open, k)| :: Without(open, k)[i].key != Without(open, k)[j].key
    ensures forall i | 0 <= i < |Without(open, k)| :: Without(open, k)[i] in open && Without(open, k)[i].key != open[k].key
    ensures (exists i | 0 <= i < |Without(open, k)| :: Without(open, k)[i].key == key) <==>
            key != open[k].key && exists i | 0 <= i < |open| :: open[i].key == key
  {
    var rest := Without(open, k);
    assert forall i | 0 <= i < |rest| :: rest[i] == if i < k then open[i] else open[i + 1];
    if i :| 0 <= i < |open| && open[i].key == key && key != open[k].key {
      assert rest[if i < k then i else i - 1].key == key;
    }
  }

  /** Leaving the queue makes its key stuck, unless the key was marked. */
  lemma LeavingStep(s: Shop, t: Shop, k: nat, key: string)
    requires Inv(s) && k < |s.open| && t.open == Without(s.open, k)
    requires forall other | other != s.open[k].key :: RowOf(t.keys, other) == RowOf(s.keys, other)
    ensures Inv(t)
    ensures Stuck(t, key) <==> Stuck(s, key) || (key == s.open[k].key && InProgress(t, key))
  {
    WithoutOne(s.open, k, key);
    forall i | 0 <= i < |t.open| ensures InProgress(t, t.open[i].key) {
      assert t.open[i] in s.open;
      assert RowOf(t.keys, t.open[i].key) == RowOf(s.keys, t.open[i].key);
    }
    assert key != s.open[k].key ==> RowOf(t.keys, key) == RowOf(s.keys, key);
  }

  /** A call that is not let in changes nothing at all. */
  lemma TurnedAway(s: Shop, users: set<int>, digest: JsString -> string, ask: Ask)
    requires !Granted(s, digest, ask)
    ensures var call := Take(s, users, digest, ask);
            call.shop == s && (call.reply.Replayed? || call.reply.KeyConflict? || call.reply.KeyInFlight?)
  {
    assert ask.key in s.keys && ReservedRow(Some(s.keys[ask.key]), HashOf(digest, ask.input), ask.at, ask.ttl) == s.keys[ask.key];
    assert s.keys[ask.key := s.keys[ask.key]] == s.keys;
  }

  /** A call that is let in takes its key; whether it waits or throws, no other key moves. */
  lemma LetIn(s: Shop, users: set<int>, digest: JsString -> string, ask: Ask)
    requires Granted(s, digest, ask)
    ensures var call, waits := Take(s, users, digest, ask), Clears(s.db, users, ask);
            && !InProgress(s, ask.key) && InProgress(call.shop, ask.key)
            && call.shop.keys == s.keys[ask.key := call.shop.keys[ask.key]]
            && (if waits then call.reply.Waiting? else call.reply.Thrown? && call.shop.open == s.open)
            && (waits ==> |call.shop.open| == |s.open| + 1 && call.shop.open[..|s.open|] == s.open && call.shop.open[|s.open|].key == ask.key)
  {
    WaitsExactlyWhenClear(s.db, users, ask);
  }

  lemma JoiningStep(s: Shop, t: Shop, asked: string, key: string)
    requires Inv(s) && !InProgress(s, asked) && InProgress(t, asked) && t.keys == s.keys[asked := t.keys[asked]]
    requires |t.open| == |s.open| + 1 && t.open[..|s.open|] == s.open && t.open[|s.open|].key == asked
    ensures Inv(t) && (Stuck(t, key) <==> Stuck(s, key))
  {
    assert forall k | 0 <= k < |s.open| :: t.open[k] == t.open[..|s.open|][k] == s.open[k];
    assert forall k | 0 <= k < |s.open| :: s.open[k].key != asked;
  }

  lemma ThrowingStep(s: Shop, t: Shop, asked: string, key: string)
    requires Inv(s) && !InProgress(s, asked) && InProgress(t, asked) && t.keys == s.keys[asked := t.keys[asked]] && t.open == s.open
    ensures Inv(t) && (Stuck(t, key) <==> Stuck(s, key) || key == asked)
  {
    assert forall k | 0 <= k < |s.open| :: s.open[k].key != asked;
  }

  lemma AskedStep(s: Shop, users: set<int>, digest: JsString -> string, ask: Ask, key: string)
    requires Inv(s)
    ensures var t := Take(s, users, digest, ask).shop;
            Inv(t) && (Stuck(t, key) <==> Stuck(s, key) || (ask.key == key && Granted(s, digest, ask) && !Clears(s.db, users, ask)))
  {
    var t := Take(s, users, digest, ask).shop;
    if !Granted(s, digest, ask) {
      TurnedAway(s, users, digest, ask);
    } else {
      LetIn(s, users, digest, ask);
      if Clears(s.db, users, ask) { JoiningStep(s, t, ask.key, key); } else { ThrowingStep(s, t, ask.key, key); }
    }
  }

  lemma RepliedStep(s: Shop, users: set<int>, digest: JsString -> string, k: nat, news: News, key: string)
    requires Inv(s) && k < |s.open|
    ensures var t := Apply(s, users, digest, StripeReplied(k, news));
            Inv(t) && (Stuck(t, key) <==> Stuck(s, key) || Loses(s, users, digest, StripeReplied(k, news), key))
  {
    var t := Apply(s, users, digest, StripeReplied(k, news));
    var call := s.open[k];
    assert InProgress(s, call.key);
    assert t.open == Without(s.open, k) && t.keys == Finish(s.db, s.keys, call, news).1;
    assert InProgress(t, call.key) <==> !Succeeds(s.db, call, news) && !news.released;
    LeavingStep(s, t, k, key);
  }

  lemma StepLoses(s: Shop, users: set<int>, digest: JsString -> string, step: Step, key: string)
    requires Inv(s)
    ensures var t := Apply(s, users, digest, step);
            Inv(t) && (Stuck(t, key) <==> Stuck(s, key) || Loses(s, users, digest, step, key))
  {
    match step
    case Asked(ask) => AskedStep(s, users, digest, ask, key);
    case StripeReplied(k, news) => if k < |s.open| { RepliedStep(s, users, digest, k, news, key); }
    case Crashed(k) => if k < |s.open| { LeavingStep(s, Apply(s, users, digest, step), k, key); }
    case Elsewhere(db) => assert s.(db := db).open == s.open;
  }

  /** Step `i` of the run loses the key. */
  predicate LosesAt(s: Shop, users: set<int>, digest: JsString -> string, steps: seq<Step>, i: nat, key: string)
    requires i < |steps|
  {
    Loses(Run(s, users, digest, steps[..i]), users, digest, steps[i], key)
  }

  lemma LosesAtPrefix(s: Shop, users: set<int>, digest: JsString -> string, steps: seq<Step>, n: nat, i: nat, key: string)
    requires i < n <= |steps|
    ensures LosesAt(s, users, digest, steps[..n], i, key) == LosesAt(s, users, digest, steps, i, key)
  {
    assert steps[..n][..i] == steps[..i] && steps[..n][i] == steps[i];
  }

  lemma LosesBeforeOrLast(s: Shop, users: set<int>, digest: JsString -> string, steps: seq<Step>, n: nat, key: string)
    requires n == |steps| - 1
    ensures (exists i | 0 <= i < |steps| :: LosesAt(s, users, digest, steps, i, key)) <==>
            (exists i | 0 <= i < n :: LosesAt(s, users, digest, steps[..n], i, key)) || LosesAt(s, users, digest, steps, n, key)
  {
    forall i | 0 <= i < n ensures LosesAt(s, users, digest, steps[..n], i, key) == LosesAt(s, users, digest, steps, i, key) {
      LosesAtPrefix(s, users, digest, steps, n, i, key);
    }
  }

  /** A key is stuck after a run exactly when some step of the run lost it. */
  lemma {:induction false} RunLoses(s: Shop, users: set<int>, digest: JsString -> string, steps: seq<Step>, key: string)
    requires Init(s)
    ensures Inv(Run(s, users, digest, steps))
    ensures Stuck(Run(s, users, digest, steps), key) <==> exists i | 0 <= i < |steps| :: LosesAt(s, users, digest, steps, i, key)
  {
    if steps != [] {
      var n := |steps| - 1;
      RunLoses(s, users, digest, steps[..n], key);
      StepLoses(Run(s, users, digest, steps[..n]), users, digest, steps[n], key);
      LosesBeforeOrLast(s, users, digest, steps, n, key);
    }
  }

  // ---- Locked for good ----

  /** Whatever happens next, the key stays in progress. */
  ghost predicate LockedForGood(s: Shop, users: set<int>, digest: JsString -> string, key: string) {
    forall more: seq<Step> :: InProgress(Run(s, users, digest, more), key)
  }

  lemma {:induction false} StuckStays(s: Shop, users: set<int>, digest: JsString -> string, steps: seq<Step>, key: string)
    requires Inv(s) && Stuck(s, key)
    ensures Inv(Run(s, users, digest, steps)) && Stuck(Run(s, users, digest, steps), key)
  {
    if steps != [] {
      StuckStays(s, users, digest, steps[..|steps| - 1], key);
      StepLoses(Run(s, users, digest, steps[..|steps| - 1]), users, digest, steps[|steps| - 1], key);
    }
  }

  /** A call that waits can still free its key: Stripe refuses, and the failure is recorded. */
  lemma WaiterCanRelease(s: Shop, users: set<int>, digest: JsString -> string, k: nat)
    requires Inv(s) && k < |s.open|
    ensures !InProgress(Run(s, users, digest, [StripeReplied(k, News(None, true, true))]), s.open[k].key)
  {
    var step := StripeReplied(k, News(None, true, true));
    assert [step][..0] == [] && Run(s, users, digest, []) == s;
    assert InProgress(s, s.open[k].key);
    assert Run(s, users, digest, [step]) == Apply(s, users, digest, step);
  }

  lemma LockedExactlyWhenStuck(s: Shop, users: set<int>, digest: JsString -> string, key: string)
    requires Inv(s)
    ensures LockedForGood(s, users, digest, key) <==> Stuck(s, key)
  {
    if Stuck(s, key) {
      forall more: seq<Step> ensures InProgress(Run(s, users, digest, more), key) {
        StuckStays(s, users, digest, more, key);
      }
    } else if LockedForGood(s, users, digest, key) {
      assert InProgress(Run(s, users, digest, []), key);
      var k :| 0 <= k < |s.open| && s.open[k].key == key;
      WaiterCanRelease(s, users, digest, k);
    }
  }

  /**
   * A checkout that is let in locks its key for good exactly when it does not clear: its price is missing, inactive or
   * not recurring, the plan is missing or archived, the customer cannot be had, the user is unknown or has a live
   * subscription other than an abandoned shell, a drawn id is taken, or a redirect URL is not configured. No crash is
   * needed.
   */
  lemma CheckoutLocksExactlyWhenRefused(s: Shop, users: set<int>, digest: JsString -> string, ask: Ask)
    requires Inv(s) && Granted(s, digest, ask)
    ensures LockedForGood(Take(s, users, digest, ask).shop, users, digest, ask.key) <==> !Clears(s.db, users, ask)
    ensures Take(s, users, digest, ask).reply.Thrown? <==> !Clears(s.db, users, ask)
  {
    AskedStep(s, users, digest, ask, ask.key);
    LetIn(s, users, digest, ask);
    LockedExactlyWhenStuck(Take(s, users, digest, ask).shop, users, digest, ask.key);
  }

  /** Over every run of calls, answers and crashes, with the tables changing in between: the keys locked are the keys lost. */
  lemma LockedExactlyWhenLost(s: Shop, users: set<int>, digest: JsString -> string, steps: seq<Step>, key: string)
    requires Init(s)
    ensures LockedForGood(Run(s, users, digest, steps), users, digest, key)
            <==> exists i | 0 <= i < |steps| :: LosesAt(s, users, digest, steps, i, key)
  {
    RunLoses(s, users, digest, steps, key);
    LockedExactlyWhenStuck(Run(s, users, digest, steps), users, digest, key);
  }

  /** A locked key turns every call away, and nothing changes: in flight to its own request, a conflict to any other. */
  lemma LockedKeyTurnsAway(s: Shop, users: set<int>, digest: JsString -> string, ask: Ask)
    requires InProgress(s, ask.key)
    ensures Take(s, users, digest, ask)
            == Call(s, if HashOf(digest, ask.input) == s.keys[ask.key].hash then KeyInFlight else KeyConflict)
  {
    TurnedAway(s, users, digest, ask);
  }

  /** A completed key answers its own request with the session recorded, any other with a conflict, and nothing changes. */
  lemma CompletedKeyAnswers(s: Shop, users: set<int>, digest: JsString -> string, ask: Ask)
    requires ask.key in s.keys && s.keys[ask.key].status.Completed?
    ensures Take(s, users, digest, ask)
            == Call(s, if HashOf(digest, ask.input) == s.keys[ask.key].hash then Replayed(s.keys[ask.key].snapshot) else KeyConflict)
  {
    TurnedAway(s, users, digest, ask);
  }

  lemma OpenedShellBars(db: Db, users: set<int>, ask: Ask, next: Ask)
    requires Checkout.OneLive(db.subscriptions) && !ask.configured && Clears(db, users, ask.(configured := true))
    requires next.input.userId == ask.input.userId && next.at - ask.at < Checkout.GRACE && Screen(next).None?
    ensures var first := Start(db, users, ask);
            first.reply == Thrown(NotConfigured) && Start(first.db, users, next).reply == Thrown(Barred(Checkout.InProgress))
  {
    var order, n := OrderOf(ask), |db.subscriptions|;
    var first := Start(db, users, ask).db;
    WaitsExactlyWhenClear(db, users, ask.(configured := true));
    Checkout.OpenedIsTheLiveRow(db, users, order, ask.at);
    assert first == Checkout.LockAndCreate(db, users, order, ask.at).db;
    assert first.subscriptions[n] == Checkout.Shell(order, ask.at);
  }

  /**
   * When only the configuration is missing, the shell has been opened before that is noticed: for thirty minutes it
   * bars the user's next checkout, under another key, whatever has been configured by then; and that key is lost too.
   */
  lemma MissingConfigBarsTheNext(s: Shop, users: set<int>, digest: JsString -> string, ask: Ask, next: Ask)
    requires Inv(s) && Checkout.OneLive(s.db.subscriptions) && Granted(s, digest, ask)
    requires !ask.configured && Clears(s.db, users, ask.(configured := true))
    requires next.key != ask.key && next.input.userId == ask.input.userId && next.at - ask.at < Checkout.GRACE
    requires Screen(next).None? && Granted(s, digest, next)
    ensures var first := Take(s, users, digest, ask);
            var second := Take(first.shop, users, digest, next);
            && first.reply == Thrown(NotConfigured) && second.reply == Thrown(Barred(Checkout.InProgress))
            && LockedForGood(first.shop, users, digest, ask.key) && LockedForGood(second.shop, users, digest, next.key)
  {
    var first := Take(s, users, digest, ask);
    OpenedShellBars(s.db, users, ask, next);
    assert first.reply == Thrown(NotConfigured) && first.shop.db == Start(s.db, users, ask).db;
    LetIn(s, users, digest, ask);
    AskedStep(s, users, digest, ask, next.key);
    CheckoutLocksExactlyWhenRefused(s, users, digest, ask);
    assert RowOf(first.shop.keys, next.key) == RowOf(s.keys, next.key);
    assert Granted(first.shop, digest, next);
    assert Take(first.shop, users, digest, next).reply == Thrown(Barred(Checkout.InProgress));
    WaitsExactlyWhenClear(first.shop.db, users, next);
    CheckoutLocksExactlyWhenRefused(first.shop, users, digest, next);
  }

  // ---- The service ----

  class KeyedCheckout {
    const checkout: Checkout.CheckoutService
    const idempotency: IdempotencyService<string>

    constructor (checkout: Checkout.CheckoutService, idempotency: IdempotencyService<string>)
      ensures this.checkout == checkout && this.idempotency == idempotency
    {
      this.checkout, this.idempotency := checkout, idempotency;
    }

    /** createSubscriptionCheckout as far as its call to Stripe. */
    method CreateSubscriptionCheckout(ask: Ask, ghost open: seq<OpenCall>) returns (reply: Reply, waiting: Option<OpenCall>)
      requires Valid(checkout.store.View())
      modifies checkout.store`payments, checkout.store`subscriptions, idempotency`keys
      ensures Call(Shop(checkout.store.View(), idempotency.keys, if waiting.Some? then open + [waiting.value] else open), reply)
              == Take(Shop(old(checkout.store.View()), old(idempotency.keys), open), checkout.users, idempotency.digest, ask)
      ensures Valid(checkout.store.View())
    {
      waiting := None;
      var reservation := idempotency.Reserve(ask.key, RequestOf(ask.input), ask.at, ask.ttl);
      match reservation {
        case ConflictError => return KeyConflict, None;
        case InFlightError => return KeyInFlight, None;
        case Cached(session) => return Replayed(session), None;
        case _ =>
      }
      if ask.input.priceId !in ask.catalog.offers { return Thrown(NoPrice), None; }
      var price := ask.catalog.offers[ask.input.priceId];
      if !price.active { return Thrown(PriceInactive), None; }
      if price.priceType != Recurring { return Thrown(WrongType), None; }
      if price.planId !in ask.catalog.archived { return Thrown(NoPlan), None; }
      if ask.catalog.archived[price.planId] { return Thrown(PlanArchived), None; }
      if !ask.customer { return Thrown(NoCustomer), None; }

      var order := Checkout.Order(ask.input.userId, price.planId, ask.input.priceId, price.unitAmount * ask.input.quantity,
                                  ask.paymentId, ask.subscriptionId);
      var answer := checkout.LockAndCreateSubscriptionCheckout(order, ask.at);
      match answer {
        case Refused(why) => return Thrown(Barred(why)), None;
        case KeyTaken => return Thrown(IdTaken), None;
        case Opened =>
      }
      if !ask.configured { return Thrown(NotConfigured), None; }
      reply := Waiting;
      waiting := Some(OpenCall(ask.key, Checkout.ShellPayment(order, ask.at), Checkout.Shell(order, ask.at)));
    }

    /** The rest of it, once Stripe has answered; false when it throws. */
    method Resume(call: OpenCall, news: News) returns (ok: bool)
      modifies checkout.store`payments, checkout.store`subscriptions, idempotency`keys
      ensures (checkout.store.View(), idempotency.keys) == Finish(old(checkout.store.View()), old(idempotency.keys), call, news)
      ensures ok <==> Succeeds(old(checkout.store.View()), call, news)
    {
      ok := checkout.FinishCheckout(AnswerTo(call, news));
      if ok {
        idempotency.RecordSuccess(call.key, news.session.value);
      } else if news.released {
        idempotency.RecordFailure(call.key);
      }
    }
  }
}
