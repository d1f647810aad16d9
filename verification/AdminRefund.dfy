/** Refunds issued by an administrator, guarded by an idempotency key. */
module AdminRefund {
  import opened Model
  import opened Snapshots
  import opened Handlers
  import opened Idempotency
  import opened IdempotencyService
  import opened Store
  import opened CanonicalJson
  import opened RefundRequest
  import JsonText

  datatype RefundResponse = RefundResponse(refundId: string, amount: int)

  datatype Refusal = NotFound | NotRefundable | FullyRefunded | BadAmount | NoIntent | StripeFailed

  datatype Reply =
    | Issued(response: RefundResponse)
    | Replayed(cached: Option<RefundResponse>)
    | Refused(why: Refusal)
    | Thrown                    // Stripe has made the refund, and something after that failed
    | KeyConflict
    | KeyInFlight

  datatype Check = Rejected(why: Refusal) | Ready(at: nat, amount: int)

  /** Everything decided before Stripe is asked. */
  function CheckRefund(db: Db, paymentId: string, amount: Option<int>): Check {
    var i := PaymentById(db.payments, paymentId);
    if i == |db.payments| then Rejected(NotFound)
    else
      var p := db.payments[i];
      var refundable := p.amount - p.amountRefunded;
      var asked := OrElse(amount, refundable);
      if !p.status.Succeeded? && !p.status.PartiallyRefunded? then Rejected(NotRefundable)
      else if refundable <= 0 then Rejected(FullyRefunded)
      else if asked <= 0 || asked > refundable then Rejected(BadAmount)
      else if !Truthy(p.intentId) then Rejected(NoIntent)
      else Ready(i, asked)
  }

  /** The database once Stripe has issued refund `refundId`. */
  function AfterRefund(db: Db, at: nat, amount: int, refundId: string, now: Time): Db
    requires at < |db.payments|
  {
    var p := db.payments[at];
    var total := p.amountRefunded + amount;
    db.(transactions := db.transactions +
          [Transaction(p.userId, p.id, Refund, amount, TransactionStatus.Succeeded, p.intentId, None, Some(refundId), now)],
        payments := db.payments[at := p.(amountRefunded := total, status := RefundStatus(total, p.amount))])
  }

  /** How far the saves that follow Stripe's answer came. */
  datatype Progress = NothingSaved | RowSaved | BothSaved

  function Saved(db: Db, at: nat, amount: int, refundId: string, now: Time, progress: Progress): Db
    requires at < |db.payments|
  {
    match progress
    case NothingSaved => db
    case RowSaved => db.(transactions := AfterRefund(db, at, amount, refundId, now).transactions)
    case BothSaved => AfterRefund(db, at, amount, refundId, now)
  }

  // ---- One call ----

  type Keys = map<string, KeyRow<RefundResponse>>

  datatype Call = Call(db: Db, keys: Keys, reply: Reply)

  /** What comes of asking Stripe. A `Lost` refund is made, but the answer never arrives. */
  datatype StripeOutcome = Made(id: string) | NotMade | Lost(id: string)

  /**
   * A call's arguments, and what is outside it: Stripe's outcome if it is asked, how far the saves came, and whether
   * the key could be marked completed, or failed.
   */
  datatype Ask = Ask(key: string, paymentId: string, amount: Option<int>, stripe: StripeOutcome, saved: Progress,
                     recorded: bool, released: bool, at: Time, ttl: Time)

  /** One whole call. */
  function RefundCall(db: Db, keys: Keys, digest: JsString -> string, ask: Ask): Call {
    CallWithHash(db, keys, RequestHash(digest, ask.paymentId, ask.amount), ask)
  }

  function CallWithHash(db: Db, keys: Keys, hash: string, ask: Ask): Call {
    var row := RowOf(keys, ask.key);
    var held := keys[ask.key := ReservedRow(row, hash, ask.at, ask.ttl)];
    match ReserveAnswer(row, hash, ask.at)
    case ConflictError => Call(db, held, KeyConflict)
    case InFlightError => Call(db, held, KeyInFlight)
    case Cached(response) => Call(db, held, Replayed(response))
    case _ => IssueRefund(db, held, ask)
  }

  /** recordFailure, unless that fails too. */
  function Released(held: Keys, ask: Ask): Keys
    requires ask.key in held
  {
    if ask.released then held[ask.key := RecordedRow(held[ask.key], None)] else held
  }

  /** The part of the call that runs under the reservation and records how it went. */
  function IssueRefund(db: Db, held: Keys, ask: Ask): Call
    requires ask.key in held
  {
    var check := CheckRefund(db, ask.paymentId, ask.amount);
    if check.Rejected? then Call(db, Released(held, ask), Refused(check.why))
    else if !ask.stripe.Made? then Call(db, Released(held, ask), Refused(StripeFailed))
    else
      var tables := Saved(db, check.at, check.amount, ask.stripe.id, ask.at, ask.saved);
      var response := RefundResponse(ask.stripe.id, check.amount);
      if ask.saved.BothSaved? && ask.recorded
      then Call(tables, held[ask.key := RecordedRow(held[ask.key], Some(response))], Issued(response))
      else Call(tables, Released(held, ask), Thrown)
  }

  class AdminService {
    const store: BillingStore
    const idempotency: IdempotencyService<RefundResponse>

    constructor (store: BillingStore, idempotency: IdempotencyService<RefundResponse>)
      ensures this.store == store && this.idempotency == idempotency
    {
      this.store, this.idempotency := store, idempotency;
    }

    method RefundPayment(ask: Ask) returns (reply: Reply)
      modifies store`payments, store`transactions, idempotency`keys
      ensures Call(store.View(), idempotency.keys, reply) ==
              RefundCall(old(store.View()), old(idempotency.keys), idempotency.digest, ask)
    {
      var reservation := idempotency.Reserve(ask.key, RequestOf(ask.paymentId, ask.amount), ask.at, ask.ttl);
      match reservation {
        case ConflictError => return KeyConflict;
        case InFlightError => return KeyInFlight;
        case Cached(response) => return Replayed(response);
        case _ =>
      }
      reply := Issue(ask);
    }

    method Release(ask: Ask)
      requires ask.key in idempotency.keys
      modifies idempotency`keys
      ensures idempotency.keys == Released(old(idempotency.keys), ask)
    {
      if ask.released { idempotency.RecordFailure(ask.key); }
    }

    method Issue(ask: Ask) returns (reply: Reply)
      requires ask.key in idempotency.keys
      modifies store`payments, store`transactions, idempotency`keys
      ensures Call(store.View(), idempotency.keys, reply) == IssueRefund(old(store.View()), old(idempotency.keys), ask)
    {
      var i := PaymentById(store.payments, ask.paymentId);
      if i == |store.payments| {
        Release(ask);
        return Refused(NotFound);
      }
      var payment := store.payments[i];
      if !payment.status.Succeeded? && !payment.status.PartiallyRefunded? {
        Release(ask);
        return Refused(NotRefundable);
      }
      var refundable := payment.amount - payment.amountRefunded;
      if refundable <= 0 {
        Release(ask);
        return Refused(FullyRefunded);
      }
      var refundAmount := OrElse(ask.amount, refundable);
      if refundAmount <= 0 || refundAmount > refundable {
        Release(ask);
        return Refused(BadAmount);
      }
      if !Truthy(payment.intentId) {
        Release(ask);
        return Refused(NoIntent);
      }
      if !ask.stripe.Made? {
        Release(ask);
        return Refused(StripeFailed);
      }

      var tx := Transaction(payment.userId, payment.id, Refund, refundAmount, TransactionStatus.Succeeded,
                            payment.intentId, None, Some(ask.stripe.id), ask.at);
      if ask.saved.NothingSaved? {
        Release(ask);
        return Thrown;
      }
      store.transactions := store.transactions + [tx];

      payment := payment.(amountRefunded := payment.amountRefunded + refundAmount);
      payment := payment.(status := if payment.amountRefunded >= payment.amount then Refunded else PartiallyRefunded);
      if ask.saved.RowSaved? {
        Release(ask);
        return Thrown;
      }
      store.payments := store.payments[i := payment];

      if !ask.recorded {
        Release(ask);
        return Thrown;
      }
      var response := RefundResponse(ask.stripe.id, refundAmount);
      idempotency.RecordSuccess(ask.key, response);
      return Issued(response);
    }
  }

  // ---- Any number of calls ----

  /** A call, or anything at all that happens to the tables in between. */
  datatype Step = Asked(ask: Ask) | Elsewhere(db: Db)

  /** A refund Stripe has made for a call under `key`. */
  datatype MadeRefund = MadeRefund(key: string, paymentId: string, amount: int)

  /** The tables, the keys, and what Stripe has been made to refund so far. */
  datatype Desk = Desk(db: Db, keys: Keys, refunds: seq<MadeRefund>)

  function Serve(d: Desk, digest: JsString -> string, ask: Ask): Call { RefundCall(d.db, d.keys, digest, ask) }

  /** The call is told to run the operation. */
  predicate Granted(d: Desk, digest: JsString -> string, ask: Ask) {
    var answer := ReserveAnswer(RowOf(d.keys, ask.key), RequestHash(digest, ask.paymentId, ask.amount), ask.at);
    answer.Fresh? || answer.Retry?
  }

  /** The call makes Stripe refund: it is let in, passes every check, and Stripe does not refuse. */
  predicate Refunds(d: Desk, digest: JsString -> string, ask: Ask) {
    Granted(d, digest, ask) && CheckRefund(d.db, ask.paymentId, ask.amount).Ready? && !ask.stripe.NotMade?
  }

  /** The call makes Stripe refund, fails after that, and marks its key failed. */
  predicate Forgets(d: Desk, digest: JsString -> string, ask: Ask) {
    Refunds(d, digest, ask) && !Serve(d, digest, ask).reply.Issued? && ask.released
  }

  function Apply(d: Desk, digest: JsString -> string, step: Step): Desk {
    match step
    case Asked(ask) =>
      var call := Serve(d, digest, ask);
      Desk(call.db, call.keys,
           if Refunds(d, digest, ask)
           then d.refunds + [MadeRefund(ask.key, ask.paymentId, CheckRefund(d.db, ask.paymentId, ask.amount).amount)]
           else d.refunds)
    case Elsewhere(db) => d.(db := db)
  }

  function Run(d: Desk, digest: JsString -> string, steps: seq<Step>): Desk {
    if steps == [] then d else Apply(Run(d, digest, steps[..|steps| - 1]), digest, steps[|steps| - 1])
  }

  /** The desk as step `i` finds it. */
  function At(d: Desk, digest: JsString -> string, steps: seq<Step>, i: nat): Desk
    requires i <= |steps|
  {
    Run(d, digest, steps[..i])
  }

  lemma AtNext(d: Desk, digest: JsString -> string, steps: seq<Step>, i: nat)
    requires i < |steps|
    ensures At(d, digest, steps, i + 1) == Apply(At(d, digest, steps, i), digest, steps[i])
  {
    assert steps[..i + 1][..i] == steps[..i] && steps[..i + 1][i] == steps[i];
  }

  // ---- What a call does to its key ----

  /** A key nobody is let in under any more: its operation has succeeded, or nobody can tell whether it has. */
  predicate Shut(row: Option<KeyRow<RefundResponse>>) {
    row.Some? && (row.value.status.Completed? || row.value.status.InProgress?)
  }

  /** Under a shut key a call changes nothing, under another one not this key's row. */
  lemma ShutKeepsOut(d: Desk, digest: JsString -> string, ask: Ask, key: string)
    requires Shut(RowOf(d.keys, key))
    ensures RowOf(Serve(d, digest, ask).keys, key) == RowOf(d.keys, key)
    ensures ask.key == key ==> !Granted(d, digest, ask) && Apply(d, digest, Asked(ask)) == d
    ensures ask.key == key && d.keys[key].status.Completed? ==>
              Serve(d, digest, ask).reply ==
                if RequestHash(digest, ask.paymentId, ask.amount) == d.keys[key].hash then Replayed(d.keys[key].snapshot) else KeyConflict
  {
    if ask.key == key {
      assert ReservedRow(Some(d.keys[key]), RequestHash(digest, ask.paymentId, ask.amount), ask.at, ask.ttl) == d.keys[key];
      assert d.keys[key := d.keys[key]] == d.keys;
    }
  }

  /** A call that was let in leaves its key completed, failed, or in progress, and always its own request's. */
  lemma GrantedLeaves(d: Desk, digest: JsString -> string, ask: Ask)
    requires Granted(d, digest, ask)
    ensures var call := Serve(d, digest, ask);
            var row := RowOf(call.keys, ask.key);
            && row.Some? && row.value.hash == RequestHash(digest, ask.paymentId, ask.amount)
            && (if call.reply.Issued? then row.value.status.Completed? && row.value.snapshot == Some(call.reply.response)
                else if ask.released then row.value.status.Failed? else row.value.status.InProgress?)
  {
  }

  lemma OtherKeyStays(d: Desk, digest: JsString -> string, step: Step, key: string)
    requires step.Elsewhere? || step.ask.key != key
    ensures RowOf(Apply(d, digest, step).keys, key) == RowOf(d.keys, key)
  {
  }

  lemma ShutStep(d: Desk, digest: JsString -> string, step: Step, key: string)
    requires Shut(RowOf(d.keys, key))
    ensures RowOf(Apply(d, digest, step).keys, key) == RowOf(d.keys, key)
  {
    if step.Asked? {
      ShutKeepsOut(d, digest, step.ask, key);
      assert Apply(d, digest, step).keys == Serve(d, digest, step.ask).keys;
    }
  }

  lemma {:induction false} ShutKeyStays(d: Desk, digest: JsString -> string, steps: seq<Step>, key: string, i: nat, j: nat)
    requires i <= j <= |steps| && Shut(RowOf(At(d, digest, steps, i).keys, key))
    ensures RowOf(At(d, digest, steps, j).keys, key) == RowOf(At(d, digest, steps, i).keys, key)
    decreases j
  {
    if i < j {
      ShutKeyStays(d, digest, steps, key, i, j - 1);
      AtNext(d, digest, steps, j - 1);
      ShutStep(At(d, digest, steps, j - 1), digest, steps[j - 1], key);
    }
  }

  lemma {:induction false} UnusedKeyStays(d: Desk, digest: JsString -> string, steps: seq<Step>, key: string, i: nat, j: nat)
    requires i <= j <= |steps| && forall k | i <= k < j && steps[k].Asked? :: steps[k].ask.key != key
    ensures RowOf(At(d, digest, steps, j).keys, key) == RowOf(At(d, digest, steps, i).keys, key)
    decreases j
  {
    if i < j {
      UnusedKeyStays(d, digest, steps, key, i, j - 1);
      AtNext(d, digest, steps, j - 1);
      OtherKeyStays(At(d, digest, steps, j - 1), digest, steps[j - 1], key);
    }
  }

  // ---- What a retry can rely on ----

  /** How step `i`, a call, was answered. */
  function ReplyAt(d: Desk, digest: JsString -> string, steps: seq<Step>, i: nat): Reply
    requires i < |steps| && steps[i].Asked?
  {
    Serve(At(d, digest, steps, i), digest, steps[i].ask).reply
  }

  /** The two calls ask for the same, or the digest tells them apart. */
  predicate ToldApart(digest: JsString -> string, a: Ask, b: Ask) {
    JsonText.NoCollision(digest, RequestOf(a.paymentId, a.amount), RequestOf(b.paymentId, b.amount))
  }

  predicate SameRequest(a: Ask, b: Ask) { a.paymentId == b.paymentId && a.amount == b.amount }

  /**
   * Over any run of calls with any keys, payments, amounts, times, Stripe outcomes and failures, with anything
   * happening to the tables in between: after a call has been answered with its refund, every later call with that
   * key changes neither the tables nor the keys and makes Stripe refund nothing. If it is for the same payment and
   * amount it gets the same response, and otherwise, unless the digest collides on the two, the conflict error.
   */
  lemma AnsweredKeyRefundsNoMore(d: Desk, digest: JsString -> string, steps: seq<Step>, i: nat, j: nat)
    requires i < j < |steps| && steps[i].Asked? && steps[j].Asked? && steps[i].ask.key == steps[j].ask.key
    requires ReplyAt(d, digest, steps, i).Issued?
    ensures var first, again := steps[i].ask, steps[j].ask;
            && Apply(At(d, digest, steps, j), digest, steps[j]) == At(d, digest, steps, j)
            && (SameRequest(first, again) ==>
                ReplyAt(d, digest, steps, j) == Replayed(Some(ReplyAt(d, digest, steps, i).response)))
            && (!SameRequest(first, again) && ToldApart(digest, again, first) ==> ReplyAt(d, digest, steps, j) == KeyConflict)
  {
    var first, again := steps[i].ask, steps[j].ask;
    GrantedLeaves(At(d, digest, steps, i), digest, first);
    AtNext(d, digest, steps, i);
    ShutKeyStays(d, digest, steps, first.key, i + 1, j);
    ShutKeepsOut(At(d, digest, steps, j), digest, again, first.key);
    if ToldApart(digest, again, first) {
      HashTellsRequests(digest, again.paymentId, again.amount, first.paymentId, first.amount);
    }
  }

  // ---- Two refunds under one key ----

  predicate RefundsAt(d: Desk, digest: JsString -> string, steps: seq<Step>, i: nat)
    requires i < |steps| && steps[i].Asked?
  {
    Refunds(At(d, digest, steps, i), digest, steps[i].ask)
  }

  predicate ForgetsAt(d: Desk, digest: JsString -> string, steps: seq<Step>, i: nat)
    requires i < |steps| && steps[i].Asked?
  {
    Forgets(At(d, digest, steps, i), digest, steps[i].ask)
  }

  /** Of the calls under one key that make Stripe refund, every one but the last failed after that and released the key. */
  lemma SecondRefundNeedsForgetting(d: Desk, digest: JsString -> string, steps: seq<Step>, i: nat, j: nat)
    requires i < j < |steps| && steps[i].Asked? && steps[j].Asked? && steps[i].ask.key == steps[j].ask.key
    requires RefundsAt(d, digest, steps, i) && RefundsAt(d, digest, steps, j)
    ensures ForgetsAt(d, digest, steps, i)
  {
    var key := steps[i].ask.key;
    GrantedLeaves(At(d, digest, steps, i), digest, steps[i].ask);
    AtNext(d, digest, steps, i);
    if !ForgetsAt(d, digest, steps, i) {
      ShutKeyStays(d, digest, steps, key, i + 1, j);
      ShutKeepsOut(At(d, digest, steps, j), digest, steps[j].ask, key);
    }
  }

  /**
   * And exactly such a call opens the way: after a call that made Stripe refund, the next one with its key makes it
   * refund again exactly when the first failed after that and released the key, both ask for the same, the checks
   * pass on the tables as they then are, and Stripe does not refuse.
   */
  lemma NextRefundsExactlyWhenForgotten(d: Desk, digest: JsString -> string, steps: seq<Step>, i: nat, j: nat)
    requires i < j < |steps| && steps[i].Asked? && steps[j].Asked? && steps[i].ask.key == steps[j].ask.key
    requires forall k | i < k < j && steps[k].Asked? :: steps[k].ask.key != steps[i].ask.key
    requires RefundsAt(d, digest, steps, i) && ToldApart(digest, steps[i].ask, steps[j].ask)
    ensures var ask := steps[j].ask;
            RefundsAt(d, digest, steps, j) <==>
              ForgetsAt(d, digest, steps, i) && SameRequest(steps[i].ask, ask) && !ask.stripe.NotMade? &&
              CheckRefund(At(d, digest, steps, j).db, ask.paymentId, ask.amount).Ready?
  {
    var first, ask := steps[i].ask, steps[j].ask;
    GrantedLeaves(At(d, digest, steps, i), digest, first);
    AtNext(d, digest, steps, i);
    UnusedKeyStays(d, digest, steps, first.key, i + 1, j);
    HashTellsRequests(digest, first.paymentId, first.amount, ask.paymentId, ask.amount);
    if !ForgetsAt(d, digest, steps, i) { ShutKeepsOut(At(d, digest, steps, j), digest, ask, first.key); }
  }

  function RefundsUnder(rs: seq<MadeRefund>, key: string): nat {
    if rs == [] then 0 else RefundsUnder(rs[..|rs| - 1], key) + if rs[|rs| - 1].key == key then 1 else 0
  }

  /** The calls under a key that made Stripe refund, failed after that and released it. */
  function Forgotten(d: Desk, digest: JsString -> string, steps: seq<Step>, key: string): nat {
    if steps == [] then 0
    else
      var rest, last := steps[..|steps| - 1], steps[|steps| - 1];
      Forgotten(d, digest, rest, key) +
      if last.Asked? && last.ask.key == key && Forgets(Run(d, digest, rest), digest, last.ask) then 1 else 0
  }

  /** Stripe refunds at most once more under a key than calls under it forgot, and not at all more while it is open. */
  lemma {:induction false} RefundsAreCounted(d: Desk, digest: JsString -> string, steps: seq<Step>, key: string)
    requires d.refunds == []
    ensures var end := Run(d, digest, steps);
            RefundsUnder(end.refunds, key) <= Forgotten(d, digest, steps, key) + if Shut(RowOf(end.keys, key)) then 1 else 0
  {
    if steps != [] {
      var rest, last := steps[..|steps| - 1], steps[|steps| - 1];
      var before := Run(d, digest, rest);
      RefundsAreCounted(d, digest, rest, key);
      if last.Asked? {
        RefundCounts(before, digest, last.ask, key);
        if Shut(RowOf(before.keys, key)) { ShutKeepsOut(before, digest, last.ask, key); }
        if Granted(before, digest, last.ask) { GrantedLeaves(before, digest, last.ask); }
        if last.ask.key != key { OtherKeyStays(before, digest, last, key); }
      }
    }
  }

  lemma RefundCounts(d: Desk, digest: JsString -> string, ask: Ask, key: string)
    ensures RefundsUnder(Apply(d, digest, Asked(ask)).refunds, key) ==
            RefundsUnder(d.refunds, key) + if ask.key == key && Refunds(d, digest, ask) then 1 else 0
  {
    var after := Apply(d, digest, Asked(ask)).refunds;
    if Refunds(d, digest, ask) { assert after[..|d.refunds|] == d.refunds; }
  }

  /** Under one key Stripe refunds twice only if some call under it failed after Stripe's refund and released the key. */
  lemma TwoRefundsOnlyAfterForgetting(d: Desk, digest: JsString -> string, steps: seq<Step>, key: string)
    requires d.refunds == [] && RefundsUnder(Run(d, digest, steps).refunds, key) >= 2
    ensures Forgotten(d, digest, steps, key) >= 1
  {
    RefundsAreCounted(d, digest, steps, key);
  }

  // ---- It happens ----

  /** A payment of 100, of which 40 are to be refunded; the row of the first refund cannot be saved. */
  function Payment100(id: Uuid): Db {
    Db([Payment(id, 1, None, None, Some("pi_1"), 100, 0, PaymentStatus.Succeeded, 0)], [], [], [], [], [], map[], map[])
  }

  function Ask40(id: Uuid, refundId: string, saved: Progress): Ask {
    Ask("k", id, Some(40), Made(refundId), saved, true, true, 0, 1)
  }

  /** Stripe refunds 40 twice under one key, and the tables know of one. */
  lemma FailedSaveRefundsTwice(id: Uuid, digest: JsString -> string)
    ensures var start := Desk(Payment100(id), map[], []);
            var end := Run(start, digest, [Asked(Ask40(id, "re_1", NothingSaved)), Asked(Ask40(id, "re_2", BothSaved))]);
            && end.refunds == [MadeRefund("k", id, 40), MadeRefund("k", id, 40)]
            && |end.db.payments| == 1 && end.db.payments[0].amountRefunded == 40
            && |end.db.transactions| == 1 && end.db.transactions[0].refundId == Some("re_2")
  {
    var start, first, second := Desk(Payment100(id), map[], []), Ask40(id, "re_1", NothingSaved), Ask40(id, "re_2", BothSaved);
    var steps := [Asked(first), Asked(second)];
    assert steps[..1] == [Asked(first)] && [Asked(first)][..0] == [];
    assert Run(start, digest, []) == start;
    var middle := Apply(start, digest, Asked(first));
    assert Run(start, digest, steps[..1]) == middle;
    FirstFortyForgotten(id, digest);
    SecondForty(id, digest, middle);
  }

  lemma FirstFortyForgotten(id: Uuid, digest: JsString -> string)
    ensures var start, ask := Desk(Payment100(id), map[], []), Ask40(id, "re_1", NothingSaved);
            var after := Apply(start, digest, Asked(ask));
            && Forgets(start, digest, ask) && after.db == start.db && after.refunds == [MadeRefund("k", id, 40)]
            && RowOf(after.keys, "k").Some? && after.keys["k"].status.Failed?
            && after.keys["k"].hash == RequestHash(digest, id, Some(40))
  {
    assert PaymentById(Payment100(id).payments, id) == 0;
    GrantedLeaves(Desk(Payment100(id), map[], []), digest, Ask40(id, "re_1", NothingSaved));
  }

  lemma SecondForty(id: Uuid, digest: JsString -> string, d: Desk)
    requires d.db == Payment100(id) && RowOf(d.keys, "k").Some? && d.keys["k"].status.Failed?
    requires d.keys["k"].hash == RequestHash(digest, id, Some(40))
    ensures var after := Apply(d, digest, Asked(Ask40(id, "re_2", BothSaved)));
            && after.refunds == d.refunds + [MadeRefund("k", id, 40)]
            && |after.db.payments| == 1 && after.db.payments[0].amountRefunded == 40
            && |after.db.transactions| == 1 && after.db.transactions[0].refundId == Some("re_2")
  {
    assert PaymentById(Payment100(id).payments, id) == 0;
  }

  // ---- What a call that is let in is answered, and what it writes ----

  /** What is left to refund of a payment, and what the call asks for. */
  function Remaining(p: Payment): int { p.amount - p.amountRefunded }

  function AskedFor(p: Payment, ask: Ask): int { if ask.amount.Some? then ask.amount.value else Remaining(p) }

  predicate CanBeRefunded(p: Payment) { p.status.Succeeded? || p.status.PartiallyRefunded? }

  /** The refusals, each for a payment that passed the ones before it. */
  predicate RefusalOf(p: Payment, ask: Ask, why: Refusal) {
    match why
    case NotFound => false
    case NotRefundable => !CanBeRefunded(p)
    case FullyRefunded => CanBeRefunded(p) && p.amountRefunded >= p.amount
    case BadAmount => CanBeRefunded(p) && p.amountRefunded < p.amount && !(0 < AskedFor(p, ask) <= Remaining(p))
    case NoIntent => CanBeRefunded(p) && p.amountRefunded < p.amount && 0 < AskedFor(p, ask) <= Remaining(p) && !HasIntent(p)
    case StripeFailed => MayBeRefunded(p, ask) && !ask.stripe.Made?
  }

  predicate HasIntent(p: Payment) { p.intentId.Some? && p.intentId.value != "" }

  /** The payment succeeded and is not all refunded, the amount is positive and within what is left, and it has an intent. */
  predicate MayBeRefunded(p: Payment, ask: Ask) {
    CanBeRefunded(p) && p.amountRefunded < p.amount && 0 < AskedFor(p, ask) <= p.amount - p.amountRefunded && HasIntent(p)
  }

  /** The row an administrator's refund is booked as. */
  predicate BookedRefund(t: Transaction, p: Payment, ask: Ask)
    requires ask.stripe.Made?
  {
    t.kind.Refund? && t.status.Succeeded? && t.userId == p.userId && t.paymentId == p.id && t.amount == AskedFor(p, ask) &&
    t.intentId == p.intentId && t.chargeId.None? && t.refundId == Some(ask.stripe.id) && t.occurredAt == ask.at
  }

  /** The payment once the refund is off its balance. */
  predicate TakenOff(p: Payment, q: Payment, amount: int) {
    q == p.(amountRefunded := p.amountRefunded + amount, status := q.status) &&
    (q.status.Refunded? <==> p.amountRefunded + amount >= p.amount) && (q.status.PartiallyRefunded? <==> p.amountRefunded + amount < p.amount)
  }

  /**
   * A call that is let in gets exactly one answer. Of a payment on file it is a refusal under that refusal's own
   * condition; otherwise Stripe has made the refund, and the answer is the refund itself if both saves and the
   * recording went through.
   */
  lemma AnswerExactlyWhen(d: Desk, digest: JsString -> string, ask: Ask, i: nat)
    requires Granted(d, digest, ask) && UniquePayments(d.db.payments) && i < |d.db.payments| && d.db.payments[i].id == ask.paymentId
    ensures var p, reply := d.db.payments[i], Serve(d, digest, ask).reply;
            && (forall why :: reply == Refused(why) <==> RefusalOf(p, ask, why))
            && (reply.Issued? <==> MayBeRefunded(p, ask) && ask.stripe.Made? && ask.saved.BothSaved? && ask.recorded)
            && (reply.Thrown? <==> MayBeRefunded(p, ask) && ask.stripe.Made? && !(ask.saved.BothSaved? && ask.recorded))
            && (reply.Issued? ==> reply.response == RefundResponse(ask.stripe.id, AskedFor(p, ask)))
  {
    var k := PaymentById(d.db.payments, ask.paymentId);
    assert k == i;
  }

  /** Without such a payment it is refused as not found. */
  lemma NotFoundExactlyWhen(d: Desk, digest: JsString -> string, ask: Ask)
    requires Granted(d, digest, ask)
    ensures Serve(d, digest, ask).reply == Refused(NotFound) <==> forall i | 0 <= i < |d.db.payments| :: d.db.payments[i].id != ask.paymentId
  {
    var k := PaymentById(d.db.payments, ask.paymentId);
    if k < |d.db.payments| { assert d.db.payments[k].id == ask.paymentId; }
  }

  /** What the saves leave, as far as they came. */
  predicate Written(db: Db, after: Db, i: nat, ask: Ask)
    requires i < |db.payments| && ask.stripe.Made?
  {
    var p, ps, ts := db.payments[i], db.payments, db.transactions;
    if ask.saved.NothingSaved? then after == db
    else && |after.transactions| == |ts| + 1 && after.transactions[..|ts|] == ts && BookedRefund(after.transactions[|ts|], p, ask)
         && |after.payments| == |ps| && (forall k | 0 <= k < |ps| && k != i :: after.payments[k] == ps[k])
         && (if ask.saved.RowSaved? then after.payments[i] == p else TakenOff(p, after.payments[i], AskedFor(p, ask)))
         && after == db.(transactions := after.transactions, payments := after.payments)
  }

  lemma SavedIsWritten(db: Db, i: nat, ask: Ask)
    requires i < |db.payments| && ask.stripe.Made?
    ensures Written(db, Saved(db, i, AskedFor(db.payments[i], ask), ask.stripe.id, ask.at, ask.saved), i, ask)
  {
  }

  /** Nothing is written before Stripe has made the refund; then its row, and then the payment, as far as the saves came. */
  lemma RefundWrites(d: Desk, digest: JsString -> string, ask: Ask, i: nat)
    requires Granted(d, digest, ask) && UniquePayments(d.db.payments) && i < |d.db.payments| && d.db.payments[i].id == ask.paymentId
    ensures var after := Serve(d, digest, ask).db;
            if MayBeRefunded(d.db.payments[i], ask) && ask.stripe.Made? then Written(d.db, after, i, ask) else after == d.db
  {
    var p, k := d.db.payments[i], PaymentById(d.db.payments, ask.paymentId);
    assert k == i;
    assert CheckRefund(d.db, ask.paymentId, ask.amount).Ready? <==> MayBeRefunded(p, ask);
    if MayBeRefunded(p, ask) && ask.stripe.Made? {
      assert Serve(d, digest, ask).db == Saved(d.db, i, AskedFor(p, ask), ask.stripe.id, ask.at, ask.saved);
      SavedIsWritten(d.db, i, ask);
    }
  }

  /** A call that is not let in changes nothing: another request's key conflicts, a completed one answers, one in progress waits. */
  lemma TurnedAwayExactlyWhen(d: Desk, digest: JsString -> string, ask: Ask)
    requires !Granted(d, digest, ask)
    ensures ask.key in d.keys
    ensures var call, row, hash := Serve(d, digest, ask), d.keys[ask.key], RequestHash(digest, ask.paymentId, ask.amount);
            && call.db == d.db && call.keys == d.keys
            && (call.reply.KeyConflict? <==> row.hash != hash)
            && (call.reply.Replayed? <==> row.hash == hash && row.status.Completed?)
            && (call.reply.Replayed? ==> call.reply.cached == row.snapshot)
            && (call.reply.KeyInFlight? <==> row.hash == hash && !row.status.Completed?)
  {
    var row, hash := RowOf(d.keys, ask.key), RequestHash(digest, ask.paymentId, ask.amount);
    AnswerOf(row, hash, ask.at, ask.ttl);
    assert d.keys[ask.key := d.keys[ask.key]] == d.keys;
  }

  lemma AnswerOf(row: Option<KeyRow<RefundResponse>>, hash: string, now: Time, ttl: Time)
    ensures var answer := ReserveAnswer(row, hash, now);
            !answer.Fresh? && !answer.Retry? ==>
              row.Some? && ReservedRow(row, hash, now, ttl) == row.value && (answer.ConflictError? <==> row.value.hash != hash) &&
              (answer.Cached? <==> row.value.hash == hash && row.value.status.Completed?)
  {
    Idempotency.AnswerExactlyWhen(row, hash, now);
    ReservedRowSpelledOut(row, hash, now, ttl);
  }

  /** What the call leaves its key as: completed with the response, failed, or still in progress until its expiry. */
  lemma KeyAfterCall(d: Desk, digest: JsString -> string, ask: Ask)
    requires Granted(d, digest, ask)
    ensures var call := Serve(d, digest, ask);
            && ask.key in call.keys && (forall key | key != ask.key :: RowOf(call.keys, key) == RowOf(d.keys, key))
            && var row := call.keys[ask.key];
               row.hash == RequestHash(digest, ask.paymentId, ask.amount) && row.expiresAt == ask.at + ask.ttl &&
               (if call.reply.Issued? then row.status.Completed? && row.snapshot == Some(call.reply.response)
                else row.snapshot.None? && if ask.released then row.status.Failed? else row.status.InProgress?)
  {
    ReservedRowSpelledOut(RowOf(d.keys, ask.key), RequestHash(digest, ask.paymentId, ask.amount), ask.at, ask.ttl);
  }

  // ---- Refused calls and issued refunds ----

  /** A refused call leaves the tables alone; the same request may try again with the same key exactly when it was released. */
  lemma RefusedCallMayRetry(d: Desk, digest: JsString -> string, ask: Ask, later: Time)
    requires Serve(d, digest, ask).reply.Refused?
    ensures var call := Serve(d, digest, ask);
            call.db == d.db &&
            (ReserveAnswer(RowOf(call.keys, ask.key), RequestHash(digest, ask.paymentId, ask.amount), later).Retry? <==> ask.released)
  {
    GrantedLeaves(d, digest, ask);
  }

  /** An issued refund is positive, fits the remaining balance, and leaves a balance that is not negative. */
  lemma RefundFitsBalance(d: Desk, digest: JsString -> string, ask: Ask)
    requires Serve(d, digest, ask).reply.Issued?
    ensures var call, i := Serve(d, digest, ask), PaymentById(d.db.payments, ask.paymentId);
            i < |d.db.payments| == |call.db.payments| &&
            var p, q := d.db.payments[i], call.db.payments[i];
            0 < call.reply.response.amount && q.amountRefunded == p.amountRefunded + call.reply.response.amount <= p.amount &&
            (q.status.Refunded? <==> q.amountRefunded == q.amount) && (q.status.PartiallyRefunded? <==> q.amountRefunded < q.amount)
  {
  }
}
