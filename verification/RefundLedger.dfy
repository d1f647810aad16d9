/**
 * The refund ledger kept against Stripe's own: administrators' refunds, refunds made on Stripe's side and
 * refund notices, in any order, repeated or partial.
 */
module RefundLedger {
  import opened Model
  import opened Snapshots
  import opened Handlers
  import opened HandlerInvariants
  import opened HandlerReplay
  import opened AdminRefund

  /** A refund as Stripe keeps it. One that failed or was canceled stays on the list, and in what notices carry. */
  datatype StripeRefund = StripeRefund(id: string, intent: string, amount: nat, status: string)

  /**
   * `torn` are the payments whose balance has fallen behind their refund rows: a refund's row was saved, and then the
   * payment was not.
   */
  datatype Books = Books(db: Db, stripe: seq<StripeRefund>, torn: set<Uuid>)

  datatype Step =
    | Admin(ask: Ask, status: string)         // one refundPayment call that is let in, and the status of its refund
    | AtStripe(refund: StripeRefund)          // a refund made on Stripe's side
    | Settles(index: nat, status: string)     // Stripe moves one of its refunds to another status
    | Notice(charge: ChargeInfo, at: Time)    // a charge.refunded delivery
    | OtherEvent(event: Event, at: Time)

  // ---- Sums ----

  datatype Entry = Entry(id: string, amount: nat)

  function Sum(es: seq<Entry>): nat {
    if es == [] then 0 else Sum(es[..|es| - 1]) + es[|es| - 1].amount
  }

  predicate DistinctIds(es: seq<Entry>) {
    forall i, j | 0 <= i < j < |es| :: es[i].id != es[j].id
  }

  lemma {:induction false} SumWithout(es: seq<Entry>, k: nat)
    requires k < |es|
    ensures Sum(es) == Sum(es[..k] + es[k + 1..]) + es[k].amount
  {
    var n := |es| - 1;
    if k == n {
      assert es[..k] + es[k + 1..] == es[..n];
    } else {
      SumWithout(es[..n], k);
      var rest := es[..k] + es[k + 1..];
      assert rest[..|rest| - 1] == es[..n][..k] + es[..n][k + 1..];
      assert rest[|rest| - 1] == es[n];
    }
  }

  /** A ledger whose every line is a line of another sums to no more. */
  lemma {:induction false} SubLedger(a: seq<Entry>, b: seq<Entry>)
    requires DistinctIds(a) && forall e | e in a :: e in b
    ensures Sum(a) <= Sum(b)
  {
    if a != [] {
      var head, e := a[..|a| - 1], a[|a| - 1];
      assert a == head + [e];
      assert e in b;
      var k :| 0 <= k < |b| && b[k] == e;
      var rest := b[..k] + b[k + 1..];
      forall x | x in head ensures x in rest {
        assert x in a && x in b;
        var i :| 0 <= i < |head| && head[i] == x;
        assert a[i].id != a[|a| - 1].id;
        var l :| 0 <= l < |b| && b[l] == x;
        assert l != k;
        if l < k { assert rest[l] == x; } else { assert rest[l - 1] == x; }
      }
      SubLedger(head, rest);
      SumWithout(b, k);
    }
  }

  predicate Failed(r: StripeRefund) { ToTransactionStatus(r.status).Failed? }

  predicate FailedAt(rs: seq<StripeRefund>, id: string) { exists i | 0 <= i < |rs| :: rs[i].id == id && Failed(rs[i]) }

  /** The lines of the refunds that have, or have not, failed at Stripe. */
  function Part(es: seq<Entry>, rs: seq<StripeRefund>, failed: bool): (part: seq<Entry>)
    ensures forall e :: e in part <==> e in es && FailedAt(rs, e.id) == failed
  {
    if es == [] then []
    else
      var rest, e := Part(es[..|es| - 1], rs, failed), es[|es| - 1];
      assert es == es[..|es| - 1] + [e];
      if FailedAt(rs, e.id) == failed then rest + [e] else rest
  }

  lemma {:induction false} PartsSumUp(es: seq<Entry>, rs: seq<StripeRefund>)
    ensures Sum(es) == Sum(Part(es, rs, false)) + Sum(Part(es, rs, true))
  {
    if es != [] {
      var n := |es| - 1;
      PartsSumUp(es[..n], rs);
      var failed := FailedAt(rs, es[n].id);
      var rest := Part(es[..n], rs, failed);
      assert (rest + [es[n]])[..|rest|] == rest;
    }
  }

  lemma {:induction false} PartIsDistinct(es: seq<Entry>, rs: seq<StripeRefund>, failed: bool)
    requires DistinctIds(es)
    ensures DistinctIds(Part(es, rs, failed))
  {
    if es != [] {
      var n := |es| - 1;
      PartIsDistinct(es[..n], rs, failed);
      var rest := Part(es[..n], rs, failed);
      forall k | 0 <= k < |rest| ensures rest[k].id != es[n].id {
        assert rest[k] in rest;
        OtherIds(es, n, rest[k]);
      }
    }
  }

  lemma OtherIds(es: seq<Entry>, n: nat, e: Entry)
    requires DistinctIds(es) && n < |es| && e in es[..n]
    ensures e.id != es[n].id
  {
    var l :| 0 <= l < n && es[..n][l] == e;
    assert es[l].id != es[n].id;
  }

  /** Stripe's refunds of one intent, whatever became of them. */
  function StripeEntries(rs: seq<StripeRefund>, intent: string): (es: seq<Entry>)
    ensures forall e :: e in es <==> exists i | 0 <= i < |rs| :: IsLine(rs[i], intent, e)
  {
    if rs == [] then []
    else
      var rest, r := StripeEntries(rs[..|rs| - 1], intent), rs[|rs| - 1];
      assert forall i | 0 <= i < |rs| - 1 :: rs[..|rs| - 1][i] == rs[i];
      if r.intent == intent then rest + [Entry(r.id, r.amount)] else rest
  }

  predicate IsLine(r: StripeRefund, intent: string, e: Entry) {
    r.id == e.id && r.intent == intent && r.amount == e.amount
  }

  lemma LineOf(rs: seq<StripeRefund>, intent: string, e: Entry) returns (i: nat)
    requires e in StripeEntries(rs, intent)
    ensures i < |rs| && IsLine(rs[i], intent, e)
  {
    i :| 0 <= i < |rs| && IsLine(rs[i], intent, e);
  }

  /** What the list of an intent's refunds adds up to, and what of it was really paid back. */
  function StripeTotal(rs: seq<StripeRefund>, intent: string): nat { Sum(StripeEntries(rs, intent)) }

  function EffectiveTotal(rs: seq<StripeRefund>, intent: string): nat {
    Sum(Part(StripeEntries(rs, intent), rs, false))
  }

  /** A payment's refund rows as ledger lines. */
  function LocalEntries(ts: seq<Transaction>, paymentId: Uuid): (es: seq<Entry>)
    requires RefundsCarryIds(ts)
  {
    if ts == [] then []
    else
      var rest, t := LocalEntries(ts[..|ts| - 1], paymentId), ts[|ts| - 1];
      if IsRefundOf(t, paymentId) then rest + [Entry(t.refundId.value, t.amount)] else rest
  }

  predicate RefundsCarryIds(ts: seq<Transaction>) {
    forall i | 0 <= i < |ts| :: if ts[i].kind.Refund? then ts[i].refundId.Some? && ts[i].amount >= 0 else ts[i].refundId.None?
  }

  /** Transaction `t` is the refund of `paymentId` that ledger line `e` stands for. */
  predicate IsBooked(t: Transaction, paymentId: Uuid, e: Entry) {
    IsRefundOf(t, paymentId) && t.refundId == Some(e.id) && t.amount == e.amount
  }

  lemma {:induction false} LocalEntriesSum(ts: seq<Transaction>, paymentId: Uuid)
    requires RefundsCarryIds(ts)
    ensures RefundSum(ts, paymentId) == Sum(LocalEntries(ts, paymentId))
  {
    if ts != [] {
      LocalEntriesSum(ts[..|ts| - 1], paymentId);
      var rest := LocalEntries(ts[..|ts| - 1], paymentId);
      if IsRefundOf(ts[|ts| - 1], paymentId) { assert LocalEntries(ts, paymentId)[..|rest|] == rest; }
    }
  }

  lemma {:induction false} LocalEntryRow(ts: seq<Transaction>, paymentId: Uuid, e: Entry) returns (i: nat)
    requires RefundsCarryIds(ts) && e in LocalEntries(ts, paymentId)
    ensures i < |ts| && IsBooked(ts[i], paymentId, e)
  {
    i := |ts| - 1;
    if !IsBooked(ts[i], paymentId, e) { i := LocalEntryRow(ts[..i], paymentId, e); }
  }

  lemma {:induction false} BookedIsLocalEntry(ts: seq<Transaction>, paymentId: Uuid, i: nat, e: Entry)
    requires RefundsCarryIds(ts) && i < |ts| && IsBooked(ts[i], paymentId, e)
    ensures e in LocalEntries(ts, paymentId)
  {
    if i < |ts| - 1 { BookedIsLocalEntry(ts[..|ts| - 1], paymentId, i, e); }
  }

  lemma {:induction false} LocalEntriesDistinct(ts: seq<Transaction>, paymentId: Uuid)
    requires RefundsCarryIds(ts) && UniqueTransactions(ts)
    ensures DistinctIds(LocalEntries(ts, paymentId))
  {
    if ts != [] {
      var n := |ts| - 1;
      LocalEntriesDistinct(ts[..n], paymentId);
      var rest := LocalEntries(ts[..n], paymentId);
      forall k | 0 <= k < |rest| ensures Some(rest[k].id) != ts[n].refundId {
        var i := LocalEntryRow(ts[..n], paymentId, rest[k]);
        assert ts[i].refundId != ts[n].refundId;
      }
    }
  }

  // ---- The invariant ----

  /** Refund row `t` is one of Stripe's refunds, made on the intent of the payment it is booked on. */
  predicate Backed(t: Transaction, ps: seq<Payment>, stripe: seq<StripeRefund>) {
    t.refundId.Some? && t.amount >= 0 &&
    exists i | 0 <= i < |ps| ::
      ps[i].id == t.paymentId && ps[i].intentId.Some? && OnList(t, stripe, ps[i].intentId.value)
  }

  predicate OnList(t: Transaction, stripe: seq<StripeRefund>, intent: string)
    requires t.refundId.Some? && t.amount >= 0
  {
    Entry(t.refundId.value, t.amount) in StripeEntries(stripe, intent)
  }

  predicate AllBacked(ts: seq<Transaction>, ps: seq<Payment>, stripe: seq<StripeRefund>) {
    forall i | 0 <= i < |ts| :: if ts[i].kind.Refund? then Backed(ts[i], ps, stripe) else ts[i].refundId.None?
  }

  /**
   * What Stripe promises: ids are never reused, refunds are of positive amounts, and those of an intent that did not
   * fail never exceed what was paid.
   */
  predicate StripeSound(ps: seq<Payment>, stripe: seq<StripeRefund>) {
    (forall i, j | 0 <= i < j < |stripe| :: stripe[i].id != stripe[j].id) &&
    (forall i | 0 <= i < |stripe| :: stripe[i].amount > 0) &&
    (forall i | 0 <= i < |ps| && ps[i].intentId.Some? :: EffectiveTotal(stripe, ps[i].intentId.value) <= ps[i].amount)
  }

  /** No balance is ahead of its payment's refund rows, and only a torn one is behind. */
  predicate Summed(ps: seq<Payment>, ts: seq<Transaction>, torn: set<Uuid>) {
    forall i | 0 <= i < |ps| ::
      ps[i].amountRefunded <= RefundSum(ts, ps[i].id) &&
      (ps[i].id !in torn ==> ps[i].amountRefunded == RefundSum(ts, ps[i].id))
  }

  predicate Balanced(b: Books) {
    Valid(b.db) && StripeSound(b.db.payments, b.stripe) &&
    AllBacked(b.db.transactions, b.db.payments, b.stripe) && Summed(b.db.payments, b.db.transactions, b.torn)
  }

  // ---- Steps ----

  predicate FreshId(stripe: seq<StripeRefund>, id: string) {
    id != "" && forall r | r in stripe :: r.id != id
  }

  /** Stripe takes a refund under a new id, within what it promises. */
  predicate Accepts(b: Books, r: StripeRefund) {
    FreshId(b.stripe, r.id) && StripeSound(b.db.payments, b.stripe + [r])
  }

  /** A notice lists refunds Stripe has on the charge's intent, with their amounts and any status they had on the way. */
  predicate Truthful(b: Books, charge: ChargeInfo) {
    Truthy(charge.intent) && charge.refunds.Some? && charge.refunds.value != [] &&
    forall item | item in charge.refunds.value ::
      item.id != "" && item.amount.Some? && item.amount.value >= 0 &&
      Entry(item.id, item.amount.value) in StripeEntries(b.stripe, charge.intent.value)
  }

  /** A completion that goes through and gives payment `i` another intent than it had. */
  predicate Rebinds(ps: seq<Payment>, s: Session, i: nat)
    requires i < |ps|
  {
    Truthy(IdOf(s.intent)) && IdOf(s.intent) != ps[i].intentId && !PaymentClash(ps, i, CompletedPayment(ps[i], s))
  }

  /** If it does, no refund is booked on the payment, and Stripe's promise holds for it and its new intent. */
  predicate BindsSafely(b: Books, s: Session) {
    var named := ExtractLocalIds(s.metadata).paymentId;
    if named.None? then true
    else
      var i, ps := PaymentById(b.db.payments, named.value), b.db.payments;
      if i < |ps| && Rebinds(ps, s, i)
      then (forall t | 0 <= t < |b.db.transactions| :: !IsRefundOf(b.db.transactions[t], ps[i].id)) &&
           EffectiveTotal(b.stripe, IdOf(s.intent).value) <= ps[i].amount
      else true
  }

  predicate AllowedEvent(b: Books, kind: EventKind, o: EventObject) {
    !kind.ChargeRefunded? && (kind.CheckoutCompleted? && o.SessionObject? ==> BindsSafely(b, o.session))
  }

  predicate Allowed(b: Books, step: Step) {
    match step
    case Admin(ask, _) => !ask.stripe.NotMade? ==> FreshId(b.stripe, ask.stripe.id)
    case AtStripe(r) => Accepts(b, r)
    case Settles(i, status) =>
      i < |b.stripe| && StripeSound(b.db.payments, b.stripe[i := b.stripe[i].(status := status)])
    case Notice(charge, _) => Truthful(b, charge)
    case OtherEvent(e, _) => AllowedEvent(b, KindOf(e.eventType), OrElse(e.data, NullObject))
  }

  /** What Stripe does with an administrator's refund of `amount` on row `i`. */
  function Asked(b: Books, i: nat, amount: int, refundId: string, status: string): Option<StripeRefund>
    requires i < |b.db.payments|
  {
    if amount > 0 && Truthy(b.db.payments[i].intentId) then
      var r := StripeRefund(refundId, b.db.payments[i].intentId.value, amount, status);
      if Accepts(b, r) then Some(r) else None
    else None
  }

  /** Stripe has made `r` for an administrator's call; what is saved of it depends on how far the call came. */
  function AfterAdmin(b: Books, i: nat, amount: int, ask: Ask, r: StripeRefund): Books
    requires i < |b.db.payments|
  {
    if ask.stripe.Made?
    then Books(Saved(b.db, i, amount, r.id, ask.at, ask.saved), b.stripe + [r],
               if ask.saved.RowSaved? then b.torn + {b.db.payments[i].id} else b.torn)
    else b.(stripe := b.stripe + [r])
  }

  /** A notice sums its payment's rows anew. */
  function AfterNotice(b: Books, charge: ChargeInfo, at: Time): Books
    requires charge.intent.Some?
  {
    var i := PaymentByIntent(b.db.payments, charge.intent.value);
    Books(OnChargeRefunded(b.db, charge, at).db, b.stripe,
          if i < |b.db.payments| then b.torn - {b.db.payments[i].id} else b.torn)
  }

  function Apply(b: Books, step: Step): Books {
    if !Allowed(b, step) then b
    else
      match step
      case Admin(ask, status) =>
        var check := CheckRefund(b.db, ask.paymentId, ask.amount);
        if check.Rejected? || ask.stripe.NotMade? then b
        else
          var made := Asked(b, check.at, check.amount, ask.stripe.id, status);
          if made.None? then b else AfterAdmin(b, check.at, check.amount, ask, made.value)
      case AtStripe(r) => b.(stripe := b.stripe + [r])
      case Settles(i, status) => b.(stripe := b.stripe[i := b.stripe[i].(status := status)])
      case Notice(charge, at) => AfterNotice(b, charge, at)
      case OtherEvent(e, at) => b.(db := Dispatch(b.db, e, at).db)
  }

  function Run(b: Books, steps: seq<Step>): Books {
    if steps == [] then b else Apply(Run(b, steps[..|steps| - 1]), steps[|steps| - 1])
  }

  // ---- Refund notices ----

  lemma {:induction false} NoticeKeepsBacked(b: Books, i: nat, items: seq<RefundItem>, charge: ChargeInfo, now: Time)
    requires Balanced(b) && Truthful(b, charge) && i < |b.db.payments| && b.db.payments[i].intentId == charge.intent
    requires forall item | item in items :: item in charge.refunds.value
    ensures var ts := RecordRefunds(b.db.transactions, items, b.db.payments[i], charge, now);
            AllBacked(ts, b.db.payments, b.stripe) &&
            forall id: Uuid | id != b.db.payments[i].id :: RefundSum(ts, id) == RefundSum(b.db.transactions, id)
  {
    if items != [] {
      var p := b.db.payments[i];
      var head, item := items[..|items| - 1], items[|items| - 1];
      NoticeKeepsBacked(b, i, head, charge, now);
      assert item in items;
      var mid := RecordRefunds(b.db.transactions, head, p, charge, now);
      var ts := RecordRefunds(b.db.transactions, items, p, charge, now);
      if |ts| > |mid| {
        assert ts[..|mid|] == mid;
        assert Backed(ts[|mid|], b.db.payments, b.stripe);
      }
    }
  }

  /** The payment the notice is about takes its new sum, and no other payment's rows have changed. */
  lemma NoticeKeepsSums(ps: seq<Payment>, before: seq<Transaction>, ts: seq<Transaction>, i: nat, p: Payment, torn: set<Uuid>)
    requires Summed(ps, before, torn) && UniquePayments(ps) && i < |ps| && p.id == ps[i].id
    requires p.amountRefunded == RefundSum(ts, p.id)
    requires forall id: Uuid | id != p.id :: RefundSum(ts, id) == RefundSum(before, id)
    ensures Summed(ps[i := p], ts, torn - {p.id})
  {
    var qs := ps[i := p];
    forall k | 0 <= k < |qs| && k != i ensures qs[k].id != p.id {
      assert ps[k].id != ps[i].id;
    }
  }

  lemma NoticeKeepsBalance(b: Books, charge: ChargeInfo, now: Time)
    requires Balanced(b) && Truthful(b, charge)
    ensures Balanced(AfterNotice(b, charge, now))
  {
    var ps := b.db.payments;
    var i := PaymentByIntent(ps, charge.intent.value);
    ChargeRefundedKeepsValid(b.db, charge, now);
    if i < |ps| {
      var after := OnChargeRefunded(b.db, charge, now).db;
      NoticeKeepsBacked(b, i, charge.refunds.value, charge, now);
      NoticeKeepsSums(ps, b.db.transactions, after.transactions, i, after.payments[i], b.torn);
      SameIdsStayBacked(after.transactions, ps, after.payments, b.stripe);
      SoundAfterSave(ps, i, after.payments[i], b.stripe);
    }
  }

  lemma SameIdsStayBacked(ts: seq<Transaction>, ps: seq<Payment>, qs: seq<Payment>, stripe: seq<StripeRefund>)
    requires AllBacked(ts, ps, stripe) && |ps| == |qs|
    requires forall k | 0 <= k < |ps| :: ps[k].id == qs[k].id && ps[k].intentId == qs[k].intentId
    ensures AllBacked(ts, qs, stripe)
  {
    forall t | 0 <= t < |ts| && ts[t].kind.Refund? ensures Backed(ts[t], qs, stripe) {
      assert Backed(ts[t], ps, stripe);
      var i :| 0 <= i < |ps| && ps[i].id == ts[t].paymentId && ps[i].intentId.Some? &&
               OnList(ts[t], stripe, ps[i].intentId.value);
      assert qs[i].id == ts[t].paymentId;
    }
  }

  // ---- Refunds made at Stripe, by an administrator or otherwise ----

  /** A list that keeps every line of another. */
  ghost predicate KeepsLines(stripe: seq<StripeRefund>, more: seq<StripeRefund>) {
    forall intent, e :: e in StripeEntries(stripe, intent) ==> e in StripeEntries(more, intent)
  }

  lemma MoreKeepsLines(stripe: seq<StripeRefund>, r: StripeRefund)
    ensures KeepsLines(stripe, stripe + [r])
  {
    forall intent, e | e in StripeEntries(stripe, intent) ensures e in StripeEntries(stripe + [r], intent) {
      var i :| 0 <= i < |stripe| && IsLine(stripe[i], intent, e);
      assert (stripe + [r])[i] == stripe[i];
    }
  }

  lemma SettlingKeepsLines(stripe: seq<StripeRefund>, i: nat, status: string)
    requires i < |stripe|
    ensures KeepsLines(stripe, stripe[i := stripe[i].(status := status)])
  {
    var more := stripe[i := stripe[i].(status := status)];
    forall intent, e | e in StripeEntries(stripe, intent) ensures e in StripeEntries(more, intent) {
      var k :| 0 <= k < |stripe| && IsLine(stripe[k], intent, e);
      assert IsLine(more[k], intent, e);
    }
  }

  lemma LinesKeptStayBacked(ts: seq<Transaction>, ps: seq<Payment>, stripe: seq<StripeRefund>, more: seq<StripeRefund>)
    requires AllBacked(ts, ps, stripe) && KeepsLines(stripe, more)
    ensures AllBacked(ts, ps, more)
  {
    forall t | 0 <= t < |ts| && ts[t].kind.Refund? ensures Backed(ts[t], ps, more) {
      assert Backed(ts[t], ps, stripe);
      var i :| 0 <= i < |ps| && ps[i].id == ts[t].paymentId && ps[i].intentId.Some? &&
               OnList(ts[t], stripe, ps[i].intentId.value);
      assert OnList(ts[t], more, ps[i].intentId.value);
    }
  }

  lemma BackedHasUsedId(t: Transaction, ps: seq<Payment>, stripe: seq<StripeRefund>, id: string)
    requires Backed(t, ps, stripe) && FreshId(stripe, id)
    ensures t.refundId != Some(id)
  {
    var i :| 0 <= i < |ps| && ps[i].id == t.paymentId && ps[i].intentId.Some? && OnList(t, stripe, ps[i].intentId.value);
    assert OnList(t, stripe, ps[i].intentId.value);
    var k := LineOf(stripe, ps[i].intentId.value, Entry(t.refundId.value, t.amount));
    assert stripe[k] in stripe;
  }

  /** An id Stripe has not used is on no local row. */
  lemma FreshIdIsUnbooked(b: Books, id: string)
    requires Balanced(b) && FreshId(b.stripe, id)
    ensures forall t | 0 <= t < |b.db.transactions| :: b.db.transactions[t].refundId != Some(id)
  {
    forall t | 0 <= t < |b.db.transactions| && b.db.transactions[t].kind.Refund?
      ensures b.db.transactions[t].refundId != Some(id)
    {
      BackedHasUsedId(b.db.transactions[t], b.db.payments, b.stripe, id);
    }
  }

  lemma AdminKeepsSums(ps: seq<Payment>, ts: seq<Transaction>, i: nat, p: Payment, t: Transaction, torn: set<Uuid>)
    requires Summed(ps, ts, torn) && UniquePayments(ps) && i < |ps| && IsRefundOf(t, ps[i].id) && p.id == ps[i].id
    ensures p.amountRefunded == ps[i].amountRefunded + t.amount ==> Summed(ps[i := p], ts + [t], torn)
    ensures t.amount >= 0 ==> Summed(ps, ts + [t], torn + {p.id})
  {
    var qs := ps[i := p];
    assert (ts + [t])[..|ts|] == ts;
    forall k | 0 <= k < |ps| && k != i ensures ps[k].id != p.id {}
    assert forall k | 0 <= k < |ps| ::
      RefundSum(ts + [t], ps[k].id) == RefundSum(ts, ps[k].id) + if k == i then t.amount else 0;
    assert forall k | 0 <= k < |ps| :: qs[k].id == ps[k].id;
  }

  lemma AdminKeepsBacked(ps: seq<Payment>, ts: seq<Transaction>, stripe: seq<StripeRefund>, i: nat, t: Transaction, r: StripeRefund)
    requires AllBacked(ts, ps, stripe) && i < |ps| && IsRefundOf(t, ps[i].id) && t.amount >= 0
    requires t.refundId == Some(r.id) && ps[i].intentId == Some(r.intent) && t.amount == r.amount
    ensures AllBacked(ts + [t], ps, stripe + [r])
  {
    MoreKeepsLines(stripe, r);
    LinesKeptStayBacked(ts, ps, stripe, stripe + [r]);
    assert IsLine((stripe + [r])[|stripe|], r.intent, Entry(r.id, r.amount));
    assert OnList(t, stripe + [r], ps[i].intentId.value);
    assert Backed(t, ps, stripe + [r]);
    var more := ts + [t];
    forall k | 0 <= k < |more| && k < |ts| ensures more[k] == ts[k] {}
  }

  lemma SoundAfterSave(ps: seq<Payment>, i: nat, p: Payment, stripe: seq<StripeRefund>)
    requires StripeSound(ps, stripe) && i < |ps| && p.intentId == ps[i].intentId && p.amount == ps[i].amount
    ensures StripeSound(ps[i := p], stripe)
  {
    var qs := ps[i := p];
    forall k | 0 <= k < |qs| && qs[k].intentId.Some? ensures EffectiveTotal(stripe, qs[k].intentId.value) <= qs[k].amount {
      assert qs[k].intentId == ps[k].intentId;
    }
  }

  lemma AdminKeepsUnique(ts: seq<Transaction>, t: Transaction)
    requires UniqueTransactions(ts) && t.kind.Refund? && forall k | 0 <= k < |ts| :: ts[k].refundId != t.refundId
    ensures UniqueTransactions(ts + [t])
  {
  }

  /** The row of Stripe's refund `r` goes in, and the payment takes it into its balance or is torn. */
  lemma BookedRefundKeepsBalance(b: Books, i: nat, amount: int, r: StripeRefund, now: Time)
    requires Balanced(b) && i < |b.db.payments| && b.db.payments[i].intentId == Some(r.intent)
    requires amount == r.amount && Accepts(b, r)
    ensures var after := AfterRefund(b.db, i, amount, r.id, now);
            && Balanced(Books(after, b.stripe + [r], b.torn))
            && Balanced(Books(b.db.(transactions := after.transactions), b.stripe + [r], b.torn + {b.db.payments[i].id}))
  {
    var after := AfterRefund(b.db, i, amount, r.id, now);
    var ps, ts := b.db.payments, b.db.transactions;
    var p, t := after.payments[i], after.transactions[|ts|];
    assert after.payments == ps[i := p] && after.transactions == ts + [t];
    assert Valid(after) && Valid(b.db.(transactions := after.transactions)) by {
      FreshIdIsUnbooked(b, r.id);
      AdminKeepsUnique(ts, t);
      PaymentSaveKeepsUnique(ps, i, p);
    }
    AdminKeepsBacked(ps, ts, b.stripe, i, t, r);
    assert AllBacked(after.transactions, after.payments, b.stripe + [r]) by {
      SameIdsStayBacked(ts + [t], ps, ps[i := p], b.stripe + [r]);
    }
    AdminKeepsSums(ps, ts, i, p, t, b.torn);
    SoundAfterSave(ps, i, p, b.stripe + [r]);
  }

  lemma AdminKeepsBalance(b: Books, i: nat, amount: int, ask: Ask, status: string)
    requires Balanced(b) && i < |b.db.payments| && !ask.stripe.NotMade? && Asked(b, i, amount, ask.stripe.id, status).Some?
    ensures Balanced(AfterAdmin(b, i, amount, ask, Asked(b, i, amount, ask.stripe.id, status).value))
  {
    var r := Asked(b, i, amount, ask.stripe.id, status).value;
    if ask.stripe.Made? && !ask.saved.NothingSaved? {
      BookedRefundKeepsBalance(b, i, amount, r, ask.at);
    } else {
      MoreKeepsLines(b.stripe, r);
      LinesKeptStayBacked(b.db.transactions, b.db.payments, b.stripe, b.stripe + [r]);
    }
  }

  /** A call whose second save fails leaves the balance behind by its refund, which the rows have. */
  lemma TornSaveFallsBehind(b: Books, i: nat, amount: int, ask: Ask, r: StripeRefund)
    requires Balanced(b) && i < |b.db.payments| && b.db.payments[i].id !in b.torn && ask.stripe.Made? && ask.saved.RowSaved?
    ensures var after := AfterAdmin(b, i, amount, ask, r);
            after.db.payments == b.db.payments &&
            after.db.payments[i].amountRefunded + amount == RefundSum(after.db.transactions, after.db.payments[i].id)
  {
    var ts := b.db.transactions;
    assert AfterAdmin(b, i, amount, ask, r).db.transactions[..|ts|] == ts;
  }

  /** The next notice for the payment mends it. */
  lemma NoticeMends(b: Books, charge: ChargeInfo, now: Time, i: nat)
    requires Balanced(b) && Truthful(b, charge) && i == PaymentByIntent(b.db.payments, charge.intent.value) < |b.db.payments|
    ensures var after := AfterNotice(b, charge, now);
            |after.db.payments| == |b.db.payments| &&
            after.db.payments[i].amountRefunded == RefundSum(after.db.transactions, after.db.payments[i].id)
  {
    NoticeKeepsBalance(b, charge, now);
  }

  // ---- Every other event ----

  /** Other events leave ids, intents, amounts and balances alone, and book no refunds. */
  ghost predicate LedgerUntouched(a: Db, b: Db) {
    |a.payments| == |b.payments| &&
    (forall i | 0 <= i < |a.payments| ::
      b.payments[i].id == a.payments[i].id && b.payments[i].intentId == a.payments[i].intentId &&
      b.payments[i].amount == a.payments[i].amount && b.payments[i].amountRefunded == a.payments[i].amountRefunded) &&
    (b.transactions == a.transactions ||
     exists t: Transaction | t.kind.Charge? && t.refundId.None? :: b.transactions == a.transactions + [t])
  }

  lemma ChargeLeavesLedger(db: Db, intent: Intent, now: Time)
    ensures LedgerUntouched(db, OnIntentSucceeded(db, intent, now).db)
  {
    var after := OnIntentSucceeded(db, intent, now).db;
    if |after.transactions| > |db.transactions| {
      var t := after.transactions[|db.transactions|];
      assert t.kind.Charge? && t.refundId.None? && after.transactions == db.transactions + [t];
    }
  }

  lemma ExpiryLeavesLedger(db: Db, s: Session)
    ensures LedgerUntouched(db, OnCheckoutExpired(db, s).db)
  {
  }

  lemma FailureLeavesLedger(db: Db, intent: Intent)
    ensures LedgerUntouched(db, OnIntentFailed(db, intent).db)
  {
  }

  lemma ChargeSuccessLeavesLedger(db: Db, charge: ChargeInfo)
    ensures LedgerUntouched(db, OnChargeSucceeded(db, charge).db)
  {
  }

  lemma InvoiceFailureLeavesLedger(db: Db, inv: StripeInvoice, now: Time)
    ensures LedgerUntouched(db, OnInvoicePaymentFailed(db, inv, now).db)
  {
  }

  lemma OtherEventsLeaveLedger(db: Db, kind: EventKind, o: EventObject, now: Time)
    requires !kind.ChargeRefunded? && !kind.CheckoutCompleted?
    ensures LedgerUntouched(db, Handle(db, kind, o, now).db)
  {
    match kind
    case IntentSucceeded => if o.IntentObject? { ChargeLeavesLedger(db, o.intent, now); }
    case CheckoutExpired => if o.SessionObject? { ExpiryLeavesLedger(db, o.session); }
    case IntentFailed => if o.IntentObject? { FailureLeavesLedger(db, o.intent); }
    case ChargeSucceeded => if o.ChargeObject? { ChargeSuccessLeavesLedger(db, o.charge); }
    case InvoicePaymentFailed => if o.InvoiceObject? { InvoiceFailureLeavesLedger(db, o.invoice, now); }
    case _ =>
  }

  lemma UntouchedKeepsBalance(b: Books, after: Db)
    requires Balanced(b) && Valid(after) && LedgerUntouched(b.db, after)
    ensures Balanced(b.(db := after))
  {
    var ts := b.db.transactions;
    if after.transactions != ts {
      var t: Transaction :| t.kind.Charge? && t.refundId.None? && after.transactions == ts + [t];
      assert after.transactions[..|ts|] == ts;
      assert forall id: Uuid :: RefundSum(after.transactions, id) == RefundSum(ts, id);
      assert AllBacked(after.transactions, b.db.payments, b.stripe);
    }
    SameIdsStayBacked(after.transactions, b.db.payments, after.payments, b.stripe);
  }

  // ---- Checkout completions ----

  /** A completion moves at most intents; amounts, balances and the refund rows stay. */
  lemma CompletionLeavesBalances(db: Db, s: Session)
    ensures var after := OnCheckoutCompleted(db, s).db;
            after.transactions == db.transactions && |after.payments| == |db.payments| &&
            forall i | 0 <= i < |db.payments| ::
              after.payments[i].id == db.payments[i].id && after.payments[i].amount == db.payments[i].amount &&
              after.payments[i].amountRefunded == db.payments[i].amountRefunded
  {
    var ids, ps := ExtractLocalIds(s.metadata), OnCheckoutCompleted(db, s).db.payments;
    if ids.paymentId.Some? && PaymentById(db.payments, ids.paymentId.value) < |db.payments| {
      var i := PaymentById(db.payments, ids.paymentId.value);
      assert ps == db.payments || ps == db.payments[i := CompletedPayment(db.payments[i], s)];
    }
  }

  /** The completed payment `i` keeps the books balanced when it is bound safely, or not bound anew at all. */
  lemma BindingKeepsBalance(b: Books, i: nat, p: Payment)
    requires Balanced(b) && i < |b.db.payments| && !PaymentClash(b.db.payments, i, p)
    requires p == b.db.payments[i].(intentId := p.intentId, sessionId := p.sessionId, status := p.status)
    requires p.intentId != b.db.payments[i].intentId ==>
      p.intentId.Some? && EffectiveTotal(b.stripe, p.intentId.value) <= p.amount &&
      forall t | 0 <= t < |b.db.transactions| :: !IsRefundOf(b.db.transactions[t], p.id)
    ensures Balanced(b.(db := b.db.(payments := b.db.payments[i := p])))
  {
    var ps, ts := b.db.payments, b.db.transactions;
    var qs := ps[i := p];
    PaymentSaveKeepsUnique(ps, i, p);
    forall t | 0 <= t < |ts| && ts[t].kind.Refund? ensures Backed(ts[t], qs, b.stripe) {
      BackingSurvives(ts[t], ps, qs, i, b.stripe);
    }
    assert StripeSound(qs, b.stripe);
    assert Summed(qs, ts, b.torn) by { assert forall k | 0 <= k < |ps| :: qs[k].id == ps[k].id; }
  }

  lemma BackingSurvives(t: Transaction, ps: seq<Payment>, qs: seq<Payment>, i: nat, stripe: seq<StripeRefund>)
    requires Backed(t, ps, stripe) && t.kind.Refund? && i < |ps| == |qs| && qs == ps[i := qs[i]] && qs[i].id == ps[i].id
    requires qs[i].intentId == ps[i].intentId || !IsRefundOf(t, ps[i].id)
    ensures Backed(t, qs, stripe)
  {
    var k :| 0 <= k < |ps| && ps[k].id == t.paymentId && ps[k].intentId.Some? && OnList(t, stripe, ps[k].intentId.value);
    assert OnList(t, stripe, ps[k].intentId.value);
    assert qs[k].id == t.paymentId && qs[k].intentId == ps[k].intentId;
  }

  /** A booked refund is on one intent's list only. */
  lemma OneIntentPerRefund(ps: seq<Payment>, qs: seq<Payment>, stripe: seq<StripeRefund>, t: Transaction, i: nat)
    requires UniquePayments(ps) && UniquePayments(qs) && i < |ps| == |qs| && qs[i].id == ps[i].id && t.paymentId == ps[i].id
    requires forall j, k | 0 <= j < k < |stripe| :: stripe[j].id != stripe[k].id
    requires Backed(t, ps, stripe) && Backed(t, qs, stripe)
    ensures ps[i].intentId == qs[i].intentId
  {
    BackedIsAtStripe(ps, stripe, t, i);
    BackedIsAtStripe(qs, stripe, t, i);
    var e := Entry(t.refundId.value, t.amount);
    SameIdSameLine(stripe, ps[i].intentId.value, e, qs[i].intentId.value, e);
  }

  /** So balanced books bind no payment with refunds anew. */
  lemma BalancedBindsSafely(b: Books, i: nat, p: Payment)
    requires Balanced(b) && i < |b.db.payments| && p.id == b.db.payments[i].id && p.amount == b.db.payments[i].amount
    requires Balanced(b.(db := b.db.(payments := b.db.payments[i := p])))
    requires p.intentId.Some? && p.intentId != b.db.payments[i].intentId
    ensures EffectiveTotal(b.stripe, p.intentId.value) <= p.amount
    ensures forall t | 0 <= t < |b.db.transactions| :: !IsRefundOf(b.db.transactions[t], p.id)
  {
    var ps, ts, qs := b.db.payments, b.db.transactions, b.db.payments[i := p];
    assert qs[i] == p;
    forall t | 0 <= t < |ts| ensures !IsRefundOf(ts[t], p.id) {
      if IsRefundOf(ts[t], p.id) { OneIntentPerRefund(ps, qs, b.stripe, ts[t], i); }
    }
  }

  /** The payments after a completion: the named one completed, unless there is none or the save is refused. */
  lemma CompletedPayments(db: Db, s: Session)
    ensures var named, after := ExtractLocalIds(s.metadata).paymentId, OnCheckoutCompleted(db, s).db;
            && after == db.(payments := after.payments, subscriptions := after.subscriptions)
            && (if named.Some? && PaymentById(db.payments, named.value) < |db.payments| then
                  var i := PaymentById(db.payments, named.value);
                  var p := CompletedPayment(db.payments[i], s);
                  after.payments == if p != db.payments[i] && PaymentClash(db.payments, i, p) then db.payments else db.payments[i := p]
                else after.payments == db.payments)
  {
  }

  /** The books say nothing of subscriptions but that they are valid. */
  lemma SubscriptionsAside(b: Books, after: Db)
    requires after == b.db.(payments := after.payments, subscriptions := after.subscriptions) && Valid(after)
    requires UniqueSubscriptions(b.db.subscriptions)
    ensures Balanced(b.(db := after)) <==> Balanced(b.(db := b.db.(payments := after.payments)))
  {
  }

  /**
   * A completion keeps the books balanced exactly when it binds safely: if it gives the payment its metadata names
   * another intent, no refund is booked on the payment, and what Stripe paid back of the new intent is within the
   * payment's amount.
   */
  lemma CompletionKeepsBalanceExactlyWhen(b: Books, s: Session)
    requires Balanced(b)
    ensures Balanced(b.(db := OnCheckoutCompleted(b.db, s).db)) <==> BindsSafely(b, s)
  {
    var after, ps, named := OnCheckoutCompleted(b.db, s).db, b.db.payments, ExtractLocalIds(s.metadata).paymentId;
    CheckoutCompletedKeepsValid(b.db, s);
    CompletedPayments(b.db, s);
    SubscriptionsAside(b, after);
    assert b.(db := b.db.(payments := ps)) == b;
    if named.Some? && PaymentById(ps, named.value) < |ps| {
      var i := PaymentById(ps, named.value);
      CompletingBindsExactly(b, s, i, CompletedPayment(ps[i], s));
    }
  }

  lemma CompletingBindsExactly(b: Books, s: Session, i: nat, p: Payment)
    requires Balanced(b) && i < |b.db.payments| && p == CompletedPayment(b.db.payments[i], s)
    requires ExtractLocalIds(s.metadata).paymentId.Some?
    requires i == PaymentById(b.db.payments, ExtractLocalIds(s.metadata).paymentId.value)
    ensures var ps := b.db.payments;
            var qs := if p != ps[i] && PaymentClash(ps, i, p) then ps else ps[i := p];
            Balanced(b.(db := b.db.(payments := qs))) <==> BindsSafely(b, s)
  {
    var ps := b.db.payments;
    if PaymentClash(ps, i, p) {
      assert ps[i := ps[i]] == ps && b.(db := b.db.(payments := ps)) == b;
      if p == ps[i] { assert ps[i := p] == ps; }
    } else if Rebinds(ps, s, i) {
      if BindsSafely(b, s) { BindingKeepsBalance(b, i, p); }
      if Balanced(b.(db := b.db.(payments := ps[i := p]))) { BalancedBindsSafely(b, i, p); }
    } else {
      assert p.intentId == ps[i].intentId;
      BindingKeepsBalance(b, i, p);
    }
  }

  /** A payment of 100 on pi_1 with refund re_1 booked. */
  function BoundWithRefund(id: Uuid): Books {
    Books(Db([Payment(id, 1, None, None, Some("pi_1"), 100, 40, PartiallyRefunded, 0)], [], [],
             [Transaction(1, id, Refund, 40, TransactionStatus.Succeeded, Some("pi_1"), None, Some("re_1"), 0)],
             [], [], map[], map[]),
          [StripeRefund("re_1", "pi_1", 40, "succeeded")], {})
  }

  function CompletionOn(id: Uuid, intent: string): Session {
    Session("cs_1", "payment", IdRef(intent), None, NoRef, Some(map["localPaymentId" := MetadataValue.Text(id)]))
  }

  lemma BindsUnsafely(b: Books, s: Session, i: nat, k: nat)
    requires ExtractLocalIds(s.metadata).paymentId.Some? && i == PaymentById(b.db.payments, ExtractLocalIds(s.metadata).paymentId.value)
    requires i < |b.db.payments| && Rebinds(b.db.payments, s, i)
    requires k < |b.db.transactions| && IsRefundOf(b.db.transactions[k], b.db.payments[i].id)
    ensures !BindsSafely(b, s)
  {
  }

  lemma CompletionOnBinds(id: Uuid, intent: string)
    requires intent != "" && intent != "pi_1"
    ensures ExtractLocalIds(CompletionOn(id, intent).metadata).paymentId == Some(id)
    ensures PaymentById(BoundWithRefund(id).db.payments, id) == 0 && Rebinds(BoundWithRefund(id).db.payments, CompletionOn(id, intent), 0)
  {
  }

  /** Its books are balanced, and a completion that carries pi_2 breaks them. */
  lemma CompletionCutsRefundsOff(id: Uuid)
    ensures var b, s := BoundWithRefund(id), CompletionOn(id, "pi_2");
            Balanced(b) && !Balanced(b.(db := OnCheckoutCompleted(b.db, s).db))
  {
    var b, s := BoundWithRefund(id), CompletionOn(id, "pi_2");
    BoundBooksAreBalanced(id);
    CompletionOnBinds(id, "pi_2");
    BindsUnsafely(b, s, 0, 0);
    CompletionKeepsBalanceExactlyWhen(b, s);
  }

  lemma OneRefund(r: StripeRefund)
    requires !Failed(r)
    ensures StripeEntries([r], r.intent) == [Entry(r.id, r.amount)] && EffectiveTotal([r], r.intent) == r.amount
  {
    var e := Entry(r.id, r.amount);
    assert [r][..0] == [] && [e][..0] == [];
    assert StripeEntries([], r.intent) == [] && Part([], [r], false) == [] && Sum([]) == 0;
    assert Part([e], [r], false) == [e];
  }

  lemma OneBookedRefund(p: Payment, t: Transaction, r: StripeRefund)
    requires p.intentId == Some(r.intent) && !Failed(r) && 0 < r.amount == p.amountRefunded <= p.amount
    requires IsRefundOf(t, p.id) && t.refundId == Some(r.id) && t.amount == r.amount
    ensures AllBacked([t], [p], [r]) && Summed([p], [t], {}) && StripeSound([p], [r])
  {
    OneRefund(r);
    assert OnList(t, [r], r.intent) && [p][0] == p;
    assert Backed(t, [p], [r]);
    assert [t][..0] == [] && RefundSum([], p.id) == 0;
  }

  lemma BoundBooksAreBalanced(id: Uuid)
    ensures Balanced(BoundWithRefund(id))
  {
    var b := BoundWithRefund(id);
    var p, t, r := b.db.payments[0], b.db.transactions[0], b.stripe[0];
    assert b.db.payments == [p] && b.db.transactions == [t] && b.stripe == [r];
    OneBookedRefund(p, t, r);
  }

  // ---- Runs ----

  lemma EventKeepsBalance(b: Books, kind: EventKind, o: EventObject, at: Time)
    requires Balanced(b) && AllowedEvent(b, kind, o)
    ensures Balanced(b.(db := Handle(b.db, kind, o, at).db))
  {
    if kind.CheckoutCompleted? {
      if o.SessionObject? { CompletionKeepsBalanceExactlyWhen(b, o.session); }
    } else {
      HandleKeepsValid(b.db, kind, o, at);
      OtherEventsLeaveLedger(b.db, kind, o, at);
      UntouchedKeepsBalance(b, Handle(b.db, kind, o, at).db);
    }
  }

  lemma ApplyKeepsBalance(b: Books, step: Step)
    requires Balanced(b)
    ensures Balanced(Apply(b, step))
  {
    if Allowed(b, step) {
      match step
      case Admin(ask, status) =>
        var check := CheckRefund(b.db, ask.paymentId, ask.amount);
        if check.Ready? && !ask.stripe.NotMade? && Asked(b, check.at, check.amount, ask.stripe.id, status).Some? {
          AdminKeepsBalance(b, check.at, check.amount, ask, status);
        }
      case AtStripe(r) =>
        MoreKeepsLines(b.stripe, r);
        LinesKeptStayBacked(b.db.transactions, b.db.payments, b.stripe, b.stripe + [r]);
      case Settles(i, status) =>
        SettlingKeepsLines(b.stripe, i, status);
        LinesKeptStayBacked(b.db.transactions, b.db.payments, b.stripe, b.stripe[i := b.stripe[i].(status := status)]);
      case Notice(charge, at) => NoticeKeepsBalance(b, charge, at);
      case OtherEvent(e, at) => EventKeepsBalance(b, KindOf(e.eventType), OrElse(e.data, NullObject), at);
    }
  }

  lemma {:induction false} RunKeepsBalance(b: Books, steps: seq<Step>)
    requires Balanced(b)
    ensures Balanced(Run(b, steps))
  {
    if steps != [] {
      RunKeepsBalance(b, steps[..|steps| - 1]);
      ApplyKeepsBalance(Run(b, steps[..|steps| - 1]), steps[|steps| - 1]);
    }
  }

  lemma BackedCarryIds(b: Books)
    requires Balanced(b)
    ensures RefundsCarryIds(b.db.transactions)
  {
    var ts := b.db.transactions;
    forall i | 0 <= i < |ts| && ts[i].kind.Refund? ensures ts[i].refundId.Some? && ts[i].amount >= 0 {
      assert Backed(ts[i], b.db.payments, b.stripe);
    }
  }

  /** Every line booked on a payment is a line of Stripe's ledger for its intent. */
  lemma LocalIsSubLedger(b: Books, i: nat, e: Entry)
    requires Balanced(b) && i < |b.db.payments| && RefundsCarryIds(b.db.transactions)
    requires e in LocalEntries(b.db.transactions, b.db.payments[i].id)
    ensures b.db.payments[i].intentId.Some?
    ensures e in StripeEntries(b.stripe, b.db.payments[i].intentId.value)
  {
    var t := LocalEntryRow(b.db.transactions, b.db.payments[i].id, e);
    BackedIsAtStripe(b.db.payments, b.stripe, b.db.transactions[t], i);
  }

  lemma BackedIsAtStripe(ps: seq<Payment>, stripe: seq<StripeRefund>, t: Transaction, i: nat)
    requires UniquePayments(ps) && i < |ps| && t.paymentId == ps[i].id && Backed(t, ps, stripe)
    ensures ps[i].intentId.Some? && OnList(t, stripe, ps[i].intentId.value)
  {
    var k :| 0 <= k < |ps| && ps[k].id == t.paymentId && ps[k].intentId.Some? && OnList(t, stripe, ps[k].intentId.value);
    assert k == i;
  }

  /** The lines booked on payment `paymentId`, those whose refund failed at Stripe apart from the rest. */
  function BookedPart(b: Books, paymentId: Uuid, failed: bool): seq<Entry>
    requires RefundsCarryIds(b.db.transactions)
  {
    Part(LocalEntries(b.db.transactions, paymentId), b.stripe, failed)
  }

  lemma LocalLinesAreStripes(b: Books, i: nat)
    requires Balanced(b) && RefundsCarryIds(b.db.transactions) && i < |b.db.payments| && b.db.payments[i].intentId.Some?
    ensures var lines, intent := LocalEntries(b.db.transactions, b.db.payments[i].id), b.db.payments[i].intentId.value;
            DistinctIds(lines) && (forall e | e in lines :: e in StripeEntries(b.stripe, intent)) &&
            Sum(lines) == RefundSum(b.db.transactions, b.db.payments[i].id)
  {
    LocalEntriesSum(b.db.transactions, b.db.payments[i].id);
    LocalEntriesDistinct(b.db.transactions, b.db.payments[i].id);
    forall e | e in LocalEntries(b.db.transactions, b.db.payments[i].id)
      ensures e in StripeEntries(b.stripe, b.db.payments[i].intentId.value)
    {
      LocalIsSubLedger(b, i, e);
    }
  }

  /**
   * In balanced books there is one row per refund id, each one of Stripe's list, and a payment's refunded amount is
   * the sum of its refund rows, or behind it where a save was torn. Of that sum, the rows whose refund did not fail come to no more than Stripe paid
   * back, which is no more than was paid; the rest are failed refunds booked like any other.
   */
  lemma BalancedWithinStripe(b: Books, i: nat)
    requires Balanced(b) && i < |b.db.payments| && b.db.payments[i].intentId.Some?
    ensures RefundsCarryIds(b.db.transactions) && UniqueTransactions(b.db.transactions)
    ensures var p := b.db.payments[i];
            && p.amountRefunded <= RefundSum(b.db.transactions, p.id)
            && (p.id !in b.torn ==> p.amountRefunded == RefundSum(b.db.transactions, p.id))
            && RefundSum(b.db.transactions, p.id) == Sum(BookedPart(b, p.id, false)) + Sum(BookedPart(b, p.id, true))
            && RefundSum(b.db.transactions, p.id) <= StripeTotal(b.stripe, p.intentId.value)
            && Sum(BookedPart(b, p.id, false)) <= EffectiveTotal(b.stripe, p.intentId.value) <= p.amount
  {
    var p := b.db.payments[i];
    BackedCarryIds(b);
    LocalLinesAreStripes(b, i);
    var lines, all := LocalEntries(b.db.transactions, p.id), StripeEntries(b.stripe, p.intentId.value);
    SubLedger(lines, all);
    PartsSumUp(lines, b.stripe);
    PartIsDistinct(lines, b.stripe, false);
    SubLedger(Part(lines, b.stripe, false), Part(all, b.stripe, false));
  }

  /** So it is after any run; in particular no payment is refunded past its amount unless a failed refund is booked on it. */
  lemma LedgerWithinStripe(b: Books, steps: seq<Step>, i: nat)
    requires Balanced(b) && i < |Run(b, steps).db.payments| && Run(b, steps).db.payments[i].intentId.Some?
    ensures RefundsCarryIds(Run(b, steps).db.transactions) && UniqueTransactions(Run(b, steps).db.transactions)
    ensures var r := Run(b, steps);
            var p := r.db.payments[i];
            && p.amountRefunded <= RefundSum(r.db.transactions, p.id) <= StripeTotal(r.stripe, p.intentId.value)
            && (p.id !in r.torn ==> p.amountRefunded == RefundSum(r.db.transactions, p.id))
            && p.amountRefunded - Sum(BookedPart(r, p.id, true)) <= EffectiveTotal(r.stripe, p.intentId.value) <= p.amount
            && (BookedPart(r, p.id, true) == [] ==> p.amountRefunded <= p.amount)
  {
    RunKeepsBalance(b, steps);
    BalancedWithinStripe(Run(b, steps), i);
  }

  /** The refund step is about row `i`: a notice for its intent, or an administrator's refund that went through. */
  predicate About(b: Books, step: Step, i: nat) {
    match step
    case Admin(ask, _) => Apply(b, step).db.payments != b.db.payments && i == PaymentById(b.db.payments, ask.paymentId)
    case Notice(charge, _) => Truthful(b, charge) && i == PaymentByIntent(b.db.payments, charge.intent.value)
    case _ => false
  }

  predicate ReadsRefunded(p: Payment) {
    (p.status.Refunded? <==> p.amountRefunded >= p.amount) && (p.status.PartiallyRefunded? <==> p.amountRefunded < p.amount)
  }

  lemma NoticeReadsRefunded(db: Db, charge: ChargeInfo, now: Time, i: nat)
    requires Truthy(charge.intent) && OrElse(charge.refunds, []) != []
    requires i == PaymentByIntent(db.payments, charge.intent.value) < |db.payments|
    ensures |OnChargeRefunded(db, charge, now).db.payments| == |db.payments|
    ensures ReadsRefunded(OnChargeRefunded(db, charge, now).db.payments[i])
  {
  }

  lemma AdminReadsRefunded(db: Db, i: nat, amount: int, refundId: string, now: Time, progress: Progress)
    requires i < |db.payments|
    ensures var qs := Saved(db, i, amount, refundId, now, progress).payments;
            |qs| == |db.payments| && (qs == db.payments || ReadsRefunded(qs[i]))
  {
  }

  /** Right after a refund step, the payment it is about reads Refunded exactly when all of it has been refunded. */
  lemma RefundedExactlyWhenAllIs(b: Books, step: Step, i: nat)
    requires i < |b.db.payments| && About(b, step, i)
    ensures |Apply(b, step).db.payments| == |b.db.payments|
    ensures var p := Apply(b, step).db.payments[i];
            (p.status.Refunded? <==> p.amountRefunded >= p.amount) && (p.status.PartiallyRefunded? <==> p.amountRefunded < p.amount)
  {
    match step
    case Notice(charge, at) => NoticeReadsRefunded(b.db, charge, at, i);
    case Admin(ask, status) =>
      var check := CheckRefund(b.db, ask.paymentId, ask.amount);
      AdminReadsRefunded(b.db, check.at, check.amount, ask.stripe.id, ask.at, ask.saved);
  }

  lemma {:induction false} StripeEntriesDistinct(rs: seq<StripeRefund>, intent: string)
    requires forall i, j | 0 <= i < j < |rs| :: rs[i].id != rs[j].id
    ensures DistinctIds(StripeEntries(rs, intent))
  {
    if rs != [] {
      var n := |rs| - 1;
      StripeEntriesDistinct(rs[..n], intent);
      var rest := StripeEntries(rs[..n], intent);
      forall k | 0 <= k < |rest| ensures rest[k].id != rs[n].id {
        assert rest[k] in rest;
        var l :| 0 <= l < n && IsLine(rs[..n][l], intent, rest[k]);
        assert rs[l].id != rs[n].id;
      }
    }
  }

  /** One id on Stripe's list is one refund. */
  lemma SameIdSameLine(rs: seq<StripeRefund>, intent: string, e: Entry, other: string, f: Entry)
    requires forall i, j | 0 <= i < j < |rs| :: rs[i].id != rs[j].id
    requires e in StripeEntries(rs, intent) && f in StripeEntries(rs, other) && e.id == f.id
    ensures e == f && intent == other
  {
    var i :| 0 <= i < |rs| && IsLine(rs[i], intent, e);
    var j :| 0 <= j < |rs| && IsLine(rs[j], other, f);
    assert i == j;
  }

  /** Every refund a truthful notice lists is a line booked on the payment once the notice has been handled. */
  lemma NoticeBooksItsList(b: Books, i: nat, charge: ChargeInfo, now: Time, item: RefundItem)
    requires Balanced(b) && Truthful(b, charge) && i < |b.db.payments| && b.db.payments[i].intentId == charge.intent
    requires item in charge.refunds.value
    ensures var ts := RecordRefunds(b.db.transactions, charge.refunds.value, b.db.payments[i], charge, now);
            RefundsCarryIds(ts) ==> Entry(item.id, item.amount.value) in LocalEntries(ts, b.db.payments[i].id)
  {
    var ps, items := b.db.payments, charge.refunds.value;
    NoticeKeepsBacked(b, i, items, charge, now);
    RefundsRecorded(b.db.transactions, items, ps[i], charge, now);
    var ts := RecordRefunds(b.db.transactions, items, ps[i], charge, now);
    var k := TransactionByRefund(ts, item.id);
    assert Backed(ts[k], ps, b.stripe);
    var l :| 0 <= l < |ps| && ps[l].id == ts[k].paymentId && ps[l].intentId.Some? && OnList(ts[k], b.stripe, ps[l].intentId.value);
    SameIdSameLine(b.stripe, ps[l].intentId.value, Entry(item.id, ts[k].amount), charge.intent.value, Entry(item.id, item.amount.value));
    assert l == i;
    if RefundsCarryIds(ts) { BookedIsLocalEntry(ts, ps[i].id, k, Entry(item.id, item.amount.value)); }
  }

  /** The notice leaves out none of the intent's refunds. */
  predicate ListsAll(b: Books, charge: ChargeInfo)
    requires charge.intent.Some? && charge.refunds.Some?
  {
    forall e | e in StripeEntries(b.stripe, charge.intent.value) :: exists item | item in charge.refunds.value :: item.id == e.id
  }

  lemma FullNoticeBooksAll(b: Books, charge: ChargeInfo, now: Time, i: nat)
    requires Balanced(b) && Truthful(b, charge) && ListsAll(b, charge)
    requires i == PaymentByIntent(b.db.payments, charge.intent.value) < |b.db.payments|
    ensures var after := AfterNotice(b, charge, now);
            && Balanced(after) && RefundsCarryIds(after.db.transactions) && |after.db.payments| == |b.db.payments|
            && after.db.payments[i].id == b.db.payments[i].id && after.db.payments[i].intentId == charge.intent
            && forall e :: e in LocalEntries(after.db.transactions, b.db.payments[i].id) <==> e in StripeEntries(b.stripe, charge.intent.value)
  {
    var after := AfterNotice(b, charge, now);
    NoticeKeepsBalance(b, charge, now);
    BackedCarryIds(after);
    LocalLinesAreStripes(after, i);
    var intent, lines := charge.intent.value, LocalEntries(after.db.transactions, b.db.payments[i].id);
    forall e | e in StripeEntries(b.stripe, intent) ensures e in lines {
      var item :| item in charge.refunds.value && item.id == e.id;
      SameIdSameLine(b.stripe, intent, e, intent, Entry(item.id, item.amount.value));
      NoticeBooksItsList(b, i, charge, now, item);
    }
  }

  /** Some refund Stripe lists for the intent has failed. */
  predicate SomeFailed(stripe: seq<StripeRefund>, intent: string) {
    exists k | 0 <= k < |stripe| :: stripe[k].intent == intent && Failed(stripe[k])
  }

  /** What of Stripe's list was never paid back is something exactly when some refund on it failed. */
  lemma LostExactlyWhenFailed(ps: seq<Payment>, stripe: seq<StripeRefund>, intent: string)
    requires StripeSound(ps, stripe)
    ensures StripeTotal(stripe, intent) == EffectiveTotal(stripe, intent) <==> !SomeFailed(stripe, intent)
    ensures EffectiveTotal(stripe, intent) <= StripeTotal(stripe, intent)
  {
    var all := StripeEntries(stripe, intent);
    var lost := Part(all, stripe, true);
    PartsSumUp(all, stripe);
    if k :| 0 <= k < |stripe| && stripe[k].intent == intent && Failed(stripe[k]) {
      assert IsLine(stripe[k], intent, Entry(stripe[k].id, stripe[k].amount));
      assert FailedAt(stripe, stripe[k].id);
      assert Entry(stripe[k].id, stripe[k].amount) in lost;
      PositiveSum(stripe, intent, lost);
    }
    if lost != [] {
      assert lost[0] in lost;
      LostIsFailed(stripe, intent, lost[0]);
    }
  }

  lemma LostIsFailed(stripe: seq<StripeRefund>, intent: string, e: Entry)
    requires forall i, j | 0 <= i < j < |stripe| :: stripe[i].id != stripe[j].id
    requires e in StripeEntries(stripe, intent) && FailedAt(stripe, e.id)
    ensures SomeFailed(stripe, intent)
  {
    var k := LineOf(stripe, intent, e);
    var j :| 0 <= j < |stripe| && stripe[j].id == e.id && Failed(stripe[j]);
    assert j == k;
  }

  /**
   * A notice that lists all of an intent's refunds brings the payment to the total of Stripe's list, failed refunds
   * included. That is what Stripe really paid back exactly when none of them failed, and it passes the payment's
   * amount exactly when the list does.
   */
  lemma FullNoticeCatchesUp(b: Books, charge: ChargeInfo, now: Time, i: nat)
    requires Balanced(b) && Truthful(b, charge) && ListsAll(b, charge)
    requires i == PaymentByIntent(b.db.payments, charge.intent.value) < |b.db.payments|
    ensures |OnChargeRefunded(b.db, charge, now).db.payments| == |b.db.payments|
    ensures var intent, p := charge.intent.value, OnChargeRefunded(b.db, charge, now).db.payments[i];
            && p.amountRefunded == StripeTotal(b.stripe, intent)
            && (p.amountRefunded == EffectiveTotal(b.stripe, intent) <==> !SomeFailed(b.stripe, intent))
            && (p.amountRefunded > p.amount <==> StripeTotal(b.stripe, intent) > b.db.payments[i].amount)
            && (p.amountRefunded > p.amount ==> SomeFailed(b.stripe, intent))
  {
    FullNoticeBooksAll(b, charge, now, i);
    var after, intent := AfterNotice(b, charge, now), charge.intent.value;
    var p := after.db.payments[i];
    LocalLinesAreStripes(after, i);
    StripeEntriesDistinct(b.stripe, intent);
    SameLinesSameSum(LocalEntries(after.db.transactions, p.id), StripeEntries(b.stripe, intent));
    LostExactlyWhenFailed(b.db.payments, b.stripe, intent);
  }

  lemma SameLinesSameSum(a: seq<Entry>, b: seq<Entry>)
    requires DistinctIds(a) && DistinctIds(b) && forall e :: e in a <==> e in b
    ensures Sum(a) == Sum(b)
  {
    SubLedger(a, b);
    SubLedger(b, a);
  }

  lemma PositiveSum(rs: seq<StripeRefund>, intent: string, es: seq<Entry>)
    requires (forall i | 0 <= i < |rs| :: rs[i].amount > 0) && es != [] && forall e | e in es :: e in StripeEntries(rs, intent)
    ensures Sum(es) > 0
  {
    var e := es[|es| - 1];
    assert e in es;
    var i :| 0 <= i < |rs| && IsLine(rs[i], intent, e);
  }

  /** One paid payment, of which Stripe lists a failed refund of it all and one that went through. */
  function RetriedRefund(id: Uuid): Books {
    Books(Db([Payment(id, 1, None, None, Some("pi_1"), 100, 0, PaymentStatus.Succeeded, 0)], [], [], [], [], [], map[], map[]),
          [StripeRefund("re_1", "pi_1", 100, "failed"), StripeRefund("re_2", "pi_1", 100, "succeeded")], {})
  }

  function RetriedNotice(): ChargeInfo {
    ChargeInfo("ch_1", Some("pi_1"), Some(100), Some(100),
               Some([RefundItem("re_1", Some(100), Some("failed")), RefundItem("re_2", Some(100), Some("succeeded"))]))
  }

  lemma RetriedTotals(id: Uuid)
    ensures EffectiveTotal(RetriedRefund(id).stripe, "pi_1") == 100 && StripeTotal(RetriedRefund(id).stripe, "pi_1") == 200
  {
    var rs := RetriedRefund(id).stripe;
    assert rs == [rs[0], rs[1]];
    TwoRefunds(rs[0], rs[1]);
  }

  lemma RetriedBooksAreBalanced(id: Uuid)
    ensures Balanced(RetriedRefund(id))
  {
    var b := RetriedRefund(id);
    RetriedTotals(id);
    assert AllBacked(b.db.transactions, b.db.payments, b.stripe) && Summed(b.db.payments, b.db.transactions, b.torn);
  }

  lemma RetriedNoticeIsFull(id: Uuid)
    ensures Truthful(RetriedRefund(id), RetriedNotice()) && ListsAll(RetriedRefund(id), RetriedNotice())
  {
    var rs, list := RetriedRefund(id).stripe, RetriedNotice().refunds.value;
    assert IsLine(rs[0], "pi_1", Entry("re_1", 100)) && IsLine(rs[1], "pi_1", Entry("re_2", 100));
    assert list[0] in list && list[1] in list;
  }

  /** So a payment of 100 whose first refund failed and was made again reads 200 refunded after one notice of both. */
  lemma FailedRefundsAreCounted(id: Uuid, now: Time)
    ensures var b := RetriedRefund(id);
            && Balanced(b) && Truthful(b, RetriedNotice()) && EffectiveTotal(b.stripe, "pi_1") == 100
            && |OnChargeRefunded(b.db, RetriedNotice(), now).db.payments| == 1
            && OnChargeRefunded(b.db, RetriedNotice(), now).db.payments[0].amountRefunded == 200
  {
    RetriedBooksAreBalanced(id);
    RetriedTotals(id);
    RetriedNoticeIsFull(id);
    assert PaymentByIntent(RetriedRefund(id).db.payments, "pi_1") == 0;
    FullNoticeCatchesUp(RetriedRefund(id), RetriedNotice(), now, 0);
  }

  lemma SumOfTwo(a: Entry, b: Entry)
    ensures Sum([a]) == a.amount && Sum([a, b]) == a.amount + b.amount
  {
    assert [a][..0] == [] && [a, b][..1] == [a];
  }

  lemma PartOfTwo(a: Entry, b: Entry, rs: seq<StripeRefund>)
    requires FailedAt(rs, a.id) && !FailedAt(rs, b.id)
    ensures Part([a, b], rs, false) == [b]
  {
    assert [a][..0] == [] && [a, b][..1] == [a];
    assert Part([a], rs, false) == [];
  }

  lemma EntriesOfTwo(a: StripeRefund, b: StripeRefund)
    requires a.intent == b.intent
    ensures StripeEntries([a, b], b.intent) == [Entry(a.id, a.amount), Entry(b.id, b.amount)]
  {
    assert [a][..0] == [] && [a, b][..1] == [a];
    assert StripeEntries([a], b.intent) == [Entry(a.id, a.amount)];
  }

  /** Stripe's list of one failed refund and one that went through. */
  lemma TwoRefunds(failed: StripeRefund, made: StripeRefund)
    requires failed.id != made.id && failed.intent == made.intent && Failed(failed) && !Failed(made)
    ensures StripeTotal([failed, made], made.intent) == failed.amount + made.amount
    ensures EffectiveTotal([failed, made], made.intent) == made.amount
  {
    var rs, a, b := [failed, made], Entry(failed.id, failed.amount), Entry(made.id, made.amount);
    EntriesOfTwo(failed, made);
    SumOfTwo(a, b);
    SumOfTwo(b, b);
    assert FailedAt(rs, a.id) by { assert rs[0].id == a.id; }
    PartOfTwo(a, b, rs);
  }
}
