/** The tables the services share. Each method of a service reassigns the tables it saves to. */
module Store {
  import opened Model

  class BillingStore {
    var payments: seq<Payment>
    var subscriptions: seq<Subscription>
    var invoices: seq<Invoice>
    var transactions: seq<Transaction>
    var customers: seq<Customer>
    var entitlements: seq<Entitlement>
    const plans: map<Uuid, Plan>
    const prices: map<Uuid, Price>

    function View(): Db
      reads this
    {
      Db(payments, subscriptions, invoices, transactions, customers, entitlements, plans, prices)
    }

    constructor (plans: map<Uuid, Plan>, prices: map<Uuid, Price>)
      ensures View() == Db([], [], [], [], [], [], plans, prices)
      ensures Valid(View())
    {
      payments, subscriptions, invoices, transactions, customers, entitlements := [], [], [], [], [], [];
      this.plans, this.prices := plans, prices;
    }

    /** Saves row `i`; false when a unique index refuses it, and then nothing is written. */
    method SavePayment(i: nat, p: Payment) returns (ok: bool)
      requires i < |payments|
      modifies this`payments
      ensures ok == !PaymentClash(old(payments), i, p)
      ensures payments == if ok then old(payments)[i := p] else old(payments)
    {
      ok := !PaymentClash(payments, i, p);
      if ok { payments := payments[i := p]; }
    }

    method SaveSubscription(i: nat, s: Subscription) returns (ok: bool)
      requires i < |subscriptions|
      modifies this`subscriptions
      ensures ok == !SubscriptionClash(old(subscriptions), i, s)
      ensures subscriptions == if ok then old(subscriptions)[i := s] else old(subscriptions)
    {
      ok := !SubscriptionClash(subscriptions, i, s);
      if ok { subscriptions := subscriptions[i := s]; }
    }
  }
}
