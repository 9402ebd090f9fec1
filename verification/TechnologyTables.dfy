/** Technology subscriptions and their invoices. Times are in seconds, amounts in hundredths. */
module TechnologyTables {
  import opened Options
  import opened TrackRecords

  datatype Subscription = Subscription(
    id: string, userId: string, slug: string, name: string, billingCycle: string, price: int, currency: string,
    status: string, paymentStatus: string, providerSubscriptionId: Option<string>, idempotencyKey: Option<string>,
    attempts: nat, lastAttemptAt: Option<int>, lastProviderStatus: Option<string>, lastProviderError: Option<string>,
    nextRetryAt: Option<int>, orderId: Option<string>, paymentId: Option<string>,
    periodStart: Option<int>, periodEnd: Option<int>, emailSent: bool, deleted: bool)

  datatype Invoice = Invoice(
    subscriptionId: string, userId: string, number: string, amount: int, currency: string, status: string,
    periodStart: int, periodEnd: int)

  /** The number of invoices of a subscription. */
  function InvoiceCount(invoices: seq<Invoice>, id: string): nat {
    if invoices == [] then 0
    else InvoiceCount(invoices[..|invoices| - 1], id) + (if invoices[|invoices| - 1].subscriptionId == id then 1 else 0)
  }

  lemma {:induction false} InvoiceCountConcat(a: seq<Invoice>, b: seq<Invoice>, id: string)
    ensures InvoiceCount(a + b, id) == InvoiceCount(a, id) + InvoiceCount(b, id)
  {
    if b == [] {
      assert a + b == a;
    } else {
      InvoiceCountConcat(a, b[..|b| - 1], id);
      assert (a + b)[..|a + b| - 1] == a + b[..|b| - 1];
    }
  }

  ghost predicate UniqueSubscriptions(subs: seq<Subscription>) {
    forall i, j :: 0 <= i < j < |subs| ==> subs[i].id != subs[j].id
  }
}
