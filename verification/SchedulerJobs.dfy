/** The jobs one scheduler iteration runs, and the order in which it runs them. */
module SchedulerJobs {
  datatype Job =
    | ProvisionRetries | ExpireStaleOrders | RecoverStalePending
    | PendingReconcile | TransferReconcile | StalePendingAlerts
    | TransferOps | ShowcaseRefresh | DomainAuctionSweep | SoftwareAuctions
    | ExpiryNotices | TechnologyRetry | CommunityAuctions | WinnerPayments

  /** Jobs whose exceptions are logged and dropped; every other exception ends the iteration. */
  predicate Swallowed(j: Job) {
    j.ShowcaseRefresh? || j.DomainAuctionSweep? || j.TechnologyRetry?
  }

  /** The jobs of the iteration that would advance the counter to `n`, in program order. */
  function Plan(n: nat, retryEnabled: bool): seq<Job> {
    [ProvisionRetries, ExpireStaleOrders, RecoverStalePending]
    + ((if n % 4 == 0 then [PendingReconcile, TransferReconcile, StalePendingAlerts] else [])
       + ([TransferOps]
          + ((if n % 120 == 0 then [ShowcaseRefresh] else [])
             + ([DomainAuctionSweep, SoftwareAuctions, ExpiryNotices]
                + ((if retryEnabled then [TechnologyRetry] else [])
                   + ([CommunityAuctions]
                      + (if n % 20 == 0 then [WinnerPayments] else [])))))))
  }

  // ----- what is due, job by job -----

  /** When each of the fourteen jobs is due. */
  predicate Due(j: Job, n: nat, retryEnabled: bool) {
    match j
    case ProvisionRetries | ExpireStaleOrders | RecoverStalePending => true
    case PendingReconcile | TransferReconcile | StalePendingAlerts => n % 4 == 0
    case TransferOps => true
    case ShowcaseRefresh => n % 120 == 0
    case DomainAuctionSweep | SoftwareAuctions | ExpiryNotices => true
    case TechnologyRetry => retryEnabled
    case CommunityAuctions => true
    case WinnerPayments => n % 20 == 0
  }

  /** The order of the jobs. */
  function Place(j: Job): nat {
    match j
    case ProvisionRetries => 0
    case ExpireStaleOrders => 1
    case RecoverStalePending => 2
    case PendingReconcile => 3
    case TransferReconcile => 4
    case StalePendingAlerts => 5
    case TransferOps => 6
    case ShowcaseRefresh => 7
    case DomainAuctionSweep => 8
    case SoftwareAuctions => 9
    case ExpiryNotices => 10
    case TechnologyRetry => 11
    case CommunityAuctions => 12
    case WinnerPayments => 13
  }

  ghost predicate InOrder(jobs: seq<Job>) {
    forall i, k :: 0 <= i < k < |jobs| ==> Place(jobs[i]) < Place(jobs[k])
  }

  /** `jobs` are, in order, the due jobs with places from `lo` up to `hi`. */
  ghost predicate Lists(jobs: seq<Job>, lo: nat, hi: nat, n: nat, retryEnabled: bool) {
    InOrder(jobs) && forall j :: j in jobs <==> Due(j, n, retryEnabled) && lo <= Place(j) < hi
  }

  lemma ListsJoin(a: seq<Job>, b: seq<Job>, lo: nat, mid: nat, hi: nat, n: nat, retryEnabled: bool)
    requires Lists(a, lo, mid, n, retryEnabled) && Lists(b, mid, hi, n, retryEnabled) && lo <= mid <= hi
    ensures Lists(a + b, lo, hi, n, retryEnabled)
  {
    hide Due, Place;
    var c := a + b;
    assert forall i :: 0 <= i < |c| ==> c[i] == if i < |a| then a[i] else b[i - |a|];
    assert forall i :: 0 <= i < |a| ==> a[i] in a;
    assert forall i :: 0 <= i < |b| ==> b[i] in b;
    forall j
      ensures j in c <==> j in a || j in b
    {
    }
  }

  /** The plan lists exactly the due jobs, in their order. */
  lemma PlanListsDueJobs(n: nat, retryEnabled: bool)
    ensures Lists(Plan(n, retryEnabled), 0, 14, n, retryEnabled)
  {
    var winners := if n % 20 == 0 then [WinnerPayments] else [];
    var community := [CommunityAuctions] + winners;
    var retries := (if retryEnabled then [TechnologyRetry] else []) + community;
    var sweep := [DomainAuctionSweep, SoftwareAuctions, ExpiryNotices] + retries;
    var showcase := (if n % 120 == 0 then [ShowcaseRefresh] else []) + sweep;
    var transfers := [TransferOps] + showcase;
    var reconciles := (if n % 4 == 0 then [PendingReconcile, TransferReconcile, StalePendingAlerts] else []) + transfers;
    PiecesListed(n, retryEnabled);
    hide Lists;
    ListsJoin([CommunityAuctions], winners, 12, 13, 14, n, retryEnabled);
    ListsJoin(if retryEnabled then [TechnologyRetry] else [], community, 11, 12, 14, n, retryEnabled);
    ListsJoin([DomainAuctionSweep, SoftwareAuctions, ExpiryNotices], retries, 8, 11, 14, n, retryEnabled);
    ListsJoin(if n % 120 == 0 then [ShowcaseRefresh] else [], sweep, 7, 8, 14, n, retryEnabled);
    ListsJoin([TransferOps], showcase, 6, 7, 14, n, retryEnabled);
    ListsJoin(if n % 4 == 0 then [PendingReconcile, TransferReconcile, StalePendingAlerts] else [], transfers, 3, 6, 14, n, retryEnabled);
    ListsJoin([ProvisionRetries, ExpireStaleOrders, RecoverStalePending], reconciles, 0, 3, 14, n, retryEnabled);
  }

  lemma PiecesListed(n: nat, retryEnabled: bool)
    ensures Lists([ProvisionRetries, ExpireStaleOrders, RecoverStalePending], 0, 3, n, retryEnabled)
    ensures Lists(if n % 4 == 0 then [PendingReconcile, TransferReconcile, StalePendingAlerts] else [], 3, 6, n, retryEnabled)
    ensures Lists([TransferOps], 6, 7, n, retryEnabled)
    ensures Lists(if n % 120 == 0 then [ShowcaseRefresh] else [], 7, 8, n, retryEnabled)
    ensures Lists([DomainAuctionSweep, SoftwareAuctions, ExpiryNotices], 8, 11, n, retryEnabled)
    ensures Lists(if retryEnabled then [TechnologyRetry] else [], 11, 12, n, retryEnabled)
    ensures Lists([CommunityAuctions], 12, 13, n, retryEnabled)
    ensures Lists(if n % 20 == 0 then [WinnerPayments] else [], 13, 14, n, retryEnabled)
  {
    hide Lists;
    var r, q, h := n % 4 == 0, n % 20 == 0, n % 120 == 0;
    Three(ProvisionRetries, ExpireStaleOrders, RecoverStalePending, true, 0, n, retryEnabled);
    Three(PendingReconcile, TransferReconcile, StalePendingAlerts, r, 3, n, retryEnabled);
    One(TransferOps, true, 6, n, retryEnabled);
    One(ShowcaseRefresh, h, 7, n, retryEnabled);
    Three(DomainAuctionSweep, SoftwareAuctions, ExpiryNotices, true, 8, n, retryEnabled);
    One(TechnologyRetry, retryEnabled, 11, n, retryEnabled);
    One(CommunityAuctions, true, 12, n, retryEnabled);
    One(WinnerPayments, q, 13, n, retryEnabled);
  }

  lemma SamePlace(i: Job, j: Job)
    requires Place(i) == Place(j)
    ensures i == j
  {
  }

  lemma One(j: Job, due: bool, place: nat, n: nat, retryEnabled: bool)
    requires Place(j) == place && Due(j, n, retryEnabled) == due
    ensures Lists(if due then [j] else [], place, place + 1, n, retryEnabled)
  {
    hide Due, Place;
    forall i: Job | Place(i) == place
      ensures i == j
    {
      SamePlace(i, j);
    }
  }

  lemma Three(a: Job, b: Job, c: Job, due: bool, place: nat, n: nat, retryEnabled: bool)
    requires Place(a) == place && Place(b) == place + 1 && Place(c) == place + 2
    requires Due(a, n, retryEnabled) == Due(b, n, retryEnabled) == Due(c, n, retryEnabled) == due
    ensures Lists(if due then [a, b, c] else [], place, place + 3, n, retryEnabled)
  {
    hide Due, Place, Lists;
    var x, y, z := if due then [a] else [], if due then [b] else [], if due then [c] else [];
    One(a, due, place, n, retryEnabled);
    One(b, due, place + 1, n, retryEnabled);
    One(c, due, place + 2, n, retryEnabled);
    ListsJoin(y, z, place + 1, place + 2, place + 3, n, retryEnabled);
    ListsJoin(x, y + z, place, place + 1, place + 3, n, retryEnabled);
    assert x + (y + z) == if due then [a, b, c] else [];
  }
}
