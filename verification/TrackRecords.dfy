/** Track Records and the shared update path `TrackRecordService.record_paid_attempt`. */
module TrackRecords {
  import opened Options
  import opened Text

  /** Python's truth value of an optional string. */
  predicate Truthy(o: Option<string>) { o.Some? && o.value != "" }

  const TECHNOLOGY_PURCHASE := "Technology Purchase"

  /** Amounts are in hundredths. */
  datatype TrackRecord = TrackRecord(
    internalOrderId: string, category: string, subcategory: Option<string>, itemName: string, itemId: Option<string>,
    buyerUserId: Option<string>, amount: int, currency: string, subtotal: Option<int>,
    paymentStatus: string, orderId: Option<string>, paymentId: Option<string>, refundId: Option<string>,
    fulfillment: string, overall: string,
    errorCode: Option<string>, errorMessage: Option<string>, errorSource: Option<string>)

  /** The arguments the scripts pass; everything else keeps its default, which changes nothing. */
  datatype PaidAttempt = PaidAttempt(
    category: string, subcategory: Option<string>, itemName: string, itemId: Option<string>,
    buyerUserId: Option<string>, amount: int, paymentStatus: string, orderId: Option<string>, paymentId: Option<string>,
    fulfillment: string, overall: string,
    errorCode: Option<string>, errorMessage: Option<string>, errorSource: Option<string>, clearErrors: bool)

  function Override(now: Option<string>, given: Option<string>): Option<string> {
    if Truthy(given) then given else now
  }

  predicate Generic(name: string) {
    "Payment #" <= name || "Unprovisioned" <= name || name == "Item" || name == "Domain listing"
  }

  predicate Paid(payment: string) {
    Contains(payment, "CAPTURED") || Contains(payment, "PAID") || Contains(payment, "SUCCESS")
  }

  predicate Fulfilled(f: string) { Contains(f, "PROVISIONED") || Contains(f, "ACTIVE") || Contains(f, "COMPLETED") }

  /** An update to an intermediate state that reports neither an error nor a reversal. */
  predicate Intermediate(fulfillment: string, overall: string, errorCode: Option<string>) {
    var passed := Upper(overall);
    && Upper(fulfillment) in ["IN_PROGRESS", "NOT_STARTED", "PENDING"]
    && !Truthy(errorCode)
    && !(Contains(passed, "REFUND") || Contains(passed, "CANCEL") || Contains(passed, "EXPIRED") || Contains(passed, "FAIL"))
  }

  /** A confirmed success is not downgraded to an intermediate state. */
  predicate KeepsSuccess(r: TrackRecord, a: PaidAttempt) {
    && Fulfilled(Upper(r.fulfillment)) && Contains(Upper(r.overall), "SUCCESS")
    && Intermediate(a.fulfillment, a.overall, a.errorCode)
  }

  /** The overall status derived from the other fields, unless a terminal state was passed. */
  function DerivedOverall(r: TrackRecord, passed: string): string {
    var p, f, o := Upper(r.paymentStatus), Upper(r.fulfillment), Upper(passed);
    if Contains(o, "EXPIRED") || Contains(o, "CANCELLED") || Contains(o, "REFUND") then passed
    else if Truthy(r.refundId) || Contains(p, "REFUND") then "Refunded"
    else if Contains(p, "FAIL") || Contains(f, "FAIL") || Truthy(r.errorCode) then "Failed"
    else if Paid(p) then
      if Contains(f, "PROVISIONED") || Contains(f, "COMPLETED") || Contains(f, "SUCCESS") || Contains(f, "ACTIVE") then "Success"
      else if Contains(f, "PARTIAL") then "Partial"
      else "Pending"
    else "Pending"
  }

  /** What `record_paid_attempt` makes of an existing row. */
  function Updated(r: TrackRecord, a: PaidAttempt): TrackRecord {
    var keep := KeepsSuccess(r, a);
    var named := if a.itemName != "" && (r.itemName == "" || Generic(r.itemName) || !Generic(a.itemName)) then a.itemName else r.itemName;
    var r1 := r.(category := if a.category != "" then a.category else r.category,
                 subcategory := Override(r.subcategory, a.subcategory),
                 itemName := named,
                 itemId := Override(r.itemId, a.itemId),
                 buyerUserId := Override(r.buyerUserId, a.buyerUserId),
                 amount := if a.amount > 0 then a.amount else r.amount,
                 paymentStatus := if a.paymentStatus != "" then a.paymentStatus else r.paymentStatus,
                 orderId := Override(r.orderId, a.orderId),
                 paymentId := Override(r.paymentId, a.paymentId),
                 fulfillment := if a.fulfillment != "" && !keep then a.fulfillment else r.fulfillment,
                 overall := if a.overall != "" && !keep then a.overall else r.overall);
    var r2 := if a.clearErrors
              then r1.(errorCode := a.errorCode, errorMessage := a.errorMessage, errorSource := a.errorSource)
              else r1.(errorCode := Override(r.errorCode, a.errorCode),
                       errorMessage := Override(r.errorMessage, a.errorMessage),
                       errorSource := Override(r.errorSource, a.errorSource));
    var r3 := if Contains(Upper(a.fulfillment), "PROVISIONED") && !Truthy(a.errorCode)
              then r2.(errorCode := None, errorMessage := None, errorSource := None) else r2;
    r3.(overall := DerivedOverall(r3, a.overall))
  }

  /** The table; `internal_order_id` is unique. */
  class TrackTable {
    var rows: seq<TrackRecord>

    ghost predicate Valid()
      reads this
    {
      UniqueIds(rows)
    }

    constructor (rows: seq<TrackRecord>)
      requires UniqueIds(rows)
      ensures Valid() && this.rows == rows
    {
      this.rows := rows;
    }

    /** Update the row with this id; `k` is where it is. */
    method RecordPaidAttempt(internalOrderId: string, a: PaidAttempt, ghost k: nat)
      requires Valid() && k < |rows| && rows[k].internalOrderId == internalOrderId
      modifies this
      ensures Valid() && rows == old(rows)[k := Updated(old(rows)[k], a)]
    {
      var i := 0;
      while rows[i].internalOrderId != internalOrderId
        invariant 0 <= i <= k
        decreases k - i
      {
        i := i + 1;
      }
      rows := rows[i := Updated(rows[i], a)];
    }
  }

  ghost predicate UniqueIds(rows: seq<TrackRecord>) {
    forall i, j :: 0 <= i < j < |rows| ==> rows[i].internalOrderId != rows[j].internalOrderId
  }

  // ----- the status vocabulary -----

  lemma StatusWords()
    ensures Upper("Success") == "SUCCESS" && Upper("Pending") == "PENDING" && Upper("Failed") == "FAILED"
    ensures Upper("PROVISIONED") == "PROVISIONED" && Upper("IN_PROGRESS") == "IN_PROGRESS" && Upper("FAILED") == "FAILED"
  {
  }

  lemma ProvisionedTokens()
    ensures Contains("PROVISIONED", "PROVISIONED") && Contains("SUCCESS", "SUCCESS")
    ensures !Contains("PROVISIONED", "FAIL")
  {
    assert StartsAt("PROVISIONED", 0, "PROVISIONED") && StartsAt("SUCCESS", 0, "SUCCESS");
    LacksToken("PROVISIONED", "FAIL", 'F');
  }

  lemma CapturedTokens()
    ensures Upper("CAPTURED") == "CAPTURED" && Paid("CAPTURED")
    ensures !Contains("CAPTURED", "REFUND") && !Contains("CAPTURED", "FAIL")
  {
    assert StartsAt("CAPTURED", 0, "CAPTURED");
    LacksToken("CAPTURED", "REFUND", 'F');
    LacksToken("CAPTURED", "FAIL", 'F');
  }

  lemma PendingTokens()
    ensures !Contains("PENDING", "REFUND") && !Contains("PENDING", "CANCEL") && !Contains("PENDING", "CANCELLED")
    ensures !Contains("PENDING", "EXPIRED") && !Contains("PENDING", "FAIL")
  {
    LacksToken("PENDING", "REFUND", 'R');
    LacksToken("PENDING", "CANCEL", 'C');
    LacksToken("PENDING", "CANCELLED", 'C');
    LacksToken("PENDING", "EXPIRED", 'X');
    LacksToken("PENDING", "FAIL", 'F');
  }

  lemma FailedTokens()
    ensures !Contains("FAILED", "REFUND") && !Contains("FAILED", "CANCELLED") && !Contains("FAILED", "EXPIRED")
    ensures Contains("FAILED", "FAIL") && !Contains("FAILED", "PROVISIONED")
  {
    LacksToken("FAILED", "REFUND", 'R');
    LacksToken("FAILED", "CANCELLED", 'C');
    LacksToken("FAILED", "EXPIRED", 'X');
    LacksToken("FAILED", "PROVISIONED", 'P');
    assert StartsAt("FAILED", 0, "FAIL");
  }

  lemma InProgressTokens()
    ensures !Contains("IN_PROGRESS", "PROVISIONED") && !Contains("IN_PROGRESS", "COMPLETED") && !Contains("IN_PROGRESS", "SUCCESS")
    ensures !Contains("IN_PROGRESS", "ACTIVE") && !Contains("IN_PROGRESS", "PARTIAL") && !Contains("IN_PROGRESS", "FAIL")
  {
    LacksToken("IN_PROGRESS", "PROVISIONED", 'V');
    LacksToken("IN_PROGRESS", "COMPLETED", 'C');
    LacksToken("IN_PROGRESS", "SUCCESS", 'C');
    LacksToken("IN_PROGRESS", "ACTIVE", 'A');
    LacksToken("IN_PROGRESS", "PARTIAL", 'A');
    LacksToken("IN_PROGRESS", "FAIL", 'F');
  }

  // ----- the update, field by field -----

  /** The given text where there is one, else the one already there. */
  predicate GivenOrKept(after: Option<string>, given: Option<string>, before: Option<string>) {
    after == if given.Some? && given != Some("") then given else before
  }

  predicate PlaceholderName(name: string) {
    (|name| >= 9 && name[..9] == "Payment #") || (|name| >= 13 && name[..13] == "Unprovisioned") || name == "Item" || name == "Domain listing"
  }

  /**
   * What an update changes and what it leaves: empty arguments change nothing, a placeholder never displaces
   * a name, and the error fields follow the caller, or are wiped when the purchase is provisioned.
   */
  lemma UpdatedFields(r: TrackRecord, a: PaidAttempt)
    ensures var u := Updated(r, a);
      && u.internalOrderId == r.internalOrderId && u.currency == r.currency && u.subtotal == r.subtotal && u.refundId == r.refundId
      && u.category == (if a.category != "" then a.category else r.category)
      && u.paymentStatus == (if a.paymentStatus != "" then a.paymentStatus else r.paymentStatus)
      && u.amount == (if a.amount > 0 then a.amount else r.amount)
      && GivenOrKept(u.subcategory, a.subcategory, r.subcategory) && GivenOrKept(u.itemId, a.itemId, r.itemId)
      && GivenOrKept(u.buyerUserId, a.buyerUserId, r.buyerUserId)
      && GivenOrKept(u.orderId, a.orderId, r.orderId) && GivenOrKept(u.paymentId, a.paymentId, r.paymentId)
      && u.itemName == (if a.itemName == "" || (PlaceholderName(a.itemName) && r.itemName != "" && !PlaceholderName(r.itemName))
                        then r.itemName else a.itemName)
  {
    PlaceholderExactly(a.itemName);
    PlaceholderExactly(r.itemName);
    hide Contains, Upper, DerivedOverall, KeepsSuccess, Generic, PlaceholderName;
  }

  lemma PlaceholderExactly(name: string)
    ensures Generic(name) <==> PlaceholderName(name)
  {
    assert |"Payment #"| == 9 && |"Unprovisioned"| == 13;
    assert "Payment #" <= name <==> |name| >= 9 && name[..9] == "Payment #";
    assert "Unprovisioned" <= name <==> |name| >= 13 && name[..13] == "Unprovisioned";
  }

  lemma UpdatedErrors(r: TrackRecord, a: PaidAttempt)
    ensures var u := Updated(r, a);
      if Contains(Upper(a.fulfillment), "PROVISIONED") && (a.errorCode == None || a.errorCode == Some(""))
      then u.errorCode == None && u.errorMessage == None && u.errorSource == None
      else if a.clearErrors
      then u.errorCode == a.errorCode && u.errorMessage == a.errorMessage && u.errorSource == a.errorSource
      else GivenOrKept(u.errorCode, a.errorCode, r.errorCode) && GivenOrKept(u.errorMessage, a.errorMessage, r.errorMessage)
           && GivenOrKept(u.errorSource, a.errorSource, r.errorSource)
  {
    hide Contains, Upper, DerivedOverall, KeepsSuccess, Generic;
  }

  // ----- the rules on the statuses in use -----

  datatype Fulfillment = NotStarted | InProgress | Provisioned | NotFulfilled | InPart | Lapsed | CalledOff {
    function Text(): string {
      match this
      case NotStarted => "NOT_STARTED"
      case InProgress => "IN_PROGRESS"
      case Provisioned => "PROVISIONED"
      case NotFulfilled => "FAILED"
      case InPart => "PARTIAL"
      case Lapsed => "EXPIRED"
      case CalledOff => "CANCELLED"
    }
  }

  datatype Overall = Success | Failed | Pending | Partial | Refunded | Expired | Cancelled {
    function Text(): string {
      match this
      case Success => "Success"
      case Failed => "Failed"
      case Pending => "Pending"
      case Partial => "Partial"
      case Refunded => "Refunded"
      case Expired => "Expired"
      case Cancelled => "Cancelled"
    }
  }

  datatype Payment = Authorized | Captured | NotPaid | PaidBack | Awaited {
    function Text(): string {
      match this
      case Authorized => "AUTHORIZED"
      case Captured => "CAPTURED"
      case NotPaid => "FAILED"
      case PaidBack => "REFUNDED"
      case Awaited => "PENDING"
    }
  }

  lemma UpperWord(w: string)
    requires forall i :: 0 <= i < |w| ==> !('a' <= w[i] <= 'z')
    ensures Upper(w) == w
  {
  }

  /** Some letter of the token is missing. */
  predicate Misses(w: string, t: string) { exists c :: c in t && c !in w }

  lemma MissesToken(w: string, t: string)
    requires Misses(w, t)
    ensures !Contains(w, t)
  {
    var c :| c in t && c !in w;
    LacksToken(w, t, c);
  }

  lemma BeginsWith(w: string, t: string)
    requires t <= w
    ensures Contains(w, t)
  {
    assert StartsAt(w, 0, t);
  }

  lemma FulfillmentCapitals(f: Fulfillment)
    ensures forall i :: 0 <= i < |f.Text()| ==> !('a' <= f.Text()[i] <= 'z')
  {
  }

  lemma FulfillmentWithoutMU(f: Fulfillment)
    ensures 'M' !in f.Text() && 'U' !in f.Text()
  {
  }

  lemma FulfillmentWithoutAV(f: Fulfillment)
    ensures 'A' !in f.Text() || 'V' !in f.Text()
    ensures !f.Provisioned? ==> 'V' !in f.Text()
  {
  }

  lemma FulfillmentWithoutFPA(f: Fulfillment)
    ensures !f.NotFulfilled? ==> 'F' !in f.Text()
    ensures !f.InPart? ==> 'P' !in f.Text() || 'A' !in f.Text()
  {
  }

  /** Which tokens each fulfillment status contains. */
  lemma FulfillmentWord(f: Fulfillment)
    ensures var t := f.Text();
      && Upper(t) == t && (Fulfilled(t) <==> f.Provisioned?) && (Contains(t, "PROVISIONED") <==> f.Provisioned?)
      && !Contains(t, "ACTIVE") && !Contains(t, "COMPLETED") && !Contains(t, "SUCCESS")
      && (Contains(t, "FAIL") <==> f.NotFulfilled?) && (Contains(t, "PARTIAL") <==> f.InPart?)
  {
    hide Contains, Upper;
    var t := f.Text();
    FulfillmentCapitals(f);
    FulfillmentWithoutMU(f);
    FulfillmentWithoutAV(f);
    FulfillmentWithoutFPA(f);
    UpperWord(t);
    FulfillmentTokens();
    if f.Provisioned? { BeginsWith(t, "PROVISIONED"); } else { MissesToken(t, "PROVISIONED"); }
    if f.NotFulfilled? { BeginsWith(t, "FAIL"); } else { MissesToken(t, "FAIL"); }
    if f.InPart? { BeginsWith(t, "PARTIAL"); } else { MissesToken(t, "PARTIAL"); }
    MissesToken(t, "ACTIVE");
    MissesToken(t, "COMPLETED");
    MissesToken(t, "SUCCESS");
  }

  lemma FulfillmentTokens()
    ensures 'V' in "PROVISIONED" && 'F' in "FAIL" && 'P' in "PARTIAL" && 'A' in "PARTIAL"
    ensures 'A' in "ACTIVE" && 'V' in "ACTIVE" && 'M' in "COMPLETED" && 'U' in "SUCCESS"
  {
    assert "PROVISIONED"[3] == 'V' && "FAIL"[0] == 'F' && "PARTIAL"[0] == 'P' && "PARTIAL"[1] == 'A';
    assert "ACTIVE"[0] == 'A' && "ACTIVE"[4] == 'V' && "COMPLETED"[2] == 'M' && "SUCCESS"[1] == 'U';
  }

  function Shout(o: Overall): string {
    match o
    case Success => "SUCCESS"
    case Failed => "FAILED"
    case Pending => "PENDING"
    case Partial => "PARTIAL"
    case Refunded => "REFUNDED"
    case Expired => "EXPIRED"
    case Cancelled => "CANCELLED"
  }

  lemma OverallShouted(o: Overall)
    ensures Upper(o.Text()) == Shout(o)
  {
    var t, w := Upper(o.Text()), Shout(o);
    assert |t| == |w| && forall i :: 0 <= i < |w| ==> t[i] == w[i];
  }

  lemma OverallWithoutSX(o: Overall)
    ensures (!o.Success? ==> 'S' !in Shout(o)) && (!o.Expired? ==> 'X' !in Shout(o))
  {
  }

  lemma OverallWithoutRF(o: Overall)
    ensures !o.Refunded? ==> 'R' !in Shout(o) || 'F' !in Shout(o)
  {
  }

  lemma OverallWithoutCFA(o: Overall)
    ensures !o.Cancelled? ==> 'C' !in Shout(o) || 'A' !in Shout(o)
    ensures !o.Failed? ==> 'F' !in Shout(o) || 'A' !in Shout(o)
  {
  }

  lemma OverallTokens()
    ensures 'S' in "SUCCESS" && 'R' in "REFUND" && 'F' in "REFUND" && 'C' in "CANCEL" && 'A' in "CANCEL"
    ensures 'C' in "CANCELLED" && 'A' in "CANCELLED" && 'X' in "EXPIRED" && 'F' in "FAIL" && 'A' in "FAIL"
  {
    assert "SUCCESS"[0] == 'S' && "REFUND"[0] == 'R' && "REFUND"[2] == 'F' && "CANCEL"[0] == 'C' && "CANCEL"[1] == 'A';
    assert "CANCELLED"[0] == 'C' && "CANCELLED"[1] == 'A' && "EXPIRED"[1] == 'X' && "FAIL"[0] == 'F' && "FAIL"[1] == 'A';
  }

  /** Which tokens each overall status contains. */
  lemma OverallWord(o: Overall)
    ensures var w := Upper(o.Text());
      && (Contains(w, "SUCCESS") <==> o.Success?) && (Contains(w, "REFUND") <==> o.Refunded?)
      && (Contains(w, "CANCEL") <==> o.Cancelled?) && (Contains(w, "CANCELLED") <==> o.Cancelled?)
      && (Contains(w, "EXPIRED") <==> o.Expired?) && (Contains(w, "FAIL") <==> o.Failed?)
  {
    hide Contains, Upper;
    var w := Shout(o);
    OverallShouted(o);
    OverallWithoutSX(o);
    OverallWithoutRF(o);
    OverallWithoutCFA(o);
    OverallTokens();
    if o.Success? { BeginsWith(w, "SUCCESS"); } else { MissesToken(w, "SUCCESS"); }
    if o.Refunded? { BeginsWith(w, "REFUND"); } else { MissesToken(w, "REFUND"); }
    if o.Cancelled? { BeginsWith(w, "CANCEL"); } else { MissesToken(w, "CANCEL"); }
    if o.Cancelled? { BeginsWith(w, "CANCELLED"); } else { MissesToken(w, "CANCELLED"); }
    if o.Expired? { BeginsWith(w, "EXPIRED"); } else { MissesToken(w, "EXPIRED"); }
    if o.Failed? { BeginsWith(w, "FAIL"); } else { MissesToken(w, "FAIL"); }
  }

  lemma PaymentCapitals(p: Payment)
    ensures forall i :: 0 <= i < |p.Text()| ==> !('a' <= p.Text()[i] <= 'z')
  {
  }

  lemma PaymentWithoutSC(p: Payment)
    ensures 'S' !in p.Text() && (!p.Captured? ==> 'C' !in p.Text())
  {
  }

  lemma PaymentWithoutPAI(p: Payment)
    ensures 'P' !in p.Text() || 'A' !in p.Text() || 'I' !in p.Text()
  {
  }

  lemma PaymentWithoutRFA(p: Payment)
    ensures !p.PaidBack? ==> 'R' !in p.Text() || 'F' !in p.Text()
    ensures !p.NotPaid? ==> 'F' !in p.Text() || 'A' !in p.Text()
  {
  }

  lemma PaymentTokens()
    ensures 'P' in "PAID" && 'A' in "PAID" && 'I' in "PAID" && 'C' in "CAPTURED"
  {
    assert "PAID"[0] == 'P' && "PAID"[1] == 'A' && "PAID"[2] == 'I' && "CAPTURED"[0] == 'C';
  }

  /** Which tokens each payment status contains. */
  lemma PaymentWord(p: Payment)
    ensures var t := p.Text();
      && Upper(t) == t && (Paid(t) <==> p.Captured?)
      && (Contains(t, "REFUND") <==> p.PaidBack?) && (Contains(t, "FAIL") <==> p.NotPaid?)
  {
    hide Contains, Upper;
    var t := p.Text();
    PaymentCapitals(p);
    PaymentWithoutSC(p);
    PaymentWithoutPAI(p);
    PaymentWithoutRFA(p);
    UpperWord(t);
    PaymentTokens();
    OverallTokens();
    MissesToken(t, "SUCCESS");
    MissesToken(t, "PAID");
    if p.Captured? { BeginsWith(t, "CAPTURED"); } else { MissesToken(t, "CAPTURED"); }
    if p.PaidBack? { BeginsWith(t, "REFUND"); } else { MissesToken(t, "REFUND"); }
    if p.NotPaid? { BeginsWith(t, "FAIL"); } else { MissesToken(t, "FAIL"); }
  }

  /**
   * On the statuses in use, the token tests mean this: a success is kept exactly when a provisioned and
   * successful record meets an attempt in progress or not started, without an error code, that does not
   * report a failure or a reversal.
   */
  lemma SuccessKeptExactly(r: TrackRecord, a: PaidAttempt, rf: Fulfillment, ro: Overall, af: Fulfillment, ao: Overall)
    requires r.fulfillment == rf.Text() && r.overall == ro.Text() && a.fulfillment == af.Text() && a.overall == ao.Text()
    ensures KeepsSuccess(r, a) <==>
      && rf == Provisioned && ro == Success && (af == InProgress || af == NotStarted)
      && (a.errorCode == None || a.errorCode == Some(""))
      && (ao == Success || ao == Pending || ao == Partial)
  {
    FulfillmentWord(rf);
    FulfillmentWord(af);
    OverallWord(ro);
    OverallWord(ao);
    IntermediateWords(af);
    hide Contains, Upper, Fulfilled, Fulfillment.Text, Overall.Text;
  }

  lemma IntermediateWords(f: Fulfillment)
    ensures f.Text() in ["IN_PROGRESS", "NOT_STARTED", "PENDING"] <==> f == InProgress || f == NotStarted
  {
    var t := f.Text();
    assert |t| == 7 ==> t != "PENDING" by {
      assert "PENDING"[1] == 'E' && "PARTIAL"[1] == 'A' && "EXPIRED"[0] == 'E';
    }
    assert t == "IN_PROGRESS" <==> f == InProgress by {
      assert "IN_PROGRESS"[0] == 'I' && "NOT_STARTED"[0] == 'N' && "PROVISIONED"[0] == 'P';
    }
    assert t == "NOT_STARTED" <==> f == NotStarted by {
      assert "IN_PROGRESS"[0] == 'I' && "NOT_STARTED"[0] == 'N' && "PROVISIONED"[0] == 'P';
    }
  }

  /** On the statuses in use, the overall status follows from the rest by this table. */
  lemma OverallExactly(r: TrackRecord, f: Fulfillment, p: Payment, passed: Overall)
    requires r.fulfillment == f.Text() && r.paymentStatus == p.Text()
    ensures DerivedOverall(r, passed.Text()) ==
      if passed == Expired || passed == Cancelled || passed == Refunded then passed.Text()
      else if (r.refundId.Some? && r.refundId != Some("")) || p == PaidBack then "Refunded"
      else if p == NotPaid || f == NotFulfilled || (r.errorCode.Some? && r.errorCode != Some("")) then "Failed"
      else if p != Captured then "Pending"
      else if f == Provisioned then "Success"
      else if f == InPart then "Partial"
      else "Pending"
  {
    FulfillmentWord(f);
    PaymentWord(p);
    OverallWord(passed);
    hide Contains, Upper, Fulfilled, Paid, Fulfillment.Text, Overall.Text, Payment.Text;
  }

  /** Kept or not, the two statuses of an updated record. */
  lemma UpdatedStatuses(r: TrackRecord, a: PaidAttempt)
    requires a.fulfillment != ""
    ensures var u := Updated(r, a);
      && u.fulfillment == (if KeepsSuccess(r, a) then r.fulfillment else a.fulfillment)
      && u.overall == DerivedOverall(u, a.overall)
  {
    hide Contains, Upper, KeepsSuccess, Generic;
  }
}
