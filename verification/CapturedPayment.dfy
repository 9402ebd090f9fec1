/** Backfilling the subscription and invoice of a captured technology payment, without charging again. */
module CapturedPayment {
  import opened Options
  import opened Text
  import opened TrackRecords
  import opened TechnologyTables

  datatype Tables = Tables(subs: seq<Subscription>, invoices: seq<Invoice>, tracks: seq<TrackRecord>)

  /**
   * One invocation with `--apply`: the stripped ids, the clock, and what the environment supplies, that is
   * the id of a new row, the random invoice numbers and the slug derived from a track.
   */
  datatype Call = Call(payment: string, order: Option<string>, now: int, newId: string, number: nat -> string,
                       slugOf: TrackRecord -> string)

  datatype Outcome = Applied | Refused(reason: string) | Raised

  // ----- the queries -----

  predicate Matches(s: Subscription, c: Call) {
    !s.deleted && (s.paymentId == Some(c.payment) || (Truthy(c.order) && s.orderId == c.order))
  }

  predicate AnyMatch(subs: seq<Subscription>, c: Call) {
    exists i :: 0 <= i < |subs| && Matches(subs[i], c)
  }

  predicate TrackMatches(t: TrackRecord, c: Call) {
    t.paymentId == Some(c.payment) || (Truthy(c.order) && t.orderId == c.order)
  }

  /** The first track with the payment id, else the first track found at all. */
  function SelectTrack(tracks: seq<TrackRecord>, c: Call): (k: Option<nat>)
    ensures k.Some? ==> k.value < |tracks| && TrackMatches(tracks[k.value], c)
  {
    var byPayment := First(tracks, (t: TrackRecord) => t.paymentId == Some(c.payment));
    if byPayment.Some? then byPayment else First(tracks, (t: TrackRecord) => TrackMatches(t, c))
  }

  function First(tracks: seq<TrackRecord>, p: TrackRecord -> bool): (k: Option<nat>)
    ensures k.Some? ==> k.value < |tracks| && p(tracks[k.value])
    ensures k.Some? ==> forall i :: 0 <= i < k.value ==> !p(tracks[i])
    ensures k.None? ==> forall i :: 0 <= i < |tracks| ==> !p(tracks[i])
  {
    if tracks == [] then None
    else
      match First(tracks[..|tracks| - 1], p)
      case Some(i) => Some(i)
      case None => if p(tracks[|tracks| - 1]) then Some(|tracks| - 1) else None
  }

  function Refusal(tracks: seq<TrackRecord>, c: Call): Option<string> {
    var k := SelectTrack(tracks, c);
    if k.None? then Some("No Track Record found for this payment; refusing to invent a purchase.")
    else if Upper(tracks[k.value].paymentStatus) !in ["CAPTURED", "PAID"] then Some("Track Record payment_status=" + tracks[k.value].paymentStatus + "; refusing to backfill.")
    else if tracks[k.value].buyerUserId.None? then Some("Track Record has no buyer_user_id; refusing to backfill.")
    else None
  }

  // ----- the rows written -----

  const RETRY_AFTER := 300   // five minutes: both the first backoff and the default of an existing row
  const DAY := 86400

  function PeriodEnd(cycle: string, now: int): int {
    now + DAY * (if "ann" <= Lower(cycle) then 365 else 30)
  }

  function OrElse(o: Option<string>, d: Option<string>): Option<string> { if Truthy(o) then o else d }

  function TextOr(s: string, d: string): string { if s != "" then s else d }

  function IdempotencyKey(payment: string, slug: string): string {
    var key := "rp:" + payment + ":" + slug;
    if |key| <= 64 then key else key[..64]
  }

  function NewSubscription(t: TrackRecord, c: Call): Subscription
    requires t.buyerUserId.Some?
  {
    var slug := c.slugOf(t);
    Subscription(
      c.newId, t.buyerUserId.value, slug, TextOr(t.itemName, slug), "monthly",
      if t.subtotal.Some? && t.subtotal.value != 0 then t.subtotal.value else t.amount, TextOr(t.currency, "INR"),
      "PENDING", "CAPTURED", None, Some(IdempotencyKey(c.payment, slug)),
      1, Some(c.now), Some("PROVISIONING_PENDING"),
      OrElse(t.errorMessage, Some("Provisioning pending after captured payment.")),
      Some(c.now + RETRY_AFTER), OrElse(t.orderId, c.order), Some(c.payment),
      Some(c.now), Some(PeriodEnd("monthly", c.now)), true, false)
  }

  function NewInvoice(s: Subscription, number: string, amount: int, currency: string, cycle: string, now: int): Invoice {
    Invoice(s.id, s.userId, number, amount, currency, "PAID", now, PeriodEnd(cycle, now))
  }

  /** A matched subscription that is not active goes back to waiting for provisioning. */
  function Revived(s: Subscription, c: Call): Subscription {
    if !Matches(s, c) || Upper(s.status) == "ACTIVE" then s
    else s.(status := "PENDING", paymentStatus := "CAPTURED",
            nextRetryAt := if s.nextRetryAt.Some? then s.nextRetryAt else Some(c.now + RETRY_AFTER),
            lastProviderStatus := OrElse(s.lastProviderStatus, Some("PROVISIONING_PENDING")))
  }

  function RevivedAll(subs: seq<Subscription>, c: Call): (out: seq<Subscription>)
    ensures |out| == |subs|
  {
    if subs == [] then []
    else RevivedAll(subs[..|subs| - 1], c) + [Revived(subs[|subs| - 1], c)]
  }

  /** The invoices added for the matched subscriptions that had none in `before`. */
  function Missing(subs: seq<Subscription>, before: seq<Invoice>, t: TrackRecord, c: Call): seq<Invoice> {
    if subs == [] then []
    else
      var s, rest := subs[|subs| - 1], Missing(subs[..|subs| - 1], before, t, c);
      if !Matches(s, c) || InvoiceCount(before, s.id) > 0 then rest
      else rest + [NewInvoice(s, c.number(|rest|), if t.amount != 0 then t.amount else s.price,
                              TextOr(t.currency, TextOr(s.currency, "INR")), TextOr(s.billingCycle, "monthly"), c.now)]
  }

  function TrackAttempt(t: TrackRecord): PaidAttempt {
    PaidAttempt(t.category, t.subcategory, t.itemName, t.itemId, t.buyerUserId, t.amount, "CAPTURED", t.orderId, t.paymentId,
                "IN_PROGRESS", "Pending", t.errorCode, t.errorMessage, t.errorSource, false)
  }

  /** Unique constraints of the two tables, checked when the rows are flushed. */
  predicate Conflict(t: Tables, subs: seq<Subscription>, added: seq<Invoice>) {
    || (exists i, j :: 0 <= i < |t.subs| <= j < |subs| && (t.subs[i].id == subs[j].id || t.subs[i].idempotencyKey == subs[j].idempotencyKey))
    || (exists i, j :: 0 <= i < |t.invoices| && 0 <= j < |added| && t.invoices[i].number == added[j].number)
    || (exists i, j :: 0 <= i < j < |added| && added[i].number == added[j].number)
  }

  /** The whole invocation: what it reports and the tables after it. */
  function Backfilled(t: Tables, c: Call): (Outcome, Tables) {
    var refusal := Refusal(t.tracks, c);
    if refusal.Some? then (Refused(refusal.value), t)
    else
      var k := SelectTrack(t.tracks, c).value;
      var track := t.tracks[k];
      var creates := !AnyMatch(t.subs, c);
      var row := NewSubscription(track, c);
      var subs := if creates then t.subs + [row] else RevivedAll(t.subs, c);
      var added := if creates
                   then [NewInvoice(row, c.number(0), track.amount, TextOr(track.currency, "INR"), "monthly", c.now)]
                   else Missing(t.subs, t.invoices, track, c);
      if Conflict(t, subs, added) then (Raised, t)
      else (Applied, Tables(subs, t.invoices + added, t.tracks[k := Updated(track, TrackAttempt(track))]))
  }

  // ----- the script -----

  class Database {
    var subs: seq<Subscription>
    var invoices: seq<Invoice>
    const tracks: TrackTable

    constructor (subs: seq<Subscription>, invoices: seq<Invoice>, tracks: TrackTable)
      ensures this.subs == subs && this.invoices == invoices && this.tracks == tracks
    {
      this.subs, this.invoices, this.tracks := subs, invoices, tracks;
    }

    function Contents(): Tables
      reads this, tracks
    {
      Tables(subs, invoices, tracks.rows)
    }

    /** `_run(apply=True)`: the session works on pending rows and commits them together, or not at all. */
    method Run(c: Call) returns (o: Outcome)
      requires tracks.Valid()
      modifies this, tracks
      ensures tracks.Valid()
      ensures (o, Contents()) == Backfilled(old(Contents()), c)
    {
      var refusal := Refusal(tracks.rows, c);
      if refusal.Some? {
        return Refused(refusal.value);
      }
      var k := SelectTrack(tracks.rows, c).value;
      var track := tracks.rows[k];
      var pending, added := subs, [];
      if !AnyMatch(subs, c) {
        var sub := NewSubscription(track, c);
        pending := subs + [sub];
        added := [NewInvoice(sub, c.number(0), track.amount, TextOr(track.currency, "INR"), "monthly", c.now)];
      } else {
        pending := ReviveMatched(c);
        added := InvoiceMatched(track, c);
      }
      if Conflict(Contents(), pending, added) {
        return Raised;
      }
      tracks.RecordPaidAttempt(track.internalOrderId, TrackAttempt(track), k);
      subs, invoices := pending, invoices + added;
      return Applied;
    }

    method ReviveMatched(c: Call) returns (pending: seq<Subscription>)
      ensures pending == RevivedAll(subs, c)
    {
      hide Revived, Matches;
      pending := subs;
      var i := 0;
      while i < |subs|
        invariant 0 <= i <= |subs|
        invariant pending == RevivedAll(subs[..i], c) + subs[i..]
      {
        var s := subs[i];
        assert subs[..i + 1][..i] == subs[..i] && subs[i..][1..] == subs[i + 1..];
        RewriteNext(RevivedAll(subs[..i], c), subs[i..], Revived(s, c));
        pending := pending[i := Revived(s, c)];
        i := i + 1;
      }
      assert subs[..i] == subs && subs[i..] == [];
    }

    method InvoiceMatched(track: TrackRecord, c: Call) returns (added: seq<Invoice>)
      ensures added == Missing(subs, invoices, track, c)
    {
      added := [];
      var i := 0;
      while i < |subs|
        invariant 0 <= i <= |subs|
        invariant added == Missing(subs[..i], invoices, track, c)
      {
        var s := subs[i];
        assert subs[..i + 1][..i] == subs[..i];
        if Matches(s, c) && InvoiceCount(invoices, s.id) == 0 {
          added := added + [NewInvoice(s, c.number(|added|), if track.amount != 0 then track.amount else s.price,
                                       TextOr(track.currency, TextOr(s.currency, "INR")), TextOr(s.billingCycle, "monthly"), c.now)];
        }
        i := i + 1;
      }
      assert subs[..i] == subs;
    }
  }

  // ----- what a successful run leaves behind -----

  /** The tables after a successful run, in the two cases. */
  lemma AfterSuccess(t: Tables, c: Call)
    requires Backfilled(t, c).0 == Applied
    ensures var u, k := Backfilled(t, c).1, SelectTrack(t.tracks, c);
            && k.Some? && Refusal(t.tracks, c).None? && t.tracks[k.value].buyerUserId.Some?
            && u.tracks == t.tracks[k.value := Updated(t.tracks[k.value], TrackAttempt(t.tracks[k.value]))]
            && (AnyMatch(t.subs, c) ==>
                  u.subs == RevivedAll(t.subs, c) && u.invoices == t.invoices + Missing(t.subs, t.invoices, t.tracks[k.value], c))
            && (!AnyMatch(t.subs, c) ==>
                  var s := NewSubscription(t.tracks[k.value], c);
                  u.subs == t.subs + [s] && |u.invoices| == |t.invoices| + 1 && t.invoices <= u.invoices
                  && u.invoices[|t.invoices|].subscriptionId == s.id)
  {
    hide Updated;
  }

  lemma {:induction false} RevivedAllAt(subs: seq<Subscription>, c: Call, i: nat)
    requires i < |subs|
    ensures RevivedAll(subs, c)[i] == Revived(subs[i], c)
  {
    if i < |subs| - 1 {
      RevivedAllAt(subs[..|subs| - 1], c, i);
    }
  }

  /** A refusal or a failed flush leaves every table as it was. */
  lemma OnlySuccessWrites(t: Tables, c: Call)
    ensures Backfilled(t, c).0 != Applied ==> Backfilled(t, c).1 == t
  {
    hide Updated, Refusal, Conflict;
  }

  /** After a successful run the payment has a subscription. */
  lemma PaymentHasSubscription(t: Tables, c: Call)
    requires Backfilled(t, c).0 == Applied
    ensures AnyMatch(Backfilled(t, c).1.subs, c)
  {
    AfterSuccess(t, c);
    hide Backfilled, Updated, Refusal, SelectTrack, Conflict;
    var subs := Backfilled(t, c).1.subs;
    if AnyMatch(t.subs, c) {
      var i :| 0 <= i < |t.subs| && Matches(t.subs[i], c);
      RevivedAllAt(t.subs, c, i);
      assert Matches(subs[i], c);
    } else {
      assert Matches(subs[|t.subs|], c);
    }
  }

  /** Rows that are active, or not this payment's, and all earlier invoices, stay as they were. */
  lemma OthersUntouched(t: Tables, c: Call, i: nat)
    requires Backfilled(t, c).0 == Applied && i < |t.subs|
    ensures var u := Backfilled(t, c).1;
            && t.invoices <= u.invoices && i < |u.subs|
            && u.subs[i].id == t.subs[i].id && Matches(u.subs[i], c) == Matches(t.subs[i], c)
            && (!Matches(t.subs[i], c) || Upper(t.subs[i].status) == "ACTIVE" ==> u.subs[i] == t.subs[i])
            && (Matches(t.subs[i], c) && Upper(t.subs[i].status) != "ACTIVE" ==>
                  u.subs[i].status == "PENDING" && u.subs[i].paymentStatus == "CAPTURED" && u.subs[i].nextRetryAt.Some?)
  {
    hide Backfilled, Updated, Refusal, SelectTrack, Conflict;
    AfterSuccess(t, c);
    if AnyMatch(t.subs, c) {
      RevivedAllAt(t.subs, c, i);
    }
  }

  // ----- the rows, field by field -----

  /** A row that belongs to the payment. */
  predicate BelongsTo(s: Subscription, c: Call) {
    !s.deleted && (s.paymentId == Some(c.payment) || (c.order.Some? && c.order != Some("") && s.orderId == c.order))
  }

  /** `a`, or `b` where `a` is missing or empty. */
  predicate IsFirstOf(x: Option<string>, a: Option<string>, b: Option<string>) {
    x == if a.Some? && a.value != "" then a else b
  }

  /** The currency of the first that names one, rupees otherwise. */
  predicate IsCurrency(x: string, a: string, b: string) {
    x == if a != "" then a else if b != "" then b else "INR"
  }

  /** From `now` on, 365 days for a cycle that begins with "ann" in any letter case, 30 days otherwise. */
  predicate IsPeriod(start: int, end: int, cycle: string, now: int) {
    start == now && end == now + (if |cycle| >= 3 && Lower(cycle)[..3] == "ann" then 365 * 86400 else 30 * 86400)
  }

  /** The row of a captured payment that had none: it waits for provisioning, its first retry five minutes on. */
  predicate IsBackfilledRow(s: Subscription, track: TrackRecord, c: Call) {
    && s.id == c.newId && Some(s.userId) == track.buyerUserId
    && s.slug == c.slugOf(track) && s.name == (if track.itemName != "" then track.itemName else s.slug)
    && s.billingCycle == "monthly"
    && s.price == (if track.subtotal.Some? && track.subtotal != Some(0) then track.subtotal.value else track.amount)
    && IsCurrency(s.currency, track.currency, "")
    && s.status == "PENDING" && s.paymentStatus == "CAPTURED" && s.providerSubscriptionId == None
    && s.idempotencyKey.Some? && IsKey(s.idempotencyKey.value, "rp:" + c.payment + ":" + s.slug)
    && s.attempts == 1 && s.lastAttemptAt == Some(c.now) && s.nextRetryAt == Some(c.now + 300)
    && s.lastProviderStatus == Some("PROVISIONING_PENDING")
    && IsFirstOf(s.lastProviderError, track.errorMessage, Some("Provisioning pending after captured payment."))
    && s.paymentId == Some(c.payment) && IsFirstOf(s.orderId, track.orderId, c.order)
    && s.periodStart.Some? && s.periodEnd.Some? && IsPeriod(s.periodStart.value, s.periodEnd.value, "monthly", c.now)
    && s.emailSent && !s.deleted
  }

  /** The first 64 characters of the full key. */
  predicate IsKey(key: string, full: string) { key <= full && |key| == if |full| < 64 then |full| else 64 }

  /** A paid invoice over `amount` for the subscription, from now on. */
  predicate IsInvoiceOf(v: Invoice, s: Subscription, amount: int, track: TrackRecord, cycle: string, now: int) {
    && v.subscriptionId == s.id && v.userId == s.userId && v.amount == amount && v.status == "PAID"
    && IsCurrency(v.currency, track.currency, s.currency) && IsPeriod(v.periodStart, v.periodEnd, cycle, now)
  }

  lemma MonthlyPeriod(now: int)
    ensures PeriodEnd("monthly", now) == now + 30 * 86400 && IsPeriod(now, now + 30 * 86400, "monthly", now)
  {
    assert Lower("monthly")[0] == 'm' && "ann"[0] == 'a';
  }

  lemma AnyPeriod(cycle: string, now: int)
    ensures IsPeriod(now, PeriodEnd(cycle, now), cycle, now)
  {
    assert "ann" <= Lower(cycle) ==> Lower(cycle)[..3] == "ann";
  }

  /** A captured payment without a subscription gets one that waits for provisioning, and one paid invoice for it. */
  lemma BackfilledRow(t: Tables, c: Call)
    requires Backfilled(t, c).0 == Applied
    requires forall i :: 0 <= i < |t.subs| ==> !BelongsTo(t.subs[i], c)
    ensures var u, k := Backfilled(t, c).1, SelectTrack(t.tracks, c);
      && k.Some? && |u.subs| == |t.subs| + 1 && t.subs <= u.subs
      && |u.invoices| == |t.invoices| + 1 && t.invoices <= u.invoices
      && var s, v, track := u.subs[|t.subs|], u.invoices[|t.invoices|], t.tracks[k.value];
      && IsBackfilledRow(s, track, c)
      && v.number == c.number(0) && IsInvoiceOf(v, s, track.amount, track, "monthly", c.now)
  {
    hide Backfilled, Updated, Refusal, SelectTrack, Conflict, IsBackfilledRow, IsInvoiceOf, NewSubscription, NewInvoice;
    assert !AnyMatch(t.subs, c);
    AfterCreation(t, c);
    var track := t.tracks[SelectTrack(t.tracks, c).value];
    NewRowIsBackfilled(track, c);
    NewInvoiceIs(NewSubscription(track, c), c.number(0), track, c.now);
  }

  lemma AfterCreation(t: Tables, c: Call)
    requires Backfilled(t, c).0 == Applied && !AnyMatch(t.subs, c)
    ensures var u, k := Backfilled(t, c).1, SelectTrack(t.tracks, c);
      && k.Some? && t.tracks[k.value].buyerUserId.Some?
      && var track := t.tracks[k.value];
      && var s := NewSubscription(track, c);
      && u.subs == t.subs + [s]
      && u.invoices == t.invoices + [NewInvoice(s, c.number(0), track.amount, TextOr(track.currency, "INR"), "monthly", c.now)]
  {
    hide Updated, SelectTrack, Conflict, NewSubscription, NewInvoice, Upper;
  }

  lemma NewRowIsBackfilled(track: TrackRecord, c: Call)
    requires track.buyerUserId.Some?
    ensures IsBackfilledRow(NewSubscription(track, c), track, c)
    ensures NewSubscription(track, c).currency == TextOr(track.currency, "INR")
  {
    MonthlyPeriod(c.now);
    hide IsPeriod, PeriodEnd;
  }

  lemma NewInvoiceIs(s: Subscription, number: string, track: TrackRecord, now: int)
    requires s.currency == TextOr(track.currency, "INR")
    ensures var v := NewInvoice(s, number, track.amount, TextOr(track.currency, "INR"), "monthly", now);
      v.number == number && IsInvoiceOf(v, s, track.amount, track, "monthly", now)
  {
    AnyPeriod("monthly", now);
    hide IsPeriod, PeriodEnd;
  }

  /** Every earlier row, field by field: only rows of the payment that are not active change, back to waiting. */
  lemma RevivedRow(t: Tables, c: Call, i: nat)
    requires Backfilled(t, c).0 == Applied && i < |t.subs|
    ensures i < |Backfilled(t, c).1.subs|
    ensures var s, s' := t.subs[i], Backfilled(t, c).1.subs[i];
      if !BelongsTo(s, c) || Upper(s.status) == "ACTIVE" then s' == s
      else
        && s'.status == "PENDING" && s'.paymentStatus == "CAPTURED"
        && s'.nextRetryAt == (if s.nextRetryAt.Some? then s.nextRetryAt else Some(c.now + 300))
        && IsFirstOf(s'.lastProviderStatus, s.lastProviderStatus, Some("PROVISIONING_PENDING"))
        && s' == s.(status := s'.status, paymentStatus := s'.paymentStatus, nextRetryAt := s'.nextRetryAt,
                    lastProviderStatus := s'.lastProviderStatus)
  {
    hide Backfilled, Updated, Refusal, SelectTrack, Conflict, NewSubscription;
    AfterSuccess(t, c);
    if AnyMatch(t.subs, c) {
      RevivedAllAt(t.subs, c, i);
    } else {
      assert !Matches(t.subs[i], c);
    }
  }

  /** The invoice of a missing one: the captured amount, or the price where nothing was captured. */
  predicate IsMissingInvoice(v: Invoice, s: Subscription, track: TrackRecord, c: Call) {
    && BelongsTo(s, c)
    && IsInvoiceOf(v, s, if track.amount != 0 then track.amount else s.price, track,
                   if s.billingCycle != "" then s.billingCycle else "monthly", c.now)
  }

  lemma {:induction false} MissingAt(subs: seq<Subscription>, before: seq<Invoice>, t: TrackRecord, c: Call, k: nat) returns (i: nat)
    requires k < |Missing(subs, before, t, c)|
    ensures i < |subs| && InvoiceCount(before, subs[i].id) == 0
    ensures IsMissingInvoice(Missing(subs, before, t, c)[k], subs[i], t, c)
    ensures Missing(subs, before, t, c)[k].number == c.number(k)
  {
    hide IsPeriod, PeriodEnd;
    var s, rest := subs[|subs| - 1], Missing(subs[..|subs| - 1], before, t, c);
    if k < |rest| {
      i := MissingAt(subs[..|subs| - 1], before, t, c, k);
    } else {
      i := |subs| - 1;
      AnyPeriod(TextOr(s.billingCycle, "monthly"), c.now);
    }
  }

  /** Where the payment has subscriptions, each added invoice is that of one of them that had none. */
  lemma AddedInvoice(t: Tables, c: Call, k: nat) returns (i: nat)
    requires Backfilled(t, c).0 == Applied && AnyMatch(t.subs, c)
    requires |t.invoices| <= k < |Backfilled(t, c).1.invoices|
    ensures SelectTrack(t.tracks, c).Some? && i < |t.subs| && InvoiceCount(t.invoices, t.subs[i].id) == 0
    ensures var v := Backfilled(t, c).1.invoices[k];
      IsMissingInvoice(v, t.subs[i], t.tracks[SelectTrack(t.tracks, c).value], c) && v.number == c.number(k - |t.invoices|)
  {
    hide Backfilled, Updated, Refusal, SelectTrack, Conflict, NewSubscription, Missing, IsMissingInvoice, RevivedAll, AnyMatch;
    AfterSuccess(t, c);
    i := MissingAt(t.subs, t.invoices, t.tracks[SelectTrack(t.tracks, c).value], c, k - |t.invoices|);
  }

  /** The track is the first with the payment id, or else the first with the order id. */
  lemma SelectTrackExactly(tracks: seq<TrackRecord>, c: Call)
    ensures var k := SelectTrack(tracks, c);
      && (k.Some? ==> k.value < |tracks|)
      && ((exists i :: 0 <= i < |tracks| && tracks[i].paymentId == Some(c.payment)) ==>
            k.Some? && tracks[k.value].paymentId == Some(c.payment)
            && forall i :: 0 <= i < k.value ==> tracks[i].paymentId != Some(c.payment))
      && ((forall i :: 0 <= i < |tracks| ==> tracks[i].paymentId != Some(c.payment)) ==>
            if k.Some? then c.order.Some? && c.order != Some("") && tracks[k.value].orderId == c.order
                            && forall i :: 0 <= i < k.value ==> tracks[i].orderId != c.order
            else c.order in {None, Some("")} || forall i :: 0 <= i < |tracks| ==> tracks[i].orderId != c.order)
  {
  }

  ghost predicate NumbersUnique(invoices: seq<Invoice>) {
    forall i, j :: 0 <= i < j < |invoices| ==> invoices[i].number != invoices[j].number
  }

  ghost predicate KeysUnique(subs: seq<Subscription>) {
    forall i, j :: 0 <= i < j < |subs| && subs[i].idempotencyKey.Some? ==> subs[i].idempotencyKey != subs[j].idempotencyKey
  }

  /** The unique constraints hold after a run, whatever numbers and ids it drew: a draw that clashes is not applied. */
  lemma ConstraintsKept(t: Tables, c: Call)
    requires UniqueSubscriptions(t.subs) && KeysUnique(t.subs) && NumbersUnique(t.invoices)
    ensures var u := Backfilled(t, c).1; UniqueSubscriptions(u.subs) && KeysUnique(u.subs) && NumbersUnique(u.invoices)
  {
    OnlySuccessWrites(t, c);
    if Backfilled(t, c).0 == Applied {
      AppliedWithoutConflict(t, c);
      RowsKeepTheirKeys(t, c);
    }
  }

  lemma AppliedWithoutConflict(t: Tables, c: Call)
    requires Backfilled(t, c).0 == Applied
    ensures var u := Backfilled(t, c).1; t.invoices <= u.invoices && !Conflict(t, u.subs, u.invoices[|t.invoices|..])
  {
    hide Updated, SelectTrack, Conflict, NewSubscription, NewInvoice, Upper;
    var u := Backfilled(t, c).1;
    var k := SelectTrack(t.tracks, c).value;
    var added := if !AnyMatch(t.subs, c)
                 then [NewInvoice(NewSubscription(t.tracks[k], c), c.number(0), t.tracks[k].amount,
                                  TextOr(t.tracks[k].currency, "INR"), "monthly", c.now)]
                 else Missing(t.subs, t.invoices, t.tracks[k], c);
    assert u.invoices == t.invoices + added;
    assert u.invoices[|t.invoices|..] == added;
  }

  lemma RowsKeepTheirKeys(t: Tables, c: Call)
    requires Backfilled(t, c).0 == Applied
    ensures var u := Backfilled(t, c).1;
      && |t.subs| <= |u.subs| <= |t.subs| + 1
      && forall i :: 0 <= i < |t.subs| ==> u.subs[i].id == t.subs[i].id && u.subs[i].idempotencyKey == t.subs[i].idempotencyKey
  {
    var u := Backfilled(t, c).1;
    AfterSuccess(t, c);
    hide Backfilled, Updated, Refusal, SelectTrack, Conflict, NewSubscription;
    forall i | 0 <= i < |t.subs|
      ensures u.subs[i].id == t.subs[i].id && u.subs[i].idempotencyKey == t.subs[i].idempotencyKey
    {
      RevivedRow(t, c, i);
    }
  }

  /** What is refused: no track, a track not paid, or a track without a buyer. Nothing else is. */
  lemma RefusedExactly(t: Tables, c: Call)
    ensures var k := SelectTrack(t.tracks, c);
      Backfilled(t, c).0.Refused? <==>
        k.None? || (Upper(t.tracks[k.value].paymentStatus) != "CAPTURED" && Upper(t.tracks[k.value].paymentStatus) != "PAID")
        || t.tracks[k.value].buyerUserId.None?
  {
    hide Updated, SelectTrack, Conflict, NewSubscription, Upper;
  }

  /** Rows of the payment that no invoice names. */
  ghost function Awaiting(subs: seq<Subscription>, invoices: seq<Invoice>, c: Call): set<int> {
    set i | 0 <= i < |subs| && BelongsTo(subs[i], c) && forall j :: 0 <= j < |invoices| ==> invoices[j].subscriptionId != subs[i].id
  }

  /** Of `n` drawn numbers, one is taken already or drawn twice. */
  ghost predicate NumbersClash(invoices: seq<Invoice>, c: Call, n: nat) {
    || (exists i, k: nat :: 0 <= i < |invoices| && k < n && invoices[i].number == c.number(k))
    || (exists j: nat, k: nat :: j < k < n && c.number(j) == c.number(k))
  }

  /** The drawn id, or the key the new row would get, is that of a stored row. */
  ghost predicate RowClash(subs: seq<Subscription>, c: Call, track: TrackRecord) {
    exists i :: 0 <= i < |subs| && (subs[i].id == c.newId
      || (subs[i].idempotencyKey.Some? && IsKey(subs[i].idempotencyKey.value, "rp:" + c.payment + ":" + c.slugOf(track))))
  }

  /**
   * When a run that is not refused raises: with rows of the payment, exactly when the numbers drawn for those
   * without invoice clash; without, exactly when the one number, the new id or the new key does. In every
   * other case it is applied.
   */
  lemma RaisedExactly(t: Tables, c: Call)
    requires !Backfilled(t, c).0.Refused?
    ensures SelectTrack(t.tracks, c).Some? && Backfilled(t, c).0 in {Applied, Raised}
    ensures Backfilled(t, c).0 == Raised <==>
      if exists i :: 0 <= i < |t.subs| && BelongsTo(t.subs[i], c) then NumbersClash(t.invoices, c, |Awaiting(t.subs, t.invoices, c)|)
      else NumbersClash(t.invoices, c, 1) || RowClash(t.subs, c, t.tracks[SelectTrack(t.tracks, c).value])
  {
    hide Updated, SelectTrack, Conflict, NewSubscription, NewInvoice, Upper, NumbersClash, RowClash;
    var track := t.tracks[SelectTrack(t.tracks, c).value];
    if AnyMatch(t.subs, c) {
      var i :| 0 <= i < |t.subs| && Matches(t.subs[i], c);
      assert BelongsTo(t.subs[i], c);
      ConflictOfMissing(t, c, track);
    } else {
      assert forall i :: 0 <= i < |t.subs| ==> !BelongsTo(t.subs[i], c);
      ConflictOfNewRow(t, c, track);
    }
  }

  lemma ConflictOfMissing(t: Tables, c: Call, track: TrackRecord)
    ensures Conflict(t, RevivedAll(t.subs, c), Missing(t.subs, t.invoices, track, c))
            <==> NumbersClash(t.invoices, c, |Awaiting(t.subs, t.invoices, c)|)
  {
    var added := Missing(t.subs, t.invoices, track, c);
    MissingLength(t.subs, t.invoices, track, c);
    hide Missing, IsMissingInvoice, Awaiting;
    forall k: nat | k < |added|
      ensures added[k].number == c.number(k)
    {
      var i := MissingAt(t.subs, t.invoices, track, c, k);
    }
  }

  lemma ConflictOfNewRow(t: Tables, c: Call, track: TrackRecord)
    requires track.buyerUserId.Some?
    ensures var row := NewSubscription(track, c);
      Conflict(t, t.subs + [row], [NewInvoice(row, c.number(0), track.amount, TextOr(track.currency, "INR"), "monthly", c.now)])
      <==> NumbersClash(t.invoices, c, 1) || RowClash(t.subs, c, track)
  {
    var row := NewSubscription(track, c);
    var added := [NewInvoice(row, c.number(0), track.amount, TextOr(track.currency, "INR"), "monthly", c.now)];
    NewRowIds(track, c);
    hide NewSubscription, PeriodEnd, IdempotencyKey, IsKey;
    var subs := t.subs + [row];
    assert subs[|t.subs|] == row && added[0].number == c.number(0);
  }

  lemma NewRowIds(track: TrackRecord, c: Call)
    requires track.buyerUserId.Some?
    ensures var s := NewSubscription(track, c);
      && s.id == c.newId
      && forall k: string :: s.idempotencyKey == Some(k) <==> IsKey(k, "rp:" + c.payment + ":" + c.slugOf(track))
  {
    KeyOfPayment(c.payment, c.slugOf(track));
    hide IsKey, IdempotencyKey, PeriodEnd;
  }

  lemma KeyOfPayment(payment: string, slug: string)
    ensures forall k: string :: k == IdempotencyKey(payment, slug) <==> IsKey(k, "rp:" + payment + ":" + slug)
  {
    var full := "rp:" + payment + ":" + slug;
    forall k: string
      ensures k == IdempotencyKey(payment, slug) <==> IsKey(k, full)
    {
      if IsKey(k, full) {
        assert k == full[..|k|];
      }
    }
  }

  lemma {:induction false} MissingLength(subs: seq<Subscription>, before: seq<Invoice>, t: TrackRecord, c: Call)
    ensures |Missing(subs, before, t, c)| == |Awaiting(subs, before, c)|
  {
    hide Awaiting, Matches, NewInvoice, InvoiceCount;
    if subs == [] {
      NoneAwaits(before, c);
    } else {
      MissingLength(subs[..|subs| - 1], before, t, c);
      OneMoreAwaits(subs, before, c);
    }
  }

  lemma NoneAwaits(before: seq<Invoice>, c: Call)
    ensures Awaiting([], before, c) == {}
  {
  }

  lemma OneMoreAwaits(subs: seq<Subscription>, before: seq<Invoice>, c: Call)
    requires subs != []
    ensures var n := |subs| - 1;
      |Awaiting(subs, before, c)|
      == |Awaiting(subs[..n], before, c)| + (if !Matches(subs[n], c) || InvoiceCount(before, subs[n].id) > 0 then 0 else 1)
  {
    hide InvoiceCount;
    var n := |subs| - 1;
    NotInvoiced(before, subs[n].id);
    var front, all := Awaiting(subs[..n], before, c), Awaiting(subs, before, c);
    assert BelongsTo(subs[n], c) == Matches(subs[n], c);
    hide BelongsTo, Matches;
    assert n !in front;
    if n in all {
      assert all == front + {n};
    } else {
      assert all == front;
    }
  }

  lemma {:induction false} NotInvoiced(invoices: seq<Invoice>, id: string)
    ensures InvoiceCount(invoices, id) == 0 <==> forall j :: 0 <= j < |invoices| ==> invoices[j].subscriptionId != id
  {
    if invoices != [] {
      var n := |invoices| - 1;
      NotInvoiced(invoices[..n], id);
    }
  }

  /** Exactly the matched subscriptions without invoices get one. */
  lemma {:induction false} MissingCount(subs: seq<Subscription>, before: seq<Invoice>, t: TrackRecord, c: Call, id: string)
    requires UniqueSubscriptions(subs)
    ensures InvoiceCount(Missing(subs, before, t, c), id)
            == if InvoiceCount(before, id) == 0 && (exists i :: 0 <= i < |subs| && subs[i].id == id && Matches(subs[i], c)) then 1 else 0
  {
    if subs != [] {
      var front, s := subs[..|subs| - 1], subs[|subs| - 1];
      MissingCount(front, before, t, c, id);
      var rest := Missing(front, before, t, c);
      assert forall x: Invoice :: (rest + [x])[..|rest|] == rest;
      assert forall i :: 0 <= i < |front| ==> front[i] == subs[i];
      if s.id == id {
        assert forall i :: 0 <= i < |front| ==> front[i].id != id;
      }
    }
  }

  /**
   * Every matched subscription ends with max(1, previous count) invoices: none is invoiced twice, none
   * is left without. The id of a new row must not be one that stray invoices already carry.
   */
  lemma EachMatchedHasInvoice(t: Tables, c: Call, i: nat)
    requires Backfilled(t, c).0 == Applied && UniqueSubscriptions(t.subs)
    requires InvoiceCount(t.invoices, c.newId) == 0
    requires i < |Backfilled(t, c).1.subs| && Matches(Backfilled(t, c).1.subs[i], c)
    ensures var u := Backfilled(t, c).1;
            var was := InvoiceCount(t.invoices, u.subs[i].id);
            InvoiceCount(u.invoices, u.subs[i].id) == if was > 1 then was else 1
  {
    hide Backfilled, Updated, Refusal, SelectTrack, Conflict, NewSubscription;
    AfterSuccess(t, c);
    var u := Backfilled(t, c).1;
    var id := u.subs[i].id;
    var added := u.invoices[|t.invoices|..];
    assert u.invoices == t.invoices + added;
    InvoiceCountConcat(t.invoices, added, id);
    if AnyMatch(t.subs, c) {
      RevivedAllAt(t.subs, c, i);
      hide RevivedAll, InvoiceCount, Missing;
      MissingCount(t.subs, t.invoices, t.tracks[SelectTrack(t.tracks, c).value], c, id);
      assert t.subs[i].id == id && Matches(t.subs[i], c);
    } else {
      assert i == |t.subs| && u.subs[i].id == c.newId by {
        assert NewSubscription(t.tracks[SelectTrack(t.tracks, c).value], c).id == c.newId by { NewRowId(t.tracks[SelectTrack(t.tracks, c).value], c); }
      }
      assert added[..0] == [];
    }
  }

  lemma NewRowId(t: TrackRecord, c: Call)
    requires t.buyerUserId.Some?
    ensures NewSubscription(t, c).id == c.newId
  {
  }

  // ----- running it again -----

  /** The same payment and order; clock, ids, numbers and slugs may differ. */
  predicate SamePayment(c: Call, d: Call) { c.payment == d.payment && c.order == d.order }

  lemma RevivedSettles(s: Subscription, c: Call, d: Call)
    requires SamePayment(c, d)
    ensures Revived(Revived(s, c), d) == Revived(s, c)
  {
  }

  lemma {:induction false} RevivedAllFixed(subs: seq<Subscription>, c: Call)
    requires forall i :: 0 <= i < |subs| ==> Revived(subs[i], c) == subs[i]
    ensures RevivedAll(subs, c) == subs
  {
    if subs != [] {
      RevivedAllFixed(subs[..|subs| - 1], c);
    }
  }

  lemma {:induction false} NothingMissing(subs: seq<Subscription>, before: seq<Invoice>, t: TrackRecord, c: Call)
    requires forall i :: 0 <= i < |subs| && Matches(subs[i], c) ==> InvoiceCount(before, subs[i].id) > 0
    ensures Missing(subs, before, t, c) == []
  {
    if subs != [] {
      NothingMissing(subs[..|subs| - 1], before, t, c);
    }
  }

  lemma {:induction false} MissingCovers(subs: seq<Subscription>, before: seq<Invoice>, t: TrackRecord, c: Call, i: nat)
    requires i < |subs| && Matches(subs[i], c)
    ensures InvoiceCount(before, subs[i].id) > 0 || InvoiceCount(Missing(subs, before, t, c), subs[i].id) > 0
  {
    var rest := Missing(subs[..|subs| - 1], before, t, c);
    assert forall x: Invoice :: (rest + [x])[..|rest|] == rest;
    if i < |subs| - 1 {
      MissingCovers(subs[..|subs| - 1], before, t, c, i);
    }
  }

  /** After a successful run no matched subscription is without an invoice. */
  lemma AllInvoiced(t: Tables, c: Call, i: nat)
    requires Backfilled(t, c).0 == Applied
    requires i < |Backfilled(t, c).1.subs| && Matches(Backfilled(t, c).1.subs[i], c)
    ensures InvoiceCount(Backfilled(t, c).1.invoices, Backfilled(t, c).1.subs[i].id) > 0
  {
    hide Backfilled, Updated, Refusal, SelectTrack, Conflict, NewSubscription, NewInvoice, Matches;
    AfterSuccess(t, c);
    var u := Backfilled(t, c).1;
    var added := u.invoices[|t.invoices|..];
    assert u.invoices == t.invoices + added;
    InvoiceCountConcat(t.invoices, added, u.subs[i].id);
    if AnyMatch(t.subs, c) {
      RevivedAllAt(t.subs, c, i);
      MissingCovers(t.subs, t.invoices, t.tracks[SelectTrack(t.tracks, c).value], c, i);
    } else {
      assert i == |t.subs|;
      assert added[..0] == [];
    }
  }

  lemma FirstAgrees(a: seq<TrackRecord>, p: TrackRecord -> bool, b: seq<TrackRecord>, q: TrackRecord -> bool)
    requires |a| == |b| && forall i :: 0 <= i < |a| ==> p(a[i]) == q(b[i])
    ensures First(a, p) == First(b, q)
  {
  }

  lemma SameTrackAgain(tracks: seq<TrackRecord>, k: nat, x: TrackRecord, c: Call, d: Call)
    requires k < |tracks| && x.paymentId == tracks[k].paymentId && x.orderId == tracks[k].orderId && SamePayment(c, d)
    ensures SelectTrack(tracks[k := x], d) == SelectTrack(tracks, c)
  {
    var pc, pd := (t: TrackRecord) => t.paymentId == Some(c.payment), (t: TrackRecord) => t.paymentId == Some(d.payment);
    var mc, md := (t: TrackRecord) => TrackMatches(t, c), (t: TrackRecord) => TrackMatches(t, d);
    FirstAgrees(tracks, pc, tracks[k := x], pd);
    FirstAgrees(tracks, mc, tracks[k := x], md);
  }

  // ----- the track row -----

  /** What one run makes of the track it selects. */
  lemma TrackAfterRun(r: TrackRecord)
    ensures var f := if KeepsSuccess(r, TrackAttempt(r)) then r.fulfillment else "IN_PROGRESS";
            var paid := r.(paymentStatus := "CAPTURED", fulfillment := f);
            Updated(r, TrackAttempt(r)) == paid.(overall := DerivedOverall(paid, "Pending"))
  {
    StatusWords();
    InProgressTokens();
  }

  /** The track keeps a confirmed success that its refund, or its own wording, contradicts. */
  predicate Contested(r: TrackRecord) {
    KeepsSuccess(r, TrackAttempt(r)) && (Truthy(r.refundId) || Contains(Upper(r.fulfillment), "FAIL"))
  }

  lemma DerivedWhenCaptured(r: TrackRecord)
    requires r.paymentStatus == "CAPTURED"
    ensures DerivedOverall(r, "Pending") ==
      var f := Upper(r.fulfillment);
      if Truthy(r.refundId) then "Refunded"
      else if Contains(f, "FAIL") || Truthy(r.errorCode) then "Failed"
      else if Contains(f, "PROVISIONED") || Contains(f, "COMPLETED") || Contains(f, "SUCCESS") || Contains(f, "ACTIVE") then "Success"
      else if Contains(f, "PARTIAL") then "Partial" else "Pending"
  {
    StatusWords();
    CapturedTokens();
    PendingTokens();
  }

  /** A second run leaves the track row alone exactly when it is not contested. */
  lemma TrackSettles(r: TrackRecord)
    ensures var u := Updated(r, TrackAttempt(r));
            Updated(u, TrackAttempt(u)) == u <==> !Contested(r)
  {
    var u := Updated(r, TrackAttempt(r));
    TrackAfterRun(r);
    TrackAfterRun(u);
    var f := if KeepsSuccess(u, TrackAttempt(u)) then u.fulfillment else "IN_PROGRESS";
    DerivedWhenCaptured(r.(paymentStatus := "CAPTURED", fulfillment := u.fulfillment));
    DerivedWhenCaptured(u.(paymentStatus := "CAPTURED", fulfillment := f));
    hide Updated, DerivedOverall;
    StatusWords();
    InProgressTokens();
    if KeepsSuccess(r, TrackAttempt(r)) {
      KeptAgain(r, u);
    } else {
      NotKeptAgain(u);
    }
  }

  /** A provisioned purchase with a refund: the first run says refunded, the second takes it for unfinished. */
  lemma ContestedExample() returns (r: TrackRecord)
    ensures r.refundId == Some("rfnd_1") && r.fulfillment == "PROVISIONED" && r.overall == "Success"
    ensures var u := Updated(r, TrackAttempt(r)); Updated(u, TrackAttempt(u)) != u
  {
    r := TrackRecord("TRK-3", TECHNOLOGY_PURCHASE, None, "VPN", None, Some("u"), 49900, "INR", None,
                     "CAPTURED", None, Some("pay_3"), Some("rfnd_1"), "PROVISIONED", "Success", None, None, None);
    StatusWords();
    ProvisionedTokens();
    PendingTokens();
    TrackSettles(r);
  }

  lemma KeptAgain(r: TrackRecord, u: TrackRecord)
    requires KeepsSuccess(r, TrackAttempt(r))
    requires u == r.(paymentStatus := "CAPTURED", overall := u.overall)
    requires u.overall == if Truthy(r.refundId) then "Refunded" else if Contains(Upper(r.fulfillment), "FAIL") then "Failed" else "Success"
    ensures KeepsSuccess(u, TrackAttempt(u)) <==> !Contested(r)
  {
    SuccessWord(u.overall);
    hide Contains, Fulfilled, Intermediate, Upper;
  }

  lemma SuccessWord(o: string)
    ensures o == "Success" ==> Contains(Upper(o), "SUCCESS")
    ensures o == "Refunded" || o == "Failed" ==> !Contains(Upper(o), "SUCCESS")
  {
    StatusWords();
    ProvisionedTokens();
    LacksToken("REFUNDED", "SUCCESS", 'S');
    LacksToken("FAILED", "SUCCESS", 'S');
    assert Upper("Refunded") == "REFUNDED";
  }

  lemma NotKeptAgain(u: TrackRecord)
    requires u.fulfillment == "IN_PROGRESS"
    ensures !KeepsSuccess(u, TrackAttempt(u))
  {
    StatusWords();
    InProgressTokens();
  }

  /**
   * A second run for the same payment succeeds again and changes no subscription and no invoice, whatever
   * its clock and random numbers. The track row stays too, exactly when it is not contested.
   */
  lemma RunningTwiceIsOnce(t: Tables, c: Call, d: Call)
    requires Backfilled(t, c).0 == Applied && SamePayment(c, d)
    ensures var (o, v) := Backfilled(Backfilled(t, c).1, d);
            var u := Backfilled(t, c).1;
            && o == Applied && v.subs == u.subs && v.invoices == u.invoices
            && (v == u <==> !Contested(t.tracks[SelectTrack(t.tracks, c).value]))
  {
    hide *;
    var u := Backfilled(t, c).1;
    SubscriptionsSettle(t, c, d);
    InvoicesSettle(t, c, d);
    TrackIsAcceptedAgain(t, c, d);
    NothingLeftToWrite(u, d);
    var k := SelectTrack(t.tracks, c).value;
    TrackSettles(t.tracks[k]);
    assert u.tracks[k := u.tracks[k]] == u.tracks;
  }

  /**
   * The queries have no ORDER BY, so a second run may meet the tracks in another order and pick another
   * one. Subscriptions and invoices do not depend on it: whatever `tracks` the second run reads, it changes
   * none of them, refused or not.
   */
  lemma SecondRunWhateverTrack(t: Tables, c: Call, d: Call, tracks: seq<TrackRecord>)
    requires Backfilled(t, c).0 == Applied && SamePayment(c, d)
    ensures var u := Backfilled(t, c).1;
            var (o, v) := Backfilled(u.(tracks := tracks), d);
            !o.Raised? && v.subs == u.subs && v.invoices == u.invoices
            && (o == Applied <==> Refusal(tracks, d).None?)
  {
    hide *;
    var u := Backfilled(t, c).1;
    SubscriptionsSettle(t, c, d);
    InvoicesSettle(t, c, d);
    RefusedOrSelected(u.(tracks := tracks), d);
    if Refusal(tracks, d).None? {
      NothingLeftToWrite(u.(tracks := tracks), d);
    }
  }

  lemma RefusedOrSelected(t: Tables, c: Call)
    ensures Refusal(t.tracks, c).None? ==> SelectTrack(t.tracks, c).Some?
    ensures Refusal(t.tracks, c).Some? ==> Backfilled(t, c) == (Refused(Refusal(t.tracks, c).value), t)
  {
    hide Updated, SelectTrack, NewSubscription, Conflict;
  }

  lemma NothingLeftToWrite(u: Tables, d: Call)
    requires Refusal(u.tracks, d).None? && SelectTrack(u.tracks, d).Some? && AnyMatch(u.subs, d) && RevivedAll(u.subs, d) == u.subs
    requires forall x :: Missing(u.subs, u.invoices, x, d) == []
    ensures var k := SelectTrack(u.tracks, d).value;
            Backfilled(u, d) == (Applied, u.(tracks := u.tracks[k := Updated(u.tracks[k], TrackAttempt(u.tracks[k]))]))
  {
    hide Updated, Refusal, SelectTrack, AnyMatch, RevivedAll, Missing, NewSubscription;
    assert u.invoices + [] == u.invoices;
  }

  lemma SubscriptionsSettle(t: Tables, c: Call, d: Call)
    requires Backfilled(t, c).0 == Applied && SamePayment(c, d)
    ensures var u := Backfilled(t, c).1; AnyMatch(u.subs, d) && RevivedAll(u.subs, d) == u.subs
  {
    hide Backfilled, Updated, Refusal, SelectTrack, Conflict;
    AfterSuccess(t, c);
    var u := Backfilled(t, c).1;
    PaymentHasSubscription(t, c);
    var m :| 0 <= m < |u.subs| && Matches(u.subs[m], c);
    assert Matches(u.subs[m], d);
    forall i | 0 <= i < |u.subs|
      ensures Revived(u.subs[i], d) == u.subs[i]
    {
      if AnyMatch(t.subs, c) {
        RevivedAllAt(t.subs, c, i);
        RevivedSettles(t.subs[i], c, d);
      } else if i < |t.subs| {
        assert !Matches(t.subs[i], c);
      }
    }
    RevivedAllFixed(u.subs, d);
  }

  lemma InvoicesSettle(t: Tables, c: Call, d: Call)
    requires Backfilled(t, c).0 == Applied && SamePayment(c, d)
    ensures var u := Backfilled(t, c).1; forall x :: Missing(u.subs, u.invoices, x, d) == []
  {
    var u := Backfilled(t, c).1;
    forall i | 0 <= i < |u.subs| && Matches(u.subs[i], d)
      ensures InvoiceCount(u.invoices, u.subs[i].id) > 0
    {
      AllInvoiced(t, c, i);
    }
    forall x ensures Missing(u.subs, u.invoices, x, d) == [] {
      NothingMissing(u.subs, u.invoices, x, d);
    }
  }

  /** The same track is selected again, and is not refused. */
  lemma TrackIsAcceptedAgain(t: Tables, c: Call, d: Call)
    requires Backfilled(t, c).0 == Applied && SamePayment(c, d)
    ensures var u := Backfilled(t, c).1;
            var k := SelectTrack(t.tracks, c);
            && k.Some? && SelectTrack(u.tracks, d) == k && Refusal(u.tracks, d).None?
            && u.tracks[k.value] == Updated(t.tracks[k.value], TrackAttempt(t.tracks[k.value]))
  {
    AfterSuccess(t, c);
    hide Backfilled;
    var u := Backfilled(t, c).1;
    var k := SelectTrack(t.tracks, c).value;
    TrackAfterRun(t.tracks[k]);
    hide Updated, SelectTrack;
    CapturedTokens();
    SameTrackAgain(t.tracks, k, u.tracks[k], c, d);
  }
}
