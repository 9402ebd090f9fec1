/** Correcting Technology Purchase records that claim success without an active subscription. */
module TrackCorrection {
  import opened Options
  import opened Text
  import opened TrackRecords
  import opened TechnologyTables

  // ----- the two lookup dictionaries -----

  /** The last subscription whose payment id is `key`. */
  function LastByPayment(subs: seq<Subscription>, key: string): Option<Subscription> {
    if subs == [] then None
    else
      var s := subs[|subs| - 1];
      if Truthy(s.paymentId) && s.paymentId.value == key then Some(s) else LastByPayment(subs[..|subs| - 1], key)
  }

  function LastByOrder(subs: seq<Subscription>, key: string): Option<Subscription> {
    if subs == [] then None
    else
      var s := subs[|subs| - 1];
      if Truthy(s.orderId) && s.orderId.value == key then Some(s) else LastByOrder(subs[..|subs| - 1], key)
  }

  function Get(m: map<string, Subscription>, key: string): Option<Subscription> {
    if key in m then Some(m[key]) else None
  }

  method BuildIndexes(subs: seq<Subscription>) returns (byPayment: map<string, Subscription>, byOrder: map<string, Subscription>)
    ensures forall k :: Get(byPayment, k) == LastByPayment(subs, k)
    ensures forall k :: Get(byOrder, k) == LastByOrder(subs, k)
  {
    byPayment, byOrder := map[], map[];
    var i := 0;
    while i < |subs|
      invariant 0 <= i <= |subs|
      invariant forall k :: Get(byPayment, k) == LastByPayment(subs[..i], k)
      invariant forall k :: Get(byOrder, k) == LastByOrder(subs[..i], k)
    {
      assert subs[..i + 1][..i] == subs[..i];
      var s := subs[i];
      if Truthy(s.paymentId) {
        byPayment := byPayment[s.paymentId.value := s];
      }
      if Truthy(s.orderId) {
        byOrder := byOrder[s.orderId.value := s];
      }
      i := i + 1;
    }
    assert subs[..i] == subs;
  }

  /** The authoritative subscription of a record: by payment id, else by order id. */
  function SubscriptionOf(r: TrackRecord, subs: seq<Subscription>): Option<Subscription> {
    var byPayment := if Truthy(r.paymentId) then LastByPayment(subs, r.paymentId.value) else None;
    if byPayment.None? && Truthy(r.orderId) then LastByOrder(subs, r.orderId.value) else byPayment
  }

  // ----- classification -----

  predicate Claims(r: TrackRecord) {
    r.category == TECHNOLOGY_PURCHASE && r.fulfillment == "PROVISIONED" && r.overall == "Success"
  }

  predicate Backed(sub: Option<Subscription>) {
    sub.Some? && sub.value.status == "ACTIVE" && Truthy(sub.value.providerSubscriptionId)
  }

  /** The record says provisioned and successful, its subscription does not. */
  predicate Violates(r: TrackRecord, subs: seq<Subscription>) {
    Claims(r) && !Backed(SubscriptionOf(r, subs))
  }

  datatype Correction = Correction(fulfillment: string, overall: string, code: Option<string>, message: string)

  function CorrectionFor(sub: Option<Subscription>): Correction {
    if sub.Some? && (sub.value.status == "PENDING" || sub.value.status == "PAYMENT_CAPTURED" || sub.value.status == "PROVISIONING")
    then Correction("IN_PROGRESS", "Pending", None, "Corrected: subscription is not ACTIVE.")
    else if sub.Some? && sub.value.status == "PROVISIONING_FAILED"
    then Correction("FAILED", "Failed", Some("PROVISIONING_ERROR"), "Corrected: provider provisioning failed.")
    else Correction("IN_PROGRESS", "Pending", None, "Corrected: no authoritative ACTIVE subscription with provider id.")
  }

  function Attempt(r: TrackRecord, c: Correction): PaidAttempt {
    PaidAttempt(r.category, r.subcategory, r.itemName, None, None, r.amount, r.paymentStatus, r.orderId, r.paymentId,
                c.fulfillment, c.overall, c.code, Some(c.message), Some("BACKEND_RECONCILIATION"), true)
  }

  /** A row after the update the script means to make. */
  function Corrected(r: TrackRecord, subs: seq<Subscription>): TrackRecord {
    if Violates(r, subs) then Updated(r, Attempt(r, CorrectionFor(SubscriptionOf(r, subs)))) else r
  }

  /** An audit entry; `status` is its `subscription_status`. */
  datatype Audit = Audit(before: TrackRecord, status: string, after: Correction)

  function AuditOf(rows: seq<TrackRecord>, subs: seq<Subscription>): seq<Audit> {
    if rows == [] then []
    else
      AuditOf(rows[..|rows| - 1], subs) + EntryFor(rows[|rows| - 1], subs)
  }

  /** The subscriptions the script reads: not deleted, and of one user when `--user-id` is given. */
  function Fetched(subs: seq<Subscription>, user: Option<string>): seq<Subscription> {
    if subs == [] then []
    else
      var s := subs[|subs| - 1];
      Fetched(subs[..|subs| - 1], user)
      + (if !s.deleted && (Truthy(user) ==> s.userId == user.value) then [s] else [])
  }

  /** The rows after those updates. */
  function RowsAfter(rows: seq<TrackRecord>, subs: seq<Subscription>, apply: bool): (out: seq<TrackRecord>)
    ensures |out| == |rows|
  {
    if rows == [] then []
    else
      var r := rows[|rows| - 1];
      RowsAfter(rows[..|rows| - 1], subs, apply) + [if apply then Corrected(r, subs) else r]
  }

  lemma {:induction false} RowsAfterAt(rows: seq<TrackRecord>, subs: seq<Subscription>, apply: bool, i: nat)
    requires i < |rows|
    ensures RowsAfter(rows, subs, apply)[i] == if apply then Corrected(rows[i], subs) else rows[i]
  {
    if i < |rows| - 1 {
      RowsAfterAt(rows[..|rows| - 1], subs, apply, i);
    }
  }

  function EntryOf(r: TrackRecord, sub: Option<Subscription>): Audit {
    Audit(r, if sub.Some? then sub.value.status else "MISSING", CorrectionFor(sub))
  }

  function EntryFor(r: TrackRecord, subs: seq<Subscription>): seq<Audit> {
    if Violates(r, subs) then [EntryOf(r, SubscriptionOf(r, subs))] else []
  }

  /** Where the violating rows before row `n` are. */
  ghost function ViolationsBefore(rows: seq<TrackRecord>, subs: seq<Subscription>, n: nat): set<int> {
    set k | 0 <= k < n && k < |rows| && Violates(rows[k], subs)
  }

  /** Behind the entries of the violating rows before it stands the entry of row `i`, with the status of its subscription. */
  ghost predicate Audited(audit: seq<Audit>, rows: seq<TrackRecord>, subs: seq<Subscription>, i: nat)
    requires i < |rows|
  {
    var p, sub := |ViolationsBefore(rows, subs, i)|, SubscriptionOf(rows[i], subs);
    p < |audit| && audit[p] == Audit(rows[i], if sub.Some? then sub.value.status else "MISSING", CorrectionFor(sub))
  }

  /** The audit lists the violating rows, each once and in order. */
  lemma {:induction false} AuditListsViolations(rows: seq<TrackRecord>, subs: seq<Subscription>)
    ensures |AuditOf(rows, subs)| == |ViolationsBefore(rows, subs, |rows|)|
    ensures forall i: nat :: i < |rows| && Violates(rows[i], subs) ==> Audited(AuditOf(rows, subs), rows, subs, i)
  {
    hide Violates, ViolationsBefore, Audited, SubscriptionOf, CorrectionFor;
    if rows == [] {
      NoneBefore(rows, subs);
    } else {
      var n := |rows| - 1;
      AuditListsViolations(rows[..n], subs);
      CountOneMore(rows, subs);
      var front, last := AuditOf(rows[..n], subs), EntryFor(rows[n], subs);
      assert AuditOf(rows, subs) == front + last;
      hide AuditOf, EntryFor;
      forall i: nat | i < n && Violates(rows[i], subs)
        ensures Audited(front + last, rows, subs, i)
      {
        assert rows[..n][i] == rows[i];
        StaysAudited(front, last, rows, subs, i);
      }
      if Violates(rows[n], subs) {
        LastAudited(front, rows, subs);
      }
    }
  }

  lemma NoneBefore(rows: seq<TrackRecord>, subs: seq<Subscription>)
    ensures ViolationsBefore(rows, subs, 0) == {}
  {
  }

  lemma CountOneMore(rows: seq<TrackRecord>, subs: seq<Subscription>)
    requires rows != []
    ensures var n := |rows| - 1;
      |ViolationsBefore(rows, subs, n + 1)| == |ViolationsBefore(rows[..n], subs, n)| + |EntryFor(rows[n], subs)|
  {
    hide Violates;
    var n := |rows| - 1;
    SameBefore(rows, subs, n);
    var all, some := ViolationsBefore(rows, subs, n + 1), ViolationsBefore(rows, subs, n);
    assert n !in some;
    if Violates(rows[n], subs) {
      assert all == some + {n};
    } else {
      assert all == some;
    }
  }

  lemma SameBefore(rows: seq<TrackRecord>, subs: seq<Subscription>, i: nat)
    requires i < |rows|
    ensures ViolationsBefore(rows, subs, i) == ViolationsBefore(rows[..|rows| - 1], subs, i)
  {
    hide Violates;
  }

  lemma StaysAudited(front: seq<Audit>, last: seq<Audit>, rows: seq<TrackRecord>, subs: seq<Subscription>, i: nat)
    requires i < |rows| - 1 && Audited(front, rows[..|rows| - 1], subs, i)
    ensures Audited(front + last, rows, subs, i)
  {
    hide ViolationsBefore, SubscriptionOf, CorrectionFor;
    SameBefore(rows, subs, i);
  }

  lemma LastAudited(front: seq<Audit>, rows: seq<TrackRecord>, subs: seq<Subscription>)
    requires rows != [] && Violates(rows[|rows| - 1], subs)
    requires |front| == |ViolationsBefore(rows[..|rows| - 1], subs, |rows| - 1)|
    ensures Audited(front + EntryFor(rows[|rows| - 1], subs), rows, subs, |rows| - 1)
  {
    hide ViolationsBefore, SubscriptionOf, CorrectionFor, Violates;
    SameBefore(rows, subs, |rows| - 1);
  }

  // ----- what a violation is, over the tables -----

  /** `i` is the last subscription that carries the payment id. */
  ghost predicate LastWithPayment(subs: seq<Subscription>, key: string, i: nat) {
    i < |subs| && key != "" && subs[i].paymentId == Some(key) && forall j :: i < j < |subs| ==> subs[j].paymentId != Some(key)
  }

  ghost predicate LastWithOrder(subs: seq<Subscription>, key: string, i: nat) {
    i < |subs| && key != "" && subs[i].orderId == Some(key) && forall j :: i < j < |subs| ==> subs[j].orderId != Some(key)
  }

  lemma {:induction false} LastByPaymentExactly(subs: seq<Subscription>, key: string)
    requires key != ""
    ensures forall i: nat :: LastWithPayment(subs, key, i) ==> LastByPayment(subs, key) == Some(subs[i])
    ensures LastByPayment(subs, key).None? ==> forall i: nat :: i < |subs| ==> subs[i].paymentId != Some(key)
    ensures LastByPayment(subs, key).Some? ==> exists i: nat :: LastWithPayment(subs, key, i)
  {
    if subs != [] {
      var n := |subs| - 1;
      LastByPaymentExactly(subs[..n], key);
      if subs[n].paymentId == Some(key) {
        assert LastWithPayment(subs, key, n);
      } else {
        forall i: nat
          ensures LastWithPayment(subs, key, i) <==> LastWithPayment(subs[..n], key, i)
        {
        }
      }
    }
  }

  lemma {:induction false} LastByOrderExactly(subs: seq<Subscription>, key: string)
    requires key != ""
    ensures forall i: nat :: LastWithOrder(subs, key, i) ==> LastByOrder(subs, key) == Some(subs[i])
    ensures LastByOrder(subs, key).None? ==> forall i: nat :: i < |subs| ==> subs[i].orderId != Some(key)
    ensures LastByOrder(subs, key).Some? ==> exists i: nat :: LastWithOrder(subs, key, i)
  {
    if subs != [] {
      var n := |subs| - 1;
      LastByOrderExactly(subs[..n], key);
      if subs[n].orderId == Some(key) {
        assert LastWithOrder(subs, key, n);
      } else {
        forall i: nat
          ensures LastWithOrder(subs, key, i) <==> LastWithOrder(subs[..n], key, i)
        {
        }
      }
    }
  }

  /** Subscription `i` decides about the record: the last with its payment id or, where none has that, with its order id. */
  ghost predicate Decides(subs: seq<Subscription>, r: TrackRecord, i: nat) {
    || (r.paymentId.Some? && LastWithPayment(subs, r.paymentId.value, i))
    || (r.orderId.Some? && LastWithOrder(subs, r.orderId.value, i)
        && (r.paymentId.Some? && r.paymentId.value != "" ==> forall j :: 0 <= j < |subs| ==> subs[j].paymentId != r.paymentId))
  }

  /**
   * A violation, over the tables: a technology purchase recorded as provisioned and successful while the
   * subscription that decides is missing, or not active, or has no provider id.
   */
  lemma ViolatesExactly(r: TrackRecord, subs: seq<Subscription>)
    ensures Violates(r, subs) <==>
      && r.category == "Technology Purchase" && r.fulfillment == "PROVISIONED" && r.overall == "Success"
      && forall i: nat :: Decides(subs, r, i) ==>
           subs[i].status != "ACTIVE" || subs[i].providerSubscriptionId == None || subs[i].providerSubscriptionId == Some("")
  {
    hide SubscriptionOf;
    DeciderExactly(r, subs);
  }

  lemma DeciderExactly(r: TrackRecord, subs: seq<Subscription>)
    ensures forall i: nat :: Decides(subs, r, i) ==> SubscriptionOf(r, subs) == Some(subs[i])
    ensures SubscriptionOf(r, subs).Some? ==> exists i: nat :: Decides(subs, r, i)
  {
    hide LastByPayment, LastByOrder;
    if Truthy(r.paymentId) {
      LastByPaymentExactly(subs, r.paymentId.value);
      if LastByPayment(subs, r.paymentId.value).Some? {
        var i: nat :| LastWithPayment(subs, r.paymentId.value, i);
        assert Decides(subs, r, i);
      }
    }
    if Truthy(r.orderId) {
      LastByOrderExactly(subs, r.orderId.value);
      if LastByOrder(subs, r.orderId.value).Some? {
        var i: nat :| LastWithOrder(subs, r.orderId.value, i);
        assert SubscriptionOf(r, subs) == LastByOrder(subs, r.orderId.value) ==> Decides(subs, r, i);
      }
    }
  }

  /** The script reads the subscriptions that are not deleted, of the one user if one is named. */
  lemma {:induction false} FetchedExactly(subs: seq<Subscription>, user: Option<string>, s: Subscription)
    ensures s in Fetched(subs, user) <==>
      s in subs && !s.deleted && (user == None || user == Some("") || Some(s.userId) == user)
  {
    if subs != [] {
      FetchedExactly(subs[..|subs| - 1], user, s);
      assert s in subs <==> s in subs[..|subs| - 1] || s == subs[|subs| - 1];
    }
  }

  // ----- the log line of an entry -----

  /** The `after` dictionary. */
  function AfterDict(c: Correction): map<string, Option<string>> {
    map["fulfillment_status" := Some(c.fulfillment), "overall_status" := Some(c.overall),
        "error_code" := c.code, "error_message" := Some(c.message)]
  }

  /**
   * Whether logging an entry gets through: every entry has a `subscription_status`, so the line looks the
   * same key up in the entry's `after` dictionary. A missing key is a KeyError.
   */
  predicate LogsAsWritten(e: Audit) { "subscription_status" in AfterDict(e.after) }

  /** The line reading the entry's own status instead. */
  predicate LogsRepaired(e: Audit) { true }

  /** Some violating row cannot be logged. */
  predicate Stops(rows: seq<TrackRecord>, subs: seq<Subscription>, logs: Audit -> bool) {
    exists i :: 0 <= i < |rows| && StopsAt(rows[i], subs, logs)
  }

  predicate StopsAt(r: TrackRecord, subs: seq<Subscription>, logs: Audit -> bool) {
    Violates(r, subs) && !logs(EntryOf(r, SubscriptionOf(r, subs)))
  }

  datatype Outcome = Finished(violations: nat, audit: seq<Audit>) | Raised

  /** One turn of the loop, for the row at `i`; None when it raises. */
  method CorrectRow(table: TrackTable, r: TrackRecord, ghost i: nat, byPayment: map<string, Subscription>,
                    byOrder: map<string, Subscription>, apply: bool, logs: Audit -> bool, ghost subs: seq<Subscription>)
    returns (entry: Option<seq<Audit>>)
    requires table.Valid() && i < |table.rows| && table.rows[i] == r
    requires forall k :: Get(byPayment, k) == LastByPayment(subs, k)
    requires forall k :: Get(byOrder, k) == LastByOrder(subs, k)
    modifies table
    ensures table.Valid()
    ensures entry == if StopsAt(r, subs, logs) then None else Some(EntryFor(r, subs))
    ensures entry.Some? ==> table.rows == old(table.rows)[i := if apply then Corrected(r, subs) else r]
  {
    hide Updated, CorrectionFor;
    if !(r.category == TECHNOLOGY_PURCHASE && r.fulfillment == "PROVISIONED" && r.overall == "Success") {
      return Some([]);
    }
    var sub := None;
    if Truthy(r.paymentId) {
      sub := Get(byPayment, r.paymentId.value);
    }
    if sub.None? && Truthy(r.orderId) {
      sub := Get(byOrder, r.orderId.value);
    }
    assert sub == SubscriptionOf(r, subs);
    if sub.Some? && sub.value.status == "ACTIVE" && Truthy(sub.value.providerSubscriptionId) {
      return Some([]);
    }
    var e := EntryOf(r, sub);
    if !logs(e) {
      return None;
    }
    if apply {
      table.RecordPaidAttempt(r.internalOrderId, Attempt(r, e.after), i);
    }
    return Some([e]);
  }

  /**
   * The loop over a given log line. If some violating row cannot be logged, the session closes without a
   * commit and nothing is stored. Otherwise every violating row is updated in place when `apply` is given,
   * every other row is unchanged, and the audit lists the violations in order.
   */
  method Correct(table: TrackTable, allSubs: seq<Subscription>, apply: bool, user: Option<string>, logs: Audit -> bool)
    returns (o: Outcome)
    requires table.Valid()
    modifies table
    ensures table.Valid()
    ensures o == if Stops(old(table.rows), Fetched(allSubs, user), logs) then Raised
                 else var audit := AuditOf(old(table.rows), Fetched(allSubs, user)); Finished(|audit|, audit)
    ensures table.rows == if o.Raised? then old(table.rows) else RowsAfter(old(table.rows), Fetched(allSubs, user), apply)
  {
    hide Progress, RowsAfter, AuditOf, Fetched, Stops, Updated;
    var committed := table.rows;
    var subs := Fetched(allSubs, user);
    var byPayment, byOrder := BuildIndexes(subs);
    var audit := CorrectRows(table, byPayment, byOrder, apply, logs, subs);
    ProgressEnds(committed, subs, apply);
    if audit.None? {
      table.rows := committed;
      return Raised;
    }
    return Finished(|audit.value|, audit.value);
  }

  /** The rows one after the other; None when one of them raises. */
  method CorrectRows(table: TrackTable, byPayment: map<string, Subscription>, byOrder: map<string, Subscription>,
                     apply: bool, logs: Audit -> bool, ghost subs: seq<Subscription>)
    returns (all: Option<seq<Audit>>)
    requires table.Valid()
    requires forall k :: Get(byPayment, k) == LastByPayment(subs, k)
    requires forall k :: Get(byOrder, k) == LastByOrder(subs, k)
    modifies table
    ensures table.Valid()
    ensures all.None? <==> Stops(old(table.rows), subs, logs)
    ensures all.Some? ==> Progress(old(table.rows), table.rows, all.value, subs, apply, |old(table.rows)|)
  {
    hide Progress, RowsAfter, AuditOf, StopsAt, EntryFor, Corrected, LastByPayment, LastByOrder, Get, UniqueIds, Updated;
    ghost var before := table.rows;
    var audit, i := [], 0;
    ProgressEnds(before, subs, apply);
    while i < |table.rows|
      invariant 0 <= i <= |before| == |table.rows| && table.Valid()
      invariant Progress(before, table.rows, audit, subs, apply, i)
      invariant forall k :: 0 <= k < i ==> !StopsAt(before[k], subs, logs)
    {
      ghost var rows := table.rows;
      ProgressAt(before, rows, audit, subs, apply, i);
      var entry := CorrectRow(table, table.rows[i], i, byPayment, byOrder, apply, logs, subs);
      if entry.None? {
        assert StopsAt(before[i], subs, logs);
        return None;
      }
      ProgressStep(before, rows, table.rows, audit, entry.value, subs, apply, i);
      audit := audit + entry.value;
      i := i + 1;
    }
    return Some(audit);
  }

  /** The log line raises for every entry, so a run stops at its first violation. */
  lemma FirstViolationStops(rows: seq<TrackRecord>, subs: seq<Subscription>)
    ensures Stops(rows, subs, LogsAsWritten) <==> exists i :: 0 <= i < |rows| && Violates(rows[i], subs)
  {
    hide Violates, EntryOf;
    forall i | 0 <= i < |rows|
      ensures StopsAt(rows[i], subs, LogsAsWritten) <==> Violates(rows[i], subs)
    {
      NoStatusInAfter(EntryOf(rows[i], SubscriptionOf(rows[i], subs)).after);
    }
  }

  lemma NoStatusInAfter(c: Correction)
    ensures "subscription_status" !in AfterDict(c)
  {
    assert |"subscription_status"| == 19 && |"fulfillment_status"| == 18;
  }

  lemma {:induction false} NothingToDo(rows: seq<TrackRecord>, subs: seq<Subscription>, apply: bool)
    requires forall i :: 0 <= i < |rows| ==> !Violates(rows[i], subs)
    ensures RowsAfter(rows, subs, apply) == rows && AuditOf(rows, subs) == []
  {
    hide Violates, CorrectionFor, Attempt, Updated, EntryOf, SubscriptionOf;
    if rows != [] {
      NothingToDo(rows[..|rows| - 1], subs, apply);
    }
  }

  /**
   * The script. It raises exactly when there is a violation, `apply` or not, and never changes a record; so
   * no fetched record violates after a run exactly when none did before it.
   */
  method Run(table: TrackTable, allSubs: seq<Subscription>, apply: bool, user: Option<string>) returns (o: Outcome)
    requires table.Valid()
    modifies table
    ensures table.Valid() && table.rows == old(table.rows)
    ensures o.Raised? <==> exists i :: 0 <= i < |table.rows| && Violates(table.rows[i], Fetched(allSubs, user))
    ensures o.Finished? ==> o == Finished(0, [])
  {
    hide Fetched, Violates, Stops;
    ghost var before := table.rows;
    o := Correct(table, allSubs, apply, user, LogsAsWritten);
    FirstViolationStops(before, Fetched(allSubs, user));
    if o.Finished? {
      NothingToDo(before, Fetched(allSubs, user), apply);
    }
  }

  lemma ProgressEnds(before: seq<TrackRecord>, subs: seq<Subscription>, apply: bool)
    ensures Progress(before, before, [], subs, apply, 0)
    ensures forall rows, audit :: Progress(before, rows, audit, subs, apply, |before|) ==>
              rows == RowsAfter(before, subs, apply) && audit == AuditOf(before, subs)
  {
    assert before[..0] == [] && [] + before[0..] == before;
    assert before[..|before|] == before && before[|before|..] == [];
  }

  /** The first `i` rows are done, the rest are as they were. */
  ghost predicate Progress(before: seq<TrackRecord>, rows: seq<TrackRecord>, audit: seq<Audit>,
                           subs: seq<Subscription>, apply: bool, i: nat)
  {
    && i <= |before|
    && rows == RowsAfter(before[..i], subs, apply) + before[i..]
    && audit == AuditOf(before[..i], subs)
  }

  lemma ProgressAt(before: seq<TrackRecord>, rows: seq<TrackRecord>, audit: seq<Audit>,
                   subs: seq<Subscription>, apply: bool, i: nat)
    requires Progress(before, rows, audit, subs, apply, i) && i < |before|
    ensures |rows| == |before| && rows[i] == before[i]
  {
  }

  lemma ProgressStep(before: seq<TrackRecord>, rows: seq<TrackRecord>, rows': seq<TrackRecord>, audit: seq<Audit>,
                     entry: seq<Audit>, subs: seq<Subscription>, apply: bool, i: nat)
    requires Progress(before, rows, audit, subs, apply, i) && i < |before|
    requires entry == EntryFor(before[i], subs)
    requires rows' == rows[i := if apply then Corrected(before[i], subs) else before[i]]
    ensures Progress(before, rows', audit + entry, subs, apply, i + 1)
  {
    hide Corrected, EntryFor;
    assert before[..i + 1][..i] == before[..i];
    RewriteNext(RowsAfter(before[..i], subs, apply), before[i..], if apply then Corrected(before[i], subs) else before[i]);
    assert before[i..][1..] == before[i + 1..];
  }

  // ----- what an apply would achieve with the log line repaired -----

  /** The payment fields alone already decide the derived status, or leave it at success. */
  predicate ReadsPaid(r: TrackRecord) {
    !Refunded(r) && !Contains(Upper(r.paymentStatus), "FAIL") && Paid(Upper(r.paymentStatus))
  }

  predicate Refunded(r: TrackRecord) {
    Truthy(r.refundId) || Contains(Upper(r.paymentStatus), "REFUND")
  }

  /** The overall status of a provisioned row as its payment fields tell it. */
  function PaymentAlone(r: TrackRecord): string {
    if Refunded(r) then "Refunded"
    else if Contains(Upper(r.paymentStatus), "FAIL") then "Failed"
    else if Paid(Upper(r.paymentStatus)) then "Success" else "Pending"
  }

  predicate Failed(sub: Option<Subscription>) { sub.Some? && sub.value.status == "PROVISIONING_FAILED" }

  /**
   * The update of one row, computed: an intermediate status never displaces a confirmed success, so
   * the row keeps PROVISIONED and its overall status is derived from the payment alone; only a failed
   * provisioning goes through.
   */
  lemma CorrectedStatus(r: TrackRecord, subs: seq<Subscription>)
    requires Violates(r, subs)
    ensures var c := Corrected(r, subs);
            c.category == r.category && c.paymentId == r.paymentId && c.orderId == r.orderId
            && c.paymentStatus == r.paymentStatus && c.refundId == r.refundId &&
            if Failed(SubscriptionOf(r, subs))
            then c.fulfillment == "FAILED" && c.overall == if Refunded(r) then "Refunded" else "Failed"
            else c.fulfillment == "PROVISIONED" && c.overall == PaymentAlone(r)
  {
    var a := Attempt(r, CorrectionFor(SubscriptionOf(r, subs)));
    KeysAreKept(r, a);
    if Failed(SubscriptionOf(r, subs)) {
      FailureGoesThrough(r, a);
    } else {
      IntermediateIsKept(r, CorrectionFor(SubscriptionOf(r, subs)));
    }
  }

  lemma KeysAreKept(r: TrackRecord, a: PaidAttempt)
    requires a.category == r.category && a.paymentId == r.paymentId && a.orderId == r.orderId && a.paymentStatus == r.paymentStatus
    ensures var c := Updated(r, a);
            c.category == r.category && c.paymentId == r.paymentId && c.orderId == r.orderId
            && c.paymentStatus == r.paymentStatus && c.refundId == r.refundId
  {
  }

  /** Only the diagnostics and the derived status change. */
  lemma IntermediateIsKept(r: TrackRecord, c: Correction)
    requires r.fulfillment == "PROVISIONED" && r.overall == "Success"
    requires c.fulfillment == "IN_PROGRESS" && c.overall == "Pending" && c.code == None
    ensures Updated(r, Attempt(r, c)) ==
      r.(errorCode := None, errorMessage := Some(c.message), errorSource := Some("BACKEND_RECONCILIATION"),
         overall := PaymentAlone(r))
  {
    StatusWords();
    ProvisionedTokens();
    PendingTokens();
    InProgressTokens();
  }

  lemma FailureGoesThrough(r: TrackRecord, a: PaidAttempt)
    requires r.fulfillment == "PROVISIONED" && r.overall == "Success" && a.paymentStatus == r.paymentStatus
    requires a.fulfillment == "FAILED" && a.overall == "Failed" && Truthy(a.errorCode) && a.clearErrors
    ensures Updated(r, a).fulfillment == "FAILED"
    ensures Updated(r, a).overall == if Refunded(r) then "Refunded" else "Failed"
  {
    StatusWords();
    FailedTokens();
  }

  /**
   * What the update writes beside the two statuses: source, code and message of the correction, the message
   * by the state of the subscription; every other field stays.
   */
  lemma CorrectedDiagnostics(r: TrackRecord, subs: seq<Subscription>)
    requires Violates(r, subs)
    ensures var c, sub := Corrected(r, subs), SubscriptionOf(r, subs);
      && c.errorSource == Some("BACKEND_RECONCILIATION")
      && c.errorCode == (if sub.Some? && sub.value.status == "PROVISIONING_FAILED" then Some("PROVISIONING_ERROR") else None)
      && c.errorMessage == Some(
           if sub.Some? && sub.value.status == "PROVISIONING_FAILED" then "Corrected: provider provisioning failed."
           else if sub.Some? && sub.value.status in {"PENDING", "PAYMENT_CAPTURED", "PROVISIONING"}
           then "Corrected: subscription is not ACTIVE."
           else "Corrected: no authoritative ACTIVE subscription with provider id.")
      && r == c.(fulfillment := r.fulfillment, overall := r.overall,
                 errorCode := r.errorCode, errorMessage := r.errorMessage, errorSource := r.errorSource)
  {
    hide Contains, Upper, KeepsSuccess, DerivedOverall, Generic, SubscriptionOf, Violates, CorrectionFor;
    CorrectionTexts(SubscriptionOf(r, subs));
    var a := Attempt(r, CorrectionFor(SubscriptionOf(r, subs)));
    UpdatedErrors(r, a);
    UpdatedFields(r, a);
    hide Updated;
    var c := Corrected(r, subs);
    assert c.amount == r.amount && c.itemName == r.itemName;
  }

  /** The texts of a correction; neither fulfillment status it gives reads as provisioned. */
  lemma CorrectionTexts(sub: Option<Subscription>)
    ensures var c := CorrectionFor(sub);
      && !Contains(Upper(c.fulfillment), "PROVISIONED")
      && c.code == (if sub.Some? && sub.value.status == "PROVISIONING_FAILED" then Some("PROVISIONING_ERROR") else None)
      && c.message == (
           if sub.Some? && sub.value.status == "PROVISIONING_FAILED" then "Corrected: provider provisioning failed."
           else if sub.Some? && sub.value.status in {"PENDING", "PAYMENT_CAPTURED", "PROVISIONING"}
           then "Corrected: subscription is not ACTIVE."
           else "Corrected: no authoritative ACTIVE subscription with provider id.")
  {
    hide Contains, Upper;
    FulfillmentWord(InProgress);
    FulfillmentWord(NotFulfilled);
  }

  /**
   * Whether the update takes hold, exactly: the row stops claiming success if and only if its
   * subscription failed to provision, or its payment fields do not read as plainly paid. A paid row whose
   * subscription is pending, cancelled or missing is left claiming success.
   */
  lemma CorrectionTakesHold(r: TrackRecord, subs: seq<Subscription>)
    requires Violates(r, subs)
    ensures !Claims(Corrected(r, subs)) <==> Failed(SubscriptionOf(r, subs)) || !ReadsPaid(r)
    ensures Claims(Corrected(r, subs)) ==> Violates(Corrected(r, subs), subs)
  {
    CorrectedStatus(r, subs);
    hide Corrected, CorrectionFor;
    assert SubscriptionOf(Corrected(r, subs), subs) == SubscriptionOf(r, subs);
  }

  /** A pending subscription and a captured payment: the update leaves the row a violation. */
  lemma PendingIsNotCorrected() returns (r: TrackRecord, subs: seq<Subscription>)
    ensures Violates(r, subs) && Violates(Corrected(r, subs), subs)
  {
    r := TrackRecord("TRK-1", TECHNOLOGY_PURCHASE, None, "VPN", None, None, 49900, "INR", None,
                     "CAPTURED", None, Some("pay_1"), None, "PROVISIONED", "Success", None, None, None);
    subs := [Subscription("s", "u", "vpn", "VPN", "monthly", 49900, "INR", "PENDING", "CAPTURED", None, None, 1, None, None,
                          None, None, None, Some("pay_1"), None, None, true, false)];
    assert SubscriptionOf(r, subs) == Some(subs[0]);
    assert "PENDING" != "ACTIVE" && "PENDING" != "PROVISIONING_FAILED";
    CapturedTokens();
    CorrectionTakesHold(r, subs);
  }

  /** A second update changes nothing: a row reaches its fixpoint after one, corrected or not. */
  lemma CorrectingTwiceIsOnce(r: TrackRecord, subs: seq<Subscription>)
    ensures Corrected(Corrected(r, subs), subs) == Corrected(r, subs)
  {
    if Violates(r, subs) {
      CorrectionTakesHold(r, subs);
      var fix, c := CorrectionFor(SubscriptionOf(r, subs)), Corrected(r, subs);
      if Claims(c) {
        IntermediateIsKept(r, fix);
        hide Updated, CorrectionFor;
        assert SubscriptionOf(c, subs) == SubscriptionOf(r, subs);
        IntermediateIsKept(c, fix);
      }
    }
  }

  /** A row violates after the update exactly when the update did not take hold of it. */
  lemma SecondRunFinds(r: TrackRecord, subs: seq<Subscription>)
    ensures Violates(Corrected(r, subs), subs) <==> Violates(r, subs) && !Failed(SubscriptionOf(r, subs)) && ReadsPaid(r)
  {
    if Violates(r, subs) {
      CorrectionTakesHold(r, subs);
    }
  }

  /**
   * Over the whole table: after an apply whose log line is repaired no fetched row violates, exactly when
   * every violation was a failed provisioning or a row that does not read as plainly paid.
   */
  lemma RepairedApplySettles(rows: seq<TrackRecord>, subs: seq<Subscription>)
    ensures !Stops(rows, subs, LogsRepaired)
    ensures (forall i :: 0 <= i < |rows| ==> !Violates(RowsAfter(rows, subs, true)[i], subs)) <==>
            (forall i :: 0 <= i < |rows| && Violates(rows[i], subs) ==> Failed(SubscriptionOf(rows[i], subs)) || !ReadsPaid(rows[i]))
  {
    hide Corrected, Violates, SubscriptionOf, ReadsPaid, RowsAfter;
    forall i | 0 <= i < |rows|
      ensures Violates(RowsAfter(rows, subs, true)[i], subs)
              <==> Violates(rows[i], subs) && !Failed(SubscriptionOf(rows[i], subs)) && ReadsPaid(rows[i])
    {
      RowsAfterAt(rows, subs, true, i);
      SecondRunFinds(rows[i], subs);
    }
  }

  /** A failed provisioning: the update would correct the row, and the script raises before reaching it. */
  lemma FailureIsNotReached() returns (r: TrackRecord, subs: seq<Subscription>)
    ensures Violates(r, subs) && !Violates(Corrected(r, subs), subs)
    ensures Stops([r], subs, LogsAsWritten)
  {
    r := TrackRecord("TRK-2", TECHNOLOGY_PURCHASE, None, "VPN", None, None, 49900, "INR", None,
                     "CAPTURED", None, Some("pay_2"), None, "PROVISIONED", "Success", None, None, None);
    subs := [Subscription("s", "u", "vpn", "VPN", "monthly", 49900, "INR", "PROVISIONING_FAILED", "CAPTURED", None, None, 1,
                          None, None, None, None, None, Some("pay_2"), None, None, true, false)];
    assert SubscriptionOf(r, subs) == Some(subs[0]);
    assert |"PROVISIONING_FAILED"| != |"ACTIVE"|;
    SecondRunFinds(r, subs);
    hide Violates, Corrected;
    assert [r][0] == r && Violates([r][0], subs);
    FirstViolationStops([r], subs);
  }

  /** The entry's `after` is what the update stores exactly for failed provisionings without a refund. */
  lemma AuditIsTruthful(r: TrackRecord, subs: seq<Subscription>)
    requires Violates(r, subs)
    ensures var after := CorrectionFor(SubscriptionOf(r, subs));
            (Corrected(r, subs).fulfillment == after.fulfillment && Corrected(r, subs).overall == after.overall)
            <==> Failed(SubscriptionOf(r, subs)) && !Refunded(r)
  {
    CorrectedStatus(r, subs);
    assert "FAILED" != "IN_PROGRESS" && "PROVISIONED" != "IN_PROGRESS" && "Refunded" != "Failed";
    var sub := SubscriptionOf(r, subs);
    if Failed(sub) {
      assert sub.value.status[0..4] == "PROV" && |sub.value.status| == 19;
    }
  }

  /** A consistent row is never touched. */
  lemma ConsistentUnchanged(r: TrackRecord, subs: seq<Subscription>)
    requires Claims(r) ==> Backed(SubscriptionOf(r, subs))
    ensures Corrected(r, subs) == r
  {
  }

  // ----- the `--user-id` option -----

  predicate Carries(s: Subscription, r: TrackRecord) {
    || (Truthy(r.paymentId) && Truthy(s.paymentId) && s.paymentId == r.paymentId)
    || (Truthy(r.orderId) && Truthy(s.orderId) && s.orderId == r.orderId)
  }

  /** The subscriptions behind one record all belong to `owner`: a payment is one user's. */
  ghost predicate OwnedBy(subs: seq<Subscription>, r: TrackRecord, owner: string) {
    forall i :: 0 <= i < |subs| && !subs[i].deleted && Carries(subs[i], r) ==> subs[i].userId == owner
  }

  lemma FetchedLast(subs: seq<Subscription>, user: Option<string>)
    requires subs != []
    ensures var s, front := subs[|subs| - 1], Fetched(subs[..|subs| - 1], user);
            Fetched(subs, user) == if !s.deleted && (Truthy(user) ==> s.userId == user.value) then front + [s] else front
  {
  }

  lemma PaymentLookupLast(subs: seq<Subscription>, s: Subscription, key: string)
    ensures LastByPayment(subs + [s], key)
            == if Truthy(s.paymentId) && s.paymentId.value == key then Some(s) else LastByPayment(subs, key)
  {
    assert (subs + [s])[..|subs|] == subs;
  }

  lemma OrderLookupLast(subs: seq<Subscription>, s: Subscription, key: string)
    ensures LastByOrder(subs + [s], key)
            == if Truthy(s.orderId) && s.orderId.value == key then Some(s) else LastByOrder(subs, key)
  {
    assert (subs + [s])[..|subs|] == subs;
  }

  lemma {:induction false} PaymentLookupUnderFilter(subs: seq<Subscription>, r: TrackRecord, owner: string, user: string)
    requires OwnedBy(subs, r, owner) && user != "" && Truthy(r.paymentId)
    ensures LastByPayment(Fetched(subs, Some(user)), r.paymentId.value)
            == if owner == user then LastByPayment(Fetched(subs, None), r.paymentId.value) else None
  {
    if subs != [] {
      var front, s := subs[..|subs| - 1], subs[|subs| - 1];
      PaymentLookupUnderFilter(front, r, owner, user);
      FetchedLast(subs, Some(user));
      FetchedLast(subs, None);
      PaymentLookupLast(Fetched(front, Some(user)), s, r.paymentId.value);
      PaymentLookupLast(Fetched(front, None), s, r.paymentId.value);
      assert !s.deleted && Carries(s, r) ==> s.userId == owner;
    }
  }

  lemma {:induction false} OrderLookupUnderFilter(subs: seq<Subscription>, r: TrackRecord, owner: string, user: string)
    requires OwnedBy(subs, r, owner) && user != "" && Truthy(r.orderId)
    ensures LastByOrder(Fetched(subs, Some(user)), r.orderId.value)
            == if owner == user then LastByOrder(Fetched(subs, None), r.orderId.value) else None
  {
    if subs != [] {
      var front, s := subs[..|subs| - 1], subs[|subs| - 1];
      OrderLookupUnderFilter(front, r, owner, user);
      FetchedLast(subs, Some(user));
      FetchedLast(subs, None);
      OrderLookupLast(Fetched(front, Some(user)), s, r.orderId.value);
      OrderLookupLast(Fetched(front, None), s, r.orderId.value);
      assert !s.deleted && Carries(s, r) ==> s.userId == owner;
    }
  }

  /**
   * The option narrows the subscriptions but not the records: a truthful record, one whose claim the full
   * table backs, is treated as a violation exactly when its subscription belongs to another user.
   */
  lemma FilterAccusesOtherUsers(r: TrackRecord, subs: seq<Subscription>, owner: string, user: string)
    requires OwnedBy(subs, r, owner) && user != ""
    requires Claims(r) && Backed(SubscriptionOf(r, Fetched(subs, None)))
    ensures Violates(r, Fetched(subs, Some(user))) <==> owner != user
  {
    if Truthy(r.paymentId) {
      PaymentLookupUnderFilter(subs, r, owner, user);
    }
    if Truthy(r.orderId) {
      OrderLookupUnderFilter(subs, r, owner, user);
    }
  }
}
