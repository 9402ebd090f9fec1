/** The duplicate scan of referral tracks, and the dedupe keys and unique indexes it clears the way for. */
module ReferralDedupe {
  import opened Options

  predicate IsHex(c: char) { '0' <= c <= '9' || 'a' <= c <= 'f' }

  predicate IsUuid(s: string) { |s| == 32 && forall i :: 0 <= i < 32 ==> IsHex(s[i]) }

  /** A UUID by its 32 hexadecimal digits. */
  type Uuid = s: string | IsUuid(s) witness seq(32, _ => '0')

  /** `listing_id::text`. */
  function UuidText(u: Uuid): (t: string)
    ensures |t| == 36
  {
    u[..8] + "-" + u[8..12] + "-" + u[12..16] + "-" + u[16..20] + "-" + u[20..]
  }

  datatype Track = Track(
    referrer: Uuid, listingId: Uuid, listingType: string, visitorIp: string, visitorId: Option<Uuid>,
    itemKey: Option<string>, visitorKey: Option<string>)

  // ----- the read-only scan -----

  predicate SameLoggedIn(a: Track, b: Track) {
    a.visitorId.Some? && a.visitorId == b.visitorId && a.referrer == b.referrer && a.listingId == b.listingId
  }

  predicate SameAnonymous(a: Track, b: Track) {
    a.visitorId.None? && b.visitorId.None? && a.visitorIp == b.visitorIp && a.referrer == b.referrer && a.listingId == b.listingId
  }

  /** `... WHERE visitor_id IS NOT NULL GROUP BY referrer_id, listing_id, visitor_id HAVING count(*) > 1`. */
  function LoggedInGroups(rows: seq<Track>): set<(Uuid, Uuid, Option<Uuid>)> {
    set i | 0 <= i < |rows| && rows[i].visitorId.Some? && exists j :: 0 <= j < |rows| && j != i && SameLoggedIn(rows[i], rows[j])
      :: (rows[i].referrer, rows[i].listingId, rows[i].visitorId)
  }

  /** `... WHERE visitor_id IS NULL GROUP BY referrer_id, listing_id, visitor_ip HAVING count(*) > 1`. */
  function AnonymousGroups(rows: seq<Track>): set<(Uuid, Uuid, string)> {
    set i | 0 <= i < |rows| && rows[i].visitorId.None? && exists j :: 0 <= j < |rows| && j != i && SameAnonymous(rows[i], rows[j])
      :: (rows[i].referrer, rows[i].listingId, rows[i].visitorIp)
  }

  /** The scan reports zero duplicate groups. */
  predicate ScanClean(rows: seq<Track>) {
    |LoggedInGroups(rows)| == 0 && |AnonymousGroups(rows)| == 0
  }

  // ----- the indexes -----

  /** `(referrer_id, item_key, visitor_id) WHERE visitor_id IS NOT NULL`; NULL keys never collide. */
  predicate CollideAsUser(a: Track, b: Track) {
    a.visitorId.Some? && b.visitorId.Some? && a.itemKey.Some?
    && a.referrer == b.referrer && a.itemKey == b.itemKey && a.visitorId == b.visitorId
  }

  /** `(referrer_id, item_key, visitor_key) WHERE visitor_id IS NULL`. */
  predicate CollideAsAnonymous(a: Track, b: Track) {
    a.visitorId.None? && b.visitorId.None? && a.itemKey.Some? && a.visitorKey.Some?
    && a.referrer == b.referrer && a.itemKey == b.itemKey && a.visitorKey == b.visitorKey
  }

  predicate IndexesHold(rows: seq<Track>) {
    forall i, j :: 0 <= i < j < |rows| ==> !CollideAsUser(rows[i], rows[j]) && !CollideAsAnonymous(rows[i], rows[j])
  }

  // ----- the migration -----

  function ItemKey(t: Track): string { t.listingType + ":" + UuidText(t.listingId) }

  function VisitorKey(t: Track): string {
    if t.visitorId.Some? then UuidText(t.visitorId.value) else t.visitorIp
  }

  function Keyed(t: Track): Track {
    t.(itemKey := Some(ItemKey(t)), visitorKey := Some(VisitorKey(t)))
  }

  function KeyedAll(rows: seq<Track>): seq<Track> {
    seq(|rows|, i requires 0 <= i < |rows| => Keyed(rows[i]))
  }

  class Tracks {
    var rows: seq<Track>

    constructor (rows: seq<Track>)
      ensures this.rows == rows
    {
      this.rows := rows;
    }

    /** `UPDATE referral_tracks SET ...`, on every row. */
    method Update(f: Track -> Track)
      modifies this
      ensures |rows| == |old(rows)| && forall i :: 0 <= i < |rows| ==> rows[i] == f(old(rows)[i])
    {
      var i := 0;
      while i < |rows|
        invariant 0 <= i <= |rows| == |old(rows)|
        invariant forall k :: 0 <= k < i ==> rows[k] == f(old(rows)[k])
        invariant forall k :: i <= k < |rows| ==> rows[k] == old(rows)[k]
      {
        rows := rows[i := f(rows[i])];
        i := i + 1;
      }
    }

    /** Add the columns, fill them, build the indexes; a violated index rolls everything back. */
    method Upgrade() returns (ok: bool)
      modifies this
      ensures ok <==> IndexesHold(KeyedAll(old(rows)))
      ensures rows == if ok then KeyedAll(old(rows)) else old(rows)
      ensures ok ==> forall i :: 0 <= i < |rows| ==>
                && rows[i].itemKey == Some(rows[i].listingType + ":" + UuidText(rows[i].listingId))
                && rows[i].visitorKey == Some(if rows[i].visitorId.Some? then UuidText(rows[i].visitorId.value) else rows[i].visitorIp)
                && rows[i] == old(rows)[i].(itemKey := rows[i].itemKey, visitorKey := rows[i].visitorKey)
    {
      var before := rows;
      Update((t: Track) => t.(itemKey := None, visitorKey := None));
      Update((t: Track) => if t.itemKey.None? then t.(itemKey := Some(ItemKey(t))) else t);
      Update((t: Track) => if t.visitorKey.None? then t.(visitorKey := Some(VisitorKey(t))) else t);
      assert rows == KeyedAll(before);
      ok := IndexesHold(rows);
      if !ok {
        rows := before;
      }
    }
  }

  // ----- why a clean scan is enough -----

  /** Digit `k` of a UUID stands after the dashes before it. */
  lemma UuidDigit(u: Uuid, k: nat)
    requires k < 32
    ensures u[k] == UuidText(u)[k + (if k < 8 then 0 else if k < 12 then 1 else if k < 16 then 2 else if k < 20 then 3 else 4)]
  {
  }

  lemma UuidTextInjective(a: Uuid, b: Uuid)
    requires UuidText(a) == UuidText(b)
    ensures a == b
  {
    forall k | 0 <= k < 32
      ensures a[k] == b[k]
    {
      UuidDigit(a, k);
      UuidDigit(b, k);
    }
  }

  /** The key determines listing type and listing, whatever colons the type holds: printed ids have one length. */
  lemma ItemKeyInjective(a: Track, b: Track)
    ensures ItemKey(a) == ItemKey(b) <==> a.listingType == b.listingType && a.listingId == b.listingId
  {
    var s, t := ItemKey(a), ItemKey(b);
    assert s[|s| - 36..] == UuidText(a.listingId) && s[..|s| - 37] == a.listingType;
    assert t[|t| - 36..] == UuidText(b.listingId) && t[..|t| - 37] == b.listingType;
    if s == t {
      UuidTextInjective(a.listingId, b.listingId);
    }
  }

  /** Two tracks of one referral: same receiver, same listing, same listing type. */
  predicate SameReferral(a: Track, b: Track) {
    (SameLoggedIn(a, b) || SameAnonymous(a, b)) && a.listingType == b.listingType
  }

  lemma CollisionIsSameReferral(a: Track, b: Track)
    ensures CollideAsUser(Keyed(a), Keyed(b)) || CollideAsAnonymous(Keyed(a), Keyed(b)) <==> SameReferral(a, b)
  {
    ItemKeyInjective(a, b);
    hide ItemKey, UuidText;
  }

  /** The migration goes through exactly when no referral was tracked twice. */
  lemma IndexesHoldExactly(rows: seq<Track>)
    ensures IndexesHold(KeyedAll(rows)) <==> forall i, j :: 0 <= i < j < |rows| ==> !SameReferral(rows[i], rows[j])
  {
    var keyed := KeyedAll(rows);
    hide Keyed, SameReferral, CollideAsUser, CollideAsAnonymous;
    forall i, j | 0 <= i < j < |rows|
      ensures CollideAsUser(keyed[i], keyed[j]) || CollideAsAnonymous(keyed[i], keyed[j]) <==> SameReferral(rows[i], rows[j])
    {
      CollisionIsSameReferral(rows[i], rows[j]);
    }
  }

  /** The rows a `GROUP BY` counts for one group. */
  function OfVisitor(rows: seq<Track>, referrer: Uuid, listing: Uuid, visitor: Uuid): set<int> {
    set i | 0 <= i < |rows| && (rows[i].referrer, rows[i].listingId, rows[i].visitorId) == (referrer, listing, Some(visitor))
  }

  function OfAddress(rows: seq<Track>, referrer: Uuid, listing: Uuid, ip: string): set<int> {
    set i | 0 <= i < |rows| && rows[i].visitorId.None?
            && (rows[i].referrer, rows[i].listingId, rows[i].visitorIp) == (referrer, listing, ip)
  }

  /** A group is reported exactly when more than one row has its referrer, listing and visitor, or address. */
  lemma GroupsExactly(rows: seq<Track>, referrer: Uuid, listing: Uuid, visitor: Uuid, ip: string)
    ensures (referrer, listing, Some(visitor)) in LoggedInGroups(rows) <==> |OfVisitor(rows, referrer, listing, visitor)| > 1
    ensures (referrer, listing, ip) in AnonymousGroups(rows) <==> |OfAddress(rows, referrer, listing, ip)| > 1
  {
    var a, b := OfVisitor(rows, referrer, listing, visitor), OfAddress(rows, referrer, listing, ip);
    TwoOrMore(a);
    TwoOrMore(b);
    if i, j :| i in a && j in a && i != j {
      assert SameLoggedIn(rows[i], rows[j]);
    }
    if i, j :| i in b && j in b && i != j {
      assert SameAnonymous(rows[i], rows[j]);
    }
    forall i, j | 0 <= i < |rows| && 0 <= j < |rows| && (i in a || i in b)
      ensures i in a && SameLoggedIn(rows[i], rows[j]) ==> j in a
      ensures i in b && SameAnonymous(rows[i], rows[j]) ==> j in b
    {
    }
  }

  lemma TwoOrMore<T>(s: set<T>)
    ensures |s| > 1 <==> exists i, j :: i in s && j in s && i != j
  {
    if i, j :| i in s && j in s && i != j {
      assert {i, j} <= s && |s - {i, j}| == |s| - 2;
    }
    if s != {} {
      var i :| i in s;
      assert |s - {i}| == |s| - 1;
      if s - {i} != {} {
        var j :| j in s - {i};
      }
    }
  }

  /** What the unique indexes forbid: two rows of one referrer, listing and type, of one visitor or of one address without visitor. */
  lemma DuplicateExactly(rows: seq<Track>)
    ensures IndexesHold(KeyedAll(rows)) <==>
      forall i, j :: 0 <= i < j < |rows|
                     && (rows[i].referrer, rows[i].listingId, rows[i].listingType) == (rows[j].referrer, rows[j].listingId, rows[j].listingType)
                     && rows[i].visitorId == rows[j].visitorId
                     ==> rows[i].visitorId.None? && rows[i].visitorIp != rows[j].visitorIp
  {
    IndexesHoldExactly(rows);
    hide IndexesHold;
    forall i, j | 0 <= i < j < |rows|
      ensures SameReferral(rows[i], rows[j]) <==>
        && (rows[i].referrer, rows[i].listingId, rows[i].listingType) == (rows[j].referrer, rows[j].listingId, rows[j].listingType)
        && rows[i].visitorId == rows[j].visitorId && (rows[i].visitorId.Some? || rows[i].visitorIp == rows[j].visitorIp)
    {
    }
  }

  lemma ScanCleanMeansNoPairs(rows: seq<Track>)
    ensures ScanClean(rows) <==>
      forall i, j :: 0 <= i < j < |rows| ==> !SameLoggedIn(rows[i], rows[j]) && !SameAnonymous(rows[i], rows[j])
  {
    var a, b := LoggedInGroups(rows), AnonymousGroups(rows);
    forall i, j | 0 <= i < j < |rows|
      ensures SameLoggedIn(rows[i], rows[j]) ==> (rows[i].referrer, rows[i].listingId, rows[i].visitorId) in a
      ensures SameAnonymous(rows[i], rows[j]) ==> (rows[i].referrer, rows[i].listingId, rows[i].visitorIp) in b
    {
    }
    if forall i, j :: 0 <= i < j < |rows| ==> !SameLoggedIn(rows[i], rows[j]) && !SameAnonymous(rows[i], rows[j]) {
      forall i, j | 0 <= i < |rows| && 0 <= j < |rows| && j != i
        ensures !SameLoggedIn(rows[i], rows[j]) && !SameAnonymous(rows[i], rows[j])
      {
        if j < i {
          assert !SameLoggedIn(rows[j], rows[i]) && !SameAnonymous(rows[j], rows[i]);
        }
      }
      assert a == {} && b == {};
    }
  }

  /** A clean scan licenses the migration, for every table. */
  lemma CleanScanSuffices(rows: seq<Track>)
    requires ScanClean(rows)
    ensures IndexesHold(KeyedAll(rows))
  {
    ScanCleanMeansNoPairs(rows);
    IndexesHoldExactly(rows);
  }

  /** And where every listing has one type, the scan predicts the migration exactly. */
  lemma ScanIsExact(rows: seq<Track>)
    requires forall i, j :: 0 <= i < |rows| && 0 <= j < |rows| && rows[i].listingId == rows[j].listingId
                            ==> rows[i].listingType == rows[j].listingType
    ensures IndexesHold(KeyedAll(rows)) <==> ScanClean(rows)
  {
    ScanCleanMeansNoPairs(rows);
    IndexesHoldExactly(rows);
    forall i, j | 0 <= i < j < |rows|
      ensures SameReferral(rows[i], rows[j]) <==> SameLoggedIn(rows[i], rows[j]) || SameAnonymous(rows[i], rows[j])
    {
    }
  }
}
