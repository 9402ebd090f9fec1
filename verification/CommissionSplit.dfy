/** Splitting one-time listing prices into commission and seller payout. Prices are whole paise. */
module CommissionSplit {
  import opened Options
  import opened Rounding

  /** `percent` is NULL or 15; amounts are in paise. */
  datatype Listing = Listing(
    oneTime: bool, sellerPrice: Option<int>, askingPrice: Option<int>, paymentStatus: Option<string>,
    listingPrice: Option<int>, percent: Option<int>, commission: Option<int>, payout: Option<int>)

  // ----- the three statements, row by row -----

  function Coalesced(l: Listing): int {
    if l.sellerPrice.Some? then l.sellerPrice.value else if l.askingPrice.Some? then l.askingPrice.value else 0
  }

  function Priced(l: Listing): Listing {
    l.(listingPrice := if l.sellerPrice.Some? && l.sellerPrice.value >= 0 then l.sellerPrice else l.askingPrice,
       percent := if l.oneTime && Coalesced(l) > 0 then Some(15) else None)
  }

  /** `ROUND((price * percent / 100)::numeric, 2)`, in paise. */
  function CommissionOf(price: int, percent: int): int { RoundHalfAway(price * percent, 100) }

  /** `ROUND((price - price * percent / 100)::numeric, 2)`, in paise. */
  function PayoutOf(price: int, percent: int): int { RoundHalfAway(price * 100 - price * percent, 100) }

  function Divided(l: Listing): Listing {
    if l.percent.None? then l.(commission := None, payout := None)
    else if l.listingPrice.None? then l.(commission := None, payout := None)
    else l.(commission := Some(CommissionOf(l.listingPrice.value, l.percent.value)),
            payout := Some(PayoutOf(l.listingPrice.value, l.percent.value)))
  }

  function Published(l: Listing): Listing {
    if l.oneTime && l.listingPrice.Some? && l.paymentStatus != Some("COMPLETED")
    then l.(askingPrice := l.listingPrice, sellerPrice := l.payout)
    else l
  }

  function Migrated(l: Listing): Listing { Published(Divided(Priced(l))) }

  // ----- the table -----

  class Listings {
    var rows: seq<Listing>

    constructor (rows: seq<Listing>)
      ensures this.rows == rows
    {
      this.rows := rows;
    }

    /** `UPDATE domain_listings SET ...`, on every row. */
    method Update(f: Listing -> Listing)
      modifies this
      ensures |rows| == |old(rows)| && forall i :: 0 <= i < |rows| ==> rows[i] == f(old(rows)[i])
    {
      var i := 0;
      while i < |rows|
        invariant 0 <= i <= |rows| == |old(rows)|
        invariant forall k :: 0 <= k < i ==> rows[k] == f(old(rows)[k])
        invariant forall k :: i <= k < |rows| ==> rows[k] == old(rows)[k]
      {
        rows := rows[i := f(rows[i])];
        i := i + 1;
      }
    }

    /** The migration: three updates, each reading what the one before wrote. */
    method Upgrade()
      modifies this
      ensures |rows| == |old(rows)| && forall i :: 0 <= i < |rows| ==> rows[i] == Migrated(old(rows)[i])
    {
      Update(Priced);
      Update(Divided);
      Update(Published);
    }
  }

  // ----- no money is lost -----

  /**
   * For any percentage a/b between 0 and 1 of a price of P paise, the two rounded parts add up to P, or to
   * one paisa more, exactly when the commission ends in half a paisa.
   */
  lemma SplitAddsUp(price: int, a: int, b: int)
    requires price >= 0 && 0 <= a <= b && b > 0
    ensures RoundHalfAway(price * a, b) + RoundHalfAway(price * b - price * a, b)
            == price + (if 2 * ((price * a) % b) == b then 1 else 0)
  {
    hide RoundHalfAway;
    var n := price * a;
    MulMonotone(0, a, price);
    MulMonotone(a, b, price);
    var q, r := n / b, n % b;
    DivMod(n, b);
    QuotientBounds(n, price, b);
    RoundedParts(q, r, b);
    if r == 0 {
      Regroup(price, q, 0, b);
      RoundedParts(price - q, 0, b);
    } else {
      Regroup(price, q, r, b);
      RoundedParts(price - q - 1, b - r, b);
    }
  }

  /** A number in quotient and remainder rounds up from half the divisor on. */
  lemma RoundedParts(q: int, r: int, b: int)
    requires q >= 0 && b > 0 && 0 <= r < b
    ensures RoundHalfAway(q * b + r, b) == q + (if 2 * r < b then 0 else 1)
  {
    Unique(q, r, b);
    MulMonotone(0, q, b);
  }

  lemma Regroup(price: int, q: int, r: int, b: int)
    ensures price * b - (q * b + r) == (price - q) * b - r == (price - q - 1) * b + (b - r)
  {
  }

  lemma QuotientBounds(n: int, price: int, b: int)
    requires 0 <= n <= price * b && b > 0
    ensures 0 <= n / b <= price && (n % b != 0 ==> n / b < price)
  {
    DivMod(n, b);
    if n / b > price {
      MulMonotone(price + 1, n / b, b);
    } else if n / b < 0 {
      MulMonotone(n / b, -1, b);
    }
  }

  /** At 15 percent the extra paisa appears exactly for prices ending in 10 modulo 20 paise. */
  lemma FifteenPercentSplit(price: int)
    requires price >= 0
    ensures CommissionOf(price, 15) + PayoutOf(price, 15) == price + (if price % 20 == 10 then 1 else 0)
    ensures price % 100 == 0 ==> CommissionOf(price, 15) + PayoutOf(price, 15) == price
  {
    SplitAddsUp(price, 15, 100);
    HalfAtFifteen(price / 20, price % 20);
    hide RoundHalfAway;
  }

  lemma HalfAtFifteen(q: int, r: int)
    requires 0 <= r < 20
    ensures 2 * (((20 * q + r) * 15) % 100) == 100 <==> r == 10
  {
    DivMod(15 * r, 100);
    Unique(3 * q + (15 * r) / 100, (15 * r) % 100, 100);
    assert (20 * q + r) * 15 == (3 * q + (15 * r) / 100) * 100 + (15 * r) % 100;
  }

  /**
   * After the migration, whenever a row has a percentage its price is positive, and its commission and
   * payout add up to that price as stated; an unpaid row then asks the full price and pays the payout.
   */
  lemma MigratedRowAddsUp(l: Listing)
    requires Migrated(l).percent.Some?
    ensures var m := Migrated(l);
            && m.oneTime && m.listingPrice.Some? && m.commission.Some? && m.payout.Some? && m.listingPrice.value > 0
            && m.commission.value + m.payout.value
               == m.listingPrice.value + (if m.listingPrice.value % 20 == 10 then 1 else 0)
            && (l.paymentStatus != Some("COMPLETED") ==> m.askingPrice == m.listingPrice && m.sellerPrice == m.payout)
            && (l.paymentStatus == Some("COMPLETED") ==> m.askingPrice == l.askingPrice && m.sellerPrice == l.sellerPrice)
  {
    FifteenPercentSplit(Priced(l).listingPrice.value);
  }

  /** The buyer's price does not rise: an unpaid row asks what its seller had set. */
  lemma NoMarkup(l: Listing)
    requires Migrated(l).percent.Some? && l.sellerPrice.Some? && l.paymentStatus != Some("COMPLETED")
    ensures Migrated(l).askingPrice == l.sellerPrice
  {
  }

  /**
   * Unpaid one-time rows without a percentage lose their prices. Exactly: the seller price becomes NULL for
   * the unpaid one-time rows that had none above zero, unless it was negative and nothing was asked; and the
   * asking price changes for the unpaid one-time rows whose seller price was something else, not negative.
   */
  lemma PricesOverwrittenExactly(l: Listing)
    ensures var unpaid := l.oneTime && l.paymentStatus != Some("COMPLETED"); var m := Migrated(l);
      && (l.sellerPrice.Some? && m.sellerPrice.None? <==>
            unpaid && l.sellerPrice.Some? && (l.sellerPrice.value == 0 || (l.sellerPrice.value < 0 && l.askingPrice.Some?)))
      && (m.askingPrice != l.askingPrice <==>
            unpaid && l.sellerPrice.Some? && l.sellerPrice.value >= 0 && l.askingPrice != l.sellerPrice)
      && (m.askingPrice != l.askingPrice ==> m.askingPrice == l.sellerPrice)
  {
    hide RoundHalfAway;
  }

  /** A listing that asked 500 rupees with its seller price left at 0 asks nothing afterwards. */
  lemma ZeroErasesAskingPrice()
    ensures var l := Listing(true, Some(0), Some(50000), None, None, None, None, None);
      Migrated(l).askingPrice == Some(0) && Migrated(l).sellerPrice == None
  {
  }

  /** A rounded share: within half a paisa, and the larger of two equally near amounts. */
  predicate IsShare(amount: int, hundredths: int) {
    -50 < 100 * amount - hundredths <= 50
  }

  /** Commission and payout, each by itself: 15 and 85 percent of the price, ties upwards. */
  lemma EachPartIsItsShare(price: int)
    requires price >= 0
    ensures IsShare(CommissionOf(price, 15), 15 * price) && IsShare(PayoutOf(price, 15), 85 * price)
  {
    var c, p := 15 * price, 85 * price;
    assert price * 15 == c && price * 100 - price * 15 == p;
    ShareOf(c);
    ShareOf(p);
    hide RoundHalfAway;
  }

  lemma ShareOf(hundredths: int)
    requires hundredths >= 0
    ensures IsShare(RoundHalfAway(hundredths, 100), hundredths)
  {
    DivMod(hundredths, 100);
  }

  /**
   * The migrated row, field by field. A one-time row has 15 percent exactly when its seller price, or else
   * its asking price, is positive, and then its commission and payout are those shares of that price; every
   * other row has no percentage, no commission and no payout.
   */
  lemma MigratedExactly(l: Listing)
    ensures var m := Migrated(l);
      var stated := if l.sellerPrice.Some? then l.sellerPrice else l.askingPrice;
      && (m.percent.Some? <==> l.oneTime && stated.Some? && stated.value > 0)
      && (m.percent.Some? ==>
            && m.percent == Some(15) && m.listingPrice == stated && m.commission.Some? && m.payout.Some?
            && IsShare(m.commission.value, 15 * stated.value) && IsShare(m.payout.value, 85 * stated.value))
      && (m.percent.None? ==> m.commission.None? && m.payout.None?)
      && m.oneTime == l.oneTime && m.paymentStatus == l.paymentStatus
  {
    hide CommissionOf, PayoutOf, IsShare;
    var stated := if l.sellerPrice.Some? then l.sellerPrice else l.askingPrice;
    if stated.Some? && stated.value > 0 {
      EachPartIsItsShare(stated.value);
    }
  }

  /** 100 rupees: 15 for the commission, 85 for the seller. */
  lemma HundredRupees()
    ensures var l := Listing(true, Some(10000), None, None, None, None, None, None);
      Migrated(l).commission == Some(1500) && Migrated(l).payout == Some(8500) && Migrated(l).sellerPrice == Some(8500)
  {
  }
}
