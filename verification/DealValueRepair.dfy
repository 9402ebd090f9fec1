/** Repairing venture prices that an integer truncation left one short of a multiple of 10000. */
module DealValueRepair {
  import opened Options
  import opened Rounding

  type BrandId = nat

  datatype Brand = Brand(dealValue: Option<int>, sellerValue: Option<int>)

  datatype Venture = Venture(brand: Option<BrandId>, listingMode: Option<string>)

  /** A percentage rounded to two decimals, in hundredths. */
  type Hundredths = int

  function InferCommissionPercent(deal: int, seller: Option<int>): Hundredths {
    if seller.None? || deal <= 0 then 500
    else
      var pct := RoundHalfEven((deal - seller.value) * 10000, deal);
      if pct < 0 then 0 else if pct > 10000 then 10000 else pct
  }

  function DeductiveSellerReceives(asking: int, pct: Hundredths): int {
    asking - RoundHalfEven(asking * pct, 10000)
  }

  function ListingSellerPayout(listing: int, pct: Hundredths): int {
    listing - RoundHalfEven(listing * pct, 10000)
  }

  predicate Selected(b: Brand) {
    b.dealValue.Some? && b.dealValue.value >= 9999 && (b.dealValue.value + 1) % 10000 == 0
  }

  function Repaired(b: Brand, mode: string): Brand
    requires Selected(b)
  {
    var deal := b.dealValue.value;
    var pct := InferCommissionPercent(deal, b.sellerValue);
    Brand(Some(deal + 1),
          Some(if mode == "CO_VENTURE" then ListingSellerPayout(deal + 1, pct) else DeductiveSellerReceives(deal + 1, pct)))
  }

  // ----- one row -----

  /**
   * The recomputed commission is exact: the new price is 10000 k, the percentage h hundredths, and the
   * commission is the integer k h, no rounding involved. The payout stays between 0 and the price.
   */
  lemma CommissionIsExact(b: Brand, mode: string)
    requires Selected(b)
    ensures var k := (b.dealValue.value + 1) / 10000;
            var h := InferCommissionPercent(b.dealValue.value, b.sellerValue);
            var r := Repaired(b, mode);
            && 0 <= h <= 10000 && r.dealValue == Some(10000 * k)
            && r.sellerValue.Some? && r.sellerValue.value == 10000 * k - k * h
            && 0 <= r.sellerValue.value <= 10000 * k
  {
    var k := (b.dealValue.value + 1) / 10000;
    DivMod(b.dealValue.value + 1, 10000);
    ExactCommission(k, InferCommissionPercent(b.dealValue.value, b.sellerValue));
  }

  lemma ExactCommission(k: int, h: int)
    requires k > 0 && 0 <= h <= 10000
    ensures RoundHalfEven((10000 * k) * h, 10000) == k * h && 0 <= k * h <= 10000 * k
  {
  }

  /** For a payout between 0 and the price, the commission moves by at least -k/2 and at most 1 + k/2. */
  lemma CommissionMovesLittle(b: Brand, mode: string)
    requires Selected(b) && b.sellerValue.Some? && 0 <= b.sellerValue.value <= b.dealValue.value
    ensures var k := (b.dealValue.value + 1) / 10000;
            var r := Repaired(b, mode);
            r.dealValue.Some? && r.sellerValue.Some? &&
            var before := b.dealValue.value - b.sellerValue.value;
            var after := r.dealValue.value - r.sellerValue.value;
            -k <= 2 * (after - before) <= 2 + k
  {
    CommissionIsExact(b, mode);
    var deal := b.dealValue.value;
    var c, k := deal - b.sellerValue.value, (deal + 1) / 10000;
    DivMod(deal + 1, 10000);
    var raw := RoundHalfEven(c * 10000, deal);
    HalfEvenIsNearest(c * 10000, deal);
    PercentInRange(raw, c, deal);
    Scaled(k, raw, c, deal);
  }

  lemma PercentInRange(h: int, c: int, deal: int)
    requires deal >= 9999 && 0 <= c <= deal && -deal <= 2 * (h * deal - c * 10000) <= deal
    ensures 0 <= h <= 10000
  {
    if h < 0 {
      MulMonotone(h, -1, deal);
    }
    if h > 10000 {
      MulMonotone(10001, h, deal);
    }
  }

  lemma Scaled(k: int, h: int, c: int, deal: int)
    requires k > 0 && deal == 10000 * k - 1 && 0 <= c <= deal
    requires -deal <= 2 * (h * deal - c * 10000) <= deal
    ensures -k <= 2 * (k * h - c) <= 2 + k
  {
    var e, x := h * deal - c * 10000, k * h - c;
    assert deal * x == k * e + c by {
      assert deal * (k * h) == k * (h * deal);
      assert deal * c == k * (c * 10000) - c;
    }
    assert k * (2 * e) <= k * deal && k * (2 * e) >= k * (-deal);
    assert deal * (2 * x) <= deal * (k + 2);
    assert deal * (2 * x) >= deal * (-k);
    Cancel(deal, 2 * x, k + 2);
    Cancel(deal, -k, 2 * x);
  }

  lemma Cancel(d: int, x: int, y: int)
    requires d > 0 && d * x <= d * y
    ensures x <= y
  {
  }

  /** Both listing modes repair alike, and a repaired row is not selected again. */
  lemma RepairSettles(b: Brand, mode: string, other: string)
    requires Selected(b)
    ensures Repaired(b, mode) == Repaired(b, other) && !Selected(Repaired(b, mode))
  {
  }

  /** The rows repaired are those one short of a positive multiple of 10000. */
  lemma SelectedExactly(b: Brand)
    ensures Selected(b) <==> exists k :: k >= 1 && b.dealValue == Some(10000 * k - 1)
  {
    if Selected(b) {
      var k := (b.dealValue.value + 1) / 10000;
      DivMod(b.dealValue.value + 1, 10000);
      assert b.dealValue == Some(10000 * k - 1);
    }
  }

  /**
   * The payout at the edges: without an old payout the commission is 5 percent; an old payout of nothing or
   * less leaves nothing, and one of the old price or more leaves the whole new price.
   */
  lemma PayoutAtTheEdges(b: Brand, mode: string, k: int)
    requires k >= 1 && b.dealValue == Some(10000 * k - 1)
    ensures Selected(b) && Repaired(b, mode).dealValue == Some(10000 * k)
    ensures b.sellerValue.None? ==> Repaired(b, mode).sellerValue == Some(9500 * k)
    ensures b.sellerValue.Some? && b.sellerValue.value <= 0 ==> Repaired(b, mode).sellerValue == Some(0)
    ensures b.sellerValue.Some? && b.sellerValue.value >= 10000 * k - 1 ==> Repaired(b, mode).sellerValue == Some(10000 * k)
  {
    hide InferCommissionPercent, Repaired;
    CommissionIsExact(b, mode);
    var h := InferCommissionPercent(10000 * k - 1, b.sellerValue);
    EdgePercent(10000 * k - 1, b.sellerValue);
    EdgeProducts(k, h);
  }

  lemma EdgeProducts(k: int, h: int)
    ensures h == 500 ==> 10000 * k - k * h == 9500 * k
    ensures h == 10000 ==> 10000 * k - k * h == 0
    ensures h == 0 ==> 10000 * k - k * h == 10000 * k
  {
  }

  lemma EdgePercent(deal: int, seller: Option<int>)
    requires deal > 0
    ensures seller.None? ==> InferCommissionPercent(deal, seller) == 500
    ensures seller.Some? && seller.value <= 0 ==> InferCommissionPercent(deal, seller) == 10000
    ensures seller.Some? && seller.value >= deal ==> InferCommissionPercent(deal, seller) == 0
  {
    hide RoundHalfEven;
    if seller.Some? {
      var n := (deal - seller.value) * 10000;
      HalfEvenIsNearest(n, deal);
      var h := RoundHalfEven(n, deal);
      if seller.value <= 0 && h < 10000 {
        MulMonotone(h, 9999, deal);
      }
      if seller.value >= deal && h > 0 {
        MulMonotone(1, h, deal);
      }
    }
  }

  // ----- the table -----

  /** A row of the selection: the brand as it was when the query ran, and the mode of one of its ventures. */
  datatype Row = Row(id: BrandId, brand: Brand, mode: Option<string>)

  function Rows(brands: map<BrandId, Brand>, ventures: seq<Venture>): (rows: seq<Row>)
    ensures forall i :: 0 <= i < |rows| ==>
              rows[i].id in brands && rows[i].brand == brands[rows[i].id] && Selected(rows[i].brand)
    ensures forall id :: id in brands && Selected(brands[id]) && Owned(ventures, id) ==>
              exists i :: 0 <= i < |rows| && rows[i].id == id
    ensures forall i :: 0 <= i < |rows| ==> Owned(ventures, rows[i].id)
  {
    if ventures == [] then []
    else
      var v, rest := ventures[|ventures| - 1], Rows(brands, ventures[..|ventures| - 1]);
      if v.brand.Some? && v.brand.value in brands && Selected(brands[v.brand.value])
      then var rows := rest + [Row(v.brand.value, brands[v.brand.value], v.listingMode)];
           assert rows[|rest|].id == v.brand.value && ventures[|ventures| - 1] == v;
           assert forall i :: 0 <= i < |rest| ==> rows[i] == rest[i];
           rows
      else rest
  }

  predicate Owned(ventures: seq<Venture>, id: BrandId) {
    exists i :: 0 <= i < |ventures| && ventures[i].brand == Some(id)
  }

  /** So the query of a second run comes back empty. */
  lemma RerunSelectsNothing(brands: map<BrandId, Brand>, ventures: seq<Venture>)
    requires forall id :: id in brands && Selected(brands[id]) ==> !Owned(ventures, id)
    ensures Rows(brands, ventures) == []
  {
  }

  class Database {
    var brands: map<BrandId, Brand>
    const ventures: seq<Venture>

    constructor (brands: map<BrandId, Brand>, ventures: seq<Venture>)
      ensures this.brands == brands && this.ventures == ventures
    {
      this.brands, this.ventures := brands, ventures;
    }

    /**
     * The migration: every selected brand that some venture refers to is repaired once, however many
     * ventures share it; every other row is unchanged. Nothing is left for a second run.
     */
    method Upgrade()
      modifies this
      ensures brands.Keys == old(brands).Keys
      ensures forall id :: id in brands ==>
                brands[id] == if Selected(old(brands)[id]) && Owned(ventures, id)
                              then Repaired(old(brands)[id], "VENTURE") else old(brands)[id]
      ensures forall id :: id in brands && Selected(brands[id]) ==> !Owned(ventures, id)
    {
      var rows := Rows(brands, ventures);
      hide Rows, InferCommissionPercent, RoundHalfEven, Owned;
      var i := 0;
      while i < |rows|
        invariant 0 <= i <= |rows| && brands.Keys == old(brands).Keys
        invariant forall id :: id in brands ==>
                    brands[id] == if exists j :: 0 <= j < i && rows[j].id == id
                                  then Repaired(old(brands)[id], "VENTURE") else old(brands)[id]
      {
        var row := rows[i];
        var deal := row.brand.dealValue.value;
        var pct := InferCommissionPercent(deal, row.brand.sellerValue);
        var mode := if row.mode.Some? && row.mode.value != "" then row.mode.value else "VENTURE";
        var seller;
        if mode == "CO_VENTURE" {
          seller := ListingSellerPayout(deal + 1, pct);
        } else {
          seller := DeductiveSellerReceives(deal + 1, pct);
        }
        RepairSettles(row.brand, mode, "VENTURE");
        brands := brands[row.id := Brand(Some(deal + 1), Some(seller))];
        i := i + 1;
      }
      forall id | id in brands && Selected(brands[id])
        ensures !Owned(ventures, id)
      {
        if Selected(old(brands)[id]) {
          RepairSettles(old(brands)[id], "VENTURE", "VENTURE");
        }
      }
    }
  }
}
