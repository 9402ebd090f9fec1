/** Numbering the tax invoices of active registrations, year by year, and seeding the yearly counters. */
module TaxInvoiceNumbers {
  import opened Options
  import opened Decimal

  type OrderId = nat

  /** One row of the selection, in stamp order: an active order without a number, and the year of its stamp. */
  datatype Row = Row(id: OrderId, year: nat)

  function YearSuffix(year: nat): string {
    var s := Digits(year);
    if |s| <= 2 then s else s[|s| - 2..]
  }

  function InvoiceNumber(year: nat, seqNo: nat): string {
    "AI" + YearSuffix(year) + Padded(seqNo, 5)
  }

  /** The first number of 2026. */
  lemma FirstNumberOf2026()
    ensures InvoiceNumber(2026, 1) == "AI2600001"
  {
    hide YearSuffix, Padded;
    SuffixOf2026();
    PaddedOne();
  }

  lemma PaddedOne()
    ensures Padded(1, 5) == "00001"
  {
    assert Digits(1) == "1";
  }

  lemma SuffixOf2026()
    ensures YearSuffix(2026) == "26"
  {
    assert Digits(202) == Digits(20) + "2";
    assert Digits(2026) == Digits(202) + "6";
    assert |Digits(20)| == 2;
  }

  // ----- the numbers a run hands out -----

  function CountYear(rows: seq<Row>, year: nat): nat {
    if rows == [] then 0
    else CountYear(rows[..|rows| - 1], year) + (if rows[|rows| - 1].year == year then 1 else 0)
  }

  /** The place of row `i` among the rows of its year, counting from 1. */
  function Rank(rows: seq<Row>, i: nat): nat
    requires i < |rows|
  {
    CountYear(rows[..i + 1], rows[i].year)
  }

  function Assigned(rows: seq<Row>, i: nat): string
    requires i < |rows|
  {
    InvoiceNumber(rows[i].year, Rank(rows, i))
  }

  lemma RankStep(rows: seq<Row>, i: nat)
    requires i < |rows|
    ensures Rank(rows, i) == CountYear(rows[..i], rows[i].year) + 1
    ensures forall y :: CountYear(rows[..i + 1], y) == CountYear(rows[..i], y) + (if rows[i].year == y then 1 else 0)
  {
    assert rows[..i + 1][..i] == rows[..i];
  }

  lemma {:induction false} CountGrows(rows: seq<Row>, i: nat, j: nat, year: nat)
    requires i <= j <= |rows|
    ensures CountYear(rows[..i], year) <= CountYear(rows[..j], year)
  {
    if i < j {
      CountGrows(rows, i, j - 1, year);
      RankStep(rows, j - 1);
    }
  }

  /** Within a year the ranks are exactly 1..n, in stamp order. */
  lemma {:induction false} RanksAreOneToN(rows: seq<Row>, year: nat, v: nat)
    requires 1 <= v <= CountYear(rows, year)
    ensures exists i :: 0 <= i < |rows| && rows[i].year == year && Rank(rows, i) == v
  {
    var n := |rows| - 1;
    assert rows[..n + 1] == rows;
    RankStep(rows, n);
    if rows[n].year == year && v == CountYear(rows, year) {
      assert Rank(rows, n) == v;
    } else {
      RanksAreOneToN(rows[..n], year, v);
      var i :| 0 <= i < n && rows[..n][i].year == year && Rank(rows[..n], i) == v;
      assert rows[..n][..i + 1] == rows[..i + 1];
      assert Rank(rows, i) == v;
    }
  }

  lemma RanksIncrease(rows: seq<Row>, i: nat, j: nat)
    requires i < j < |rows| && rows[i].year == rows[j].year
    ensures 1 <= Rank(rows, i) < Rank(rows, j) <= CountYear(rows, rows[i].year)
  {
    RankStep(rows, i);
    RankStep(rows, j);
    CountGrows(rows, i + 1, j, rows[i].year);
    CountGrows(rows, j + 1, |rows|, rows[i].year);
    assert rows[..|rows|] == rows;
  }

  lemma RankBounded(rows: seq<Row>, i: nat)
    requires i < |rows|
    ensures 1 <= Rank(rows, i) <= CountYear(rows, rows[i].year)
  {
    RankStep(rows, i);
    CountGrows(rows, i + 1, |rows|, rows[i].year);
    assert rows[..|rows|] == rows;
  }

  // ----- when two numbers coincide -----

  lemma SuffixIsYearModCentury(y: nat, z: nat)
    requires y >= 10 && z >= 10
    ensures |YearSuffix(y)| == 2
    ensures YearSuffix(y) == YearSuffix(z) <==> y % 100 == z % 100
  {
    LastTwoDigits(y);
    LastTwoDigits(z);
    TwoDigits(y);
    TwoDigits(z);
    PairsDiffer(Digit(y / 10 % 10), Digit(y % 10), Digit(z / 10 % 10), Digit(z % 10));
    hide Digits;
  }

  lemma PairsDiffer(a: char, b: char, c: char, d: char)
    ensures [a, b] == [c, d] <==> a == c && b == d
  {
  }

  lemma TwoDigits(y: nat)
    ensures y % 100 == 10 * (y / 10 % 10) + y % 10
    ensures y / 10 % 10 == (y % 100) / 10 && y % 10 == (y % 100) % 10
  {
    var q, r := y / 100, y % 100;
    assert y == 100 * q + 10 * (r / 10) + r % 10;
    assert y / 10 == 10 * q + r / 10;
  }

  /** Two printed numbers coincide exactly for the same place in years of the same two last digits. */
  lemma NumbersCoincide(y: nat, s: nat, z: nat, t: nat)
    requires y >= 10 && z >= 10
    ensures InvoiceNumber(y, s) == InvoiceNumber(z, t) <==> y % 100 == z % 100 && s == t
  {
    SuffixIsYearModCentury(y, z);
    ValueOfPadded(s, 5);
    ValueOfPadded(t, 5);
    var a, b := InvoiceNumber(y, s), InvoiceNumber(z, t);
    SuffixIsYearModCentury(z, y);
    assert a[2..4] == YearSuffix(y) && a[4..] == Padded(s, 5);
    assert b[2..4] == YearSuffix(z) && b[4..] == Padded(t, 5);
  }

  ghost predicate FourDigitYears(rows: seq<Row>) {
    forall i :: 0 <= i < |rows| ==> 1000 <= rows[i].year <= 9999
  }

  /** No two rows of different years share the two printed year digits. */
  ghost predicate SuffixesTellYearsApart(rows: seq<Row>) {
    forall i, j :: 0 <= i < |rows| && 0 <= j < |rows| && rows[i].year % 100 == rows[j].year % 100 ==> rows[i].year == rows[j].year
  }

  ghost predicate AllDistinct(rows: seq<Row>) {
    forall i, j :: 0 <= i < j < |rows| ==> Assigned(rows, i) != Assigned(rows, j)
  }

  /**
   * The numbers of a run are pairwise distinct, however many digits they take, exactly when the two
   * year digits tell the years apart, as they do within one century.
   */
  lemma DistinctExactly(rows: seq<Row>)
    requires FourDigitYears(rows)
    ensures AllDistinct(rows) <==> SuffixesTellYearsApart(rows)
  {
    if SuffixesTellYearsApart(rows) {
      forall i, j | 0 <= i < j < |rows|
        ensures Assigned(rows, i) != Assigned(rows, j)
      {
        NumbersCoincide(rows[i].year, Rank(rows, i), rows[j].year, Rank(rows, j));
        if rows[i].year == rows[j].year {
          RanksIncrease(rows, i, j);
        }
      }
    }
    if AllDistinct(rows) {
      forall i, j | 0 <= i < |rows| && 0 <= j < |rows| && rows[i].year % 100 == rows[j].year % 100
        ensures rows[i].year == rows[j].year
      {
        RankBounded(rows, i);
        RankBounded(rows, j);
        RanksAreOneToN(rows, rows[i].year, 1);
        RanksAreOneToN(rows, rows[j].year, 1);
        var a :| 0 <= a < |rows| && rows[a].year == rows[i].year && Rank(rows, a) == 1;
        var b :| 0 <= b < |rows| && rows[b].year == rows[j].year && Rank(rows, b) == 1;
        NumbersCoincide(rows[a].year, 1, rows[b].year, 1);
        assert Assigned(rows, a) == Assigned(rows, b);
        assert !(a < b) && !(b < a);
      }
    }
  }

  /** An order of 1926 and one of 2026: both are AI2600001. */
  lemma CenturyApartCollides()
    ensures InvoiceNumber(1926, 1) == InvoiceNumber(2026, 1)
    ensures var rows := [Row(0, 1926), Row(1, 2026)]; FourDigitYears(rows) && !AllDistinct(rows)
  {
    NumbersCoincide(1926, 1, 2026, 1);
    var rows := [Row(0, 1926), Row(1, 2026)];
    assert rows[0].year % 100 == rows[1].year % 100;
    DistinctExactly(rows);
  }

  // ----- the migration -----

  function GetOr(m: map<nat, nat>, k: nat, d: nat): nat {
    if k in m then m[k] else d
  }

  /** The dictionary holds how many rows of each year the first `i` rows have. */
  ghost predicate Counted(rows: seq<Row>, i: nat, yearSeq: map<nat, nat>) {
    i <= |rows| && forall y :: GetOr(yearSeq, y, 0) == CountYear(rows[..i], y)
  }

  lemma CountedStep(rows: seq<Row>, i: nat, yearSeq: map<nat, nat>)
    requires i < |rows| && Counted(rows, i, yearSeq)
    ensures var v := GetOr(yearSeq, rows[i].year, 0) + 1;
            Counted(rows, i + 1, yearSeq[rows[i].year := v]) && Assigned(rows, i) == InvoiceNumber(rows[i].year, v)
  {
    RankStep(rows, i);
    var next := yearSeq[rows[i].year := GetOr(yearSeq, rows[i].year, 0) + 1];
    forall y
      ensures GetOr(next, y, 0) == CountYear(rows[..i + 1], y)
    {
      assert GetOr(yearSeq, y, 0) == CountYear(rows[..i], y);
    }
  }

  /** The unique index sees the number on another order. */
  predicate InUse(pending: map<OrderId, Option<string>>, self: OrderId, number: string) {
    exists id :: id in pending && id != self && pending[id] == Some(number)
  }

  class Orders {
    var numbers: map<OrderId, Option<string>>   // tax_invoice_number, under a unique index
    var counters: map<nat, nat>                 // year -> last_seq

    constructor (numbers: map<OrderId, Option<string>>, counters: map<nat, nat>)
      ensures this.numbers == numbers && this.counters == counters
    {
      this.numbers, this.counters := numbers, counters;
    }

    /** The rows handed in are orders without a number, each once. */
    ghost predicate Selects(rows: seq<Row>)
      reads this
    {
      && (forall i :: 0 <= i < |rows| ==> rows[i].id in numbers && numbers[rows[i].id].None?)
      && forall i, j :: 0 <= i < j < |rows| ==> rows[i].id != rows[j].id
    }

    /** No number this run hands out is in the table already. */
    ghost predicate NoneTaken(rows: seq<Row>)
      reads this
    {
      forall i, id :: 0 <= i < |rows| && id in numbers ==> numbers[id] != Some(Assigned(rows, i))
    }

    /**
     * The whole migration in one transaction: it commits exactly when no number is handed out twice or is
     * taken already, and otherwise the unique index aborts it and nothing changes. Counters end at or
     * above every number issued and never decrease.
     */
    method Upgrade(rows: seq<Row>) returns (ok: bool)
      requires Selects(rows)
      modifies this
      ensures ok <==> AllDistinct(rows) && old(NoneTaken(rows))
      ensures !ok ==> numbers == old(numbers) && counters == old(counters)
      ensures ok ==> numbers.Keys == old(numbers).Keys
      ensures ok ==> forall i :: 0 <= i < |rows| ==> rows[i].id in numbers && numbers[rows[i].id] == Some(Assigned(rows, i))
      ensures ok ==> forall id :: id in numbers && (forall i :: 0 <= i < |rows| ==> rows[i].id != id) ==> numbers[id] == old(numbers)[id]
      ensures ok ==> forall y :: GetOr(counters, y, 0) == Max(GetOr(old(counters), y, 0), CountYear(rows, y))
    {
      var pending, yearSeq;
      ok, pending, yearSeq := NumberRows(rows);
      if ok {
        numbers := pending;
        assert rows[..|rows|] == rows;
        RaiseCounters(yearSeq);
      }
    }

    /** The first loop, on the rows the transaction has pending. */
    method NumberRows(rows: seq<Row>) returns (ok: bool, pending: map<OrderId, Option<string>>, yearSeq: map<nat, nat>)
      requires Selects(rows)
      ensures ok <==> AllDistinct(rows) && NoneTaken(rows)
      ensures ok ==> Pending(rows, |rows|, pending)
      ensures ok ==> Counted(rows, |rows|, yearSeq)
    {
      pending, yearSeq := numbers, map[];
      var i := 0;
      SoFarStarts(rows);
      assert Counted(rows, 0, yearSeq);
      hide *;
      while i < |rows|
        invariant 0 <= i <= |rows| && SoFar(rows, i, pending)
        invariant Counted(rows, i, yearSeq)
      {
        var row := rows[i];
        CountedStep(rows, i, yearSeq);
        yearSeq := yearSeq[row.year := GetOr(yearSeq, row.year, 0) + 1];
        var number := InvoiceNumber(row.year, yearSeq[row.year]);
        if InUse(pending, row.id, number) {
          Clash(rows, i, pending);
          return false, pending, yearSeq;
        }
        NoClash(rows, i, pending);
        pending := pending[row.id := Some(number)];
        i := i + 1;
      }
      SoFarEnds(rows, pending);
      return true, pending, yearSeq;
    }

    /** The second loop: `INSERT ... ON CONFLICT (year) DO UPDATE SET last_seq = GREATEST(...)`. */
    method RaiseCounters(yearSeq: map<nat, nat>)
      modifies this`counters
      ensures forall y :: GetOr(counters, y, 0) == Max(GetOr(old(counters), y, 0), GetOr(yearSeq, y, 0))
    {
      var years := yearSeq.Keys;
      while years != {}
        invariant years <= yearSeq.Keys
        invariant forall y :: y in years || y !in yearSeq ==> GetOr(counters, y, 0) == GetOr(old(counters), y, 0)
        invariant forall y :: y in yearSeq && y !in years ==>
                    GetOr(counters, y, 0) == Max(GetOr(old(counters), y, 0), yearSeq[y])
        decreases years
      {
        var y :| y in years;
        counters := counters[y := if y in counters then Max(counters[y], yearSeq[y]) else yearSeq[y]];
        years := years - {y};
      }
    }

    /** The first `i` rows carry their numbers, every other row is as in the table. */
    ghost predicate Pending(rows: seq<Row>, i: nat, pending: map<OrderId, Option<string>>)
      reads this
    {
      && i <= |rows| && pending.Keys == numbers.Keys
      && (forall k :: 0 <= k < |rows| ==> rows[k].id in numbers)
      && (forall k :: 0 <= k < i ==> pending[rows[k].id] == Some(Assigned(rows, k)))
      && forall id :: id in pending && (forall k :: 0 <= k < i ==> rows[k].id != id) ==> pending[id] == numbers[id]
    }

    /** The numbers of the first `i` rows are new and pairwise distinct. */
    ghost predicate SoFar(rows: seq<Row>, i: nat, pending: map<OrderId, Option<string>>)
      reads this
    {
      && Pending(rows, i, pending)
      && (forall k, m :: 0 <= k < m < i ==> Assigned(rows, k) != Assigned(rows, m))
      && forall k, id :: 0 <= k < i && id in numbers ==> numbers[id] != Some(Assigned(rows, k))
    }

    lemma SoFarStarts(rows: seq<Row>)
      requires Selects(rows)
      ensures SoFar(rows, 0, numbers)
    {
    }

    lemma SoFarEnds(rows: seq<Row>, pending: map<OrderId, Option<string>>)
      requires SoFar(rows, |rows|, pending)
      ensures AllDistinct(rows) && NoneTaken(rows) && Pending(rows, |rows|, pending)
    {
    }

    /** A number found in use was either handed out earlier in this run or was in the table before it. */
    lemma Clash(rows: seq<Row>, i: nat, pending: map<OrderId, Option<string>>)
      requires i < |rows| && SoFar(rows, i, pending)
      requires InUse(pending, rows[i].id, Assigned(rows, i))
      ensures !(AllDistinct(rows) && NoneTaken(rows))
    {
      var id :| id in pending && id != rows[i].id && pending[id] == Some(Assigned(rows, i));
      if k :| 0 <= k < i && rows[k].id == id {
        assert Assigned(rows, k) == Assigned(rows, i);
      }
    }

    lemma NoClash(rows: seq<Row>, i: nat, pending: map<OrderId, Option<string>>)
      requires Selects(rows) && i < |rows| && SoFar(rows, i, pending)
      requires !InUse(pending, rows[i].id, Assigned(rows, i))
      ensures SoFar(rows, i + 1, pending[rows[i].id := Some(Assigned(rows, i))])
    {
      hide Assigned;
      forall k | 0 <= k < i
        ensures Assigned(rows, k) != Assigned(rows, i)
      {
        assert rows[k].id in pending && rows[k].id != rows[i].id;
      }
      forall id | id in numbers
        ensures numbers[id] != Some(Assigned(rows, i))
      {
        if k :| 0 <= k < i && rows[k].id == id {
        } else if id != rows[i].id {
          assert pending[id] == numbers[id];
        }
      }
    }
  }

  function Max(a: nat, b: nat): nat { if a >= b then a else b }

  // ----- first and later runs -----

  /** On a table without any numbers the run commits exactly when the year digits tell the years apart. */
  lemma FirstRunCommitsExactly(o: Orders, rows: seq<Row>)
    requires o.Selects(rows) && FourDigitYears(rows)
    requires forall id :: id in o.numbers ==> o.numbers[id].None?
    ensures AllDistinct(rows) && o.NoneTaken(rows) <==> SuffixesTellYearsApart(rows)
  {
    DistinctExactly(rows);
  }

  /**
   * A later run starts every year at 1 again: it aborts as soon as it selects an order of a year whose
   * digits an earlier run already used.
   */
  lemma RerunAborts(o: Orders, rows: seq<Row>, i: nat, year: nat, id: OrderId)
    requires i < |rows| && FourDigitYears(rows) && 1000 <= year <= 9999 && rows[i].year % 100 == year % 100
    requires id in o.numbers && o.numbers[id] == Some(InvoiceNumber(year, 1))
    ensures !o.NoneTaken(rows)
  {
    RankBounded(rows, i);
    RanksAreOneToN(rows, rows[i].year, 1);
    var a :| 0 <= a < |rows| && rows[a].year == rows[i].year && Rank(rows, a) == 1;
    NumbersCoincide(rows[a].year, 1, year, 1);
    assert o.numbers[id] == Some(Assigned(rows, a));
  }

  /** Every stored number belongs to a year whose number 1 is stored, as earlier runs and the running counter leave it. */
  ghost predicate NumberedFromOne(numbers: map<OrderId, Option<string>>) {
    forall id :: id in numbers && numbers[id].Some? ==> StartedYear(numbers, numbers[id].value)
  }

  ghost predicate StartedYear(numbers: map<OrderId, Option<string>>, number: string) {
    exists year: nat, place: nat, first :: 1000 <= year <= 9999 && number == InvoiceNumber(year, place)
      && first in numbers && numbers[first] == Some(InvoiceNumber(year, 1))
  }

  /** A run that commits on such a table leaves such a table. */
  lemma CommitKeepsNumberedFromOne(before: map<OrderId, Option<string>>, after: map<OrderId, Option<string>>, rows: seq<Row>)
    requires NumberedFromOne(before) && FourDigitYears(rows) && after.Keys == before.Keys
    requires forall i :: 0 <= i < |rows| ==> rows[i].id in before && before[rows[i].id].None?
    requires forall i :: 0 <= i < |rows| ==> after[rows[i].id] == Some(Assigned(rows, i))
    requires forall id :: id in after && (forall i :: 0 <= i < |rows| ==> rows[i].id != id) ==> after[id] == before[id]
    ensures NumberedFromOne(after)
  {
    hide InvoiceNumber;
    forall id | id in after && after[id].Some?
      ensures StartedYear(after, after[id].value)
    {
      if i :| 0 <= i < |rows| && rows[i].id == id {
        RankBounded(rows, i);
        RanksAreOneToN(rows, rows[i].year, 1);
        var k :| 0 <= k < |rows| && rows[k].year == rows[i].year && Rank(rows, k) == 1;
        assert after[rows[k].id] == Some(InvoiceNumber(rows[i].year, 1));
      } else {
        assert StartedYear(before, before[id].value);
        var year: nat, place: nat, first: OrderId :| 1000 <= year <= 9999 && before[id].value == InvoiceNumber(year, place)
          && first in before && before[first] == Some(InvoiceNumber(year, 1));
        assert after[first] == before[first];
      }
    }
  }

  /** A number printed for a year with the last two digits of `year`. */
  predicate PrintedFor(number: string, year: nat) { "AI" + YearSuffix(year) <= number }

  /** No stored number is printed for the year of a selected row. */
  ghost predicate NoYearBegun(numbers: map<OrderId, Option<string>>, rows: seq<Row>) {
    forall i, id :: 0 <= i < |rows| && id in numbers && numbers[id].Some? ==> !PrintedFor(numbers[id].value, rows[i].year)
  }

  lemma PrintedForExactly(y: nat, place: nat, year: nat)
    requires y >= 10 && year >= 10
    ensures PrintedFor(InvoiceNumber(y, place), year) <==> y % 100 == year % 100
  {
    SuffixIsYearModCentury(y, year);
    SuffixIsYearModCentury(year, y);
    hide YearSuffix, Padded;
    var number := InvoiceNumber(y, place);
    assert number[..4] == "AI" + YearSuffix(y);
    assert ("AI" + YearSuffix(y))[2..] == YearSuffix(y) && ("AI" + YearSuffix(year))[2..] == YearSuffix(year);
  }

  /**
   * The condition for a later run, to be read off the table beforehand: none of its numbers is taken
   * exactly when no selected row falls in a year that numbering has begun.
   */
  lemma NoneTakenExactly(o: Orders, rows: seq<Row>)
    requires FourDigitYears(rows) && NumberedFromOne(o.numbers)
    ensures o.NoneTaken(rows) <==> NoYearBegun(o.numbers, rows)
  {
    hide Assigned, InvoiceNumber, PrintedFor;
    if o.NoneTaken(rows) {
      forall i, id | 0 <= i < |rows| && id in o.numbers && o.numbers[id].Some?
        ensures !PrintedFor(o.numbers[id].value, rows[i].year)
      {
        var number := o.numbers[id].value;
        assert StartedYear(o.numbers, number);
        var year: nat, place: nat, first: OrderId :| 1000 <= year <= 9999 && number == InvoiceNumber(year, place)
          && first in o.numbers && o.numbers[first] == Some(InvoiceNumber(year, 1));
        PrintedForExactly(year, place, rows[i].year);
        if rows[i].year % 100 == year % 100 {
          RerunAborts(o, rows, i, year, first);
        }
      }
    }
    if NoYearBegun(o.numbers, rows) {
      forall i, id | 0 <= i < |rows| && id in o.numbers
        ensures o.numbers[id] != Some(Assigned(rows, i))
      {
        AssignedIsPrinted(rows, i);
      }
    }
  }

  lemma AssignedIsPrinted(rows: seq<Row>, i: nat)
    requires i < |rows| && rows[i].year >= 10
    ensures PrintedFor(Assigned(rows, i), rows[i].year)
  {
    PrintedForExactly(rows[i].year, Rank(rows, i), rows[i].year);
  }

  /** So a later run commits exactly when the years it selects are new to the table and told apart by their digits. */
  lemma LaterRunCommitsExactly(o: Orders, rows: seq<Row>)
    requires o.Selects(rows) && FourDigitYears(rows) && NumberedFromOne(o.numbers)
    ensures AllDistinct(rows) && o.NoneTaken(rows) <==> SuffixesTellYearsApart(rows) && NoYearBegun(o.numbers, rows)
  {
    DistinctExactly(rows);
    NoneTakenExactly(o, rows);
  }
}
