/** Sequential numbers and references for virtual-assistant applications. */
module ApplicationNumbers {
  import opened Options
  import opened Decimal

  type AppId = nat

  datatype Application = Application(number: Option<nat>, reference: string)

  /** A Postgres sequence: the last value, and whether it was already handed out. */
  datatype Sequence = Sequence(last: int, called: bool)

  function NextValue(s: Sequence): int { if s.called then s.last + 1 else s.last }

  function Reference(n: nat): string { "CB-VA-" + Padded(n, 6) }

  /** References are injective, those wider than six digits included. */
  lemma ReferenceInjective(m: nat, n: nat)
    requires Reference(m) == Reference(n)
    ensures m == n
  {
    ValueOfPadded(m, 6);
    ValueOfPadded(n, 6);
    assert Reference(m)[6..] == Padded(m, 6) && Reference(n)[6..] == Padded(n, 6);
  }

  lemma FirstReference()
    ensures Reference(1) == "CB-VA-000001"
  {
    assert Digits(1) == "1" && Padded(1, 6) == Zeros(5) + "1" == "000001";
  }

  /** The unique index on the reference sees `ref` on another application. */
  predicate InUse(apps: map<AppId, Application>, self: AppId, ref: string) {
    exists a :: a in apps && a != self && apps[a].reference == ref
  }

  /** The application holds the reference of the place `i`, counting places from 0. */
  predicate Holds(app: Application, i: nat) { app.reference == Reference(i + 1) }

  /** No application later in the order holds the reference an earlier one is given. */
  ghost predicate NoneHeldLater(apps: map<AppId, Application>, rows: seq<AppId>)
    requires forall k :: 0 <= k < |rows| ==> rows[k] in apps
  {
    forall i, j :: 0 <= i < j < |rows| ==> !Holds(apps[rows[j]], i)
  }

  ghost predicate Numbered(apps: map<AppId, Application>, rows: seq<AppId>, i: nat) {
    && i <= |rows| && (forall k :: 0 <= k < |rows| ==> rows[k] in apps)
    && forall k :: 0 <= k < i ==> apps[rows[k]] == Application(Some(k + 1), Reference(k + 1))
  }

  lemma NumberedAreDistinct(apps: map<AppId, Application>, rows: seq<AppId>)
    requires Numbered(apps, rows, |rows|) && forall a :: a in apps ==> a in rows
    ensures forall a, b :: a in apps && b in apps && a != b ==>
              apps[a].number != apps[b].number && apps[a].reference != apps[b].reference
  {
    forall a, b | a in apps && b in apps && a != b
      ensures apps[a].number != apps[b].number && apps[a].reference != apps[b].reference
    {
      var i :| 0 <= i < |rows| && rows[i] == a;
      var j :| 0 <= j < |rows| && rows[j] == b;
      if apps[a].reference == apps[b].reference {
        ReferenceInjective(i + 1, j + 1);
      }
    }
  }

  // ----- running it again -----

  /** The references of an earlier run, which undoing it leaves in place: `drawn[k]` is the number of place `k`. */
  ghost predicate References(apps: map<AppId, Application>, rows: seq<AppId>, drawn: seq<nat>) {
    && |drawn| == |rows| && (forall k :: 0 <= k < |rows| ==> rows[k] in apps)
    && (forall k :: 0 <= k < |rows| ==> 1 <= drawn[k] <= |rows| && apps[rows[k]].reference == Reference(drawn[k]))
    && forall i, j :: 0 <= i < j < |drawn| ==> drawn[i] != drawn[j]
  }

  lemma HoldsExactly(app: Application, i: nat, n: nat)
    requires app.reference == Reference(n)
    ensures Holds(app, i) <==> n == i + 1
  {
    if Holds(app, i) {
      ReferenceInjective(n, i + 1);
    }
  }

  /** Different numbers up to n, none below its place, leave only the identity. */
  lemma {:induction false} NoneBelowIsIdentity(drawn: seq<nat>, k: nat)
    requires k < |drawn| && forall i :: 0 <= i < |drawn| ==> i + 1 <= drawn[i] <= |drawn|
    requires forall i, j :: 0 <= i < j < |drawn| ==> drawn[i] != drawn[j]
    ensures drawn[k] == k + 1
    decreases |drawn| - k
  {
    if drawn[k] != k + 1 {
      NoneBelowIsIdentity(drawn, drawn[k] - 1);
    }
  }

  /**
   * A table numbered once before and undone: the migration commits again exactly when the references
   * already follow the order, that is when numbers were drawn in the order of the timestamps.
   */
  lemma SecondRunCommitsExactly(apps: map<AppId, Application>, rows: seq<AppId>, drawn: seq<nat>)
    requires References(apps, rows, drawn)
    ensures NoneHeldLater(apps, rows) <==> forall k :: 0 <= k < |rows| ==> drawn[k] == k + 1
  {
    hide Reference, Holds;
    forall i, j | 0 <= i < j < |rows|
      ensures Holds(apps[rows[j]], i) <==> drawn[j] == i + 1
    {
      HoldsExactly(apps[rows[j]], i, drawn[j]);
    }
    if NoneHeldLater(apps, rows) {
      forall k | 0 <= k < |rows|
        ensures k + 1 <= drawn[k]
      {
        HoldsExactly(apps[rows[k]], drawn[k] - 1, drawn[k]);
      }
      forall k | 0 <= k < |rows|
        ensures drawn[k] == k + 1
      {
        NoneBelowIsIdentity(drawn, k);
      }
    }
  }

  /** Two applications whose numbers were drawn in the other order: renumbering the older one collides. */
  lemma SwappedNumbersAbort()
    ensures var apps := map[0 := Application(None, Reference(2)), 1 := Application(None, Reference(1))];
      !NoneHeldLater(apps, [0, 1])
  {
    hide Reference;
    var apps, rows := map[0 := Application(None, Reference(2)), 1 := Application(None, Reference(1))], [0, 1];
    assert rows[0] == 0 && rows[1] == 1 && Holds(apps[rows[1]], 0);
  }

  class Applications {
    var apps: map<AppId, Application>
    var numberSeq: Sequence

    /** The table and the sequence after `CREATE SEQUENCE IF NOT EXISTS`. */
    constructor (apps: map<AppId, Application>, numberSeq: Sequence)
      ensures this.apps == apps && this.numberSeq == numberSeq
    {
      this.apps, this.numberSeq := apps, numberSeq;
    }

    /** `rows` lists every application once, oldest first. */
    ghost predicate Lists(rows: seq<AppId>)
      reads this
    {
      && (forall i, j :: 0 <= i < j < |rows| ==> rows[i] != rows[j])
      && forall a :: a in apps <==> a in rows
    }

    /**
     * The migration. References are unique from the start, and each update is checked: it goes through
     * exactly when no application still holds the reference of an earlier place, and otherwise aborts and
     * changes nothing. Then the applications are numbered 1..n in order, numbers and references are
     * pairwise distinct, as the new index needs, and the next application gets n + 1.
     */
    method Upgrade(rows: seq<AppId>) returns (ok: bool)
      requires Lists(rows)
      modifies this
      ensures ok <==> NoneHeldLater(old(apps), rows)
      ensures !ok ==> apps == old(apps) && numberSeq == old(numberSeq)
      ensures ok ==> apps.Keys == old(apps).Keys
      ensures ok ==> forall i :: 0 <= i < |rows| ==> rows[i] in apps && apps[rows[i]] == Application(Some(i + 1), Reference(i + 1))
      ensures ok ==> forall a, b :: a in apps && b in apps && a != b ==>
                apps[a].number != apps[b].number && apps[a].reference != apps[b].reference
      ensures ok && rows != [] ==> numberSeq == Sequence(|rows|, true) && NextValue(numberSeq) == |rows| + 1
      ensures ok && rows == [] ==> numberSeq == old(numberSeq)
    {
      hide Reference, Holds, InUse, Renumbered, NoneHeldLater;
      var before := apps;
      var i := 0;
      Starts(rows);
      while i < |rows|
        invariant 0 <= i <= |rows| && numberSeq == old(numberSeq)
        invariant Renumbered(before, apps, rows, i)
      {
        if InUse(apps, rows[i], Reference(i + 1)) {
          Clash(before, apps, rows, i);
          apps := before;
          return false;
        }
        NoClash(before, apps, rows, i);
        apps := apps[rows[i] := Application(Some(i + 1), Reference(i + 1))];
        i := i + 1;
      }
      Ends(before, apps, rows);
      if rows != [] {
        var top := MaxNumber(rows);
        numberSeq := Sequence(top, true);
      }
      return true;
    }

    /** `SELECT MAX(application_number)`, over the rows. */
    method MaxNumber(ghost rows: seq<AppId>) returns (top: nat)
      requires rows != [] && forall a :: a in apps <==> a in rows
      requires forall k :: 0 <= k < |rows| ==> rows[k] in apps && apps[rows[k]].number == Some(k + 1)
      ensures top == |rows|
    {
      assert rows[|rows| - 1] in apps;
      var a :| a in apps && forall b :: b in apps ==> apps[b].number.Some? && apps[b].number.value <= apps[a].number.value;
      top := apps[a].number.value;
    }

    lemma Starts(rows: seq<AppId>)
      requires Lists(rows)
      ensures Renumbered(apps, apps, rows, 0)
    {
    }
  }

  /** The first `i` places are renumbered, the rest is as before, and nobody further on held their references. */
  ghost predicate Renumbered(before: map<AppId, Application>, now: map<AppId, Application>, rows: seq<AppId>, i: nat) {
    && before.Keys == now.Keys && Numbered(now, rows, i)
    && (forall k, j :: 0 <= k < j < |rows| ==> rows[k] != rows[j])
    && (forall a :: a in now <==> a in rows)
    && (forall k :: i <= k < |rows| ==> now[rows[k]] == before[rows[k]])
    && forall k, j :: 0 <= k < i && k < j < |rows| ==> !Holds(before[rows[j]], k)
  }

  /** A reference found in use is held further on: earlier places hold their own by now. */
  lemma Clash(before: map<AppId, Application>, now: map<AppId, Application>, rows: seq<AppId>, i: nat)
    requires i < |rows| && Renumbered(before, now, rows, i) && InUse(now, rows[i], Reference(i + 1))
    ensures !NoneHeldLater(before, rows)
  {
    hide Reference;
    var a :| a in now && a != rows[i] && now[a].reference == Reference(i + 1);
    var j :| 0 <= j < |rows| && rows[j] == a;
    if j < i {
      ReferenceInjective(i + 1, j + 1);
    } else {
      assert Holds(before[rows[j]], i);
    }
  }

  lemma NoClash(before: map<AppId, Application>, now: map<AppId, Application>, rows: seq<AppId>, i: nat)
    requires i < |rows| && Renumbered(before, now, rows, i) && !InUse(now, rows[i], Reference(i + 1))
    ensures Renumbered(before, now[rows[i] := Application(Some(i + 1), Reference(i + 1))], rows, i + 1)
  {
    hide Reference;
    forall j | i < j < |rows|
      ensures !Holds(before[rows[j]], i)
    {
      assert rows[j] in now && rows[j] != rows[i];
    }
  }

  lemma Ends(before: map<AppId, Application>, now: map<AppId, Application>, rows: seq<AppId>)
    requires Renumbered(before, now, rows, |rows|)
    ensures NoneHeldLater(before, rows) && Numbered(now, rows, |rows|) && before.Keys == now.Keys
    ensures forall a, b :: a in now && b in now && a != b ==> now[a].number != now[b].number && now[a].reference != now[b].reference
  {
    hide Reference;
    NumberedAreDistinct(now, rows);
  }
}
