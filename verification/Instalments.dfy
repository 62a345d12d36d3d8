/** Instalment plans: how they are built, and how money falls through them. */
module Instalments {

  // ---------------------------------------------------------------- the calendar

  predicate Leap(year: int) { (year % 4 == 0 && year % 100 != 0) || year % 400 == 0 }

  /** Months are counted from January of year 0. */
  function DaysIn(month: int): (days: int)
    ensures 28 <= days <= 31
  {
    var year, m := month / 12, month % 12;
    if m == 1 then (if Leap(year) then 29 else 28)
    else if m == 3 || m == 5 || m == 8 || m == 10 then 30
    else 31
  }

  /** A date of the calendar; dates compare by month, then day, as their ISO texts do. */
  datatype Date = Date(month: nat, day: nat)

  predicate Valid(d: Date) { 1 <= d.day <= DaysIn(d.month) }

  predicate Before(a: Date, b: Date) { a.month < b.month || (a.month == b.month && a.day < b.day) }

  /** The day number of the first of a month. */
  function MonthStart(month: nat): int {
    if month == 0 then 0 else MonthStart(month - 1) + DaysIn(month - 1)
  }

  function DayNumber(d: Date): int { MonthStart(d.month) + d.day - 1 }

  /** The date that is `day - 1` days after the first of `month`: how a day past the end of the month is read. */
  function Normalised(month: nat, day: nat): (d: Date)
    requires day >= 1
    ensures Valid(d) && DayNumber(d) == MonthStart(month) + day - 1
    decreases day
  {
    if day <= DaysIn(month) then Date(month, day) else Normalised(month + 1, day - DaysIn(month))
  }

  /** `addMonths` */
  function AddMonths(d: Date, count: nat): Date
    requires Valid(d)
  {
    Normalised(d.month + count, d.day)
  }

  lemma {:induction false} StartsGrow(a: nat, b: nat)
    requires a <= b
    ensures MonthStart(a) + 28 * (b - a) <= MonthStart(b) <= MonthStart(a) + 31 * (b - a)
  {
    if a < b { StartsGrow(a, b - 1); }
  }

  lemma {:induction false} MonthEnds(a: nat, b: nat)
    requires a < b
    ensures MonthStart(a) + DaysIn(a) <= MonthStart(b)
  {
    if a + 1 < b { MonthEnds(a, b - 1); }
  }

  /** The calendar: 31 days in January, March, May, July, August, October and December, 30 in April, June, September and
      November, and in February 29 every fourth year, but of the centuries only in every fourth. */
  lemma CalendarIs(year: nat, m: nat)
    requires m < 12
    ensures var days := DaysIn(12 * year + m);
      && (m in {0, 2, 4, 6, 7, 9, 11} ==> days == 31) && (m in {3, 5, 8, 10} ==> days == 30)
      && (m == 1 ==> days == 28 || days == 29)
      && (m == 1 && year % 100 != 0 ==> (days == 29 <==> year % 4 == 0))
      && (m == 1 && year % 100 == 0 ==> (days == 29 <==> year / 100 % 4 == 0))
    ensures DayNumber(Date(0, 1)) == 0
  {
    assert (12 * year + m) / 12 == year && (12 * year + m) % 12 == m;
    assert year == year / 100 * 100 + year % 100;
    assert year / 100 == year / 100 / 4 * 4 + year / 100 % 4;
    assert year % 400 == year / 100 % 4 * 100 + year % 100;
  }

  /** Day numbers order valid dates as the dates order themselves; so no two valid dates share one. */
  lemma DayNumbersOrder(a: Date, b: Date)
    requires Valid(a) && Valid(b)
    ensures Before(a, b) <==> DayNumber(a) < DayNumber(b)
    ensures a == b <==> DayNumber(a) == DayNumber(b)
  {
    if a.month < b.month { MonthEnds(a.month, b.month); }
    if b.month < a.month { MonthEnds(b.month, a.month); }
  }

  /** Later instalments fall due strictly later, between 28 and 31 days a month, month ends or not. */
  lemma DueDatesIncrease(first: Date, i: nat, j: nat)
    requires Valid(first) && i < j
    ensures Before(AddMonths(first, i), AddMonths(first, j))
    ensures 28 * (j - i) <= DayNumber(AddMonths(first, j)) - DayNumber(AddMonths(first, i)) <= 31 * (j - i)
  {
    StartsGrow(first.month + i, first.month + j);
    DayNumbersOrder(AddMonths(first, i), AddMonths(first, j));
  }

  /** An instalment falls due on the same day of its own month exactly when that month has the day;
      otherwise it slips into the first days of the next month. */
  lemma DueInItsMonthIff(first: Date, k: nat)
    requires Valid(first)
    ensures var d := AddMonths(first, k);
      && (d.month == first.month + k <==> first.day <= DaysIn(first.month + k))
      && (d.month == first.month + k ==> d.day == first.day)
      && (d.month != first.month + k ==>
            d == Date(first.month + k + 1, first.day - DaysIn(first.month + k)) && d.day <= 3)
  {
    var slip := first.day - DaysIn(first.month + k);
    if slip > 0 { assert Normalised(first.month + k + 1, slip) == Date(first.month + k + 1, slip); }
  }

  /** From 31 January 2026, February has no instalment and March has two. */
  lemma MonthsCanBeSkipped()
    ensures Valid(Date(JANUARY_2026, 31))
    ensures AddMonths(Date(JANUARY_2026, 31), 1) == Date(JANUARY_2026 + 2, 3)
    ensures AddMonths(Date(JANUARY_2026, 31), 2) == Date(JANUARY_2026 + 2, 31)
  {
    assert !Leap(2026) && (JANUARY_2026 + 1) / 12 == 2026;
    assert DaysIn(JANUARY_2026) == 31 && DaysIn(JANUARY_2026 + 1) == 28 && DaysIn(JANUARY_2026 + 2) == 31;
    DueInItsMonthIff(Date(JANUARY_2026, 31), 1);
    DueInItsMonthIff(Date(JANUARY_2026, 31), 2);
  }

  const JANUARY_2026: nat := 24_312

  // ---------------------------------------------------------------- building a plan

  datatype Instalment = Instalment(number: nat, due: Date, cents: int)

  /** `buildInstallments` */
  function Build(total: int, down: int, count: nat, first: Date): seq<Instalment>
    requires count >= 1 && Valid(first)
  {
    if count == 1 then [Instalment(1, first, total)]
    else
      var rest := total - down;
      var regular := rest / (count - 1);
      seq(count, i requires 0 <= i < count =>
        Instalment(i + 1, AddMonths(first, i),
                   if i == 0 then down else if i == count - 1 then rest - regular * (count - 2) else regular))
  }

  function Total(plan: seq<Instalment>): int {
    if plan == [] then 0 else Total(plan[..|plan| - 1]) + plan[|plan| - 1].cents
  }

  lemma {:induction false} TotalUpTo(plan: seq<Instalment>, n: nat, down: int, regular: int)
    requires 1 <= n <= |plan| && plan[0].cents == down && forall i :: 1 <= i < n ==> plan[i].cents == regular
    ensures Total(plan[..n]) == down + regular * (n - 1)
  {
    assert plan[..n][..n - 1] == plan[..n - 1];
    if n == 1 {
      assert plan[..0] == [];
    } else {
      TotalUpTo(plan, n - 1, down, regular);
      assert regular * (n - 1) == regular * (n - 2) + regular;
    }
  }

  /** A plan adds up to its total to the cent, starts with the down payment, and spreads the rest
      evenly, with less than one cent a month left over for the last instalment. */
  lemma PlanAddsUp(total: int, down: int, count: nat, first: Date)
    requires count >= 1 && Valid(first)
    ensures var plan := Build(total, down, count, first);
      && |plan| == count && Total(plan) == total && plan[0].due == first
      && (forall i :: 0 <= i < count ==> plan[i].number == i + 1 && plan[i].due == AddMonths(first, i))
      && (count > 1 ==> plan[0].cents == down)
      && (count > 2 ==> forall i :: 1 <= i < count - 1 ==> plan[i].cents == plan[1].cents)
      && (count > 2 ==> 0 <= plan[count - 1].cents - plan[1].cents < count - 1)
  {
    var plan := Build(total, down, count, first);
    if count == 1 {
      assert plan[..0] == [];
    } else {
      var rest := total - down;
      var regular := rest / (count - 1);
      assert rest == regular * (count - 1) + rest % (count - 1);
      assert regular * (count - 1) == regular * (count - 2) + regular;
      TotalUpTo(plan, count - 1, down, regular);
    }
  }

  // ---------------------------------------------------------------- the waterfall

  datatype Status = Paid | Partial | PartialOverdue | Overdue | Due | Scheduled

  datatype Row = Row(due: Date, dueCents: int, paid: int, remaining: int, status: Status)

  /** `statusFor` */
  function StatusFor(paid: int, dueCents: int, due: Date, asOf: Date): Status {
    if paid >= dueCents then Paid
    else if paid > 0 then (if Before(due, asOf) then PartialOverdue else Partial)
    else if Before(due, asOf) then Overdue
    else if due == asOf then Due
    else Scheduled
  }

  /** What each status says of the money a row got and of its due date against the day. */
  lemma StatusIs(paid: int, dueCents: int, due: Date, asOf: Date)
    requires 0 <= paid <= dueCents
    ensures var status := StatusFor(paid, dueCents, due, asOf);
      var late := due.month < asOf.month || (due.month == asOf.month && due.day < asOf.day);
      && (status == Paid <==> paid == dueCents)
      && (status == PartialOverdue <==> 0 < paid < dueCents && late)
      && (status == Partial <==> 0 < paid < dueCents && !late)
      && (status == Overdue <==> paid == 0 < dueCents && late)
      && (status == Due <==> paid == 0 < dueCents && due == asOf)
      && (status == Scheduled <==> paid == 0 < dueCents && !late && due != asOf)
  {
  }

  function Min(a: int, b: int): int { if a < b then a else b }

  function Settled(row: Row, amount: int, asOf: Date): Row {
    var paid := Min(amount, row.dueCents);
    row.(paid := paid, remaining := row.dueCents - paid, status := StatusFor(paid, row.dueCents, row.due, asOf))
  }

  function Left(rows: seq<Row>, amount: int): int {
    if rows == [] then amount
    else var left := Left(rows[..|rows| - 1], amount); left - Min(left, rows[|rows| - 1].dueCents)
  }

  function Allocated(rows: seq<Row>, amount: int, asOf: Date): seq<Row> {
    if rows == [] then []
    else
      Allocated(rows[..|rows| - 1], amount, asOf)
      + [Settled(rows[|rows| - 1], Left(rows[..|rows| - 1], amount), asOf)]
  }

  /** The waterfall of `buildOfflineRepaymentOverview`, over one plan's rows. */
  method Allocate(rows: array<Row>, money: int, asOf: Date)
    modifies rows
    ensures rows[..] == Allocated(old(rows[..]), if money < 0 then 0 else money, asOf)
  {
    var amount := if money < 0 then 0 else money;
    ghost var before, all := rows[..], amount;
    for i := 0 to rows.Length
      invariant amount == Left(before[..i], all)
      invariant rows[..i] == Allocated(before[..i], all, asOf)
      invariant forall k :: i <= k < rows.Length ==> rows[k] == before[k]
    {
      var row := rows[i];
      var share := Min(amount, row.dueCents);
      rows[i] := row.(paid := share, remaining := row.dueCents - share,
                      status := StatusFor(share, row.dueCents, row.due, asOf));
      amount := amount - share;
      AllocatedPush(before, i, all, asOf);
      assert rows[..i + 1] == rows[..i] + [rows[i]];
    }
    assert before[..|before|] == before;
    assert rows[..] == rows[..rows.Length];
  }

  lemma AllocatedPush(rows: seq<Row>, i: nat, amount: int, asOf: Date)
    requires i < |rows|
    ensures Allocated(rows[..i + 1], amount, asOf)
      == Allocated(rows[..i], amount, asOf) + [Settled(rows[i], Left(rows[..i], amount), asOf)]
    ensures Left(rows[..i + 1], amount) == Left(rows[..i], amount) - Min(Left(rows[..i], amount), rows[i].dueCents)
  {
    assert rows[..i + 1][..i] == rows[..i];
  }

  function DueTotal(rows: seq<Row>): int {
    if rows == [] then 0 else DueTotal(rows[..|rows| - 1]) + rows[|rows| - 1].dueCents
  }

  function PaidTotal(rows: seq<Row>): int {
    if rows == [] then 0 else PaidTotal(rows[..|rows| - 1]) + rows[|rows| - 1].paid
  }

  predicate NoNegativeDues(rows: seq<Row>) { forall i :: 0 <= i < |rows| ==> rows[i].dueCents >= 0 }

  /** What each row gets: the money minus all earlier dues, cut to between nothing and its due. */
  lemma {:induction false} RowGets(rows: seq<Row>, amount: int, asOf: Date, i: nat)
    requires NoNegativeDues(rows) && amount >= 0 && i < |rows|
    ensures |Allocated(rows, amount, asOf)| == |rows|
    ensures var available := amount - DueTotal(rows[..i]);
      Allocated(rows, amount, asOf)[i] == Settled(rows[i], if available < 0 then 0 else available, asOf)
    ensures Left(rows, amount) == (if amount < DueTotal(rows) then 0 else amount - DueTotal(rows))
  {
    var front := rows[..|rows| - 1];
    if |rows| > 1 {
      RowGets(front, amount, asOf, if i < |rows| - 1 then i else 0);
    } else {
      assert front == [];
    }
    if i < |rows| - 1 { assert front[..i] == rows[..i]; }
  }

  /** Money is neither lost nor made: what the rows get is the smaller of the money and the dues. */
  lemma {:induction false} PaidIsMin(rows: seq<Row>, amount: int, asOf: Date)
    requires NoNegativeDues(rows) && amount >= 0
    ensures |Allocated(rows, amount, asOf)| == |rows|
    ensures PaidTotal(Allocated(rows, amount, asOf)) == Min(amount, DueTotal(rows))
    ensures PaidTotal(Allocated(rows, amount, asOf)) + Left(rows, amount) == amount
  {
    if rows != [] {
      var front := rows[..|rows| - 1];
      PaidIsMin(front, amount, asOf);
      assert Allocated(rows, amount, asOf)[..|rows| - 1] == Allocated(front, amount, asOf);
      RowGets(rows, amount, asOf, |rows| - 1);
    }
  }

  lemma {:induction false} DuesGrow(rows: seq<Row>, i: nat, j: nat)
    requires NoNegativeDues(rows) && i < j <= |rows|
    ensures DueTotal(rows[..i]) + rows[i].dueCents <= DueTotal(rows[..j])
  {
    if j == i + 1 {
      assert rows[..j][..i] == rows[..i];
    } else {
      DuesGrow(rows, i, j - 1);
      assert rows[..j][..j - 1] == rows[..j - 1];
    }
  }

  /** Every row stays within its due, a later row gets money only when every earlier one is full, and
      more money never takes any row's money away. */
  lemma WaterfallIsOrdered(rows: seq<Row>, amount: int, more: int, asOf: Date, i: nat, j: nat)
    requires NoNegativeDues(rows) && 0 <= amount <= more && i < j < |rows|
    ensures |Allocated(rows, amount, asOf)| == |rows| == |Allocated(rows, more, asOf)|
    ensures var out := Allocated(rows, amount, asOf);
      && 0 <= out[i].paid <= out[i].dueCents == rows[i].dueCents && out[i].remaining == out[i].dueCents - out[i].paid
      && (out[j].paid > 0 ==> out[i].remaining == 0)
      && out[i].paid <= Allocated(rows, more, asOf)[i].paid && out[j].paid <= Allocated(rows, more, asOf)[j].paid
  {
    RowGets(rows, amount, asOf, i);
    RowGets(rows, amount, asOf, j);
    RowGets(rows, more, asOf, i);
    RowGets(rows, more, asOf, j);
    DuesGrow(rows, i, j);
  }

  function OverdueCents(rows: seq<Row>): int {
    if rows == [] then 0
    else
      var last := rows[|rows| - 1];
      OverdueCents(rows[..|rows| - 1])
      + if last.status == Overdue || last.status == PartialOverdue then last.remaining else 0
  }

  function PastDue(rows: seq<Row>, asOf: Date): int {
    if rows == [] then 0
    else PastDue(rows[..|rows| - 1], asOf) + if Before(rows[|rows| - 1].due, asOf) then rows[|rows| - 1].dueCents else 0
  }

  /** The statuses lose nothing: with the rows in order of their due dates, the overdue sum read off
      the statuses is what has fallen due before the day and the money has not covered. */
  lemma {:induction false} OverdueIs(rows: seq<Row>, amount: int, asOf: Date)
    requires NoNegativeDues(rows) && amount >= 0
    requires forall i, j :: 0 <= i < j < |rows| ==> Before(rows[i].due, rows[j].due)
    ensures |Allocated(rows, amount, asOf)| == |rows|
    ensures OverdueCents(Allocated(rows, amount, asOf))
      == (if amount < PastDue(rows, asOf) then PastDue(rows, asOf) - amount else 0)
  {
    if rows != [] {
      var front, last := rows[..|rows| - 1], rows[|rows| - 1];
      OverdueIs(front, amount, asOf);
      RowGets(rows, amount, asOf, |rows| - 1);
      assert Allocated(rows, amount, asOf)[..|rows| - 1] == Allocated(front, amount, asOf);
      if Before(last.due, asOf) { AllPast(front, last.due, asOf); }
    }
  }

  lemma {:induction false} AllPast(rows: seq<Row>, last: Date, asOf: Date)
    requires Before(last, asOf) && forall i :: 0 <= i < |rows| ==> Before(rows[i].due, last)
    ensures PastDue(rows, asOf) == DueTotal(rows)
  {
    if rows != [] { AllPast(rows[..|rows| - 1], last, asOf); }
  }

  // ---------------------------------------------------------------- a stored schedule under the waterfall

  datatype PlanStatus = PendingReview | Active | Completed

  /** The status the overview shows; a plan only proposed is never called completed. */
  function StatusOf(proposed: bool, rows: seq<Row>, total: int): PlanStatus {
    if proposed then PendingReview else if PaidTotal(rows) >= total then Completed else Active
  }

  /** The overview calls a plan completed exactly when it is more than proposed and the money and the
      stored schedule's dues both reach its total. */
  lemma PlanPaidIff(rows: seq<Row>, proposed: bool, total: int, money: nat, asOf: Date)
    requires NoNegativeDues(rows)
    ensures var status := StatusOf(proposed, Allocated(rows, money, asOf), total);
      && (status == Completed <==> !proposed && money >= total && DueTotal(rows) >= total)
      && (status == PendingReview <==> proposed)
  {
    PaidIsMin(rows, money, asOf);
  }

  /** Every row of a schedule is paid exactly when the money covers all its dues. */
  lemma AllPaidIff(rows: seq<Row>, money: nat, asOf: Date)
    requires NoNegativeDues(rows)
    ensures |Allocated(rows, money, asOf)| == |rows|
    ensures (forall i :: 0 <= i < |rows| ==> Allocated(rows, money, asOf)[i].remaining == 0) <==>
      money >= DueTotal(rows)
  {
    PaidIsMin(rows, money, asOf);
    if money >= DueTotal(rows) {
      forall i | 0 <= i < |rows| ensures Allocated(rows, money, asOf)[i].remaining == 0 {
        RowGets(rows, money, asOf, i);
        DuesGrow(rows, i, |rows|);
        assert rows[..|rows|] == rows;
      }
    } else {
      PaidInFull(rows, Allocated(rows, money, asOf), money, asOf);
    }
  }

  /** Rows with nothing remaining were paid their dues. */
  lemma {:induction false} PaidInFull(rows: seq<Row>, out: seq<Row>, money: nat, asOf: Date)
    requires NoNegativeDues(rows) && out == Allocated(rows, money, asOf) && |out| == |rows|
    ensures (forall i :: 0 <= i < |rows| ==> out[i].remaining == 0) ==> PaidTotal(out) == DueTotal(rows)
  {
    if rows != [] {
      var front := rows[..|rows| - 1];
      PaidIsMin(front, money, asOf);
      PaidInFull(front, Allocated(front, money, asOf), money, asOf);
      assert out[..|out| - 1] == Allocated(front, money, asOf);
      RowGets(rows, money, asOf, |rows| - 1);
    }
  }
}
