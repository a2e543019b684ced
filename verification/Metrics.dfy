/** Daily metric buckets (src/metrics/store.ts). A day is the number of its midnight
    (UTC) since the epoch; times are milliseconds. */
module Metrics {
  import opened Sorting

  const DAY: int := 24 * 60 * 60 * 1000

  datatype Status = Complete | Failed | Cancelled | OtherStatus

  datatype Row = Row(
    startedAt: int, status: Status, duration: int, tokensAvailable: bool, input: int, output: int, tokens: int, cost: real)

  function DayOf(time: int): int {
    time / DAY
  }

  /** What a bucket holds. */
  datatype Totals = Totals(
    total: int, complete: int, failed: int, cancelled: int,
    available: bool, input: int, output: int, tokens: int, cost: real, runtime: int)

  const ZERO := Totals(0, 0, 0, 0, false, 0, 0, 0, 0.0, 0)

  function One(b: bool): int {
    if b then 1 else 0
  }

  /** accumulate */
  function Plus(t: Totals, r: Row): Totals {
    var counted := t.(
      total := t.total + 1, complete := t.complete + One(r.status.Complete?), failed := t.failed + One(r.status.Failed?),
      cancelled := t.cancelled + One(r.status.Cancelled?), runtime := t.runtime + r.duration);
    if !r.tokensAvailable then counted
    else
      counted.(available := true, input := t.input + r.input, output := t.output + r.output,
               tokens := t.tokens + r.tokens, cost := t.cost + r.cost)
  }

  /** The totals of the rows of one day. */
  function DayTotals(rows: seq<Row>, day: int): Totals {
    if rows == [] then ZERO
    else
      var before := DayTotals(rows[..|rows| - 1], day);
      if DayOf(rows[|rows| - 1].startedAt) == day then Plus(before, rows[|rows| - 1]) else before
  }

  function OfDay(rows: seq<Row>, day: int): seq<Row> {
    if rows == [] then [] else OfDay(rows[..|rows| - 1], day) + (if DayOf(rows[|rows| - 1].startedAt) == day then [rows[|rows| - 1]] else [])
  }

  /** WHERE started_at >= since */
  function Since(rows: seq<Row>, since: int): (r: seq<Row>)
    ensures forall x <- r :: x.startedAt >= since
  {
    if rows == [] then [] else (if rows[0].startedAt >= since then [rows[0]] else []) + Since(rows[1..], since)
  }

  const BY_START: (Row, Row) -> bool := (a: Row, b: Row) => a.startedAt <= b.startedAt

  /** The rows the range query returns. */
  function Query(stored: seq<Row>, since: int): seq<Row> {
    Sort(BY_START, Since(stored, since))
  }

  // ---------------------------------------------------- order does not matter

  lemma PlusCommutes(t: Totals, a: Row, b: Row)
    ensures Plus(Plus(t, a), b) == Plus(Plus(t, b), a)
  {
  }

  function Front(rows: seq<Row>): seq<Row>
    requires rows != []
  {
    rows[..|rows| - 1]
  }

  lemma {:induction false} FirstLast(x: Row, rows: seq<Row>, day: int)
    ensures DayTotals([x] + rows, day) ==
      if DayOf(x.startedAt) == day then Plus(DayTotals(rows, day), x) else DayTotals(rows, day)
    decreases |rows|
  {
    hide Plus;
    var all := [x] + rows;
    if rows == [] {
      assert all[..0] == [];
    } else {
      assert all[..|all| - 1] == [x] + Front(rows);
      FirstLast(x, Front(rows), day);
      PlusCommutes(DayTotals(Front(rows), day), x, rows[|rows| - 1]);
    }
  }

  lemma {:induction false} InsertTotals(x: Row, rows: seq<Row>, day: int)
    ensures DayTotals(Insert(BY_START, x, rows), day) == DayTotals([x] + rows, day)
    decreases |rows|
  {
    hide Plus, DayTotals;
    if rows != [] && !BY_START(x, rows[0]) {
      var y, rest := rows[0], rows[1..];
      InsertTotals(x, rest, day);
      FirstLast(y, Insert(BY_START, x, rest), day);
      FirstLast(x, rest, day);
      FirstLast(y, rest, day);
      FirstLast(x, rows, day);
      assert [y] + rest == rows;
      PlusCommutes(DayTotals(rest, day), x, y);
    }
  }

  lemma {:induction false} SortTotals(rows: seq<Row>, day: int)
    ensures DayTotals(Sort(BY_START, rows), day) == DayTotals(rows, day)
    decreases |rows|
  {
    hide Plus, DayTotals;
    if rows != [] {
      SortTotals(rows[1..], day);
      InsertTotals(rows[0], Sort(BY_START, rows[1..]), day);
      FirstLast(rows[0], Sort(BY_START, rows[1..]), day);
      FirstLast(rows[0], rows[1..], day);
      assert [rows[0]] + rows[1..] == rows;
    }
  }

  lemma {:induction false} SinceTotals(rows: seq<Row>, first: int, day: int)
    requires first <= day
    ensures DayTotals(Since(rows, first * DAY), day) == DayTotals(rows, day)
    decreases |rows|
  {
    hide Plus, DayTotals;
    if rows != [] {
      SinceTotals(rows[1..], first, day);
      FirstLast(rows[0], rows[1..], day);
      FirstLast(rows[0], Since(rows[1..], first * DAY), day);
      assert [rows[0]] + rows[1..] == rows;
      if rows[0].startedAt < first * DAY {
        assert DayOf(rows[0].startedAt) < first;
        assert [] + Since(rows[1..], first * DAY) == Since(rows[1..], first * DAY);
      }
    }
  }

  // -------------------------------------------------------------- the buckets

  class Bucket {
    const date: int
    var totals: Totals

    constructor (date: int)
      ensures this.date == date && totals == ZERO
    {
      this.date, totals := date, ZERO;
    }

    method Accumulate(row: Row)
      modifies this
      ensures totals == Plus(old(totals), row)
    {
      totals := totals.(total := totals.total + 1, runtime := totals.runtime + row.duration);
      match row.status {
        case Complete => totals := totals.(complete := totals.complete + 1);
        case Failed => totals := totals.(failed := totals.failed + 1);
        case Cancelled => totals := totals.(cancelled := totals.cancelled + 1);
        case OtherStatus =>
      }
      if row.tokensAvailable {
        totals := totals.(available := true, input := totals.input + row.input, output := totals.output + row.output,
                          tokens := totals.tokens + row.tokens, cost := totals.cost + row.cost);
      }
    }
  }

  method BuildEmptyBuckets(today: int, count: nat) returns (buckets: seq<Bucket>)
    ensures |buckets| == count && fresh(set b <- buckets)
    ensures forall i | 0 <= i < count :: buckets[i].date == today - count + 1 + i && buckets[i].totals == ZERO
    ensures forall i, j | 0 <= i < j < count :: buckets[i] != buckets[j]
  {
    buckets := [];
    var offset: int := count - 1;
    while offset >= 0
      invariant -1 <= offset < count && |buckets| == count - 1 - offset
      invariant fresh(set b <- buckets)
      invariant forall i | 0 <= i < |buckets| :: buckets[i].date == today - count + 1 + i && buckets[i].totals == ZERO
      invariant forall i, j | 0 <= i < j < |buckets| :: buckets[i] != buckets[j]
    {
      var bucket := new Bucket(today - offset);
      buckets := buckets + [bucket];
      offset := offset - 1;
    }
  }

  /** Each bucket ends with the totals of the stored rows of its day, oldest day first;
      the rows reach it through the map by date, which shares the objects of the list. */
  method TimeSeries(stored: seq<Row>, today: int, days: int) returns (buckets: seq<Bucket>)
    ensures |buckets| == (if days < 0 then 0 else days) && fresh(set b <- buckets)
    ensures forall i | 0 <= i < |buckets| ::
      buckets[i].date == today - |buckets| + 1 + i && buckets[i].totals == DayTotals(stored, buckets[i].date)
  {
    hide Plus, Query, DayOf;
    buckets := BuildEmptyBuckets(today, if days < 0 then 0 else days);
    var since := if |buckets| > 0 then buckets[0].date * DAY else 0;
    var rows := Query(stored, since);
    var byDate: map<int, Bucket> := map[];
    var i := 0;
    while i < |buckets|
      invariant 0 <= i <= |buckets|
      invariant forall d :: d in byDate <==> exists j :: 0 <= j < i && buckets[j].date == d
      invariant forall j | 0 <= j < i :: buckets[j].date in byDate && byDate[buckets[j].date] == buckets[j]
    {
      byDate := byDate[buckets[i].date := buckets[i]];
      i := i + 1;
    }
    i := 0;
    while i < |rows|
      invariant 0 <= i <= |rows|
      invariant forall j | 0 <= j < |buckets| :: buckets[j].totals == DayTotals(rows[..i], buckets[j].date)
    {
      var row := rows[i];
      assert rows[..i + 1][..i] == rows[..i] && rows[..i + 1][i] == row;
      var date := DayOf(row.startedAt);
      if date in byDate {
        byDate[date].Accumulate(row);
      }
      i := i + 1;
    }
    assert rows[..i] == rows;
    forall j | 0 <= j < |buckets|
      ensures DayTotals(rows, buckets[j].date) == DayTotals(stored, buckets[j].date)
    {
      QueryTotals(stored, buckets[0].date, buckets[j].date);
    }
  }

  lemma QueryTotals(stored: seq<Row>, first: int, day: int)
    requires first <= day
    ensures DayTotals(Query(stored, first * DAY), day) == DayTotals(stored, day)
  {
    SortTotals(Since(stored, first * DAY), day);
    SinceTotals(stored, first, day);
  }

  // ------------------------------------------------------------- conservation

  lemma {:induction false} TotalIsRowCount(rows: seq<Row>, day: int)
    ensures DayTotals(rows, day).total == |OfDay(rows, day)|
  {
    if rows != [] {
      TotalIsRowCount(rows[..|rows| - 1], day);
    }
  }

  /** The totals of `count` consecutive days. */
  function WindowTotal(rows: seq<Row>, first: int, count: nat): int {
    if count == 0 then 0 else WindowTotal(rows, first, count - 1) + DayTotals(rows, first + count - 1).total
  }

  function InWindow(rows: seq<Row>, first: int, count: nat): nat {
    if rows == [] then 0
    else InWindow(rows[..|rows| - 1], first, count) + (if first <= DayOf(rows[|rows| - 1].startedAt) < first + count then 1 else 0)
  }

  lemma {:induction false} WindowOfOneMore(rows: seq<Row>, first: int, count: nat)
    requires rows != []
    ensures WindowTotal(rows, first, count) ==
      WindowTotal(rows[..|rows| - 1], first, count) + (if first <= DayOf(rows[|rows| - 1].startedAt) < first + count then 1 else 0)
    decreases count
  {
    if count > 0 {
      WindowOfOneMore(rows, first, count - 1);
    }
  }

  lemma {:induction false} EmptyWindow(first: int, count: nat)
    ensures WindowTotal([], first, count) == 0
    decreases count
  {
    if count > 0 {
      EmptyWindow(first, count - 1);
    }
  }

  /** The bucket totals sum up to the number of stored rows inside the window: no row is
      counted twice, none is dropped, none comes from outside. */
  lemma {:induction false} RowsAreConserved(rows: seq<Row>, first: int, count: nat)
    ensures WindowTotal(rows, first, count) == InWindow(rows, first, count)
  {
    hide DayOf;
    if rows == [] {
      EmptyWindow(first, count);
    } else {
      RowsAreConserved(rows[..|rows| - 1], first, count);
      WindowOfOneMore(rows, first, count);
    }
  }

  /** Outcomes are counted once each: they never exceed the total, and fall short of it by
      the rows with another status. */
  lemma {:induction false} OutcomesWithinTotal(rows: seq<Row>, day: int)
    ensures var t := DayTotals(rows, day); var others := |OtherOutcomes(OfDay(rows, day))|;
      && 0 <= t.complete && 0 <= t.failed && 0 <= t.cancelled
      && t.complete + t.failed + t.cancelled + others == t.total
  {
    if rows != [] {
      OutcomesWithinTotal(rows[..|rows| - 1], day);
      var front := OfDay(rows[..|rows| - 1], day);
      var last := rows[|rows| - 1];
      if DayOf(last.startedAt) == day {
        assert (front + [last])[..|front|] == front;
      } else {
        assert front + [] == front;
      }
    }
  }

  function OtherOutcomes(rows: seq<Row>): seq<Row> {
    if rows == [] then []
    else OtherOutcomes(rows[..|rows| - 1]) + (if rows[|rows| - 1].status.OtherStatus? then [rows[|rows| - 1]] else [])
  }

  function WithUsage(rows: seq<Row>): seq<Row> {
    if rows == [] then []
    else WithUsage(rows[..|rows| - 1]) + (if rows[|rows| - 1].tokensAvailable then [rows[|rows| - 1]] else [])
  }

  predicate SameUsage(t: Totals, u: Totals) {
    && (t.input, t.output, t.tokens, t.cost, t.available) == (u.input, u.output, u.tokens, u.cost, u.available)
    && (u.available <==> u.total > 0) && u.total >= 0
    && (!u.available ==> u.input == 0 && u.output == 0 && u.tokens == 0 && u.cost == 0.0)
  }

  lemma UsageStep(t: Totals, u: Totals, r: Row)
    requires SameUsage(t, u)
    ensures if r.tokensAvailable then SameUsage(Plus(t, r), Plus(u, r)) else SameUsage(Plus(t, r), u)
  {
  }

  lemma DayTotalsAppend(rows: seq<Row>, r: Row, day: int)
    ensures DayTotals(rows + [r], day) == if DayOf(r.startedAt) == day then Plus(DayTotals(rows, day), r) else DayTotals(rows, day)
  {
    hide Plus;
    assert (rows + [r])[..|rows|] == rows;
  }

  /** Token sums come only from rows with usage: leaving the others out gives the same
      sums, and a bucket says it has usage exactly when one of its rows has. */
  lemma {:induction false} TokensOnlyFromUsage(rows: seq<Row>, day: int)
    ensures SameUsage(DayTotals(rows, day), DayTotals(WithUsage(rows), day))
  {
    hide Plus, DayTotals, DayOf;
    if rows == [] {
      EmptyTotals(day);
    } else {
      var front, last := rows[..|rows| - 1], rows[|rows| - 1];
      TokensOnlyFromUsage(front, day);
      assert rows == front + [last];
      DayTotalsAppend(front, last, day);
      DayTotalsAppend(WithUsage(front), last, day);
      UsageStep(DayTotals(front, day), DayTotals(WithUsage(front), day), last);
      assert WithUsage(front) + [] == WithUsage(front);
    }
  }

  function Sum(rows: seq<Row>, of: Row -> int): int {
    if rows == [] then 0 else Sum(rows[..|rows| - 1], of) + of(rows[|rows| - 1])
  }

  function SumOfCosts(rows: seq<Row>): real {
    if rows == [] then 0.0 else SumOfCosts(rows[..|rows| - 1]) + rows[|rows| - 1].cost
  }

  function HowMany(rows: seq<Row>, status: Status): int {
    Sum(rows, (r: Row) => if r.status == status then 1 else 0)
  }

  /** How many rows ended how, the sum of their run times, and the sums of the usage of those
      that report one. */
  predicate HoldsSums(t: Totals, all: seq<Row>, used: seq<Row>) {
    && t.complete == HowMany(all, Complete) && t.failed == HowMany(all, Failed) && t.cancelled == HowMany(all, Cancelled)
    && t.runtime == Sum(all, (r: Row) => r.duration)
    && t.input == Sum(used, (r: Row) => r.input) && t.output == Sum(used, (r: Row) => r.output)
    && t.tokens == Sum(used, (r: Row) => r.tokens) && t.cost == SumOfCosts(used)
  }

  lemma SumAppend(rows: seq<Row>, r: Row, of: Row -> int)
    ensures Sum(rows + [r], of) == Sum(rows, of) + of(r)
    ensures SumOfCosts(rows + [r]) == SumOfCosts(rows) + r.cost
  {
    assert (rows + [r])[..|rows|] == rows;
  }

  lemma CountedOnce(t: Totals, all: seq<Row>, used: seq<Row>, r: Row)
    requires HoldsSums(t, all, used)
    ensures HoldsSums(Plus(t, r), all + [r], if r.tokensAvailable then used + [r] else used)
  {
    hide Sum, SumOfCosts;
    SumAppend(all, r, (x: Row) => if x.status == Complete then 1 else 0);
    SumAppend(all, r, (x: Row) => if x.status == Failed then 1 else 0);
    SumAppend(all, r, (x: Row) => if x.status == Cancelled then 1 else 0);
    SumAppend(all, r, (x: Row) => x.duration);
    SumAppend(used, r, (x: Row) => x.input);
    SumAppend(used, r, (x: Row) => x.output);
    SumAppend(used, r, (x: Row) => x.tokens);
  }

  /** What stands in the bucket of a day. */
  lemma {:induction false} BucketsHoldSums(rows: seq<Row>, day: int)
    ensures HoldsSums(DayTotals(rows, day), OfDay(rows, day), WithUsage(OfDay(rows, day)))
  {
    hide HoldsSums, Plus, DayOf, DayTotals, OfDay, WithUsage;
    if rows == [] {
      NoSums(day);
    } else {
      var front, last := rows[..|rows| - 1], rows[|rows| - 1];
      assert rows == front + [last];
      BucketsHoldSums(front, day);
      DayTotalsAppend(front, last, day);
      OfDayAppend(front, last, day);
      WithUsageAppend(OfDay(front, day), last);
      if DayOf(last.startedAt) == day {
        CountedOnce(DayTotals(front, day), OfDay(front, day), WithUsage(OfDay(front, day)), last);
      }
    }
  }

  lemma OfDayAppend(rows: seq<Row>, r: Row, day: int)
    ensures OfDay(rows + [r], day) == if DayOf(r.startedAt) == day then OfDay(rows, day) + [r] else OfDay(rows, day)
  {
    assert (rows + [r])[..|rows|] == rows;
    assert OfDay(rows, day) + [] == OfDay(rows, day);
  }

  lemma WithUsageAppend(rows: seq<Row>, r: Row)
    ensures WithUsage(rows + [r]) == if r.tokensAvailable then WithUsage(rows) + [r] else WithUsage(rows)
  {
    assert (rows + [r])[..|rows|] == rows;
    assert WithUsage(rows) + [] == WithUsage(rows);
  }

  lemma NoSums(day: int)
    ensures HoldsSums(DayTotals([], day), OfDay([], day), WithUsage(OfDay([], day)))
  {
  }

  /** A day has 86 400 000 milliseconds. */
  lemma DaysAreWhole(day: int, time: int)
    requires 0 <= time < 86_400_000
    ensures DayOf(day * 86_400_000 + time) == day
  {
  }

  lemma EmptyTotals(day: int)
    ensures DayTotals([], day) == ZERO
  {
  }
}
