/** The balance projection and the contribution solver. The current date is a
    parameter; the code reads it from the clock. */
module Calculation {
  import opened Calendar
  import opened BudgetModel
  import opened PurchaseOrder
  import opened Timeline
  import opened Sequences

  /** Months of month-end points shown when a budget has no purchases. */
  const YearAheadMonths := 12

  /** Months the projection runs past the later of today and the last purchase. */
  const LookaheadMonths := 3

  // ---------------------------------------------------------------------
  // The projection, as functions.

  /** With no purchases: today's balance, then one point at the end of this month
      and of each of the next eleven, each adding the monthly contribution. */
  function YearAhead(budget: Budget, today: CalendarDate): (r: seq<DataPoint>)
    ensures |r| == YearAheadMonths + 1
    ensures r[0] == DataPoint(today, budget.initialValue)
  {
    [DataPoint(today, budget.initialValue)]
    + seq(YearAheadMonths, i requires 0 <= i < YearAheadMonths => MonthEndPoint(budget, today, i + 1))
  }

  /** Point `i` of the year ahead: the last day of the `i`-th month, counting
      the current month as the first, after `i` contributions. */
  function MonthEndPoint(budget: Budget, today: CalendarDate, i: nat): (r: DataPoint)
    ensures r.date == LastDayOfMonthIndex(MonthIndex(today) + i - 1)
  {
    DataPoint(EndOfMonth(today.year, today.month - 1 + i - 1),
              budget.initialValue + Repeated(i, budget.monthlyContribution))
  }

  /** The first day of the projection window: the earlier of today and the first sorted purchase. */
  function WindowStart(budget: Budget, today: CalendarDate): (r: CalendarDate)
    requires |budget.purchases| > 0
    ensures r == MinDate(today, EarliestDate(budget.purchases))
  {
    var sorted := SortByDate(budget.purchases);
    SortByDateEnds(budget.purchases);
    MinDate(today, sorted[0].date)
  }

  /** The last day of the projection window: three months after the later of
      the last sorted purchase and today. */
  function WindowEnd(budget: Budget, today: CalendarDate): (r: CalendarDate)
    requires |budget.purchases| > 0
    ensures r == AddMonths(MaxDate(LatestDate(budget.purchases), today), LookaheadMonths)
  {
    var sorted := SortByDate(budget.purchases);
    SortByDateEnds(budget.purchases);
    AddMonths(MaxDate(sorted[|sorted| - 1].date, today), LookaheadMonths)
  }

  /** The events of the day-by-day walk over the window. */
  function ProjectionEvents(budget: Budget, today: CalendarDate): (r: seq<Event>)
    requires |budget.purchases| > 0
    ensures forall i :: 0 <= i < |r| ==>
      NotAfter(WindowStart(budget, today), EventDate(r[i])) && NotAfter(EventDate(r[i]), WindowEnd(budget, today))
  {
    Events(WindowStart(budget, today), WindowEnd(budget, today), SortByDate(budget.purchases))
  }

  /** `calculateBalanceOverTime`: the year ahead without purchases, otherwise
      the window's first day at the initial value followed by one point per
      event of the walk. */
  function Projection(budget: Budget, today: CalendarDate): (r: seq<DataPoint>)
    ensures r != [] && r[0].balance == budget.initialValue
    ensures |budget.purchases| == 0 ==> |r| == YearAheadMonths + 1 && r[0].date == today
    ensures |budget.purchases| > 0 ==>
      |r| == |ProjectionEvents(budget, today)| + 1 && r[0].date == WindowStart(budget, today)
  {
    if |budget.purchases| == 0 then YearAhead(budget, today)
    else
      [DataPoint(WindowStart(budget, today), budget.initialValue)]
      + Accumulate(budget.initialValue, budget.monthlyContribution, ProjectionEvents(budget, today))
  }

  // ---------------------------------------------------------------------
  // The projection, as the code computes it.

  /** What is left of a day's events once the scan of its purchases has reached `ps`. */
  ghost function DayOnward(day: CalendarDate, stop: CalendarDate, ps: seq<Purchase>): seq<Event> {
    var drained := Drain(day, ps);
    Spends(drained.0) + AfterPurchases(day, stop, drained.1)
  }

  /** What is left of the walk once the purchases of `day` are done. */
  ghost function AfterPurchases(day: CalendarDate, stop: CalendarDate, rest: seq<Purchase>): seq<Event> {
    MonthEvent(day) + Events(NextDay(day), stop, rest)
  }

  /** The walk from a day that is not past the end begins with that day's events. */
  lemma WalkFromDay(day: CalendarDate, stop: CalendarDate, ps: seq<Purchase>)
    requires NotAfter(day, stop)
    ensures Events(day, stop, ps) == DayOnward(day, stop, ps)
  {
  }

  /** The scan of a day's purchases: with none left, or the next one later,
      only the month-end check and the following days remain. */
  lemma ScanDone(day: CalendarDate, stop: CalendarDate, ps: seq<Purchase>)
    requires ps == [] || Before(day, ps[0].date)
    ensures DayOnward(day, stop, ps) == AfterPurchases(day, stop, ps)
  {
  }

  /** A purchase dated on the day is spent first. */
  lemma ScanSpend(day: CalendarDate, stop: CalendarDate, ps: seq<Purchase>)
    requires ps != [] && ps[0].date == day
    ensures DayOnward(day, stop, ps) == [Spend(ps[0])] + DayOnward(day, stop, ps[1..])
  {
    var rest := Drain(day, ps[1..]);
    assert Drain(day, ps) == ([ps[0]] + rest.0, rest.1);
    assert Spends([ps[0]] + rest.0) == [Spend(ps[0])] + Spends(rest.0);
  }

  /** A purchase dated before the day is passed over. */
  lemma ScanSkip(day: CalendarDate, stop: CalendarDate, ps: seq<Purchase>)
    requires ps != [] && ps[0].date != day && !Before(day, ps[0].date)
    ensures DayOnward(day, stop, ps) == DayOnward(day, stop, ps[1..])
  {
    assert Drain(day, ps) == Drain(day, ps[1..]);
  }

  lemma AccumulateCons(balance: real, mc: real, e: Event, es: seq<Event>)
    ensures Accumulate(balance, mc, [e] + es)
      == [DataPoint(EventDate(e), balance + Delta(e, mc))] + Accumulate(balance + Delta(e, mc), mc, es)
  {
    assert ([e] + es)[0] == e && ([e] + es)[1..] == es;
  }

  /** The invariant of the projection loop: the points produced so far,
      followed by the points the remaining events produce from the current
      balance, are the whole projection. */
  ghost predicate OnTrack(points: seq<DataPoint>, balance: real, mc: real, es: seq<Event>, target: seq<DataPoint>) {
    points + Accumulate(balance, mc, es) == target
  }

  // One lemma per step of the loops below: each carries the loop invariant
  // "points so far + points still to come == the projection" across the step.

  lemma YearAheadStep(budget: Budget, today: CalendarDate, i: int, points: seq<DataPoint>,
                      date: CalendarDate, balance: real)
    requires 1 <= i <= YearAheadMonths
    requires points == YearAhead(budget, today)[..i]
    requires date == EndOfMonth(today.year, today.month - 1 + i - 1)
    requires balance == budget.initialValue + Repeated(i, budget.monthlyContribution)
    ensures points + [DataPoint(date, balance)] == YearAhead(budget, today)[..i + 1]
  {
    var all := YearAhead(budget, today);
    YearAheadAt(budget, today, i);
    assert all[..i + 1] == all[..i] + [all[i]];
  }

  lemma SpendStep(points: seq<DataPoint>, balance: real, mc: real, day: CalendarDate, stop: CalendarDate,
                  ps: seq<Purchase>, k: int, target: seq<DataPoint>, after: real, next: int)
    requires 0 <= k < |ps| && ps[k].date == day
    requires OnTrack(points, balance, mc, DayOnward(day, stop, ps[k..]), target)
    requires after == balance - ps[k].amount && next == k + 1
    ensures OnTrack(points + [DataPoint(day, after)], after, mc, DayOnward(day, stop, ps[next..]), target)
  {
    assert ps[k..][1..] == ps[next..];
    ScanSpend(day, stop, ps[k..]);
    AccumulateCons(balance, mc, Spend(ps[k]), DayOnward(day, stop, ps[next..]));
  }

  lemma SkipStep(points: seq<DataPoint>, balance: real, mc: real, day: CalendarDate, stop: CalendarDate,
                 ps: seq<Purchase>, k: int, target: seq<DataPoint>, next: int)
    requires 0 <= k < |ps| && ps[k].date != day && !Before(day, ps[k].date)
    requires OnTrack(points, balance, mc, DayOnward(day, stop, ps[k..]), target)
    requires next == k + 1
    ensures OnTrack(points, balance, mc, DayOnward(day, stop, ps[next..]), target)
  {
    assert ps[k..][1..] == ps[next..];
    ScanSkip(day, stop, ps[k..]);
  }

  lemma ScanEnd(points: seq<DataPoint>, balance: real, mc: real, day: CalendarDate, stop: CalendarDate,
                ps: seq<Purchase>, k: int, target: seq<DataPoint>)
    requires 0 <= k <= |ps|
    requires k == |ps| || Before(day, ps[k].date)
    requires OnTrack(points, balance, mc, DayOnward(day, stop, ps[k..]), target)
    ensures OnTrack(points, balance, mc, AfterPurchases(day, stop, ps[k..]), target)
  {
    ScanDone(day, stop, ps[k..]);
  }

  lemma DayStart(points: seq<DataPoint>, balance: real, mc: real, day: CalendarDate, stop: CalendarDate,
                 ps: seq<Purchase>, target: seq<DataPoint>)
    requires NotAfter(day, stop)
    requires OnTrack(points, balance, mc, Events(day, stop, ps), target)
    ensures OnTrack(points, balance, mc, DayOnward(day, stop, ps), target)
  {
    WalkFromDay(day, stop, ps);
  }

  lemma MonthEndStep(points: seq<DataPoint>, balance: real, mc: real, day: CalendarDate, stop: CalendarDate,
                     ps: seq<Purchase>, target: seq<DataPoint>, after: real)
    requires IsMonthEnd(day)
    requires OnTrack(points, balance, mc, AfterPurchases(day, stop, ps), target)
    requires after == balance + mc
    ensures OnTrack(points + [DataPoint(day, after)], after, mc, Events(NextDay(day), stop, ps), target)
  {
    var later := Events(NextDay(day), stop, ps);
    assert AfterPurchases(day, stop, ps) == [Contribute(day)] + later;
    AccumulateCons(balance, mc, Contribute(day), later);
    AppendAssoc(points, [DataPoint(day, after)], Accumulate(after, mc, later));
  }

  lemma MidMonthStep(points: seq<DataPoint>, balance: real, mc: real, day: CalendarDate, stop: CalendarDate,
                     ps: seq<Purchase>, target: seq<DataPoint>)
    requires !IsMonthEnd(day)
    requires OnTrack(points, balance, mc, AfterPurchases(day, stop, ps), target)
    ensures OnTrack(points, balance, mc, Events(NextDay(day), stop, ps), target)
  {
    var later := Events(NextDay(day), stop, ps);
    assert AfterPurchases(day, stop, ps) == [] + later == later;
  }

  lemma WalkOver(points: seq<DataPoint>, balance: real, mc: real, day: CalendarDate, stop: CalendarDate,
                 ps: seq<Purchase>, target: seq<DataPoint>)
    requires Before(stop, day)
    requires OnTrack(points, balance, mc, Events(day, stop, ps), target)
    ensures points == target
  {
  }

  /** `calculateBalanceOverTime`. */
  method CalculateBalanceOverTime(budget: Budget, today: CalendarDate) returns (dataPoints: seq<DataPoint>)
    ensures dataPoints == Projection(budget, today)
  {
    if |budget.purchases| == 0 {
      dataPoints := YearAheadPoints(budget, today);
      return;
    }

    var sorted := SortByDate(budget.purchases);
    var firstPurchaseDate := sorted[0].date;
    var lastPurchaseDate := sorted[|sorted| - 1].date;
    var startDate := MinDate(today, firstPurchaseDate);
    var endDate := MaxDate(lastPurchaseDate, today);
    endDate := AddMonths(endDate, LookaheadMonths);
    dataPoints := WalkWindow(sorted, startDate, endDate, budget.initialValue, budget.monthlyContribution);
  }

  /** The branch of `calculateBalanceOverTime` for a budget without purchases. */
  method YearAheadPoints(budget: Budget, today: CalendarDate) returns (dataPoints: seq<DataPoint>)
    ensures dataPoints == YearAhead(budget, today)
  {
    var mc := budget.monthlyContribution;
    var balance := budget.initialValue;
    dataPoints := [DataPoint(today, balance)];
    ghost var expected := YearAhead(budget, today);
    assert dataPoints == expected[..1];
    for i := 1 to YearAheadMonths + 1
      invariant balance == budget.initialValue + Repeated(i - 1, mc)
      invariant dataPoints == expected[..i]
    {
      // new Date(year, month0 + i, 0) is the last day of month0 + i - 1
      var futureDate := EndOfMonth(today.year, today.month - 1 + i - 1);
      balance := balance + mc;
      YearAheadStep(budget, today, i, dataPoints, futureDate, balance);
      dataPoints := dataPoints + [DataPoint(futureDate, balance)];
    }
    assert expected[..YearAheadMonths + 1] == expected;
  }

  /** The day-by-day walk of `calculateBalanceOverTime` from `startDate` through
      `endDate` over the sorted purchases. */
  method WalkWindow(sorted: seq<Purchase>, startDate: CalendarDate, endDate: CalendarDate, initialValue: real, mc: real)
    returns (dataPoints: seq<DataPoint>)
    ensures dataPoints == [DataPoint(startDate, initialValue)] + Accumulate(initialValue, mc, Events(startDate, endDate, sorted))
  {
    var balance := initialValue;
    var currentDate := startDate;
    var purchaseIndex := 0;
    dataPoints := [DataPoint(currentDate, balance)];
    assert sorted[purchaseIndex..] == sorted;
    ghost var target := dataPoints + Accumulate(balance, mc, Events(currentDate, endDate, sorted[purchaseIndex..]));

    while NotAfter(currentDate, endDate)
      invariant 0 <= purchaseIndex <= |sorted|
      invariant OnTrack(dataPoints, balance, mc, Events(currentDate, endDate, sorted[purchaseIndex..]), target)
      decreases DayKey(endDate) - DayKey(currentDate)
    {
      DayKeyOrder(currentDate, endDate);
      DayStart(dataPoints, balance, mc, currentDate, endDate, sorted[purchaseIndex..], target);
      while purchaseIndex < |sorted|
        invariant 0 <= purchaseIndex <= |sorted|
        invariant OnTrack(dataPoints, balance, mc, DayOnward(currentDate, endDate, sorted[purchaseIndex..]), target)
      {
        var purchase := sorted[purchaseIndex];
        ghost var pointsBefore, balanceBefore, indexBefore := dataPoints, balance, purchaseIndex;
        if purchase.date == currentDate {
          balance := balance - purchase.amount;
          dataPoints := dataPoints + [DataPoint(currentDate, balance)];
          purchaseIndex := purchaseIndex + 1;
          SpendStep(pointsBefore, balanceBefore, mc, currentDate, endDate, sorted, indexBefore, target, balance, purchaseIndex);
        } else if Before(currentDate, purchase.date) {
          ScanEnd(dataPoints, balance, mc, currentDate, endDate, sorted, purchaseIndex, target);
          break;
        } else {
          purchaseIndex := purchaseIndex + 1;
          SkipStep(dataPoints, balance, mc, currentDate, endDate, sorted, indexBefore, target, purchaseIndex);
        }
      }
      if purchaseIndex == |sorted| {
        ScanEnd(dataPoints, balance, mc, currentDate, endDate, sorted, purchaseIndex, target);
      }

      var nextDay := NextDay(currentDate);
      MonthEndTest(currentDate);
      if nextDay.month != currentDate.month {
        ghost var pointsBefore, balanceBefore := dataPoints, balance;
        balance := balance + mc;
        dataPoints := dataPoints + [DataPoint(currentDate, balance)];
        MonthEndStep(pointsBefore, balanceBefore, mc, currentDate, endDate, sorted[purchaseIndex..], target, balance);
      } else {
        MidMonthStep(dataPoints, balance, mc, currentDate, endDate, sorted[purchaseIndex..], target);
      }
      currentDate := nextDay;
    }
    WalkOver(dataPoints, balance, mc, currentDate, endDate, sorted[purchaseIndex..], target);
  }

  // ---------------------------------------------------------------------
  // What the projection promises.

  lemma YearAheadAt(budget: Budget, today: CalendarDate, i: int)
    requires 1 <= i <= YearAheadMonths
    ensures |YearAhead(budget, today)| == YearAheadMonths + 1
    ensures YearAhead(budget, today)[i] == MonthEndPoint(budget, today, i)
  {
    var tail := seq(YearAheadMonths, i requires 0 <= i < YearAheadMonths => MonthEndPoint(budget, today, i + 1));
    assert tail[i - 1] == MonthEndPoint(budget, today, i);
    ConsAt(DataPoint(today, budget.initialValue), tail, i);
  }

  lemma ConsAt(first: DataPoint, rest: seq<DataPoint>, i: int)
    requires 1 <= i <= |rest|
    ensures ([first] + rest)[i] == rest[i - 1]
  {
  }

  /** With no purchases: thirteen points, point `i` holding the initial value
      plus `i` contributions. */
  lemma YearAheadBalances(budget: Budget, today: CalendarDate)
    requires |budget.purchases| == 0
    ensures var points := Projection(budget, today);
      && |points| == 13
      && points[0] == DataPoint(today, budget.initialValue)
      && forall i :: 0 <= i < 13 ==>
           points[i].balance == budget.initialValue + (i as real) * budget.monthlyContribution
  {
    var points := Projection(budget, today);
    assert points == YearAhead(budget, today);
    forall i | 0 <= i < 13
      ensures points[i].balance == budget.initialValue + (i as real) * budget.monthlyContribution
    {
      YearAheadBalanceAt(budget, today, i);
    }
  }

  lemma YearAheadBalanceAt(budget: Budget, today: CalendarDate, i: int)
    requires 0 <= i <= YearAheadMonths
    ensures |YearAhead(budget, today)| == YearAheadMonths + 1
    ensures YearAhead(budget, today)[i].balance == budget.initialValue + (i as real) * budget.monthlyContribution
  {
    if i == 0 {
      assert (0 as real) * budget.monthlyContribution == 0.0;
    } else {
      YearAheadAt(budget, today, i);
      MonthEndPointBalance(budget, today, i);
    }
  }

  /** Point `i` of the year ahead holds `i` contributions. */
  lemma MonthEndPointBalance(budget: Budget, today: CalendarDate, i: nat)
    ensures MonthEndPoint(budget, today, i).balance == budget.initialValue + (i as real) * budget.monthlyContribution
  {
    RepeatedIsProduct(i, budget.monthlyContribution);
  }

  /** With no purchases, point `i >= 1` is the last day of the `i`-th month,
      counting the current month as the first. */
  lemma YearAheadMonthEnds(budget: Budget, today: CalendarDate)
    requires |budget.purchases| == 0
    ensures var points := Projection(budget, today);
      && |points| == 13
      && forall i :: 1 <= i < 13 ==>
           IsMonthEnd(points[i].date) && MonthIndex(points[i].date) == MonthIndex(today) + i - 1
  {
    var points := Projection(budget, today);
    assert points == YearAhead(budget, today);
    forall i | 1 <= i < 13
      ensures IsMonthEnd(points[i].date) && MonthIndex(points[i].date) == MonthIndex(today) + i - 1
    {
      YearAheadAt(budget, today, i);
    }
  }

  /** With no purchases the month-end points strictly increase and start no
      earlier than today; the first of them falls on today exactly when today
      is the last day of its month. */
  lemma YearAheadDates(budget: Budget, today: CalendarDate)
    requires |budget.purchases| == 0
    ensures var points := Projection(budget, today);
      && |points| == 13
      && NotAfter(points[0].date, points[1].date)
      && (points[0].date == points[1].date <==> IsMonthEnd(today))
      && forall i :: 1 <= i < 12 ==> Before(points[i].date, points[i + 1].date)
  {
    var points := Projection(budget, today);
    YearAheadBalances(budget, today);
    YearAheadMonthEnds(budget, today);
    forall i | 1 <= i < 12 ensures Before(points[i].date, points[i + 1].date) {
      MonthIndexOrder(points[i].date, points[i + 1].date);
    }
    MonthEndTest(today);
    var first := points[1].date;
    assert MonthIndex(first) == MonthIndex(today) && IsMonthEnd(first);
    assert first.year == today.year && first.month == today.month;
  }

  /** Every purchase lies inside the window, strictly before its last day. */
  lemma WindowHoldsPurchases(budget: Budget, today: CalendarDate)
    requires |budget.purchases| > 0
    ensures var sorted := SortByDate(budget.purchases);
      && |sorted| == |budget.purchases|
      && forall i :: 0 <= i < |sorted| ==>
           NotAfter(WindowStart(budget, today), sorted[i].date) && Before(sorted[i].date, WindowEnd(budget, today))
  {
    var sorted := SortByDate(budget.purchases);
    var n := |sorted| - 1;
    SortByDateSorted(budget.purchases);
    var last := MaxDate(sorted[n].date, today);
    assert Before(sorted[n].date, WindowEnd(budget, today)) by {
      assert NotAfter(sorted[n].date, last) && Before(last, WindowEnd(budget, today));
    }
    SortedBetween(sorted, n, WindowStart(budget, today), WindowEnd(budget, today));
  }

  /** The skip branch of the inner loop never fires: every purchase is applied
      exactly once, in sorted order, and exactly one contribution falls on each
      month end of the window. */
  lemma ProjectionEventsContent(budget: Budget, today: CalendarDate)
    requires |budget.purchases| > 0
    ensures Spent(ProjectionEvents(budget, today)) == SortByDate(budget.purchases)
    ensures ContributionDates(ProjectionEvents(budget, today))
      == MonthEndsBetween(WindowStart(budget, today), WindowEnd(budget, today))
  {
    var sorted := SortByDate(budget.purchases);
    var start, stop := WindowStart(budget, today), WindowEnd(budget, today);
    WindowHoldsPurchases(budget, today);
    SortByDateSorted(budget.purchases);
    AllPurchasesSpent(start, stop, sorted);
    ContributionsAtMonthEnds(start, stop, sorted);
  }

  /** One point to start, one per purchase and one per month end of the window. */
  lemma ProjectionCount(budget: Budget, today: CalendarDate)
    requires |budget.purchases| > 0
    ensures var points := Projection(budget, today);
      && |points| == 1 + |budget.purchases| + |MonthEndsBetween(WindowStart(budget, today), WindowEnd(budget, today))|
      && points[0] == DataPoint(WindowStart(budget, today), budget.initialValue)
  {
    var es := ProjectionEvents(budget, today);
    ProjectionEventsContent(budget, today);
    EventsPartition(es);
    SortByDateEnds(budget.purchases);
  }

  /** The last balance is the initial value less all purchases plus one
      contribution per month end of the window (`RepeatedIsProduct`: that is
      the count of month ends times the monthly contribution). */
  lemma ProjectionFinalBalance(budget: Budget, today: CalendarDate)
    requires |budget.purchases| > 0
    ensures Projection(budget, today) != []
    ensures Last(Projection(budget, today)).balance
      == budget.initialValue - TotalAmount(budget.purchases)
         + Repeated(|MonthEndsBetween(WindowStart(budget, today), WindowEnd(budget, today))|, budget.monthlyContribution)
  {
    var es := ProjectionEvents(budget, today);
    var mc := budget.monthlyContribution;
    var tail := Accumulate(budget.initialValue, mc, es);
    ProjectionEventsContent(budget, today);
    SortByDateEnds(budget.purchases);
    SortByDateTotal(budget.purchases);
    assert |Spent(es)| > 0;
    EventsPartition(es);
    AccumulateFinal(budget.initialValue, mc, es);
    LastAfterFirst(DataPoint(WindowStart(budget, today), budget.initialValue), tail);
  }

  lemma LastAfterFirst(first: DataPoint, rest: seq<DataPoint>)
    requires rest != []
    ensures Last([first] + rest) == Last(rest)
  {
  }

  /** The point dates never decrease, stay inside the window, and each point
      after the first moves the balance by exactly one event: less a purchase's
      amount or plus the monthly contribution, a contribution coming after the
      purchases of its day. */
  lemma ProjectionSteps(budget: Budget, today: CalendarDate)
    requires |budget.purchases| > 0
    ensures var points := Projection(budget, today);
      var es := ProjectionEvents(budget, today);
      && |points| == |es| + 1
      && InOrder(es)
      && (forall i :: 0 <= i < |points| - 1 ==> NotAfter(points[i].date, points[i + 1].date))
      && (forall i :: 0 <= i < |points| ==>
            NotAfter(WindowStart(budget, today), points[i].date)
            && NotAfter(points[i].date, WindowEnd(budget, today)))
      && (forall i :: 1 <= i < |points| ==>
            points[i].date == EventDate(es[i - 1])
            && points[i].balance == points[i - 1].balance + Delta(es[i - 1], budget.monthlyContribution))
  {
    var es := ProjectionEvents(budget, today);
    var start, stop := WindowStart(budget, today), WindowEnd(budget, today);
    EventsInOrder(start, stop, SortByDate(budget.purchases));
    OpenedSteps(start, budget.initialValue, budget.monthlyContribution, es);
    OpenedDates(start, budget.initialValue, budget.monthlyContribution, es, stop);
  }

  // ---------------------------------------------------------------------
  // The contribution solver.

  /** `calculateSuggestedContribution`: with no purchases nothing needs
      saving; otherwise it depends only on the total of the purchases and the
      latest of their dates, not on their order. */
  function SuggestedContribution(budget: Budget, today: CalendarDate): (r: Suggestion)
    ensures |budget.purchases| == 0 ==> r == Suggestion(0.0, 0, budget.initialValue)
    ensures |budget.purchases| > 0 ==>
      r == SpreadOver(TotalAmount(budget.purchases), budget.initialValue,
                      MonthsThrough(today, LatestDate(budget.purchases)))
  {
    if |budget.purchases| == 0 then Suggestion(0.0, 0, budget.initialValue)
    else
      var sorted := SortByDate(budget.purchases);
      SortByDateEnds(budget.purchases);
      SortByDateTotal(budget.purchases);
      var lastPurchaseDate := sorted[|sorted| - 1].date;
      var totalPurchases := TotalAmount(sorted);
      SpreadOver(totalPurchases, budget.initialValue, MonthsThrough(today, lastPurchaseDate))
  }

  /** The months from the current month through the month of `last`, both
      counted, and never fewer than one. */
  function MonthsThrough(today: CalendarDate, last: CalendarDate): (n: int)
    ensures n >= 1
    ensures MonthIndex(today) <= MonthIndex(last) ==> n == MonthIndex(last) - MonthIndex(today) + 1
    ensures MonthIndex(last) < MonthIndex(today) ==> n == 1
  {
    var monthsDiff := MonthIndex(last) - MonthIndex(today);
    if monthsDiff + 1 > 1 then monthsDiff + 1 else 1
  }

  /** The arithmetic of the solver: spread what the purchases need beyond the
      initial value evenly over `totalMonths`, never suggesting a negative
      amount; the final balance uses the unclamped amount and so comes to zero. */
  function SpreadOver(totalPurchases: real, initialValue: real, totalMonths: int): (r: Suggestion)
    requires totalMonths >= 1
    ensures r.totalMonths == totalMonths
    ensures r.monthlyAmount >= 0.0
    ensures r.monthlyAmount == (if totalPurchases > initialValue then (totalPurchases - initialValue) / (totalMonths as real) else 0.0)
    ensures r.finalBalance == 0.0
    ensures initialValue + r.monthlyAmount * (totalMonths as real) >= totalPurchases
    ensures totalPurchases >= initialValue ==> initialValue + r.monthlyAmount * (totalMonths as real) == totalPurchases
  {
    var required := (totalPurchases - initialValue) / (totalMonths as real);
    var finalBalance := initialValue + required * (totalMonths as real) - totalPurchases;
    assert required * (totalMonths as real) == totalPurchases - initialValue;
    assert required > 0.0 <==> totalPurchases - initialValue > 0.0;
    Suggestion(if 0.0 > required then 0.0 else required, totalMonths, finalBalance)
  }

  /** When the initial value already covers every purchase the amount is
      clamped to zero, yet the reported final balance is still zero, not the
      surplus that a zero contribution leaves. */
  lemma ClampedFinalBalance(budget: Budget, today: CalendarDate)
    requires |budget.purchases| > 0
    requires TotalAmount(budget.purchases) < budget.initialValue
    ensures var r := SuggestedContribution(budget, today);
      && r.monthlyAmount == 0.0
      && r.finalBalance == 0.0
      && budget.initialValue + r.monthlyAmount * (r.totalMonths as real) - TotalAmount(budget.purchases) > 0.0
  {
  }

  /** A purchase of 200 in March 2024 seen from 1 January 2024 is three months
      away; 1000 already covers it, and 1400 of purchases call for 400 a month. */
  lemma SuggestionExamples()
    ensures var today := Date(2024, 1, 1);
      var march := Purchase(Date(2024, 3, 15), 200.0, "laptop", true);
      && SuggestedContribution(Budget("trip", 1000.0, 100.0, [march]), today) == Suggestion(0.0, 3, 0.0)
      && SuggestedContribution(Budget("trip", 200.0, 100.0, [march, march.(amount := 1200.0)]), today)
         == Suggestion(400.0, 3, 0.0)
  {
    var today := Date(2024, 1, 1);
    var march := Purchase(Date(2024, 3, 15), 200.0, "laptop", true);
    var two := [march, march.(amount := 1200.0)];
    assert TotalAmount(two) == 1400.0 by {
      assert two[..1] == [march];
      assert TotalAmount([march]) == TotalAmount([]) + 200.0;
    }
    assert LatestDate(two) == march.date by {
      assert two[1..] == [march.(amount := 1200.0)];
    }
  }

  /** A single purchase on 15 March 2024 seen from 1 January 2024: the walk
      runs from 1 January to 15 June (three months after the purchase, same
      day of the month) and so contributes at five month ends, January to May
      (WindowExampleMonthEnds). */
  lemma WindowExample()
    ensures var b := Budget("trip", 1000.0, 100.0, [Purchase(Date(2024, 3, 15), 200.0, "laptop", true)]);
      && WindowStart(b, Date(2024, 1, 1)) == Date(2024, 1, 1)
      && WindowEnd(b, Date(2024, 1, 1)) == Date(2024, 6, 15)
  {
    var b := Budget("trip", 1000.0, 100.0, [Purchase(Date(2024, 3, 15), 200.0, "laptop", true)]);
  }

  lemma WindowExampleMonthEnds()
    ensures var ends := MonthEndsBetween(Date(2024, 1, 1), Date(2024, 6, 15));
      && |ends| == 5
      && ends[0] == Date(2024, 1, 31)
      && ends[4] == Date(2024, 5, 31)
  {
    MonthEndsCount(Date(2024, 1, 1), Date(2024, 6, 15));
  }
}
