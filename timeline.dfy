/** The timeline that the balance projection walks: one event for each applied
    purchase and one for each month-end contribution, produced day by day
    exactly as the projection loop visits days, and the running balance that
    turns those events into data points. */
module Timeline {
  import opened Calendar
  import opened BudgetModel
  import opened PurchaseOrder
  import opened Sequences

  /** One change of the balance. */
  datatype Event = Spend(purchase: Purchase) | Contribute(day: CalendarDate)

  function EventDate(e: Event): CalendarDate {
    match e
    case Spend(p) => p.date
    case Contribute(d) => d
  }

  /** What an event does to the balance. */
  function Delta(e: Event, monthlyContribution: real): real {
    match e
    case Spend(p) => -p.amount
    case Contribute(_) => monthlyContribution
  }

  /** The inner loop of the projection on one day, over the purchases not yet
      consumed: a purchase dated `day` is applied, an earlier one is passed
      over, and the scan stops at the first later one. Returns the applied
      purchases and the ones left for later days. */
  function Drain(day: CalendarDate, ps: seq<Purchase>): (r: (seq<Purchase>, seq<Purchase>))
    ensures forall i :: 0 <= i < |r.0| ==> r.0[i].date == day
    ensures |r.0| + |r.1| <= |ps|
  {
    if ps == [] then ([], [])
    else if ps[0].date == day then
      var rest := Drain(day, ps[1..]);
      ([ps[0]] + rest.0, rest.1)
    else if Before(day, ps[0].date) then ([], ps)
    else Drain(day, ps[1..])
  }

  function Spends(ps: seq<Purchase>): (r: seq<Event>)
    ensures |r| == |ps| && forall i :: 0 <= i < |ps| ==> r[i] == Spend(ps[i])
  {
    seq(|ps|, i requires 0 <= i < |ps| => Spend(ps[i]))
  }

  /** The contribution of `day`, when it is the last day of its month. */
  function MonthEvent(day: CalendarDate): seq<Event> {
    if IsMonthEnd(day) then [Contribute(day)] else []
  }

  /** The events of the days from `day` to `stop`, given the purchases not
      yet consumed: each day's purchases, then its contribution. Every event is
      dated from `day` to `stop`. */
  function Events(day: CalendarDate, stop: CalendarDate, ps: seq<Purchase>): (r: seq<Event>)
    ensures forall i :: 0 <= i < |r| ==> NotAfter(day, EventDate(r[i])) && NotAfter(EventDate(r[i]), stop)
    decreases DayKey(stop) - DayKey(day)
  {
    if Before(stop, day) then []
    else
      DayKeyOrder(day, stop);
      var later := Events(NextDay(day), stop, Drain(day, ps).1);
      DayEventsDated(day, ps);
      DatesConcat(DayEvents(day, ps), later, day, stop);
      DayEvents(day, ps) + later
  }

  /** The data points of a run of events, starting from `balance`. */
  function Accumulate(balance: real, monthlyContribution: real, es: seq<Event>): (r: seq<DataPoint>)
    ensures |r| == |es|
    decreases |es|
  {
    if es == [] then []
    else
      var b := balance + Delta(es[0], monthlyContribution);
      [DataPoint(EventDate(es[0]), b)] + Accumulate(b, monthlyContribution, es[1..])
  }

  /** The purchases applied by a run of events, in order. */
  function Spent(es: seq<Event>): seq<Purchase> {
    if es == [] then []
    else (if es[0].Spend? then [es[0].purchase] else []) + Spent(es[1..])
  }

  /** The dates of the contributions in a run of events, in order. */
  function ContributionDates(es: seq<Event>): seq<CalendarDate> {
    if es == [] then []
    else (if es[0].Contribute? then [es[0].day] else []) + ContributionDates(es[1..])
  }

  /** The last days of `n` consecutive months, starting with month index `k`. */
  function MonthEndsFrom(k: int, n: nat): (r: seq<CalendarDate>)
    ensures |r| == n
    ensures forall i :: 0 <= i < n ==> r[i] == LastDayOfMonthIndex(k + i)
    decreases n
  {
    if n == 0 then [] else [LastDayOfMonthIndex(k)] + MonthEndsFrom(k + 1, n - 1)
  }

  /** The last day of every month whose last day lies between `first` and
      `last` inclusive, in calendar order: the month of `first`, the months
      after it, and the month of `last` only when `last` is its last day. */
  function MonthEndsBetween(first: CalendarDate, last: CalendarDate): (r: seq<CalendarDate>)
    ensures forall i :: 0 <= i < |r| ==> IsMonthEnd(r[i]) && MonthIndex(r[i]) == MonthIndex(first) + i
  {
    if Before(last, first) then []
    else MonthEndsFrom(MonthIndex(first), MonthIndex(last) - MonthIndex(first) + (if IsMonthEnd(last) then 1 else 0))
  }

  /** The number of month ends from `first` to `last`: one per month from the
      month of `first` up to the month before that of `last`, and one more when
      `last` is itself a month end. */
  lemma MonthEndsCount(first: CalendarDate, last: CalendarDate)
    requires NotAfter(first, last)
    ensures |MonthEndsBetween(first, last)|
      == MonthIndex(last) - MonthIndex(first) + (if IsMonthEnd(last) then 1 else 0)
  {
    if MonthIndex(last) < MonthIndex(first) {
      MonthIndexOrder(last, first);
    }
  }

  /** Every date the closed form lists is a month end from `first` to `last`. */
  lemma MonthEndsBetweenSound(first: CalendarDate, last: CalendarDate, d: CalendarDate)
    requires d in MonthEndsBetween(first, last)
    ensures IsMonthEnd(d) && NotAfter(first, d) && NotAfter(d, last)
  {
    var r := MonthEndsBetween(first, last);
    var i :| 0 <= i < |r| && r[i] == d;
    MonthEndsCount(first, last);
    if MonthIndex(first) < MonthIndex(d) {
      MonthIndexOrder(first, d);
    }
    if MonthIndex(d) < MonthIndex(last) {
      MonthIndexOrder(d, last);
    }
  }

  /** Every month end from `first` to `last` is listed by the closed form. */
  lemma MonthEndsBetweenComplete(first: CalendarDate, last: CalendarDate, d: CalendarDate)
    requires IsMonthEnd(d) && NotAfter(first, d) && NotAfter(d, last)
    ensures d in MonthEndsBetween(first, last)
  {
    MonthEndsCount(first, last);
    if MonthIndex(d) < MonthIndex(first) {
      MonthIndexOrder(d, first);
    }
    if MonthIndex(last) < MonthIndex(d) {
      MonthIndexOrder(last, d);
    }
    var r := MonthEndsBetween(first, last);
    var i := MonthIndex(d) - MonthIndex(first);
    assert 0 <= i < |r|;
    MonthEndTest(d);
    MonthEndTest(r[i]);
    assert r[i] == d;
  }

  /** Events happen in calendar order, and a contribution is the last event of its day. */
  predicate Precedes(a: Event, b: Event) {
    Before(EventDate(a), EventDate(b)) || (EventDate(a) == EventDate(b) && a.Spend?)
  }

  predicate InOrder(es: seq<Event>) {
    forall i :: 0 <= i < |es| - 1 ==> Precedes(es[i], es[i + 1])
  }

  // ---------------------------------------------------------------------
  // Lemmas about runs of events.

  lemma {:induction false} SpentConcat(a: seq<Event>, b: seq<Event>)
    ensures Spent(a + b) == Spent(a) + Spent(b)
  {
    if a == [] {
      assert a + b == b;
    } else {
      assert (a + b)[0] == a[0] && (a + b)[1..] == a[1..] + b;
      SpentConcat(a[1..], b);
      AppendAssoc(if a[0].Spend? then [a[0].purchase] else [], Spent(a[1..]), Spent(b));
    }
  }

  lemma {:induction false} ContributionDatesConcat(a: seq<Event>, b: seq<Event>)
    ensures ContributionDates(a + b) == ContributionDates(a) + ContributionDates(b)
  {
    if a == [] {
      assert a + b == b;
    } else {
      var c := a + b;
      assert c[0] == a[0] && c[1..] == a[1..] + b;
      ContributionDatesConcat(a[1..], b);
    }
  }

  lemma {:induction false} SpentOfSpends(ps: seq<Purchase>)
    ensures Spent(Spends(ps)) == ps
    ensures ContributionDates(Spends(ps)) == []
  {
    if ps != [] {
      assert Spends(ps)[1..] == Spends(ps[1..]);
      SpentOfSpends(ps[1..]);
    }
  }

  /** Every event is either a purchase or a contribution. */
  lemma {:induction false} EventsPartition(es: seq<Event>)
    ensures |es| == |Spent(es)| + |ContributionDates(es)|
  {
    if es != [] {
      EventsPartition(es[1..]);
    }
  }

  /** Each data point is dated by its event and moves the balance by that event's delta. */
  lemma {:induction false} AccumulateSteps(balance: real, mc: real, es: seq<Event>)
    decreases |es|
    ensures |Accumulate(balance, mc, es)| == |es|
    ensures forall i :: 0 <= i < |es| ==> Accumulate(balance, mc, es)[i].date == EventDate(es[i])
    ensures forall i :: 0 <= i < |es| ==>
      Accumulate(balance, mc, es)[i].balance
        == (if i == 0 then balance else Accumulate(balance, mc, es)[i - 1].balance) + Delta(es[i], mc)
  {
    if es != [] {
      var b := balance + Delta(es[0], mc);
      AccumulateSteps(b, mc, es[1..]);
      var r, tail := Accumulate(balance, mc, es), Accumulate(b, mc, es[1..]);
      assert r == [DataPoint(EventDate(es[0]), b)] + tail;
      forall i | 1 <= i < |es|
        ensures r[i].date == EventDate(es[i])
        ensures r[i].balance == r[i - 1].balance + Delta(es[i], mc)
      {
        assert r[i] == tail[i - 1] && es[i] == es[1..][i - 1];
        if i > 1 {
          assert r[i - 1] == tail[i - 2];
        }
      }
    }
  }

  lemma TotalOfOne(p: Purchase)
    ensures TotalAmount([p]) == p.amount
  {
    assert [p][..0] == [];
  }

  /** The sum of the deltas of a run of events. */
  function NetChange(es: seq<Event>, mc: real): real {
    if es == [] then 0.0 else Delta(es[0], mc) + NetChange(es[1..], mc)
  }

  /** The last data point of a non-empty run carries the starting balance plus every delta. */
  lemma {:induction false} AccumulateLast(balance: real, mc: real, es: seq<Event>)
    requires es != []
    decreases |es|
    ensures |Accumulate(balance, mc, es)| == |es|
    ensures Accumulate(balance, mc, es)[|es| - 1].balance == balance + NetChange(es, mc)
  {
    var b := balance + Delta(es[0], mc);
    if |es| > 1 {
      AccumulateLast(b, mc, es[1..]);
      assert Accumulate(balance, mc, es)[|es| - 1] == Accumulate(b, mc, es[1..])[|es| - 2];
    }
  }

  /** `n` contributions of `x`, added one after another; RepeatedIsProduct
      shows it is `n * x`. Statements about balances use this form, which
      keeps the solver away from non-linear arithmetic. */
  function Repeated(n: nat, x: real): real {
    if n == 0 then 0.0 else Repeated(n - 1, x) + x
  }

  lemma {:induction false} RepeatedIsProduct(n: nat, x: real)
    ensures Repeated(n, x) == (n as real) * x
  {
    if n > 0 {
      RepeatedIsProduct(n - 1, x);
      assert (n as real) * x == ((n - 1) as real) * x + x;
    }
  }

  /** The deltas of a run add up to one contribution per contribution event less every purchase. */
  lemma {:induction false} NetChangeValue(es: seq<Event>, mc: real)
    ensures NetChange(es, mc) == Repeated(|ContributionDates(es)|, mc) - TotalAmount(Spent(es))
  {
    if es == [] {
      assert Spent(es) == [] && ContributionDates(es) == [];
    } else {
      var e, tail := es[0], es[1..];
      NetChangeValue(tail, mc);
      match e
      case Spend(p) =>
        assert Spent(es) == [p] + Spent(tail);
        assert ContributionDates(es) == ContributionDates(tail);
        TotalAmountConcat([p], Spent(tail));
        TotalOfOne(p);
      case Contribute(d) =>
        assert Spent(es) == Spent(tail);
        assert ContributionDates(es) == [d] + ContributionDates(tail);
    }
  }

  /** The last of a run of data points. */
  function Last(points: seq<DataPoint>): DataPoint
    requires points != []
  {
    points[|points| - 1]
  }

  /** The balance after a non-empty run: the start, less every purchase, plus
      one monthly contribution per contribution event. */
  lemma AccumulateFinal(balance: real, mc: real, es: seq<Event>)
    requires es != []
    ensures |Accumulate(balance, mc, es)| == |es|
    ensures Last(Accumulate(balance, mc, es)).balance
      == balance - TotalAmount(Spent(es)) + Repeated(|ContributionDates(es)|, mc)
  {
    AccumulateLast(balance, mc, es);
    NetChangeValue(es, mc);
  }

  /** A run of data points opened by a starting point: each later point is
      dated by its event and moves the balance by that event's delta. */
  lemma OpenedSteps(date: CalendarDate, balance: real, mc: real, es: seq<Event>)
    ensures var points := [DataPoint(date, balance)] + Accumulate(balance, mc, es);
      && |points| == |es| + 1
      && points[0] == DataPoint(date, balance)
      && forall i :: 1 <= i < |points| ==>
           points[i].date == EventDate(es[i - 1])
           && points[i].balance == points[i - 1].balance + Delta(es[i - 1], mc)
  {
    var tail := Accumulate(balance, mc, es);
    var points := [DataPoint(date, balance)] + tail;
    AccumulateSteps(balance, mc, es);
    forall i | 1 <= i < |points|
      ensures points[i].date == EventDate(es[i - 1])
      ensures points[i].balance == points[i - 1].balance + Delta(es[i - 1], mc)
    {
      assert points[i] == tail[i - 1];
      if i > 1 {
        assert points[i - 1] == tail[i - 2];
      }
    }
  }

  /** When the events are in order and dated from `date` to `last`, so are the points they open. */
  lemma OpenedDates(date: CalendarDate, balance: real, mc: real, es: seq<Event>, last: Date)
    requires InOrder(es)
    requires forall i :: 0 <= i < |es| ==> NotAfter(date, EventDate(es[i])) && NotAfter(EventDate(es[i]), last)
    requires NotAfter(date, last)
    ensures var points := [DataPoint(date, balance)] + Accumulate(balance, mc, es);
      && (forall i :: 0 <= i < |points| - 1 ==> NotAfter(points[i].date, points[i + 1].date))
      && (forall i :: 0 <= i < |points| ==> NotAfter(date, points[i].date) && NotAfter(points[i].date, last))
  {
    var points := [DataPoint(date, balance)] + Accumulate(balance, mc, es);
    OpenedSteps(date, balance, mc, es);
    forall i | 0 <= i < |points| - 1 ensures NotAfter(points[i].date, points[i + 1].date) {
      if i > 0 {
        assert Precedes(es[i - 1], es[i]);
      }
    }
    forall i | 0 <= i < |points| ensures NotAfter(date, points[i].date) && NotAfter(points[i].date, last) {
      if i > 0 {
        assert points[i].date == EventDate(es[i - 1]);
      }
    }
  }

  lemma InOrderConcat(a: seq<Event>, b: seq<Event>)
    requires InOrder(a) && InOrder(b)
    requires a != [] && b != [] ==> Precedes(a[|a| - 1], b[0])
    ensures InOrder(a + b)
  {
    var c := a + b;
    forall i | 0 <= i < |c| - 1 ensures Precedes(c[i], c[i + 1]) {
      if i < |a| - 1 {
        assert c[i] == a[i] && c[i + 1] == a[i + 1];
      } else if i == |a| - 1 {
        assert c[i] == a[|a| - 1] && c[i + 1] == b[0];
      } else {
        assert c[i] == b[i - |a|] && c[i + 1] == b[i - |a| + 1];
      }
    }
  }

  // ---------------------------------------------------------------------
  // Lemmas about the day walk.

  /** When no purchase is earlier than `day` and the purchases are sorted, the
      scan of one day never passes over a purchase: it applies exactly those
      dated `day`, and every purchase it leaves is later. */
  lemma {:induction false} DrainSorted(day: CalendarDate, ps: seq<Purchase>)
    requires SortedByDate(ps)
    requires forall i :: 0 <= i < |ps| ==> NotAfter(day, ps[i].date)
    ensures Drain(day, ps).0 == ps[..|Drain(day, ps).0|]
    ensures Drain(day, ps).1 == ps[|Drain(day, ps).0|..]
    ensures forall i :: 0 <= i < |Drain(day, ps).1| ==> Before(day, Drain(day, ps).1[i].date)
  {
    if ps != [] && ps[0].date == day {
      var tail := ps[1..];
      assert SortedByDate(tail) by {
        forall i, j | 0 <= i < j < |tail| ensures NotAfter(tail[i].date, tail[j].date) {
          assert tail[i] == ps[i + 1] && tail[j] == ps[j + 1];
        }
      }
      assert forall i :: 0 <= i < |tail| ==> tail[i] == ps[i + 1];
      DrainSorted(day, tail);
      var k := |Drain(day, tail).0|;
      assert ps[..k + 1] == [ps[0]] + tail[..k];
      assert ps[k + 1..] == tail[k..];
    } else if ps != [] && !Before(day, ps[0].date) {
      assert false;
    }
  }

  /** The events of one day: its purchases, then its contribution. */
  function DayEvents(day: CalendarDate, ps: seq<Purchase>): seq<Event> {
    Spends(Drain(day, ps).0) + MonthEvent(day)
  }

  /** The walk from `day` on a day it does not pass `stop`: that day's events, then the rest. */
  lemma EventsUnfold(day: CalendarDate, stop: CalendarDate, ps: seq<Purchase>)
    requires NotAfter(day, stop)
    ensures Events(day, stop, ps) == DayEvents(day, ps) + Events(NextDay(day), stop, Drain(day, ps).1)
  {
  }

  lemma DayEventsDated(day: CalendarDate, ps: seq<Purchase>)
    ensures forall i :: 0 <= i < |DayEvents(day, ps)| ==> EventDate(DayEvents(day, ps)[i]) == day
    ensures InOrder(DayEvents(day, ps))
  {
    var today := DayEvents(day, ps);
    var k := |Drain(day, ps).0|;
    assert forall i :: 0 <= i < |today| ==> EventDate(today[i]) == day;
    forall i | 0 <= i < |today| - 1 ensures Precedes(today[i], today[i + 1]) {
      assert i < k;
    }
  }

  /** Dates of a concatenation, one part after another. */
  lemma DatesConcat(a: seq<Event>, b: seq<Event>, first: Date, last: Date)
    requires forall i :: 0 <= i < |a| ==> NotAfter(first, EventDate(a[i])) && NotAfter(EventDate(a[i]), last)
    requires forall i :: 0 <= i < |b| ==> NotAfter(first, EventDate(b[i])) && NotAfter(EventDate(b[i]), last)
    ensures forall i :: 0 <= i < |a + b| ==> NotAfter(first, EventDate((a + b)[i])) && NotAfter(EventDate((a + b)[i]), last)
  {
    forall i | 0 <= i < |a + b|
      ensures NotAfter(first, EventDate((a + b)[i])) && NotAfter(EventDate((a + b)[i]), last)
    {
      if i >= |a| {
        assert (a + b)[i] == b[i - |a|];
      } else {
        assert (a + b)[i] == a[i];
      }
    }
  }

  /** The walk emits its events in calendar order. */
  lemma {:induction false} EventsInOrder(day: CalendarDate, stop: CalendarDate, ps: seq<Purchase>)
    ensures InOrder(Events(day, stop, ps))
    decreases DayKey(stop) - DayKey(day)
  {
    if !Before(stop, day) {
      DayKeyOrder(day, stop);
      var next := NextDay(day);
      var later := Events(next, stop, Drain(day, ps).1);
      EventsUnfold(day, stop, ps);
      EventsInOrder(next, stop, Drain(day, ps).1);
      DayEventsDated(day, ps);
      InOrderConcat(DayEvents(day, ps), later);
    }
  }

  /** The month ends from `day` on are those of `day`'s own (if it is one) and those from the next day on. */
  lemma MonthEndsStep(day: CalendarDate, stop: CalendarDate)
    requires NotAfter(day, stop)
    ensures MonthEndsBetween(day, stop)
      == (if IsMonthEnd(day) then [day] else []) + MonthEndsBetween(NextDay(day), stop)
  {
    if Before(stop, NextDay(day)) {
      if Before(day, stop) {
        NextDayIsSuccessor(day, stop);
      }
      MonthEndsOfLastDay(day);
    } else {
      MonthEndsBeforeLastDay(day, stop);
    }
  }

  lemma MonthEndsOfLastDay(day: CalendarDate)
    ensures MonthEndsBetween(day, day)
      == (if IsMonthEnd(day) then [day] else []) + MonthEndsBetween(NextDay(day), day)
  {
    MonthEndTest(day);
    assert MonthEndsBetween(NextDay(day), day) == [];
  }

  lemma MonthEndsBeforeLastDay(day: CalendarDate, stop: CalendarDate)
    requires NotAfter(NextDay(day), stop)
    ensures MonthEndsBetween(day, stop)
      == (if IsMonthEnd(day) then [day] else []) + MonthEndsBetween(NextDay(day), stop)
  {
    var next := NextDay(day);
    MonthEndTest(day);
    var extra := if IsMonthEnd(stop) then 1 else 0;
    var n := MonthIndex(stop) - MonthIndex(next) + extra;
    MonthEndsCount(next, stop);
    MonthEndsAsRun(next, stop, n);
    if IsMonthEnd(day) {
      MonthEndsAsRun(day, stop, n + 1);
      MonthEndsPeel(MonthIndex(day), n);
    } else {
      MonthEndsAsRun(day, stop, n);
    }
  }

  lemma MonthEndsAsRun(first: CalendarDate, last: CalendarDate, n: int)
    requires NotAfter(first, last)
    requires n == MonthIndex(last) - MonthIndex(first) + (if IsMonthEnd(last) then 1 else 0)
    ensures n >= 0 && MonthEndsBetween(first, last) == MonthEndsFrom(MonthIndex(first), n)
  {
    MonthEndsCount(first, last);
  }

  lemma MonthEndsPeel(k: int, n: nat)
    ensures MonthEndsFrom(k, n + 1) == [LastDayOfMonthIndex(k)] + MonthEndsFrom(k + 1, n)
  {
  }

  /** The contributions of one day and after it. */
  lemma ContributionsOfDay(day: CalendarDate, ps: seq<Purchase>, later: seq<Event>)
    ensures ContributionDates(DayEvents(day, ps) + later)
      == (if IsMonthEnd(day) then [day] else []) + ContributionDates(later)
  {
    var drained := Drain(day, ps).0;
    SpentOfSpends(drained);
    ContributionDatesConcat(Spends(drained), MonthEvent(day));
    ContributionDatesConcat(DayEvents(day, ps), later);
  }

  /** Exactly one contribution for each month end in the window, none elsewhere,
      whatever the purchases. */
  lemma {:induction false} ContributionsAtMonthEnds(day: CalendarDate, stop: CalendarDate, ps: seq<Purchase>)
    ensures ContributionDates(Events(day, stop, ps)) == MonthEndsBetween(day, stop)
    decreases DayKey(stop) - DayKey(day)
  {
    if !Before(stop, day) {
      DayKeyOrder(day, stop);
      var next := NextDay(day);
      EventsUnfold(day, stop, ps);
      ContributionsAtMonthEnds(next, stop, Drain(day, ps).1);
      ContributionsOfDay(day, ps, Events(next, stop, Drain(day, ps).1));
      MonthEndsStep(day, stop);
    }
  }

  /** After one day's scan, the purchases left are sorted and lie from the next day to `stop`. */
  lemma DrainLeavesWindow(day: CalendarDate, stop: CalendarDate, ps: seq<Purchase>)
    requires SortedByDate(ps)
    requires forall i :: 0 <= i < |ps| ==> NotAfter(day, ps[i].date) && NotAfter(ps[i].date, stop)
    ensures Drain(day, ps).0 + Drain(day, ps).1 == ps
    ensures SortedByDate(Drain(day, ps).1)
    ensures forall i :: 0 <= i < |Drain(day, ps).1| ==>
      NotAfter(NextDay(day), Drain(day, ps).1[i].date) && NotAfter(Drain(day, ps).1[i].date, stop)
  {
    DrainSorted(day, ps);
    var k := |Drain(day, ps).0|;
    var rest := Drain(day, ps).1;
    assert rest == ps[k..];
    assert forall i :: 0 <= i < |rest| ==> rest[i] == ps[k + i];
    forall i | 0 <= i < |rest| ensures NotAfter(NextDay(day), rest[i].date) {
      NextDayIsSuccessor(day, rest[i].date);
    }
    assert Drain(day, ps).0 + rest == ps[..k] + ps[k..];
    assert ps[..k] + ps[k..] == ps;
  }

  /** The purchases applied on one day and after it. */
  lemma SpentOfDay(day: CalendarDate, ps: seq<Purchase>, later: seq<Event>)
    ensures Spent(DayEvents(day, ps) + later) == Drain(day, ps).0 + Spent(later)
  {
    var drained := Drain(day, ps).0;
    SpentOfSpends(drained);
    assert Spent(MonthEvent(day)) == [];
    SpentConcat(Spends(drained), MonthEvent(day));
    SpentConcat(DayEvents(day, ps), later);
  }

  /** No purchase lies inside an empty window. */
  lemma EmptyWindow(day: CalendarDate, stop: CalendarDate, ps: seq<Purchase>)
    requires forall i :: 0 <= i < |ps| ==> NotAfter(day, ps[i].date) && NotAfter(ps[i].date, stop)
    ensures Before(stop, day) ==> ps == []
  {
    if ps != [] {
      assert NotAfter(day, ps[0].date) && NotAfter(ps[0].date, stop);
    }
  }

  /** With sorted purchases all inside the window, every purchase is applied
      exactly once, in sorted order. */
  lemma {:induction false} AllPurchasesSpent(day: CalendarDate, stop: CalendarDate, ps: seq<Purchase>)
    requires SortedByDate(ps)
    requires forall i :: 0 <= i < |ps| ==> NotAfter(day, ps[i].date) && NotAfter(ps[i].date, stop)
    ensures Spent(Events(day, stop, ps)) == ps
    decreases DayKey(stop) - DayKey(day)
  {
    EmptyWindow(day, stop, ps);
    if !Before(stop, day) {
      DayKeyOrder(day, stop);
      var next := NextDay(day);
      EventsUnfold(day, stop, ps);
      DrainLeavesWindow(day, stop, ps);
      AllPurchasesSpent(next, stop, Drain(day, ps).1);
      SpentOfDay(day, ps, Events(next, stop, Drain(day, ps).1));
    }
  }
}
