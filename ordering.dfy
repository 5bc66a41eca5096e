/** The ordering and summing of purchases that both calculations start with:
    `[...purchases].sort((a, b) => time(a.date) - time(b.date))`, a stable sort
    (ECMAScript 2019 requires `Array.prototype.sort` to be stable), and
    `reduce((sum, p) => sum + p.amount, 0)`. */
module PurchaseOrder {
  import opened Calendar
  import opened BudgetModel
  import opened Sequences

  predicate SortedByDate(ps: seq<Purchase>) {
    forall i, j :: 0 <= i < j < |ps| ==> NotAfter(ps[i].date, ps[j].date)
  }

  /** Places `p` after every element of the sorted `s` that is not later than it. */
  function InsertByDate(p: Purchase, s: seq<Purchase>): (r: seq<Purchase>)
    ensures multiset(r) == multiset(s) + multiset{p}
    ensures |r| == |s| + 1
  {
    if s == [] then [p]
    else if Before(p.date, s[0].date) then [p] + s
    else
      assert s == [s[0]] + s[1..];
      [s[0]] + InsertByDate(p, s[1..])
  }

  /** The purchases sorted by date; purchases on the same date keep their order. */
  function SortByDate(ps: seq<Purchase>): (r: seq<Purchase>)
    ensures multiset(r) == multiset(ps)
    ensures |r| == |ps|
  {
    if ps == [] then []
    else
      assert ps == ps[..|ps| - 1] + [ps[|ps| - 1]];
      InsertByDate(ps[|ps| - 1], SortByDate(ps[..|ps| - 1]))
  }

  lemma SortedPair(s: seq<Purchase>, i: int, j: int)
    requires SortedByDate(s) && 0 <= i <= j < |s|
    ensures NotAfter(s[i].date, s[j].date)
  {
  }

  lemma SortedTail(s: seq<Purchase>)
    requires SortedByDate(s) && s != []
    ensures SortedByDate(s[1..])
  {
    var rest := s[1..];
    forall i, j | 0 <= i < j < |rest| ensures NotAfter(rest[i].date, rest[j].date) {
      assert rest[i] == s[i + 1] && rest[j] == s[j + 1];
    }
  }

  /** Everything in the result of an insertion is the inserted purchase or was there before. */
  lemma InsertMember(p: Purchase, s: seq<Purchase>, x: Purchase)
    requires x in InsertByDate(p, s)
    ensures x == p || x in s
  {
    assert x in multiset(InsertByDate(p, s));
  }

  /** A purchase no later than every element of a sorted sequence can go in front. */
  lemma SortedCons(h: Purchase, t: seq<Purchase>)
    requires SortedByDate(t)
    requires forall x :: x in t ==> NotAfter(h.date, x.date)
    ensures SortedByDate([h] + t)
  {
    var r := [h] + t;
    forall i, j | 0 <= i < j < |r| ensures NotAfter(r[i].date, r[j].date) {
      if i == 0 {
        assert r[j] == t[j - 1];
      } else {
        assert r[i] == t[i - 1] && r[j] == t[j - 1];
      }
    }
  }

  lemma {:induction false} InsertKeepsSorted(p: Purchase, s: seq<Purchase>)
    requires SortedByDate(s)
    ensures SortedByDate(InsertByDate(p, s))
  {
    if s == [] {
    } else if Before(p.date, s[0].date) {
      forall x | x in s ensures NotAfter(p.date, x.date) {
        var k :| 0 <= k < |s| && s[k] == x;
        SortedPair(s, 0, k);
      }
      SortedCons(p, s);
    } else {
      var tail := InsertByDate(p, s[1..]);
      SortedTail(s);
      InsertKeepsSorted(p, s[1..]);
      forall x | x in tail ensures NotAfter(s[0].date, x.date) {
        InsertMember(p, s[1..], x);
        if x != p {
          var k :| 0 <= k < |s[1..]| && s[1..][k] == x;
          SortedPair(s, 0, k + 1);
        }
      }
      SortedCons(s[0], tail);
    }
  }

  lemma {:induction false} SortByDateSorted(ps: seq<Purchase>)
    ensures SortedByDate(SortByDate(ps))
  {
    if ps != [] {
      SortByDateSorted(ps[..|ps| - 1]);
      InsertKeepsSorted(ps[|ps| - 1], SortByDate(ps[..|ps| - 1]));
    }
  }

  /** The purchases of `s` dated `d`, in their order in `s`. */
  function OnDate(s: seq<Purchase>, d: Date): seq<Purchase> {
    if s == [] then []
    else (if s[0].date == d then [s[0]] else []) + OnDate(s[1..], d)
  }

  lemma {:induction false} OnDateConcat(a: seq<Purchase>, b: seq<Purchase>, d: Date)
    ensures OnDate(a + b, d) == OnDate(a, d) + OnDate(b, d)
  {
    if a == [] {
      assert a + b == b;
    } else {
      assert (a + b)[1..] == a[1..] + b;
      OnDateConcat(a[1..], b, d);
    }
  }

  /** Nothing in `s` is dated `d` when every element is later than `d`. */
  lemma {:induction false} OnDateAllLater(s: seq<Purchase>, d: Date)
    requires forall i :: 0 <= i < |s| ==> Before(d, s[i].date)
    ensures OnDate(s, d) == []
  {
    if s != [] {
      OnDateAllLater(s[1..], d);
    }
  }

  lemma OnDateSingle(p: Purchase, d: Date)
    ensures OnDate([p], d) == (if p.date == d then [p] else [])
  {
    assert [p][1..] == [];
    var own := if p.date == d then [p] else [];
    assert own + OnDate([], d) == own;
  }

  /** Inserting in front of a sorted sequence whose first element is later. */
  lemma OnDateInsertFront(p: Purchase, s: seq<Purchase>, d: Date)
    requires SortedByDate(s)
    requires s != [] && Before(p.date, s[0].date)
    ensures OnDate([p] + s, d) == OnDate(s, d) + OnDate([p], d)
  {
    OnDateConcat([p], s, d);
    OnDateSingle(p, d);
    if p.date == d {
      forall i | 0 <= i < |s| ensures Before(d, s[i].date) {
        assert NotAfter(s[0].date, s[i].date);
      }
      OnDateAllLater(s, d);
      assert OnDate(s, d) + [p] == [p] + OnDate(s, d);
    } else {
      assert OnDate([p], d) + OnDate(s, d) == OnDate(s, d) + OnDate([p], d);
    }
  }

  /** Inserting behind the first element of `s`, given the result for the rest of `s`. */
  lemma OnDateInsertBehind(p: Purchase, s: seq<Purchase>, d: Date)
    requires s != [] && !Before(p.date, s[0].date)
    requires OnDate(InsertByDate(p, s[1..]), d) == OnDate(s[1..], d) + OnDate([p], d)
    ensures OnDate(InsertByDate(p, s), d) == OnDate(s, d) + OnDate([p], d)
  {
    var own := if s[0].date == d then [s[0]] else [];
    var tail := InsertByDate(p, s[1..]);
    ConsParts(s[0], tail);
    AppendAssoc(own, OnDate(s[1..], d), OnDate([p], d));
  }

  lemma {:induction false} OnDateInsert(p: Purchase, s: seq<Purchase>, d: Date)
    requires SortedByDate(s)
    ensures OnDate(InsertByDate(p, s), d) == OnDate(s, d) + OnDate([p], d)
  {
    if s == [] {
      assert OnDate(s, d) + OnDate([p], d) == OnDate([p], d);
    } else if Before(p.date, s[0].date) {
      OnDateInsertFront(p, s, d);
    } else {
      SortedTail(s);
      OnDateInsert(p, s[1..], d);
      OnDateInsertBehind(p, s, d);
    }
  }

  /** Stability: for each date, the purchases on that date keep their relative order. */
  lemma {:induction false} SortByDateStable(ps: seq<Purchase>, d: Date)
    ensures OnDate(SortByDate(ps), d) == OnDate(ps, d)
  {
    if ps != [] {
      var init, last := ps[..|ps| - 1], ps[|ps| - 1];
      SortByDateStable(init, d);
      SortByDateSorted(init);
      OnDateInsert(last, SortByDate(init), d);
      SplitLast(ps);
      OnDateConcat(init, [last], d);
    }
  }

  /** `reduce((sum, p) => sum + p.amount, 0)`: a left fold. */
  function TotalAmount(ps: seq<Purchase>): (r: real)
    ensures ps == [] ==> r == 0.0
    ensures (forall i :: 0 <= i < |ps| ==> ps[i].amount >= 0.0) ==> r >= 0.0
  {
    if ps == [] then 0.0 else TotalAmount(ps[..|ps| - 1]) + ps[|ps| - 1].amount
  }

  lemma {:induction false} TotalAmountConcat(a: seq<Purchase>, b: seq<Purchase>)
    ensures TotalAmount(a + b) == TotalAmount(a) + TotalAmount(b)
    decreases |b|
  {
    if b == [] {
      assert a + b == a;
    } else {
      assert (a + b)[..|a + b| - 1] == a + b[..|b| - 1];
      TotalAmountConcat(a, b[..|b| - 1]);
    }
  }

  lemma {:induction false} TotalAmountInsert(p: Purchase, s: seq<Purchase>)
    ensures TotalAmount(InsertByDate(p, s)) == TotalAmount(s) + p.amount
  {
    if s == [] {
      assert TotalAmount([p]) == TotalAmount([]) + p.amount;
    } else if Before(p.date, s[0].date) {
      TotalAmountConcat([p], s);
      assert TotalAmount([p]) == TotalAmount([]) + p.amount;
    } else {
      TotalAmountInsert(p, s[1..]);
      TotalAmountConcat([s[0]], InsertByDate(p, s[1..]));
      TotalAmountConcat([s[0]], s[1..]);
      assert s == [s[0]] + s[1..];
    }
  }

  /** Sorting does not change the total. */
  lemma {:induction false} SortByDateTotal(ps: seq<Purchase>)
    ensures TotalAmount(SortByDate(ps)) == TotalAmount(ps)
  {
    if ps != [] {
      SortByDateTotal(ps[..|ps| - 1]);
      TotalAmountInsert(ps[|ps| - 1], SortByDate(ps[..|ps| - 1]));
    }
  }

  /** The earliest and the latest date among the purchases. */
  function EarliestDate(ps: seq<Purchase>): (r: CalendarDate)
    requires |ps| > 0
    ensures exists i :: 0 <= i < |ps| && ps[i].date == r
    ensures forall i :: 0 <= i < |ps| ==> NotAfter(r, ps[i].date)
  {
    if |ps| == 1 then ps[0].date
    else
      var rest := EarliestDate(ps[1..]);
      assert forall i :: 1 <= i < |ps| ==> ps[i] == ps[1..][i - 1];
      MinDate(ps[0].date, rest)
  }

  function LatestDate(ps: seq<Purchase>): (r: CalendarDate)
    requires |ps| > 0
    ensures exists i :: 0 <= i < |ps| && ps[i].date == r
    ensures forall i :: 0 <= i < |ps| ==> NotAfter(ps[i].date, r)
  {
    if |ps| == 1 then ps[0].date
    else
      var rest := LatestDate(ps[1..]);
      assert forall i :: 1 <= i < |ps| ==> ps[i] == ps[1..][i - 1];
      MaxDate(ps[0].date, rest)
  }

  /** Where an element of one of two sequences with the same elements sits in the other. */
  lemma PositionIn(a: seq<Purchase>, b: seq<Purchase>, i: int) returns (j: int)
    requires multiset(a) == multiset(b) && 0 <= i < |a|
    ensures 0 <= j < |b| && b[j] == a[i]
  {
    assert a[i] in multiset(a);
    assert a[i] in multiset(b);
    j :| 0 <= j < |b| && b[j] == a[i];
  }

  /** A sorted arrangement of `ps` starts with the earliest date ... */
  lemma SortedFirst(s: seq<Purchase>, ps: seq<Purchase>)
    requires |s| == |ps| > 0 && multiset(s) == multiset(ps) && SortedByDate(s)
    ensures s[0].date == EarliestDate(ps)
  {
    var e := EarliestDate(ps);
    var i :| 0 <= i < |ps| && ps[i].date == e;
    var j := PositionIn(ps, s, i);
    SortedPair(s, 0, j);
    var k := PositionIn(s, ps, 0);
    SameDate(s[0].date, e);
  }

  /** ... and ends with the latest. */
  lemma SortedLast(s: seq<Purchase>, ps: seq<Purchase>, n: int)
    requires |s| == |ps| == n + 1 > 0 && multiset(s) == multiset(ps) && SortedByDate(s)
    ensures s[n].date == LatestDate(ps)
  {
    var l := LatestDate(ps);
    var i :| 0 <= i < |ps| && ps[i].date == l;
    var j := PositionIn(ps, s, i);
    SortedPair(s, j, n);
    var k := PositionIn(s, ps, n);
    SameDate(s[n].date, l);
  }

  /** A sorted sequence whose first date is on or after `lo` and whose last
      date is before `hi` lies entirely from `lo` to before `hi`. */
  lemma SortedBetween(s: seq<Purchase>, n: int, lo: Date, hi: Date)
    requires SortedByDate(s) && |s| == n + 1 > 0
    requires NotAfter(lo, s[0].date) && Before(s[n].date, hi)
    ensures forall i :: 0 <= i < |s| ==> NotAfter(lo, s[i].date) && Before(s[i].date, hi)
  {
    forall i | 0 <= i < |s| ensures NotAfter(lo, s[i].date) && Before(s[i].date, hi) {
      SortedPair(s, 0, i);
      SortedPair(s, i, n);
    }
  }

  /** The first and the last of the sorted purchases carry the earliest and the latest date. */
  lemma SortByDateEnds(ps: seq<Purchase>)
    requires |ps| > 0
    ensures |SortByDate(ps)| == |ps|
    ensures SortByDate(ps)[0].date == EarliestDate(ps)
    ensures SortByDate(ps)[|ps| - 1].date == LatestDate(ps)
  {
    SortByDateSorted(ps);
    SortedFirst(SortByDate(ps), ps);
    SortedLast(SortByDate(ps), ps, |ps| - 1);
  }
}
