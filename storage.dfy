/** The storage of a budget as rows of text cells: the file name derived from
    the budget's name, the rows written when a budget is saved and their
    interpretation when it is loaded. The CSV text encoding of rows and the
    conversion of numbers and dates to and from text belong to libraries;
    the conversions are a parameter here (`CellFormat`). */
module CsvStorage {
  import opened Calendar
  import opened BudgetModel
  import opened Sequences

  // ---------------------------------------------------------------------
  // Storage keys.

  /** The characters a storage key keeps: `[a-zA-Z0-9-_]`. */
  predicate IsSafe(c: char) {
    ('a' <= c <= 'z') || ('A' <= c <= 'Z') || ('0' <= c <= '9') || c == '-' || c == '_'
  }

  /** What the substitution turns one character into. */
  function SafeChar(c: char): (r: char)
    ensures IsSafe(r)
    ensures IsSafe(c) ==> r == c
    ensures !IsSafe(c) ==> r == '_'
  {
    if IsSafe(c) then c else '_'
  }

  /** `replace(/[^a-zA-Z0-9-_]/g, '_')`: every unsafe character becomes an
      underscore, one for one, and the safe characters stay where they are. */
  function SanitizeName(name: string): (r: string)
    ensures |r| == |name|
    ensures forall i :: 0 <= i < |name| ==> r[i] == SafeChar(name[i])
    ensures forall i :: 0 <= i < |r| ==> IsSafe(r[i])
  {
    if name == [] then [] else [SafeChar(name[0])] + SanitizeName(name[1..])
  }

  /** The file a budget is stored in, relative to the data directory. */
  function BudgetFileName(name: string): (r: string)
    ensures |r| == |name| + 4 && r[|name|..] == ".csv"
    ensures forall i :: 0 <= i < |name| ==> r[i] == SafeChar(name[i]) && IsSafe(r[i])
  {
    SanitizeName(name) + ".csv"
  }

  /** A name is its own storage key exactly when every character is safe. */
  lemma SanitizeFixedPoint(name: string)
    ensures SanitizeName(name) == name <==> forall i :: 0 <= i < |name| ==> IsSafe(name[i])
  {
    if forall i :: 0 <= i < |name| ==> IsSafe(name[i]) {
      assert forall i :: 0 <= i < |name| ==> SanitizeName(name)[i] == name[i];
    } else {
      var i :| 0 <= i < |name| && !IsSafe(name[i]);
      assert SanitizeName(name)[i] != name[i];
    }
  }

  /** Sanitising twice is sanitising once. */
  lemma SanitizeIdempotent(name: string)
    ensures SanitizeName(SanitizeName(name)) == SanitizeName(name)
  {
    SanitizeFixedPoint(SanitizeName(name));
  }

  /** Two names share a storage file exactly when they have the same length
      and agree at every position once unsafe characters are replaced. */
  lemma SameFile(a: string, b: string)
    ensures BudgetFileName(a) == BudgetFileName(b)
      <==> |a| == |b| && forall i :: 0 <= i < |a| ==> SafeChar(a[i]) == SafeChar(b[i])
  {
    var ka, kb := SanitizeName(a), SanitizeName(b);
    if BudgetFileName(a) == BudgetFileName(b) {
      assert ka == BudgetFileName(a)[..|ka|];
      assert kb == BudgetFileName(b)[..|kb|];
      forall i | 0 <= i < |a| ensures SafeChar(a[i]) == SafeChar(b[i]) {
        assert ka[i] == kb[i];
      }
    }
    if |a| == |b| && forall i :: 0 <= i < |a| ==> SafeChar(a[i]) == SafeChar(b[i]) {
      assert forall i :: 0 <= i < |ka| ==> ka[i] == kb[i];
      assert ka == kb;
    }
  }

  /** Distinct names can collide: "a b" and "a_b" are stored in the same file. */
  lemma NamesCollide()
    ensures "a b" != "a_b"
    ensures BudgetFileName("a b") == BudgetFileName("a_b") == "a_b.csv"
  {
    assert "a b"[1] != "a_b"[1];
    SanitizeFixedPoint("a_b");
    assert SanitizeName("a b") == "a_b" by {
      assert forall i :: 0 <= i < 3 ==> SanitizeName("a b")[i] == "a_b"[i];
    }
  }

  // ---------------------------------------------------------------------
  // Rows.

  type Row = seq<string>

  /** The text forms of numbers and dates: `toString` and `parseFloat` for
      numbers, the ISO `YYYY-MM-DD` form for dates. */
  datatype CellFormat = CellFormat(
    showNumber: real -> string, parseNumber: string -> real,
    showDate: CalendarDate -> string, parseDate: string -> CalendarDate)

  /** Reading back the written amount and date of `p` gives them back. */
  predicate PurchaseRoundTrips(fmt: CellFormat, p: Purchase) {
    fmt.parseNumber(fmt.showNumber(p.amount)) == p.amount
    && fmt.parseDate(fmt.showDate(p.date)) == p.date
  }

  /** Reading back every number and date written for `budget` gives it back:
      the initial value, the monthly contribution and each purchase's amount
      and date. */
  predicate BudgetRoundTrips(fmt: CellFormat, budget: Budget) {
    && fmt.parseNumber(fmt.showNumber(budget.initialValue)) == budget.initialValue
    && fmt.parseNumber(fmt.showNumber(budget.monthlyContribution)) == budget.monthlyContribution
    && forall i :: 0 <= i < |budget.purchases| ==> PurchaseRoundTrips(fmt, budget.purchases[i])
  }

  /** `enabled.toString()`. */
  function BoolText(b: bool): (r: string)
    ensures (r == "true") == b
  {
    if b then "true" else "false"
  }

  const BudgetHeader: Row := ["name", "initialValue", "monthlyContribution"]
  const PurchaseHeader: Row := ["date", "amount", "description", "enabled"]

  /** The metadata row, its cells in the order of `BudgetHeader`. */
  function MetadataRow(budget: Budget, fmt: CellFormat): (r: Row)
    ensures |r| == |BudgetHeader| && !IsEmptyLine(r)
    ensures Cell(r, 0) == budget.name
    ensures Cell(r, 1) == fmt.showNumber(budget.initialValue)
    ensures Cell(r, 2) == fmt.showNumber(budget.monthlyContribution)
  {
    [budget.name, fmt.showNumber(budget.initialValue), fmt.showNumber(budget.monthlyContribution)]
  }

  /** A purchase's row, its cells in the order of `PurchaseHeader`. */
  function PurchaseRow(p: Purchase, fmt: CellFormat): (r: Row)
    ensures |r| == |PurchaseHeader| && !IsEmptyLine(r)
    ensures r[2] == p.description
    ensures (r[3] == "true") == p.enabled
  {
    [fmt.showDate(p.date), fmt.showNumber(p.amount), p.description, BoolText(p.enabled)]
  }

  function PurchaseRows(ps: seq<Purchase>, fmt: CellFormat): (r: seq<Row>)
    ensures |r| == |ps|
    ensures forall i :: 0 <= i < |ps| ==> r[i] == PurchaseRow(ps[i], fmt)
  {
    if ps == [] then [] else [PurchaseRow(ps[0], fmt)] + PurchaseRows(ps[1..], fmt)
  }

  /** The rows of a saved budget: the metadata header and row, an empty row,
      the purchase header and one row per purchase in list order. */
  function BudgetRows(budget: Budget, fmt: CellFormat): (r: seq<Row>)
    ensures |r| == 4 + |budget.purchases|
    ensures forall i :: 0 <= i < |r| ==> (IsEmptyLine(r[i]) <==> i == 2)
  {
    var rows := [BudgetHeader, MetadataRow(budget, fmt), [], PurchaseHeader] + PurchaseRows(budget.purchases, fmt);
    assert forall i :: 4 <= i < |rows| ==> rows[i] == PurchaseRow(budget.purchases[i - 4], fmt);
    rows
  }

  /** `saveBudget`'s row building, as the code pushes the rows one by one. */
  method SaveBudget(budget: Budget, fmt: CellFormat) returns (rows: seq<Row>)
    ensures rows == BudgetRows(budget, fmt)
  {
    rows := [];
    rows := rows + [["name", "initialValue", "monthlyContribution"]];
    rows := rows + [[budget.name, fmt.showNumber(budget.initialValue), fmt.showNumber(budget.monthlyContribution)]];
    rows := rows + [[]];
    rows := rows + [["date", "amount", "description", "enabled"]];
    ghost var head := rows;
    for k := 0 to |budget.purchases|
      invariant |rows| == 4 + k
      invariant rows[..4] == head
      invariant forall j :: 0 <= j < k ==> rows[4 + j] == PurchaseRow(budget.purchases[j], fmt)
    {
      var p := budget.purchases[k];
      rows := rows + [[fmt.showDate(p.date), fmt.showNumber(p.amount), p.description, BoolText(p.enabled)]];
    }
    assert rows == head + rows[4..];
    assert rows[4..] == PurchaseRows(budget.purchases, fmt);
  }

  /** The rows of a saved budget in their layout. */
  lemma BudgetRowsLayout(budget: Budget, fmt: CellFormat)
    ensures var rows := BudgetRows(budget, fmt);
      && |rows| == 4 + |budget.purchases|
      && rows[0] == ["name", "initialValue", "monthlyContribution"]
      && rows[1] == [budget.name, fmt.showNumber(budget.initialValue), fmt.showNumber(budget.monthlyContribution)]
      && rows[2] == []
      && rows[3] == ["date", "amount", "description", "enabled"]
      && forall i :: 0 <= i < |budget.purchases| ==>
           rows[4 + i] == [fmt.showDate(budget.purchases[i].date), fmt.showNumber(budget.purchases[i].amount),
                           budget.purchases[i].description, BoolText(budget.purchases[i].enabled)]
  {
    var rows := BudgetRows(budget, fmt);
    var tail := PurchaseRows(budget.purchases, fmt);
    forall i | 0 <= i < |budget.purchases| ensures rows[4 + i] == PurchaseRow(budget.purchases[i], fmt) {
      assert rows[4 + i] == tail[i];
    }
  }

  // ---------------------------------------------------------------------
  // Loading.

  /** A row whose text is an empty line: the CSV reader skips it
      (`skip_empty_lines`). */
  predicate IsEmptyLine(row: Row) {
    row == [] || row == [""]
  }

  function SkipEmptyLines(rows: seq<Row>): (r: seq<Row>)
    ensures |r| <= |rows|
    ensures forall i :: 0 <= i < |r| ==> !IsEmptyLine(r[i])
  {
    if rows == [] then []
    else (if IsEmptyLine(rows[0]) then [] else [rows[0]]) + SkipEmptyLines(rows[1..])
  }

  /** A cell of a row; a cell past the end reads as the empty text. */
  function Cell(row: Row, i: nat): (r: string)
    ensures i < |row| ==> r == row[i]
    ensures r != "" ==> i < |row|
  {
    if i < |row| then row[i] else ""
  }

  /** The row that opens the purchases: its first two cells are `date` and `amount`. */
  predicate IsPurchaseHeader(row: Row) {
    Cell(row, 0) == "date" && Cell(row, 1) == "amount"
  }

  /** The index of the first purchase header at or after `from`, or -1 when there is none. */
  function HeaderIndex(rows: seq<Row>, from: nat): (r: int)
    ensures r == -1 || (from <= r < |rows| && IsPurchaseHeader(rows[r]))
    ensures forall j :: from <= j < |rows| && (r == -1 || j < r) ==> !IsPurchaseHeader(rows[j])
    decreases |rows| - from
  {
    if from >= |rows| then -1
    else if IsPurchaseHeader(rows[from]) then from
    else HeaderIndex(rows, from + 1)
  }

  /** A purchase row: date, amount and description, and `enabled`, which is
      true when the row has no fourth cell (records written before the flag
      existed) and otherwise is whether that cell reads `true`. */
  function PurchaseFromRow(row: Row, fmt: CellFormat): (p: Purchase)
    requires |row| >= 3
    ensures p.description == row[2]
    ensures p.enabled <==> |row| < 4 || row[3] == "true"
  {
    Purchase(fmt.parseDate(row[0]), fmt.parseNumber(row[1]), row[2], if |row| >= 4 then row[3] == "true" else true)
  }

  /** The purchases of the rows from `from` on: one per row with at least three
      cells, in row order; shorter rows are dropped. */
  function ReadPurchases(rows: seq<Row>, from: nat, fmt: CellFormat): (r: seq<Purchase>)
    ensures from <= |rows| ==> |r| <= |rows| - from
    ensures from >= |rows| ==> r == []
    decreases |rows| - from
  {
    if from >= |rows| then []
    else (if |rows[from]| >= 3 then [PurchaseFromRow(rows[from], fmt)] else []) + ReadPurchases(rows, from + 1, fmt)
  }

  /** The rows from `from` on that have at least three cells. */
  function UsableRows(rows: seq<Row>, from: nat): (r: seq<Row>)
    ensures forall i :: 0 <= i < |r| ==> |r[i]| >= 3
    decreases |rows| - from
  {
    if from >= |rows| then []
    else (if |rows[from]| >= 3 then [rows[from]] else []) + UsableRows(rows, from + 1)
  }

  /** The rows kept from `from` on are those kept before `mid` followed by
      those kept from `mid` on; with `UsableRowsAllLong` and `UsableRowsAllShort`
      applied to one-row slices, this fixes which rows are kept for every input. */
  lemma {:induction false} UsableRowsSplit(rows: seq<Row>, from: nat, mid: nat)
    requires from <= mid <= |rows|
    ensures UsableRows(rows, from) == UsableRows(rows[..mid], from) + UsableRows(rows, mid)
    decreases mid - from
  {
    if from < mid {
      UsableRowsSplit(rows, from + 1, mid);
      assert rows[..mid][from] == rows[from];
      AppendAssoc(if |rows[from]| >= 3 then [rows[from]] else [], UsableRows(rows[..mid], from + 1), UsableRows(rows, mid));
    }
  }

  /** Reading the purchases drops the short rows and reads every other row, in order. */
  lemma {:induction false} ReadPurchasesOfUsableRows(rows: seq<Row>, from: nat, fmt: CellFormat)
    ensures var u := UsableRows(rows, from);
      && |ReadPurchases(rows, from, fmt)| == |u|
      && forall i :: 0 <= i < |u| ==> ReadPurchases(rows, from, fmt)[i] == PurchaseFromRow(u[i], fmt)
    decreases |rows| - from
  {
    if from < |rows| {
      ReadPurchasesOfUsableRows(rows, from + 1, fmt);
      var u, tail := UsableRows(rows, from), UsableRows(rows, from + 1);
      var r, rt := ReadPurchases(rows, from, fmt), ReadPurchases(rows, from + 1, fmt);
      if |rows[from]| >= 3 {
        assert u == [rows[from]] + tail && r == [PurchaseFromRow(rows[from], fmt)] + rt;
        forall i | 1 <= i < |u| ensures r[i] == PurchaseFromRow(u[i], fmt) {
          assert r[i] == rt[i - 1] && u[i] == tail[i - 1];
        }
      } else {
        assert u == tail && r == rt;
      }
    }
  }

  /** When every row from `from` on has at least three cells, all of them are kept, in order. */
  lemma {:induction false} UsableRowsAllLong(rows: seq<Row>, from: nat)
    requires from <= |rows|
    requires forall j :: from <= j < |rows| ==> |rows[j]| >= 3
    ensures UsableRows(rows, from) == rows[from..]
    decreases |rows| - from
  {
    if from < |rows| {
      UsableRowsAllLong(rows, from + 1);
      assert rows[from..] == [rows[from]] + rows[from + 1..];
    }
  }

  /** When every row from `from` on has fewer than three cells, none is kept. */
  lemma {:induction false} UsableRowsAllShort(rows: seq<Row>, from: nat)
    requires forall j :: from <= j < |rows| ==> |rows[j]| < 3
    ensures UsableRows(rows, from) == []
    decreases |rows| - from
  {
    if from < |rows| {
      UsableRowsAllShort(rows, from + 1);
    }
  }

  datatype LoadOutcome = Loaded(budget: Budget) | InvalidFormat

  /** The budget the rows of a file describe: the metadata from the second
      row, the purchases from the rows after the first purchase header found
      from the third row on, none without such a header. Fewer than two rows
      is an invalid file. */
  function ReadBudget(rows: seq<Row>, fmt: CellFormat): (r: LoadOutcome)
    ensures r.InvalidFormat? <==> |rows| < 2
    ensures r.Loaded? ==>
      && r.budget.name == Cell(rows[1], 0)
      && r.budget.initialValue == fmt.parseNumber(Cell(rows[1], 1))
      && r.budget.monthlyContribution == fmt.parseNumber(Cell(rows[1], 2))
    ensures r.Loaded? && HeaderIndex(rows, 2) == -1 ==> r.budget.purchases == []
    ensures r.Loaded? && HeaderIndex(rows, 2) >= 0 ==>
      r.budget.purchases == ReadPurchases(rows, HeaderIndex(rows, 2) + 1, fmt)
  {
    if |rows| < 2 then InvalidFormat
    else
      var meta := rows[1];
      var h := HeaderIndex(rows, 2);
      var purchases := if h == -1 then [] else ReadPurchases(rows, h + 1, fmt);
      Loaded(Budget(Cell(meta, 0), fmt.parseNumber(Cell(meta, 1)), fmt.parseNumber(Cell(meta, 2)), purchases))
  }

  /** With a purchase header found, the purchases are read from the rows after
      it that have at least three cells, one each, in row order. */
  lemma ReadBudgetWithHeader(rows: seq<Row>, fmt: CellFormat)
    requires |rows| >= 2 && HeaderIndex(rows, 2) >= 0
    ensures var u := UsableRows(rows, HeaderIndex(rows, 2) + 1);
      && ReadBudget(rows, fmt).Loaded?
      && |ReadBudget(rows, fmt).budget.purchases| == |u|
      && forall i :: 0 <= i < |u| ==> ReadBudget(rows, fmt).budget.purchases[i] == PurchaseFromRow(u[i], fmt)
  {
    ReadPurchasesOfUsableRows(rows, HeaderIndex(rows, 2) + 1, fmt);
  }

  /** `loadBudget`'s interpretation of the rows the CSV reader returns, with
      the header search and the purchase loop as the code runs them. */
  method LoadBudget(lines: seq<Row>, fmt: CellFormat) returns (r: LoadOutcome)
    ensures r == ReadBudget(SkipEmptyLines(lines), fmt)
  {
    var rows := SkipEmptyLines(lines);
    if |rows| < 2 {
      return InvalidFormat;
    }
    var metadataRow := rows[1];
    var name := Cell(metadataRow, 0);
    var initialValue := fmt.parseNumber(Cell(metadataRow, 1));
    var monthlyContribution := fmt.parseNumber(Cell(metadataRow, 2));

    var purchases: seq<Purchase> := [];
    var purchaseHeaderIndex := -1;
    for i := 2 to |rows|
      invariant purchaseHeaderIndex == -1
      invariant HeaderIndex(rows, i) == HeaderIndex(rows, 2)
    {
      if Cell(rows[i], 0) == "date" && Cell(rows[i], 1) == "amount" {
        purchaseHeaderIndex := i;
        break;
      }
    }
    assert purchaseHeaderIndex == HeaderIndex(rows, 2);

    if purchaseHeaderIndex >= 0 {
      for i := purchaseHeaderIndex + 1 to |rows|
        invariant purchases + ReadPurchases(rows, i, fmt) == ReadPurchases(rows, purchaseHeaderIndex + 1, fmt)
      {
        var row := rows[i];
        ghost var before := purchases;
        if |row| >= 3 {
          purchases := purchases + [Purchase(fmt.parseDate(row[0]), fmt.parseNumber(row[1]), row[2],
                                             if |row| >= 4 then row[3] == "true" else true)];
        }
        ReadStep(rows, i, fmt, before, purchases);
      }
    }
    return Loaded(Budget(name, initialValue, monthlyContribution, purchases));
  }

  /** One row of the purchase loop keeps "read so far, then the rest" fixed. */
  lemma ReadStep(rows: seq<Row>, i: nat, fmt: CellFormat, before: seq<Purchase>, after: seq<Purchase>)
    requires i < |rows|
    requires after == before + (if |rows[i]| >= 3 then [PurchaseFromRow(rows[i], fmt)] else [])
    ensures after + ReadPurchases(rows, i + 1, fmt) == before + ReadPurchases(rows, i, fmt)
  {
    var one := if |rows[i]| >= 3 then [PurchaseFromRow(rows[i], fmt)] else [];
    AppendAssoc(before, one, ReadPurchases(rows, i + 1, fmt));
  }

  // ---------------------------------------------------------------------
  // The round trip.

  lemma {:induction false} SkipEmptyLinesConcat(a: seq<Row>, b: seq<Row>)
    ensures SkipEmptyLines(a + b) == SkipEmptyLines(a) + SkipEmptyLines(b)
  {
    if a == [] {
      assert a + b == b;
    } else {
      assert (a + b)[0] == a[0] && (a + b)[1..] == a[1..] + b;
      SkipEmptyLinesConcat(a[1..], b);
      AppendAssoc(if IsEmptyLine(a[0]) then [] else [a[0]], SkipEmptyLines(a[1..]), SkipEmptyLines(b));
    }
  }

  /** Rows none of which is an empty line are read as they are. */
  lemma {:induction false} SkipNoEmptyLines(rows: seq<Row>)
    requires forall i :: 0 <= i < |rows| ==> !IsEmptyLine(rows[i])
    ensures SkipEmptyLines(rows) == rows
  {
    if rows != [] {
      assert forall i :: 0 <= i < |rows[1..]| ==> rows[1..][i] == rows[i + 1];
      SkipNoEmptyLines(rows[1..]);
    }
  }

  /** The reader drops the separator after the metadata row. */
  lemma SkipSeparator(meta: Row)
    requires |meta| == 3
    ensures SkipEmptyLines([BudgetHeader, meta, [], PurchaseHeader]) == [BudgetHeader, meta, PurchaseHeader]
  {
    var head: seq<Row> := [BudgetHeader, meta, [], PurchaseHeader];
    assert [PurchaseHeader][1..] == [] && SkipEmptyLines([PurchaseHeader]) == [PurchaseHeader];
    assert [[], PurchaseHeader][1..] == [PurchaseHeader] && SkipEmptyLines([[], PurchaseHeader]) == [PurchaseHeader];
    assert [meta, [], PurchaseHeader][1..] == [[], PurchaseHeader];
    assert SkipEmptyLines([meta, [], PurchaseHeader]) == [meta, PurchaseHeader];
    assert head[1..] == [meta, [], PurchaseHeader];
  }

  /** The rows the reader returns for a saved budget: all but the empty separator. */
  lemma SavedLines(budget: Budget, fmt: CellFormat)
    ensures SkipEmptyLines(BudgetRows(budget, fmt))
      == [BudgetHeader, MetadataRow(budget, fmt), PurchaseHeader] + PurchaseRows(budget.purchases, fmt)
  {
    var tail := PurchaseRows(budget.purchases, fmt);
    SkipEmptyLinesConcat([BudgetHeader, MetadataRow(budget, fmt), [], PurchaseHeader], tail);
    SkipNoEmptyLines(tail);
    SkipSeparator(MetadataRow(budget, fmt));
  }

  /** A purchase's row reads back as the purchase. */
  lemma PurchaseRowRoundTrip(p: Purchase, fmt: CellFormat)
    requires PurchaseRoundTrips(fmt, p)
    ensures PurchaseFromRow(PurchaseRow(p, fmt), fmt) == p
  {
  }

  /** Rows written for `ps`, placed from index `from` to the end, read back as `ps`. */
  lemma {:induction false} ReadWrittenPurchases(rows: seq<Row>, from: nat, ps: seq<Purchase>, fmt: CellFormat)
    requires forall j :: 0 <= j < |ps| ==> PurchaseRoundTrips(fmt, ps[j])
    requires from + |ps| == |rows|
    requires forall j :: 0 <= j < |ps| ==> rows[from + j] == PurchaseRow(ps[j], fmt)
    ensures ReadPurchases(rows, from, fmt) == ps
    decreases |ps|
  {
    if ps != [] {
      WrittenTail(rows, from, ps, fmt);
      ReadWrittenPurchases(rows, from + 1, ps[1..], fmt);
      PurchaseRowRoundTrip(ps[0], fmt);
      assert ps == [ps[0]] + ps[1..];
    }
  }

  /** The rows for `ps` from `from` on: the first purchase's row, then the rows for the rest. */
  lemma WrittenTail(rows: seq<Row>, from: nat, ps: seq<Purchase>, fmt: CellFormat)
    requires ps != []
    requires forall j :: 0 <= j < |ps| ==> PurchaseRoundTrips(fmt, ps[j])
    requires from + |ps| == |rows|
    requires forall j :: 0 <= j < |ps| ==> rows[from + j] == PurchaseRow(ps[j], fmt)
    ensures rows[from] == PurchaseRow(ps[0], fmt) && PurchaseRoundTrips(fmt, ps[0])
    ensures forall j :: 0 <= j < |ps[1..]| ==> PurchaseRoundTrips(fmt, ps[1..][j])
    ensures forall j :: 0 <= j < |ps[1..]| ==> rows[from + 1 + j] == PurchaseRow(ps[1..][j], fmt)
  {
    forall j | 0 <= j < |ps[1..]|
      ensures PurchaseRoundTrips(fmt, ps[1..][j]) && rows[from + 1 + j] == PurchaseRow(ps[1..][j], fmt)
    {
      assert ps[1..][j] == ps[j + 1] && rows[from + 1 + j] == rows[from + (j + 1)];
    }
  }

  /** Saving a budget and loading the file gives back the same name, values
      and purchases, in order and with their `enabled` flags, provided the
      text forms of its numbers and dates read back as written. */
  lemma SaveThenLoad(budget: Budget, fmt: CellFormat)
    requires BudgetRoundTrips(fmt, budget)
    ensures ReadBudget(SkipEmptyLines(BudgetRows(budget, fmt)), fmt) == Loaded(budget)
  {
    var rows := SkipEmptyLines(BudgetRows(budget, fmt));
    var tail := PurchaseRows(budget.purchases, fmt);
    SavedLines(budget, fmt);
    assert rows[1] == MetadataRow(budget, fmt);
    assert rows[2] == PurchaseHeader;
    assert HeaderIndex(rows, 2) == 2;
    forall j | 0 <= j < |budget.purchases| ensures rows[3 + j] == PurchaseRow(budget.purchases[j], fmt) {
      assert rows[3 + j] == tail[j];
    }
    ReadWrittenPurchases(rows, 3, budget.purchases, fmt);
  }

  /** The assumption of `SaveThenLoad` can be met: a format that writes 0 and
      50 as "0" and "50" and one date as "2024-03-15" round-trips a budget
      built from those values, and the budget loads back unchanged. */
  lemma SaveThenLoadExample()
    ensures var fmt := CellFormat(x => if x == 50.0 then "50" else "0", t => if t == "50" then 50.0 else 0.0,
                                  d => "2024-03-15", t => Date(2024, 3, 15));
      var b := Budget("trip", 0.0, 50.0, [Purchase(Date(2024, 3, 15), 50.0, "laptop", true)]);
      && BudgetRoundTrips(fmt, b)
      && ReadBudget(SkipEmptyLines(BudgetRows(b, fmt)), fmt) == Loaded(b)
  {
    var fmt := CellFormat(x => if x == 50.0 then "50" else "0", t => if t == "50" then 50.0 else 0.0,
                          d => "2024-03-15", t => Date(2024, 3, 15));
    var b := Budget("trip", 0.0, 50.0, [Purchase(Date(2024, 3, 15), 50.0, "laptop", true)]);
    assert BudgetRoundTrips(fmt, b);
    SaveThenLoad(b, fmt);
  }
}
