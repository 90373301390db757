/**
 * The statement aggregator: classifies the columns of every extracted table
 * as debit or credit by header keywords and sums the strictly positive
 * cleaned amounts of each class. The tables come in as values; opening the
 * PDF and extracting its tables are done by a library that is not modelled.
 */
module Statement {
  import opened Wrappers
  import Amount

  /** A cell as the table extractor gives it: text, or nothing. */
  type Cell = Option<string>
  type Row = seq<Cell>
  /** Row 0 holds the column headers, the other rows are data. */
  type Table = seq<Row>

  /** What the extractor produced for one page. */
  datatype PageTables = Extracted(tables: seq<Table>) | ExtractionFailed(reason: string)

  /** The uploaded file: either it could not be opened, or it has pages. */
  datatype Pdf = Unreadable(reason: string) | Opened(pages: seq<PageTables>)

  /** The exceptions that abort an analysis. */
  datatype Failure =
    | OpenFailed(reason: string)
    | ExtractFailed(reason: string)
      /** the table frame rejects data whose widest row differs from the header count */
    | ColumnCountMismatch(columns: nat, width: nat)
      /** a missing header has no lower() */
    | HeaderNotText

  datatype Tally = Tally(debit: real, credit: real)

  /** What calculate_totals returns: the two totals and the error, if any. */
  datatype Outcome = Outcome(debit: real, credit: real, error: Option<Failure>)

  const DebitKeywords: seq<string> := ["debit", "dr", "withdrawal", "paid"]
  const CreditKeywords: seq<string> := ["credit", "cr", "deposit", "received"]

  const Zero: Tally := Tally(0.0, 0.0)

  // ---------------------------------------------------------------------
  // Cells and columns

  /** str() of a cell: missing text becomes "None". A row shorter than the
      header is padded by the table frame with missing cells. */
  function CellText(row: Row, j: nat): string {
    if j < |row| && row[j].Some? then row[j].value else "None"
  }

  /** Python's substring test: k occurs somewhere in s. */
  predicate Contains(s: string, k: string)
    decreases |s|
  {
    |k| <= |s| && (s[..|k|] == k || Contains(s[1..], k))
  }

  /** The header, lower-cased, contains one of the keywords. */
  predicate Matches(header: string, keywords: seq<string>) {
    ContainsAny(Amount.Lower(header), keywords)
  }

  /** Some keyword occurs in the text: the keywords are tried in order. */
  predicate ContainsAny(text: string, keywords: seq<string>) {
    |keywords| > 0 && (Contains(text, keywords[0]) || ContainsAny(text, keywords[1..]))
  }

  /** The column comprehension: the positions of the headers that match, in order. */
  function ColumnsMatching(headers: seq<string>, keywords: seq<string>): (cols: seq<nat>)
    ensures forall k | 0 <= k < |cols| :: cols[k] < |headers| && Matches(headers[cols[k]], keywords)
    ensures forall j | 0 <= j < |headers| && Matches(headers[j], keywords) :: j in cols
    ensures forall k, l | 0 <= k < l < |cols| :: cols[k] < cols[l]
  {
    if headers == [] then []
    else
      var init := ColumnsMatching(headers[..|headers| - 1], keywords);
      if Matches(headers[|headers| - 1], keywords) then init + [|headers| - 1] else init
  }

  /** The headers as text, or None when some header is missing. */
  function HeaderTexts(header: Row): (r: Option<seq<string>>)
    ensures r.Some? <==> forall j | 0 <= j < |header| :: header[j].Some?
    ensures r.Some? ==> |r.value| == |header| && forall j | 0 <= j < |header| :: r.value[j] == header[j].value
  {
    if forall j | 0 <= j < |header| :: header[j].Some?
    then Some(seq(|header|, j requires 0 <= j < |header| => header[j].value))
    else None
  }

  /** How often a name occurs among the headers. */
  function Occurrences(headers: seq<string>, name: string): nat {
    if headers == [] then 0
    else Occurrences(headers[..|headers| - 1], name) + (if headers[|headers| - 1] == name then 1 else 0)
  }

  /**
   * What iterating the frame's selection by the label at position j visits. A label
   * that occurs once selects that column, whose values are the data rows'
   * cells as text. A label that occurs k > 1 times selects all k columns as a
   * frame, and iterating a frame yields its column labels: the label, k times.
   */
  function ColumnValues(t: Table, headers: seq<string>, j: nat): (values: seq<string>)
    requires |t| >= 1 && j < |headers|
    ensures Occurrences(headers, headers[j]) == 1 ==>
              |values| == |t| - 1 && forall r | 1 <= r < |t| :: values[r - 1] == CellText(t[r], j)
    ensures Occurrences(headers, headers[j]) != 1 ==>
              |values| == Occurrences(headers, headers[j]) && forall v | v in values :: v == headers[j]
  {
    var n := Occurrences(headers, headers[j]);
    if n == 1 then seq(|t| - 1, r requires 0 <= r < |t| - 1 => CellText(t[r + 1], j))
    else seq(n, _ => headers[j])
  }

  // ---------------------------------------------------------------------
  // Totals

  /** The amount a value adds to a total: only strictly positive amounts count. */
  function Positive(x: real): (r: real)
    ensures r >= 0.0
    ensures x > 0.0 ==> r == x
    ensures x <= 0.0 ==> r == 0.0
  {
    if x > 0.0 then x else 0.0
  }

  /** The cleaned amount of every value, in order. */
  function Amounts(values: seq<string>): (xs: seq<real>)
    ensures |xs| == |values| && forall i | 0 <= i < |values| :: xs[i] == Amount.CleanAmount(Some(values[i]))
  {
    if values == [] then []
    else Amounts(values[..|values| - 1]) + [Amount.CleanAmount(Some(values[|values| - 1]))]
  }

  /** The sum of the strictly positive amounts, in order. */
  function PositiveTotal(xs: seq<real>): (total: real)
    ensures total >= 0.0
  {
    if xs == [] then 0.0 else PositiveTotal(xs[..|xs| - 1]) + Positive(xs[|xs| - 1])
  }

  predicate ValidColumns(headers: seq<string>, cols: seq<nat>) {
    forall k | 0 <= k < |cols| :: cols[k] < |headers|
  }

  /** The positive totals of the listed columns, added up. */
  function ColumnsTotal(t: Table, headers: seq<string>, cols: seq<nat>): (total: real)
    requires |t| >= 1 && ValidColumns(headers, cols)
    ensures total >= 0.0
  {
    if cols == [] then 0.0
    else ColumnsTotal(t, headers, cols[..|cols| - 1]) + PositiveTotal(Amounts(ColumnValues(t, headers, cols[|cols| - 1])))
  }

  /** The width of the widest data row, as the table frame sees it. */
  function DataWidth(rows: seq<Row>): (w: nat)
    ensures forall r | 0 <= r < |rows| :: |rows[r]| <= w
    ensures rows == [] ==> w == 0
    ensures rows != [] ==> exists r | 0 <= r < |rows| :: |rows[r]| == w
  {
    if rows == [] then 0
    else
      var w := DataWidth(rows[..|rows| - 1]);
      var last := |rows[|rows| - 1]|;
      if last > w then last else w
  }

  predicate NonNegative(r: Result<Tally, Failure>) {
    r.Success? ==> r.value.debit >= 0.0 && r.value.credit >= 0.0
  }

  /** One table's contribution, or the failure it raises: a table with fewer
      than two rows is skipped. */
  function TableTotals(t: Table): (r: Result<Tally, Failure>)
    ensures NonNegative(r)
  {
    if |t| < 2 then Success(Zero) else FrameTotals(t)
  }

  /** The data frame built from rows 1.. with row 0 as column labels, and what is summed from it. */
  function FrameTotals(t: Table): (r: Result<Tally, Failure>)
    requires |t| >= 2
    ensures NonNegative(r)
  {
    if DataWidth(t[1..]) != |t[0]| then Failure(ColumnCountMismatch(|t[0]|, DataWidth(t[1..])))
    else match HeaderTexts(t[0])
      case None => Failure(HeaderNotText)
      case Some(headers) => Success(ClassifiedTotals(t, headers))
  }

  /** The debit columns summed into the debit total, the credit columns into the credit total. */
  function ClassifiedTotals(t: Table, headers: seq<string>): (r: Tally)
    requires |t| >= 1
    ensures r.debit >= 0.0 && r.credit >= 0.0
  {
    Tally(ColumnsTotal(t, headers, ColumnsMatching(headers, DebitKeywords)),
          ColumnsTotal(t, headers, ColumnsMatching(headers, CreditKeywords)))
  }

  /** Sequencing two steps: the first failure wins, otherwise the tallies add up. */
  function Then(a: Result<Tally, Failure>, b: Result<Tally, Failure>): (r: Result<Tally, Failure>)
    ensures NonNegative(a) && NonNegative(b) ==> NonNegative(r)
    ensures r.Failure? <==> a.Failure? || b.Failure?
  {
    if a.Failure? then a
    else if b.Failure? then b
    else Success(Tally(a.value.debit + b.value.debit, a.value.credit + b.value.credit))
  }

  /** Running the steps for xs one after the other. */
  function Fold<T>(xs: seq<T>, step: T -> Result<Tally, Failure>): (r: Result<Tally, Failure>)
    ensures (forall i | 0 <= i < |xs| :: NonNegative(step(xs[i]))) ==> NonNegative(r)
  {
    if xs == [] then Success(Zero)
    else Then(Fold(xs[..|xs| - 1], step), step(xs[|xs| - 1]))
  }

  function PageTotals(p: PageTables): (r: Result<Tally, Failure>)
    ensures NonNegative(r)
  {
    match p
    case ExtractionFailed(reason) => Failure(ExtractFailed(reason))
    case Extracted(tables) => Fold(tables, TableTotals)
  }

  /** calculate_totals as a value: both totals, or (0, 0) and the failure. */
  function Analyze(pdf: Pdf): (o: Outcome)
    ensures o.debit >= 0.0 && o.credit >= 0.0
    ensures o.error.Some? ==> o.debit == 0.0 && o.credit == 0.0
  {
    var r := match pdf
      case Unreadable(reason) => Failure(OpenFailed(reason))
      case Opened(pages) => Fold(pages, PageTotals);
    match r
    case Success(t) => Outcome(t.debit, t.credit, None)
    case Failure(f) => Outcome(0.0, 0.0, Some(f))
  }

  // ---------------------------------------------------------------------
  // The imperative aggregation

  /** The innermost loop of calculate_totals, over the values of one column: add every
      strictly positive cleaned value to the running total. */
  method AddPositive(values: seq<string>, start: real) returns (total: real)
    ensures total == start + PositiveTotal(Amounts(values))
  {
    ghost var amounts := Amounts(values);
    total := start;
    var k := 0;
    while k < |values|
      invariant 0 <= k <= |values|
      invariant total == start + PositiveTotal(amounts[..k])
    {
      var amount := Amount.CleanAmount(Some(values[k]));
      if amount > 0.0 {
        total := total + amount;
      }
      PositiveTotalStep(amounts, k);
      k := k + 1;
    }
    assert amounts[..k] == amounts;
  }

  /** The debit (or credit) column loop of calculate_totals: for every listed column,
      for every value, add the cleaned amount to the running total when it is
      strictly positive. */
  method AccumulateColumns(t: Table, headers: seq<string>, cols: seq<nat>, start: real)
    returns (total: real)
    requires |t| >= 1 && ValidColumns(headers, cols)
    ensures total == start + ColumnsTotal(t, headers, cols)
  {
    total := start;
    var c := 0;
    while c < |cols|
      invariant 0 <= c <= |cols|
      invariant total == start + ColumnsTotal(t, headers, cols[..c])
    {
      var values := ColumnValues(t, headers, cols[c]);
      total := AddPositive(values, total);
      assert cols[..c + 1][..c] == cols[..c];
      c := c + 1;
    }
    assert cols[..c] == cols;
  }

  /** The body of the table loop of calculate_totals: skip a table with fewer than
      two rows, otherwise build the frame, classify its columns and add up both classes. */
  method AddTable(table: Table, debit: real, credit: real)
    returns (newDebit: real, newCredit: real, failure: Option<Failure>)
    ensures TableTotals(table).Failure? ==> failure == Some(TableTotals(table).error)
    ensures TableTotals(table).Success? ==>
              failure.None? && newDebit == debit + TableTotals(table).value.debit
              && newCredit == credit + TableTotals(table).value.credit
  {
    newDebit, newCredit, failure := debit, credit, None;
    if |table| > 1 {
      var width := DataWidth(table[1..]);
      if width != |table[0]| {
        return debit, credit, Some(ColumnCountMismatch(|table[0]|, width));
      }
      var headers := HeaderTexts(table[0]);
      if headers.None? {
        return debit, credit, Some(HeaderNotText);
      }
      var debitCols := ColumnsMatching(headers.value, DebitKeywords);
      var creditCols := ColumnsMatching(headers.value, CreditKeywords);
      newDebit := AccumulateColumns(table, headers.value, debitCols, debit);
      newCredit := AccumulateColumns(table, headers.value, creditCols, credit);
    }
  }

  /** The table loop of calculate_totals: the tables of one page, one after the other. */
  method AddTables(tables: seq<Table>, debit: real, credit: real)
    returns (newDebit: real, newCredit: real, failure: Option<Failure>)
    ensures Then(Success(Tally(debit, credit)), Fold(tables, TableTotals))
            == if failure.Some? then Failure(failure.value) else Success(Tally(newDebit, newCredit))
  {
    newDebit, newCredit, failure := debit, credit, None;
    var i := 0;
    while i < |tables|
      invariant 0 <= i <= |tables|
      invariant failure.None?
      invariant Then(Success(Tally(debit, credit)), Fold(tables[..i], TableTotals)) == Success(Tally(newDebit, newCredit))
    {
      ghost var acc := Tally(newDebit, newCredit);
      newDebit, newCredit, failure := AddTable(tables[i], newDebit, newCredit);
      if failure.Some? {
        FoldAborts(tables, TableTotals, i, Tally(debit, credit), acc);
        return;
      }
      FoldAccumulates(tables, TableTotals, i, Tally(debit, credit), acc, Tally(newDebit, newCredit));
      i := i + 1;
    }
    assert tables[..i] == tables;
  }

  /** calculate_totals over the extracted pages: the same totals and failure as Analyze. */
  method CalculateTotals(pdf: Pdf) returns (debit: real, credit: real, error: Option<Failure>)
    ensures Outcome(debit, credit, error) == Analyze(pdf)
  {
    if pdf.Unreadable? {
      return 0.0, 0.0, Some(OpenFailed(pdf.reason));
    }
    var pages := pdf.pages;
    var totalDebit, totalCredit := 0.0, 0.0;
    var p := 0;
    while p < |pages|
      invariant 0 <= p <= |pages|
      invariant Fold(pages[..p], PageTotals) == Success(Tally(totalDebit, totalCredit))
    {
      FoldStep(pages, PageTotals, p);
      if pages[p].ExtractionFailed? {
        FirstFailureDecides(pages, PageTotals, p);
        return 0.0, 0.0, Some(ExtractFailed(pages[p].reason));
      }
      var failure;
      totalDebit, totalCredit, failure := AddTables(pages[p].tables, totalDebit, totalCredit);
      if failure.Some? {
        FirstFailureDecides(pages, PageTotals, p);
        return 0.0, 0.0, failure;
      }
      p := p + 1;
    }
    assert pages[..p] == pages;
    return totalDebit, totalCredit, None;
  }

  // ---------------------------------------------------------------------
  // Folding facts

  /** The first failing step decides the result of the whole fold. */
  lemma {:induction false} FirstFailureDecides<T>(xs: seq<T>, step: T -> Result<Tally, Failure>, i: nat)
    requires i < |xs| && Fold(xs[..i], step).Success? && step(xs[i]).Failure?
    ensures Fold(xs, step) == step(xs[i])
  {
    if |xs| == i + 1 {
      assert xs[..|xs| - 1] == xs[..i];
    } else {
      var init := xs[..|xs| - 1];
      assert init[..i] == xs[..i];
      FirstFailureDecides(init, step, i);
    }
  }

  lemma {:induction false} FoldStep<T>(xs: seq<T>, step: T -> Result<Tally, Failure>, i: nat)
    requires i < |xs|
    ensures Fold(xs[..i + 1], step) == Then(Fold(xs[..i], step), step(xs[i]))
  {
    assert xs[..i + 1][..i] == xs[..i];
  }

  lemma {:induction false} PositiveTotalStep(xs: seq<real>, k: nat)
    requires k < |xs|
    ensures PositiveTotal(xs[..k + 1]) == PositiveTotal(xs[..k]) + Positive(xs[k])
  {
    assert xs[..k + 1][..k] == xs[..k];
  }

  /** One more successful step adds its tally to the accumulated prefix. */
  lemma {:induction false} FoldAccumulates<T>(xs: seq<T>, step: T -> Result<Tally, Failure>, i: nat,
                                              start: Tally, acc: Tally, next: Tally)
    requires i < |xs|
    requires Then(Success(start), Fold(xs[..i], step)) == Success(acc)
    requires step(xs[i]).Success?
    requires next.debit == acc.debit + step(xs[i]).value.debit
    requires next.credit == acc.credit + step(xs[i]).value.credit
    ensures Then(Success(start), Fold(xs[..i + 1], step)) == Success(next)
  {
    FoldStep(xs, step, i);
    ThenAssociates(Success(start), Fold(xs[..i], step), step(xs[i]));
  }

  /** A failing step after a successful prefix is the result of the whole fold. */
  lemma {:induction false} FoldAborts<T>(xs: seq<T>, step: T -> Result<Tally, Failure>, i: nat, start: Tally, acc: Tally)
    requires i < |xs|
    requires Then(Success(start), Fold(xs[..i], step)) == Success(acc)
    requires step(xs[i]).Failure?
    ensures Then(Success(start), Fold(xs, step)) == step(xs[i])
  {
    FirstFailureDecides(xs, step, i);
  }

  lemma {:induction false} ThenAssociates(a: Result<Tally, Failure>, b: Result<Tally, Failure>, c: Result<Tally, Failure>)
    ensures Then(Then(a, b), c) == Then(a, Then(b, c))
  {
  }
}
