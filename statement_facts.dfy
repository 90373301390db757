/**
 * What the aggregation promises: only strictly positive amounts count, the
 * totals never decrease, short tables and the header row add nothing, the
 * first failure aborts the whole analysis, and the column classification is
 * exactly the keyword test.
 */
module StatementFacts {
  import opened Wrappers
  import opened Statement
  import Amount

  // ---------------------------------------------------------------------
  // Positive totals

  /** The positive total of a concatenation is the sum of the positive totals. */
  lemma {:induction false} PositiveTotalAppend(xs: seq<real>, ys: seq<real>)
    ensures PositiveTotal(xs + ys) == PositiveTotal(xs) + PositiveTotal(ys)
  {
    if ys == [] {
      assert xs + ys == xs;
    } else {
      var init := ys[..|ys| - 1];
      assert (xs + ys)[..|xs + ys| - 1] == xs + init;
      PositiveTotalAppend(xs, init);
    }
  }

  /** A zero or negative amount adds nothing; a positive one adds itself. */
  lemma {:induction false} OnlyPositiveAmountsCount(xs: seq<real>, x: real)
    ensures x <= 0.0 ==> PositiveTotal(xs + [x]) == PositiveTotal(xs)
    ensures x > 0.0 ==> PositiveTotal(xs + [x]) == PositiveTotal(xs) + x
  {
    assert (xs + [x])[..|xs|] == xs;
  }

  /** Amounts that are all zero or negative total nothing. */
  lemma {:induction false} NoPositiveAmountsTotalZero(xs: seq<real>)
    requires forall i | 0 <= i < |xs| :: xs[i] <= 0.0
    ensures PositiveTotal(xs) == 0.0
  {
    if xs != [] {
      NoPositiveAmountsTotalZero(xs[..|xs| - 1]);
    }
  }

  /** The running total never decreases: every prefix totals at most the whole. */
  lemma {:induction false} PositiveTotalGrows(xs: seq<real>, k: nat)
    requires k <= |xs|
    ensures PositiveTotal(xs[..k]) <= PositiveTotal(xs)
  {
    assert xs == xs[..k] + xs[k..];
    PositiveTotalAppend(xs[..k], xs[k..]);
  }

  // ---------------------------------------------------------------------
  // Folding the steps

  /** Folding a concatenation is sequencing the two folds. */
  lemma {:induction false} FoldAppend<T>(xs: seq<T>, ys: seq<T>, step: T -> Result<Tally, Failure>)
    ensures Fold(xs + ys, step) == Then(Fold(xs, step), Fold(ys, step))
  {
    if ys == [] {
      assert xs + ys == xs;
      ThenZero(Fold(xs, step));
    } else {
      var init := ys[..|ys| - 1];
      assert (xs + ys)[..|xs + ys| - 1] == xs + init;
      FoldAppend(xs, init, step);
      ThenAssociates(Fold(xs, step), Fold(init, step), step(ys[|ys| - 1]));
    }
  }

  lemma {:induction false} ThenZero(a: Result<Tally, Failure>)
    ensures Then(a, Success(Zero)) == a
  {
    if a.Success? {
      assert Then(a, Success(Zero)).value == a.value;
    }
  }

  /** The fold fails exactly when one of its steps fails. */
  lemma {:induction false} FoldFailsIff<T>(xs: seq<T>, step: T -> Result<Tally, Failure>)
    ensures Fold(xs, step).Failure? <==> exists i | 0 <= i < |xs| :: step(xs[i]).Failure?
  {
    if xs != [] {
      var init := xs[..|xs| - 1];
      FoldFailsIff(init, step);
      if exists i | 0 <= i < |init| :: step(init[i]).Failure? {
        var i :| 0 <= i < |init| && step(init[i]).Failure?;
        assert step(xs[i]).Failure?;
      }
      if exists i | 0 <= i < |xs| :: step(xs[i]).Failure? {
        var i :| 0 <= i < |xs| && step(xs[i]).Failure?;
        if i < |init| {
          assert step(init[i]).Failure?;
        }
      }
    }
  }

  /** A step that yields zero tallies changes nothing, wherever it sits. */
  lemma {:induction false} ZeroStepSkipped<T>(xs: seq<T>, x: T, ys: seq<T>, step: T -> Result<Tally, Failure>)
    requires step(x) == Success(Zero)
    ensures Fold(xs + [x] + ys, step) == Fold(xs + ys, step)
  {
    FoldAppend(xs + [x], ys, step);
    FoldAppend(xs, ys, step);
    assert (xs + [x])[..|xs|] == xs;
    ThenZero(Fold(xs, step));
  }

  /** Along the fold the tallies never decrease while no step has failed. */
  lemma {:induction false} FoldGrows<T>(xs: seq<T>, step: T -> Result<Tally, Failure>, k: nat)
    requires k <= |xs|
    requires forall i | 0 <= i < |xs| :: NonNegative(step(xs[i]))
    requires Fold(xs, step).Success?
    ensures Fold(xs[..k], step).Success?
    ensures Fold(xs[..k], step).value.debit <= Fold(xs, step).value.debit
    ensures Fold(xs[..k], step).value.credit <= Fold(xs, step).value.credit
  {
    assert xs == xs[..k] + xs[k..];
    FoldAppend(xs[..k], xs[k..], step);
    var rest := xs[k..];
    assert forall i | 0 <= i < |rest| :: NonNegative(step(rest[i])) by {
      forall i | 0 <= i < |rest| ensures NonNegative(step(rest[i])) {
        assert rest[i] == xs[k + i];
      }
    }
  }

  // ---------------------------------------------------------------------
  // Column classification

  /** k occurs in s starting at position p. */
  predicate OccursAt(s: string, k: string, p: nat) {
    p + |k| <= |s| && s[p..p + |k|] == k
  }

  /** The substring test holds exactly when k occurs at some position of s. */
  lemma {:induction false} ContainsIff(s: string, k: string)
    ensures Contains(s, k) <==> exists p: nat :: OccursAt(s, k, p)
    decreases |s|
  {
    if |k| <= |s| && s[..|k|] == k {
      assert OccursAt(s, k, 0);
    } else if |k| <= |s| {
      ContainsIff(s[1..], k);
      if Contains(s, k) {
        var p: nat :| OccursAt(s[1..], k, p);
        assert s[p + 1..p + 1 + |k|] == s[1..][p..p + |k|];
        assert OccursAt(s, k, p + 1);
      }
      if exists p: nat :: OccursAt(s, k, p) {
        var p: nat :| OccursAt(s, k, p);
        assert p > 0;
        assert s[1..][p - 1..p - 1 + |k|] == s[p..p + |k|];
        assert OccursAt(s[1..], k, p - 1);
      }
    }
  }

  /** A keyword holding a letter the text lacks does not occur in it. */
  lemma {:induction false} MissingLetterExcludes(s: string, k: string, i: nat)
    requires i < |k| && k[i] !in s
    ensures !Contains(s, k)
  {
    ContainsIff(s, k);
  }

  /** A header matches a keyword list exactly when one of the keywords occurs in its lower-case form. */
  lemma {:induction false} MatchesIff(header: string, keywords: seq<string>)
    ensures Matches(header, keywords)
            <==> exists i | 0 <= i < |keywords| :: Contains(Amount.Lower(header), keywords[i])
  {
    AnyKeywordIff(Amount.Lower(header), keywords);
  }

  lemma {:induction false} AnyKeywordIff(text: string, keywords: seq<string>)
    ensures ContainsAny(text, keywords) <==> exists i | 0 <= i < |keywords| :: Contains(text, keywords[i])
  {
    if keywords != [] {
      var rest := keywords[1..];
      AnyKeywordIff(text, rest);
      if exists i | 0 <= i < |rest| :: Contains(text, rest[i]) {
        var i :| 0 <= i < |rest| && Contains(text, rest[i]);
        assert keywords[i + 1] == rest[i];
      }
      if exists i | 0 <= i < |keywords| :: Contains(text, keywords[i]) {
        var i :| 0 <= i < |keywords| && Contains(text, keywords[i]);
        if i > 0 {
          assert rest[i - 1] == keywords[i];
        }
      }
    }
  }

  // ---------------------------------------------------------------------
  // What is summed

  /** The header row is never read as an amount: tables that differ only in row 0 sum alike. */
  lemma {:induction false} HeaderRowNeverSummed(t: Table, u: Table, headers: seq<string>, cols: seq<nat>)
    requires |t| >= 1 && |u| >= 1 && t[1..] == u[1..] && ValidColumns(headers, cols)
    ensures ColumnsTotal(t, headers, cols) == ColumnsTotal(u, headers, cols)
  {
    if cols != [] {
      var init := cols[..|cols| - 1];
      var j := cols[|cols| - 1];
      HeaderRowNeverSummed(t, u, headers, init);
      var a, b := ColumnValues(t, headers, j), ColumnValues(u, headers, j);
      if Occurrences(headers, headers[j]) == 1 {
        assert |t| == |u|;
        forall i | 0 <= i < |t| - 1 ensures a[i] == b[i] {
          assert t[i + 1] == t[1..][i] == u[i + 1];
        }
      }
      assert a == b;
    }
  }

  /** A missing cell, or a cell beyond the end of a short row, reads "None" and counts 0. */
  lemma {:induction false} MissingCellCountsZero(row: Row, j: nat)
    requires j >= |row| || row[j].None?
    ensures CellText(row, j) == "None"
    ensures Amount.CleanAmount(Some(CellText(row, j))) == 0.0
  {
    assert Amount.Lower("None") == "none";
    Amount.NullMarkersCleanToZero("", "None", "");
    assert "" + "None" + "" == "None";
  }

  /** The first letter of every keyword is one the number parser never accepts. */
  lemma {:induction false} KeywordStartsForeign(keywords: seq<string>, i: nat, c: char)
    requires keywords == DebitKeywords || keywords == CreditKeywords
    requires i < |keywords| && Amount.LowerChar(c) == keywords[i][0]
    ensures Amount.IsForeign(c)
  {
  }

  /** A header that names a keyword is not an amount: it cleans to 0. */
  lemma {:induction false} KeywordHeaderCleansToZero(header: string, keywords: seq<string>)
    requires keywords == DebitKeywords || keywords == CreditKeywords
    requires Matches(header, keywords)
    ensures Amount.CleanAmount(Some(header)) == 0.0
  {
    MatchesIff(header, keywords);
    var i :| 0 <= i < |keywords| && Contains(Amount.Lower(header), keywords[i]);
    var k := keywords[i];
    var l := Amount.Lower(header);
    ContainsIff(l, k);
    var p: nat :| OccursAt(l, k, p);
    assert l[p] == l[p..p + |k|][0] == k[0];
    KeywordStartsForeign(keywords, i, header[p]);
    Amount.ForeignCharacterCleansToZero(header, p);
  }

  /**
   * A classified label that occurs more than once in the header row adds
   * nothing: iterating the selected frame visits the label itself, which
   * cleans to 0.
   */
  lemma {:induction false} DuplicateHeaderAddsNothing(t: Table, headers: seq<string>, j: nat, keywords: seq<string>)
    requires |t| >= 1 && j < |headers| && Occurrences(headers, headers[j]) != 1
    requires keywords == DebitKeywords || keywords == CreditKeywords
    requires Matches(headers[j], keywords)
    ensures PositiveTotal(Amounts(ColumnValues(t, headers, j))) == 0.0
  {
    var values := ColumnValues(t, headers, j);
    var xs := Amounts(values);
    KeywordHeaderCleansToZero(headers[j], keywords);
    forall i | 0 <= i < |xs| ensures xs[i] <= 0.0 {
      assert values[i] in values;
    }
    NoPositiveAmountsTotalZero(xs);
  }

  /** A listed column's positive total is part of the sum over the listed columns. */
  lemma {:induction false} ColumnCounted(t: Table, headers: seq<string>, cols: seq<nat>, j: nat)
    requires |t| >= 1 && ValidColumns(headers, cols) && j < |headers| && j in cols
    ensures ColumnsTotal(t, headers, cols) >= PositiveTotal(Amounts(ColumnValues(t, headers, j)))
  {
    var init := cols[..|cols| - 1];
    assert ValidColumns(headers, init) by {
      forall k | 0 <= k < |init| ensures init[k] < |headers| { assert init[k] == cols[k]; }
    }
    if cols[|cols| - 1] != j {
      assert j in init by {
        var k :| 0 <= k < |cols| && cols[k] == j;
        assert init[k] == j;
      }
      ColumnCounted(t, headers, init, j);
    }
  }

  /**
   * The two classifications are independent: a header that names a debit
   * keyword and a credit keyword has its values added to both totals.
   */
  lemma {:induction false} BothListsCountBoth(t: Table, headers: seq<string>, j: nat)
    requires |t| >= 1 && j < |headers|
    requires Matches(headers[j], DebitKeywords) && Matches(headers[j], CreditKeywords)
    ensures ClassifiedTotals(t, headers).debit >= PositiveTotal(Amounts(ColumnValues(t, headers, j)))
    ensures ClassifiedTotals(t, headers).credit >= PositiveTotal(Amounts(ColumnValues(t, headers, j)))
  {
    ColumnCounted(t, headers, ColumnsMatching(headers, DebitKeywords), j);
    ColumnCounted(t, headers, ColumnsMatching(headers, CreditKeywords), j);
  }

  // ---------------------------------------------------------------------
  // Duplicate labels

  lemma {:induction false} OccurrencesAbsent(headers: seq<string>, name: string)
    requires forall k | 0 <= k < |headers| :: headers[k] != name
    ensures Occurrences(headers, name) == 0
  {
    if headers != [] {
      OccurrencesAbsent(headers[..|headers| - 1], name);
    }
  }

  lemma {:induction false} OccurrencesOnly(headers: seq<string>, j: nat)
    requires j < |headers|
    requires forall k | 0 <= k < |headers| && k != j :: headers[k] != headers[j]
    ensures Occurrences(headers, headers[j]) == 1
  {
    var init := headers[..|headers| - 1];
    if j == |headers| - 1 {
      OccurrencesAbsent(init, headers[j]);
    } else {
      assert init[j] == headers[j];
      OccurrencesOnly(init, j);
    }
  }

  lemma {:induction false} OccurrencesTwice(headers: seq<string>, j: nat, k: nat)
    requires j < k < |headers| && headers[j] == headers[k]
    ensures Occurrences(headers, headers[j]) >= 2
  {
    var init := headers[..|headers| - 1];
    if k == |headers| - 1 {
      assert init[j] == headers[j];
      OccurrencesPresent(init, j);
    } else {
      assert init[j] == headers[j] && init[k] == headers[k];
      OccurrencesTwice(init, j, k);
    }
  }

  lemma {:induction false} OccurrencesPresent(headers: seq<string>, j: nat)
    requires j < |headers|
    ensures Occurrences(headers, headers[j]) >= 1
  {
    var init := headers[..|headers| - 1];
    if j < |headers| - 1 {
      assert init[j] == headers[j];
      OccurrencesPresent(init, j);
    }
  }

  /** A label selects a single column exactly when no other header has the same text. */
  lemma {:induction false} UniqueLabelIff(headers: seq<string>, j: nat)
    requires j < |headers|
    ensures Occurrences(headers, headers[j]) == 1
            <==> forall k | 0 <= k < |headers| && k != j :: headers[k] != headers[j]
  {
    if forall k | 0 <= k < |headers| && k != j :: headers[k] != headers[j] {
      OccurrencesOnly(headers, j);
    } else {
      var k :| 0 <= k < |headers| && k != j && headers[k] == headers[j];
      if j < k { OccurrencesTwice(headers, j, k); } else { OccurrencesTwice(headers, k, j); }
    }
  }

  // ---------------------------------------------------------------------
  // Skipped tables and failures

  /** A table with fewer than two rows changes nothing, wherever it sits on the page. */
  lemma {:induction false} ShortTableSkipped(before: seq<Table>, t: Table, after: seq<Table>)
    requires |t| < 2
    ensures Fold(before + [t] + after, TableTotals) == Fold(before + after, TableTotals)
  {
    ZeroStepSkipped(before, t, after, TableTotals);
  }

  /** A table whose widest data row differs from its header count raises. */
  lemma {:induction false} WidthMismatchFails(t: Table)
    requires |t| >= 2 && DataWidth(t[1..]) != |t[0]|
    ensures TableTotals(t) == Failure(ColumnCountMismatch(|t[0]|, DataWidth(t[1..])))
  {
  }

  /** A missing header raises when the columns are classified. */
  lemma {:induction false} MissingHeaderFails(t: Table, j: nat)
    requires |t| >= 2 && DataWidth(t[1..]) == |t[0]| && j < |t[0]| && t[0][j].None?
    ensures TableTotals(t) == Failure(HeaderNotText)
  {
  }

  /** The analysis reports no error exactly when every page and every table on it succeeds. */
  lemma {:induction false} NoErrorIff(pages: seq<PageTables>)
    ensures Analyze(Opened(pages)).error.None? <==>
              forall p | 0 <= p < |pages| :: PageTotals(pages[p]).Success?
  {
    FoldFailsIff(pages, PageTotals);
  }

  /** A page fails exactly when its extraction fails or one of its tables fails. */
  lemma {:induction false} PageFailsIff(page: PageTables)
    ensures PageTotals(page).Failure? <==>
              page.ExtractionFailed? || exists k | 0 <= k < |page.tables| :: TableTotals(page.tables[k]).Failure?
  {
    if page.Extracted? {
      FoldFailsIff(page.tables, TableTotals);
    }
  }

  /** The first failing page decides the error, and both totals are then 0. */
  lemma {:induction false} FirstFailureIsReported(pages: seq<PageTables>, p: nat)
    requires p < |pages|
    requires forall q | 0 <= q < p :: PageTotals(pages[q]).Success?
    requires PageTotals(pages[p]).Failure?
    ensures Analyze(Opened(pages)) == Outcome(0.0, 0.0, Some(PageTotals(pages[p]).error))
  {
    var prefix := pages[..p];
    FoldFailsIff(prefix, PageTotals);
    assert forall q | 0 <= q < |prefix| :: PageTotals(prefix[q]).Success? by {
      forall q | 0 <= q < |prefix| ensures PageTotals(prefix[q]).Success? {
        assert prefix[q] == pages[q];
      }
    }
    FirstFailureDecides(pages, PageTotals, p);
  }

  /** The totals of a successful analysis are never less than those of any leading run of pages. */
  lemma {:induction false} TotalsNeverDecrease(pages: seq<PageTables>, k: nat)
    requires k <= |pages| && Analyze(Opened(pages)).error.None?
    ensures Analyze(Opened(pages[..k])).error.None?
    ensures Analyze(Opened(pages[..k])).debit <= Analyze(Opened(pages)).debit
    ensures Analyze(Opened(pages[..k])).credit <= Analyze(Opened(pages)).credit
  {
    assert forall q | 0 <= q < |pages| :: NonNegative(PageTotals(pages[q]));
    FoldGrows(pages, PageTotals, k);
  }
}
