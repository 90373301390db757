/** Worked examples of the column classification and of whole tables. */
module StatementExamples {
  import opened Wrappers
  import opened Statement
  import StatementFacts
  import Amount

  lemma DescriptionLower()
    ensures Amount.Lower("Description") == "description"
  {
  }

  lemma DescriptionNamesCr()
    ensures Contains("description", "cr")
  {
    StatementFacts.ContainsIff("description", "cr");
    assert StatementFacts.OccursAt("description", "cr", 3);
  }

  lemma DescriptionLacksDebit()
    ensures !Contains("description", "debit")
  {
    StatementFacts.MissingLetterExcludes("description", "debit", 2);
  }

  lemma DescriptionLacksDr()
    ensures !Contains("description", "dr")
  {
    var l := "description";
    assert l[..2][1] != "dr"[1];
    assert 'd' !in l[1..] by {
      assert l[1..] == "escription";
    }
    StatementFacts.MissingLetterExcludes(l[1..], "dr", 0);
  }

  lemma DescriptionLacksWithdrawal()
    ensures !Contains("description", "withdrawal")
  {
    StatementFacts.MissingLetterExcludes("description", "withdrawal", 0);
  }

  lemma DescriptionLacksPaid()
    ensures !Contains("description", "paid")
  {
    StatementFacts.MissingLetterExcludes("description", "paid", 1);
  }

  lemma DescriptionNamesNoDebitKeyword()
    ensures forall i | 0 <= i < |DebitKeywords| :: !Contains("description", DebitKeywords[i])
  {
    DescriptionLacksDebit();
    DescriptionLacksDr();
    DescriptionLacksWithdrawal();
    DescriptionLacksPaid();
    forall i | 0 <= i < |DebitKeywords| ensures !Contains("description", DebitKeywords[i]) {
      if i == 0 { assert DebitKeywords[0] == "debit"; }
      else if i == 1 { assert DebitKeywords[1] == "dr"; }
      else if i == 2 { assert DebitKeywords[2] == "withdrawal"; }
      else { assert DebitKeywords[3] == "paid"; }
    }
  }

  /** "Description" names "cr" (des-cr-iption) and none of the debit keywords. */
  lemma DescriptionIsCredit()
    ensures Matches("Description", CreditKeywords)
    ensures !Matches("Description", DebitKeywords)
  {
    DescriptionLower();
    DescriptionNamesCr();
    DescriptionNamesNoDebitKeyword();
    StatementFacts.MatchesIff("Description", CreditKeywords);
    StatementFacts.MatchesIff("Description", DebitKeywords);
    assert CreditKeywords[1] == "cr";
  }

  // ---------------------------------------------------------------------
  // The sample table: debit column 100 and -20, credit column 50 and 30

  const Sample: Table := [[Some("Debit"), Some("Credit")], [Some("100"), Some("50")], [Some("-20"), Some("30")]]
  const SampleHeaders: seq<string> := ["Debit", "Credit"]

  lemma DebitLacksCreditKeywords()
    ensures forall i | 0 <= i < |CreditKeywords| :: !Contains("debit", CreditKeywords[i])
  {
    StatementFacts.MissingLetterExcludes("debit", "credit", 0);
    StatementFacts.MissingLetterExcludes("debit", "cr", 0);
    StatementFacts.MissingLetterExcludes("debit", "deposit", 2);
    StatementFacts.MissingLetterExcludes("debit", "received", 0);
    forall i | 0 <= i < |CreditKeywords| ensures !Contains("debit", CreditKeywords[i]) {
      if i == 0 { assert CreditKeywords[0] == "credit"; }
      else if i == 1 { assert CreditKeywords[1] == "cr"; }
      else if i == 2 { assert CreditKeywords[2] == "deposit"; }
      else { assert CreditKeywords[3] == "received"; }
    }
  }

  lemma CreditLacksDr()
    ensures !Contains("credit", "dr")
  {
    var l := "credit";
    assert l[1..] == "redit" && l[1..][1..] == "edit" && l[1..][1..][1..] == "dit";
    assert l[1..][1..][1..][1..] == "it";
    StatementFacts.MissingLetterExcludes("it", "dr", 0);
    assert "dit"[..2][1] != "dr"[1];
    assert "edit"[..2][0] != "dr"[0];
    assert "redit"[..2][0] != "dr"[0];
    assert "credit"[..2][0] != "dr"[0];
  }

  lemma CreditLacksDebitKeywords()
    ensures forall i | 0 <= i < |DebitKeywords| :: !Contains("credit", DebitKeywords[i])
  {
    StatementFacts.MissingLetterExcludes("credit", "debit", 2);
    CreditLacksDr();
    StatementFacts.MissingLetterExcludes("credit", "withdrawal", 0);
    StatementFacts.MissingLetterExcludes("credit", "paid", 0);
    forall i | 0 <= i < |DebitKeywords| ensures !Contains("credit", DebitKeywords[i]) {
      if i == 0 { assert DebitKeywords[0] == "debit"; }
      else if i == 1 { assert DebitKeywords[1] == "dr"; }
      else if i == 2 { assert DebitKeywords[2] == "withdrawal"; }
      else { assert DebitKeywords[3] == "paid"; }
    }
  }

  lemma SampleClassification()
    ensures Matches("Debit", DebitKeywords) && !Matches("Debit", CreditKeywords)
    ensures Matches("Credit", CreditKeywords) && !Matches("Credit", DebitKeywords)
  {
    assert Amount.Lower("Debit") == "debit" && Amount.Lower("Credit") == "credit";
    assert Contains("debit", "debit") && Contains("credit", "credit");
    DebitLacksCreditKeywords();
    CreditLacksDebitKeywords();
    StatementFacts.MatchesIff("Debit", DebitKeywords);
    StatementFacts.MatchesIff("Debit", CreditKeywords);
    StatementFacts.MatchesIff("Credit", DebitKeywords);
    StatementFacts.MatchesIff("Credit", CreditKeywords);
  }

  lemma SampleColumns()
    ensures ColumnsMatching(SampleHeaders, DebitKeywords) == [0]
    ensures ColumnsMatching(SampleHeaders, CreditKeywords) == [1]
  {
    SampleClassification();
    assert SampleHeaders[..1] == ["Debit"] && SampleHeaders[..1][..0] == [];
  }

  lemma SampleFrame()
    ensures DataWidth(Sample[1..]) == |Sample[0]|
    ensures HeaderTexts(Sample[0]) == Some(SampleHeaders)
  {
    var rows := Sample[1..];
    assert rows[..1] == [Sample[1]] && rows[..1][..0] == [];
    var h := HeaderTexts(Sample[0]);
    assert h.Some? && h.value[0] == "Debit" && h.value[1] == "Credit";
    assert h.value == SampleHeaders;
  }

  lemma SampleValues()
    ensures ColumnValues(Sample, SampleHeaders, 0) == ["100", "-20"]
    ensures ColumnValues(Sample, SampleHeaders, 1) == ["50", "30"]
  {
    assert SampleHeaders[..1] == ["Debit"] && SampleHeaders[..1][..0] == [];
    assert Occurrences(SampleHeaders, "Debit") == 1;
    assert Occurrences(SampleHeaders, "Credit") == 1;
  }

  lemma Hundred()
    ensures Amount.CleanAmount(Some("100")) == 100.0
  {
    assert Amount.RemoveNoise("100") == Amount.Dashes(0) + Amount.DecimalText("100", false, "");
    assert "100"[..2] == "10" && "10"[..1] == "1" && "1"[..0] == "";
    Amount.CleanSignedDecimal("100", 0, "100", false, "");
  }

  lemma MinusTwenty()
    ensures Amount.CleanAmount(Some("-20")) == -20.0
  {
    assert Amount.RemoveNoise("-20") == Amount.Dashes(1) + Amount.DecimalText("20", false, "");
    assert "20"[..1] == "2" && "2"[..0] == "";
    Amount.CleanSignedDecimal("-20", 1, "20", false, "");
  }

  lemma Fifty()
    ensures Amount.CleanAmount(Some("50")) == 50.0
  {
    assert Amount.RemoveNoise("50") == Amount.Dashes(0) + Amount.DecimalText("50", false, "");
    assert "50"[..1] == "5" && "5"[..0] == "";
    Amount.CleanSignedDecimal("50", 0, "50", false, "");
  }

  lemma Thirty()
    ensures Amount.CleanAmount(Some("30")) == 30.0
  {
    assert Amount.RemoveNoise("30") == Amount.Dashes(0) + Amount.DecimalText("30", false, "");
    assert "30"[..1] == "3" && "3"[..0] == "";
    Amount.CleanSignedDecimal("30", 0, "30", false, "");
  }

  lemma AmountsOfTwo(a: string, b: string)
    ensures Amounts([a, b]) == [Amount.CleanAmount(Some(a)), Amount.CleanAmount(Some(b))]
  {
    assert [a, b][..1] == [a] && [a][..0] == [];
  }

  lemma PositiveTotalOfTwo(x: real, y: real)
    ensures PositiveTotal([x, y]) == Positive(x) + Positive(y)
  {
    assert [x, y][..1] == [x] && [x][..0] == [];
    assert PositiveTotal([x]) == Positive(x);
  }

  lemma SampleSums()
    ensures PositiveTotal(Amounts(["100", "-20"])) == 100.0
    ensures PositiveTotal(Amounts(["50", "30"])) == 80.0
  {
    Hundred();
    MinusTwenty();
    Fifty();
    Thirty();
    AmountsOfTwo("100", "-20");
    AmountsOfTwo("50", "30");
    PositiveTotalOfTwo(100.0, -20.0);
    PositiveTotalOfTwo(50.0, 30.0);
  }

  lemma SampleDebitColumn()
    ensures ColumnsTotal(Sample, SampleHeaders, [0]) == 100.0
  {
    SampleValues();
    SampleSums();
    assert [0][..0] == [];
  }

  lemma SampleCreditColumn()
    ensures ColumnsTotal(Sample, SampleHeaders, [1]) == 80.0
  {
    SampleValues();
    SampleSums();
    assert [1][..0] == [];
  }

  lemma SampleClassifiedTotals()
    ensures ClassifiedTotals(Sample, SampleHeaders) == Tally(100.0, 80.0)
  {
    SampleColumns();
    SampleDebitColumn();
    SampleCreditColumn();
  }

  /** Only the positive debit 100 is added; both credits 50 and 30 are. */
  lemma SampleTableTotals()
    ensures TableTotals(Sample) == Success(Tally(100.0, 80.0))
  {
    SampleFrame();
    SampleClassifiedTotals();
  }

  // A header naming both a debit and a credit keyword

  const Mixed: Table := [[Some("Debit/Credit")], [Some("10")]]

  lemma MixedClassification()
    ensures Matches("Debit/Credit", DebitKeywords) && Matches("Debit/Credit", CreditKeywords)
  {
    var l := Amount.Lower("Debit/Credit");
    assert l == "debit/credit";
    StatementFacts.ContainsIff(l, "debit");
    assert StatementFacts.OccursAt(l, "debit", 0);
    StatementFacts.ContainsIff(l, "credit");
    assert StatementFacts.OccursAt(l, "credit", 6);
    StatementFacts.MatchesIff("Debit/Credit", DebitKeywords);
    StatementFacts.MatchesIff("Debit/Credit", CreditKeywords);
  }

  lemma Ten()
    ensures Amount.CleanAmount(Some("10")) == 10.0
  {
    assert Amount.RemoveNoise("10") == Amount.Dashes(0) + Amount.DecimalText("10", false, "");
    assert "10"[..1] == "1" && "1"[..0] == "";
    Amount.CleanSignedDecimal("10", 0, "10", false, "");
  }

  lemma MixedColumn()
    ensures ColumnsTotal(Mixed, ["Debit/Credit"], [0]) == 10.0
  {
    assert Occurrences(["Debit/Credit"], "Debit/Credit") == 1;
    assert ColumnValues(Mixed, ["Debit/Credit"], 0) == ["10"];
    Ten();
    var xs := Amounts(["10"]);
    assert xs == [10.0] && xs[..0] == [];
    assert [0][..0] == [];
  }

  /** The value under "Debit/Credit" is added to the debit total and to the credit total. */
  lemma MixedTableTotals()
    ensures TableTotals(Mixed) == Success(Tally(10.0, 10.0))
  {
    var rows := Mixed[1..];
    assert rows[..0] == [];
    var h := HeaderTexts(Mixed[0]);
    assert h.Some? && h.value[0] == "Debit/Credit";
    assert h.value == ["Debit/Credit"];
    MixedClassification();
    assert ["Debit/Credit"][..0] == [];
    assert ColumnsMatching(["Debit/Credit"], DebitKeywords) == [0];
    assert ColumnsMatching(["Debit/Credit"], CreditKeywords) == [0];
    MixedColumn();
  }

  // ---------------------------------------------------------------------
  // Whole statements

  /** Folding two steps whose results are known. */
  lemma FoldOfTwo<T>(a: T, b: T, step: T -> Result<Tally, Failure>, ra: Result<Tally, Failure>, rb: Result<Tally, Failure>)
    requires step(a) == ra && step(b) == rb
    ensures Fold([a, b], step) == Then(Then(Success(Zero), ra), rb)
  {
    assert [a, b][..1] == [a];
    FoldOfOne(a, step, ra);
  }

  lemma FoldOfOne<T>(a: T, step: T -> Result<Tally, Failure>, ra: Result<Tally, Failure>)
    requires step(a) == ra
    ensures Fold([a], step) == Then(Success(Zero), ra)
  {
    assert [a][..0] == [];
  }

  const HeaderOnly: Table := [[Some("Debit")]]

  lemma SampleTables()
    ensures Fold([HeaderOnly, Sample], TableTotals) == Success(Tally(100.0, 80.0))
  {
    SampleTableTotals();
    FoldOfTwo(HeaderOnly, Sample, TableTotals, Success(Zero), Success(Tally(100.0, 80.0)));
  }

  /** A header-only table is skipped, an empty page adds nothing. */
  lemma SampleStatement()
    ensures Analyze(Opened([Extracted([HeaderOnly, Sample]), Extracted([])])) == Outcome(100.0, 80.0, None)
  {
    SampleTables();
    FoldOfTwo(Extracted([HeaderOnly, Sample]), Extracted([]), PageTotals, Success(Tally(100.0, 80.0)), Success(Zero));
  }

  const NoneHeader: Table := [[None, Some("Debit")], [Some("1"), Some("2")]]

  lemma NoneHeaderFails()
    ensures TableTotals(NoneHeader) == Failure(HeaderNotText)
  {
    var rows := NoneHeader[1..];
    assert rows[..1] == [NoneHeader[1]] && rows[..1][..0] == [];
    StatementFacts.MissingHeaderFails(NoneHeader, 0);
  }

  /** The totals already gathered from the sample table are discarded: (0, 0) and the error. */
  lemma FailureDiscardsTotals()
    ensures Analyze(Opened([Extracted([Sample, NoneHeader])])) == Outcome(0.0, 0.0, Some(HeaderNotText))
  {
    SampleTableTotals();
    NoneHeaderFails();
    FoldOfTwo(Sample, NoneHeader, TableTotals, Success(Tally(100.0, 80.0)), Failure(HeaderNotText));
    FoldOfOne(Extracted([Sample, NoneHeader]), PageTotals, Failure(HeaderNotText));
  }

  const Ragged: Table := [[Some("Debit")], [Some("1"), Some("2")]]

  /** A data row wider than the header row raises. */
  lemma RaggedTableFails()
    ensures TableTotals(Ragged) == Failure(ColumnCountMismatch(1, 2))
  {
    var rows := Ragged[1..];
    assert rows[..1] == [Ragged[1]] && rows[..1][..0] == [];
  }
}
