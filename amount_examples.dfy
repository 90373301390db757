/** Worked examples of the amount cleaner, each derived from the general lemmas. */
module AmountExamples {
  import opened Wrappers
  import opened Amount

  lemma AbsentIsZero()
    ensures CleanAmount(None) == 0.0
  {
    NullMarkersCleanToZero("", "", "");
  }

  lemma BlankIsZero()
    ensures CleanAmount(Some("")) == 0.0 && CleanAmount(Some(" ")) == 0.0
  {
    NullMarkersCleanToZero(" ", "", "");
    assert " " + "" + "" == " ";
  }

  lemma NanIsZero()
    ensures CleanAmount(Some("nan")) == 0.0 && CleanAmount(Some("NaN")) == 0.0
  {
    assert Lower("nan") == "nan" && Lower("NaN") == "nan";
    NullMarkersCleanToZero("", "nan", "");
    NullMarkersCleanToZero("", "NaN", "");
    assert "" + "nan" + "" == "nan" && "" + "NaN" + "" == "NaN";
  }

  lemma NoneIsZero()
    ensures CleanAmount(Some("none")) == 0.0
  {
    assert Lower("none") == "none";
    NullMarkersCleanToZero("", "none", "");
    assert "" + "none" + "" == "none";
  }

  lemma PaddedNoneIsZero()
    ensures CleanAmount(Some(" None ")) == 0.0
  {
    assert Lower("None") == "none";
    NullMarkersCleanToZero(" ", "None", " ");
    assert " " + "None" + " " == " None ";
  }

  lemma DashIsZero()
    ensures CleanAmount(Some("-")) == 0.0
  {
    assert Lower("-") == "-";
    NullMarkersCleanToZero("", "-", "");
    assert "" + "-" + "" == "-";
  }

  lemma RupeeText()
    ensures RemoveNoise("\U{20B9}1,234.50") == Dashes(0) + DecimalText("1234", true, "50")
  {
    assert RemoveNoise("\U{20B9}1,234.50") == "1234.50";
    assert Dashes(0) + DecimalText("1234", true, "50") == "1234.50";
  }

  lemma RupeeValue()
    ensures DecimalValue("1234", "50") == 1234.5
  {
    assert "1234"[..3] == "123" && "123"[..2] == "12" && "12"[..1] == "1" && "1"[..0] == "";
    assert "50"[1..] == "0" && "0"[1..] == "";
  }

  lemma RupeeAmount()
    ensures CleanAmount(Some("\U{20B9}1,234.50")) == 1234.5
  {
    RupeeText();
    RupeeValue();
    CleanSignedDecimal("\U{20B9}1,234.50", 0, "1234", true, "50");
  }

  lemma NegativeText()
    ensures RemoveNoise("-2,000") == Dashes(1) + DecimalText("2000", false, "")
  {
    assert RemoveNoise("-2,000") == "-2000";
    assert Dashes(1) + DecimalText("2000", false, "") == "-2000";
  }

  lemma NegativeValue()
    ensures DecimalValue("2000", "") == 2000.0
  {
    assert "2000"[..3] == "200" && "200"[..2] == "20" && "20"[..1] == "2" && "2"[..0] == "";
  }

  lemma NegativeAmount()
    ensures CleanAmount(Some("-2,000")) == -2000.0
  {
    NegativeText();
    NegativeValue();
    CleanSignedDecimal("-2,000", 1, "2000", false, "");
  }

  lemma DoubleMinus()
    ensures CleanAmount(Some("--5")) == -5.0
  {
    assert RemoveNoise("--5") == Dashes(2) + DecimalText("5", false, "");
    CleanSignedDecimal("--5", 2, "5", false, "");
    assert "5"[..0] == "";
  }

  lemma ExplicitPlus()
    ensures CleanAmount(Some("+5")) == 5.0
  {
    assert RemoveNoise("+5") == Dashes(0) + ("+" + DecimalText("5", false, ""));
    CleanPlusDecimal("+5", 0, "5", false, "");
    assert "5"[..0] == "";
  }

  lemma MinusThenPlus()
    ensures CleanAmount(Some("-+5")) == -5.0
  {
    assert RemoveNoise("-+5") == Dashes(1) + ("+" + DecimalText("5", false, ""));
    CleanPlusDecimal("-+5", 1, "5", false, "");
    assert "5"[..0] == "";
  }

  lemma LettersAreZero()
    ensures CleanAmount(Some("abc")) == 0.0
  {
    ForeignCharacterCleansToZero("abc", 1);
  }

  lemma ParenthesesAreZero()
    ensures CleanAmount(Some("(100)")) == 0.0
  {
    ForeignCharacterCleansToZero("(100)", 0);
  }

  lemma LoneRupeeIsZero()
    ensures CleanAmount(Some("\U{20B9}")) == 0.0
  {
    assert Strip("\U{20B9}") == "\U{20B9}";
    assert Lower("\U{20B9}") == "\U{20B9}";
    assert RemoveNoise("\U{20B9}") == "";
  }
}
