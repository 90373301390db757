# Bank Statement Analyzer — a Dafny model of its totals

The analyzer takes a PDF bank statement and reports two figures: the total of
all debits and the total of all credits. After that it shows the net balance
and says whether it is a surplus or a deficit. The figures come from the tables
found on each page:

- row 0 of a table gives the column headers;
- a column whose lower-cased header contains `debit`, `dr`, `withdrawal` or
  `paid` is a debit column;
- a column whose header contains `credit`, `cr`, `deposit` or `received` is a
  credit column, and a column can be both;
- every cell of those columns is cleaned into a signed amount, and only strictly
  positive amounts are added to the total.

If anything goes wrong, the analysis returns totals of zero and the error text.

The model has four modules plus a small wrappers module:

- `Amount` is the cell cleaner `clean_amount`. It is a set of pure functions:
  - strip the whitespace;
  - recognise the null markers;
  - delete commas, whitespace and the Rupee sign;
  - handle the leading-minus rule;
  - read Python's `float()`, restricted to plain decimals and evaluated as an
    exact `real`.
- `Statement` is `calculate_totals`, written two ways:
  - as specification functions (`TableTotals`, `Fold`, `Analyze`);
  - as the nested loops of the original, with methods (`AddPositive`,
    `AccumulateColumns`, `AddTable`, `AddTables`, `CalculateTotals`). Each
    method is proved equal to the specification functions.
  The table frame's behaviour is modelled explicitly:
  - ragged rows are padded with missing cells, which become the text `"None"`;
  - a table whose widest data row differs from its header count fails;
  - a missing header fails as soon as it is lower-cased;
  - a header that occurs twice selects a sub-frame, and iterating that
    sub-frame yields its labels instead of its cells.
- `StatementFacts` holds the properties of the aggregation:
  - keyword classification as an if-and-only-if;
  - the header row is never summed;
  - short tables are skipped;
  - only positive amounts count, and totals never decrease;
  - the first failure decides the result, and the totals are then discarded.
- `StatementExamples` and `AmountExamples` are worked instances, such as
  `"₹1,234.50"` giving 1234.5 and a two-column table giving debit 100 and
  credit 80.
- `Balance` is the result page:
  - a non-empty error text is shown as an error;
  - otherwise the page shows the net balance (credits minus debits), which is
    a surplus when it is at least zero, and its absolute value.

## Model

| member | source | states |
|---|---|---|
| Amount.TrimStart | streamlit_app.py:12 | the result starts with no whitespace and is never longer than the input |
| Amount.TrimEnd | streamlit_app.py:12 | the result ends with no whitespace and is never longer than the input |
| Amount.TrimStartShape | streamlit_app.py:12 | leading trim keeps a suffix of the input, and everything it cut off is whitespace |
| Amount.TrimEndShape | streamlit_app.py:12 | trailing trim keeps a prefix of the input, and everything it cut off is whitespace |
| Amount.Strip | streamlit_app.py:12 | stripped text has whitespace at neither end and lies within the input |
| Amount.StripShape | streamlit_app.py:12 | stripped text is one contiguous slice of the input, and both cut-off ends are whitespace |
| Amount.TrimStartSpaces | streamlit_app.py:12 | whitespace followed by a non-space start is trimmed to exactly that start |
| Amount.TrimEndSpaces | streamlit_app.py:12 | a non-space end followed by whitespace is trimmed to exactly that end |
| Amount.RemoveNoise | streamlit_app.py:16 | deleting commas, whitespace and Rupee signs never lengthens the text |
| Amount.RemoveNoiseLeavesNoNoise | streamlit_app.py:16 | no comma, whitespace or Rupee sign survives the substitution |
| Amount.KeptByRemoveNoise | streamlit_app.py:16 | every other character of the input survives the substitution |
| Amount.RemoveNoiseKeepsOnlyInput | streamlit_app.py:16 | the substitution introduces no character that was not in the input |
| Amount.RemoveNoiseAppend | streamlit_app.py:16 | the substitution works character by character: it distributes over concatenation |
| Amount.RemoveNoiseOfSpace | streamlit_app.py:16 | pure whitespace is deleted entirely |
| Amount.StripThenRemoveNoise | streamlit_app.py:12-16 | stripping before the substitution changes nothing about its outcome |
| Amount.KeptByStrip | streamlit_app.py:12 | a non-space character of the input survives stripping |
| Amount.IsSpace | streamlit_app.py:12 | the whitespace set CPython's strip() and the regular-expression class \s share; its properties are those of Strip, StripShape and RemoveNoiseLeavesNoNoise |
| Amount.Lower | streamlit_app.py:13 | lowering keeps the length; each capital becomes its own small letter (LowerOfCapital), everything else stays (LowerKeepsOthers), and texts equal up to ASCII case lower alike (LowerIgnoresCase) |
| Amount.LowerChar | streamlit_app.py:13 | maps 'A'..'Z' each to its own letter in 'a'..'z' (LowerOfCapital) and every other character to itself (LowerKeepsOthers) |
| Amount.LowerLeavesNoCapitals | streamlit_app.py:13 | no ASCII capital survives lowering |
| Amount.LowerKeepsOthers | streamlit_app.py:13 | every character that is not an ASCII capital is kept in place |
| Amount.LowerIdempotent | streamlit_app.py:13 | lowering twice is lowering once |
| Amount.LowerOfCapital | streamlit_app.py:13 | the i-th capital letter lowers to the i-th small letter |
| Amount.LowerIgnoresCase | streamlit_app.py:13 | two texts that differ only in ASCII case lower to the same text, so the marker and keyword tests are case-insensitive |
| Amount.IsNullMarker | streamlit_app.py:13 | the text is empty or lowers to "nan", "none" or "-"; NullMarkersCleanToZero and DigitBlocksNullMarker state what it admits and excludes |
| Amount.IsNoise | streamlit_app.py:16 | the character class of the substitution: comma, whitespace, Rupee sign; RemoveNoiseLeavesNoNoise and KeptByRemoveNoise state that exactly these go |
| Amount.StripMinus | streamlit_app.py:18 | removing the leading dashes leaves text that does not start with '-' |
| Amount.StripMinusShape | streamlit_app.py:18 | the input is exactly some dashes followed by the result |
| Amount.StripMinusDashes | streamlit_app.py:18 | any number of dashes in front of a dash-free start are all removed, and only they |
| Amount.KeptByStripMinus | streamlit_app.py:18 | every character other than '-' survives the dash removal |
| Amount.FractionValue | streamlit_app.py:21 | the digits after the decimal point are worth between 0 and 1; FractionIsScaled gives their exact value |
| Amount.DigitsAppend | streamlit_app.py:21 | the digits of a followed by the digits of b spell a moved \|b\| places left plus b |
| Amount.FractionIsScaled | streamlit_app.py:21 | the fraction digits d, moved \|d\| places left, are the integer d spells: 0.50 is 50 over 100 |
| Amount.DecimalIsScaled | streamlit_app.py:21 | the value read from "a.b", moved \|b\| places left, is the integer spelled by the digits of a and b together |
| Amount.ParseUnsigned | streamlit_app.py:21 | an unsigned number parses exactly when it fits the decimal grammar |
| Amount.ParseNumber | streamlit_app.py:21 | a number parses exactly when it is an optionally signed decimal; ReadPlusDecimal and ReadSignedDecimal give the value of a signed one |
| Amount.UnsignedValue | streamlit_app.py:21 | "a.b" and "a" parse to DecimalValue(a, b), the integer part plus the fraction, whose meaning DecimalIsScaled states |
| Amount.ForeignBlocksParse | streamlit_app.py:21-24 | a character that cannot occur in a float literal makes the parse fail |
| Amount.NullMarkersCleanToZero | streamlit_app.py:9-14 | an absent value, blank text, or "nan", "none" or "-" in any case with any surrounding whitespace cleans to 0 |
| Amount.DigitBlocksNullMarker | streamlit_app.py:13 | text holding a digit is never a null marker |
| Amount.DigitReachesParser | streamlit_app.py:12-18 | once a digit survives the substitution, the value is the signed reading of the cleaned text |
| Amount.ReadSignedDecimal | streamlit_app.py:17-22 | k leading dashes then a decimal give minus its value when k > 0, otherwise its value |
| Amount.ReadPlusDecimal | streamlit_app.py:17-22 | k leading dashes, a plus sign, then a decimal give minus its value when k > 0, otherwise its value |
| Amount.CleanSignedDecimal | streamlit_app.py:12-22 | text that cleans to dashes and a decimal is that decimal's value, negated when a dash led |
| Amount.CleanPlusDecimal | streamlit_app.py:12-22 | text that cleans to dashes, a plus sign and a decimal is that decimal's value, negated when a dash led: "+5" is 5, "-+5" is -5 |
| Amount.CleanedDecimalIsScaled | streamlit_app.py:12-22 | the cleaned amount of such text, moved \|b\| places left, is the integer its digits spell, negated when a minus sign led |
| Amount.ForeignSurvivesCleaning | streamlit_app.py:16-18 | a foreign character survives the substitution and the dash removal |
| Amount.ForeignCharacterCleansToZero | streamlit_app.py:12-24 | text holding a character foreign to float literals cleans to 0 and never raises |
| Amount.CleanAmount | streamlit_app.py:8-24 | clean_amount as a whole: null markers give 0 (NullMarkersCleanToZero), signed decimals their value (CleanSignedDecimal, CleanPlusDecimal, CleanedDecimalIsScaled), anything holding a foreign character 0 (ForeignCharacterCleansToZero) |
| Amount.CleanText | streamlit_app.py:13-24 | the stripped text: a null marker is 0, otherwise the noise is deleted and the rest read signed (DigitReachesParser) |
| Amount.ReadSigned | streamlit_app.py:17-24 | leading minus signs drop and negate once, a parse failure is 0 (ReadSignedDecimal, ForeignBlocksParse) |
| AmountExamples.AbsentIsZero | streamlit_app.py:9-10 | a missing value is 0 |
| AmountExamples.BlankIsZero | streamlit_app.py:9-14 | "" and " " are 0 |
| AmountExamples.NanIsZero | streamlit_app.py:13-14 | "nan" and "NaN" are 0 |
| AmountExamples.NoneIsZero | streamlit_app.py:13-14 | "none" is 0 |
| AmountExamples.PaddedNoneIsZero | streamlit_app.py:12-14 | " None " is 0 |
| AmountExamples.DashIsZero | streamlit_app.py:13-14 | "-" is 0 |
| AmountExamples.RupeeAmount | streamlit_app.py:16-22 | "₹1,234.50" is 1234.5 |
| AmountExamples.NegativeAmount | streamlit_app.py:16-22 | "-2,000" is -2000 |
| AmountExamples.DoubleMinus | streamlit_app.py:17-22 | "--5" is -5: every leading dash goes, one sign is kept |
| AmountExamples.ExplicitPlus | streamlit_app.py:17-22 | "+5" is 5 |
| AmountExamples.MinusThenPlus | streamlit_app.py:17-22 | "-+5" is -5: the dash is dropped and remembered, float() accepts the plus |
| AmountExamples.LettersAreZero | streamlit_app.py:20-24 | "abc" is 0 |
| AmountExamples.ParenthesesAreZero | streamlit_app.py:20-24 | "(100)" is 0: the parenthesised-negative convention is not recognised |
| AmountExamples.LoneRupeeIsZero | streamlit_app.py:16-24 | "₹" alone is 0: nothing is left to parse |
| Statement.ColumnsMatching | streamlit_app.py:39-42 | the selected columns are exactly the headers containing a keyword, each once, in header order |
| Statement.Contains | streamlit_app.py:39-42 | Python's substring test; ContainsIff states it holds exactly when the keyword occurs at some position |
| Statement.ContainsAny | streamlit_app.py:39-42 | the any() over the keyword list; AnyKeywordIff states it holds exactly when some keyword occurs |
| Statement.Matches | streamlit_app.py:39-42 | the header lower-cased contains a keyword; MatchesIff states the if-and-only-if |
| Statement.CellText | streamlit_app.py:36-37 | str() of a cell: its text, or "None" when missing or padded (MissingCellCountsZero) |
| Statement.Occurrences | streamlit_app.py:45 | how often a label occurs among the headers, which decides what the column selection yields; UniqueLabelIff states when it is 1 |
| Statement.HeaderTexts | streamlit_app.py:39-42 | the headers can be lower-cased exactly when none is missing, and they are then the header texts |
| Statement.ColumnValues | streamlit_app.py:36-45 | a label that occurs once yields the data cells of its column as text, with row 0 skipped; a repeated label yields the label itself once per occurrence |
| Statement.Positive | streamlit_app.py:47-48 | a strictly positive value adds itself, any other value adds 0 |
| Statement.Amounts | streamlit_app.py:45-46 | the cleaned amount of each value, in the same order |
| Statement.PositiveTotal | streamlit_app.py:47-48 | the total of a column never goes below zero |
| Statement.ColumnsTotal | streamlit_app.py:44-54 | the total over the classified columns never goes below zero |
| Statement.DataWidth | streamlit_app.py:36 | the frame width is the length of the longest data row, or 0 without data rows |
| Statement.TableTotals | streamlit_app.py:35-54 | a table's contribution, when it does not fail, is non-negative on both sides |
| Statement.FrameTotals | streamlit_app.py:36-54 | the frame's contribution, when it does not fail, is non-negative on both sides |
| Statement.ClassifiedTotals | streamlit_app.py:39-54 | the debit and credit sums of one frame are non-negative |
| Statement.Then | streamlit_app.py:30-58 | a sequence of two steps fails exactly when one of them fails, and keeps totals non-negative |
| Statement.Fold | streamlit_app.py:32-34 | running non-negative steps one after the other gives non-negative totals |
| Statement.PageTotals | streamlit_app.py:32-54 | a page that does not fail contributes non-negative totals |
| Statement.Analyze | streamlit_app.py:26-58 | both totals are non-negative, and on an error both are 0 |
| Statement.AddPositive | streamlit_app.py:45-48 | the loop over one column adds the column's positive total to the running total |
| Statement.AccumulateColumns | streamlit_app.py:44-54 | the loop over the classified columns adds their total to the running total |
| Statement.AddTable | streamlit_app.py:35-54 | one table either reports the table's failure or adds its debit and credit contribution |
| Statement.AddTables | streamlit_app.py:34-54 | the loop over a page's tables gives the running totals plus the page's fold, or its first failure |
| Statement.CalculateTotals | streamlit_app.py:26-58 | the nested loops return exactly the totals and error of Analyze |
| Statement.FirstFailureDecides | streamlit_app.py:30-58 | once a step fails after a successful prefix, that failure is the result of the whole run |
| Statement.FoldAccumulates | streamlit_app.py:34-54 | one more successful table adds its tally to the running totals |
| Statement.FoldAborts | streamlit_app.py:34-58 | a failing table after a successful prefix is the result of the page |
| StatementFacts.PositiveTotalAppend | streamlit_app.py:44-54 | the positive total of two runs of values is the sum of their totals |
| StatementFacts.OnlyPositiveAmountsCount | streamlit_app.py:47-48 | a non-positive amount leaves the total unchanged, and a positive one adds itself |
| StatementFacts.NoPositiveAmountsTotalZero | streamlit_app.py:47-48 | a column of non-positive amounts totals 0 |
| StatementFacts.PositiveTotalGrows | streamlit_app.py:44-48 | the running total never decreases along a column |
| StatementFacts.FoldAppend | streamlit_app.py:32-34 | running two lists of steps in turn is running them one after the other |
| StatementFacts.ThenZero | streamlit_app.py:27-28 | adding a zero tally changes nothing |
| StatementFacts.FoldFailsIff | streamlit_app.py:30-58 | a run fails exactly when one of its steps fails |
| StatementFacts.ZeroStepSkipped | streamlit_app.py:34-35 | a step contributing nothing can be dropped from the run |
| StatementFacts.FoldGrows | streamlit_app.py:27-54 | the totals after any prefix of the steps are at most the final totals |
| StatementFacts.ContainsIff | streamlit_app.py:39-42 | the substring test holds exactly when the keyword occurs at some position |
| StatementFacts.MissingLetterExcludes | streamlit_app.py:39-42 | a keyword with a letter absent from the header does not occur in it |
| StatementFacts.MatchesIff | streamlit_app.py:39-42 | a header is selected exactly when its lower-cased text contains one of the keywords |
| StatementFacts.AnyKeywordIff | streamlit_app.py:39-42 | the any() over keywords holds exactly when some keyword occurs |
| StatementFacts.HeaderRowNeverSummed | streamlit_app.py:36 | the column totals do not depend on row 0 |
| StatementFacts.MissingCellCountsZero | streamlit_app.py:36-37 | a missing or padded cell becomes the text "None" and counts 0 |
| StatementFacts.KeywordStartsForeign | streamlit_app.py:39-42 | the first letter of every keyword, in either case, cannot occur in a float literal |
| StatementFacts.KeywordHeaderCleansToZero | streamlit_app.py:39-46 | a header that contains a keyword cleans to 0 |
| StatementFacts.DuplicateHeaderAddsNothing | streamlit_app.py:44-46 | a classified header that occurs more than once contributes 0 |
| StatementFacts.ColumnCounted | streamlit_app.py:44-54 | every listed column's positive total is part of the sum over the listed columns |
| StatementFacts.BothListsCountBoth | streamlit_app.py:39-54 | a header naming a debit keyword and a credit keyword has its values added to both totals |
| StatementFacts.OccurrencesPresent | streamlit_app.py:45 | a label counts at least once among the headers it comes from |
| StatementFacts.UniqueLabelIff | streamlit_app.py:45 | a label selects a single column exactly when no other header has the same text |
| StatementFacts.ShortTableSkipped | streamlit_app.py:35 | a table with fewer than two rows can be removed without changing the result |
| StatementFacts.WidthMismatchFails | streamlit_app.py:36 | data wider or narrower than the header fails with the column count mismatch |
| StatementFacts.MissingHeaderFails | streamlit_app.py:39-42 | a well-shaped table with a missing header fails with HeaderNotText |
| StatementFacts.NoErrorIff | streamlit_app.py:30-58 | no error is reported exactly when every page succeeds |
| StatementFacts.PageFailsIff | streamlit_app.py:32-54 | a page fails exactly when its extraction fails or one of its tables fails |
| StatementFacts.FirstFailureIsReported | streamlit_app.py:57-58 | the first failing page's error is reported, with both totals 0 |
| StatementFacts.TotalsNeverDecrease | streamlit_app.py:27-54 | the totals over the first k pages are at most the totals over all pages |
| StatementExamples.DescriptionIsCredit | streamlit_app.py:39-42 | a "Description" header is a credit column (it contains "cr") and not a debit column |
| StatementExamples.SampleClassification | streamlit_app.py:39-42 | "Debit" is debit only and "Credit" is credit only |
| StatementExamples.SampleColumns | streamlit_app.py:39-42 | the sample table's debit column is 0 and its credit column is 1 |
| StatementExamples.SampleValues | streamlit_app.py:36-45 | the sample columns yield their data cells without the header |
| StatementExamples.SampleTableTotals | streamlit_app.py:35-54 | the sample table contributes debit 100 and credit 80: the -20 is ignored |
| StatementExamples.MixedClassification | streamlit_app.py:39-42 | "Debit/Credit" is both a debit and a credit column |
| StatementExamples.MixedTableTotals | streamlit_app.py:35-54 | a "Debit/Credit" column holding 10 adds 10 to the debit total and 10 to the credit total |
| StatementExamples.SampleStatement | streamlit_app.py:26-58 | a statement holding a header-only table, the sample table and an empty page totals debit 100 and credit 80 |
| StatementExamples.NoneHeaderFails | streamlit_app.py:39-42 | a table with a missing header fails |
| StatementExamples.FailureDiscardsTotals | streamlit_app.py:56-58 | a failing second table discards the first table's totals: (0, 0, error) |
| StatementExamples.RaggedTableFails | streamlit_app.py:36 | data two cells wide under one header fails with the column count mismatch |
| Balance.NetBalance | streamlit_app.py:94 | the net balance plus the debits is the credits, and it is at least zero exactly when credits cover debits |
| Balance.Classify | streamlit_app.py:99 | the balance is a surplus exactly when it is at least zero |
| Balance.Size | streamlit_app.py:99 | the printed size is the absolute value of the balance |
| Balance.Message | streamlit_app.py:57-58 | an open or extract failure carries its reason, and a table failure always has text |
| Balance.ErrorText | streamlit_app.py:56-58 | an error text exists exactly when the analysis failed |
| Balance.Present | streamlit_app.py:81-99 | a non-empty error text is shown as the error; otherwise the totals, their net and its surplus or deficit are shown |
| Balance.Show | streamlit_app.py:79-99 | the page for one file: the analysis passed to Present; SuccessIsSummarised, FailureIsShown and EmptyMessageShowsZeroSurplus state its outcomes |
| Balance.SuccessIsSummarised | streamlit_app.py:79-99 | a successful analysis is summarised with its own totals |
| Balance.FailureIsShown | streamlit_app.py:81-82 | a failure with some text shows that text |
| Balance.EmptyMessageShowsZeroSurplus | streamlit_app.py:81 | a failure with empty text slips past the error test and is summarised as a surplus of 0 |

## Left out

- The page layout is not modelled: titles, the uploader, the spinner, the three metric boxes, the `delta_color` choice and the `,.2f` formatting with the Rupee prefix.
- The temporary file is not modelled. The PDF library is represented by values: a `Pdf` that could not be opened, or a list of pages whose tables were extracted or whose extraction failed.
- Python's `float()` is modelled only for plain decimals. Exponents, `_` digit separators, `inf`, `nan`, `infinity` and non-ASCII digits are counted as parse failures, so such cells count 0 in the model.
- Binary floating-point rounding is not modelled: amounts and totals are exact reals.
- The error totals are the integers `0` in the original and `0.0` here. The difference is invisible to every later use.
- The wording of exception messages is not modelled. `Balance.Message` states only that open and extract failures carry their reason and table failures have some text.
- Amount.Lower: lowers ASCII letters only. This agrees with Python's `lower()` for every comparison made here. The only non-ASCII characters that lower to ASCII letters are U+212A and U+0130, and neither can complete a null marker or a keyword.
- `pd.isna` of non-text values is not modelled: every cell is text or missing, as the table extractor gives it.
- Headers are modelled as text or missing. A header is never converted to text, so a missing one fails at `lower()`. Only the data cells are converted, and a missing cell becomes `"None"`.
- Exceptions other than the four kinds in `Statement.Failure` are not modelled, including memory errors and library bugs.
