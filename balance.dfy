/**
 * What the page shows once the analysis returns: the error text when there
 * is a non-empty one, otherwise both totals, the net balance (credits minus
 * debits) and whether it is a surplus or a deficit.
 */
module Balance {
  import opened Wrappers
  import Statement

  datatype Standing = Surplus | Deficit

  /** What the page shows after the analyze button is pressed. */
  datatype Screen =
    | ErrorShown(message: string)
    | Summary(debit: real, credit: real, net: real, standing: Standing, size: real)

  /** Credits minus debits. */
  function NetBalance(debit: real, credit: real): (net: real)
    ensures net + debit == credit
    ensures net >= 0.0 <==> credit >= debit
  {
    credit - debit
  }

  /** A net balance of zero or more is a surplus, a negative one a deficit. */
  function Classify(net: real): (s: Standing)
    ensures s == Surplus <==> net >= 0.0
  {
    if net >= 0.0 then Surplus else Deficit
  }

  /** The absolute value the summary sentence prints. */
  function Size(x: real): (m: real)
    ensures m >= 0.0 && (m == x || m == -x)
  {
    if x >= 0.0 then x else -x
  }

  /**
   * The text of the exception, as the analysis returns it. The exact wording
   * of the library messages is not modelled: an opening or extraction failure
   * carries its reason, the other two failures always have some text.
   */
  function Message(f: Statement.Failure): (m: string)
    ensures f.OpenFailed? ==> m == f.reason
    ensures f.ExtractFailed? ==> m == f.reason
    ensures f.ColumnCountMismatch? || f.HeaderNotText? ==> m != ""
  {
    match f
    case OpenFailed(reason) => reason
    case ExtractFailed(reason) => reason
    case ColumnCountMismatch(_, _) => "column count mismatch"
    case HeaderNotText => "'NoneType' object has no attribute 'lower'"
  }

  /** The error slot of the analysis: None, or the exception text. */
  function ErrorText(o: Statement.Outcome): (e: Option<string>)
    ensures e.Some? <==> o.error.Some?
    ensures e.Some? ==> e.value == Message(o.error.value)
  {
    match o.error
    case None => None
    case Some(f) => Some(Message(f))
  }

  /**
   * The branch on the returned error: a non-empty error text is shown as an
   * error, anything else (no error, or an empty text) as the summary of the
   * two totals.
   */
  function Present(debit: real, credit: real, error: Option<string>): (s: Screen)
    ensures s.ErrorShown? <==> error.Some? && error.value != ""
    ensures s.ErrorShown? ==> s.message == error.value
    ensures s.Summary? ==> s.debit == debit && s.credit == credit && s.net + debit == credit
    ensures s.Summary? ==> (s.standing == Surplus <==> credit >= debit)
    ensures s.Summary? ==> s.size >= 0.0 && (s.size == s.net || s.size == -s.net)
  {
    if error.Some? && error.value != "" then ErrorShown(error.value)
    else
      var net := NetBalance(debit, credit);
      Summary(debit, credit, net, Classify(net), Size(net))
  }

  /** The whole page for one uploaded file. */
  function Show(pdf: Statement.Pdf): Screen {
    var o := Statement.Analyze(pdf);
    Present(o.debit, o.credit, ErrorText(o))
  }

  /** A successful analysis is summarised with its own totals. */
  lemma {:induction false} SuccessIsSummarised(pdf: Statement.Pdf)
    requires Statement.Analyze(pdf).error.None?
    ensures Show(pdf).Summary?
    ensures Show(pdf).debit == Statement.Analyze(pdf).debit
    ensures Show(pdf).credit == Statement.Analyze(pdf).credit
    ensures Show(pdf).standing == Surplus <==> Show(pdf).credit >= Show(pdf).debit
  {
  }

  /** A failure with some text is shown as that text; a table error always has text. */
  lemma {:induction false} FailureIsShown(pdf: Statement.Pdf)
    requires Statement.Analyze(pdf).error.Some?
    requires Message(Statement.Analyze(pdf).error.value) != ""
    ensures Show(pdf) == ErrorShown(Message(Statement.Analyze(pdf).error.value))
  {
  }

  /**
   * A failure whose text is empty passes the error test unnoticed: the page
   * then summarises the zero totals of the failed analysis as a surplus of 0.
   */
  lemma {:induction false} EmptyMessageShowsZeroSurplus(reason: string)
    requires reason == ""
    ensures Show(Statement.Unreadable(reason)) == Summary(0.0, 0.0, 0.0, Surplus, 0.0)
  {
  }
}
