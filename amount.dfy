/**
 * The amount cleaner: turns the raw text of one table cell into a signed
 * amount, and never fails. Strings are sequences of Unicode scalar values;
 * amounts are exact reals.
 */
module Amount {
  import opened Wrappers

  const Rupee: char := '\U{20B9}'

  /** The characters CPython treats as whitespace, both in str.strip() and in
      the regular-expression class \s (they share one table). */
  predicate IsSpace(c: char) {
    ('\t' <= c <= '\r') || ('\U{1C}' <= c <= '\U{1F}') || c == ' '
    || c == '\U{85}' || c == '\U{A0}' || c == '\U{1680}'
    || ('\U{2000}' <= c <= '\U{200A}') || c == '\U{2028}' || c == '\U{2029}'
    || c == '\U{202F}' || c == '\U{205F}' || c == '\U{3000}'
  }

  /** A character the cleaner deletes everywhere: a comma, whitespace or the Rupee sign. */
  predicate IsNoise(c: char) {
    c == ',' || IsSpace(c) || c == Rupee
  }

  predicate IsDigit(c: char) {
    '0' <= c <= '9'
  }

  predicate AllDigits(s: string) {
    forall i | 0 <= i < |s| :: IsDigit(s[i])
  }

  predicate AllSpace(s: string) {
    forall i | 0 <= i < |s| :: IsSpace(s[i])
  }

  /** Drops leading whitespace. */
  function TrimStart(s: string): (r: string)
    ensures |r| <= |s|
    ensures r == [] || !IsSpace(r[0])
  {
    if |s| > 0 && IsSpace(s[0]) then TrimStart(s[1..]) else s
  }

  /** Drops trailing whitespace. */
  function TrimEnd(s: string): (r: string)
    ensures |r| <= |s|
    ensures r == [] || !IsSpace(r[|r| - 1])
  {
    if |s| > 0 && IsSpace(s[|s| - 1]) then TrimEnd(s[..|s| - 1]) else s
  }

  /** What TrimStart keeps is a suffix, and what it cuts off is whitespace. */
  lemma {:induction false} TrimStartShape(s: string)
    ensures TrimStart(s) == s[|s| - |TrimStart(s)|..]
    ensures AllSpace(s[..|s| - |TrimStart(s)|])
  {
    if |s| > 0 && IsSpace(s[0]) {
      TrimStartShape(s[1..]);
    }
  }

  /** What TrimEnd keeps is a prefix, and what it cuts off is whitespace. */
  lemma {:induction false} TrimEndShape(s: string)
    ensures TrimEnd(s) == s[..|TrimEnd(s)|]
    ensures AllSpace(s[|TrimEnd(s)|..])
  {
    if |s| > 0 && IsSpace(s[|s| - 1]) {
      TrimEndShape(s[..|s| - 1]);
    }
  }

  /** Where the stripped text starts inside the original. */
  function StripOffset(s: string): (k: nat)
    ensures k <= |s|
  {
    |s| - |TrimStart(s)|
  }

  /** str.strip(): the text without leading and trailing whitespace. */
  function Strip(s: string): (r: string)
    ensures r == [] || (!IsSpace(r[0]) && !IsSpace(r[|r| - 1]))
    ensures StripOffset(s) + |r| <= |s|
  {
    var a := TrimStart(s);
    TrimEndShape(a);
    TrimEnd(a)
  }

  /** Strip keeps a contiguous slice of the text, and what it cuts off is whitespace. */
  lemma {:induction false} StripShape(s: string)
    ensures Strip(s) == s[StripOffset(s)..StripOffset(s) + |Strip(s)|]
    ensures AllSpace(s[..StripOffset(s)]) && AllSpace(s[StripOffset(s) + |Strip(s)|..])
  {
    var a := TrimStart(s);
    var r := TrimEnd(a);
    TrimStartShape(s);
    TrimEndShape(a);
    var m := |s| - |a|;
    assert a == s[m..] && r == a[..|r|];
    assert a[..|r|] == s[m..m + |r|];
    assert s[m + |r|..] == a[|r|..];
  }

  /** ASCII lowering. Of the non-ASCII characters only U+212A (to 'k') and
      U+0130 (to "i" + U+0307) lower to ASCII letters in Python, and neither
      can complete one of the null markers or column keywords compared here. */
  function LowerChar(c: char): char {
    if 'A' <= c <= 'Z' then (c as int + 32) as char else c
  }

  function Lower(s: string): (r: string)
    ensures |r| == |s|
  {
    seq(|s|, i requires 0 <= i < |s| => LowerChar(s[i]))
  }

  /** After lowering no ASCII capital is left. */
  lemma {:induction false} LowerLeavesNoCapitals(s: string)
    ensures forall i | 0 <= i < |Lower(s)| :: !('A' <= Lower(s)[i] <= 'Z')
  {
  }

  /** Every character that is not an ASCII capital is kept where it stands. */
  lemma {:induction false} LowerKeepsOthers(s: string, i: nat)
    requires i < |s| && !('A' <= s[i] <= 'Z')
    ensures Lower(s)[i] == s[i]
  {
  }

  /** Lowering twice is lowering once. */
  lemma {:induction false} LowerIdempotent(s: string)
    ensures Lower(Lower(s)) == Lower(s)
  {
    var l := Lower(s);
    forall i | 0 <= i < |l| ensures Lower(l)[i] == l[i] {
      LowerLeavesNoCapitals(s);
      LowerKeepsOthers(l, i);
    }
  }

  const Capitals := "ABCDEFGHIJKLMNOPQRSTUVWXYZ"
  const Smalls := "abcdefghijklmnopqrstuvwxyz"

  /** Each capital lowers to its own small letter. */
  lemma {:induction false} LowerOfCapital(i: nat)
    requires i < 26
    ensures LowerChar(Capitals[i]) == Smalls[i]
  {
  }

  /** Two characters that are equal up to ASCII case. */
  predicate SameUpToCase(c: char, d: char) {
    c == d
    || (exists i | 0 <= i < 26 :: c == Capitals[i] && d == Smalls[i])
    || (exists i | 0 <= i < 26 :: d == Capitals[i] && c == Smalls[i])
  }

  /** Texts that differ only in ASCII case lower alike. */
  lemma {:induction false} LowerIgnoresCase(s: string, t: string)
    requires |s| == |t| && forall i | 0 <= i < |s| :: SameUpToCase(s[i], t[i])
    ensures Lower(s) == Lower(t)
  {
    forall i | 0 <= i < |s| ensures Lower(s)[i] == Lower(t)[i] {
      if s[i] != t[i] {
        if exists k | 0 <= k < 26 :: s[i] == Capitals[k] && t[i] == Smalls[k] {
          var k :| 0 <= k < 26 && s[i] == Capitals[k] && t[i] == Smalls[k];
          LowerOfCapital(k);
        } else {
          var k :| 0 <= k < 26 && t[i] == Capitals[k] && s[i] == Smalls[k];
          LowerOfCapital(k);
        }
      }
    }
  }

  /** The text the cleaner reads as "no amount": empty, or "nan", "none" or "-" in any case. */
  predicate IsNullMarker(s: string) {
    |s| < 1 || Lower(s) == "nan" || Lower(s) == "none" || Lower(s) == "-"
  }

  /** The regular-expression substitution of the cleaner: every comma,
      whitespace character and Rupee sign deleted, the rest kept in order. */
  function RemoveNoise(s: string): (r: string)
    ensures |r| <= |s|
  {
    if s == [] then []
    else
      (if IsNoise(s[0]) then [] else [s[0]]) + RemoveNoise(s[1..])
  }

  /** No comma, whitespace or Rupee sign survives the noise removal. */
  lemma {:induction false} RemoveNoiseLeavesNoNoise(s: string)
    ensures forall i | 0 <= i < |RemoveNoise(s)| :: !IsNoise(RemoveNoise(s)[i])
  {
    if s != [] {
      RemoveNoiseLeavesNoNoise(s[1..]);
    }
  }

  /** str.lstrip('-'): every leading minus sign removed. */
  function StripMinus(s: string): (r: string)
    ensures |r| <= |s|
    ensures r == [] || r[0] != '-'
  {
    if |s| > 0 && s[0] == '-' then StripMinus(s[1..]) else s
  }

  /** What lstrip('-') cuts off is a run of minus signs. */
  lemma {:induction false} StripMinusShape(s: string)
    ensures s == Dashes(|s| - |StripMinus(s)|) + StripMinus(s)
  {
    if |s| > 0 && s[0] == '-' {
      StripMinusShape(s[1..]);
      assert s == [s[0]] + s[1..];
      assert Dashes(|s| - |StripMinus(s)|) == ['-'] + Dashes(|s| - 1 - |StripMinus(s)|);
    } else {
      assert Dashes(0) == [];
    }
  }

  /** The value of a run of decimal digits, most significant first. */
  function DigitsValue(d: string): nat
    requires AllDigits(d)
  {
    if d == [] then 0 else 10 * DigitsValue(d[..|d| - 1]) + (d[|d| - 1] as int - '0' as int)
  }

  /** The value of the digits after a decimal point: 0.d1d2... = (d1 + 0.d2...) / 10. */
  function FractionValue(d: string): (v: real)
    requires AllDigits(d)
    ensures 0.0 <= v <= 1.0
  {
    if d == [] then 0.0 else ((d[0] as int - '0' as int) as real + FractionValue(d[1..])) / 10.0
  }

  /** The length of the run of digits at the start of s. */
  function LeadingDigits(s: string): (n: nat)
    ensures n <= |s| && AllDigits(s[..n])
    ensures n < |s| ==> !IsDigit(s[n])
  {
    if |s| > 0 && IsDigit(s[0]) then 1 + LeadingDigits(s[1..]) else 0
  }

  function Count(s: string, c: char): nat {
    if s == [] then 0 else (if s[0] == c then 1 else 0) + Count(s[1..], c)
  }

  /** The unsigned part of the grammar, stated without reference to the parser:
      digits and at most one decimal point, with at least one digit. */
  predicate IsDecimal(s: string) {
    (forall i | 0 <= i < |s| :: IsDigit(s[i]) || s[i] == '.')
    && Count(s, '.') <= 1 && Count(s, '.') < |s|
  }

  predicate IsSign(c: char) {
    c == '+' || c == '-'
  }

  /** The full grammar accepted in place of float(): an optional sign, then an unsigned decimal. */
  predicate IsNumber(s: string) {
    IsDecimal(s) || (|s| > 0 && IsSign(s[0]) && IsDecimal(s[1..]))
  }

  /** Digits ('.' Digits?)? or '.' Digits, read as an exact real. */
  function ParseUnsigned(s: string): (r: Option<real>)
    ensures r.Some? <==> IsDecimal(s)
  {
    var n := LeadingDigits(s);
    DecimalShape(s, n);
    if n == |s| then
      (if n > 0 then Some(DigitsValue(s) as real) else None)
    else if s[n] == '.' && AllDigits(s[n + 1..]) && |s| > 1 then
      Some(DigitsValue(s[..n]) as real + FractionValue(s[n + 1..]))
    else None
  }

  /**
   * Python's float(), restricted to finite plain decimals: an optional sign
   * followed by Digits ('.' Digits?)? or '.' Digits, evaluated exactly.
   * Exponents, '_' digit separators, "inf"/"nan"/"infinity" and non-ASCII
   * digits are outside this grammar and count as a parse failure.
   */
  function ParseNumber(s: string): (r: Option<real>)
    ensures r.Some? <==> IsNumber(s)
  {
    if |s| > 0 && IsSign(s[0]) then
      assert !IsDecimal(s) by { SignedIsNotDecimal(s); }
      match ParseUnsigned(s[1..])
      case Some(v) => Some(if s[0] == '-' then -v else v)
      case None => None
    else ParseUnsigned(s)
  }

  /** clean_amount: absent or null-like text is 0; otherwise the trimmed text goes on to CleanText. */
  function CleanAmount(raw: Option<string>): real {
    if raw.None? || raw.value == "" then 0.0 else CleanText(Strip(raw.value))
  }

  /** The trimmed text: a null marker is 0, anything else loses its commas,
      whitespace and Rupee signs and is read by ReadSigned. */
  function CleanText(s: string): real {
    if IsNullMarker(s) then 0.0 else ReadSigned(RemoveNoise(s))
  }

  /** Remembers whether t starts with '-', drops every leading '-', parses the
      rest and negates it if needed; a parse failure is 0. */
  function ReadSigned(t: string): real {
    var negative := |t| > 0 && t[0] == '-';
    match ParseNumber(StripMinus(t))
    case Some(v) => if negative then -v else v
    case None => 0.0
  }

  // ---------------------------------------------------------------------
  // Helper facts about the grammar

  lemma {:induction false} CountAppend(a: string, b: string, c: char)
    ensures Count(a + b, c) == Count(a, c) + Count(b, c)
  {
    if a == [] {
      assert a + b == b;
    } else {
      assert (a + b)[1..] == a[1..] + b;
      CountAppend(a[1..], b, c);
    }
  }

  lemma {:induction false} CountAbsent(s: string, c: char)
    requires forall i | 0 <= i < |s| :: s[i] != c
    ensures Count(s, c) == 0
  {
    if s != [] {
      CountAbsent(s[1..], c);
    }
  }

  lemma {:induction false} CountPresent(s: string, c: char, i: nat)
    requires i < |s| && s[i] == c
    ensures Count(s, c) >= 1
  {
    if i > 0 {
      CountPresent(s[1..], c, i - 1);
    }
  }

  /** With no decimal point in a run of digits and points, every character is a digit. */
  lemma {:induction false} NoPointMeansDigits(t: string)
    requires forall i | 0 <= i < |t| :: IsDigit(t[i]) || t[i] == '.'
    requires Count(t, '.') == 0
    ensures AllDigits(t)
  {
    forall i | 0 <= i < |t| ensures IsDigit(t[i]) {
      if t[i] == '.' {
        CountPresent(t, '.', i);
      }
    }
  }

  /** How the parser's split at the first non-digit lines up with the grammar. */
  lemma {:induction false} DecimalShape(s: string, n: nat)
    requires n == LeadingDigits(s)
    ensures n == |s| ==> (IsDecimal(s) <==> n > 0)
    ensures n < |s| ==> (IsDecimal(s) <==> s[n] == '.' && AllDigits(s[n + 1..]) && |s| > 1)
  {
    var head := s[..n];
    CountAbsent(head, '.');
    if n == |s| {
      assert s == head;
    } else {
      var rest := s[n + 1..];
      assert s == head + ([s[n]] + rest);
      CountAppend(head, [s[n]] + rest, '.');
      CountAppend([s[n]], rest, '.');
      if AllDigits(rest) {
        CountAbsent(rest, '.');
      }
      if IsDecimal(s) && s[n] == '.' {
        assert forall i | 0 <= i < |rest| :: rest[i] == s[n + 1 + i];
        NoPointMeansDigits(rest);
      }
    }
  }

  lemma {:induction false} SignedIsNotDecimal(s: string)
    requires |s| > 0 && IsSign(s[0])
    ensures !IsDecimal(s)
  {
  }

  // ---------------------------------------------------------------------
  // Facts about the individual steps

  lemma {:induction false} LeadingDigitsOf(a: string, rest: string)
    requires AllDigits(a)
    requires rest == [] || !IsDigit(rest[0])
    ensures LeadingDigits(a + rest) == |a|
  {
    if a != [] {
      assert (a + rest)[1..] == a[1..] + rest;
      LeadingDigitsOf(a[1..], rest);
    } else {
      assert a + rest == rest;
    }
  }

  /** Value of a decimal numeral: the integer digits plus the fraction digits. */
  function DecimalValue(a: string, b: string): real
    requires AllDigits(a) && AllDigits(b)
  {
    DigitsValue(a) as real + FractionValue(b)
  }

  /** The parser reads Digits '.' Digits, and Digits alone, as the decimal value they denote. */
  lemma {:induction false} UnsignedValue(a: string, b: string)
    requires AllDigits(a) && AllDigits(b) && |a| + |b| > 0
    ensures ParseUnsigned(a + "." + b) == Some(DecimalValue(a, b))
    ensures |a| > 0 ==> ParseUnsigned(a) == Some(DecimalValue(a, []))
  {
    var s := a + "." + b;
    assert s == a + ("." + b);
    LeadingDigitsOf(a, "." + b);
    assert s[..|a|] == a && s[|a| + 1..] == b;
    if |a| > 0 {
      LeadingDigitsOf(a, []);
      assert a + [] == a;
    }
  }

  /** x moved n decimal places to the left, that is x times 10^n. */
  function Shift(x: real, n: nat): real {
    if n == 0 then x else 10.0 * Shift(x, n - 1)
  }

  lemma {:induction false} ShiftAdd(x: real, y: real, n: nat)
    ensures Shift(x + y, n) == Shift(x, n) + Shift(y, n)
  {
    if n > 0 {
      ShiftAdd(x, y, n - 1);
    }
  }

  lemma {:induction false} ShiftNegate(x: real, n: nat)
    ensures Shift(-x, n) == -Shift(x, n)
  {
    if n > 0 {
      ShiftNegate(x, n - 1);
    }
  }

  /** Shifting by one more place is shifting ten times the value. */
  lemma {:induction false} ShiftTen(x: real, n: nat)
    ensures Shift(x, n + 1) == Shift(10.0 * x, n)
  {
    if n > 0 {
      ShiftTen(x, n - 1);
    }
  }

  /** Writing the digits of b after those of a shifts a by |b| decimal places. */
  lemma {:induction false} DigitsAppend(a: string, b: string)
    requires AllDigits(a) && AllDigits(b)
    ensures AllDigits(a + b)
    ensures DigitsValue(a + b) as real == Shift(DigitsValue(a) as real, |b|) + DigitsValue(b) as real
  {
    assert AllDigits(a + b) by {
      forall i | 0 <= i < |a + b| ensures IsDigit((a + b)[i]) {
        if i < |a| { assert (a + b)[i] == a[i]; } else { assert (a + b)[i] == b[i - |a|]; }
      }
    }
    if b == [] {
      assert a + b == a;
    } else {
      var init := b[..|b| - 1];
      assert AllDigits(init) by {
        forall i | 0 <= i < |init| ensures IsDigit(init[i]) { assert init[i] == b[i]; }
      }
      DigitsAppend(a, init);
      assert (a + b)[..|a + b| - 1] == a + init;
      assert (a + b)[|a + b| - 1] == b[|b| - 1];
    }
  }

  /** The digits after the point, read as a fraction and shifted back by |d| places, are the integer they spell. */
  lemma {:induction false} FractionIsScaled(d: string)
    requires AllDigits(d)
    ensures Shift(FractionValue(d), |d|) == DigitsValue(d) as real
  {
    if d != [] {
      var c, r := d[0], d[1..];
      assert AllDigits(r) by {
        forall i | 0 <= i < |r| ensures IsDigit(r[i]) { assert r[i] == d[i + 1]; }
      }
      FractionIsScaled(r);
      assert AllDigits([c]);
      DigitsAppend([c], r);
      assert [c] + r == d;
      assert [c][..0] == [];
      var digit := (c as int - '0' as int) as real;
      ShiftTen(FractionValue(d), |r|);
      assert 10.0 * FractionValue(d) == digit + FractionValue(r);
      ShiftAdd(digit, FractionValue(r), |r|);
    }
  }

  /** The decimal a.b shifted by |b| places is the integer spelled by the digits of a and b. */
  lemma {:induction false} DecimalIsScaled(a: string, b: string)
    requires AllDigits(a) && AllDigits(b)
    ensures AllDigits(a + b)
    ensures Shift(DecimalValue(a, b), |b|) == DigitsValue(a + b) as real
  {
    DigitsAppend(a, b);
    FractionIsScaled(b);
    ShiftAdd(DigitsValue(a) as real, FractionValue(b), |b|);
  }

  lemma {:induction false} RemoveNoiseAppend(a: string, b: string)
    ensures RemoveNoise(a + b) == RemoveNoise(a) + RemoveNoise(b)
  {
    if a == [] {
      assert a + b == b;
    } else {
      assert (a + b)[1..] == a[1..] + b;
      RemoveNoiseAppend(a[1..], b);
    }
  }

  lemma {:induction false} RemoveNoiseOfSpace(w: string)
    requires AllSpace(w)
    ensures RemoveNoise(w) == []
  {
    if w != [] {
      RemoveNoiseOfSpace(w[1..]);
    }
  }

  /** Stripping first changes nothing that the noise removal does not also remove. */
  lemma {:induction false} StripThenRemoveNoise(s: string)
    ensures RemoveNoise(Strip(s)) == RemoveNoise(s)
  {
    var r, k := Strip(s), StripOffset(s);
    StripShape(s);
    assert s == s[..k] + r + s[k + |r|..];
    RemoveNoiseAppend(s[..k] + r, s[k + |r|..]);
    RemoveNoiseAppend(s[..k], r);
    RemoveNoiseOfSpace(s[..k]);
    RemoveNoiseOfSpace(s[k + |r|..]);
  }

  lemma {:induction false} KeptByStrip(s: string, i: nat)
    requires i < |s| && !IsSpace(s[i])
    ensures s[i] in Strip(s)
  {
    var r, k := Strip(s), StripOffset(s);
    StripShape(s);
    assert r[i - k] == s[i];
  }

  lemma {:induction false} KeptByRemoveNoise(s: string, i: nat)
    requires i < |s| && !IsNoise(s[i])
    ensures s[i] in RemoveNoise(s)
  {
    if i > 0 {
      KeptByRemoveNoise(s[1..], i - 1);
    }
  }

  /** Nothing but the deleted characters is ever removed. */
  lemma {:induction false} RemoveNoiseKeepsOnlyInput(s: string, c: char)
    requires c in RemoveNoise(s)
    ensures c in s
  {
    if s != [] && c != s[0] {
      assert c in RemoveNoise(s[1..]);
      RemoveNoiseKeepsOnlyInput(s[1..], c);
    }
  }

  lemma {:induction false} KeptByStripMinus(s: string, c: char)
    requires c in s && c != '-'
    ensures c in StripMinus(s)
  {
    var r := StripMinus(s);
    StripMinusShape(s);
    var m := |s| - |r|;
    var i :| 0 <= i < |s| && s[i] == c;
    assert i >= m;
    assert r[i - m] == c;
  }

  /** A digit anywhere in the stripped text rules out every null marker. */
  lemma {:induction false} DigitBlocksNullMarker(t: string, i: nat)
    requires i < |t| && IsDigit(t[i])
    ensures !IsNullMarker(t)
  {
    var l := Lower(t);
    assert l[i] == t[i];
    assert forall j | 0 <= j < |"none"| :: !IsDigit("none"[j]);
    assert forall j | 0 <= j < |"nan"| :: !IsDigit("nan"[j]);
  }

  function Dashes(k: nat): (d: string)
    ensures |d| == k && forall i | 0 <= i < k :: d[i] == '-'
  {
    seq(k, _ => '-')
  }

  lemma {:induction false} StripMinusDashes(k: nat, w: string)
    requires w == [] || w[0] != '-'
    ensures StripMinus(Dashes(k) + w) == w
  {
    var s := Dashes(k) + w;
    if k == 0 {
      assert s == w;
    } else {
      assert s[1..] == Dashes(k - 1) + w;
      StripMinusDashes(k - 1, w);
    }
  }

  /** The text Digits '.' Digits (or Digits alone when point is false). */
  function DecimalText(a: string, point: bool, b: string): string {
    if point then a + "." + b else a
  }

  // ---------------------------------------------------------------------
  // The cleaner's promises

  /** Absent input is 0, and so is any casing of "nan", "none" or "-", or
      nothing at all, with any whitespace around it. */
  lemma {:induction false} NullMarkersCleanToZero(before: string, marker: string, after: string)
    requires AllSpace(before) && AllSpace(after)
    requires marker == "" || Lower(marker) in {"nan", "none", "-"}
    ensures CleanAmount(None) == 0.0
    ensures CleanAmount(Some(before + marker + after)) == 0.0
  {
    var s := before + marker + after;
    if marker == "" {
      assert s == (before + after) + [];
      TrimStartSpaces(before + after, []);
      assert Strip(s) == [];
    } else {
      assert LowerChar(marker[0]) == Lower(marker)[0];
      assert LowerChar(marker[|marker| - 1]) == Lower(marker)[|marker| - 1];
      assert s == before + (marker + after);
      TrimStartSpaces(before, marker + after);
      TrimEndSpaces(marker, after);
      assert Strip(s) == marker;
    }
  }

  lemma {:induction false} TrimStartSpaces(w: string, x: string)
    requires AllSpace(w) && (x == [] || !IsSpace(x[0]))
    ensures TrimStart(w + x) == x
  {
    if w == [] {
      assert w + x == x;
    } else {
      assert (w + x)[1..] == w[1..] + x;
      TrimStartSpaces(w[1..], x);
    }
  }

  lemma {:induction false} TrimEndSpaces(x: string, w: string)
    requires AllSpace(w) && (x == [] || !IsSpace(x[|x| - 1]))
    ensures TrimEnd(x + w) == x
  {
    if w == [] {
      assert x + w == x;
    } else {
      var w' := w[..|w| - 1];
      assert (x + w)[..|x + w| - 1] == x + w';
      TrimEndSpaces(x, w');
    }
  }

  /** When the cleaned text holds a digit, no null marker applies and the
      result is the signed reading of the text without commas, whitespace and Rupee signs. */
  lemma {:induction false} DigitReachesParser(s: string, i: nat)
    requires i < |RemoveNoise(s)| && IsDigit(RemoveNoise(s)[i])
    ensures CleanAmount(Some(s)) == ReadSigned(RemoveNoise(s))
  {
    var t := Strip(s);
    StripThenRemoveNoise(s);
    var d := RemoveNoise(t)[i];
    RemoveNoiseKeepsOnlyInput(t, d);
    var j :| 0 <= j < |t| && t[j] == d;
    DigitBlocksNullMarker(t, j);
  }

  /** k leading minus signs before an unsigned decimal: the value, negated when k > 0. */
  lemma {:induction false} ReadSignedDecimal(k: nat, a: string, point: bool, b: string)
    requires AllDigits(a) && AllDigits(b) && |a| + |b| > 0 && (!point ==> b == [])
    ensures ReadSigned(Dashes(k) + DecimalText(a, point, b))
            == if k > 0 then -DecimalValue(a, b) else DecimalValue(a, b)
  {
    var w := DecimalText(a, point, b);
    assert |w| > 0 && (IsDigit(w[0]) || w[0] == '.');
    StripMinusDashes(k, w);
    UnsignedValue(a, b);
    assert ParseNumber(w) == Some(DecimalValue(a, b));
  }

  /**
   * Digit and decimal-point text with any commas, whitespace and Rupee signs
   * mixed in, after k minus signs: the result is the decimal value of the
   * digits, negated when k > 0 (all k leading minus signs are dropped).
   */
  lemma {:induction false} CleanSignedDecimal(s: string, k: nat, a: string, point: bool, b: string)
    requires AllDigits(a) && AllDigits(b) && |a| + |b| > 0 && (!point ==> b == [])
    requires RemoveNoise(s) == Dashes(k) + DecimalText(a, point, b)
    ensures CleanAmount(Some(s)) == if k > 0 then -DecimalValue(a, b) else DecimalValue(a, b)
  {
    var u := RemoveNoise(s);
    if |a| > 0 {
      assert u[k] == a[0];
      DigitReachesParser(s, k);
    } else {
      assert u[k + 1] == b[0];
      DigitReachesParser(s, k + 1);
    }
    ReadSignedDecimal(k, a, point, b);
  }

  /** k minus signs, then a plus sign, then an unsigned decimal: the plus sign is
      accepted by the number parser, so the value is as without it. */
  lemma {:induction false} ReadPlusDecimal(k: nat, a: string, point: bool, b: string)
    requires AllDigits(a) && AllDigits(b) && |a| + |b| > 0 && (!point ==> b == [])
    ensures ReadSigned(Dashes(k) + ("+" + DecimalText(a, point, b)))
            == if k > 0 then -DecimalValue(a, b) else DecimalValue(a, b)
  {
    var w := DecimalText(a, point, b);
    var v := "+" + w;
    assert v[0] == '+' && v[1..] == w;
    StripMinusDashes(k, v);
    UnsignedValue(a, b);
    assert ParseNumber(v) == Some(DecimalValue(a, b));
  }

  /**
   * A plus sign after the minus signs changes nothing: "+5" cleans to 5 and
   * "-+5" to -5, as float() reads an explicit plus sign.
   */
  lemma {:induction false} CleanPlusDecimal(s: string, k: nat, a: string, point: bool, b: string)
    requires AllDigits(a) && AllDigits(b) && |a| + |b| > 0 && (!point ==> b == [])
    requires RemoveNoise(s) == Dashes(k) + ("+" + DecimalText(a, point, b))
    ensures CleanAmount(Some(s)) == if k > 0 then -DecimalValue(a, b) else DecimalValue(a, b)
  {
    var u := RemoveNoise(s);
    if |a| > 0 {
      assert u[k + 1] == a[0];
      DigitReachesParser(s, k + 1);
    } else {
      assert u[k + 2] == b[0];
      DigitReachesParser(s, k + 2);
    }
    ReadPlusDecimal(k, a, point, b);
  }

  /**
   * The same, stated against the digits alone: the cleaned amount moved |b|
   * decimal places to the left is the integer the digits of a and b spell,
   * with the sign of the leading minus signs.
   */
  lemma {:induction false} CleanedDecimalIsScaled(s: string, k: nat, a: string, point: bool, b: string)
    requires AllDigits(a) && AllDigits(b) && |a| + |b| > 0 && (!point ==> b == [])
    requires RemoveNoise(s) == Dashes(k) + DecimalText(a, point, b)
    ensures AllDigits(a + b)
    ensures Shift(CleanAmount(Some(s)), |b|)
            == if k > 0 then -(DigitsValue(a + b) as real) else DigitsValue(a + b) as real
  {
    CleanSignedDecimal(s, k, a, point, b);
    DecimalIsScaled(a, b);
    ShiftNegate(DecimalValue(a, b), |b|);
  }

  /** A character that cannot occur in any Python float literal. */
  predicate IsForeign(c: char) {
    c < '\U{80}' && !IsNoise(c) && !IsDigit(c)
    && c !in {'.', '+', '-', '_', 'e', 'E', 'i', 'I', 'n', 'N', 'f', 'F', 't', 'T', 'y', 'Y', 'a', 'A'}
  }

  lemma {:induction false} ForeignBlocksParse(v: string, c: char)
    requires c in v && IsForeign(c)
    ensures ParseNumber(v) == None
  {
    var j :| 0 <= j < |v| && v[j] == c;
    assert j > 0 ==> v[1..][j - 1] == c;
  }

  lemma {:induction false} ForeignSurvivesCleaning(t: string, c: char)
    requires c in t && IsForeign(c)
    ensures c in StripMinus(RemoveNoise(t))
  {
    var i :| 0 <= i < |t| && t[i] == c;
    KeptByRemoveNoise(t, i);
    KeptByStripMinus(RemoveNoise(t), c);
  }

  /** Any ASCII character that no float literal can contain makes the whole cell
      unparseable, and the cleaner then yields 0 rather than an error. */
  lemma {:induction false} ForeignCharacterCleansToZero(s: string, i: nat)
    requires i < |s| && IsForeign(s[i])
    ensures CleanAmount(Some(s)) == 0.0
  {
    var t := Strip(s);
    KeptByStrip(s, i);
    if !IsNullMarker(t) {
      ForeignSurvivesCleaning(t, s[i]);
      ForeignBlocksParse(StripMinus(RemoveNoise(t)), s[i]);
    }
  }
}
