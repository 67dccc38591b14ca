/**
 * The text of the canister's emissions report: the decimal text of the
 * total, the recommendation chosen by the 1000 kg threshold, and the fixed
 * frame around them. `ParseReport` reads a report back, so that what a
 * report states can be said exactly.
 */
module Report {

  const Threshold: nat := 1000

  const ReduceMessage := "Please consider reducing energy consumption, using public transportation, and choosing sustainable food options to reduce emissions."
  const PraiseMessage := "Great job! You are making a very significant impact on the environment, and for future generations."

  const Header := "Total emissions: "
  const Middle := " kg CO2 equivalent\n\nRecommendations:\n"

  predicate IsDigit(c: char)
  {
    '0' <= c <= '9'
  }

  predicate AllDigits(s: string)
  {
    forall i :: 0 <= i < |s| ==> IsDigit(s[i])
  }

  function DigitChar(d: nat): (c: char)
    requires d < 10
    ensures IsDigit(c) && c as int - '0' as int == d
  {
    ('0' as int + d) as char
  }

  /** The value of a string of decimal digits, most significant first. */
  function DecimalValue(s: string): nat
    requires AllDigits(s)
  {
    if s == [] then 0
    else DecimalValue(s[..|s| - 1]) * 10 + (s[|s| - 1] as int - '0' as int)
  }

  /** The decimal text of a natural number, as an arbitrary-precision
      integer prints it: digits only, no leading zero, and reading it back
      gives the number. */
  function NatToString(n: nat): (s: string)
    ensures |s| > 0 && AllDigits(s)
    ensures s[0] == '0' ==> s == "0"
    ensures DecimalValue(s) == n
  {
    if n < 10 then [DigitChar(n)]
    else
      var prefix := NatToString(n / 10);
      var s := prefix + [DigitChar(n % 10)];
      assert s[..|s| - 1] == prefix;
      s
  }

  /** The longest run of digits at the front of s. */
  function LeadingDigits(s: string): (d: string)
    ensures AllDigits(d) && d <= s
  {
    if s != [] && IsDigit(s[0]) then [s[0]] + LeadingDigits(s[1..]) else []
  }

  /** The recommendation for a total: the call to reduce emissions strictly
      above the threshold, praise at or below it. */
  function Recommendation(total: nat): (m: string)
    ensures m == ReduceMessage <==> total > Threshold
    ensures m == PraiseMessage <==> total <= Threshold
  {
    if total > Threshold then ReduceMessage else PraiseMessage
  }

  /** The report on a total: the header, the total in decimal, the middle
      text, then the recommendation for that total. */
  function ReportText(total: nat): (r: string)
    ensures r == Header + NatToString(total) + Middle + Recommendation(total)
    ensures ParseReport(r) == Some((total, Recommendation(total)))
  {
    var digits := NatToString(total);
    var r := Header + digits + Middle + Recommendation(total);
    ParseReportInverse(digits, Recommendation(total));
    r
  }

  datatype Option<T> = None | Some(value: T)

  /** Reads a report back into the total it states and its recommendation,
      or None when the text does not have the report's shape. */
  function ParseReport(s: string): Option<(nat, string)>
  {
    ParseFramed(s, Header, Middle)
  }

  /** Reads `header`, a run of digits and `middle`, and returns the digits'
      value with everything after `middle`. */
  function ParseFramed(s: string, header: string, middle: string): Option<(nat, string)>
  {
    if |s| < |header| || s[..|header|] != header then None
    else
      var rest := s[|header|..];
      var digits := LeadingDigits(rest);
      var tail := rest[|digits|..];
      if digits == [] || |tail| < |middle| || tail[..|middle|] != middle then None
      else Some((DecimalValue(digits), tail[|middle|..]))
  }

  /** Digits followed by a character that is not a digit are read as exactly those digits. */
  lemma {:induction false} LeadingDigitsStop(d: string, rest: string)
    requires AllDigits(d)
    requires rest != [] && !IsDigit(rest[0])
    ensures LeadingDigits(d + rest) == d
  {
    if d == [] {
      assert d + rest == rest;
    } else {
      assert (d + rest)[1..] == d[1..] + rest;
      LeadingDigitsStop(d[1..], rest);
    }
  }

  lemma {:induction false} ParseFramedInverse(header: string, digits: string, middle: string, text: string)
    requires |digits| > 0 && AllDigits(digits)
    requires |middle| > 0 && !IsDigit(middle[0])
    ensures ParseFramed(header + digits + middle + text, header, middle)
         == Some((DecimalValue(digits), text))
  {
    var after := middle + text;
    var s := header + (digits + after);
    assert header + digits + middle + text == s;
    assert s[..|header|] == header;
    assert s[|header|..] == digits + after;
    LeadingDigitsStop(digits, after);
    assert (digits + after)[|digits|..] == after;
    assert after[..|middle|] == middle && after[|middle|..] == text;
  }

  lemma {:induction false} ParseReportInverse(digits: string, recommendation: string)
    requires |digits| > 0 && AllDigits(digits)
    ensures ParseReport(Header + digits + Middle + recommendation)
         == Some((DecimalValue(digits), recommendation))
  {
    ParseFramedInverse(Header, digits, Middle, recommendation);
  }

  /** A report states the total it was made from: distinct totals give distinct reports. */
  lemma ReportDeterminesTotal(t1: nat, t2: nat)
    ensures t1 != t2 ==> ReportText(t1) != ReportText(t2)
  {
  }
}
