/** `formatTime`: whole seconds rendered as minutes, a colon and two-digit seconds. */
module TimeFormat {
  import opened Optional

  predicate IsDigit(c: char) {
    '0' <= c <= '9'
  }

  predicate AllDigits(s: string) {
    forall i :: 0 <= i < |s| ==> IsDigit(s[i])
  }

  function DigitChar(d: nat): (c: char)
    requires d < 10
    ensures IsDigit(c)
  {
    ('0' as int + d) as char
  }

  function DigitValue(c: char): nat
    requires IsDigit(c)
  {
    c as int - '0' as int
  }

  /** `n.toString()` for a natural number: decimal, no leading zeros. */
  function NatToString(n: nat): (r: string)
    ensures |r| >= 1 && AllDigits(r)
    ensures |r| == 1 <==> n < 10
    ensures r[0] == '0' <==> n == 0
    decreases n
  {
    if n < 10 then [DigitChar(n)] else NatToString(n / 10) + [DigitChar(n % 10)]
  }

  /** The number a string of decimal digits denotes. */
  function DecimalValue(s: string): nat
    requires AllDigits(s)
    decreases |s|
  {
    if s == [] then 0 else DecimalValue(s[..|s| - 1]) * 10 + DigitValue(s[|s| - 1])
  }

  /** Reading the decimal rendering back gives the number. */
  lemma {:induction false} NatToStringRoundTrip(n: nat)
    ensures DecimalValue(NatToString(n)) == n
    decreases n
  {
    if n >= 10 {
      NatToStringRoundTrip(n / 10);
      var s := NatToString(n);
      assert s[..|s| - 1] == NatToString(n / 10);
    }
  }

  /** `s.padStart(2, '0')`. */
  function PadStart2(s: string): (r: string)
    ensures |r| == if |s| >= 2 then |s| else 2
    ensures |s| >= 2 ==> r == s
  {
    if |s| >= 2 then s else seq(2 - |s|, _ => '0') + s
  }

  /** Zero padding keeps a string of digits a string of digits and keeps its value. */
  lemma PadStart2Value(s: string)
    requires AllDigits(s)
    ensures AllDigits(PadStart2(s)) && DecimalValue(PadStart2(s)) == DecimalValue(s)
  {
    var r := PadStart2(s);
    if |s| == 0 {
      assert r == "00" && r[..1] == "0" && r[..1][..0] == [];
    } else if |s| == 1 {
      assert r == ['0', s[0]] && r[..1] == "0" && r[..1][..0] == [] && s[..0] == [];
    }
  }

  /** `formatTime(seconds)` for whole, non-negative seconds. */
  function FormatTime(seconds: nat): (r: string)
    ensures |r| >= 4 && r[|r| - 3] == ':'
  {
    NatToString(seconds / 60) + ":" + PadStart2(NatToString(seconds % 60))
  }

  /** The rendering is the minute count, a colon, and exactly two digits for the seconds
      left over, and the two parts recombine to the input. */
  lemma FormatTimeShape(seconds: nat)
    ensures var m, ss := seconds / 60, seconds % 60;
      ss < 60 && m * 60 + ss == seconds &&
      FormatTime(seconds) == NatToString(m) + ":" + [DigitChar(ss / 10), DigitChar(ss % 10)]
  {
    var ss := seconds % 60;
    if ss >= 10 {
      assert NatToString(ss) == NatToString(ss / 10) + [DigitChar(ss % 10)];
    }
  }

  /** Reads `m:ss` back: a non-empty run of digits, a colon, two digits below 60. */
  function ParseTime(s: string): Option<nat> {
    if |s| >= 4 && s[|s| - 3] == ':' && AllDigits(s[..|s| - 3]) && AllDigits(s[|s| - 2..])
      && DecimalValue(s[|s| - 2..]) < 60
    then Some(DecimalValue(s[..|s| - 3]) * 60 + DecimalValue(s[|s| - 2..]))
    else None
  }

  lemma TwoDigitsValue(d: nat)
    requires d < 100
    ensures DecimalValue([DigitChar(d / 10), DigitChar(d % 10)]) == d
  {
    var two := [DigitChar(d / 10), DigitChar(d % 10)];
    assert two[..1] == [DigitChar(d / 10)];
    assert two[..1][..0] == [];
    calc {
      DecimalValue(two);
      DecimalValue(two[..1]) * 10 + DigitValue(two[1]);
      (DecimalValue(two[..1][..0]) * 10 + DigitValue(two[0])) * 10 + DigitValue(two[1]);
      (d / 10) * 10 + d % 10;
    }
  }

  /** The parser splits `minutes:two` at the colon three from the end. */
  lemma ParseTimeSplit(minutes: string, two: string)
    requires |minutes| >= 1 && AllDigits(minutes)
    requires |two| == 2 && AllDigits(two) && DecimalValue(two) < 60
    ensures ParseTime(minutes + ":" + two) == Some(DecimalValue(minutes) * 60 + DecimalValue(two))
  {
    var s := minutes + ":" + two;
    assert |s| - 3 == |minutes|;
    assert s[..|minutes|] == minutes;
    assert s[|minutes| + 1..] == two;
    assert s[|minutes|] == ':';
    assert AllDigits(s[..|s| - 3]) && AllDigits(s[|s| - 2..]);
  }

  /** Parsing undoes formatting: the rendering loses nothing. */
  lemma ParseFormatTime(seconds: nat)
    ensures ParseTime(FormatTime(seconds)) == Some(seconds)
  {
    FormatTimeShape(seconds);
    var m, ss := seconds / 60, seconds % 60;
    var two := [DigitChar(ss / 10), DigitChar(ss % 10)];
    NatToStringRoundTrip(m);
    TwoDigitsValue(ss);
    ParseTimeSplit(NatToString(m), two);
  }

  /** Under ten minutes and ten seconds past the minute: one digit, a colon, a zero and one digit. */
  lemma FormatTimeSmall(m: nat, ss: nat)
    requires m < 10 && ss < 10
    ensures FormatTime(m * 60 + ss) == [DigitChar(m), ':', '0', DigitChar(ss)]
  {
    assert (m * 60 + ss) / 60 == m && (m * 60 + ss) % 60 == ss;
    assert NatToString(m) == [DigitChar(m)] && NatToString(ss) == [DigitChar(ss)];
    assert PadStart2([DigitChar(ss)]) == ['0', DigitChar(ss)];
  }

  /** The renderings shown in the track list. */
  lemma FormatTimeExamples()
    ensures FormatTime(0) == "0:00"
    ensures FormatTime(5) == "0:05"
    ensures FormatTime(65) == "1:05"
    ensures FormatTime(125) == "2:05"
  {
    FormatTimeSmall(0, 0);
    FormatTimeSmall(0, 5);
    FormatTimeSmall(1, 5);
    FormatTimeSmall(2, 5);
  }
}
