/**
  The elapsed-time text of a call window (`CallWindow.update_timer_label`):
  a second count is clamped at zero, split into whole minutes and the
  remaining seconds, and each part is written in decimal, zero-padded to at
  least two digits, around a colon ("mm:ss"; minutes may grow past two
  digits).

  The partner of the formatter is a parser for the same text; the round-trip
  lemma shows that the label determines the minutes and seconds, and hence the
  clamped second count.
*/
module TimerLabel {
  import opened Wrappers

  /** Negative second counts are shown as zero. */
  function Clamp(seconds: int): (n: nat)
    ensures seconds >= 0 ==> n == seconds
    ensures seconds < 0 ==> n == 0
  {
    if seconds < 0 then 0 else seconds
  }

  /** Whole minutes and the seconds left over, of the count clamped at zero. */
  function Split(seconds: int): (r: (nat, nat))
    ensures r.0 * 60 + r.1 == Clamp(seconds)
    ensures r.1 < 60
  {
    var n := Clamp(seconds);
    (n / 60, n % 60)
  }

  /** Minutes and seconds below a minute are the only such split of a count. */
  lemma SplitUnique(seconds: int, mins: nat, secs: nat)
    requires mins * 60 + secs == Clamp(seconds) && secs < 60
    ensures Split(seconds) == (mins, secs)
  {
  }

  predicate IsDigit(c: char) {
    '0' <= c <= '9'
  }

  predicate AllDigits(s: string) {
    forall i :: 0 <= i < |s| ==> IsDigit(s[i])
  }

  function DigitChar(d: nat): (c: char)
    requires d < 10
    ensures IsDigit(c)
    ensures c as int - '0' as int == d
  {
    ('0' as int + d) as char
  }

  function DigitValue(c: char): (d: nat)
    requires IsDigit(c)
    ensures d < 10
    ensures DigitChar(d) == c
  {
    c as int - '0' as int
  }

  /** The decimal text of a natural number, without a leading zero. */
  function Decimal(n: nat): (s: string)
    ensures |s| >= 1 && AllDigits(s)
    ensures |s| > 1 ==> s[0] != '0'
    decreases n
  {
    if n < 10 then [DigitChar(n)] else Decimal(n / 10) + [DigitChar(n % 10)]
  }

  /** The decimal text of a natural number, zero-filled to at least two digits. */
  function Pad2(n: nat): (s: string)
    ensures |s| >= 2 && AllDigits(s)
    ensures |s| == if n < 10 then 2 else |Decimal(n)|
  {
    if n < 10 then "0" + Decimal(n) else Decimal(n)
  }

  /** The text written into the timer label for a count of seconds. */
  function Label(seconds: int): (s: string)
    ensures |s| >= 5
  {
    var (mins, secs) := Split(seconds);
    Pad2(mins) + ":" + Pad2(secs)
  }

  /** The number a string of decimal digits denotes (leading zeros allowed). */
  function DigitsValue(s: string): nat
    requires AllDigits(s)
  {
    if s == [] then 0 else DigitsValue(s[..|s| - 1]) * 10 + DigitValue(s[|s| - 1])
  }

  /** Index of the first ':' in `s`, or `|s|` when there is none. */
  function ColonAt(s: string): (i: nat)
    ensures i <= |s|
    ensures i < |s| ==> s[i] == ':'
    ensures forall j :: 0 <= j < i ==> s[j] != ':'
  {
    if s == [] then 0
    else if s[0] == ':' then 0
    else 1 + ColonAt(s[1..])
  }

  /** Reads "mm:ss" text back into its minutes and seconds. */
  function ParseLabel(s: string): Option<(nat, nat)> {
    var i := ColonAt(s);
    if i == |s| then None
    else
      var mins, secs := s[..i], s[i + 1..];
      if mins != [] && secs != [] && AllDigits(mins) && AllDigits(secs)
      then Some((DigitsValue(mins), DigitsValue(secs)))
      else None
  }

  lemma {:induction false} DecimalValue(n: nat)
    ensures DigitsValue(Decimal(n)) == n
    decreases n
  {
    if n >= 10 {
      var s := Decimal(n);
      assert s[..|s| - 1] == Decimal(n / 10);
      DecimalValue(n / 10);
    }
  }

  /** A leading zero does not change the value of a digit string. */
  lemma {:induction false} LeadingZero(s: string)
    requires AllDigits(s)
    ensures AllDigits("0" + s) && DigitsValue("0" + s) == DigitsValue(s)
    decreases |s|
  {
    if s != [] {
      var t := "0" + s;
      assert t[..|t| - 1] == "0" + s[..|s| - 1];
      LeadingZero(s[..|s| - 1]);
    }
  }

  lemma Pad2Value(n: nat)
    ensures DigitsValue(Pad2(n)) == n
  {
    DecimalValue(n);
    if n < 10 {
      LeadingZero(Decimal(n));
    }
  }

  /** Round trip: the label reads back as exactly the minutes and seconds of the clamped count. */
  lemma ParseLabelRoundTrip(seconds: int)
    ensures ParseLabel(Label(seconds)) == Some(Split(seconds))
  {
    var (mins, secs) := Split(seconds);
    var m, s := Pad2(mins), Pad2(secs);
    var text := m + ":" + s;
    assert forall j :: 0 <= j < |m| ==> text[j] == m[j] && text[j] != ':';
    assert text[|m|] == ':';
    assert ColonAt(text) == |m|;
    assert text[..|m|] == m && text[|m| + 1..] == s;
    Pad2Value(mins);
    Pad2Value(secs);
  }

  /** Different clamped counts give different labels. */
  lemma LabelInjective(a: int, b: int)
    requires Label(a) == Label(b)
    ensures Clamp(a) == Clamp(b)
  {
    ParseLabelRoundTrip(a);
    ParseLabelRoundTrip(b);
  }

  /** The decimal text of `n` has one digit exactly below ten and two exactly from ten to ninety-nine. */
  lemma DecimalLength(n: nat)
    ensures |Decimal(n)| == 1 <==> n < 10
    ensures |Decimal(n)| == 2 <==> 10 <= n < 100
  {
    if n >= 10 {
      assert |Decimal(n)| == |Decimal(n / 10)| + 1;
      if n >= 100 {
        assert |Decimal(n / 10)| >= 2;
      }
    }
  }

  /** The label is exactly "mm:ss" while under a hundred minutes; minutes widen after that. */
  lemma LabelWidth(seconds: int)
    ensures |Label(seconds)| == |Pad2(Split(seconds).0)| + 3
    ensures Label(seconds)[|Label(seconds)| - 3] == ':'
    ensures |Label(seconds)| == 5 <==> Clamp(seconds) < 6000
  {
    var (mins, secs) := Split(seconds);
    DecimalLength(mins);
    DecimalLength(secs);
  }

  lemma LabelExamples()
    ensures Label(0) == "00:00"
    ensures Label(-7) == "00:00"
    ensures Label(65) == "01:05"
    ensures Label(6000) == "100:00"
  {
    assert Decimal(100) == Decimal(10) + ['0'];
  }
}
