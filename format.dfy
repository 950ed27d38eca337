/**
 * The x-axis tick formatter `formatMinutes` of src/index.js: a count of
 * seconds is shown as `mm:ss`, minutes left-padded to two digits and
 * seconds "padded" by APPENDING a zero when below ten.
 *
 * JavaScript's template-string conversion of a non-negative integer
 * (below 10^21 and held exactly, as every tick of the chart is) is
 * modelled by `NatToString`; `ValueOf` reads a digit string back, and
 * `ReadClock` reads a whole `mm:ss` label back into seconds, so that what
 * a label shows can be stated as a number.
 */
module Format {
  import opened Wrappers

  predicate IsDigit(c: char) { '0' <= c <= '9' }

  predicate AllDigits(s: string) { forall i :: 0 <= i < |s| ==> IsDigit(s[i]) }

  /** The character of a decimal digit. */
  function DigitChar(n: nat): (c: char)
    requires n < 10
    ensures IsDigit(c) && c as int - '0' as int == n
  {
    ('0' as int + n) as char
  }

  /** The number a string of decimal digits denotes (the empty string denotes 0). */
  function ValueOf(s: string): nat
    requires AllDigits(s)
  {
    if |s| == 0 then 0 else ValueOf(s[..|s| - 1]) * 10 + (s[|s| - 1] as int - '0' as int)
  }

  /**
   * The decimal text JavaScript produces for a non-negative integer below
   * 10^21 that it holds exactly (`${n}` in a template string): digits only,
   * no leading zero, and reading it back gives `n`.
   */
  function NatToString(n: nat): (s: string)
    ensures 1 <= |s| && AllDigits(s)
    ensures (|s| == 1) == (n < 10)
    ensures (|s| == 2) == (10 <= n < 100)
    ensures s[0] == '0' ==> n == 0
    ensures ValueOf(s) == n
  {
    if n < 10 then [DigitChar(n)] else NatToString(n / 10) + [DigitChar(n % 10)]
  }

  /** A leading zero does not change the value of a digit string. */
  lemma {:induction false} ValueOfLeadingZero(s: string)
    requires AllDigits(s)
    ensures AllDigits("0" + s) && ValueOf("0" + s) == ValueOf(s)
  {
    if |s| > 0 {
      var p := s[..|s| - 1];
      ValueOfLeadingZero(p);
      assert ("0" + s)[..|s|] == "0" + p;
    }
  }

  /** A trailing zero multiplies the value of a digit string by ten. */
  lemma ValueOfTrailingZero(s: string)
    requires AllDigits(s)
    ensures AllDigits(s + "0") && ValueOf(s + "0") == 10 * ValueOf(s)
  {
    assert (s + "0")[..|s|] == s;
  }

  /** Printing ten times a positive number appends a zero to its text. */
  lemma NatToStringTimesTen(n: nat)
    requires n >= 1
    ensures NatToString(10 * n) == NatToString(n) + "0"
  {
    assert (10 * n) / 10 == n && (10 * n) % 10 == 0;
  }

  /**
   * A count left-padded with "0" to at least two digits: the minutes
   * field, and the seconds field as evidently intended.
   */
  function PadLeft(n: nat): string
  {
    if n < 10 then "0" + NatToString(n) else NatToString(n)
  }

  /** The seconds field as written: a "0" is appended when below ten. */
  function SecondsField(secs: nat): string
  {
    if secs < 10 then NatToString(secs) + "0" else NatToString(secs)
  }

  /** formatMinutes(d) for a non-negative integer d. */
  function FormatMinutes(d: nat): string
  {
    PadLeft(d / 60) + ":" + SecondsField(d % 60)
  }

  /** The number the seconds field of a label reads as: 5 reads as 50. */
  function SecondsShown(secs: nat): nat
  {
    if secs < 10 then 10 * secs else secs
  }

  /**
   * Reads an `m…m:ss` label back into a count of seconds: at least one
   * minutes digit, a colon, exactly two seconds digits.
   */
  function ReadClock(s: string): (t: Option<nat>)
    ensures t.Some? <==> |s| >= 4 && s[|s| - 3] == ':' && AllDigits(s[..|s| - 3]) && AllDigits(s[|s| - 2..])
  {
    if |s| >= 4 && s[|s| - 3] == ':' && AllDigits(s[..|s| - 3]) && AllDigits(s[|s| - 2..])
    then Some(ValueOf(s[..|s| - 3]) * 60 + ValueOf(s[|s| - 2..]))
    else None
  }

  /** A left-padded field has at least two digits and reads as its count. */
  lemma PadLeftValue(n: nat)
    ensures var m := PadLeft(n);
      |m| >= 2 && AllDigits(m) && ValueOf(m) == n && (|m| == 2) == (n < 100)
  {
    if n < 10 {
      ValueOfLeadingZero(NatToString(n));
    }
  }

  /** The seconds field always has two digits and reads as SecondsShown. */
  lemma SecondsFieldValue(secs: nat)
    requires secs < 60
    ensures var f := SecondsField(secs);
      |f| == 2 && AllDigits(f) && ValueOf(f) == SecondsShown(secs)
  {
    if secs < 10 {
      ValueOfTrailingZero(NatToString(secs));
    }
  }

  /**
   * Shape and meaning of every label: the minutes field reads as d / 60,
   * the two digits after the colon read as SecondsShown(d % 60), and below
   * 100 minutes the label is exactly `mm:ss` (five characters, ':' at index 2).
   */
  lemma FormatMinutesFields(d: nat)
    ensures var r := FormatMinutes(d);
      && |r| >= 5 && r[|r| - 3] == ':'
      && AllDigits(r[..|r| - 3]) && AllDigits(r[|r| - 2..])
      && ValueOf(r[..|r| - 3]) == d / 60
      && ValueOf(r[|r| - 2..]) == SecondsShown(d % 60)
      && (d < 6000 <==> |r| == 5)
      && (d < 6000 ==> r[2] == ':')
  {
    var m, f := PadLeft(d / 60), SecondsField(d % 60);
    PadLeftValue(d / 60);
    SecondsFieldValue(d % 60);
    var r := FormatMinutes(d);
    assert r == m + ":" + f;
    assert r[..|r| - 3] == m;
    assert r[|r| - 2..] == f;
  }

  /** What a label reads back as: the minutes and the SHOWN seconds. */
  lemma ReadFormatMinutes(d: nat)
    ensures ReadClock(FormatMinutes(d)) == Some(d / 60 * 60 + SecondsShown(d % 60))
    ensures ReadClock(FormatMinutes(d)) == Some(d) <==> d % 60 == 0 || d % 60 >= 10
  {
    FormatMinutesFields(d);
  }

  /**
   * Exactly when two counts of seconds get the same label: the same
   * minute and the same shown seconds, so s and 10 * s collide for
   * s in 1..5.
   */
  lemma FormatMinutesSameLabel(d1: nat, d2: nat)
    ensures FormatMinutes(d1) == FormatMinutes(d2) <==>
      d1 / 60 == d2 / 60 && SecondsShown(d1 % 60) == SecondsShown(d2 % 60)
  {
    if FormatMinutes(d1) == FormatMinutes(d2) {
      SameLabelSameFields(d1, d2);
    }
    if d1 / 60 == d2 / 60 && SecondsShown(d1 % 60) == SecondsShown(d2 % 60) {
      SameFieldsSameLabel(d1, d2);
    }
  }

  /** One label reads back as one minute count and one shown seconds value. */
  lemma SameLabelSameFields(d1: nat, d2: nat)
    requires FormatMinutes(d1) == FormatMinutes(d2)
    ensures d1 / 60 == d2 / 60 && SecondsShown(d1 % 60) == SecondsShown(d2 % 60)
  {
    var m1, f1 := PadLeft(d1 / 60), SecondsField(d1 % 60);
    var m2, f2 := PadLeft(d2 / 60), SecondsField(d2 % 60);
    PadLeftValue(d1 / 60);
    PadLeftValue(d2 / 60);
    SecondsFieldValue(d1 % 60);
    SecondsFieldValue(d2 % 60);
    SplitLabel(m1, f1, m2, f2);
  }

  /** A label with a two-character seconds field splits at its colon one way only. */
  lemma SplitLabel(m1: string, f1: string, m2: string, f2: string)
    requires |f1| == 2 && |f2| == 2 && m1 + ":" + f1 == m2 + ":" + f2
    ensures m1 == m2 && f1 == f2
  {
    var r := m1 + ":" + f1;
    assert m1 == r[..|r| - 3] == m2;
    assert f1 == r[|r| - 2..] == f2;
  }

  /** The same minute and the same shown seconds print the same label. */
  lemma SameFieldsSameLabel(d1: nat, d2: nat)
    requires d1 / 60 == d2 / 60 && SecondsShown(d1 % 60) == SecondsShown(d2 % 60)
    ensures FormatMinutes(d1) == FormatMinutes(d2)
  {
    var s1, s2 := d1 % 60, d2 % 60;
    if s1 < 10 && s2 >= 10 {
      NatToStringTimesTen(s1);
    } else if s2 < 10 && s1 >= 10 {
      NatToStringTimesTen(s2);
    }
    assert SecondsField(s1) == SecondsField(s2);
  }

  /** Pinned values: 5 s and 50 s both show as "00:50", 125 s as "02:50". */
  lemma FormatMinutesCollides()
    ensures FormatMinutes(5) == "00:50"
    ensures FormatMinutes(50) == "00:50"
    ensures FormatMinutes(125) == "02:50"
  {
    assert NatToString(0) == "0" && NatToString(5) == "5" && NatToString(2) == "2";
    assert NatToString(50) == NatToString(5) + "0";
  }

  /** formatMinutes with both fields left-padded, as evidently intended. */
  function FormatMinutesPadded(d: nat): string
  {
    PadLeft(d / 60) + ":" + PadLeft(d % 60)
  }

  /** The padded label reads back as exactly the count it was made from. */
  lemma ReadFormatMinutesPadded(d: nat)
    ensures ReadClock(FormatMinutesPadded(d)) == Some(d)
    ensures d < 6000 ==> |FormatMinutesPadded(d)| == 5 && FormatMinutesPadded(d)[2] == ':'
  {
    var m, f := PadLeft(d / 60), PadLeft(d % 60);
    PadLeftValue(d / 60);
    PadLeftValue(d % 60);
    var r := FormatMinutesPadded(d);
    assert r == m + ":" + f;
    assert r[..|r| - 3] == m;
    assert r[|r| - 2..] == f;
  }

  /**
   * On a multiple of ten the two formatters agree: a seconds value below
   * ten is then 0, and "0" with a zero appended or prepended is "00".
   * The chart's own ticks at 0, 50, ..., 200 seconds are all such values.
   */
  lemma FormatMinutesAgreeOnTens(d: nat)
    requires d % 10 == 0
    ensures FormatMinutes(d) == FormatMinutesPadded(d)
  {
    var s := d % 60;
    if s < 10 {
      assert s % 10 == 0;
      assert s == 0;
    }
  }

  /** Hence the padded formatter never gives two counts the same label. */
  lemma FormatMinutesPaddedInjective(d1: nat, d2: nat)
    ensures FormatMinutesPadded(d1) == FormatMinutesPadded(d2) ==> d1 == d2
  {
    ReadFormatMinutesPadded(d1);
    ReadFormatMinutesPadded(d2);
  }
}
