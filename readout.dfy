/**
 * The digit readout shown when hourglass mode is off: the remaining seconds
 * split into hours, minutes and seconds, each written with at least two
 * decimal digits (the .NET format "00"), as "hh:mm" or "hh\nmm" on the first
 * line(s) and "ss" on the last.
 */
module Readout {
  import opened Basics

  /** Hours, minutes and seconds of a count of seconds, by the source's division chain. */
  function Split(total: nat): (hms: (nat, nat, nat))
    ensures hms.0 * 3600 + hms.1 * 60 + hms.2 == total
    ensures hms.1 < 60 && hms.2 < 60
  {
    var minutes := total / 60;
    var seconds := total % 60;
    var hours := minutes / 60;
    (hours, minutes % 60, seconds)
  }

  /** Any split with minutes and seconds below 60 is the one Split gives. */
  lemma SplitUnique(total: nat, h: nat, m: nat, s: nat)
    requires h * 3600 + m * 60 + s == total && m < 60 && s < 60
    ensures Split(total) == (h, m, s)
  {
    DivUnique(total, 60, h * 60 + m, s);
    DivUnique(h * 60 + m, 60, h, m);
  }

  predicate IsDigit(c: char) {
    '0' <= c <= '9'
  }

  predicate AllDigits(s: string) {
    forall i :: 0 <= i < |s| ==> IsDigit(s[i])
  }

  /** The character for a decimal digit. */
  function DigitChar(d: nat): (c: char)
    requires d < 10
    ensures IsDigit(c) && (c - '0') as int == d
  {
    (d + '0' as int) as char
  }

  /** Decimal representation of n without leading zeros ("0" for zero). */
  function DecimalDigits(n: nat): (s: string)
    ensures |s| >= 1 && AllDigits(s)
    ensures n >= 1 ==> s[0] != '0'
    ensures n < 10 <==> |s| == 1
    ensures n < 100 ==> |s| <= 2
  {
    if n < 10 then [DigitChar(n)] else DecimalDigits(n / 10) + [DigitChar(n % 10)]
  }

  /** A number written in the .NET custom format "00": at least two digits. */
  function Pad2(n: nat): (s: string)
    ensures |s| >= 2 && AllDigits(s)
    ensures n >= 10 ==> s[0] != '0'
    ensures n < 100 <==> |s| == 2
  {
    if n < 10 then "0" + DecimalDigits(n) else DecimalDigits(n)
  }

  /** The value of a string of decimal digits; the partner of DecimalDigits and Pad2. */
  function DecimalValue(s: string): nat
    requires AllDigits(s)
  {
    if s == [] then 0 else DecimalValue(s[..|s| - 1]) * 10 + (s[|s| - 1] - '0') as int
  }

  lemma {:induction false} DecimalDigitsRoundTrip(n: nat)
    ensures DecimalValue(DecimalDigits(n)) == n
  {
    if n >= 10 {
      var s := DecimalDigits(n);
      assert s[..|s| - 1] == DecimalDigits(n / 10);
      DecimalDigitsRoundTrip(n / 10);
    }
  }

  /** Reading a padded field back gives the number that was written. */
  lemma Pad2RoundTrip(n: nat)
    ensures DecimalValue(Pad2(n)) == n
  {
    DecimalDigitsRoundTrip(n);
    if n < 10 {
      var s := Pad2(n);
      assert s[..|s| - 1] == "0";
    }
  }

  /** Line break between hours and minutes in multi-line layout, a colon otherwise. */
  function Delimiter(multiline: bool): (c: char)
    ensures multiline <==> c == '\n'
    ensures !multiline <==> c == ':'
  {
    if multiline then '\n' else ':'
  }

  /** The title shown for a count of remaining seconds. */
  function Title(total: nat, multiline: bool): (t: string)
    ensures |t| >= 8
    ensures t[|t| - 6] == Delimiter(multiline) && t[|t| - 3] == '\n'
  {
    var (h, m, s) := Split(total);
    Pad2(h) + [Delimiter(multiline)] + Pad2(m) + "\n" + Pad2(s)
  }

  /** Reads hours, minutes and seconds back from a title; None if it is not shaped like one. */
  function ReadTitle(t: string): Option<(nat, nat, nat)> {
    if |t| < 8 then None
    else
      var hh, mm, ss := t[..|t| - 6], t[|t| - 5..|t| - 3], t[|t| - 2..];
      if AllDigits(hh) && AllDigits(mm) && AllDigits(ss) && t[|t| - 3] == '\n'
      then Some((DecimalValue(hh), DecimalValue(mm), DecimalValue(ss)))
      else None
  }

  /**
   * The readout loses nothing: in either layout the title reads back field by
   * field as the split of the remaining seconds, and so as those seconds.
   */
  lemma TitleRoundTrip(total: nat, multiline: bool)
    ensures ReadTitle(Title(total, multiline)) == Some(Split(total))
    ensures var t := Title(total, multiline);
      && t[..|t| - 6] == Pad2(Split(total).0)
      && t[|t| - 5..|t| - 3] == Pad2(Split(total).1)
      && t[|t| - 2..] == Pad2(Split(total).2)
    ensures var (h, m, s) := ReadTitle(Title(total, multiline)).value;
      h * 3600 + m * 60 + s == total && m < 60 && s < 60
  {
    var (h, m, s) := Split(total);
    var t := Title(total, multiline);
    var ph, pm, ps := Pad2(h), Pad2(m), Pad2(s);
    assert t == ph + [Delimiter(multiline)] + pm + "\n" + ps;
    assert t[..|t| - 6] == ph;
    assert t[|t| - 5..|t| - 3] == pm;
    assert t[|t| - 2..] == ps;
    Pad2RoundTrip(h);
    Pad2RoundTrip(m);
    Pad2RoundTrip(s);
  }
}
