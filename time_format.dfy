/**
 * The duration formatter of the browser extension (utils.js): a number of
 * seconds is rendered as "H hour(s) M minute(s)", leaving out a part whose
 * count is zero and falling back to "0 minutes".
 */
module TimeFormat {
  import opened Wrappers

  const SecondsPerHour: nat := 3600
  const SecondsPerMinute: nat := 60

  /** Whole hours in `seconds` (`Math.floor(seconds / 3600)`). */
  function Hours(seconds: nat): (h: nat)
    ensures SecondsPerHour * h <= seconds < SecondsPerHour * (h + 1)
  {
    seconds / SecondsPerHour
  }

  /** Whole minutes left over after the hours (`Math.floor((seconds % 3600) / 60)`). */
  function Minutes(seconds: nat): (m: nat)
    ensures m < 60
    ensures SecondsPerHour * Hours(seconds) + SecondsPerMinute * m <= seconds
    ensures seconds < SecondsPerHour * Hours(seconds) + SecondsPerMinute * (m + 1)
  {
    (seconds % SecondsPerHour) / SecondsPerMinute
  }

  predicate IsDigit(c: char) {
    '0' <= c <= '9'
  }

  predicate AllDigits(s: string) {
    forall i :: 0 <= i < |s| ==> IsDigit(s[i])
  }

  function DigitChar(d: nat): (c: char)
    requires d < 10
    ensures IsDigit(c)
  {
    ['0', '1', '2', '3', '4', '5', '6', '7', '8', '9'][d]
  }

  function DigitValue(c: char): (d: nat)
    requires IsDigit(c)
    ensures d < 10
  {
    (c as int - '0' as int) as nat
  }

  /**
   * Decimal rendering of a count. A template literal `${n}` writes the same digits
   * for every whole number below 2^53; above that JavaScript's doubles print
   * differently, which this model does not follow.
   */
  function NatToString(n: nat): (s: string)
    ensures |s| > 0 && AllDigits(s)
    ensures n > 0 ==> s[0] != '0'
    decreases n
  {
    if n < 10 then [DigitChar(n)] else NatToString(n / 10) + [DigitChar(n % 10)]
  }

  /** Reads a non-empty string of decimal digits back as a number. */
  function ParseDigits(s: string): nat
    requires AllDigits(s)
  {
    if s == [] then 0 else ParseDigits(s[..|s| - 1]) * 10 + DigitValue(s[|s| - 1])
  }

  lemma {:induction false} ParseDigitsOfNatToString(n: nat)
    ensures ParseDigits(NatToString(n)) == n
    decreases n
  {
    var s := NatToString(n);
    if n < 10 {
      assert s[..0] == [];
    } else {
      ParseDigitsOfNatToString(n / 10);
      assert s[..|s| - 1] == NatToString(n / 10);
    }
  }

  /** The plural ending, present exactly when the count is not 1. */
  function Plural(n: nat): string {
    if n != 1 then "s" else ""
  }

  /**
   * The template literal `${n} <unit>${n !== 1 ? 's' : ''}`: "<n> <unit>" with
   * the plural "s" exactly when the count is not 1 (the digits as `NatToString`
   * writes them).
   */
  function Quantity(n: nat, unit: string): string {
    NatToString(n) + " " + unit + Plural(n)
  }

  /**
   * The text the formatter produces for a number of hours and of minutes:
   * the hours part when there are hours, the minutes part when there are
   * minutes, one space between them when both are present, and "0 minutes"
   * when neither is.
   */
  function Render(h: nat, m: nat): string {
    if h > 0 && m > 0 then Quantity(h, "hour") + " " + Quantity(m, "minute")
    else if h > 0 then Quantity(h, "hour")
    else if m > 0 then Quantity(m, "minute")
    else "0 minutes"
  }

  /**
   * Formats `seconds` as the extension shows a runtime. The local string is
   * built by the same successive appends as in the extension; its contract
   * says which parts appear and that the text reads back as the duration.
   */
  method FormatTimeWithoutSeconds(seconds: nat) returns (timeString: string)
    ensures timeString == Render(Hours(seconds), Minutes(seconds))
    ensures ParseTime(timeString) == Some((Hours(seconds), Minutes(seconds)))
    ensures |timeString| > 0
    ensures timeString == "0 minutes" <==> seconds < 60
  {
    var hours := Hours(seconds);
    var minutes := Minutes(seconds);

    timeString := "";
    if hours > 0 {
      timeString := timeString + Quantity(hours, "hour");
      assert timeString == Quantity(hours, "hour");
    }
    assert timeString == "" <==> hours == 0;
    if minutes > 0 {
      if timeString != "" {
        timeString := timeString + " ";
      }
      timeString := timeString + Quantity(minutes, "minute");
    }

    if timeString == "" {
      timeString := "0 minutes";
    }
    assert timeString == Render(hours, minutes);
    FormattedText(seconds);
  }

  /** What the text of a duration promises: it reads back, is never empty, and falls back below a minute. */
  lemma FormattedText(seconds: nat)
    ensures var text := Render(Hours(seconds), Minutes(seconds));
      && ParseTime(text) == Some((Hours(seconds), Minutes(seconds)))
      && |text| > 0
      && (text == "0 minutes" <==> seconds < 60)
  {
    RenderReadsBack(Hours(seconds), Minutes(seconds));
    RenderZeroMinutes(Hours(seconds), Minutes(seconds));
    SecondsBelowAMinute(seconds);
  }

  // ---------------------------------------------------------------------------
  // Reading a formatted duration back.

  /** Number of leading decimal digits of `s`. */
  function DigitPrefixLength(s: string): (k: nat)
    ensures k <= |s| && AllDigits(s[..k])
    ensures k < |s| ==> !IsDigit(s[k])
  {
    if s == [] || !IsDigit(s[0]) then 0 else 1 + DigitPrefixLength(s[1..])
  }

  /**
   * Reads "<n> <unit>" or "<n> <unit>s" at the front of `s`, insisting that
   * the plural "s" is present exactly when n is not 1; gives n and the rest.
   */
  function ParseQuantity(s: string, unit: string): Option<(nat, string)> {
    var k := DigitPrefixLength(s);
    if k == 0 then None else ParseUnit(ParseDigits(s[..k]), s[k..], unit)
  }

  /** Reads " <unit>" and the plural ending that count `n` calls for; gives n and the rest. */
  function ParseUnit(n: nat, tail: string, unit: string): Option<(nat, string)> {
    if |tail| < 1 + |unit| || tail[..1 + |unit|] != " " + unit then None
    else
      var rest := tail[1 + |unit|..];
      var plural := |rest| > 0 && rest[0] == 's';
      if plural != (n != 1) then None
      else Some((n, if plural then rest[1..] else rest))
  }

  /** Reads a formatted duration back as (hours, minutes). */
  function ParseTime(s: string): Option<(nat, nat)> {
    match ParseQuantity(s, "hour")
    case Some((h, rest)) =>
      if rest == [] then Some((h, 0))
      else if rest[0] != ' ' then None
      else (
        match ParseQuantity(rest[1..], "minute")
        case Some((m, "")) => Some((h, m))
        case _ => None)
    case None =>
      match ParseQuantity(s, "minute")
      case Some((m, "")) => Some((0, m))
      case _ => None
  }

  lemma {:induction false} DigitPrefixOfDigits(d: string, t: string)
    requires AllDigits(d)
    requires t == [] || !IsDigit(t[0])
    ensures DigitPrefixLength(d + t) == |d|
    decreases |d|
  {
    if d != [] {
      assert (d + t)[1..] == d[1..] + t;
      DigitPrefixOfDigits(d[1..], t);
    } else {
      assert d + t == t;
    }
  }

  lemma ParseUnitOfUnit(n: nat, unit: string, rest: string)
    requires rest == [] || rest[0] == ' '
    ensures ParseUnit(n, " " + unit + Plural(n) + rest, unit) == Some((n, rest))
  {
    var tail := " " + unit + Plural(n) + rest;
    assert tail[..1 + |unit|] == " " + unit;
    assert tail[1 + |unit|..] == Plural(n) + rest;
    if n != 1 {
      assert (Plural(n) + rest)[1..] == rest;
    } else {
      assert Plural(n) + rest == rest;
    }
  }

  lemma ParseDigitsThenUnit(d: string, after: string, unit: string)
    requires |d| > 0 && AllDigits(d)
    requires after == [] || !IsDigit(after[0])
    ensures ParseQuantity(d + after, unit) == ParseUnit(ParseDigits(d), after, unit)
  {
    DigitPrefixOfDigits(d, after);
    assert (d + after)[..|d|] == d;
    assert (d + after)[|d|..] == after;
  }

  lemma ParseQuantityOfQuantity(n: nat, unit: string, rest: string)
    requires rest == [] || rest[0] == ' '
    ensures ParseQuantity(Quantity(n, unit) + rest, unit) == Some((n, rest))
  {
    var digits := NatToString(n);
    var after := " " + unit + Plural(n) + rest;
    assert Quantity(n, unit) + rest == digits + after;
    ParseDigitsThenUnit(digits, after, unit);
    ParseDigitsOfNatToString(n);
    ParseUnitOfUnit(n, unit, rest);
  }

  /** A "minute" quantity never reads as an "hour" quantity. */
  lemma MinuteIsNotHour(m: nat)
    ensures ParseQuantity(Quantity(m, "minute"), "hour") == None
  {
    var digits := NatToString(m);
    var after := " minute" + Plural(m);
    assert Quantity(m, "minute") == digits + after;
    ParseDigitsThenUnit(digits, after, "hour");
    MinuteIsNotHourUnit(ParseDigits(digits), after);
  }

  lemma MinuteIsNotHourUnit(n: nat, after: string)
    requires |after| >= 7 && after[..7] == " minute"
    ensures ParseUnit(n, after, "hour") == None
  {
    assert after[1] == 'm';
    assert (" " + "hour")[1] == 'h';
  }

  /** How `ParseTime` reads an hours part followed by a minutes part. */
  lemma ParseTimeBoth(s: string, h: nat, rest: string, m: nat)
    requires ParseQuantity(s, "hour") == Some((h, rest))
    requires |rest| > 0 && rest[0] == ' ' && ParseQuantity(rest[1..], "minute") == Some((m, ""))
    ensures ParseTime(s) == Some((h, m))
  {
  }

  /** How `ParseTime` reads an hours part alone. */
  lemma ParseTimeHoursOnly(s: string, h: nat)
    requires ParseQuantity(s, "hour") == Some((h, ""))
    ensures ParseTime(s) == Some((h, 0))
  {
  }

  /** How `ParseTime` reads a minutes part alone. */
  lemma ParseTimeMinutesOnly(s: string, m: nat)
    requires ParseQuantity(s, "hour") == None && ParseQuantity(s, "minute") == Some((m, ""))
    ensures ParseTime(s) == Some((0, m))
  {
  }

  lemma RenderReadsBackBoth(h: nat, m: nat)
    requires h > 0 && m > 0
    ensures ParseTime(Render(h, m)) == Some((h, m))
  {
    var s := Render(h, m);
    var tail := " " + Quantity(m, "minute");
    assert s == Quantity(h, "hour") + tail;
    ParseQuantityOfQuantity(h, "hour", tail);
    assert tail[1..] == Quantity(m, "minute") + "";
    ParseQuantityOfQuantity(m, "minute", "");
    ParseTimeBoth(s, h, tail, m);
  }

  lemma RenderReadsBackHours(h: nat, m: nat)
    requires h > 0 && m == 0
    ensures ParseTime(Render(h, m)) == Some((h, m))
  {
    var s := Render(h, m);
    assert s == Quantity(h, "hour") + "";
    ParseQuantityOfQuantity(h, "hour", "");
    ParseTimeHoursOnly(s, h);
  }

  lemma RenderReadsBackMinutes(h: nat, m: nat)
    requires h == 0
    ensures ParseTime(Render(h, m)) == Some((h, m))
  {
    var s := Render(0, m);
    NoHoursPart(m);
    RenderWithoutHours(m);
    assert s == Quantity(m, "minute") + "";
    ParseQuantityOfQuantity(m, "minute", "");
    ParseTimeMinutesOnly(s, m);
  }

  /** Without hours the text is the minutes part, "0 minutes" included. */
  lemma RenderWithoutHours(m: nat)
    ensures Render(0, m) == Quantity(m, "minute")
  {
    if m == 0 {
      assert NatToString(0) == "0";
      assert Quantity(0, "minute") == "0" + " " + "minute" + "s";
    }
  }

  /** Round trip: every rendered duration reads back as the counts it shows. */
  lemma RenderReadsBack(h: nat, m: nat)
    ensures ParseTime(Render(h, m)) == Some((h, m))
  {
    if h > 0 && m > 0 {
      RenderReadsBackBoth(h, m);
    } else if h > 0 {
      RenderReadsBackHours(h, m);
    } else {
      RenderReadsBackMinutes(h, m);
    }
  }

  /** The fallback text appears exactly when there are neither hours nor minutes. */
  lemma RenderZeroMinutes(h: nat, m: nat)
    ensures |Render(h, m)| > 0
    ensures Render(h, m) == "0 minutes" <==> h == 0 && m == 0
  {
    if h > 0 || m > 0 {
      RenderReadsBack(h, m);
      RenderReadsBack(0, 0);
    }
  }

  /** The text starts with an hours part exactly when there is at least one hour. */
  lemma HoursPartIff(h: nat, m: nat)
    ensures ParseQuantity(Render(h, m), "hour").Some? <==> h > 0
  {
    if h > 0 {
      HoursPartPresent(h, m);
    } else {
      NoHoursPart(m);
    }
  }

  lemma NoHoursPart(m: nat)
    ensures ParseQuantity(Render(0, m), "hour") == None
  {
    RenderWithoutHours(m);
    MinuteIsNotHour(m);
  }

  lemma HoursPartPresent(h: nat, m: nat)
    requires h > 0
    ensures ParseQuantity(Render(h, m), "hour").Some?
  {
    if m > 0 {
      var rest := " " + Quantity(m, "minute");
      assert Render(h, m) == Quantity(h, "hour") + rest;
      ParseQuantityOfQuantity(h, "hour", rest);
    } else {
      assert Render(h, m) == Quantity(h, "hour") + "";
      ParseQuantityOfQuantity(h, "hour", "");
    }
  }

  /** The unit is singular exactly when its count is 1. */
  lemma PluralIffNotOne(n: nat, unit: string)
    requires unit == "hour" || unit == "minute"
    ensures var q := Quantity(n, unit); q[|q| - 1] == 's' <==> n != 1
    ensures Quantity(n, unit) == NatToString(n) + " " + unit + (if n == 1 then "" else "s")
  {
  }

  /** The number of spaces in `s`. */
  function Spaces(s: string): nat {
    if s == [] then 0 else Spaces(s[..|s| - 1]) + (if s[|s| - 1] == ' ' then 1 else 0)
  }

  lemma {:induction false} SpacesAppend(a: string, b: string)
    ensures Spaces(a + b) == Spaces(a) + Spaces(b)
    decreases |b|
  {
    if b == [] {
      assert a + b == a;
    } else {
      assert (a + b)[..|a + b| - 1] == a + b[..|b| - 1];
      SpacesAppend(a, b[..|b| - 1]);
    }
  }

  lemma {:induction false} NoSpaces(s: string)
    requires forall i :: 0 <= i < |s| ==> s[i] != ' '
    ensures Spaces(s) == 0
    decreases |s|
  {
    if s != [] {
      NoSpaces(s[..|s| - 1]);
    }
  }

  lemma OneSpace()
    ensures Spaces(" ") == 1
  {
    assert " "[..0] == [];
  }

  /** A quantity holds exactly one space, the one after its count. */
  lemma SpacesOfQuantity(n: nat, unit: string)
    requires unit == "hour" || unit == "minute"
    ensures Spaces(Quantity(n, unit)) == 1
  {
    var digits := NatToString(n);
    NoSpaces(digits);
    NoSpaces(unit);
    NoSpaces(Plural(n));
    OneSpace();
    SpacesAppend(digits, " ");
    SpacesAppend(digits + " ", unit);
    SpacesAppend(digits + " " + unit, Plural(n));
  }

  /** A space separates the two parts, so the text holds three spaces exactly when both parts are present. */
  lemma SeparatorIffBoth(h: nat, m: nat)
    ensures Spaces(Render(h, m)) == if h > 0 && m > 0 then 3 else 1
  {
    if h > 0 && m > 0 {
      SpacesOfQuantity(h, "hour");
      SpacesOfQuantity(m, "minute");
      SpacesAppend(Quantity(h, "hour"), " ");
      SpacesAppend(Quantity(h, "hour") + " ", Quantity(m, "minute"));
      OneSpace();
    } else if h > 0 {
      SpacesOfQuantity(h, "hour");
    } else {
      SpacesOfQuantity(m, "minute");
      RenderWithoutHours(m);
    }
  }

  lemma SecondsBelowAMinute(seconds: nat)
    ensures Hours(seconds) == 0 && Minutes(seconds) == 0 <==> seconds < 60
  {
  }
}
