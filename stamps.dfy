/**
 * The text FFmpegWrapper reads from ffmpeg's output: `time=HH:MM:SS.cc` progress stamps,
 * `Duration: HH:MM:SS.cc` headers, and the integer progress percentage.
 */
module Stamps {
  import opened Wrappers
  import opened Text

  const TIME_PREFIX: string := "time="
  const DURATION_PREFIX: string := "Duration: "

  /** Length of `dd:dd:dd.dd`. */
  const CLOCK_WIDTH: nat := 11

  /** The shape `\d{2}:\d{2}:\d{2}\.\d{2}` of a clock reading. */
  predicate ClockShape(t: string)
  {
    |t| == CLOCK_WIDTH
    && IsDigit(t[0]) && IsDigit(t[1]) && t[2] == ':'
    && IsDigit(t[3]) && IsDigit(t[4]) && t[5] == ':'
    && IsDigit(t[6]) && IsDigit(t[7]) && t[8] == '.'
    && IsDigit(t[9]) && IsDigit(t[10])
  }

  /** The regex `prefix(\d{2}):(\d{2}):(\d{2})\.(\d{2})` matches `line` starting at index `i`. */
  predicate StampAt(line: string, prefix: string, i: int)
  {
    && 0 <= i && i + |prefix| + CLOCK_WIDTH <= |line|
    && line[i..i + |prefix|] == prefix
    && ClockShape(line[i + |prefix|..i + |prefix| + CLOCK_WIDTH])
  }

  function TwoDigits(a: char, b: char): nat
    requires IsDigit(a) && IsDigit(b)
  {
    DigitValue(a) * 10 + DigitValue(b)
  }

  /** `hours * 3600 + minutes * 60 + seconds` of a clock reading; the hundredths are not used. */
  function ClockSeconds(t: string): (r: nat)
    requires ClockShape(t)
    ensures r <= 99 * 3600 + 99 * 60 + 99
  {
    TwoDigits(t[0], t[1]) * 3600 + TwoDigits(t[3], t[4]) * 60 + TwoDigits(t[6], t[7])
  }

  /** `Matcher.find()` from index `from`: the leftmost start of a match, or -1. */
  function FindStampFrom(line: string, prefix: string, from: nat): (r: int)
    ensures r == -1 || (from <= r && StampAt(line, prefix, r))
    ensures forall j :: from <= j && (r < 0 || j < r) ==> !StampAt(line, prefix, j)
    decreases |line| - from
  {
    if from + |prefix| + CLOCK_WIDTH > |line| then -1
    else if StampAt(line, prefix, from) then from
    else FindStampFrom(line, prefix, from + 1)
  }

  /**
   * The seconds of the leftmost stamp with the given prefix in a line, or None when the
   * pattern does not occur.
   */
  function ParseStamp(line: string, prefix: string): (r: Option<nat>)
    ensures r.None? <==> forall j :: !StampAt(line, prefix, j)
    ensures r.Some? ==> r.value <= 99 * 3600 + 99 * 60 + 99
  {
    var i := FindStampFrom(line, prefix, 0);
    if i < 0 then None
    else Some(ClockSeconds(line[i + |prefix|..i + |prefix| + CLOCK_WIDTH]))
  }

  /** How ffmpeg prints a clock reading: four zero-padded two-digit fields. */
  function FormatClock(h: nat, m: nat, s: nat, cs: nat): (t: string)
    requires h < 100 && m < 100 && s < 100 && cs < 100
    ensures ClockShape(t)
  {
    Pad2(h) + ":" + Pad2(m) + ":" + Pad2(s) + "." + Pad2(cs)
  }

  lemma TwoDigitsOfPad2(n: nat)
    requires n < 100
    ensures |Pad2(n)| == 2 && TwoDigits(Pad2(n)[0], Pad2(n)[1]) == n
  {
    var p := Pad2(n);
    assert p[..1] == [p[0]];
    assert DigitsValue(p[..1]) == DigitValue(p[0]);
  }

  /**
   * Reading back a printed stamp: a line that starts with `prefix` and a printed clock
   * yields `h * 3600 + m * 60 + s`, whatever the hundredths and whatever follows.
   */
  lemma ParseStampOfFormat(prefix: string, h: nat, m: nat, s: nat, cs: nat, rest: string)
    requires h < 100 && m < 100 && s < 100 && cs < 100
    ensures ParseStamp(prefix + FormatClock(h, m, s, cs) + rest, prefix) == Some(h * 3600 + m * 60 + s)
  {
    var t := FormatClock(h, m, s, cs);
    var seconds := ClockSeconds(t);
    ClockSecondsOfFormat(h, m, s, cs);
    assert seconds == h * 3600 + m * 60 + s;
    LeadingStamp(prefix, t, rest);
    assert ParseStamp(prefix + t + rest, prefix) == Some(seconds);
  }

  /** A line that starts with the prefix and a well-shaped clock matches at index 0. */
  lemma LeadingStamp(prefix: string, t: string, rest: string)
    requires ClockShape(t)
    ensures ParseStamp(prefix + t + rest, prefix) == Some(ClockSeconds(t))
  {
    var line := prefix + t + rest;
    assert line[..|prefix|] == prefix;
    assert line[|prefix|..|prefix| + CLOCK_WIDTH] == t;
    assert StampAt(line, prefix, 0);
    assert FindStampFrom(line, prefix, 0) == 0;
  }

  /** A printed clock reads back as its hours, minutes and seconds. */
  lemma ClockSecondsOfFormat(h: nat, m: nat, s: nat, cs: nat)
    requires h < 100 && m < 100 && s < 100 && cs < 100
    ensures ClockSeconds(FormatClock(h, m, s, cs)) == h * 3600 + m * 60 + s
  {
    var t := FormatClock(h, m, s, cs);
    var ph, pm, ps := Pad2(h), Pad2(m), Pad2(s);
    TwoDigitsOfPad2(h);
    TwoDigitsOfPad2(m);
    TwoDigitsOfPad2(s);
    assert t[0] == ph[0] && t[1] == ph[1];
    assert t[3] == pm[0] && t[4] == pm[1];
    assert t[6] == ps[0] && t[7] == ps[1];
  }

  /**
   * The progress percentage `min(100, (int) (timeProcessed * 100.0 / totalDuration))`.
   * The quotient is non-negative and the double division is exact enough below 101 that
   * truncation gives the integer floor, so it is computed here on integers.
   */
  function Percent(processed: nat, total: int): (p: int)
    requires total > 0
    ensures 0 <= p <= 100
    ensures p == 100 <==> processed >= total
    ensures p < 100 ==> p * total <= processed * 100 < (p + 1) * total
  {
    var q := processed * 100 / total;
    PercentFacts(processed, total);
    if q < 100 then q else 100
  }

  /** The integer quotient is the floor, and reaches 100 exactly when the total is reached. */
  lemma PercentFacts(processed: nat, total: int)
    requires total > 0
    ensures var q := processed * 100 / total;
            0 <= q && (q >= 100 <==> processed >= total) && q * total <= processed * 100 < (q + 1) * total
  {
    var q := processed * 100 / total;
    QuotientBounds(processed * 100, total);
    ScaleOrder(q, 100, total);
    ScaleOrder(99, q, total);
  }

  /** The quotient of a non-negative number is the floor: q * d <= n < (q + 1) * d. */
  lemma QuotientBounds(n: nat, d: int)
    requires d > 0
    ensures 0 <= n / d
    ensures (n / d) * d <= n < (n / d + 1) * d
  {
    assert n == (n / d) * d + n % d;
  }

  /** Multiplying by a positive number keeps the order. */
  lemma ScaleOrder(x: int, y: int, t: int)
    requires t > 0
    ensures x <= y <==> x * t <= y * t
  {
    if x <= y {
      assert y * t == x * t + (y - x) * t;
    } else {
      assert x * t == y * t + (x - y) * t;
    }
  }

  /** More processed media time never lowers the percentage. */
  lemma PercentMonotonic(a: nat, b: nat, total: int)
    requires total > 0 && a <= b
    ensures Percent(a, total) <= Percent(b, total)
  {
    var qa, qb := a * 100 / total, b * 100 / total;
    QuotientBounds(a * 100, total);
    QuotientBounds(b * 100, total);
    ScaleOrder(qa, qb, total);
    ScaleOrder(qa, qb + 1, total);
  }
}
