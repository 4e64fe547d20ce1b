/** The parts of System.TimeSpan that Session.cs reads from a stopwatch: the
    totals it stores in its metric arrays and the
    hh\:mm\:ss\.mm rendering it logs. A span is a number of 100-nanosecond ticks. */
module TimeSpan {
  import opened Wrappers
  import opened Text

  const TicksPerSecond: nat := 10_000_000
  const TicksPerMinute: nat := 600_000_000
  const TicksPerHour: nat := 36_000_000_000
  const TicksPerDay: nat := 864_000_000_000

  /** Slots of the metric arrays. */
  const HOUR_INDEX: nat := 0
  const MINUTE_INDEX: nat := 1
  const SECOND_INDEX: nat := 2

  /** The three slots of a metric array hold the same span in hours, in
      minutes and in seconds: the seconds slot times the ticks per second is
      the span, each larger unit is sixty of the next smaller one. */
  predicate MetricsShow(m: seq<real>, ticks: nat)
  {
    |m| == 3
    && m[SECOND_INDEX] * 10_000_000.0 == ticks as real
    && m[MINUTE_INDEX] * 60.0 == m[SECOND_INDEX]
    && m[HOUR_INDEX] * 60.0 == m[MINUTE_INDEX]
  }

  /** TimeSpan.TotalHours, .TotalMinutes and .TotalSeconds of a span, in
      the slots the metric arrays use. Each slot is the whole span in its own
      unit, fractions included, not one field of a breakdown. */
  function Totals(ticks: nat): (m: seq<real>)
    ensures MetricsShow(m, ticks)
    ensures m[HOUR_INDEX] * 36_000_000_000.0 == ticks as real
  {
    [ticks as real / 36_000_000_000.0, ticks as real / 600_000_000.0, ticks as real / 10_000_000.0]
  }

  /** The slots are determined by the span: an array that shows a span is
      that span's totals. */
  lemma MetricsShowTotals(m: seq<real>, ticks: nat)
    requires MetricsShow(m, ticks)
    ensures m == Totals(ticks)
  {
  }

  /** Whole hours, minutes and seconds of a span are the integer parts of
      its totals. */
  lemma TotalsWholeUnits(ticks: nat)
    ensures (ticks / TicksPerSecond) as real <= Totals(ticks)[SECOND_INDEX] < (ticks / TicksPerSecond + 1) as real
    ensures (ticks / TicksPerHour) as real <= Totals(ticks)[HOUR_INDEX] < (ticks / TicksPerHour + 1) as real
  {
  }

  /** TimeSpan.Hours, .Minutes and .Seconds. */
  datatype Clock = Clock(hours: nat, minutes: nat, seconds: nat)

  /** The components of a span: what is left of it in hours once whole days
      are taken away, and so on down to seconds. */
  function Components(ticks: nat): (c: Clock)
    ensures c.hours < 24 && c.minutes < 60 && c.seconds < 60
    ensures SecondOfDay(c) == (ticks / TicksPerSecond) % 86400
  {
    var c := Clock((ticks / TicksPerHour) % 24, (ticks / TicksPerMinute) % 60, (ticks / TicksPerSecond) % 60);
    Recompose(ticks / TicksPerSecond);
    c
  }

  /** The second of the day a clock reading names. */
  function SecondOfDay(c: Clock): nat
  {
    (c.hours * 60 + c.minutes) * 60 + c.seconds
  }

  lemma Recompose(t: nat)
    ensures SecondOfDay(Clock((t / 60 / 60) % 24, (t / 60) % 60, t % 60)) == t % 86400
  {
    var s, mm := t % 60, t / 60;
    var m, hh := mm % 60, mm / 60;
    var h, d := hh % 24, hh / 24;
    assert t == 86400 * d + (3600 * h + 60 * m + s);
    DayRemainder(t, d, 3600 * h + 60 * m + s);
  }

  /** Euclidean division by the length of a day is unique. */
  lemma DayRemainder(t: nat, d: nat, r: nat)
    requires t == 86400 * d + r && r < 86400
    ensures t % 86400 == r
  {
  }

  /** A clock reading is determined by the second of the day it names. */
  lemma SecondsInjective(a: Clock, b: Clock)
    requires a.hours < 24 && a.minutes < 60 && a.seconds < 60
    requires b.hours < 24 && b.minutes < 60 && b.seconds < 60
    requires SecondOfDay(a) == SecondOfDay(b)
    ensures a == b
  {
    assert SecondOfDay(a) % 60 == a.seconds && SecondOfDay(b) % 60 == b.seconds;
    assert SecondOfDay(a) / 60 == a.hours * 60 + a.minutes;
    assert SecondOfDay(b) / 60 == b.hours * 60 + b.minutes;
  }

  /** A number below 100 as two decimal digits, with a leading zero. */
  function TwoDigits(n: nat): (r: string)
    requires n < 100
    ensures |r| == 2 && AllDigits(r) && DigitsValue(r) == n
  {
    var r := ['0' + (n / 10) as char, '0' + (n % 10) as char];
    assert r[..1] == [r[0]] && r[..1][..0] == [];
    assert DigitsValue(r[..1]) == n / 10;
    r
  }

  /** TimeSpan.ToString(@"hh\:mm\:ss\.mm"). The trailing custom specifier is
      mm again, so the field after the dot repeats the minutes rather than
      showing fractions of a second; whole days are not shown. */
  function Format(ticks: nat): (r: string)
    ensures |r| == 11 && r[2] == ':' && r[5] == ':' && r[8] == '.'
    ensures r[9..11] == r[3..5]
  {
    var c := Components(ticks);
    TwoDigits(c.hours) + ":" + TwoDigits(c.minutes) + ":" + TwoDigits(c.seconds) + "." + TwoDigits(c.minutes)
  }

  /** Reads a rendering back into its components; the trailing field must
      repeat the minutes. */
  function ReadFormat(s: string): Option<Clock>
  {
    if |s| == 11 && s[2] == ':' && s[5] == ':' && s[8] == '.'
       && AllDigits(s[0..2]) && AllDigits(s[3..5]) && AllDigits(s[6..8]) && s[9..11] == s[3..5]
    then Some(Clock(DigitsValue(s[0..2]), DigitsValue(s[3..5]), DigitsValue(s[6..8])))
    else None
  }

  /** The rendering holds exactly the span's components. */
  lemma FormatReadsBack(ticks: nat)
    ensures ReadFormat(Format(ticks)) == Some(Components(ticks))
  {
    var c := Components(ticks);
    var s := Format(ticks);
    assert s[0..2] == TwoDigits(c.hours);
    assert s[3..5] == TwoDigits(c.minutes);
    assert s[6..8] == TwoDigits(c.seconds);
  }

  /** Spans a whole day apart render the same. */
  lemma FormatIgnoresDays(ticks: nat)
    ensures Format(ticks + TicksPerDay) == Format(ticks)
  {
    ComponentsIgnoreDays(ticks);
  }

  lemma ComponentsIgnoreDays(ticks: nat)
    ensures Components(ticks + TicksPerDay) == Components(ticks)
  {
    var t := ticks / TicksPerSecond;
    assert (ticks + TicksPerDay) / TicksPerSecond == t + 86400;
    assert (t + 86400) % 86400 == t % 86400;
    SecondsInjective(Components(ticks + TicksPerDay), Components(ticks));
  }
}
