/**
 * Times in the raid emulator. `dateFromLogLine` reads the `[HH:MM:SS.mmm]`
 * field of a log line into a date of the current day; this model keeps the
 * milliseconds since that day's midnight, which is what every difference and
 * every `getHours`/`getMinutes` of such a date depends on. `DateToTimeStr`
 * renders a date as `HH:MM` for the fight summary.
 */
module LogTime {
  import opened Wrappers
  import opened LogPatterns

  const HourMs: nat := 3600000
  const MinuteMs: nat := 60000
  const SecondMs: nat := 1000

  /** `/\[(\d\d):(\d\d):(\d\d).(\d\d\d)\]/`; its '.' is unescaped and so takes any non-terminator. */
  const TimestampPattern: Pattern :=
    [Lit('['), Digit, Digit, Lit(':'), Digit, Digit, Lit(':'), Digit, Digit, Dot, Digit, Digit, Digit, Lit(']')]

  /** The largest value four two- and three-digit fields can give: 99:99:99.999. */
  const MaxStampMs: nat := 99 * HourMs + 99 * MinuteMs + 99 * SecondMs + 999

  function DigitValue(c: char): (d: nat)
    requires IsDigit(c)
    ensures d < 10
  {
    c as int - '0' as int
  }

  function DigitChar(d: nat): (c: char)
    requires d < 10
    ensures IsDigit(c) && DigitValue(c) == d
  {
    ('0' as int + d) as char
  }

  /**
   * The date `setHours(h)`, `setMinutes(m)`, `setSeconds(s)` and
   * `setMilliseconds(ms)` leave, as milliseconds after midnight; the setters
   * carry out-of-range fields into the next unit, so the sum is linear.
   */
  function ClockMs(h: nat, m: nat, s: nat, ms: nat): nat {
    h * HourMs + m * MinuteMs + s * SecondMs + ms
  }

  function TwoDigits(s: string, i: nat): (v: nat)
    requires i + 2 <= |s| && IsDigit(s[i]) && IsDigit(s[i + 1])
    ensures v < 100
  {
    10 * DigitValue(s[i]) + DigitValue(s[i + 1])
  }

  /** The fields of a matched timestamp are digits. */
  lemma StampDigits(log: string, i: nat)
    requires MatchesAt(TimestampPattern, log, i)
    ensures i + 14 <= |log|
    ensures IsDigit(log[i + 1]) && IsDigit(log[i + 2]) && IsDigit(log[i + 4]) && IsDigit(log[i + 5])
    ensures IsDigit(log[i + 7]) && IsDigit(log[i + 8])
    ensures IsDigit(log[i + 10]) && IsDigit(log[i + 11]) && IsDigit(log[i + 12])
  {
    assert AtomMatches(TimestampPattern[1], log[i + 1]) && AtomMatches(TimestampPattern[2], log[i + 2]);
    assert AtomMatches(TimestampPattern[4], log[i + 4]) && AtomMatches(TimestampPattern[5], log[i + 5]);
    assert AtomMatches(TimestampPattern[7], log[i + 7]) && AtomMatches(TimestampPattern[8], log[i + 8]);
    assert AtomMatches(TimestampPattern[10], log[i + 10]) && AtomMatches(TimestampPattern[11], log[i + 11]);
    assert AtomMatches(TimestampPattern[12], log[i + 12]);
  }

  /** The time written by the timestamp that starts at index `i`. */
  function TimeAt(log: string, i: nat): (t: nat)
    requires MatchesAt(TimestampPattern, log, i)
    ensures t <= MaxStampMs
  {
    StampDigits(log, i);
    var ms := 100 * DigitValue(log[i + 10]) + 10 * DigitValue(log[i + 11]) + DigitValue(log[i + 12]);
    ClockMs(TwoDigits(log, i + 1), TwoDigits(log, i + 4), TwoDigits(log, i + 7), ms)
  }

  /** `dateFromLogLine`: the time of the leftmost timestamp of the line, or `None` (`undefined`) when it has none. */
  function DateFromLogLine(log: string): (r: Option<int>)
    ensures r.Some? ==> 0 <= r.value <= MaxStampMs
  {
    StampFrom(log, 0)
  }

  /** The time of the leftmost timestamp that starts at or after index `from`. */
  function StampFrom(log: string, from: nat): (r: Option<int>)
    ensures r.Some? ==> 0 <= r.value <= MaxStampMs
    decreases |log| - from
  {
    if from + |TimestampPattern| > |log| then None
    else if MatchesAt(TimestampPattern, log, from) then Some(TimeAt(log, from))
    else StampFrom(log, from + 1)
  }

  /** Scanning for a timestamp reads the time at the position the leftmost-match search finds. */
  lemma {:induction false} StampFromFinds(log: string, from: nat)
    ensures var found := FindFrom(TimestampPattern, log, from);
            StampFrom(log, from) == if found.None? then None else Some(TimeAt(log, found.value))
    decreases |log| - from
  {
    if from + |TimestampPattern| <= |log| && !MatchesAt(TimestampPattern, log, from) {
      StampFromFinds(log, from + 1);
    }
  }

  /**
   * `dateFromLogLine` gives no date exactly when no `[dd:dd:dd?ddd]` stands in
   * the line, and otherwise the linear value of the leftmost one.
   */
  lemma DateFromLogLineMeaning(log: string)
    ensures DateFromLogLine(log).None? <==> !Occurs(TimestampPattern, log)
    ensures DateFromLogLine(log).Some? ==> exists i: nat ::
              MatchesAt(TimestampPattern, log, i) && DateFromLogLine(log).value == TimeAt(log, i)
              && forall j: nat :: j < i ==> !MatchesAt(TimestampPattern, log, j)
  {
    StampFromFinds(log, 0);
    var found := FindFrom(TimestampPattern, log, 0);
    if found.Some? {
      assert MatchesAt(TimestampPattern, log, found.value);
    }
  }

  /** The timestamp a network log line starts with, for given clock fields. */
  function Stamp(h: nat, m: nat, s: nat, ms: nat): (r: string)
    requires h < 100 && m < 100 && s < 100 && ms < 1000
    ensures |r| == 14
  {
    ['[', DigitChar(h / 10), DigitChar(h % 10), ':', DigitChar(m / 10), DigitChar(m % 10), ':',
     DigitChar(s / 10), DigitChar(s % 10), '.',
     DigitChar(ms / 100), DigitChar(ms / 10 % 10), DigitChar(ms % 10), ']']
  }

  lemma StampMatches(h: nat, m: nat, s: nat, ms: nat, rest: string)
    requires h < 100 && m < 100 && s < 100 && ms < 1000
    ensures MatchesAt(TimestampPattern, Stamp(h, m, s, ms) + rest, 0)
  {
    var st := Stamp(h, m, s, ms);
    var line := st + rest;
    forall k | 0 <= k < 14 ensures AtomMatches(TimestampPattern[k], line[k]) {
      assert line[k] == st[k];
    }
  }

  lemma StampFields(h: nat, m: nat, s: nat, ms: nat, rest: string)
    requires h < 100 && m < 100 && s < 100 && ms < 1000
    requires MatchesAt(TimestampPattern, Stamp(h, m, s, ms) + rest, 0)
    ensures TimeAt(Stamp(h, m, s, ms) + rest, 0) == ClockMs(h, m, s, ms)
  {
    var st := Stamp(h, m, s, ms);
    var line := st + rest;
    assert line[1] == st[1] && line[2] == st[2] && line[4] == st[4] && line[5] == st[5];
    assert line[7] == st[7] && line[8] == st[8] && line[10] == st[10] && line[11] == st[11] && line[12] == st[12];
    assert TwoDigits(line, 1) == 10 * (h / 10) + h % 10 == h;
    assert TwoDigits(line, 4) == 10 * (m / 10) + m % 10 == m;
    assert TwoDigits(line, 7) == 10 * (s / 10) + s % 10 == s;
    assert 100 * DigitValue(line[10]) + 10 * DigitValue(line[11]) + DigitValue(line[12])
        == 100 * (ms / 100) + 10 * (ms / 10 % 10) + ms % 10 == ms;
  }

  /** Reading back a timestamp gives the linear millisecond value of its fields, whatever follows it. */
  lemma StampRoundTrip(h: nat, m: nat, s: nat, ms: nat, rest: string)
    requires h < 100 && m < 100 && s < 100 && ms < 1000
    ensures DateFromLogLine(Stamp(h, m, s, ms) + rest) == Some(ClockMs(h, m, s, ms))
  {
    var line := Stamp(h, m, s, ms) + rest;
    StampMatches(h, m, s, ms, rest);
    assert StampFrom(line, 0) == Some(TimeAt(line, 0));
    StampFields(h, m, s, ms, rest);
  }

  /** JavaScript's decimal rendering of a non-negative integer. */
  function DecimalString(n: nat): (r: string)
    ensures |r| >= 1 && forall k :: 0 <= k < |r| ==> IsDigit(r[k])
    ensures n < 10 ==> |r| == 1
    ensures 10 <= n < 100 ==> |r| == 2
    decreases n
  {
    if n < 10 then [DigitChar(n)] else DecimalString(n / 10) + [DigitChar(n % 10)]
  }

  /** The number a string of decimal digits denotes. */
  function DecimalValue(s: string): nat
    requires forall k :: 0 <= k < |s| ==> IsDigit(s[k])
  {
    if s == [] then 0 else 10 * DecimalValue(s[..|s| - 1]) + DigitValue(s[|s| - 1])
  }

  lemma {:induction false} DecimalRoundTrip(n: nat)
    ensures DecimalValue(DecimalString(n)) == n
    decreases n
  {
    var r := DecimalString(n);
    if n >= 10 {
      DecimalRoundTrip(n / 10);
      assert r[..|r| - 1] == DecimalString(n / 10);
    }
  }

  /** `('0' + num).slice(-2)`: two digits, with a leading zero below ten. */
  function Pad2(n: nat): (r: string)
    requires n < 100
    ensures |r| == 2 && IsDigit(r[0]) && IsDigit(r[1])
    ensures TwoDigits(r, 0) == n
  {
    var s := "0" + DecimalString(n);
    Pad2Digits(n);
    s[|s| - 2..]
  }

  lemma Pad2Digits(n: nat)
    requires n < 100
    ensures var s := "0" + DecimalString(n);
            |s| >= 2 && IsDigit(s[|s| - 2]) && IsDigit(s[|s| - 1])
            && 10 * DigitValue(s[|s| - 2]) + DigitValue(s[|s| - 1]) == n
  {
    DecimalRoundTrip(n);
    var d := DecimalString(n);
    if n >= 10 {
      assert d[..1] == [d[0]];
    }
  }

  /** The hours field of a date of the day. */
  function HoursOf(date: int): nat {
    (date / HourMs) % 24
  }

  /** The minutes field of a date of the day. */
  function MinutesOf(date: int): nat {
    (date / MinuteMs) % 60
  }

  /** `DateToTimeStr`: `HH:MM` of a date. */
  function DateToTimeStr(date: int): (r: string)
    ensures |r| == 5 && r[2] == ':'
    ensures IsDigit(r[0]) && IsDigit(r[1]) && IsDigit(r[3]) && IsDigit(r[4])
    ensures TwoDigits(r, 0) == HoursOf(date) && TwoDigits(r, 3) == MinutesOf(date)
  {
    var hh := Pad2(HoursOf(date));
    var mm := Pad2(MinutesOf(date));
    var r := hh + ":" + mm;
    assert r[0] == hh[0] && r[1] == hh[1] && r[2] == ':' && r[3] == mm[0] && r[4] == mm[1];
    r
  }

  lemma ClockFields(h: nat, m: nat, s: nat, ms: nat)
    requires h < 24 && m < 60 && s < 60 && ms < 1000
    ensures HoursOf(ClockMs(h, m, s, ms)) == h && MinutesOf(ClockMs(h, m, s, ms)) == m
  {
    var t := ClockMs(h, m, s, ms);
    var below := m * MinuteMs + s * SecondMs + ms;
    assert t == h * HourMs + below && 0 <= below < HourMs;
    assert t / HourMs == h;
    var sub := s * SecondMs + ms;
    assert t == (h * 60 + m) * MinuteMs + sub && 0 <= sub < MinuteMs;
    assert t / MinuteMs == h * 60 + m;
  }

  /** A fight shown from a line stamped `hh:mm:ss.mmm` of the day shows `hh:mm`. */
  lemma StampShownAs(h: nat, m: nat, s: nat, ms: nat, rest: string)
    requires h < 24 && m < 60 && s < 60 && ms < 1000
    ensures DateToTimeStr(DateFromLogLine(Stamp(h, m, s, ms) + rest).value) == Pad2(h) + ":" + Pad2(m)
  {
    StampRoundTrip(h, m, s, ms, rest);
    ClockFields(h, m, s, ms);
    var r := DateToTimeStr(ClockMs(h, m, s, ms));
    var hh, mm := Pad2(h), Pad2(m);
    assert r[0] == hh[0] && r[1] == hh[1] by { TwoDigitsUnique(r, 0, hh, 0); }
    assert r[3] == mm[0] && r[4] == mm[1] by { TwoDigitsUnique(r, 3, mm, 0); }
    assert r == hh + ":" + mm;
  }

  /** Two digits are determined by the number they denote. */
  lemma TwoDigitsUnique(a: string, i: nat, b: string, j: nat)
    requires i + 2 <= |a| && IsDigit(a[i]) && IsDigit(a[i + 1])
    requires j + 2 <= |b| && IsDigit(b[j]) && IsDigit(b[j + 1])
    requires TwoDigits(a, i) == TwoDigits(b, j)
    ensures a[i] == b[j] && a[i + 1] == b[j + 1]
  {
    assert DigitValue(a[i]) == DigitValue(b[j]);
  }
}
