/**
 * The leaf helpers: non-negative clamps, division that never fails, and the two
 * parse-or-zero date parsers, together with the calendar they need.
 *
 * A `time.Time` is an `Instant`: nanoseconds since 0001-01-01T00:00:00Z, which is
 * Go's zero time, so the zero `Instant` is the time the parsers return on failure.
 * A calendar day is a `CalDate`; `DayStart` gives its first instant (UTC).
 */
module TimeUtil {
  import opened Wrappers

  type Instant = int

  const ZeroInstant: Instant := 0
  const NanosPerSecond: int := 1_000_000_000
  const SecondsPerDay: int := 86_400
  const NanosPerDay: int := SecondsPerDay * NanosPerSecond

  // ---------------------------------------------------------------- clamps and division

  /** `NonNegInt`: negative counts become 0. */
  function NonNegInt(v: int): (r: int)
    ensures r >= 0
    ensures v >= 0 ==> r == v
    ensures v < 0 ==> r == 0
  {
    if v < 0 then 0 else v
  }

  /** `NonNegFloat`, over exact reals. */
  function NonNegReal(v: real): (r: real)
    ensures r >= 0.0
    ensures v >= 0.0 ==> r == v
    ensures v < 0.0 ==> r == 0.0
  {
    if v < 0.0 then 0.0 else v
  }

  /** `SafeDiv`: a zero denominator gives 0 instead of an infinity or NaN. */
  function SafeDiv(a: real, b: real): (r: real)
    ensures b == 0.0 ==> r == 0.0
    ensures b != 0.0 ==> r * b == a
  {
    if b == 0.0 then 0.0 else a / b
  }

  // ---------------------------------------------------------------- decimal digits

  function Pow10(n: nat): (r: nat)
    ensures r >= 1
  {
    if n == 0 then 1 else 10 * Pow10(n - 1)
  }

  predicate IsDigit(c: char) {
    '0' <= c <= '9'
  }

  predicate AllDigits(s: string) {
    forall i :: 0 <= i < |s| ==> IsDigit(s[i])
  }

  function DigitChar(d: nat): (c: char)
    requires d < 10
    ensures IsDigit(c) && c as int - '0' as int == d
  {
    ('0' as int + d) as char
  }

  /** The value of a run of decimal digits (Go's `atoi` on digits only). */
  function DigitsValue(s: string): (r: nat)
    requires AllDigits(s)
    ensures r < Pow10(|s|)
  {
    if s == [] then 0
    else DigitsValue(s[..|s| - 1]) * 10 + (s[|s| - 1] as int - '0' as int)
  }

  /** `n` written with exactly `width` digits, zero-padded on the left. */
  function PadDigits(n: nat, width: nat): (r: string)
    requires n < Pow10(width)
    ensures |r| == width && AllDigits(r)
  {
    if width == 0 then []
    else PadDigits(n / 10, width - 1) + [DigitChar(n % 10)]
  }

  lemma {:induction false} DigitsOfPad(n: nat, width: nat)
    requires n < Pow10(width)
    ensures DigitsValue(PadDigits(n, width)) == n
  {
    if width > 0 {
      var p := PadDigits(n, width);
      assert p[..width - 1] == PadDigits(n / 10, width - 1);
      DigitsOfPad(n / 10, width - 1);
    }
  }

  lemma {:induction false} PadOfDigits(s: string)
    requires AllDigits(s)
    ensures PadDigits(DigitsValue(s), |s|) == s
  {
    if s != [] {
      var init := s[..|s| - 1];
      var v := DigitsValue(s);
      assert v / 10 == DigitsValue(init) && v % 10 == s[|s| - 1] as int - '0' as int;
      PadOfDigits(init);
      assert s == init + [s[|s| - 1]];
    }
  }

  /** The number of digits `s` starts with. */
  function LeadingDigits(s: string): (n: nat)
    ensures n <= |s| && AllDigits(s[..n])
    ensures n < |s| ==> !IsDigit(s[n])
  {
    if s != [] && IsDigit(s[0]) then
      var n := 1 + LeadingDigits(s[1..]);
      assert s[..n] == [s[0]] + s[1..][..n - 1];
      n
    else 0
  }

  // ---------------------------------------------------------------- the proleptic Gregorian calendar

  datatype Date = Date(year: int, month: int, day: int)

  predicate IsLeap(year: int) {
    year % 4 == 0 && (year % 100 != 0 || year % 400 == 0)
  }

  /** Go's `daysIn`. */
  function DaysIn(month: int, year: int): (n: int)
    requires 1 <= month <= 12
    ensures 28 <= n <= 31
  {
    if month == 2 then (if IsLeap(year) then 29 else 28)
    else if month == 4 || month == 6 || month == 9 || month == 11 then 30
    else 31
  }

  /** A day a four-digit `YYYY-MM-DD` can name. */
  predicate ValidDate(d: Date) {
    && 0 <= d.year <= 9999
    && 1 <= d.month <= 12
    && 1 <= d.day <= DaysIn(d.month, d.year)
  }

  type CalDate = d: Date | ValidDate(d) witness Date(1, 1, 1)

  /** The calendar day of Go's zero time. */
  const ZeroDate: CalDate := Date(1, 1, 1)

  function DaysBeforeYear(year: int): int {
    var y := year - 1;
    365 * y + y / 4 - y / 100 + y / 400
  }

  function DaysBeforeMonth(month: int, year: int): int
    requires 1 <= month <= 13
  {
    if month == 1 then 0 else DaysBeforeMonth(month - 1, year) + DaysIn(month - 1, year)
  }

  /** Days from 0001-01-01 to `d`. */
  function DayNumber(d: CalDate): int {
    DaysBeforeYear(d.year) + DaysBeforeMonth(d.month, d.year) + d.day - 1
  }

  /** The instant at 00:00 UTC of `d`. */
  function DayStart(d: CalDate): Instant {
    DayNumber(d) * NanosPerDay
  }

  // ---------------------------------------------------------------- "2006-01-02"

  /** `t.Format("2006-01-02")`. */
  function FormatYMD(d: CalDate): (r: string)
    ensures |r| == 10 && r[4] == '-' && r[7] == '-'
    ensures AllDigits(r[..4]) && AllDigits(r[5..7]) && AllDigits(r[8..])
  {
    var r := PadDigits(d.year, 4) + "-" + PadDigits(d.month, 2) + "-" + PadDigits(d.day, 2);
    assert r[..4] == PadDigits(d.year, 4) && r[5..7] == PadDigits(d.month, 2) && r[8..] == PadDigits(d.day, 2);
    r
  }

  /** What `time.Parse("2006-01-02", s)` accepts: four, two and two digits, a real month and day. */
  predicate IsYMD(s: string) {
    && |s| == 10 && s[4] == '-' && s[7] == '-'
    && AllDigits(s[..4]) && AllDigits(s[5..7]) && AllDigits(s[8..])
    && ValidDate(Date(DigitsValue(s[..4]), DigitsValue(s[5..7]), DigitsValue(s[8..])))
  }

  /** `ParseYMD`: the day `s` names, or the zero date when `s` does not parse; it never fails. */
  function ParseYMD(s: string): (r: CalDate)
    ensures IsYMD(s) ==> FormatYMD(r) == s
    ensures !IsYMD(s) ==> r == ZeroDate
  {
    if IsYMD(s) then
      var d: CalDate := Date(DigitsValue(s[..4]), DigitsValue(s[5..7]), DigitsValue(s[8..]));
      PadOfDigits(s[..4]);
      PadOfDigits(s[5..7]);
      PadOfDigits(s[8..]);
      assert s == s[..4] + "-" + s[5..7] + "-" + s[8..];
      d
    else ZeroDate
  }

  /** Every day formats to a string that parses back to that day. */
  lemma ParseFormatYMD(d: CalDate)
    ensures IsYMD(FormatYMD(d))
    ensures ParseYMD(FormatYMD(d)) == d
  {
    var f := FormatYMD(d);
    assert f[..4] == PadDigits(d.year, 4) && f[5..7] == PadDigits(d.month, 2) && f[8..] == PadDigits(d.day, 2);
    DigitsOfPad(d.year, 4);
    DigitsOfPad(d.month, 2);
    DigitsOfPad(d.day, 2);
  }

  /** Distinct days have distinct `YYYY-MM-DD` forms. */
  lemma FormatYMDInjective(d1: CalDate, d2: CalDate)
    ensures FormatYMD(d1) == FormatYMD(d2) <==> d1 == d2
  {
    ParseFormatYMD(d1);
    ParseFormatYMD(d2);
  }

  /** A string parses to a day exactly when it is some day's `YYYY-MM-DD` form. */
  lemma ParseYMDExact(s: string)
    ensures IsYMD(s) <==> exists d: CalDate :: FormatYMD(d) == s
  {
    if IsYMD(s) {
      assert FormatYMD(ParseYMD(s)) == s;
    }
    if d: CalDate :| FormatYMD(d) == s {
      ParseFormatYMD(d);
    }
  }

  // ---------------------------------------------------------------- RFC 3339

  /**
   * A timestamp as RFC 3339 writes it: a day, a wall-clock time, nanoseconds,
   * and the zone's offset in seconds east of UTC.
   */
  datatype Stamp = Stamp(date: CalDate, hour: int, minute: int, second: int, nanos: int, offset: int)

  predicate ValidStamp(st: Stamp) {
    && 0 <= st.hour < 24 && 0 <= st.minute < 60 && 0 <= st.second < 60
    && 0 <= st.nanos < NanosPerSecond
    && -SecondsPerDay < st.offset < SecondsPerDay && st.offset % 60 == 0
  }

  /** The instant a timestamp denotes: its wall-clock time shifted back by the offset. */
  function StampInstant(st: Stamp): Instant {
    DayStart(st.date)
      + ((st.hour * 60 + st.minute) * 60 + st.second - st.offset) * NanosPerSecond
      + st.nanos
  }

  /** A run of digits whose value lies in `[lo, hi]`. */
  predicate NumIn(s: string, lo: int, hi: int) {
    AllDigits(s) && lo <= DigitsValue(s) <= hi
  }

  /** The fixed-width part `YYYY-MM-DDThh:mm:ss` with every field in range. */
  predicate HasRFC3339Clock(s: string) {
    && |s| >= 19
    && s[4] == '-' && s[7] == '-' && s[10] == 'T' && s[13] == ':' && s[16] == ':'
    && AllDigits(s[..4]) && NumIn(s[5..7], 1, 12) && AllDigits(s[8..10])
    && 1 <= DigitsValue(s[8..10]) <= DaysIn(DigitsValue(s[5..7]), DigitsValue(s[..4]))
    && NumIn(s[11..13], 0, 23) && NumIn(s[14..16], 0, 59) && NumIn(s[17..19], 0, 59)
  }

  /** Nanoseconds from fraction digits: the first nine count, the rest are dropped. */
  function FractionNanos(digits: string): (n: nat)
    requires AllDigits(digits)
    ensures n < NanosPerSecond
  {
    if |digits| <= 9 then
      FractionBound(DigitsValue(digits), |digits|);
      DigitsValue(digits) * Pow10(9 - |digits|)
    else
      assert AllDigits(digits[..9]);
      assert Pow10(9) == NanosPerSecond;
      DigitsValue(digits[..9])
  }

  /** `k` digits scaled to nine stay under a second. */
  lemma FractionBound(v: nat, k: nat)
    requires k <= 9 && v < Pow10(k)
    ensures v * Pow10(9 - k) < NanosPerSecond
  {
    PowSplit(k, 9 - k);
    MulMonotone(v + 1, Pow10(k), Pow10(9 - k));
    assert Pow10(9) == NanosPerSecond;
  }

  lemma {:induction false} PowSplit(a: nat, b: nat)
    ensures Pow10(a) * Pow10(b) == Pow10(a + b)
  {
    if a > 0 {
      PowSplit(a - 1, b);
    }
  }

  lemma MulMonotone(x: nat, y: nat, z: nat)
    requires x <= y
    ensures x * z <= y * z
  {
  }

  /** After the seconds: an optional `.digits` fraction, then the zone text. */
  function SplitFraction(rest: string): (parts: (string, string))
    ensures AllDigits(parts.0)
  {
    if |rest| >= 2 && rest[0] == '.' && IsDigit(rest[1]) then
      var n := 1 + LeadingDigits(rest[1..]);
      assert rest[1..n] == rest[1..][..n - 1];
      (rest[1..n], rest[n..])
    else ("", rest)
  }

  /** `Z`, or `+hh:mm` / `-hh:mm`, as seconds east of UTC. */
  function ParseZone(z: string): Option<int> {
    if z == "Z" then Some(0)
    else if |z| == 6 && (z[0] == '+' || z[0] == '-') && z[3] == ':'
            && NumIn(z[1..3], 0, 23) && NumIn(z[4..6], 0, 59) then
      var secs := (DigitsValue(z[1..3]) * 60 + DigitsValue(z[4..6])) * 60;
      Some(if z[0] == '-' then -secs else secs)
    else None
  }

  /** The timestamp `time.Parse(time.RFC3339, s)` reads from `s`, if any. */
  function ScanRFC3339(s: string): (r: Option<Stamp>)
    ensures r.Some? ==> ValidStamp(r.value)
  {
    if !HasRFC3339Clock(s) then None
    else
      var parts := SplitFraction(s[19..]);
      match ParseZone(parts.1)
      case None => None
      case Some(off) =>
        ClockFields(s);
        var d: CalDate := Date(DigitsValue(s[..4]), DigitsValue(s[5..7]), DigitsValue(s[8..10]));
        Some(Stamp(d, DigitsValue(s[11..13]), DigitsValue(s[14..16]), DigitsValue(s[17..19]),
                   FractionNanos(parts.0), off))
  }

  /** The fields of a well-formed clock make a real day and an in-range time of day. */
  lemma ClockFields(s: string)
    requires HasRFC3339Clock(s)
    ensures ValidDate(Date(DigitsValue(s[..4]), DigitsValue(s[5..7]), DigitsValue(s[8..10])))
    ensures 0 <= DigitsValue(s[11..13]) < 24 && 0 <= DigitsValue(s[14..16]) < 60
    ensures 0 <= DigitsValue(s[17..19]) < 60
  {
    assert Pow10(4) == 10000;
  }

  /** `ParseRFC3339`: never fails; text that is not an RFC 3339 timestamp gives the zero time. */
  function ParseRFC3339(s: string): (r: Instant)
    ensures ScanRFC3339(s).None? ==> r == ZeroInstant
  {
    match ScanRFC3339(s)
    case None => ZeroInstant
    case Some(st) => StampInstant(st)
  }

  function FormatFraction(nanos: int): string
    requires 0 <= nanos < NanosPerSecond
  {
    if nanos == 0 then "" else "." + PadDigits(nanos, 9)
  }

  function FormatZone(offset: int): (z: string)
    requires -SecondsPerDay < offset < SecondsPerDay
    ensures |z| > 0 && (z[0] == 'Z' || z[0] == '+' || z[0] == '-')
  {
    if offset == 0 then "Z"
    else
      var a := if offset < 0 then -offset else offset;
      (if offset < 0 then "-" else "+") + PadDigits(a / 3600, 2) + ":" + PadDigits(a / 60 % 60, 2)
  }

  /** The fixed-width `YYYY-MM-DDThh:mm:ss` part. */
  function ClockText(st: Stamp): (c: string)
    requires ValidStamp(st)
    ensures |c| == 19
  {
    FormatYMD(st.date) + "T" + PadDigits(st.hour, 2) + ":" + PadDigits(st.minute, 2) + ":"
      + PadDigits(st.second, 2)
  }

  /** RFC 3339 text for a timestamp: nine fraction digits unless whole, `Z` for UTC. */
  function FormatRFC3339(st: Stamp): string
    requires ValidStamp(st)
  {
    ClockText(st) + FormatFraction(st.nanos) + FormatZone(st.offset)
  }

  lemma {:induction false} LeadingDigitsOfConcat(p: string, z: string)
    requires AllDigits(p)
    requires |z| > 0 && !IsDigit(z[0])
    ensures LeadingDigits(p + z) == |p|
  {
    if p != [] {
      assert (p + z)[1..] == p[1..] + z;
      LeadingDigitsOfConcat(p[1..], z);
    }
  }

  lemma ZoneRoundTrip(offset: int)
    requires -SecondsPerDay < offset < SecondsPerDay && offset % 60 == 0
    ensures ParseZone(FormatZone(offset)) == Some(offset)
  {
    if offset != 0 {
      var a := if offset < 0 then -offset else offset;
      ZoneFields(a);
      var h, m := a / 3600, a / 60 % 60;
      var sign := if offset < 0 then "-" else "+";
      assert FormatZone(offset) == sign + PadDigits(h, 2) + ":" + PadDigits(m, 2);
      ParseZoneSigned(sign, h, m);
    }
  }

  /** An offset in whole minutes under a day splits into hours and minutes. */
  lemma ZoneFields(a: int)
    requires 0 < a < SecondsPerDay && a % 60 == 0
    ensures 0 <= a / 3600 < 24 && 0 <= a / 60 % 60 < 60
    ensures (a / 3600 * 60 + a / 60 % 60) * 60 == a
  {
    var mins := a / 60;
    assert a == mins * 60;
    var h, m := mins / 60, mins % 60;
    assert mins == h * 60 + m;
    assert a == h * 3600 + m * 60;
    assert 0 <= m * 60 < 3600;
    assert a / 3600 == h;
  }

  lemma ZoneText(sign: string, h: nat, m: nat)
    requires |sign| == 1 && h < 100 && m < 100
    ensures var z := sign + PadDigits(h, 2) + ":" + PadDigits(m, 2);
      && |z| == 6 && z[0] == sign[0] && z[3] == ':'
      && z[1..3] == PadDigits(h, 2) && z[4..6] == PadDigits(m, 2)
  {
  }

  lemma SplitFractionOf(p: string, zone: string)
    requires |p| > 0 && AllDigits(p)
    requires |zone| > 0 && !IsDigit(zone[0])
    ensures SplitFraction("." + p + zone) == (p, zone)
  {
    var rest := "." + p + zone;
    assert rest[1..] == p + zone;
    LeadingDigitsOfConcat(p, zone);
    assert rest[1..1 + |p|] == p;
    assert rest[1 + |p|..] == zone;
  }

  lemma FractionNanosOfNine(p: string)
    requires |p| == 9 && AllDigits(p)
    ensures FractionNanos(p) == DigitsValue(p)
  {
    assert Pow10(0) == 1;
  }

  lemma FractionRoundTrip(nanos: int, zone: string)
    requires 0 <= nanos < NanosPerSecond
    requires |zone| > 0 && (zone[0] == 'Z' || zone[0] == '+' || zone[0] == '-')
    ensures SplitFraction(FormatFraction(nanos) + zone).1 == zone
    ensures FractionNanos(SplitFraction(FormatFraction(nanos) + zone).0) == nanos
  {
    if nanos != 0 {
      var p := PadDigits(nanos, 9);
      SplitFractionOf(p, zone);
      assert FormatFraction(nanos) + zone == "." + p + zone;
      FractionNanosOfNine(p);
      DigitsOfPad(nanos, 9);
    } else {
      assert FormatFraction(nanos) + zone == zone;
    }
  }

  lemma ClockTextScans(st: Stamp, tail: string)
    requires ValidStamp(st)
    ensures HasRFC3339Clock(ClockText(st) + tail)
    ensures (ClockText(st) + tail)[19..] == tail
    ensures DigitsValue((ClockText(st) + tail)[..4]) == st.date.year
    ensures DigitsValue((ClockText(st) + tail)[5..7]) == st.date.month
    ensures DigitsValue((ClockText(st) + tail)[8..10]) == st.date.day
    ensures DigitsValue((ClockText(st) + tail)[11..13]) == st.hour
    ensures DigitsValue((ClockText(st) + tail)[14..16]) == st.minute
    ensures DigitsValue((ClockText(st) + tail)[17..19]) == st.second
  {
    var c := ClockText(st);
    var f := c + tail;
    var ymd := FormatYMD(st.date);
    assert f[..19] == c;
    assert c[..10] == ymd;
    assert f[..4] == ymd[..4] && f[5..7] == ymd[5..7] && f[8..10] == ymd[8..];
    assert f[11..13] == PadDigits(st.hour, 2);
    assert f[14..16] == PadDigits(st.minute, 2);
    assert f[17..19] == PadDigits(st.second, 2);
    ParseFormatYMD(st.date);
    DigitsOfPad(st.hour, 2);
    DigitsOfPad(st.minute, 2);
    DigitsOfPad(st.second, 2);
  }

  /** Every well-formed timestamp survives formatting and scanning unchanged. */
  lemma ScanFormatRFC3339(st: Stamp)
    requires ValidStamp(st)
    ensures ScanRFC3339(FormatRFC3339(st)) == Some(st)
    ensures ParseRFC3339(FormatRFC3339(st)) == StampInstant(st)
  {
    var tail := FormatFraction(st.nanos) + FormatZone(st.offset);
    assert FormatRFC3339(st) == ClockText(st) + tail;
    ClockTextScans(st, tail);
    FractionRoundTrip(st.nanos, FormatZone(st.offset));
    ZoneRoundTrip(st.offset);
  }

  /** `n < a * b` bounds the quotient `n / b` by `a`. */
  lemma DivBound(n: nat, a: nat, b: nat)
    requires b >= 1 && n < a * b
    ensures n / b < a
  {
    if n / b >= a {
      MulMonotone(a, n / b, b);
    }
  }

  /**
   * The first `k` digits of a nanosecond count that has no non-zero digit after
   * them: `.5` for 500000000 ns. With `k == 0` there is no fraction at all.
   */
  function ShortFraction(nanos: nat, k: nat): (f: string)
    requires nanos < NanosPerSecond && k <= 9
    ensures k == 0 ==> f == ""
    ensures k > 0 ==> |f| == k + 1 && f[0] == '.' && AllDigits(f[1..])
  {
    if k == 0 then ""
    else
      PowSplit(k, 9 - k);
      DivBound(nanos, Pow10(k), Pow10(9 - k));
      var p := PadDigits(nanos / Pow10(9 - k), k);
      assert ("." + p)[1..] == p;
      "." + p
  }

  lemma DivExact(n: nat, b: nat)
    requires b >= 1 && n % b == 0
    ensures n / b * b == n
  {
  }

  /** Up to nine fraction digits count in units of `10^(9 - k)` nanoseconds. */
  lemma FractionNanosOfShort(p: string)
    requires |p| <= 9 && AllDigits(p)
    ensures FractionNanos(p) == DigitsValue(p) * Pow10(9 - |p|)
  {
  }

  /** The `k` digits of a short fraction read back as the nanoseconds they were cut from. */
  lemma FractionNanosShort(nanos: nat, k: nat)
    requires nanos < NanosPerSecond && 1 <= k <= 9 && nanos % Pow10(9 - k) == 0
    ensures FractionNanos(ShortFraction(nanos, k)[1..]) == nanos
  {
    var b := Pow10(9 - k);
    PowSplit(k, 9 - k);
    DivBound(nanos, Pow10(k), b);
    var v := nanos / b;
    var p := PadDigits(v, k);
    assert ShortFraction(nanos, k)[1..] == p;
    FractionNanosOfShort(p);
    DigitsOfPad(v, k);
    DivExact(nanos, b);
  }

  /** Digits past the ninth are dropped, not rounded. */
  lemma FractionNanosTruncates(p: string, extra: string)
    requires |p| == 9 && AllDigits(p) && AllDigits(extra)
    ensures AllDigits(p + extra) && FractionNanos(p + extra) == DigitsValue(p)
  {
    if extra == [] {
      assert p + extra == p;
      assert Pow10(0) == 1;
    } else {
      assert (p + extra)[..9] == p;
    }
  }

  /** `+hh:mm` and `-hh:mm` read as that many seconds east or west of UTC. */
  lemma ParseZoneSigned(sign: string, h: nat, m: nat)
    requires sign == "+" || sign == "-"
    requires h < 24 && m < 60
    ensures ParseZone(sign + PadDigits(h, 2) + ":" + PadDigits(m, 2))
              == Some(if sign == "-" then -(h * 60 + m) * 60 else (h * 60 + m) * 60)
  {
    var z := sign + PadDigits(h, 2) + ":" + PadDigits(m, 2);
    assert |z| == 6 && z[0] == sign[0] && z[3] == ':' && z[1..3] == PadDigits(h, 2) && z[4..6] == PadDigits(m, 2) by {
      ZoneText(sign, h, m);
    }
    assert NumIn(z[1..3], 0, 23) && DigitsValue(z[1..3]) == h by {
      DigitsOfPad(h, 2);
    }
    assert NumIn(z[4..6], 0, 59) && DigitsValue(z[4..6]) == m by {
      DigitsOfPad(m, 2);
    }
    ParseZoneOfFields(z, h, m);
  }

  lemma ParseZoneOfFields(z: string, h: nat, m: nat)
    requires |z| == 6 && (z[0] == '+' || z[0] == '-') && z[3] == ':'
    requires NumIn(z[1..3], 0, 23) && DigitsValue(z[1..3]) == h
    requires NumIn(z[4..6], 0, 59) && DigitsValue(z[4..6]) == m
    ensures ParseZone(z) == Some(if z[0] == '-' then -(h * 60 + m) * 60 else (h * 60 + m) * 60)
  {
    assert z != "Z";
  }

  /** UTC has three spellings: `Z`, `+00:00` and `-00:00`. */
  lemma ZeroOffsetSpellings()
    ensures ParseZone("Z") == Some(0)
    ensures ParseZone("+00:00") == Some(0) && ParseZone("-00:00") == Some(0)
  {
    assert PadDigits(0, 2) == "00";
    ParseZoneSigned("+", 0, 0);
    assert "+" + PadDigits(0, 2) + ":" + PadDigits(0, 2) == "+00:00";
    ParseZoneSigned("-", 0, 0);
    assert "-" + PadDigits(0, 2) + ":" + PadDigits(0, 2) == "-00:00";
  }

  /** After the seconds, a short fraction and a zone split apart and read back as the nanoseconds. */
  lemma ShortFractionSplits(nanos: nat, k: nat, zone: string)
    requires nanos < NanosPerSecond && k <= 9 && nanos % Pow10(9 - k) == 0
    requires |zone| > 0 && (zone[0] == 'Z' || zone[0] == '+' || zone[0] == '-')
    ensures SplitFraction(ShortFraction(nanos, k) + zone).1 == zone
    ensures FractionNanos(SplitFraction(ShortFraction(nanos, k) + zone).0) == nanos
  {
    var frac := ShortFraction(nanos, k);
    if k == 0 {
      assert Pow10(9 - k) == NanosPerSecond;
      assert nanos % NanosPerSecond == 0;
      assert nanos == 0;
      assert frac + zone == zone;
      assert SplitFraction(zone) == ("", zone);
      assert FractionNanos("") == 0;
    } else {
      var p := frac[1..];
      assert frac + zone == "." + p + zone;
      SplitFractionOf(p, zone);
      FractionNanosShort(nanos, k);
    }
  }

  /**
   * A timestamp written with any fraction of at most nine digits that is exact for
   * its nanoseconds, and any zone spelling of its offset, scans back to it.
   */
  lemma ScanAnySpelling(st: Stamp, k: nat, zone: string)
    requires ValidStamp(st) && k <= 9 && st.nanos % Pow10(9 - k) == 0
    requires ParseZone(zone) == Some(st.offset)
    ensures ScanRFC3339(ClockText(st) + ShortFraction(st.nanos, k) + zone) == Some(st)
    ensures ParseRFC3339(ClockText(st) + ShortFraction(st.nanos, k) + zone) == StampInstant(st)
  {
    var tail := ShortFraction(st.nanos, k) + zone;
    assert ClockText(st) + ShortFraction(st.nanos, k) + zone == ClockText(st) + tail;
    ClockTextScans(st, tail);
    assert zone[0] == 'Z' || zone[0] == '+' || zone[0] == '-';
    ShortFractionSplits(st.nanos, k, zone);
  }

  /** RFC 3339 text from its parts: the clock, the fraction digits (none for a whole second), and the zone. */
  function StampText(clock: string, digits: string, zone: string): string {
    clock + (if digits == "" then "" else "." + digits) + zone
  }

  /** What `ParseZone` accepts is `Z` or a sign, two digits, a colon and two digits. */
  lemma ParseZoneShape(z: string)
    ensures ParseZone(z).Some? ==>
              z == "Z" || (|z| == 6 && (z[0] == '+' || z[0] == '-') && z[3] == ':'
                           && AllDigits(z[1..3]) && AllDigits(z[4..6]))
  {
  }

  /** The text after the seconds is the fraction `SplitFraction` found, then the rest. */
  lemma SplitFractionJoin(rest: string)
    ensures var parts := SplitFraction(rest);
      rest == (if parts.0 == "" then "" else "." + parts.0) + parts.1
  {
    if |rest| >= 2 && rest[0] == '.' && IsDigit(rest[1]) {
      var n := 1 + LeadingDigits(rest[1..]);
      assert rest == [rest[0]] + rest[1..n] + rest[n..];
    }
  }

  /** The date part of scanned text is the `YYYY-MM-DD` form of the day read from it. */
  lemma DateOfScan(s: string)
    requires HasRFC3339Clock(s)
    ensures ValidDate(Date(DigitsValue(s[..4]), DigitsValue(s[5..7]), DigitsValue(s[8..10])))
    ensures FormatYMD(Date(DigitsValue(s[..4]), DigitsValue(s[5..7]), DigitsValue(s[8..10]))) == s[..10]
  {
    var ymd := s[..10];
    assert ymd[..4] == s[..4] && ymd[5..7] == s[5..7] && ymd[8..] == s[8..10];
    ClockFields(s);
    assert IsYMD(ymd);
    var d: CalDate := Date(DigitsValue(s[..4]), DigitsValue(s[5..7]), DigitsValue(s[8..10]));
    assert ParseYMD(ymd) == d;
  }

  /** The clock part of scanned text is the clock text of the stamp read from it. */
  lemma ClockOfScan(s: string, st: Stamp)
    requires HasRFC3339Clock(s) && ValidStamp(st)
    requires st.date == Date(DigitsValue(s[..4]), DigitsValue(s[5..7]), DigitsValue(s[8..10]))
    requires st.hour == DigitsValue(s[11..13]) && st.minute == DigitsValue(s[14..16])
    requires st.second == DigitsValue(s[17..19])
    ensures ClockText(st) == s[..19]
  {
    var ymd := s[..10];
    assert FormatYMD(st.date) == ymd by {
      DateOfScan(s);
    }
    assert PadDigits(st.hour, 2) == s[11..13] by {
      PadOfDigits(s[11..13]);
    }
    assert PadDigits(st.minute, 2) == s[14..16] by {
      PadOfDigits(s[14..16]);
    }
    assert PadDigits(st.second, 2) == s[17..19] by {
      PadOfDigits(s[17..19]);
    }
    assert s[..19] == ymd + "T" + s[11..13] + ":" + s[14..16] + ":" + s[17..19];
  }

  /** Whatever the scanner accepts is some stamp's clock, fraction digits and zone spelling. */
  lemma ScanRFC3339Spelled(s: string, st: Stamp)
    requires ScanRFC3339(s) == Some(st)
    ensures ValidStamp(st)
    ensures exists digits, zone :: AllDigits(digits) && s == StampText(ClockText(st), digits, zone)
              && FractionNanos(digits) == st.nanos && ParseZone(zone) == Some(st.offset)
  {
    var parts := SplitFraction(s[19..]);
    ClockOfScan(s, st);
    SplitFractionJoin(s[19..]);
    assert s == s[..19] + s[19..];
    assert s == StampText(ClockText(st), parts.0, parts.1);
  }

  /** Any clock, fraction digits and zone spelling of a stamp scan back to that stamp. */
  lemma ScanOfSpelling(st: Stamp, digits: string, zone: string)
    requires ValidStamp(st) && AllDigits(digits) && FractionNanos(digits) == st.nanos
    requires ParseZone(zone) == Some(st.offset)
    ensures ScanRFC3339(StampText(ClockText(st), digits, zone)) == Some(st)
  {
    var tail := (if digits == "" then "" else "." + digits) + zone;
    assert StampText(ClockText(st), digits, zone) == ClockText(st) + tail;
    ClockTextScans(st, tail);
    assert zone[0] == 'Z' || zone[0] == '+' || zone[0] == '-';
    if digits == "" {
      assert tail == zone;
      assert SplitFraction(zone) == ("", zone);
    } else {
      assert tail == "." + digits + zone;
      SplitFractionOf(digits, zone);
    }
  }

  /**
   * The scanner accepts exactly the texts made of a stamp's clock, fraction digits
   * that read as its nanoseconds, and a zone spelling of its offset.
   */
  lemma ScanRFC3339Exact(s: string, st: Stamp)
    ensures ScanRFC3339(s) == Some(st) <==>
              ValidStamp(st)
              && exists digits, zone :: AllDigits(digits) && s == StampText(ClockText(st), digits, zone)
                   && FractionNanos(digits) == st.nanos && ParseZone(zone) == Some(st.offset)
  {
    if ScanRFC3339(s) == Some(st) {
      ScanRFC3339Spelled(s, st);
    }
    if ValidStamp(st) && exists digits, zone :: AllDigits(digits) && s == StampText(ClockText(st), digits, zone)
                           && FractionNanos(digits) == st.nanos && ParseZone(zone) == Some(st.offset) {
      var digits, zone :| AllDigits(digits) && s == StampText(ClockText(st), digits, zone)
                           && FractionNanos(digits) == st.nanos && ParseZone(zone) == Some(st.offset);
      ScanOfSpelling(st, digits, zone);
    }
  }

  /** Half a second may be written `.5`: the one digit counts 100000000 ns. */
  lemma HalfSecondFraction()
    ensures ShortFraction(500_000_000, 1) == ".5"
    ensures FractionNanos("5") == 500_000_000
  {
    assert Pow10(8) == 100_000_000;
    assert PadDigits(5, 1) == "5";
    FractionNanosShort(500_000_000, 1);
    assert ShortFraction(500_000_000, 1)[1..] == "5";
  }

  /** Midnight UTC of a day, written in RFC 3339, is the same instant as that day's start. */
  lemma MidnightUTC(d: CalDate)
    ensures ParseRFC3339(FormatYMD(d) + "T00:00:00Z") == DayStart(d)
  {
    var st := Stamp(d, 0, 0, 0, 0, 0);
    ScanFormatRFC3339(st);
    assert FormatRFC3339(st) == FormatYMD(d) + "T00:00:00Z";
  }
}
