/** The time and date conversions of Functions/index.ts: ISO and display
    dates, `HH:mm` text and decimal hours, the labelled hours text, and the
    millisecond helpers of the stopwatch. Hours are exact reals. */
module TimeFunctions {
  import opened Wrappers
  import opened Text

  /** A JavaScript number argument: a finite value, or NaN, an infinity or `undefined`. */
  datatype NumArg = Finite(v: real) | NonFinite

  /** The stopwatch ceiling: 24 hours in milliseconds. */
  const LIMIT_MS: int := 24 * 60 * 60 * 1000

  // ---------------------------------------------------------------------
  // Dates

  /** Matches `^(\d{4})-(\d{2})-(\d{2})$`. */
  predicate IsIsoShape(s: string)
  {
    |s| == 10 && AllDigits(s[..4]) && s[4] == '-' && AllDigits(s[5..7]) && s[7] == '-' && AllDigits(s[8..])
  }

  /** Matches `^(\d{2})\/(\d{2})\/(\d{4})$`. */
  predicate IsDisplayShape(s: string)
  {
    |s| == 10 && AllDigits(s[..2]) && s[2] == '/' && AllDigits(s[3..5]) && s[5] == '/' && AllDigits(s[6..])
  }

  function DisplayDay(d: string): nat requires IsDisplayShape(d) { DigitsValue(d[..2]) }
  function DisplayMonth(d: string): nat requires IsDisplayShape(d) { DigitsValue(d[3..5]) }
  function DisplayYear(d: string): nat requires IsDisplayShape(d) { DigitsValue(d[6..]) }

  /** `toDisplayDate`: `yyyy-mm-dd` becomes `dd/mm/yyyy`; any other text is returned as it is. */
  function ToDisplayDate(iso: string): (r: string)
    ensures !IsIsoShape(iso) ==> r == iso
    ensures IsIsoShape(iso) ==> IsDisplayShape(r)
    ensures IsIsoShape(iso) ==> r[..2] == iso[8..] && r[3..5] == iso[5..7] && r[6..] == iso[..4]
  {
    if IsIsoShape(iso) then iso[8..] + "/" + iso[5..7] + "/" + iso[..4] else iso
  }

  /** `toIsoDate`: accepts exactly `dd/mm/yyyy` with month 1..12 and day 1..31
      (no check of the day against the month); the year is written back
      through `String(Number(yyyy))`, so it loses its leading zeros. */
  function ToIsoDate(display: string): (r: Option<string>)
    ensures r.Some? <==>
      IsDisplayShape(display) && 1 <= DisplayMonth(display) <= 12 && 1 <= DisplayDay(display) <= 31
    ensures r.Some? ==>
      r.value == NatToString(DisplayYear(display)) + "-" + display[3..5] + "-" + display[..2]
  {
    if !IsDisplayShape(display) then None
    else
      var dd := DisplayDay(display);
      var mm := DisplayMonth(display);
      var yyyy := DisplayYear(display);
      if mm < 1 || mm > 12 then None
      else if dd < 1 || dd > 31 then None
      else
        Pad2OfDigits(display[3..5]);
        Pad2OfDigits(display[..2]);
        Some(NatToString(yyyy) + "-" + Pad2(mm) + "-" + Pad2(dd))
  }

  /** Display -> ISO -> display gives the input back exactly when the year is at least 1000. */
  lemma DisplayIsoRoundTrip(x: string)
    requires ToIsoDate(x).Some?
    ensures ToDisplayDate(ToIsoDate(x).value) == x <==> DisplayYear(x) >= 1000
  {
    var iso := ToIsoDate(x).value;
    if DisplayYear(x) >= 1000 {
      NatToStringOfFourDigits(x[6..]);
      assert iso == x[6..] + "-" + x[3..5] + "-" + x[..2];
      assert iso[..4] == x[6..] && iso[5..7] == x[3..5] && iso[8..] == x[..2];
      assert IsIsoShape(iso);
      assert x == x[..2] + "/" + x[3..5] + "/" + x[6..];
    } else {
      assert |iso| <= 9;
    }
  }

  /** ISO -> display -> ISO gives a valid four-digit-year ISO date back. */
  lemma IsoDisplayRoundTrip(iso: string)
    requires IsIsoShape(iso)
    requires 1 <= DigitsValue(iso[5..7]) <= 12 && 1 <= DigitsValue(iso[8..]) <= 31
    requires DigitsValue(iso[..4]) >= 1000
    ensures ToIsoDate(ToDisplayDate(iso)) == Some(iso)
  {
    var d := ToDisplayDate(iso);
    assert d[..2] == iso[8..] && d[3..5] == iso[5..7] && d[6..] == iso[..4];
    assert IsDisplayShape(d);
    NatToStringOfFourDigits(iso[..4]);
    assert iso == iso[..4] + "-" + iso[5..7] + "-" + iso[8..];
  }

  // ---------------------------------------------------------------------
  // Decimal hours and HH:mm

  /** `Math.max(0, Math.min(24, x))`. */
  function Clamp24(x: real): (r: real)
    ensures 0.0 <= r <= 24.0
    ensures 0.0 <= x <= 24.0 ==> r == x
    ensures x <= 0.0 ==> r == 0.0
    ensures x >= 24.0 ==> r == 24.0
  {
    if x < 0.0 then 0.0 else if x > 24.0 then 24.0 else x
  }

  /** The whole hours (floor) and the rounded minutes of the fraction that
      `hoursToHHmm` shows; there is no carry, so the minutes may reach 60. */
  function ClockParts(x: real): (p: (nat, nat))
    ensures p.0 as real <= Clamp24(x) < p.0 as real + 1.0
    ensures p.0 <= 24 && p.1 <= 60
    ensures p.0 == 24 ==> p.1 == 0
    ensures -0.5 <= p.1 as real - (Clamp24(x) - p.0 as real) * 60.0 <= 0.5
  {
    var total := Clamp24(x);
    var hours := total.Floor;
    var minutes := JsRound((total - hours as real) * 60.0);
    (hours, minutes)
  }

  /** `r` is `hh:mm` whose value is within half a minute of the clamped `x`,
      with `hh` the whole hours of the clamped `x`. */
  ghost predicate ShowsClock(r: string, x: real)
  {
    |r| == 5 && r[2] == ':' && AllDigits(r[..2]) && AllDigits(r[3..]) &&
    var hh := DigitsValue(r[..2]) as real;
    var mm := DigitsValue(r[3..]) as real;
    hh <= Clamp24(x) < hh + 1.0 && mm <= 60.0 &&
    -1.0 / 120.0 <= hh + mm / 60.0 - Clamp24(x) <= 1.0 / 120.0
  }

  /** `hoursToHHmm`: "" for a non-finite input, otherwise the clamped hours as `hh:mm`. */
  function HoursToHHmm(h: NumArg): (r: string)
    ensures r == "" <==> h.NonFinite?
    ensures h.Finite? ==> ShowsClock(r, h.v)
  {
    if h.NonFinite? then ""
    else
      var p := ClockParts(h.v);
      Pad2Value(p.0);
      Pad2Value(p.1);
      var r := Pad2(p.0) + ":" + Pad2(p.1);
      assert r[..2] == Pad2(p.0) && r[3..] == Pad2(p.1);
      r
  }

  /** Matches `^(\d{1,2}):([0-5]\d)$`. */
  predicate HhmmMatch(t: string)
  {
    (|t| == 4 && IsDigit(t[0]) && t[1] == ':' && '0' <= t[2] <= '5' && IsDigit(t[3])) ||
    (|t| == 5 && IsDigit(t[0]) && IsDigit(t[1]) && t[2] == ':' && '0' <= t[3] <= '5' && IsDigit(t[4]))
  }

  function HourText(t: string): (r: string)
    requires HhmmMatch(t)
    ensures 1 <= |r| <= 2 && AllDigits(r)
  {
    t[..|t| - 3]
  }

  function MinuteText(t: string): (r: string)
    requires HhmmMatch(t)
    ensures |r| == 2 && AllDigits(r) && DigitsValue(r) < 60
  {
    var r := t[|t| - 2..];
    TwoDigitsValue(r);
    r
  }

  /** `hhmmToHours`: after trimming, `h:mm` or `hh:mm` with minutes 00..59,
      hours at most 24 and `24` only with `00`; the value is h + mm/60. */
  function HhmmToHours(s: string): (r: Option<real>)
    ensures r.Some? <==>
      var t := Trim(s);
      HhmmMatch(t) && DigitsValue(HourText(t)) <= 24 &&
      (DigitsValue(HourText(t)) == 24 ==> DigitsValue(MinuteText(t)) == 0)
    ensures r.Some? ==> 0.0 <= r.value <= 24.0
    ensures r.Some? ==>
      r.value * 60.0 == (DigitsValue(HourText(Trim(s))) * 60 + DigitsValue(MinuteText(Trim(s)))) as real
  {
    var t := Trim(s);
    if !HhmmMatch(t) then None
    else
      var h := DigitsValue(HourText(t));
      var min := DigitsValue(MinuteText(t));
      if h > 24 then None
      else if h == 24 && min != 0 then None
      else Some(h as real + min as real / 60.0)
  }

  /** Every accepted `HH:mm` text is shown again by `hoursToHHmm`, with the
      hours zero-padded to two digits. */
  lemma HhmmRoundTrip(s: string)
    requires HhmmToHours(s).Some?
    ensures var t := Trim(s);
      HoursToHHmm(Finite(HhmmToHours(s).value)) == Pad2(DigitsValue(HourText(t))) + ":" + MinuteText(t)
  {
    var t := Trim(s);
    var h := DigitsValue(HourText(t));
    var m := DigitsValue(MinuteText(t));
    var x := HhmmToHours(s).value;
    assert x == h as real + m as real / 60.0;
    assert Clamp24(x) == x;
    assert x.Floor == h;
    assert (x - h as real) * 60.0 == m as real;
    assert JsRound(m as real) == m;
    assert ClockParts(x) == (h, m);
    Pad2OfDigits(MinuteText(t));
  }

  /** What `hoursToHHmm` writes for a finite input. */
  lemma HoursToHHmmText(x: real)
    ensures var p := ClockParts(x);
      HoursToHHmm(Finite(x)) == Pad2(p.0) + ":" + Pad2(p.1)
  {
  }

  /** Two-digit hours and minutes below 60, joined by a colon, match the
      `HH:mm` pattern as they are. */
  lemma PaddedClockMatches(h: nat, m: nat)
    requires h < 100 && m < 60
    ensures var s := Pad2(h) + ":" + Pad2(m);
      Trim(s) == s && HhmmMatch(s) &&
      DigitsValue(HourText(s)) == h && DigitsValue(MinuteText(s)) == m
  {
    var a, b := Pad2(h), Pad2(m);
    var s := a + ":" + b;
    Pad2Value(h);
    Pad2Value(m);
    assert s[0] == a[0] && s[1] == a[1] && s[2] == ':' && s[3] == b[0] && s[4] == b[1];
    assert IsDigit(a[0]) && IsDigit(a[1]) && IsDigit(b[0]) && IsDigit(b[1]);
    TwoDigitsValue(b);
    assert DigitValue(b[0]) <= 5;
    assert HhmmMatch(s);
    assert s[..2] == a && s[3..] == b;
    TrimNoSpace(s);
  }

  /** Two-digit hours and minutes in range, joined by a colon, are accepted
      by `hhmmToHours` with their value. */
  lemma PaddedClockAccepted(h: nat, m: nat)
    requires h <= 24 && m < 60 && (h == 24 ==> m == 0)
    ensures var r := HhmmToHours(Pad2(h) + ":" + Pad2(m));
      r.Some? && r.value * 60.0 == (h * 60 + m) as real
  {
    PaddedClockMatches(h, m);
  }

  /** Whenever the minutes shown are below 60, `hhmmToHours` reads the text
      of `hoursToHHmm` back to within half a minute of the clamped input. */
  lemma HHmmReadBack(x: real)
    requires ClockParts(x).1 < 60
    ensures var r := HhmmToHours(HoursToHHmm(Finite(x)));
      r.Some? && -1.0 / 120.0 <= r.value - Clamp24(x) <= 1.0 / 120.0
  {
    var p := ClockParts(x);
    HoursToHHmmText(x);
    PaddedClockAccepted(p.0, p.1);
    WithinHalfMinute(Clamp24(x), p.0, p.1, HhmmToHours(Pad2(p.0) + ":" + Pad2(p.1)).value);
  }

  lemma WithinHalfMinute(c: real, h: nat, m: nat, v: real)
    requires -0.5 <= m as real - (c - h as real) * 60.0 <= 0.5
    requires v * 60.0 == (h * 60 + m) as real
    ensures -1.0 / 120.0 <= v - c <= 1.0 / 120.0
  {
  }

  /** There is no minute carry: 1.999 hours is shown as "01:60", which
      `hhmmToHours` itself rejects. */
  lemma HoursToHHmmShowsSixty()
    ensures HoursToHHmm(Finite(1.999)) == "01:60"
    ensures HhmmToHours("01:60").None?
  {
    assert (1.999).Floor == 1;
    assert JsRound((1.999 - 1.0) * 60.0) == 60;
    assert ClockParts(1.999) == (1, 60);
    assert Pad2(1) == "01";
    assert NatToString(6) == "6";
    assert Pad2(60) == "60";
    TrimNoSpace("01:60");
  }

  /** The total minutes, hours and minutes that `hoursAndMinutesInLabels` shows. */
  function LabelParts(x: real): (p: (nat, nat))
    ensures p.0 * 60 + p.1 <= 24 * 60 && p.1 < 60
    ensures p.0 * 60 + p.1 == JsRound(Clamp24(x) * 60.0)
    ensures p.0 == 24 ==> p.1 == 0
  {
    var clamped := Clamp24(x);
    var total0 := JsRound(clamped * 60.0);
    var total := if total0 > 24 * 60 then 24 * 60 else total0;
    var hours := total / 60;
    var minutes := JsRem(total, 60);
    (hours, if hours == 24 then 0 else minutes)
  }

  function HourWord(n: nat): string { if n == 1 then "hora" else "horas" }
  function MinuteWord(n: nat): string { if n == 1 then "minuto" else "minutos" }

  /** `hoursAndMinutesInLabels`: "" for a non-finite input, otherwise
      "hh hora(s) e mm minuto(s)", singular exactly for the value 1. */
  function HoursAndMinutesInLabels(h: NumArg): (r: string)
    ensures r == "" <==> h.NonFinite?
  {
    if h.NonFinite? then ""
    else
      var p := LabelParts(h.v);
      Pad2(p.0) + " " + HourWord(p.0) + " e " + Pad2(p.1) + " " + MinuteWord(p.1)
  }

  /** The label text of given hours and minutes, read back on spaces. */
  lemma LabelWords(h: nat, m: nat)
    requires h < 100 && m < 100
    ensures var parts := Split(Pad2(h) + " " + HourWord(h) + " e " + Pad2(m) + " " + MinuteWord(m), ' ');
      && |parts| == 5 && parts[2] == "e"
      && |parts[0]| == 2 && AllDigits(parts[0]) && DigitsValue(parts[0]) == h
      && |parts[3]| == 2 && AllDigits(parts[3]) && DigitsValue(parts[3]) == m
      && parts[1] == HourWord(h) && parts[4] == MinuteWord(m)
  {
    var hh, mm := Pad2(h), Pad2(m);
    Pad2Value(h);
    Pad2Value(m);
    assert ' ' !in hh && ' ' !in mm by {
      assert forall i :: 0 <= i < |hh| ==> IsDigit(hh[i]);
      assert forall i :: 0 <= i < |mm| ==> IsDigit(mm[i]);
    }
    assert ' ' !in HourWord(h) && ' ' !in MinuteWord(m) && ' ' !in "e";
    assert hh + " " + HourWord(h) + " e " + mm + " " + MinuteWord(m)
        == hh + [' '] + (HourWord(h) + [' '] + ("e" + [' '] + (mm + [' '] + MinuteWord(m))));
    SplitFive(hh, HourWord(h), "e", mm, MinuteWord(m), ' ');
  }

  /** Read back on spaces, the label of a finite value gives the two-digit
      hours and minutes of `LabelParts`, joined by "e", each followed by its
      word, which is singular exactly for the value 1. */
  lemma LabelReadBack(x: real)
    ensures var parts := Split(HoursAndMinutesInLabels(Finite(x)), ' ');
      var p := LabelParts(x);
      && |parts| == 5 && parts[2] == "e"
      && |parts[0]| == 2 && AllDigits(parts[0]) && DigitsValue(parts[0]) == p.0
      && |parts[3]| == 2 && AllDigits(parts[3]) && DigitsValue(parts[3]) == p.1
      && (parts[1] == "hora" || parts[1] == "horas") && (parts[1] == "hora" <==> p.0 == 1)
      && (parts[4] == "minuto" || parts[4] == "minutos") && (parts[4] == "minuto" <==> p.1 == 1)
  {
    var p := LabelParts(x);
    LabelWords(p.0, p.1);
  }

  // ---------------------------------------------------------------------
  // Milliseconds

  /** `pad`: `String(n).padStart(2, "0")` for an integer. */
  function Pad(n: int): (r: string)
    ensures 0 <= n < 100 ==> |r| == 2 && AllDigits(r) && DigitsValue(r) == n
    ensures n >= 100 ==> |r| >= 3 && AllDigits(r) && DigitsValue(r) == n
  {
    if 0 <= n then
      NatToStringValue(n);
      if n < 100 then Pad2Value(n); PadStart2(IntToString(n))
      else PadStart2(IntToString(n))
    else PadStart2(IntToString(n))
  }

  /** `splitHHMMSS`: for a non-negative duration, whole hours, minutes and
      seconds that add up to the whole seconds in `ms`. */
  function SplitHHMMSS(ms: int): (r: (int, int, int))
    ensures ms >= 0 ==>
      r.0 >= 0 && 0 <= r.1 < 60 && 0 <= r.2 < 60 && r.0 * 3600 + r.1 * 60 + r.2 == ms / 1000
  {
    var totalSec := ms / 1000;
    var hh := totalSec / 3600;
    var mm := JsRem(totalSec, 3600) / 60;
    var ss := JsRem(totalSec, 60);
    if totalSec >= 0 then
      var rest := totalSec % 3600;
      assert totalSec == hh * 3600 + rest;
      assert rest == mm * 60 + rest % 60;
      assert totalSec == (hh * 60 + mm) * 60 + rest % 60;
      assert ss == rest % 60;
      (hh, mm, ss)
    else (hh, mm, ss)
  }

  /** The nearest whole number of hundredths of `x`, halves away from zero. */
  function Hundredths(x: real): (k: int)
    ensures x * 100.0 - 0.5 <= k as real <= x * 100.0 + 0.5
    ensures x >= 0.0 ==> k >= 0
    ensures x <= 0.0 ==> k <= 0
  {
    if x < 0.0 then -JsRound(-x * 100.0) else JsRound(x * 100.0)
  }

  /** `Number(x.toFixed(2))`: the nearest hundredth, halves away from zero. */
  function ToFixed2(x: real): (r: real)
    ensures (r * 100.0).Floor as real == r * 100.0
    ensures -0.005 <= r - x <= 0.005
    ensures x >= 0.0 ==> r >= 0.0
    ensures x <= 0.0 ==> r <= 0.0
    ensures x >= 24.0 ==> r >= 24.0
  {
    var k := Hundredths(x);
    var r := k as real / 100.0;
    assert r * 100.0 == k as real;
    assert x >= 24.0 ==> k >= 2400;
    r
  }

  /** `msToHoursDecimal`: the duration in hours to the hundredth, within [0, 24]. */
  function MsToHoursDecimal(ms: int): (r: real)
    ensures 0.0 <= r <= 24.0
    ensures (r * 100.0).Floor as real == r * 100.0
    ensures 0 <= ms <= LIMIT_MS ==> -0.005 <= r - ms as real / 3600000.0 <= 0.005
    ensures ms >= LIMIT_MS ==> r == 24.0
    ensures ms <= 0 ==> r == 0.0
  {
    var h := ms as real / 3600000.0;
    assert ms >= LIMIT_MS ==> h >= 24.0;
    assert ms <= 0 ==> h <= 0.0;
    assert 0 <= ms <= LIMIT_MS ==> 0.0 <= h <= 24.0;
    Clamp24(ToFixed2(h))
  }
}
