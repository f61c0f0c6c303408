/** The string helpers of the date picker (components/ui/DatePicker.tsx):
    an ISO `yyyy-mm-dd` text to the arguments of a `Date`, a calendar date
    back to ISO text, and ISO text to the `dd/mm/yyyy` display. */
module DatePicker {
  import opened Wrappers
  import opened Text
  import TimeFunctions

  /** The `Date` that `isoToDate` builds: the current date, or
      `new Date(year, monthIndex, day)` with its arguments as given (the
      `Date` constructor's own normalisation of out-of-range parts is not
      part of this model). */
  datatype DateArgs =
    | Today
    | Parts(year: JsInt, monthIndex: int, day: int)

  /** A calendar date as `getFullYear`, `getMonth` and `getDate` read it. */
  datatype CalendarDate = CalendarDate(year: int, monthIndex: int, day: int)
  {
    predicate Valid() { 0 <= monthIndex <= 11 && 1 <= day <= 31 }
  }

  /** JavaScript `x || 1` on a number. */
  function OrOne(x: JsInt): (r: int)
    ensures x.Truthy() ==> r == x.v
    ensures !x.Truthy() ==> r == 1
  {
    if x.Truthy() then x.v else 1
  }

  /** `isoToDate`: an absent or empty value means now; otherwise the text is
      split on "-", each piece read by `Number`, and a missing, zero or NaN
      month or day becomes 1. */
  function IsoToDate(iso: Option<string>): (r: DateArgs)
    ensures r.Today? <==> iso.None? || iso.value == ""
    ensures r.Parts? ==>
      var parts := Split(iso.value, '-');
      && r.year == NumberAt(parts, 0)
      && (NumberAt(parts, 1).Truthy() ==> r.monthIndex == NumberAt(parts, 1).v - 1)
      && (!NumberAt(parts, 1).Truthy() ==> r.monthIndex == 0)
      && (NumberAt(parts, 2).Truthy() ==> r.day == NumberAt(parts, 2).v)
      && (!NumberAt(parts, 2).Truthy() ==> r.day == 1)
    ensures r.Parts? ==> r.monthIndex >= 0 && r.day >= 1
  {
    if iso.None? || iso.value == "" then Today
    else
      var parts := Split(iso.value, '-');
      Parts(NumberAt(parts, 0), OrOne(NumberAt(parts, 1)) - 1, OrOne(NumberAt(parts, 2)))
  }

  /** `dateToIso`: the year as `String` writes it (no padding), the 1-based
      month and the day padded to two digits. */
  function DateToIso(d: CalendarDate): (r: string)
    requires d.Valid()
    ensures |r| >= 7 && r[|r| - 6] == '-' && r[|r| - 3] == '-'
    ensures r[..|r| - 6] == IntToString(d.year)
    ensures AllDigits(r[|r| - 5..|r| - 3]) && DigitsValue(r[|r| - 5..|r| - 3]) == d.monthIndex + 1
    ensures AllDigits(r[|r| - 2..]) && DigitsValue(r[|r| - 2..]) == d.day
  {
    Pad2Value(d.monthIndex + 1);
    Pad2Value(d.day);
    var y, m, dd := IntToString(d.year), Pad2(d.monthIndex + 1), Pad2(d.day);
    var r := y + "-" + m + "-" + dd;
    assert |r| == |y| + 6;
    assert r[..|y|] == y;
    assert r[|y| + 1..|y| + 3] == m;
    assert r[|y| + 4..] == dd;
    r
  }

  /** The piece `i` of a split as a template literal shows it: a missing
      piece is `undefined`. */
  function PieceText(parts: seq<string>, i: nat): (r: string)
    ensures i < |parts| ==> r == parts[i]
    ensures i >= |parts| ==> r == "undefined"
  {
    if i < |parts| then parts[i] else "undefined"
  }

  /** `toDisplay`: "" for an absent or empty value, otherwise the first three
      "-"-separated pieces in the order day/month/year, unchecked. Read back
      on "/", the display gives the pieces in reverse, with "undefined" for
      a missing one. */
  function ToDisplay(iso: Option<string>): (r: string)
    ensures iso.None? || iso.value == "" ==> r == ""
    ensures iso.Some? && iso.value != "" && '/' !in iso.value ==>
      var parts := Split(iso.value, '-');
      && |Split(r, '/')| == 3
      && Split(r, '/')[2] == parts[0]
      && (|parts| >= 3 ==> Split(r, '/') == [parts[2], parts[1], parts[0]])
      && (|parts| == 2 ==> Split(r, '/') == ["undefined", parts[1], parts[0]])
      && (|parts| == 1 ==> Split(r, '/') == ["undefined", "undefined", parts[0]])
  {
    if iso.None? || iso.value == "" then ""
    else
      var parts := Split(iso.value, '-');
      var d, m, y := PieceText(parts, 2), PieceText(parts, 1), PieceText(parts, 0);
      DisplayPieces(iso.value);
      d + "/" + m + "/" + y
  }

  /** The three pieces `toDisplay` joins read back on "/" when the value has
      no "/" of its own. */
  lemma DisplayPieces(iso: string)
    ensures var parts := Split(iso, '-');
      var d, m, y := PieceText(parts, 2), PieceText(parts, 1), PieceText(parts, 0);
      '/' !in iso ==> Split(d + "/" + m + "/" + y, '/') == [d, m, y]
  {
    if '/' !in iso {
      var parts := Split(iso, '-');
      var d, m, y := PieceText(parts, 2), PieceText(parts, 1), PieceText(parts, 0);
      SplitPiecesAvoid(iso, '-', '/');
      assert '/' !in "undefined";
      assert d + "/" + m + "/" + y == d + ['/'] + m + ['/'] + y;
      SplitThree(d, m, y, '/');
    }
  }

  /** Three "-"-free pieces are shown day/month/year, whatever they hold. */
  lemma ToDisplayReorders(y: string, m: string, d: string)
    requires '-' !in y && '-' !in m && '-' !in d
    ensures ToDisplay(Some(y + "-" + m + "-" + d)) == d + "/" + m + "/" + y
  {
    assert y + "-" + m + "-" + d == y + ['-'] + m + ['-'] + d;
    SplitThree(y, m, d, '-');
  }

  /** On a well-formed `yyyy-mm-dd` text the picker's display agrees with
      `toDisplayDate`. */
  lemma ToDisplayAgreesWithToDisplayDate(iso: string)
    requires TimeFunctions.IsIsoShape(iso)
    ensures ToDisplay(Some(iso)) == TimeFunctions.ToDisplayDate(iso)
  {
    var y, m, d := iso[..4], iso[5..7], iso[8..];
    assert iso == y + "-" + m + "-" + d;
    assert '-' !in y && '-' !in m && '-' !in d by {
      assert forall i :: 0 <= i < |y| ==> y[i] == iso[i];
      assert forall i :: 0 <= i < |m| ==> m[i] == iso[5 + i];
      assert forall i :: 0 <= i < |d| ==> d[i] == iso[8 + i];
    }
    ToDisplayReorders(y, m, d);
  }

  lemma NoDashInDigits(s: string)
    requires AllDigits(s)
    ensures '-' !in s
  {
  }

  /** Three digit runs joined by "-" are read back as their values, with a
      zero month or day replaced by 1. */
  lemma IsoToDateOfDigits(y: string, m: string, d: string)
    requires AllDigits(y) && AllDigits(m) && AllDigits(d)
    requires y != [] && m != [] && d != []
    ensures IsoToDate(Some(y + "-" + m + "-" + d))
      == Parts(Num(DigitsValue(y)), OrOne(Num(DigitsValue(m))) - 1, OrOne(Num(DigitsValue(d))))
  {
    NoDashInDigits(y);
    NoDashInDigits(m);
    NoDashInDigits(d);
    var iso := y + "-" + m + "-" + d;
    assert iso == y + ['-'] + m + ['-'] + d;
    SplitThree(y, m, d, '-');
    NumberOfDigits(y);
    NumberOfDigits(m);
    NumberOfDigits(d);
  }

  /** A calendar date with a non-negative year comes back from its ISO text
      as the same constructor arguments. */
  lemma IsoRoundTrip(d: CalendarDate)
    requires d.Valid() && d.year >= 0
    ensures IsoToDate(Some(DateToIso(d))) == Parts(Num(d.year), d.monthIndex, d.day)
  {
    var y := NatToString(d.year);
    var m := Pad2(d.monthIndex + 1);
    var dd := Pad2(d.day);
    Pad2Value(d.monthIndex + 1);
    Pad2Value(d.day);
    NatToStringValue(d.year);
    assert y == IntToString(d.year);
    assert DateToIso(d) == y + "-" + m + "-" + dd;
    IsoToDateOfDigits(y, m, dd);
  }
}
