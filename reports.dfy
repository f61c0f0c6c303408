/** The monthly report aggregation of context/ReportsContext.tsx: the pure
    pipeline inside `generateAndSaveCurrentMonth` (filter by month, stable
    sort by date, map to entries, rounded total, deterministic id), the
    open/closed rule, the month-label fallback, `findByMonth`, and the
    report store as a map keyed by report id. "Now" is a parameter. */
module Reports {
  import opened Wrappers
  import opened Text
  import NoteTypes
  import TimeFunctions

  type Note = NoteTypes.Note

  type MonthNumber = m: int | 1 <= m <= 12 witness 1

  /** One reading of the device clock: a year and a 1-based month. */
  datatype Now = Now(year: int, month: MonthNumber)

  /** The three readings of the clock during one generation: for the month
      key, inside `monthLabel` and inside `isClosedMonth`. */
  datatype Clock = Clock(atKey: Now, atLabel: Now, atClose: Now)
  {
    /** The key and `isClosedMonth` readings fall in the same month. */
    predicate SameMonth() { atClose == atKey }
  }

  /** The aggregator's own entry type: it has no `estudo` field. */
  datatype ReportEntry = ReportEntry(date: string, hours: real, revisita: bool)

  /** The calendar month a period label is formatted from (the localized
      text itself is not part of this model). */
  datatype LabelMonth = LabelMonth(year: int, monthIndex: int)

  datatype Report = Report(
    id: string,
    month: string,
    periodLabel: LabelMonth,
    entries: seq<ReportEntry>,
    totalHours: real,
    isClosed: bool,
    userId: string)

  datatype GenerateError = NotLoggedIn | WriteFailed

  // ---------------------------------------------------------------------
  // Month keys

  /** `yyyy-MM` of the clock: the year unpadded, the month on two digits.
      For a non-negative year the key splits on '-' into exactly two
      pieces that read back as the year and the month. */
  function CurrentKey(now: Now): (r: string)
    ensures now.year >= 0 ==>
      var parts := Split(r, '-');
      && |parts| == 2
      && AllDigits(parts[0]) && parts[0] != [] && DigitsValue(parts[0]) == now.year
      && |parts[1]| == 2 && AllDigits(parts[1]) && DigitsValue(parts[1]) == now.month
  {
    KeyPieces(now);
    IntToString(now.year) + "-" + Pad2(now.month)
  }

  lemma KeyPieces(now: Now)
    ensures now.year >= 0 ==>
      var parts := Split(IntToString(now.year) + "-" + Pad2(now.month), '-');
      && |parts| == 2
      && AllDigits(parts[0]) && parts[0] != [] && DigitsValue(parts[0]) == now.year
      && |parts[1]| == 2 && AllDigits(parts[1]) && DigitsValue(parts[1]) == now.month
  {
    if now.year >= 0 {
      var y := NatToString(now.year);
      var m := Pad2(now.month);
      Pad2Value(now.month);
      NatToStringValue(now.year);
      assert '-' !in y && '-' !in m by {
        assert forall i :: 0 <= i < |y| ==> IsDigit(y[i]);
        assert forall i :: 0 <= i < |m| ==> IsDigit(m[i]);
      }
      assert IntToString(now.year) + "-" + m == y + ['-'] + m;
      SplitNoSep(m, '-');
      SplitCons(y, '-', m);
    }
  }

  /** `monthFromDateISO`: the first seven characters of the date. */
  function MonthFromDateIso(dateIso: string): (r: string)
    ensures |r| == if |dateIso| < 7 then |dateIso| else 7
    ensures r == dateIso[..|r|]
  {
    if |dateIso| < 7 then dateIso else dateIso[..7]
  }

  /** `isClosedMonth`: a month is closed unless it is the clock's month.
      The clock's own key is open, and an open key names the clock's month. */
  function IsClosedMonth(key: string, now: Now): (closed: bool)
    ensures key == CurrentKey(now) ==> !closed
    ensures now.year >= 0 && !closed ==> MonthLabel(key, now) == LabelMonth(now.year, now.month - 1)
  {
    if now.year >= 0 then
      MonthLabelOfCurrentKey(now);
      key != CurrentKey(now)
    else
      key != CurrentKey(now)
  }

  /** `monthLabel` without the text formatting: the year part when it reads
      as a finite number, else the clock's year; the month part minus one
      when it reads as a number in 1..12, else the clock's month index. */
  function MonthLabel(key: string, now: Now): (r: LabelMonth)
    ensures 0 <= r.monthIndex <= 11
    ensures NumberAt(Split(key, '-'), 0).NaN? ==> r.year == now.year
    ensures NumberAt(Split(key, '-'), 0).Num? ==> r.year == NumberAt(Split(key, '-'), 0).v
    ensures var m := NumberAt(Split(key, '-'), 1);
      r.monthIndex == if m.Num? && 1 <= m.v <= 12 then m.v - 1 else now.month - 1
  {
    var parts := Split(key, '-');
    var y := NumberAt(parts, 0);
    var m := NumberAt(parts, 1);
    var year := if y.Num? then y.v else now.year;
    var monthIndex := if m.Num? && 1 <= m.v && m.v <= 12 then m.v - 1 else now.month - 1;
    LabelMonth(year, monthIndex)
  }

  /** The label of the clock's own month key is the clock's month. */
  lemma MonthLabelOfCurrentKey(now: Now)
    requires now.year >= 0
    ensures MonthLabel(CurrentKey(now), now) == LabelMonth(now.year, now.month - 1)
  {
    var parts := Split(CurrentKey(now), '-');
    NumberOfDigits(parts[0]);
    NumberOfDigits(parts[1]);
    assert NumberAt(parts, 0) == Num(now.year);
    assert NumberAt(parts, 1) == Num(now.month as int);
  }

  /** For clock readings with non-negative years, the month of one reading
      is closed at another exactly when the two readings differ. */
  lemma ClosedIffOtherMonth(month: Now, now: Now)
    requires month.year >= 0 && now.year >= 0
    ensures IsClosedMonth(CurrentKey(month), now) <==> month != now
  {
    if CurrentKey(month) == CurrentKey(now) {
      var parts := Split(CurrentKey(now), '-');
      assert DigitsValue(parts[0]) == month.year == now.year;
      assert DigitsValue(parts[1]) == month.month == now.month;
    }
  }

  // ---------------------------------------------------------------------
  // Filtering

  predicate InMonth(n: Note, key: string)
  {
    MonthFromDateIso(n.date) == key
  }

  /** The notes of the month, in their original order: each note of the
      month as often as it occurs, no other note. */
  function MonthNotes(notes: seq<Note>, key: string): (r: seq<Note>)
    ensures forall n :: n in r <==> n in notes && InMonth(n, key)
    ensures |r| <= |notes|
  {
    if notes == [] then []
    else
      var rest := MonthNotes(notes[..|notes| - 1], key);
      var n := notes[|notes| - 1];
      assert notes == notes[..|notes| - 1] + [n];
      if InMonth(n, key) then rest + [n] else rest
  }

  /** Filtering distributes over concatenation, so the month's notes keep
      their relative order. */
  lemma {:induction false} MonthNotesAppend(a: seq<Note>, b: seq<Note>, key: string)
    ensures MonthNotes(a + b, key) == MonthNotes(a, key) + MonthNotes(b, key)
    decreases |b|
  {
    if b == [] {
      assert a + b == a;
    } else {
      var b' := b[..|b| - 1];
      assert (a + b)[..|a + b| - 1] == a + b';
      MonthNotesAppend(a, b', key);
    }
  }

  /** Each note of the month occurs among the month's notes as often as in
      the list; no other note occurs. */
  lemma {:induction false} MonthNotesMultiplicity(notes: seq<Note>, key: string, n: Note)
    ensures multiset(MonthNotes(notes, key))[n] == if InMonth(n, key) then multiset(notes)[n] else 0
  {
    if notes != [] {
      var init := notes[..|notes| - 1];
      var last := notes[|notes| - 1];
      assert notes == init + [last];
      assert multiset(notes) == multiset(init) + multiset{last};
      MonthNotesMultiplicity(init, key, n);
    }
  }

  /** How many notes of the list lie in the month, counted from the front. */
  ghost function CountInMonth(notes: seq<Note>, key: string): nat
  {
    if notes == [] then 0
    else (if InMonth(notes[0], key) then 1 else 0) + CountInMonth(notes[1..], key)
  }

  /** The month's notes are as many as the notes of the list in that month. */
  lemma {:induction false} MonthNotesCount(notes: seq<Note>, key: string)
    ensures |MonthNotes(notes, key)| == CountInMonth(notes, key)
  {
    if notes != [] {
      assert notes == [notes[0]] + notes[1..];
      MonthNotesAppend([notes[0]], notes[1..], key);
      assert MonthNotes([notes[0]], key) == if InMonth(notes[0], key) then [notes[0]] else [] by {
        assert [notes[0]][..0] == [];
      }
      MonthNotesCount(notes[1..], key);
    }
  }

  // ---------------------------------------------------------------------
  // Ordering by date (character order, which localeCompare agrees with on
  // well-formed ISO dates)

  predicate StrLess(a: string, b: string)
    decreases |a|
  {
    if a == [] then b != []
    else if b == [] then false
    else if a[0] == b[0] then StrLess(a[1..], b[1..])
    else a[0] < b[0]
  }

  lemma {:induction false} StrLessIrreflexive(a: string)
    ensures !StrLess(a, a)
    decreases |a|
  {
    if a != [] {
      StrLessIrreflexive(a[1..]);
    }
  }

  lemma {:induction false} StrLessTransitive(a: string, b: string, c: string)
    requires StrLess(a, b) && StrLess(b, c)
    ensures StrLess(a, c)
    decreases |a|
  {
    if a != [] && b != [] && c != [] && a[0] == b[0] == c[0] {
      StrLessTransitive(a[1..], b[1..], c[1..]);
    }
  }

  lemma {:induction false} StrLessTotal(a: string, b: string)
    requires a != b
    ensures StrLess(a, b) || StrLess(b, a)
    decreases |a|
  {
    if a != [] && b != [] && a[0] == b[0] {
      assert a == [a[0]] + a[1..] && b == [b[0]] + b[1..];
      StrLessTotal(a[1..], b[1..]);
    }
  }

  /** Ascending by date. */
  ghost predicate SortedByDate(s: seq<Note>)
  {
    forall i, j :: 0 <= i < j < |s| ==> !StrLess(s[j].date, s[i].date)
  }

  /** The notes of `s` with date `d`, in order. */
  function WithDate(s: seq<Note>, d: string): seq<Note>
  {
    if s == [] then []
    else WithDate(s[..|s| - 1], d) + (if s[|s| - 1].date == d then [s[|s| - 1]] else [])
  }

  lemma {:induction false} WithDateConcat(a: seq<Note>, b: seq<Note>, d: string)
    ensures WithDate(a + b, d) == WithDate(a, d) + WithDate(b, d)
    decreases |b|
  {
    if b == [] {
      assert a + b == a;
    } else {
      var b' := b[..|b| - 1];
      assert (a + b)[..|a + b| - 1] == a + b';
      WithDateConcat(a, b', d);
    }
  }

  /** Inserts `x` before the first note dated strictly after it. */
  function Insert(x: Note, t: seq<Note>): (r: seq<Note>)
    ensures multiset(r) == multiset(t) + multiset{x}
  {
    if t == [] then [x]
    else if StrLess(x.date, t[0].date) then [x] + t
    else
      assert t == [t[0]] + t[1..];
      [t[0]] + Insert(x, t[1..])
  }

  lemma {:induction false} InsertSorted(x: Note, t: seq<Note>)
    requires SortedByDate(t)
    ensures SortedByDate(Insert(x, t))
    decreases |t|
  {
    if t != [] {
      if StrLess(x.date, t[0].date) {
        var r := [x] + t;
        forall i, j | 0 <= i < j < |r| ensures !StrLess(r[j].date, r[i].date) {
          if i == 0 && StrLess(r[j].date, x.date) {
            StrLessTransitive(r[j].date, x.date, t[0].date);
            StrLessIrreflexive(t[0].date);
          }
        }
      } else {
        InsertSorted(x, t[1..]);
        var rest := Insert(x, t[1..]);
        var r := [t[0]] + rest;
        forall i, j | 0 <= i < j < |r| ensures !StrLess(r[j].date, r[i].date) {
          if i == 0 {
            assert r[j] in multiset(t[1..]) + multiset{x};
            if r[j] in multiset(t[1..]) {
              var k :| 1 <= k < |t| && t[k] == r[j];
            }
          }
        }
      }
    }
  }

  lemma WithDateSingle(y: Note, d: string)
    ensures WithDate([y], d) == if y.date == d then [y] else []
  {
    assert [y][..0] == [];
  }

  lemma SortedTail(t: seq<Note>)
    requires SortedByDate(t) && t != []
    ensures SortedByDate(t[1..])
  {
    forall i, j | 0 <= i < j < |t[1..]| ensures !StrLess(t[1..][j].date, t[1..][i].date) {
      assert t[1..][j] == t[j + 1] && t[1..][i] == t[i + 1];
    }
  }

  /** Inserting keeps the order of equal dates: `x` comes after the notes
      of `t` that share its date. */
  lemma {:induction false} InsertStable(x: Note, t: seq<Note>, d: string)
    requires SortedByDate(t)
    ensures WithDate(Insert(x, t), d) == WithDate(t, d) + (if x.date == d then [x] else [])
    decreases |t|
  {
    if t == [] {
      WithDateSingle(x, d);
      assert Insert(x, t) == [x];
      assert WithDate(t, d) == [];
    } else if StrLess(x.date, t[0].date) {
      InsertStableFront(x, t, d);
    } else {
      SortedTail(t);
      InsertStable(x, t[1..], d);
      InsertStableStep(x, t, d);
    }
  }

  /** `x` dated before the first note goes in front, and no note of a sorted
      `t` shares its date. */
  lemma InsertStableFront(x: Note, t: seq<Note>, d: string)
    requires SortedByDate(t) && t != [] && StrLess(x.date, t[0].date)
    ensures WithDate(Insert(x, t), d) == WithDate(t, d) + (if x.date == d then [x] else [])
  {
    WithDateSingle(x, d);
    assert Insert(x, t) == [x] + t;
    WithDateConcat([x], t, d);
    if x.date == d {
      NoneWithDate(t, d);
    }
  }

  /** The step of `InsertStable` past the first note. */
  lemma InsertStableStep(x: Note, t: seq<Note>, d: string)
    requires t != [] && !StrLess(x.date, t[0].date)
    requires WithDate(Insert(x, t[1..]), d) == WithDate(t[1..], d) + (if x.date == d then [x] else [])
    ensures WithDate(Insert(x, t), d) == WithDate(t, d) + (if x.date == d then [x] else [])
  {
    var xs := if x.date == d then [x] else [];
    var rest := Insert(x, t[1..]);
    assert Insert(x, t) == [t[0]] + rest;
    var a, b := WithDate([t[0]], d), WithDate(t[1..], d);
    WithDateConcat([t[0]], rest, d);
    assert WithDate(Insert(x, t), d) == a + (b + xs);
    WithDateConcat([t[0]], t[1..], d);
    assert [t[0]] + t[1..] == t;
    assert WithDate(t, d) == a + b;
    assert a + (b + xs) == (a + b) + xs;
  }

  /** No note of a sorted `t` whose first date is after `d` has date `d`. */
  lemma {:induction false} NoneWithDate(t: seq<Note>, d: string)
    requires SortedByDate(t) && t != [] && StrLess(d, t[0].date)
    ensures WithDate(t, d) == []
    decreases |t|
  {
    if |t| > 1 {
      NoneWithDate(t[..|t| - 1], d);
    } else {
      StrLessIrreflexive(d);
    }
  }

  /** `Array.prototype.sort` by `a.date.localeCompare(b.date)`, the
      comparison taken as character order: ascending by date, a permutation
      of the input, and stable (notes with the same date
      keep their relative order). */
  function SortByDate(s: seq<Note>): (r: seq<Note>)
    ensures SortedByDate(r)
    ensures multiset(r) == multiset(s)
    ensures forall d :: WithDate(r, d) == WithDate(s, d)
  {
    if s == [] then []
    else
      var init := s[..|s| - 1];
      var x := s[|s| - 1];
      assert s == init + [x];
      var sorted := SortByDate(init);
      InsertSorted(x, sorted);
      forall d ensures WithDate(Insert(x, sorted), d) == WithDate(s, d) {
        InsertStable(x, sorted, d);
      }
      Insert(x, sorted)
  }

  // ---------------------------------------------------------------------
  // Entries and total

  /** The entry of one note: its date, its hours and whether its revisit is on. */
  function EntryOf(n: Note): (e: ReportEntry)
    ensures e.date == n.date && e.hours == n.hours
    ensures e.revisita <==> n.revisita.RevisitaOn?
  {
    ReportEntry(n.date, n.hours, n.revisita.Enabled())
  }

  function Entries(s: seq<Note>): (r: seq<ReportEntry>)
    ensures |r| == |s|
    ensures forall i :: 0 <= i < |s| ==> r[i] == EntryOf(s[i])
  {
    if s == [] then [] else [EntryOf(s[0])] + Entries(s[1..])
  }

  function SumNoteHours(s: seq<Note>): real
  {
    if s == [] then 0.0 else s[0].hours + SumNoteHours(s[1..])
  }

  /** `entries.reduce((sum, e) => sum + e.hours, 0)`. */
  function SumEntryHours(s: seq<ReportEntry>): real
  {
    if s == [] then 0.0 else s[0].hours + SumEntryHours(s[1..])
  }

  lemma {:induction false} SumEntriesOfNotes(s: seq<Note>)
    ensures SumEntryHours(Entries(s)) == SumNoteHours(s)
  {
    if s != [] {
      SumEntriesOfNotes(s[1..]);
    }
  }

  lemma {:induction false} SumNoteHoursAppend(s: seq<Note>, x: Note)
    ensures SumNoteHours(s + [x]) == SumNoteHours(s) + x.hours
  {
    if s != [] {
      assert (s + [x])[1..] == s[1..] + [x];
      SumNoteHoursAppend(s[1..], x);
    }
  }

  lemma {:induction false} SumInsert(x: Note, t: seq<Note>)
    ensures SumNoteHours(Insert(x, t)) == SumNoteHours(t) + x.hours
  {
    if t != [] && !StrLess(x.date, t[0].date) {
      SumInsert(x, t[1..]);
    }
  }

  /** Sorting does not change the sum of the hours. */
  lemma {:induction false} SumSortByDate(s: seq<Note>)
    ensures SumNoteHours(SortByDate(s)) == SumNoteHours(s)
  {
    if s != [] {
      var init := s[..|s| - 1];
      var x := s[|s| - 1];
      assert s == init + [x];
      SumSortByDate(init);
      SumInsert(x, SortByDate(init));
      SumNoteHoursAppend(init, x);
    }
  }

  // ---------------------------------------------------------------------
  // Generation

  /** The deterministic report id `{userId}-{yyyyMM}`. */
  function ReportId(userId: string, key: string): string
  {
    userId + "-" + key
  }

  /** The report `generateAndSaveCurrentMonth` builds for a logged-in user. */
  function BuildReport(notes: seq<Note>, userId: string, clock: Clock): (r: Report)
    ensures r.month == CurrentKey(clock.atKey)
    ensures forall i :: 0 <= i < |r.entries| ==> MonthFromDateIso(r.entries[i].date) == r.month
  {
    var key := CurrentKey(clock.atKey);
    SortedMonthNotesInMonth(notes, key);
    var entries := Entries(SortByDate(MonthNotes(notes, key)));
    Report(
      ReportId(userId, key),
      key,
      MonthLabel(key, clock.atLabel),
      entries,
      TimeFunctions.ToFixed2(SumEntryHours(entries)),
      IsClosedMonth(key, clock.atClose),
      userId)
  }

  /** Every note the sort returns is a note of the month. */
  lemma SortedMonthNotesInMonth(notes: seq<Note>, key: string)
    ensures forall i :: 0 <= i < |SortByDate(MonthNotes(notes, key))| ==>
      InMonth(SortByDate(MonthNotes(notes, key))[i], key)
  {
    var s := SortByDate(MonthNotes(notes, key));
    forall i | 0 <= i < |s| ensures InMonth(s[i], key) {
      assert s[i] in multiset(s);
    }
  }

  /** The id and month come from the user and the first clock reading. */
  lemma BuildReportHeader(notes: seq<Note>, userId: string, clock: Clock)
    ensures BuildReport(notes, userId, clock).month == CurrentKey(clock.atKey)
    ensures BuildReport(notes, userId, clock).id == userId + "-" + CurrentKey(clock.atKey)
    ensures BuildReport(notes, userId, clock).userId == userId
  {
  }

  /** The report is open exactly when the reading inside `isClosedMonth`
      gives the same month key as the first reading, so a generation within
      one month is never closed. */
  lemma BuildReportOpen(notes: seq<Note>, userId: string, clock: Clock)
    ensures BuildReport(notes, userId, clock).isClosed <==> CurrentKey(clock.atClose) != CurrentKey(clock.atKey)
    ensures clock.SameMonth() ==> !BuildReport(notes, userId, clock).isClosed
  {
  }

  /** A generation that takes its month key on the last day of December and
      reads the clock again after midnight stores that month as closed. */
  lemma StraddlingGenerationIsClosed(notes: seq<Note>, userId: string)
    ensures var clock := Clock(Now(2024, 12), Now(2025, 1), Now(2025, 1));
      && BuildReport(notes, userId, clock).month == "2024-12"
      && BuildReport(notes, userId, clock).isClosed
  {
    var clock := Clock(Now(2024, 12), Now(2025, 1), Now(2025, 1));
    assert CurrentKey(clock.atKey) == "2024-12" by {
      assert NatToString(2024) == "2024";
      assert Pad2(12) == "12";
    }
    assert CurrentKey(clock.atClose) == "2025-01" by {
      assert NatToString(2025) == "2025";
      assert Pad2(1) == "01";
    }
  }

  /** The entries are the month's notes sorted stably by date, each copying
      the date, the hours and whether the revisit is on. */
  lemma BuildReportEntries(notes: seq<Note>, userId: string, clock: Clock)
    ensures var sorted := SortByDate(MonthNotes(notes, CurrentKey(clock.atKey)));
      var entries := BuildReport(notes, userId, clock).entries;
      && |entries| == |sorted|
      && (forall i :: 0 <= i < |sorted| ==>
            entries[i] == ReportEntry(sorted[i].date, sorted[i].hours, sorted[i].revisita.RevisitaOn?))
  {
  }

  /** The report has one entry per note of the list dated in the month. */
  lemma ReportEntryCount(notes: seq<Note>, userId: string, clock: Clock)
    ensures |BuildReport(notes, userId, clock).entries| == CountInMonth(notes, CurrentKey(clock.atKey))
  {
    var m := MonthNotes(notes, CurrentKey(clock.atKey));
    assert |SortByDate(m)| == |m| by {
      assert |multiset(SortByDate(m))| == |multiset(m)|;
    }
    MonthNotesCount(notes, CurrentKey(clock.atKey));
  }

  /** The total is the month's hours rounded to the hundredth. */
  lemma BuildReportTotal(notes: seq<Note>, userId: string, clock: Clock)
    ensures BuildReport(notes, userId, clock).totalHours
         == TimeFunctions.ToFixed2(SumNoteHours(MonthNotes(notes, CurrentKey(clock.atKey))))
  {
    var sorted := SortByDate(MonthNotes(notes, CurrentKey(clock.atKey)));
    SumEntriesOfNotes(sorted);
    SumSortByDate(MonthNotes(notes, CurrentKey(clock.atKey)));
  }

  /** A note of the list is among the report's sorted notes exactly when
      its date starts with the clock's `yyyy-MM`. */
  lemma EntryForNoteIffInMonth(notes: seq<Note>, clock: Clock, n: Note)
    requires n in notes
    ensures n in SortByDate(MonthNotes(notes, CurrentKey(clock.atKey))) <==> MonthFromDateIso(n.date) == CurrentKey(clock.atKey)
  {
    var m := MonthNotes(notes, CurrentKey(clock.atKey));
    var sorted := SortByDate(m);
    assert multiset(sorted) == multiset(m);
    assert n in sorted <==> n in multiset(sorted);
    assert n in m <==> n in multiset(m);
  }

  lemma {:induction false} MonthNotesNone(notes: seq<Note>, key: string)
    requires forall n :: n in notes ==> !InMonth(n, key)
    ensures MonthNotes(notes, key) == []
  {
    if notes != [] {
      assert forall n :: n in notes[..|notes| - 1] ==> n in notes;
      MonthNotesNone(notes[..|notes| - 1], key);
    }
  }

  /** With no note in the month the report is empty with total 0. */
  lemma EmptyMonth(notes: seq<Note>, userId: string, clock: Clock)
    requires forall n :: n in notes ==> !InMonth(n, CurrentKey(clock.atKey))
    ensures BuildReport(notes, userId, clock).entries == []
    ensures BuildReport(notes, userId, clock).totalHours == 0.0
  {
    MonthNotesNone(notes, CurrentKey(clock.atKey));
    assert SortByDate([]) == [];
    assert Entries([]) == [];
    assert SumEntryHours([]) == 0.0;
  }

  /** `generateAndSaveCurrentMonth` with the store as a map from report id to
      report: without a logged-in user (absent or empty id) it fails before
      writing; a failed write leaves the store as it was; otherwise the
      report is written under its id, replacing any report with that id. */
  function GenerateAndSave(notes: seq<Note>, userId: Option<string>, clock: Clock,
                           store: map<string, Report>, writeFails: bool)
    : (res: (Result<Report, GenerateError>, map<string, Report>))
    ensures (userId.None? || userId.value == "") ==> res == (Err(NotLoggedIn), store)
    ensures res.0.Err? ==> res.1 == store
    ensures userId.Some? && userId.value != "" ==>
      res.0 == if writeFails then Err(WriteFailed) else Ok(BuildReport(notes, userId.value, clock))
    ensures res.0.Ok? ==>
      && userId.Some? && userId.value != "" && !writeFails
      && res.0.value == BuildReport(notes, userId.value, clock)
      && res.1 == store[res.0.value.id := res.0.value]
  {
    if userId.None? || userId.value == "" then (Err(NotLoggedIn), store)
    else
      var r := BuildReport(notes, userId.value, clock);
      if writeFails then (Err(WriteFailed), store)
      else (Ok(r), store[r.id := r])
  }

  /** A successful generation adds at most one key to the store: the id
      `{userId}-{yyyy-MM}`. */
  lemma GenerateAddsOneKey(notes: seq<Note>, userId: Option<string>, clock: Clock,
                           store: map<string, Report>, writeFails: bool)
    ensures var res := GenerateAndSave(notes, userId, clock, store, writeFails);
      res.0.Ok? ==> res.1.Keys == store.Keys + {userId.value + "-" + CurrentKey(clock.atKey)}
  {
    if userId.Some? && userId.value != "" && !writeFails {
      var r := BuildReport(notes, userId.value, clock);
      BuildReportHeader(notes, userId.value, clock);
      assert GenerateAndSave(notes, userId, clock, store, writeFails).1 == store[r.id := r];
    }
  }

  /** Generating again in the same month with the same notes writes the same
      report under the same id: the store ends as after one generation. */
  lemma GenerateTwiceSameStore(notes: seq<Note>, userId: Option<string>, clock: Clock, store: map<string, Report>)
    ensures var once := GenerateAndSave(notes, userId, clock, store, false);
      GenerateAndSave(notes, userId, clock, once.1, false) == once
  {
    if userId.Some? && userId.value != "" {
      var r := BuildReport(notes, userId.value, clock);
      var stored := store[r.id := r];
      assert GenerateAndSave(notes, userId, clock, store, false) == (Ok(r), stored);
      assert GenerateAndSave(notes, userId, clock, stored, false) == (Ok(r), stored[r.id := r]);
      UpdateTwice(store, r.id, r);
    }
  }

  lemma UpdateTwice(m: map<string, Report>, k: string, v: Report)
    ensures m[k := v][k := v] == m[k := v]
  {
  }

  /** The text before the first occurrence of `c`, or all of `s`. */
  function Before(s: string, c: char): (r: string)
    ensures |r| <= |s| && r == s[..|r|]
  {
    if s == [] || s[0] == c then [] else [s[0]] + Before(s[1..], c)
  }

  lemma {:induction false} BeforeJoin(u: string, c: char, k: string)
    requires c !in u
    ensures Before(u + [c] + k, c) == u
  {
    if u != [] {
      assert (u + [c] + k)[1..] == u[1..] + [c] + k;
      BeforeJoin(u[1..], c, k);
    }
  }

  /** Reports of different users or different months never share an id:
      the user id (free of '-') and the month are recovered from the id. */
  lemma ReportIdInjective(u1: string, u2: string, now1: Now, now2: Now)
    requires '-' !in u1 && '-' !in u2
    requires ReportId(u1, CurrentKey(now1)) == ReportId(u2, CurrentKey(now2))
    ensures u1 == u2 && CurrentKey(now1) == CurrentKey(now2)
  {
    var k1, k2 := CurrentKey(now1), CurrentKey(now2);
    BeforeJoin(u1, '-', k1);
    BeforeJoin(u2, '-', k2);
    assert u1 + "-" + k1 == u1 + ['-'] + k1;
    assert u2 + "-" + k2 == u2 + ['-'] + k2;
    assert k1 == ReportId(u1, k1)[|u1| + 1..];
  }

  /** `deleteReport`: removes the report with that id; a failed delete
      leaves the store as it was and reports the failure. */
  function DeleteReport(store: map<string, Report>, id: string, deleteFails: bool)
    : (res: (Result<(), GenerateError>, map<string, Report>))
    ensures deleteFails ==> res == (Err(WriteFailed), store)
    ensures !deleteFails ==> res.0.Ok? && id !in res.1
    ensures !deleteFails ==> forall k :: k in store && k != id ==> k in res.1 && res.1[k] == store[k]
    ensures res.1.Keys <= store.Keys
  {
    if deleteFails then (Err(WriteFailed), store)
    else (Ok(()), store - {id})
  }

  /** Deleting a generated report restores a store that did not hold it. */
  lemma GenerateThenDelete(notes: seq<Note>, userId: string, clock: Clock, store: map<string, Report>)
    requires userId != ""
    requires ReportId(userId, CurrentKey(clock.atKey)) !in store
    ensures var gen := GenerateAndSave(notes, Some(userId), clock, store, false);
      DeleteReport(gen.1, gen.0.value.id, false).1 == store
  {
    var r := BuildReport(notes, userId, clock);
    BuildReportHeader(notes, userId, clock);
    assert GenerateAndSave(notes, Some(userId), clock, store, false) == (Ok(r), store[r.id := r]);
    UpdateThenRemove(store, r.id, r);
  }

  lemma UpdateThenRemove(m: map<string, Report>, k: string, v: Report)
    requires k !in m
    ensures m[k := v] - {k} == m
  {
  }

  /** `findByMonth`: the first report of the list with that month, if any. */
  function FindByMonth(reports: seq<Report>, key: string): (r: Option<Report>)
    ensures r.Some? ==> r.value in reports && r.value.month == key
    ensures r.None? <==> forall i :: 0 <= i < |reports| ==> reports[i].month != key
    ensures r.Some? ==> exists i :: 0 <= i < |reports| && reports[i] == r.value &&
                          forall j :: 0 <= j < i ==> reports[j].month != key
  {
    if reports == [] then None
    else if reports[0].month == key then Some(reports[0])
    else
      var r := FindByMonth(reports[1..], key);
      if r.Some? then
        var i :| 0 <= i < |reports[1..]| && reports[1..][i] == r.value &&
                 forall j :: 0 <= j < i ==> reports[1..][j].month != key;
        assert reports[i + 1] == r.value;
        r
      else r
  }
}
