/** The data-selection rules of `buildHtml` in utils/reportPdf.ts: which
    tag each entry gets, one row per entry or the fallback row, the badge,
    the total, the title, the meta line and the footer, and the PDF file
    name. The HTML markup and styling are not modelled: a rendered report is
    a `Page` value. */
module ReportPdf {
  import opened Wrappers
  import opened NoteTypes
  import TimeFunctions
  import Reports

  const ESTUDO_TAG := "Estudo"
  const REVISITA_TAG := "Revisita"
  const TAG_SEPARATOR := " • "
  const EMPTY_ROW_TEXT := "Sem anotações neste mês."
  const CLOSED_BADGE := "Mês fechado"
  const OPEN_BADGE := "Em aberto"

  datatype Row =
    | EntryRow(date: string, hours: string, tag: string)
    | EmptyRow(text: string)

  datatype Page = Page(
    title: string,
    meta: string,
    badge: string,
    rows: seq<Row>,
    total: string,
    footer: string)

  /** `[...].filter(Boolean)`: the tag candidates that are set. */
  function TagCandidates(e: ReportEntry): (r: seq<string>)
    ensures |r| <= 1
  {
    (if e.estudo then [ESTUDO_TAG] else []) + (if !e.estudo && e.revisita then [REVISITA_TAG] else [])
  }

  /** `Array.prototype.join`. */
  function Join(parts: seq<string>, sep: string): (r: string)
    ensures parts == [] ==> r == ""
    ensures |parts| == 1 ==> r == parts[0]
  {
    if parts == [] then ""
    else if |parts| == 1 then parts[0]
    else parts[0] + sep + Join(parts[1..], sep)
  }

  /** The tag of one entry: the study tag wins over the revisit tag, and the
      two are never shown together. */
  function Tag(e: ReportEntry): (t: string)
    ensures t == ESTUDO_TAG <==> e.estudo
    ensures t == REVISITA_TAG <==> !e.estudo && e.revisita
    ensures t == "" <==> !e.estudo && !e.revisita
  {
    Join(TagCandidates(e), TAG_SEPARATOR)
  }

  /** The row of one entry: its date as `dd/MM/yyyy`, its hours as
      `HH:mm` and its tag. */
  function EntryRowOf(e: ReportEntry): (r: Row)
    ensures r.EntryRow?
    ensures r.date == TimeFunctions.ToDisplayDate(e.date)
    ensures r.tag == ESTUDO_TAG <==> e.estudo
    ensures r.tag == REVISITA_TAG <==> !e.estudo && e.revisita
  {
    EntryRow(TimeFunctions.ToDisplayDate(e.date), TimeFunctions.HoursToHHmm(TimeFunctions.Finite(e.hours)), Tag(e))
  }

  /** One row per entry in entry order, or the single fallback row when
      there are no entries. */
  function Rows(entries: seq<ReportEntry>): (r: seq<Row>)
    ensures entries == [] ==> r == [EmptyRow(EMPTY_ROW_TEXT)]
    ensures entries != [] ==> |r| == |entries|
    ensures entries != [] ==> forall i :: 0 <= i < |entries| ==> r[i] == EntryRowOf(entries[i])
  {
    if entries == [] then [EmptyRow(EMPTY_ROW_TEXT)] else EntryRows(entries)
  }

  function EntryRows(entries: seq<ReportEntry>): (r: seq<Row>)
    ensures |r| == |entries|
    ensures forall i :: 0 <= i < |entries| ==> r[i] == EntryRowOf(entries[i])
  {
    if entries == [] then [] else [EntryRowOf(entries[0])] + EntryRows(entries[1..])
  }

  /** The "generated at" line: the author is appended only when given and
      non-empty. The formatted creation time is a parameter. */
  function Meta(created: string, author: Option<string>): (r: string)
    ensures author.None? || author.value == "" ==> r == "Gerado em " + created
    ensures author.Some? && author.value != "" ==> r == "Gerado em " + created + TAG_SEPARATOR + author.value
  {
    "Gerado em " + created + (if author.Some? && author.value != "" then TAG_SEPARATOR + author.value else "")
  }

  /** `buildHtml`, as the values it places in the page. */
  function BuildPage(report: Report, created: string, author: Option<string>): (p: Page)
    ensures p.title == "Relatório — " + report.periodLabel
    ensures p.badge == CLOSED_BADGE <==> report.isClosed
    ensures p.badge == OPEN_BADGE <==> !report.isClosed
    ensures p.rows == Rows(report.entries)
    ensures p.total == "Total: " + TimeFunctions.HoursToHHmm(TimeFunctions.Finite(report.totalHours))
    ensures p.footer == "Relatório " + report.id
    ensures p.meta == Meta(created, author)
  {
    Page(
      "Relatório — " + report.periodLabel,
      Meta(created, author),
      if report.isClosed then CLOSED_BADGE else OPEN_BADGE,
      Rows(report.entries),
      "Total: " + TimeFunctions.HoursToHHmm(TimeFunctions.Finite(report.totalHours)),
      "Relatório " + report.id)
  }

  /** `relatorio-{month}.pdf`. */
  function FileName(month: string): (r: string)
    ensures |r| == |month| + 14
    ensures r[..10] == "relatorio-" && r[|r| - 4..] == ".pdf"
    ensures r[10..|r| - 4] == month
  {
    "relatorio-" + month + ".pdf"
  }

  /** Different months give different file names. */
  lemma FileNameInjective(m1: string, m2: string)
    requires FileName(m1) == FileName(m2)
    ensures m1 == m2
  {
    assert m1 == FileName(m1)[10..|FileName(m1)| - 4];
  }

  // ---------------------------------------------------------------------
  // Rendering a generated report

  /** A generated report as the renderer sees it: the aggregator's entries
      have no `estudo` field, which reads as false. The localized period
      label is a parameter. */
  function AsRendered(r: Reports.Report, periodLabel: string): (out: Report)
    ensures out.id == r.id && out.month == r.month && out.totalHours == r.totalHours && out.isClosed == r.isClosed
    ensures |out.entries| == |r.entries|
    ensures forall i :: 0 <= i < |r.entries| ==>
      out.entries[i] == ReportEntry(r.entries[i].date, r.entries[i].hours, r.entries[i].revisita, false)
  {
    Report(r.id, r.month, periodLabel, RenderedEntries(r.entries), r.totalHours, r.isClosed)
  }

  function RenderedEntries(es: seq<Reports.ReportEntry>): (out: seq<ReportEntry>)
    ensures |out| == |es|
    ensures forall i :: 0 <= i < |es| ==> out[i] == ReportEntry(es[i].date, es[i].hours, es[i].revisita, false)
  {
    if es == [] then [] else [ReportEntry(es[0].date, es[0].hours, es[0].revisita, false)] + RenderedEntries(es[1..])
  }

  /** Rendering a generated report: its rows follow the month's notes in
      date order, a note's row is tagged "Revisita" exactly when its revisit
      is on, and no row is ever tagged "Estudo". */
  lemma GeneratedReportRows(notes: seq<Note>, userId: string, clock: Reports.Clock, periodLabel: string,
                            created: string, author: Option<string>)
    ensures var sorted := Reports.SortByDate(Reports.MonthNotes(notes, Reports.CurrentKey(clock.atKey)));
      var page := BuildPage(AsRendered(Reports.BuildReport(notes, userId, clock), periodLabel), created, author);
      && (sorted == [] ==> page.rows == [EmptyRow(EMPTY_ROW_TEXT)])
      && (sorted != [] ==> |page.rows| == |sorted|)
      && (sorted != [] ==>
           forall i :: 0 <= i < |sorted| ==>
             page.rows[i].EntryRow? &&
             page.rows[i].date == TimeFunctions.ToDisplayDate(sorted[i].date) &&
             page.rows[i].tag != ESTUDO_TAG &&
             (page.rows[i].tag == REVISITA_TAG <==> sorted[i].revisita.RevisitaOn?))
  {
    var sorted := Reports.SortByDate(Reports.MonthNotes(notes, Reports.CurrentKey(clock.atKey)));
    var report := Reports.BuildReport(notes, userId, clock);
    Reports.BuildReportEntries(notes, userId, clock);
    var es := report.entries;
    RowsOfGenerated(es);
    assert AsRendered(report, periodLabel).entries == RenderedEntries(es);
    forall i | 0 <= i < |sorted|
      ensures es[i].date == sorted[i].date && (es[i].revisita <==> sorted[i].revisita.RevisitaOn?)
    {
    }
  }

  /** The badge of a generated report reads "Em aberto" exactly when the
      clock reading inside `isClosedMonth` gives the same month key as the
      first reading; a generation within one month is never "Fechado". */
  lemma GeneratedReportBadge(notes: seq<Note>, userId: string, clock: Reports.Clock, periodLabel: string,
                             created: string, author: Option<string>)
    ensures var page := BuildPage(AsRendered(Reports.BuildReport(notes, userId, clock), periodLabel), created, author);
      && (page.badge == OPEN_BADGE <==> Reports.CurrentKey(clock.atClose) == Reports.CurrentKey(clock.atKey))
      && (clock.SameMonth() ==> page.badge == OPEN_BADGE)
  {
    var report := Reports.BuildReport(notes, userId, clock);
    Reports.BuildReportOpen(notes, userId, clock);
    assert AsRendered(report, periodLabel).isClosed == report.isClosed;
  }

  /** The rows of entries from the aggregator: one per entry, never tagged
      "Estudo", tagged "Revisita" exactly when the revisit is on. */
  lemma RowsOfGenerated(es: seq<Reports.ReportEntry>)
    ensures es == [] ==> Rows(RenderedEntries(es)) == [EmptyRow(EMPTY_ROW_TEXT)]
    ensures es != [] ==> |Rows(RenderedEntries(es))| == |es|
    ensures es != [] ==> forall i :: 0 <= i < |es| ==>
      var row := Rows(RenderedEntries(es))[i];
      && row.EntryRow?
      && row.date == TimeFunctions.ToDisplayDate(es[i].date)
      && row.tag != ESTUDO_TAG
      && (row.tag == REVISITA_TAG <==> es[i].revisita)
  {
  }
}
