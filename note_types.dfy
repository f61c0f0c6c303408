/** The records of type/index.ts: a note with its revisit and study
    sub-records, and the report entry and report read by the PDF renderer. */
module NoteTypes {
  import opened Wrappers

  /** A revisit: either switched off, or on with its details. */
  datatype Revisita =
    | RevisitaOff
    | RevisitaOn(nome: string, numeroCasa: string, celular: Option<string>,
                 data: string, horario: string, endereco: Option<string>)
  {
    predicate Enabled() { RevisitaOn? }
  }

  /** A bible study: either switched off, or on with its details. */
  datatype Estudo =
    | EstudoOff
    | EstudoOn(nome: string, numeroCasa: string, celular: Option<string>,
               dia: string, horario: string, endereco: Option<string>, material: Option<string>)
  {
    predicate Enabled() { EstudoOn? }
  }

  /** One field-service note. `estudo` may be absent: the note type of the
      notes store does not declare it. */
  datatype Note = Note(
    id: string,
    date: string,
    hours: real,
    locationNotes: Option<string>,
    actions: seq<string>,
    revisita: Revisita,
    estudo: Option<Estudo>)

  /** A report entry as the PDF renderer reads it. */
  datatype ReportEntry = ReportEntry(date: string, hours: real, revisita: bool, estudo: bool)

  /** A report as the PDF renderer reads it. */
  datatype Report = Report(
    id: string,
    month: string,
    periodLabel: string,
    entries: seq<ReportEntry>,
    totalHours: real,
    isClosed: bool)
}
