/** The classification rules of components/NoteForm.tsx: the three effects
    that keep `actions`, `revisitaEnabled` and the auto-study flag
    consistent, `toggleAction`, the study/revisit decision, the schema's
    required-field conditions, `toErrorMap` and the record `handleSave`
    builds. React's re-rendering is modelled as running all three effects
    on the same rendered state, round after round, until nothing changes. */
module NoteForm {
  import opened Wrappers
  import opened Text
  import opened NoteTypes
  import opened NoteActions
  import TimeFunctions

  // ---------------------------------------------------------------------
  // Tag lists

  /** `actions.filter((a) => a !== tag)`. */
  function Without(s: seq<string>, tag: string): (r: seq<string>)
    ensures tag !in r
    ensures forall t :: t != tag ==> (t in r <==> t in s)
    ensures |r| <= |s|
  {
    if s == [] then [] else (if s[0] == tag then [] else [s[0]]) + Without(s[1..], tag)
  }

  lemma {:induction false} WithoutAbsent(s: seq<string>, tag: string)
    requires tag !in s
    ensures Without(s, tag) == s
  {
    if s != [] {
      WithoutAbsent(s[1..], tag);
    }
  }

  lemma {:induction false} WithoutAppend(s: seq<string>, x: string, tag: string)
    ensures Without(s + [x], tag) == Without(s, tag) + (if x == tag then [] else [x])
  {
    if s != [] {
      assert (s + [x])[1..] == s[1..] + [x];
      WithoutAppend(s[1..], x, tag);
    } else {
      assert [x][1..] == [];
    }
  }

  /** Some tag of the list is a revisit tag. */
  predicate HasRevisita(actions: seq<string>)
  {
    exists i :: 0 <= i < |actions| && actions[i] in REVISITA_ACTIONS
  }

  predicate ThirdSelected(actions: seq<string>)
  {
    A_REV_3_ESTUDO in actions || A_REV_3_ESTUDO_SF in actions
  }

  /** `isStudy`: a third-revisit tag or "Abriu estudo" is selected, or the
      note being edited already had its study on. */
  predicate IsStudy(actions: seq<string>, initialWasStudy: bool)
  {
    ThirdSelected(actions) || A_ABRIU_ESTUDO in actions || initialWasStudy
  }

  /** Neither adding nor removing "Abriu estudo" changes which revisit or
      third-revisit tags are selected. */
  lemma AbriuIsNeutral(s: seq<string>)
    ensures HasRevisita(s + [A_ABRIU_ESTUDO]) == HasRevisita(s)
    ensures HasRevisita(Without(s, A_ABRIU_ESTUDO)) == HasRevisita(s)
    ensures ThirdSelected(s + [A_ABRIU_ESTUDO]) == ThirdSelected(s)
    ensures ThirdSelected(Without(s, A_ABRIU_ESTUDO)) == ThirdSelected(s)
  {
    var t := s + [A_ABRIU_ESTUDO];
    var w := Without(s, A_ABRIU_ESTUDO);
    if HasRevisita(t) {
      var i :| 0 <= i < |t| && t[i] in REVISITA_ACTIONS;
      assert i < |s| && s[i] in REVISITA_ACTIONS;
    }
    if HasRevisita(s) {
      var i :| 0 <= i < |s| && s[i] in REVISITA_ACTIONS;
      assert t[i] == s[i];
      assert s[i] in w;
      var j :| 0 <= j < |w| && w[j] == s[i];
    }
    if HasRevisita(w) {
      var j :| 0 <= j < |w| && w[j] in REVISITA_ACTIONS;
      assert w[j] in s;
      var i :| 0 <= i < |s| && s[i] == w[j];
    }
  }

  // ---------------------------------------------------------------------
  // The effects

  /** The state the effects read and write: the selected tags, the revisit
      switch and `autoStudyByThirdRef`. */
  datatype FormState = FormState(actions: seq<string>, revisitaEnabled: bool, autoStudy: bool)

  /** One commit: the three effects run on the same rendered state. The
      first two switch the revisit on when a revisit tag or "Abriu estudo"
      is selected; the third adds "Abriu estudo" (marking it as added by the
      effect) while a third-revisit tag is selected, and otherwise takes it
      back out if the effect had added it, clearing the mark. */
  function Round(s: FormState): (r: FormState)
    ensures s.revisitaEnabled ==> r.revisitaEnabled
    ensures HasRevisita(s.actions) || A_ABRIU_ESTUDO in s.actions ==> r.revisitaEnabled
    ensures ThirdSelected(s.actions) ==> A_ABRIU_ESTUDO in r.actions
    ensures r.autoStudy ==> ThirdSelected(s.actions)
  {
    var rev := s.revisitaEnabled || HasRevisita(s.actions) || A_ABRIU_ESTUDO in s.actions;
    if ThirdSelected(s.actions) then
      if A_ABRIU_ESTUDO !in s.actions then FormState(s.actions + [A_ABRIU_ESTUDO], rev, true)
      else FormState(s.actions, rev, s.autoStudy)
    else if s.autoStudy && A_ABRIU_ESTUDO in s.actions then
      FormState(Without(s.actions, A_ABRIU_ESTUDO), rev, false)
    else FormState(s.actions, rev, false)
  }

  /** `k` commits in a row. */
  ghost function Rounds(s: FormState, k: nat): FormState
  {
    if k == 0 then s else Round(Rounds(s, k - 1))
  }

  /** The state once the effects have stopped changing it. */
  function Settled(s: FormState): (r: FormState)
    ensures s.revisitaEnabled || HasRevisita(s.actions) || A_ABRIU_ESTUDO in s.actions ==> r.revisitaEnabled
    ensures ThirdSelected(s.actions) ==> r.revisitaEnabled
  {
    Round(Round(s))
  }

  lemma RoundKeepsSelection(s: FormState)
    ensures ThirdSelected(Round(s).actions) == ThirdSelected(s.actions)
    ensures HasRevisita(Round(s).actions) == HasRevisita(s.actions)
    ensures Without(Round(s).actions, A_ABRIU_ESTUDO) == Without(s.actions, A_ABRIU_ESTUDO)
  {
    AbriuIsNeutral(s.actions);
    WithoutAppend(s.actions, A_ABRIU_ESTUDO, A_ABRIU_ESTUDO);
    WithoutAbsent(Without(s.actions, A_ABRIU_ESTUDO), A_ABRIU_ESTUDO);
  }

  /** Two commits reach a state no effect changes any more. */
  lemma SettledIsFixpoint(s: FormState)
    ensures Round(Settled(s)) == Settled(s)
    ensures Rounds(s, 2) == Settled(s)
  {
    var s1 := Round(s);
    RoundKeepsSelection(s);
    RoundKeepsSelection(s1);
    assert Rounds(s, 1) == s1;
  }

  /** With a third-revisit tag selected, the settled state holds "Abriu
      estudo" and the revisit switch is on; when the effect had to add
      "Abriu estudo" the auto flag is set, and when it was already there
      nothing but the switch changes. */
  lemma SettledWithThird(s: FormState)
    requires ThirdSelected(s.actions)
    ensures A_ABRIU_ESTUDO in Settled(s).actions
    ensures Settled(s).revisitaEnabled
    ensures A_ABRIU_ESTUDO !in s.actions ==>
      Settled(s).actions == s.actions + [A_ABRIU_ESTUDO] && Settled(s).autoStudy
    ensures A_ABRIU_ESTUDO in s.actions ==>
      Settled(s).actions == s.actions && Settled(s).autoStudy == s.autoStudy
  {
    AbriuIsNeutral(s.actions);
  }

  /** Without a third-revisit tag the auto flag ends false, and "Abriu
      estudo" stays exactly when it was selected and not added by the
      effect: a user-selected "Abriu estudo" survives. */
  lemma SettledWithoutThird(s: FormState)
    requires !ThirdSelected(s.actions)
    ensures !Settled(s).autoStudy
    ensures A_ABRIU_ESTUDO in Settled(s).actions <==> A_ABRIU_ESTUDO in s.actions && !s.autoStudy
    ensures Settled(s).actions == if s.autoStudy then Without(s.actions, A_ABRIU_ESTUDO) else s.actions
  {
    AbriuIsNeutral(s.actions);
    if s.autoStudy && A_ABRIU_ESTUDO !in s.actions {
      WithoutAbsent(s.actions, A_ABRIU_ESTUDO);
    }
  }

  /** The settled revisit switch is on exactly when it was on, or a revisit
      tag is selected, or "Abriu estudo" was selected before or after the
      effects ran: no effect ever switches it off. */
  lemma SettledRevisita(s: FormState)
    ensures Settled(s).revisitaEnabled <==>
      s.revisitaEnabled || HasRevisita(s.actions) ||
      A_ABRIU_ESTUDO in s.actions || A_ABRIU_ESTUDO in Settled(s).actions
  {
    RoundKeepsSelection(s);
    var s1 := Round(s);
    RoundKeepsSelection(s1);
    if ThirdSelected(s.actions) {
      SettledWithThird(s);
    } else {
      SettledWithoutThird(s);
    }
  }

  /** The effects only ever add or remove "Abriu estudo": every other tag
      keeps its place. */
  lemma SettledKeepsOtherTags(s: FormState)
    ensures Without(Settled(s).actions, A_ABRIU_ESTUDO) == Without(s.actions, A_ABRIU_ESTUDO)
  {
    RoundKeepsSelection(s);
    RoundKeepsSelection(Round(s));
  }

  // ---------------------------------------------------------------------
  // toggleAction

  /** `toggleAction(tag)` before the effects run: an absent tag is
      appended, a present one is removed with all its copies, and a user
      selecting "Abriu estudo" clears the auto flag. */
  function ToggleStep(s: FormState, tag: string): (r: FormState)
    ensures tag in r.actions <==> tag !in s.actions
    ensures forall t :: t != tag ==> (t in r.actions <==> t in s.actions)
    ensures r.revisitaEnabled == s.revisitaEnabled
    ensures r.autoStudy ==> s.autoStudy
  {
    var present := tag in s.actions;
    var auto := if !present && tag == A_ABRIU_ESTUDO then false else s.autoStudy;
    FormState(if present then Without(s.actions, tag) else s.actions + [tag], s.revisitaEnabled, auto)
  }

  /** Toggling adds an absent tag at the end, removes every copy of a
      present one, keeps all other tags in order, and leaves the revisit
      switch alone. */
  lemma ToggleStepSpec(s: FormState, tag: string)
    ensures tag !in s.actions ==> ToggleStep(s, tag).actions == s.actions + [tag]
    ensures tag in s.actions ==> tag !in ToggleStep(s, tag).actions
    ensures Without(ToggleStep(s, tag).actions, tag) == Without(s.actions, tag)
    ensures ToggleStep(s, tag).revisitaEnabled == s.revisitaEnabled
    ensures ToggleStep(s, tag).autoStudy ==
      (s.autoStudy && !(tag !in s.actions && tag == A_ABRIU_ESTUDO))
  {
    if tag in s.actions {
      WithoutAbsent(Without(s.actions, tag), tag);
    } else {
      WithoutAppend(s.actions, tag, tag);
    }
  }

  /** Toggling a third-revisit tag on and then off, from a settled state
      without "Abriu estudo", restores the tags: the study the effect had
      added is taken back out. The revisit switch stays on. */
  lemma ThirdToggleRoundTrip(s: FormState, third: string)
    requires IsThirdRevisit(third)
    requires !ThirdSelected(s.actions) && A_ABRIU_ESTUDO !in s.actions
    ensures var s1 := Settled(ToggleStep(s, third));
      var s2 := Settled(ToggleStep(s1, third));
      s2.actions == s.actions && !s2.autoStudy && s2.revisitaEnabled
  {
    var t1 := ToggleStep(s, third);
    assert t1.actions == s.actions + [third];
    SettledWithThird(t1);
    var s1 := Settled(t1);
    assert s1.actions == s.actions + [third, A_ABRIU_ESTUDO];
    var t2 := ToggleStep(s1, third);
    WithoutAppend(s.actions + [third], A_ABRIU_ESTUDO, third);
    WithoutAppend(s.actions, third, third);
    WithoutAbsent(s.actions, third);
    assert s.actions + [third, A_ABRIU_ESTUDO] == s.actions + [third] + [A_ABRIU_ESTUDO];
    assert t2.actions == s.actions + [A_ABRIU_ESTUDO];
    AbriuIsNeutral(s.actions);
    SettledWithoutThird(t2);
    WithoutAppend(s.actions, A_ABRIU_ESTUDO, A_ABRIU_ESTUDO);
    WithoutAbsent(s.actions, A_ABRIU_ESTUDO);
    SettledRevisita(t2);
  }

  /** When the user selected "Abriu estudo" themselves, toggling a
      third-revisit tag on and off leaves it selected. */
  lemma UserStudySurvivesThirdToggle(s: FormState, third: string)
    requires IsThirdRevisit(third)
    requires !ThirdSelected(s.actions) && A_ABRIU_ESTUDO in s.actions && !s.autoStudy
    ensures var s1 := Settled(ToggleStep(s, third));
      Settled(ToggleStep(s1, third)).actions == s.actions
  {
    var t1 := ToggleStep(s, third);
    SettledWithThird(t1);
    var s1 := Settled(t1);
    var t2 := ToggleStep(s1, third);
    WithoutAppend(s.actions, third, third);
    WithoutAbsent(s.actions, third);
    SettledWithoutThird(t2);
  }

  // ---------------------------------------------------------------------
  // The form as an object

  /** The form's initial tags and revisit switch, from the note being
      edited, if any. */
  function InitialState(initial: Option<Note>): FormState
  {
    if initial.None? then FormState([], false, false)
    else FormState(initial.value.actions, initial.value.revisita.Enabled(), false)
  }

  class NoteFormModel {
    var actions: seq<string>
    var revisitaEnabled: bool
    var autoStudy: bool
    const initialWasStudy: bool

    function State(): FormState
      reads this
    {
      FormState(actions, revisitaEnabled, autoStudy)
    }

    /** Mounting the form: the state comes from the note being edited and
        the effects then run to a fixpoint. */
    constructor(initial: Option<Note>)
      ensures State() == Settled(InitialState(initial))
      ensures initialWasStudy <==>
        initial.Some? && initial.value.estudo.Some? && initial.value.estudo.value.Enabled()
    {
      var s := InitialState(initial);
      actions, revisitaEnabled, autoStudy := s.actions, s.revisitaEnabled, s.autoStudy;
      initialWasStudy := initial.Some? && initial.value.estudo.Some? && initial.value.estudo.value.Enabled();
      new;
      Settle();
    }

    /** Re-renders, running the effects, until the state stops changing. */
    method Settle()
      modifies this
      ensures State() == Settled(old(State()))
      ensures Round(State()) == State()
    {
      ghost var start := State();
      ghost var k: nat := 0;
      SettledIsFixpoint(start);
      while Round(State()) != State()
        invariant k <= 2 && State() == Rounds(start, k)
        decreases 2 - k
      {
        var next := Round(State());
        actions, revisitaEnabled, autoStudy := next.actions, next.revisitaEnabled, next.autoStudy;
        k := k + 1;
      }
      if k < 2 {
        assert Rounds(start, k + 1) == State();
        if k == 0 {
          assert Rounds(start, 2) == Rounds(start, 0);
        }
      }
    }

    /** A tap on a tag: toggle it, then let the effects settle. */
    method ToggleAction(tag: string)
      modifies this
      ensures State() == Settled(ToggleStep(old(State()), tag))
    {
      var s := ToggleStep(State(), tag);
      actions, revisitaEnabled, autoStudy := s.actions, s.revisitaEnabled, s.autoStudy;
      Settle();
    }

    /** The "Marcou alguma revisita?" checkbox, then the effects settle (and
        switch the revisit back on while a revisit tag or "Abriu estudo" is
        selected). */
    method SetRevisitaEnabled(on: bool)
      modifies this
      ensures State() == Settled(old(State()).(revisitaEnabled := on))
    {
      revisitaEnabled := on;
      Settle();
    }

    predicate StudyNow()
      reads this
    {
      IsStudy(actions, initialWasStudy)
    }

    /** `handleSave`: validate all fields against the schema for the current
        study/revisit choice; on failure return the error map, on success
        the note. Changes nothing in the form's tags or switches. */
    method Save(f: Fields, initialId: Option<string>, nowMs: nat)
      returns (r: Result<Note, map<Field, string>>)
      ensures var issues := Validate(f, StudyNow(), revisitaEnabled);
        && (r.Ok? <==> issues == [])
        && (r.Ok? ==> TimeFunctions.HhmmToHours(f.hoursHHmm).Some?)
        && (r.Ok? ==> r.value == BuildNote(f, actions, StudyNow(), revisitaEnabled, initialId, nowMs))
        && (r.Err? ==> r.error.Keys == PathsOf(issues))
        && (r.Err? ==> forall p :: p in r.error ==> MessagesFor(issues, p) != [] && r.error[p] == MessagesFor(issues, p)[0])
    {
      var issues := Validate(f, StudyNow(), revisitaEnabled);
      if issues == [] {
        ValidHoursParse(f, StudyNow(), revisitaEnabled);
        r := Ok(BuildNote(f, actions, StudyNow(), revisitaEnabled, initialId, nowMs));
      } else {
        var errors := ToErrorMap(issues, Issue(None, ""));
        forall p | p in errors ensures MessagesFor(issues, p) != [] && errors[p] == MessagesFor(issues, p)[0] {
          FirstMessageOfPath(issues, p);
        }
        r := Err(errors);
      }
    }
  }

  // ---------------------------------------------------------------------
  // The schema

  /** The form's fields, named as the schema names them. */
  datatype Field =
    | DateIso | HoursHHmm | LocationNotes
    | Nome | NumeroCasa | Celular | DataRevIso | HoraRev | Endereco
    | EstNome | EstNumeroCasa | EstCelular | EstDiaIso | EstHorario | EstEndereco | EstMaterial

  /** The text values of the form. */
  datatype Fields = Fields(
    dateIso: string, hoursHHmm: string, locationNotes: string,
    nome: string, numeroCasa: string, celular: string, dataRevIso: string, horaRev: string, endereco: string,
    estNome: string, estNumeroCasa: string, estCelular: string, estDiaIso: string, estHorario: string,
    estEndereco: string, estMaterial: string)

  /** One validation error; yup may leave the path undefined. */
  datatype Issue = Issue(path: Option<Field>, message: string)

  const HHMM_MSG := "Use o formato HH:mm (ex.: 02:30)."

  /** The paths that occur among the issues. */
  function PathsOf(issues: seq<Issue>): set<Field>
  {
    if issues == [] then {}
    else
      var last := issues[|issues| - 1];
      PathsOf(issues[..|issues| - 1]) + (if last.path.Some? then {last.path.value} else {})
  }

  /** The outcome of each test of the schema on the form's text, before
      the study/revisit choice decides which of them apply. */
  datatype Outcomes = Outcomes(
    dateMissing: bool,
    hoursMissing: bool, hoursMalformed: bool, hoursOutOfRange: bool,
    nomeBlank: bool, numeroCasaBlank: bool, dataRevMissing: bool, horaRevMissing: bool, horaRevMalformed: bool,
    estNomeBlank: bool, estNumeroCasaBlank: bool, estDiaMissing: bool, estHorarioMissing: bool,
    estHorarioMalformed: bool)

  /** The schema's tests: `required` on a plain string fails on "", on a
      `.trim()`med one on white space only; the `HH:mm` pattern is the
      regular expression `^(\d{1,2}):([0-5]\d)$` and the range test asks
      `hhmmToHours` for a value. */
  function TestOutcomes(f: Fields): Outcomes
  {
    Outcomes(
      f.dateIso == "",
      f.hoursHHmm == "", !TimeFunctions.HhmmMatch(f.hoursHHmm), TimeFunctions.HhmmToHours(f.hoursHHmm).None?,
      Blank(f.nome), Blank(f.numeroCasa), f.dataRevIso == "", f.horaRev == "", !TimeFunctions.HhmmMatch(f.horaRev),
      Blank(f.estNome), Blank(f.estNumeroCasa), f.estDiaIso == "", f.estHorario == "",
      !TimeFunctions.HhmmMatch(f.estHorario))
  }

  lemma {:induction false} PathsOfPrepend(x: Issue, s: seq<Issue>)
    ensures PathsOf([x] + s) == (if x.path.Some? then {x.path.value} else {}) + PathsOf(s)
    decreases |s|
  {
    if s == [] {
      assert [x] + s == [x];
      assert [x][..0] == [];
    } else {
      assert ([x] + s)[..|[x] + s| - 1] == [x] + s[..|s| - 1];
      PathsOfPrepend(x, s[..|s| - 1]);
    }
  }

  /** Every issue names its field and has a message. */
  ghost predicate AllFilled(issues: seq<Issue>)
  {
    forall i :: 0 <= i < |issues| ==> issues[i].path.Some? && issues[i].message != ""
  }

  /** One test of the schema, in front of the issues of the later tests:
      an issue on path `p` when it fails. */
  function Check(p: Field, failed: bool, message: string, rest: seq<Issue>): (r: seq<Issue>)
    ensures forall q :: q in PathsOf(r) <==> (failed && q == p) || q in PathsOf(rest)
    ensures message != "" && AllFilled(rest) ==> AllFilled(r)
  {
    if failed then
      PathsOfPrepend(Issue(Some(p), message), rest);
      [Issue(Some(p), message)] + rest
    else rest
  }

  /** The fields the date and hours tests report. */
  predicate BaseFails(o: Outcomes, q: Field)
  {
    (q == DateIso && o.dateMissing) ||
    (q == HoursHHmm && (o.hoursMissing || o.hoursMalformed || o.hoursOutOfRange))
  }

  /** The fields the revisit tests report when they apply. */
  predicate RevisitaFails(o: Outcomes, q: Field)
  {
    (q == Nome && o.nomeBlank) ||
    (q == NumeroCasa && o.numeroCasaBlank) ||
    (q == DataRevIso && o.dataRevMissing) ||
    (q == HoraRev && (o.horaRevMissing || o.horaRevMalformed))
  }

  /** The fields the study tests report when they apply. */
  predicate EstudoFails(o: Outcomes, q: Field)
  {
    (q == EstNome && o.estNomeBlank) ||
    (q == EstNumeroCasa && o.estNumeroCasaBlank) ||
    (q == EstDiaIso && o.estDiaMissing) ||
    (q == EstHorario && (o.estHorarioMissing || o.estHorarioMalformed))
  }

  /** The tests of the date and the hours, in front of `rest`. */
  function BaseChecks(o: Outcomes, rest: seq<Issue>): (r: seq<Issue>)
    ensures forall q :: q in PathsOf(r) <==> BaseFails(o, q) || q in PathsOf(rest)
    ensures AllFilled(rest) ==> AllFilled(r)
  {
    Check(DateIso, o.dateMissing, "Informe a data.",
    Check(HoursHHmm, o.hoursMissing, "Informe as horas.",
    Check(HoursHHmm, o.hoursMalformed, HHMM_MSG,
    Check(HoursHHmm, o.hoursOutOfRange, "Valores entre 00:00 e 24:00.", rest))))
  }

  /** The tests of the revisit fields, applied only when `active`. */
  function RevisitaChecks(o: Outcomes, active: bool, rest: seq<Issue>): (r: seq<Issue>)
    ensures forall q :: q in PathsOf(r) <==> (active && RevisitaFails(o, q)) || q in PathsOf(rest)
    ensures AllFilled(rest) ==> AllFilled(r)
  {
    Check(Nome, active && o.nomeBlank, "Informe o nome do morador.",
    Check(NumeroCasa, active && o.numeroCasaBlank, "Informe o nº da casa.",
    Check(DataRevIso, active && o.dataRevMissing, "Informe a data combinada.",
    Check(HoraRev, active && o.horaRevMissing, "Informe o horário combinado.",
    Check(HoraRev, active && o.horaRevMalformed, HHMM_MSG, rest)))))
  }

  /** The tests of the study fields, applied only when `active`. */
  function EstudoChecks(o: Outcomes, active: bool, rest: seq<Issue>): (r: seq<Issue>)
    ensures forall q :: q in PathsOf(r) <==> (active && EstudoFails(o, q)) || q in PathsOf(rest)
    ensures AllFilled(rest) ==> AllFilled(r)
  {
    Check(EstNome, active && o.estNomeBlank, "Informe o nome do estudante.",
    Check(EstNumeroCasa, active && o.estNumeroCasaBlank, "Informe o nº da casa.",
    Check(EstDiaIso, active && o.estDiaMissing, "Informe o dia do estudo.",
    Check(EstHorario, active && o.estHorarioMissing, "Informe o horário do estudo.",
    Check(EstHorario, active && o.estHorarioMalformed, HHMM_MSG, rest)))))
  }

  /** Which fields the schema reports for given outcomes: the date and the
      hours always apply, the revisit fields exactly when the revisit is on
      and the note is not a study, the study fields exactly when it is a
      study, and the optional fields never fail. */
  predicate FieldFails(o: Outcomes, isStudy: bool, revisitaEnabled: bool, q: Field)
  {
    var rev := revisitaEnabled && !isStudy;
    match q
    case DateIso => o.dateMissing
    case HoursHHmm => o.hoursMissing || o.hoursMalformed || o.hoursOutOfRange
    case Nome => rev && o.nomeBlank
    case NumeroCasa => rev && o.numeroCasaBlank
    case DataRevIso => rev && o.dataRevMissing
    case HoraRev => rev && (o.horaRevMissing || o.horaRevMalformed)
    case EstNome => isStudy && o.estNomeBlank
    case EstNumeroCasa => isStudy && o.estNumeroCasaBlank
    case EstDiaIso => isStudy && o.estDiaMissing
    case EstHorario => isStudy && (o.estHorarioMissing || o.estHorarioMalformed)
    case LocationNotes | Celular | Endereco | EstCelular | EstEndereco | EstMaterial => false
  }

  /** `getSchema(isStudy, revisitaEnabled)` on the outcomes, field after
      field and test after test: the failing fields are those `FieldFails`
      names, and every issue carries its field and a message. */
  function IssuesOf(o: Outcomes, isStudy: bool, revisitaEnabled: bool): (r: seq<Issue>)
    ensures AllFilled(r)
  {
    BaseChecks(o, RevisitaChecks(o, revisitaEnabled && !isStudy, EstudoChecks(o, isStudy, [])))
  }

  /** The fields `getSchema` reports are exactly those `FieldFails` names. */
  lemma IssuesOfFields(o: Outcomes, isStudy: bool, revisitaEnabled: bool, q: Field)
    ensures q in PathsOf(IssuesOf(o, isStudy, revisitaEnabled)) <==> FieldFails(o, isStudy, revisitaEnabled, q)
  {
    FieldFailsByGroup(o, isStudy, revisitaEnabled, q);
    IssuesOfByGroup(o, isStudy, revisitaEnabled, q);
  }

  lemma FieldFailsByGroup(o: Outcomes, isStudy: bool, revisitaEnabled: bool, q: Field)
    ensures FieldFails(o, isStudy, revisitaEnabled, q) <==>
      BaseFails(o, q) || (revisitaEnabled && !isStudy && RevisitaFails(o, q)) || (isStudy && EstudoFails(o, q))
  {
  }

  lemma IssuesOfByGroup(o: Outcomes, isStudy: bool, revisitaEnabled: bool, q: Field)
    ensures q in PathsOf(IssuesOf(o, isStudy, revisitaEnabled)) <==>
      BaseFails(o, q) || (revisitaEnabled && !isStudy && RevisitaFails(o, q)) || (isStudy && EstudoFails(o, q))
  {
    var study := EstudoChecks(o, isStudy, []);
    assert q !in PathsOf([]);
    assert q in PathsOf(study) <==> isStudy && EstudoFails(o, q);
  }

  /** The schema applied to the form. */
  function Validate(f: Fields, isStudy: bool, revisitaEnabled: bool): seq<Issue>
  {
    IssuesOf(TestOutcomes(f), isStudy, revisitaEnabled)
  }

  /** Which fields fail, stated on the form's text: the date and the hours
      always, the revisit fields exactly when the revisit is on and the note
      is not a study, the study fields exactly when it is a study, the
      optional fields never. */
  lemma ValidateFields(f: Fields, isStudy: bool, revisitaEnabled: bool, q: Field)
    ensures q in PathsOf(Validate(f, isStudy, revisitaEnabled)) <==>
      var rev := revisitaEnabled && !isStudy;
      match q
      case DateIso => f.dateIso == ""
      case HoursHHmm =>
        f.hoursHHmm == "" || !TimeFunctions.HhmmMatch(f.hoursHHmm) || TimeFunctions.HhmmToHours(f.hoursHHmm).None?
      case Nome => rev && Blank(f.nome)
      case NumeroCasa => rev && Blank(f.numeroCasa)
      case DataRevIso => rev && f.dataRevIso == ""
      case HoraRev => rev && (f.horaRev == "" || !TimeFunctions.HhmmMatch(f.horaRev))
      case EstNome => isStudy && Blank(f.estNome)
      case EstNumeroCasa => isStudy && Blank(f.estNumeroCasa)
      case EstDiaIso => isStudy && f.estDiaIso == ""
      case EstHorario => isStudy && (f.estHorario == "" || !TimeFunctions.HhmmMatch(f.estHorario))
      case LocationNotes | Celular | Endereco | EstCelular | EstEndereco | EstMaterial => false
  {
    IssuesOfFields(TestOutcomes(f), isStudy, revisitaEnabled, q);
  }

  /** A form the schema accepts has hours `hhmmToHours` reads. */
  lemma ValidHoursParse(f: Fields, isStudy: bool, revisitaEnabled: bool)
    requires Validate(f, isStudy, revisitaEnabled) == []
    ensures TimeFunctions.HhmmToHours(f.hoursHHmm).Some?
  {
    assert HoursHHmm !in PathsOf(Validate(f, isStudy, revisitaEnabled));
  }

  // ---------------------------------------------------------------------
  // toErrorMap

  /** The messages of the issues on path `p`, in order. */
  function MessagesFor(issues: seq<Issue>, p: Field): (r: seq<string>)
    ensures |r| <= |issues|
  {
    if issues == [] then []
    else
      var last := issues[|issues| - 1];
      MessagesFor(issues[..|issues| - 1], p) + (if last.path == Some(p) then [last.message] else [])
  }

  /** The first non-empty message, or "" when there is none. */
  function FirstNonEmpty(msgs: seq<string>): string
  {
    if msgs == [] then ""
    else if msgs[0] != "" then msgs[0]
    else FirstNonEmpty(msgs[1..])
  }

  lemma {:induction false} FirstNonEmptyAppend(msgs: seq<string>, m: string)
    ensures FirstNonEmpty(msgs + [m]) == if FirstNonEmpty(msgs) != "" then FirstNonEmpty(msgs) else m
  {
    if msgs != [] {
      assert (msgs + [m])[1..] == msgs[1..] + [m];
      FirstNonEmptyAppend(msgs[1..], m);
    }
  }

  /** A path occurs exactly when it has messages. */
  lemma {:induction false} MessagesForIffPath(issues: seq<Issue>, p: Field)
    ensures MessagesFor(issues, p) != [] <==> p in PathsOf(issues)
  {
    if issues != [] {
      MessagesForIffPath(issues[..|issues| - 1], p);
    }
  }

  /** When every message is non-empty, the message of a path is its first. */
  lemma {:induction false} FirstMessageOfPath(issues: seq<Issue>, p: Field)
    requires AllFilled(issues)
    requires p in PathsOf(issues)
    ensures MessagesFor(issues, p) != []
    ensures FirstNonEmpty(MessagesFor(issues, p)) == MessagesFor(issues, p)[0] != ""
  {
    var init := issues[..|issues| - 1];
    var last := issues[|issues| - 1];
    MessagesForIffPath(init, p);
    FirstNonEmptyAppend(MessagesFor(init, p), last.message);
    if p in PathsOf(init) {
      FirstMessageOfPath(init, p);
    }
  }

  /** The map holds exactly the paths of `done`, each with its first
      non-empty message. */
  ghost predicate Records(out: map<Field, string>, done: seq<Issue>)
  {
    && out.Keys == PathsOf(done)
    && forall p :: p in out ==> out[p] == FirstNonEmpty(MessagesFor(done, p))
  }

  /** Recording one issue: its message goes under its path unless a
      non-empty message is already there. */
  function Recorded(out: map<Field, string>, issue: Issue): map<Field, string>
  {
    if issue.path.Some? && (issue.path.value !in out || out[issue.path.value] == "")
    then out[issue.path.value := issue.message]
    else out
  }

  /** The map `toErrorMap` builds from a list of issues, one issue after the
      other. */
  function ErrorMapOf(issues: seq<Issue>): map<Field, string>
  {
    if issues == [] then map[]
    else Recorded(ErrorMapOf(issues[..|issues| - 1]), issues[|issues| - 1])
  }

  /** One step: recording `issue` keeps the map holding exactly the paths
      seen so far, each with its first non-empty message. */
  lemma RecordedStep(done: seq<Issue>, issue: Issue, next: seq<Issue>, before: map<Field, string>)
    requires next == done + [issue]
    requires Records(before, done)
    ensures Records(Recorded(before, issue), next)
  {
    var after := Recorded(before, issue);
    assert next[..|next| - 1] == done && next[|next| - 1] == issue;
    assert PathsOf(next) == PathsOf(done) + (if issue.path.Some? then {issue.path.value} else {});
    forall q | q in after
      ensures after[q] == FirstNonEmpty(MessagesFor(next, q))
    {
      assert MessagesFor(next, q) == MessagesFor(done, q) + (if issue.path == Some(q) then [issue.message] else []);
      if issue.path == Some(q) {
        FirstNonEmptyAppend(MessagesFor(done, q), issue.message);
        if q !in before {
          MessagesForIffPath(done, q);
        }
      } else {
        assert MessagesFor(done, q) + [] == MessagesFor(done, q);
      }
    }
  }

  /** The map of a list of issues holds exactly the paths that occur, each
      with its first non-empty message. */
  lemma {:induction false} ErrorMapOfRecords(issues: seq<Issue>)
    ensures ErrorMapOf(issues).Keys == PathsOf(issues)
    ensures forall p :: p in ErrorMapOf(issues) ==> ErrorMapOf(issues)[p] == FirstNonEmpty(MessagesFor(issues, p))
  {
    if issues != [] {
      var done := issues[..|issues| - 1];
      ErrorMapOfRecords(done);
      assert done + [issues[|issues| - 1]] == issues;
      RecordedStep(done, issues[|issues| - 1], issues, ErrorMapOf(done));
    }
  }

  /** `toErrorMap`: walks the issues (or the top-level error when there are
      none) and records a message for a path unless a non-empty one is
      already recorded. The map holds exactly the paths that occur, each
      with its first non-empty message. */
  method ToErrorMap(inner: seq<Issue>, top: Issue) returns (out: map<Field, string>)
    ensures out == ErrorMapOf(if inner == [] then [top] else inner)
    ensures var issues := if inner == [] then [top] else inner;
      && out.Keys == PathsOf(issues)
      && forall p :: p in out ==> out[p] == FirstNonEmpty(MessagesFor(issues, p))
  {
    var issues := if inner == [] then [top] else inner;
    out := map[];
    var k := 0;
    while k < |issues|
      invariant 0 <= k <= |issues|
      invariant out == ErrorMapOf(issues[..k])
    {
      var issue := issues[k];
      if issue.path.Some? && (issue.path.value !in out || out[issue.path.value] == "") {
        out := out[issue.path.value := issue.message];
      }
      assert issues[..k + 1][..k] == issues[..k];
      k := k + 1;
    }
    assert issues[..|issues|] == issues;
    ErrorMapOfRecords(issues);
  }

  // ---------------------------------------------------------------------
  // The saved note

  /** An optional text: present, trimmed, when its trimmed value is
      non-empty. */
  function OptionalTrimmed(s: string): (r: Option<string>)
    ensures r.Some? <==> Trim(s) != ""
    ensures r.Some? ==> r.value == Trim(s)
  {
    if Trim(s) == "" then None else Some(Trim(s))
  }

  /** The note `handleSave` builds from validated fields. */
  function BuildNote(f: Fields, actions: seq<string>, isStudy: bool, revisitaEnabled: bool,
                     initialId: Option<string>, nowMs: nat): (n: Note)
    requires TimeFunctions.HhmmToHours(f.hoursHHmm).Some?
    ensures n.revisita.RevisitaOn? <==> !isStudy && revisitaEnabled
    ensures n.estudo.Some? && (n.estudo.value.EstudoOn? <==> isStudy)
    ensures !(n.revisita.Enabled() && n.estudo.value.Enabled())
    ensures n.id == if initialId.Some? then initialId.value else NatToString(nowMs)
    ensures n.date == f.dateIso && n.actions == actions
    ensures 0.0 <= n.hours <= 24.0 && n.hours == TimeFunctions.HhmmToHours(f.hoursHHmm).value
    ensures n.locationNotes.Some? <==> Trim(f.locationNotes) != ""
    ensures n.revisita.RevisitaOn? ==>
      && n.revisita.nome == Trim(f.nome) && n.revisita.numeroCasa == Trim(f.numeroCasa)
      && n.revisita.data == f.dataRevIso && n.revisita.horario == Trim(f.horaRev)
      && (n.revisita.celular.Some? <==> Trim(f.celular) != "")
      && (n.revisita.endereco.Some? <==> Trim(f.endereco) != "")
    ensures n.estudo.value.EstudoOn? ==>
      && n.estudo.value.nome == Trim(f.estNome) && n.estudo.value.numeroCasa == Trim(f.estNumeroCasa)
      && n.estudo.value.dia == f.estDiaIso && n.estudo.value.horario == Trim(f.estHorario)
      && (n.estudo.value.celular.Some? <==> Trim(f.estCelular) != "")
      && (n.estudo.value.endereco.Some? <==> Trim(f.estEndereco) != "")
      && (n.estudo.value.material.Some? <==> Trim(f.estMaterial) != "")
  {
    var revisita :=
      if !isStudy && revisitaEnabled then
        RevisitaOn(Trim(f.nome), Trim(f.numeroCasa), OptionalTrimmed(f.celular),
                   f.dataRevIso, Trim(f.horaRev), OptionalTrimmed(f.endereco))
      else RevisitaOff;
    var estudo :=
      if isStudy then
        EstudoOn(Trim(f.estNome), Trim(f.estNumeroCasa), OptionalTrimmed(f.estCelular),
                 f.estDiaIso, Trim(f.estHorario), OptionalTrimmed(f.estEndereco), OptionalTrimmed(f.estMaterial))
      else EstudoOff;
    Note(
      initialId.GetOr(NatToString(nowMs)),
      f.dateIso,
      TimeFunctions.HhmmToHours(f.hoursHHmm).value,
      OptionalTrimmed(f.locationNotes),
      actions,
      revisita,
      Some(estudo))
  }

  /** A note saved while the form is a study has its revisit off, and the
      report built from it will count it without a revisit. */
  lemma SavedStudyIsNotRevisit(f: Fields, actions: seq<string>, initialWasStudy: bool, revisitaEnabled: bool,
                               initialId: Option<string>, nowMs: nat)
    requires TimeFunctions.HhmmToHours(f.hoursHHmm).Some?
    requires ThirdSelected(actions) || A_ABRIU_ESTUDO in actions
    ensures !BuildNote(f, actions, IsStudy(actions, initialWasStudy), revisitaEnabled, initialId, nowMs).revisita.Enabled()
    ensures BuildNote(f, actions, IsStudy(actions, initialWasStudy), revisitaEnabled, initialId, nowMs).estudo.value.Enabled()
  {
  }
}
