/** The dialog controller of context/ConfirmProvider.tsx: a yes/no
    confirmation and the "ressalva" question with its three check boxes.
    Each request hands out a pending promise; the buttons settle the pending
    one and close the dialog. Promises are named by a request number. */
module Confirm {
  import opened Wrappers

  datatype Variant = Primary | Secondary | Destructive

  /** The texts a confirmation may override. */
  datatype ConfirmOptions = ConfirmOptions(
    title: Option<string>, message: Option<string>,
    confirmText: Option<string>, cancelText: Option<string>, confirmVariant: Option<Variant>)

  /** The texts a ressalva question may override. */
  datatype RessalvaOptions = RessalvaOptions(
    title: Option<string>, periodLabel: Option<string>,
    confirmText: Option<string>, cancelText: Option<string>)

  /** What the dialog shows. */
  datatype Mode =
    | NoDialog
    | ConfirmMode(confirmOptions: ConfirmOptions)
    | RessalvaMode(ressalvaOptions: RessalvaOptions)

  /** The value a ressalva promise settles with. */
  datatype RessalvaResult = RessalvaResult(
    includeHours: bool, pioneiro: bool, missionario: bool, testemunhoPublico: bool, answeredYes: bool)

  /** The value a promise settles with: a boolean for a confirmation, a
      `RessalvaResult` for a ressalva question. */
  datatype Answer = ConfirmAnswer(yes: bool) | RessalvaAnswer(result: RessalvaResult)

  /** A settled promise: which request, with what value. */
  datatype Resolution = Resolution(request: nat, answer: Answer)

  /** The answer of the cancel button in a mode: `false` for a confirmation,
      everything off and not answered yes for a ressalva question, none when
      no dialog is open. */
  function CancelAnswer(mode: Mode): (r: Option<Answer>)
    ensures r.None? <==> mode.NoDialog?
    ensures mode.ConfirmMode? ==> r == Some(ConfirmAnswer(false))
    ensures mode.RessalvaMode? ==> r.Some? && r.value.RessalvaAnswer?
    ensures mode.RessalvaMode? ==>
      var a := r.value.result;
      !a.includeHours && !a.pioneiro && !a.missionario && !a.testemunhoPublico && !a.answeredYes
  {
    match mode
    case NoDialog => None
    case ConfirmMode(_) => Some(ConfirmAnswer(false))
    case RessalvaMode(_) => Some(RessalvaAnswer(RessalvaResult(false, false, false, false, false)))
  }

  /** The answer of the confirm button in a mode: `true` for a confirmation;
      for a ressalva question the three boxes as ticked, hours included
      exactly when "pioneiro" or "missionário" is ticked, and answered yes. */
  function ConfirmAnswerOf(mode: Mode, pioneiro: bool, missionario: bool, testemunhoPublico: bool): (r: Option<Answer>)
    ensures r.None? <==> mode.NoDialog?
    ensures mode.ConfirmMode? ==> r == Some(ConfirmAnswer(true))
    ensures mode.RessalvaMode? ==> r.Some? && r.value.RessalvaAnswer?
    ensures mode.RessalvaMode? ==>
      var a := r.value.result;
      && (a.includeHours <==> pioneiro || missionario)
      && a.pioneiro == pioneiro && a.missionario == missionario
      && a.testemunhoPublico == testemunhoPublico && a.answeredYes
  {
    match mode
    case NoDialog => None
    case ConfirmMode(_) => Some(ConfirmAnswer(true))
    case RessalvaMode(_) =>
      Some(RessalvaAnswer(RessalvaResult(pioneiro || missionario, pioneiro, missionario, testemunhoPublico, true)))
  }

  /** "Testemunho público" never decides whether the hours are included. */
  lemma TestemunhoDoesNotIncludeHours(o: RessalvaOptions, p: bool, m: bool)
    ensures ConfirmAnswerOf(RessalvaMode(o), p, m, true).value.result.includeHours
        == ConfirmAnswerOf(RessalvaMode(o), p, m, false).value.result.includeHours
    ensures !p && !m ==> !ConfirmAnswerOf(RessalvaMode(o), p, m, true).value.result.includeHours
  {
  }

  /** The two buttons never give the same answer to an open dialog. */
  lemma ButtonsDiffer(mode: Mode, p: bool, m: bool, t: bool)
    requires !mode.NoDialog?
    ensures CancelAnswer(mode) != ConfirmAnswerOf(mode, p, m, t)
  {
  }

  class ConfirmProvider {
    var visible: bool
    var mode: Mode
    var pioneiro: bool
    var missionario: bool
    var testemunhoPublico: bool
    /** The pending promise, if any (`resolverRef.current`). */
    var resolver: Option<nat>
    /** How many requests were made; the next request gets this number. */
    var requests: nat

    /** The dialog is shown exactly while a mode is set and a promise is
        pending, and every pending promise is one that was handed out. */
    ghost predicate Valid()
      reads this
    {
      && (visible <==> !mode.NoDialog?)
      && (visible <==> resolver.Some?)
      && (resolver.Some? ==> resolver.value < requests)
    }

    /** The closed dialog. */
    ghost predicate Closed()
      reads this
    {
      !visible && mode.NoDialog? && !pioneiro && !missionario && !testemunhoPublico && resolver.None?
    }

    constructor ()
      ensures Closed() && Valid() && requests == 0
    {
      visible := false;
      mode := NoDialog;
      pioneiro := false;
      missionario := false;
      testemunhoPublico := false;
      resolver := None;
      requests := 0;
    }

    /** `close`: hides the dialog, clears the mode and the boxes and drops
        the pending promise. */
    method Close()
      modifies this
      ensures Closed() && Valid() && requests == old(requests)
    {
      visible := false;
      mode := NoDialog;
      pioneiro := false;
      missionario := false;
      testemunhoPublico := false;
      resolver := None;
    }

    /** `confirm`: a new pending promise replaces any earlier one (which is
        then never settled) and the confirmation is shown. */
    method RequestConfirm(opts: ConfirmOptions) returns (request: nat)
      modifies this
      requires Valid()
      ensures Valid()
      ensures request == old(requests) && requests == old(requests) + 1
      ensures resolver == Some(request) && visible && mode == ConfirmMode(opts)
      ensures pioneiro == old(pioneiro) && missionario == old(missionario)
      ensures testemunhoPublico == old(testemunhoPublico)
    {
      request := requests;
      requests := requests + 1;
      resolver := Some(request);
      mode := ConfirmMode(opts);
      visible := true;
    }

    /** `askRessalva`: likewise, for the ressalva question. */
    method AskRessalva(opts: RessalvaOptions) returns (request: nat)
      modifies this
      requires Valid()
      ensures Valid()
      ensures request == old(requests) && requests == old(requests) + 1
      ensures resolver == Some(request) && visible && mode == RessalvaMode(opts)
      ensures pioneiro == old(pioneiro) && missionario == old(missionario)
      ensures testemunhoPublico == old(testemunhoPublico)
    {
      request := requests;
      requests := requests + 1;
      resolver := Some(request);
      mode := RessalvaMode(opts);
      visible := true;
    }

    /** The check boxes of the ressalva question. */
    method SetPioneiro(v: bool)
      modifies this
      requires Valid()
      ensures Valid() && pioneiro == v
      ensures visible == old(visible) && mode == old(mode) && resolver == old(resolver) && requests == old(requests)
      ensures missionario == old(missionario) && testemunhoPublico == old(testemunhoPublico)
    {
      pioneiro := v;
    }

    method SetMissionario(v: bool)
      modifies this
      requires Valid()
      ensures Valid() && missionario == v
      ensures visible == old(visible) && mode == old(mode) && resolver == old(resolver) && requests == old(requests)
      ensures pioneiro == old(pioneiro) && testemunhoPublico == old(testemunhoPublico)
    {
      missionario := v;
    }

    method SetTestemunhoPublico(v: bool)
      modifies this
      requires Valid()
      ensures Valid() && testemunhoPublico == v
      ensures visible == old(visible) && mode == old(mode) && resolver == old(resolver) && requests == old(requests)
      ensures pioneiro == old(pioneiro) && missionario == old(missionario)
    {
      testemunhoPublico := v;
    }

    /** `onCancel`: with a dialog open, settles the pending promise with the
        cancel answer and closes; with none, changes nothing. */
    method OnCancel() returns (settled: Option<Resolution>)
      modifies this
      requires Valid()
      ensures Valid() && requests == old(requests)
      ensures old(mode).NoDialog? ==> settled.None? && unchanged(this)
      ensures !old(mode).NoDialog? ==>
        && settled == Some(Resolution(old(resolver).value, CancelAnswer(old(mode)).value))
        && Closed()
    {
      var answer := CancelAnswer(mode);
      if answer.None? {
        settled := None;
      } else {
        settled := Some(Resolution(resolver.value, answer.value));
        Close();
      }
    }

    /** `onConfirm`: with a dialog open, settles the pending promise with the
        confirm answer, read from the boxes as they are, and closes; with
        none, changes nothing. */
    method OnConfirm() returns (settled: Option<Resolution>)
      modifies this
      requires Valid()
      ensures Valid() && requests == old(requests)
      ensures old(mode).NoDialog? ==> settled.None? && unchanged(this)
      ensures !old(mode).NoDialog? ==>
        && settled == Some(Resolution(old(resolver).value,
             ConfirmAnswerOf(old(mode), old(pioneiro), old(missionario), old(testemunhoPublico)).value))
        && Closed()
    {
      var answer := ConfirmAnswerOf(mode, pioneiro, missionario, testemunhoPublico);
      if answer.None? {
        settled := None;
      } else {
        settled := Some(Resolution(resolver.value, answer.value));
        Close();
      }
    }
  }

  /** A ressalva question answered with "pioneiro" ticked settles its own
      promise with the hours included; the dialog is closed afterwards. */
  method RessalvaScenario(opts: RessalvaOptions) returns (settled: Option<Resolution>, request: nat)
    ensures settled.Some? && settled.value.request == request
    ensures settled.value.answer.RessalvaAnswer?
    ensures settled.value.answer.result.includeHours && settled.value.answer.result.answeredYes
    ensures !settled.value.answer.result.missionario
  {
    var dialog := new ConfirmProvider();
    request := dialog.AskRessalva(opts);
    dialog.SetPioneiro(true);
    settled := dialog.OnConfirm();
    assert dialog.Closed();
  }
}
