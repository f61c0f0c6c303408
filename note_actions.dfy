/** The fixed vocabulary of action tags of constants/noteActions.ts. */
module NoteActions {

  const A_ENTREGOU: string := "Entregou publicações em mãos para o morador"
  const A_DEIXOU_CARTA: string := "Deixou carta na caixinha da casa do morador"
  const A_DEIXOU_PUB_SEM_FALAR: string :=
    "Deixou publicação na casa do morador porém não falou com ele (Caixinha)"
  const A_ABRIU_ESTUDO: string := "Abriu estudo com morador"
  const A_REV_1: string := "Primeira Revisita"
  const A_REV_2: string := "Segunda Revisita"
  const A_NAO_QUER_ESTUDO: string := "Morador não quer mais o estudo"
  const A_REV_1_SF: string := "Primeira Revisita (Considerando Revista \"Seja Feliz para Sempre\")"
  const A_REV_2_SF: string := "Segunda Revisita (Considerando Revista \"Seja Feliz para Sempre\")"

  /** The nine tags offered by the note form, in display order. */
  const ACTIONS_ALL: seq<string> := [
    A_ENTREGOU, A_DEIXOU_CARTA, A_DEIXOU_PUB_SEM_FALAR, A_ABRIU_ESTUDO,
    A_REV_1, A_REV_2, A_NAO_QUER_ESTUDO, A_REV_1_SF, A_REV_2_SF
  ]

  /** The tags that switch the revisit section on. */
  const REVISITA_ACTIONS: set<string> := {A_REV_1, A_REV_2, A_REV_1_SF, A_REV_2_SF}

  /** The two "third revisit" tags the note form imports. The constants module
      does not define them, so their text is unknown; these stand-in values
      only have to differ from the nine tags above and from each other. */
  const A_REV_3_ESTUDO: string := "A_REV_3_ESTUDO"
  const A_REV_3_ESTUDO_SF: string := "A_REV_3_ESTUDO_SF"

  predicate IsThirdRevisit(tag: string)
  {
    tag == A_REV_3_ESTUDO || tag == A_REV_3_ESTUDO_SF
  }

  /** The vocabulary is nine pairwise distinct tags. */
  lemma ActionsAllDistinct()
    ensures |ACTIONS_ALL| == 9
    ensures forall i, j :: 0 <= i < j < |ACTIONS_ALL| ==> ACTIONS_ALL[i] != ACTIONS_ALL[j]
  {
  }

  /** The revisit set holds exactly the four revisit tags, all offered by the
      form; "Abriu estudo" is offered but is not a revisit tag. */
  lemma RevisitaActionsWithinVocabulary()
    ensures |REVISITA_ACTIONS| == 4
    ensures forall t :: t in REVISITA_ACTIONS ==> t in ACTIONS_ALL
    ensures A_ABRIU_ESTUDO in ACTIONS_ALL && A_ABRIU_ESTUDO !in REVISITA_ACTIONS
  {
  }

  /** The third-revisit tags are outside the vocabulary, outside the revisit
      set, distinct from "Abriu estudo" and from each other. */
  lemma ThirdRevisitTagsAreExtra()
    ensures A_REV_3_ESTUDO != A_REV_3_ESTUDO_SF
    ensures forall t :: IsThirdRevisit(t) ==>
      t !in ACTIONS_ALL && t !in REVISITA_ACTIONS && t != A_ABRIU_ESTUDO
  {
  }
}
