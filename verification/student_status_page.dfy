/** The student's status page: a seven-step timeline whose active step
    follows the request's status, and the request's history shown newest
    first. */
module StudentStatusPage {
  import SolicitudContext

  /** The names of the seven timeline steps, in order (step i is at index i - 1). */
  const TimelineSteps: seq<string> :=
    ["Datos Personales", "Institución", "Objetivos", "Documentos", "Enviado", "En Revisión", "Aprobado"]

  /** `getActiveStepIndex`. */
  function ActiveStepIndex(status: string): (r: nat)
    ensures 5 <= r <= 7
    ensures r == 7 <==> status == "Aprobado"
    ensures r == 6 <==> status == "En Revisión" || status == "Observado"
  {
    if status == "Aprobado" then 7
    else if status == "En Revisión" || status == "Observado" then 6
    else 5
  }

  /** How one step is drawn. */
  datatype StepMarks = StepMarks(completed: bool, active: bool, warning: bool)

  /** The marks of step `stepIndex` (1-based) for a request status. */
  function Marks(status: string, stepIndex: nat): StepMarks
    requires 1 <= stepIndex <= |TimelineSteps|
  {
    var active := ActiveStepIndex(status);
    StepMarks(
      completed := stepIndex < active,
      active := stepIndex == active,
      warning := status == "Observado" && TimelineSteps[stepIndex - 1] == "En Revisión")
  }

  /** Exactly one step is active; every step before it is completed and no
      step after it is completed or active. */
  lemma OneActiveStep(status: string)
    ensures exists k :: 1 <= k <= 7 && Marks(status, k).active
    ensures forall k, j :: 1 <= k <= 7 && 1 <= j <= 7 && Marks(status, k).active ==>
      && (j < k ==> Marks(status, j).completed && !Marks(status, j).active)
      && (j > k ==> !Marks(status, j).completed && !Marks(status, j).active)
    ensures forall k :: 1 <= k <= 7 ==> !(Marks(status, k).completed && Marks(status, k).active)
  {
    assert Marks(status, ActiveStepIndex(status)).active;
  }

  /** The warning mark appears only on the "En Revisión" step of an
      `Observado` request, and that step is then the active one. */
  lemma WarningOnlyOnReview(status: string, k: nat)
    requires 1 <= k <= 7 && Marks(status, k).warning
    ensures status == "Observado" && k == 6 && Marks(status, k).active
  {
    assert TimelineSteps[5] == "En Revisión";
    assert forall j :: 0 <= j < 7 && j != 5 ==> TimelineSteps[j] != "En Revisión";
  }

  /** `history.slice().reverse()`: a reversed copy, the list itself is a value
      and stays as it was. */
  function NewestFirst(history: seq<SolicitudContext.HistoryEntry>): (r: seq<SolicitudContext.HistoryEntry>)
    ensures |r| == |history|
    ensures forall k :: 0 <= k < |r| ==> r[k] == history[|history| - 1 - k]
    decreases |history|
  {
    if history == [] then [] else [history[|history| - 1]] + NewestFirst(history[..|history| - 1])
  }

  /** A status change shows its entry at the top of the page. */
  lemma LatestEntryOnTop(history: seq<SolicitudContext.HistoryEntry>, e: SolicitudContext.HistoryEntry)
    ensures NewestFirst(history + [e])[0] == e
    ensures NewestFirst(history + [e])[1..] == NewestFirst(history)
  {
    var r := NewestFirst(history + [e]);
    assert forall k :: 0 <= k < |history| ==> r[1..][k] == NewestFirst(history)[k];
  }
}
