/** The review modal: shows one request and, while it can still be decided,
    offers return, reject and approve; returning and rejecting need an
    observation, approving does not. */
module SolicitudModal {
  import opened Common
  import SolicitudContext

  const ReturnNeedsObservation := "Por favor, escriba una observación para devolver la solicitud."
  const RejectNeedsObservation := "Por favor, justifique el rechazo en las observaciones."
  const DefaultApproval := "Aprobado sin comentarios."

  /** What pressing a decision button does. */
  datatype Effect = Alert(message: string) | OnReturn(observation: string) | OnReject(observation: string) | OnApprove(observation: string)

  /** `handleReturn`. */
  function HandleReturn(observation: string): (e: Effect)
    ensures e.OnReturn? <==> observation != ""
    ensures e.OnReturn? ==> e.observation == observation
    ensures !e.OnReturn? ==> e == Alert(ReturnNeedsObservation)
  {
    if observation == "" then Alert(ReturnNeedsObservation) else OnReturn(observation)
  }

  /** `handleReject`. */
  function HandleReject(observation: string): (e: Effect)
    ensures e.OnReject? <==> observation != ""
    ensures e.OnReject? ==> e.observation == observation
    ensures !e.OnReject? ==> e == Alert(RejectNeedsObservation)
  {
    if observation == "" then Alert(RejectNeedsObservation) else OnReject(observation)
  }

  /** `handleApprove`: always approves, never with an empty observation. */
  function HandleApprove(observation: string): (e: Effect)
    ensures e.OnApprove? && e.observation != ""
    ensures observation != "" ==> e.observation == observation
    ensures observation == "" ==> e.observation == DefaultApproval
  {
    OnApprove(if observation != "" then observation else DefaultApproval)
  }

  /** The statuses a reviewer can still decide. */
  predicate ShowsDecisions(status: string)
  {
    status == "Enviado" || status == "Observado" || status == "En Revisión" || status == "Open"
  }

  /** The `readOnly` attribute of the observation field. */
  predicate ObservationReadOnly(status: string)
  {
    status != "Enviado" && status != "Observado" && status != "En Revisión" && status != "Open"
  }

  datatype View = Hidden | Shown(decisions: bool, readOnly: bool)

  /** What the modal renders: nothing unless open with a request; otherwise
      either the three decisions with an editable observation, or only
      "Cerrar" with a read-only one. */
  function Render(isOpen: bool, data: Option<SolicitudContext.Solicitud>): (v: View)
    ensures v.Hidden? <==> !isOpen || data.None?
    ensures v.Shown? ==> v.decisions == ShowsDecisions(data.value.status)
    ensures v.Shown? ==> v.readOnly == !v.decisions
  {
    if !isOpen || data.None? then Hidden
    else Shown(ShowsDecisions(data.value.status), ObservationReadOnly(data.value.status))
  }
}
