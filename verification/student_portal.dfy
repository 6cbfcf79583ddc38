/** The student portal: a four-step submission wizard over a form, shown
    until the student has a request, and the status page afterwards. */
module StudentPortal {
  import opened Common
  import SolicitudContext
  import StudentStatusPage

  type FormData = SolicitudContext.FormData

  const IncompleteMessage := "Por favor, complete al menos la institución y el objetivo general."
  const SubmittedMessage := "¡Solicitud enviada con éxito!"
  const StepCount := 4

  /** The wizard's form when it opens. */
  const InitialFormData: FormData := map[
    "nombre" := "Justin Montoya",
    "cedula" := "1-1234-5678",
    "carrera" := "",
    "institucion" := "",
    "justificacion" := "",
    "objetivoGeneral" := "",
    "objetivosEspecificos" := ""]

  /** The guard of the final step: both members present and non-empty. */
  predicate ReadyToSubmit(form: FormData)
  {
    SolicitudContext.FormHas(form, "objetivoGeneral") && SolicitudContext.FormHas(form, "institucion")
  }

  /** What a press of "Siguiente" / "Finalizar y Enviar" did. */
  datatype NextOutcome = Advanced | Alerted(message: string) | Submitted(message: string)

  /** The wizard component: its step and its form. */
  class StudentWizard {
    var currentStep: int
    var formData: FormData

    ghost predicate Valid()
      reads this
    {
      1 <= currentStep <= StepCount
    }

    constructor ()
      ensures Valid() && currentStep == 1 && formData == InitialFormData
    {
      currentStep, formData := 1, InitialFormData;
    }

    /** `handleChange`: sets the named member and nothing else. */
    method HandleChange(name: string, value: string)
      modifies this
      ensures currentStep == old(currentStep)
      ensures name in formData && formData[name] == value
      ensures formData.Keys == old(formData).Keys + {name}
      ensures forall k :: k in old(formData) && k != name ==> formData[k] == old(formData)[k]
    {
      formData := formData[name := value];
    }

    /** `handleNext`: advances below the last step; at the last step it
        submits the form to the store when both required members are set. */
    method HandleNext(store: SolicitudContext.SolicitudStore, draw: nat, today: string, now: string)
      returns (outcome: NextOutcome)
      requires Valid()
      requires draw < 90000
      modifies this, store
      ensures Valid()
      ensures formData == old(formData)
      ensures old(currentStep) < StepCount ==>
        currentStep == old(currentStep) + 1 && outcome == Advanced && store.solicitudes == old(store.solicitudes)
      ensures old(currentStep) == StepCount && !ReadyToSubmit(formData) ==>
        currentStep == StepCount && outcome == Alerted(IncompleteMessage) && store.solicitudes == old(store.solicitudes)
      ensures old(currentStep) == StepCount && ReadyToSubmit(formData) ==>
        && currentStep == StepCount && outcome == Submitted(SubmittedMessage)
        && store.solicitudes == [SolicitudContext.NewSolicitud(formData, draw, today, now)] + old(store.solicitudes)
    {
      if currentStep < StepCount {
        currentStep := currentStep + 1;
        return Advanced;
      }
      if !ReadyToSubmit(formData) {
        return Alerted(IncompleteMessage);
      }
      store.AddSolicitud(formData, draw, today, now);
      outcome := Submitted(SubmittedMessage);
    }

    /** `handleBack`: one step back, nothing at the first step. */
    method HandleBack()
      requires Valid()
      modifies this
      ensures Valid()
      ensures formData == old(formData)
      ensures currentStep == if old(currentStep) > 1 then old(currentStep) - 1 else 1
    {
      if currentStep > 1 {
        currentStep := currentStep - 1;
      }
    }
  }

  /** The wizard's step indicator: step `stepIndex` is completed, active, or
      neither, never both. */
  function WizardStepMarks(stepIndex: int, currentStep: int): (m: (bool, bool))
    ensures !(m.0 && m.1)
    ensures m.1 <==> stepIndex == currentStep
    ensures m.0 <==> stepIndex < currentStep
  {
    (stepIndex < currentStep, stepIndex == currentStep)
  }

  datatype PortalView = StatusPage(solicitud: SolicitudContext.Solicitud) | Wizard

  /** `StudentPortal`: the status page of the student's request when there
      is one, the wizard otherwise. */
  function ViewOf(solicitudes: seq<SolicitudContext.Solicitud>): (v: PortalView)
    ensures v.StatusPage? <==> SolicitudContext.FirstOwnedBy(solicitudes, SolicitudContext.CurrentUser).Some?
    ensures v.StatusPage? ==> v.solicitud.owner == SolicitudContext.CurrentUser
    ensures v.StatusPage? ==> SolicitudContext.FirstOwnedBy(solicitudes, SolicitudContext.CurrentUser) == Some(v.solicitud)
  {
    match SolicitudContext.FirstOwnedBy(solicitudes, SolicitudContext.CurrentUser)
    case Some(s) => StatusPage(s)
    case None => Wizard
  }

  /** After a successful submission the portal shows the status page of the
      new request, at the "Enviado" step. */
  lemma SubmissionShowsStatus(solicitudes: seq<SolicitudContext.Solicitud>, form: FormData, draw: nat, today: string, now: string)
    requires ReadyToSubmit(form) && draw < 90000
    ensures var s := SolicitudContext.NewSolicitud(form, draw, today, now);
      && ViewOf([s] + solicitudes) == StatusPage(s)
      && StudentStatusPage.ActiveStepIndex(s.status) == 5
  {
    SolicitudContext.AddedIsMine(solicitudes, form, draw, today, now);
  }
}
