/** The institution modal: three fields that are cleared when it opens for a
    new institution and loaded when it opens on an existing one, and a
    submit that hands the fields to the page once name and contact are set. */
module InstitutionModal {
  import opened Common
  import opened InstitutionTypes

  const IncompleteMessage := "Por favor, complete el nombre y el contacto."

  /** `isEditMode`: the modal was opened on an existing record. */
  predicate IsEditMode(data: Option<Institution>)
  {
    data.Some?
  }

  datatype SubmitEffect = Alert(message: string) | Save(form: InstitutionForm, id: Option<int>)

  /** `handleSubmit`: `onSave({name, contact, type}, id)` with the record's id
      in edit mode and `null` otherwise, once name and contact are non-empty. */
  function HandleSubmit(name: string, contact: string, serviceType: string, data: Option<Institution>): (e: SubmitEffect)
    ensures e.Save? <==> name != "" && contact != ""
    ensures e.Alert? ==> e.message == IncompleteMessage
    ensures e.Save? ==> e.form == InstitutionForm(name, contact, serviceType)
    ensures e.Save? ==> (e.id.Some? <==> IsEditMode(data)) && (e.id.Some? ==> e.id.value == data.value.id)
  {
    if name == "" || contact == "" then Alert(IncompleteMessage)
    else Save(InstitutionForm(name, contact, serviceType), if data.Some? then Some(data.value.id) else None)
  }

  /** The modal's three field states. */
  class InstitutionModal {
    var name: string
    var contact: string
    var serviceType: string

    constructor ()
      ensures name == "" && contact == "" && serviceType == ""
    {
      name, contact, serviceType := "", "", "";
    }

    /** The effect that runs when the modal opens or its record changes:
        nothing while closed; cleared fields for a new institution; the
        record's fields in edit mode (every field of a page record is a
        string, so the `|| ""` fallback yields the field itself). */
    method OnOpen(isOpen: bool, data: Option<Institution>)
      modifies this
      ensures !isOpen ==> name == old(name) && contact == old(contact) && serviceType == old(serviceType)
      ensures isOpen && !IsEditMode(data) ==> name == "" && contact == "" && serviceType == ""
      ensures isOpen && IsEditMode(data) ==>
        name == data.value.name && contact == data.value.contact && serviceType == data.value.serviceType
    {
      if isOpen {
        if IsEditMode(data) {
          name, contact, serviceType := data.value.name, data.value.contact, data.value.serviceType;
        } else {
          name, contact, serviceType := "", "", "";
        }
      }
    }

    /** Typing into one of the inputs. */
    method SetName(value: string)
      modifies this
      ensures name == value && contact == old(contact) && serviceType == old(serviceType)
    {
      name := value;
    }

    method SetContact(value: string)
      modifies this
      ensures contact == value && name == old(name) && serviceType == old(serviceType)
    {
      contact := value;
    }

    method SetServiceType(value: string)
      modifies this
      ensures serviceType == value && name == old(name) && contact == old(contact)
    {
      serviceType := value;
    }
  }
}
