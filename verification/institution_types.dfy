/** The records shared by the institutions page and its modal. */
module InstitutionTypes {

  /** A row of the institutions page (`type` is the service type). */
  datatype Institution = Institution(id: int, name: string, contact: string, serviceType: string, status: string)

  /** The payload the modal hands to `onSave`: exactly these three members. */
  datatype InstitutionForm = InstitutionForm(name: string, contact: string, serviceType: string)
}
