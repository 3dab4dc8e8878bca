/** The records shared by the pages (types/index.ts). */
module Types {
  import opened Wrappers

  /** The closed set of availability labels a doctor can carry. */
  datatype AvailabilityStatus = AvailableToday | AvailableTomorrow | FullyBooked

  /** The label as the TypeScript string literal spells it. */
  function AvailabilityText(a: AvailabilityStatus): string
  {
    match a
    case AvailableToday => "Available Today"
    case AvailableTomorrow => "Available Tomorrow"
    case FullyBooked => "Fully Booked"
  }

  /** A doctor of the directory. `rating` is a JavaScript number; only its
      presence is modelled. */
  datatype Doctor = Doctor(
    id: int,
    name: string,
    specialization: string,
    profileImage: string,
    availability: AvailabilityStatus,
    schedule: seq<string>,
    experience: string,
    rating: real,
    location: string,
    about: string)

  /** The two inputs of the confirmation form. */
  datatype PatientFormData = PatientFormData(patientName: string, email: string)

  /** One message per form field; the empty string means "no error". */
  datatype FormErrors = FormErrors(patientName: string, email: string)

  /** The keys of PatientFormData and FormErrors (`keyof PatientFormData`). */
  datatype FormField = PatientName | Email

  /** What the booking confirmation carries between pages. No modelled
      operation builds one: the confirmation page reads these values from
      its query parameters one by one, and the record is kept to mirror the
      declarations of types/index.ts. */
  datatype AppointmentDetails = AppointmentDetails(
    doctorId: int,
    doctorName: string,
    patientName: string,
    email: string,
    appointmentDate: string,
    appointmentTime: string,
    slot: string)

  /** Whether a page is waiting on its data source, and the last error it saw. */
  datatype LoadingState = LoadingState(isLoading: bool, error: Option<string>)

  const NoErrors := FormErrors("", "")

  function FormValue(f: PatientFormData, field: FormField): string
  {
    match field
    case PatientName => f.patientName
    case Email => f.email
  }

  function ErrorFor(e: FormErrors, field: FormField): string
  {
    match field
    case PatientName => e.patientName
    case Email => e.email
  }

  /** `{ ...prev, [field]: value }` on the form data. */
  function WithValue(f: PatientFormData, field: FormField, value: string): (r: PatientFormData)
    ensures FormValue(r, field) == value
    ensures forall other :: other != field ==> FormValue(r, other) == FormValue(f, other)
  {
    match field
    case PatientName => f.(patientName := value)
    case Email => f.(email := value)
  }

  /** `{ ...prev, [field]: message }` on the error record. */
  function WithError(e: FormErrors, field: FormField, message: string): (r: FormErrors)
    ensures ErrorFor(r, field) == message
    ensures forall other :: other != field ==> ErrorFor(r, other) == ErrorFor(e, other)
  {
    match field
    case PatientName => e.(patientName := message)
    case Email => e.(email := message)
  }
}
