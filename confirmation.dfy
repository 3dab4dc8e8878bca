/** The booking confirmation page (app/confirmation/page.tsx): the query
    parameters it is opened with, the patient form, its validation, and the
    submission that ends confirmed or failed. */
module Confirmation {
  import opened Wrappers
  import opened Text
  import opened Types
  import ValidationUtils

  const PatientNameRequired := "Patient name is required"
  const EmailRequired := "Email is required"
  const EmailInvalid := "Please enter a valid email address"
  const BookingUnavailable := "Booking service temporarily unavailable"
  const BookingFallback := "Failed to book appointment"

  /** `searchParams.get(key) || ""`: a missing parameter reads as empty. */
  function Param(query: map<string, string>, key: string): (r: string)
    ensures key in query ==> r == query[key]
    ensures key !in query ==> r == ""
  {
    if key in query then query[key] else ""
  }

  /** The page's own `validateEmail`: the email pattern tested on the
      string as typed, without trimming. */
  function PageEmailValid(email: string): (r: bool)
    ensures r <==> ValidationUtils.EmailShape(email)
  {
    ValidationUtils.EmailPatternMatches(email)
  }

  /** The page's email check is the shared validator restricted to strings
      that carry no blank padding. */
  lemma PageEmailIsUntrimmedValidator(s: string)
    ensures PageEmailValid(s) <==> ValidationUtils.ValidateEmail(s) && Trim(s) == s
  {
    if ValidationUtils.EmailShape(s) {
      ValidationUtils.EmailShapeEnds(s);
      TrimOfTrimmed(s);
    }
  }

  /** A well-formed address with blank padding in front passes the shared
      validator but fails the page's own check. */
  lemma PaddedAddressSplitsTheChecks(pad: string, s: string)
    requires pad != [] && IsBlank(pad) && ValidationUtils.EmailShape(s)
    ensures ValidationUtils.ValidateEmail(pad + s)
    ensures !PageEmailValid(pad + s)
  {
    var w := pad + s;
    assert w == pad + s + "";
    TrimIgnoresPadding(pad, s, "");
    PageEmailIsUntrimmedValidator(s);
    if ValidationUtils.EmailShape(w) {
      ValidationUtils.EmailShapeEnds(w);
    }
  }

  /** The errors `validateForm` computes for the current form data: one
      of a fixed set of messages per field. A field counts as empty when it
      is blank, which is when its trimmed value is the empty string. */
  function FormErrorsFor(f: PatientFormData): (e: FormErrors)
    ensures e.patientName == "" || e.patientName == PatientNameRequired
    ensures e.email == "" || e.email == EmailRequired || e.email == EmailInvalid
  {
    var nameError := if IsBlank(f.patientName) then PatientNameRequired else "";
    var emailError :=
      if IsBlank(f.email) then EmailRequired
      else if !PageEmailValid(f.email) then EmailInvalid
      else "";
    FormErrors(nameError, emailError)
  }

  /** When each message of `validateForm` appears: the name is required,
      the email is required, and the email is checked untrimmed. */
  lemma FormErrorsMeaning(f: PatientFormData)
    ensures FormErrorsFor(f).patientName == PatientNameRequired <==> IsBlank(f.patientName)
    ensures FormErrorsFor(f).patientName == "" <==> !IsBlank(f.patientName)
    ensures FormErrorsFor(f).email == EmailRequired <==> IsBlank(f.email)
    ensures FormErrorsFor(f).email == EmailInvalid <==> !IsBlank(f.email) && !ValidationUtils.EmailShape(f.email)
    ensures FormErrorsFor(f).email == "" <==> !IsBlank(f.email) && ValidationUtils.EmailShape(f.email)
    ensures FormErrorsFor(f) == NoErrors <==> !IsBlank(f.patientName) && ValidationUtils.EmailShape(f.email)
  {
  }

  /** The three example forms: both fields empty, both fields good, and a
      good name with a malformed email. */
  lemma ValidationExamples()
    ensures FormErrorsFor(PatientFormData("", "")) == FormErrors(PatientNameRequired, EmailRequired)
    ensures FormErrorsFor(PatientFormData("Jane Doe", "jane@example.com")) == NoErrors
    ensures FormErrorsFor(PatientFormData("Jane", "not-an-email")) == FormErrors("", EmailInvalid)
  {
    GoodAddressExample();
    MalformedAddressExample();
    assert !IsWhitespace("Jane Doe"[0]) && !IsWhitespace("Jane"[0]);
    FormErrorsMeaning(PatientFormData("", ""));
    FormErrorsMeaning(PatientFormData("Jane Doe", "jane@example.com"));
    FormErrorsMeaning(PatientFormData("Jane", "not-an-email"));
  }

  lemma GoodAddressExample()
    ensures !IsBlank("jane@example.com") && ValidationUtils.EmailShape("jane@example.com")
  {
    var good := "jane@example.com";
    assert good[..4] == "jane" && good[5..] == "example.com";
    assert ValidationUtils.DotAt("example.com", 7);
    assert ValidationUtils.EmailSplitAt(good, 4);
    assert !IsWhitespace(good[0]);
  }

  lemma MalformedAddressExample()
    ensures !IsBlank("not-an-email") && !ValidationUtils.EmailShape("not-an-email")
  {
    var bad := "not-an-email";
    assert !IsWhitespace(bad[0]);
    assert forall k :: 0 <= k < |bad| ==> bad[k] != '@';
  }

  /** The page accepts exactly the names the shared required check
      accepts, so the stricter name rule (letters and blanks, at least two)
      is not applied on this page: a one-letter name passes here and fails
      there. */
  lemma PageNameCheckIsRequiredOnly(f: PatientFormData)
    ensures FormErrorsFor(f).patientName == "" <==> ValidationUtils.ValidateFormField("Patient name", f.patientName).isValid
    ensures ValidationUtils.ValidateFormField("patientName", f.patientName).isValid ==> FormErrorsFor(f).patientName == ""
    ensures f.patientName == "J" ==>
      FormErrorsFor(f).patientName == "" && !ValidationUtils.ValidateFormField("patientName", f.patientName).isValid
  {
    FieldNamesUsed();
    if f.patientName == "J" {
      TrimOfTrimmed("J");
    }
  }

  /** Which rule each field name used here selects. */
  lemma FieldNamesUsed()
    ensures !ValidationUtils.IsEmailField("Patient name") && !ValidationUtils.IsNameField("Patient name")
    ensures ValidationUtils.IsNameField("patientName") && !ValidationUtils.IsEmailField("patientName")
    ensures ValidationUtils.IsEmailField("email") && !ValidationUtils.IsNameField("email")
  {
    assert ToLower("Patient name") == "patient name";
    assert ToLower("patientName") == "patientname";
    assert ToLower("email") == "email";
  }

  /** The page's email verdict implies the shared validator's, and the two
      agree on every address without blank padding. */
  lemma PageEmailCheckAgainstUtility(f: PatientFormData)
    ensures FormErrorsFor(f).email == "" ==> ValidationUtils.ValidateFormField("email", f.email).isValid
    ensures Trim(f.email) == f.email ==>
      (FormErrorsFor(f).email == "" <==> ValidationUtils.ValidateFormField("email", f.email).isValid)
  {
    FieldNamesUsed();
    PageEmailIsUntrimmedValidator(f.email);
  }

  /** The simulated booking service: it resolves, or rejects with an
      `Error` whose message says the service is unavailable. The random
      draw that decides between them is the parameter. */
  function SimulatedBooking(succeeds: bool): (rejection: Option<Thrown>)
    ensures rejection == None <==> succeeds
    ensures rejection.Some? ==> CaughtMessage(rejection.value, BookingFallback) == BookingUnavailable
  {
    if succeeds then None else Some(ErrorObject(BookingUnavailable))
  }

  /** What the confirmed view shows. */
  datatype ConfirmedSummary = ConfirmedSummary(
    patientName: string,
    email: string,
    doctorName: string,
    appointmentDate: string,
    appointmentTime: string)

  class ConfirmationPage {
    const doctorName: string
    const appointmentDate: string
    const appointmentTime: string
    const slot: string

    var formData: PatientFormData
    var errors: FormErrors
    var isSubmitted: bool
    var loadingState: LoadingState

    /** The page as first rendered for the given query parameters. */
    constructor (searchParams: map<string, string>)
      ensures doctorName == Param(searchParams, "doctorName")
      ensures appointmentDate == Param(searchParams, "date")
      ensures appointmentTime == Param(searchParams, "time")
      ensures slot == Param(searchParams, "slot")
      ensures formData == PatientFormData("", "") && errors == NoErrors
      ensures !isSubmitted && loadingState == LoadingState(false, None)
    {
      doctorName := Param(searchParams, "doctorName");
      appointmentDate := Param(searchParams, "date");
      appointmentTime := Param(searchParams, "time");
      slot := Param(searchParams, "slot");
      formData := PatientFormData("", "");
      errors := NoErrors;
      isSubmitted := false;
      loadingState := LoadingState(false, None);
    }

    /** The redirect effect: the target it pushes, if any. The slot
        parameter is not consulted. */
    method RedirectGuard() returns (target: Option<string>)
      ensures target.Some? <==> doctorName == "" || appointmentDate == "" || appointmentTime == ""
      ensures target.Some? ==> target.value == "/"
    {
      if doctorName == "" || appointmentDate == "" || appointmentTime == "" {
        target := Some("/");
      } else {
        target := None;
      }
    }

    /** `validateForm`: replaces the whole error record and reports whether
        both fields passed. */
    method ValidateForm() returns (valid: bool)
      modifies this`errors
      ensures errors == FormErrorsFor(formData)
      ensures valid <==> errors == NoErrors
    {
      var newErrors := FormErrors("", "");
      if Trim(formData.patientName) == "" {
        newErrors := newErrors.(patientName := PatientNameRequired);
      }
      if Trim(formData.email) == "" {
        newErrors := newErrors.(email := EmailRequired);
      } else if !PageEmailValid(formData.email) {
        newErrors := newErrors.(email := EmailInvalid);
      }
      errors := newErrors;
      valid := newErrors.patientName == "" && newErrors.email == "";
    }

    /** `handleInputChange`: stores the new value and clears that field's
        error; the other field keeps its value and its error. */
    method HandleInputChange(field: FormField, value: string)
      modifies this`formData, this`errors
      ensures formData == WithValue(old(formData), field, value)
      ensures errors == WithError(old(errors), field, "")
    {
      formData := WithValue(formData, field, value);
      if ErrorFor(errors, field) != "" {
        errors := WithError(errors, field, "");
      }
    }

    /** The submit button is enabled only while no booking is in flight. */
    predicate SubmitEnabled(): (r: bool)
      reads this
      ensures r <==> !loadingState.isLoading
    {
      !loadingState.isLoading
    }

    /** The part of `handleSubmit` before the booking call: validate, and
        on success mark the booking as in flight with no error. */
    method StartSubmit() returns (attempt: bool)
      modifies this`errors, this`loadingState
      ensures errors == FormErrorsFor(formData)
      ensures attempt <==> errors == NoErrors
      ensures attempt ==> loadingState == LoadingState(true, None)
      ensures attempt ==> !SubmitEnabled()
      ensures !attempt ==> loadingState == old(loadingState)
    {
      attempt := ValidateForm();
      if attempt {
        loadingState := LoadingState(true, None);
      }
    }

    /** The part of `handleSubmit` after the booking call settles: a
        resolved call marks the page submitted and leaves the loading state
        as it is; a rejection ends loading and records its message. */
    method SettleBooking(rejection: Option<Thrown>)
      modifies this`isSubmitted, this`loadingState
      ensures rejection == None ==> isSubmitted && loadingState == old(loadingState)
      ensures rejection.Some? ==> SubmitEnabled()
      ensures rejection.Some? ==> isSubmitted == old(isSubmitted)
      ensures rejection.Some? ==>
        loadingState == LoadingState(false, Some(CaughtMessage(rejection.value, BookingFallback)))
    {
      match rejection
      case None =>
        isSubmitted := true;
      case Some(error) =>
        loadingState := LoadingState(false, Some(CaughtMessage(error, BookingFallback)));
    }

    /** `handleSubmit` with the simulated booking's outcome as input. An
        invalid form makes no booking attempt and keeps the loading state,
        including an earlier booking error; the form data is never changed. */
    method HandleSubmit(bookingSucceeds: bool) returns (attempted: bool)
      modifies this`errors, this`loadingState, this`isSubmitted
      ensures errors == FormErrorsFor(formData)
      ensures attempted <==> errors == NoErrors
      ensures !attempted ==> loadingState == old(loadingState) && isSubmitted == old(isSubmitted)
      ensures attempted && bookingSucceeds ==> isSubmitted && loadingState == LoadingState(true, None)
      ensures attempted && bookingSucceeds ==> !SubmitEnabled()
      ensures attempted && !bookingSucceeds ==> SubmitEnabled()
      ensures attempted && !bookingSucceeds ==>
        isSubmitted == old(isSubmitted) && loadingState == LoadingState(false, Some(BookingUnavailable))
    {
      ghost var before := loadingState;
      attempted := StartSubmit();
      if attempted {
        SettleBooking(SimulatedBooking(bookingSucceeds));
      } else {
        assert loadingState == before;
      }
    }

    /** The confirmed view: shown once the page is submitted, with the form
        data and the doctor, date and time the page was opened with. */
    function ConfirmedView(): (r: Option<ConfirmedSummary>)
      reads this
      ensures r.Some? <==> isSubmitted
      ensures r.Some? ==> r.value.patientName == formData.patientName && r.value.email == formData.email
      ensures r.Some? ==> r.value.doctorName == doctorName
      ensures r.Some? ==> r.value.appointmentDate == appointmentDate && r.value.appointmentTime == appointmentTime
    {
      if isSubmitted then
        Some(ConfirmedSummary(formData.patientName, formData.email, doctorName, appointmentDate, appointmentTime))
      else
        None
    }
  }

  /** A valid form submitted while the booking service answers ends on the
      confirmed view, which mirrors the submitted fields and the doctor,
      date and time the page was opened with. */
  method ConfirmedBookingScenario(searchParams: map<string, string>, name: string, email: string)
    returns (view: Option<ConfirmedSummary>)
    requires !IsBlank(name) && ValidationUtils.EmailShape(email)
    ensures view == Some(ConfirmedSummary(name, email,
      Param(searchParams, "doctorName"), Param(searchParams, "date"), Param(searchParams, "time")))
  {
    var page := new ConfirmationPage(searchParams);
    page.HandleInputChange(PatientName, name);
    page.HandleInputChange(Email, email);
    FormErrorsMeaning(page.formData);
    var attempted := page.HandleSubmit(true);
    view := page.ConfirmedView();
  }

  /** A valid form whose first booking attempt is rejected: the page shows
      the service's message, keeps the form data and re-enables submission,
      and a second attempt that goes through confirms the booking. */
  method RetryAfterFailureScenario(searchParams: map<string, string>, name: string, email: string)
    returns (shownError: Option<string>, keptForm: PatientFormData, canResubmit: bool, view: Option<ConfirmedSummary>)
    requires !IsBlank(name) && ValidationUtils.EmailShape(email)
    ensures shownError == Some(BookingUnavailable)
    ensures keptForm == PatientFormData(name, email)
    ensures canResubmit
    ensures view.Some? && view.value.patientName == name && view.value.email == email
  {
    var page := new ConfirmationPage(searchParams);
    page.HandleInputChange(PatientName, name);
    page.HandleInputChange(Email, email);
    FormErrorsMeaning(page.formData);
    var first := page.HandleSubmit(false);
    shownError := page.loadingState.error;
    keptForm := page.formData;
    canResubmit := page.SubmitEnabled();
    var second := page.HandleSubmit(true);
    view := page.ConfirmedView();
  }
}
