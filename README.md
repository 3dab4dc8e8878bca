# Healthcare booking front end: a verified model

This project models the logic of a small appointment booking front end, written in Dafny and proved with the Dafny verifier. The modelled parts are:

- **The field validators** (`utils/validationUtils.ts`): `validateEmail`, `validatePatientName`, `validatePhoneNumber` and `validateFormField`.
  - Each regular expression is recognised character by character.
  - Each recogniser is proved equal to a plain description of the strings it accepts. For the email pattern, that is a local part, an `@`, and a domain containing an inner `.`.
- **The booking confirmation page** (`app/confirmation/page.tsx`), modelled as the class `ConfirmationPage`.
  - Its state is the form data, the error record, the submitted flag and the loading state.
  - Its methods are `validateForm`, `handleInputChange`, `handleSubmit` and the redirect guard.
  - The page has its own email check, which does not trim. This is captured and compared with the shared validator.
- **The doctor directory page** (`app/page.tsx`), modelled as the class `HomePage`.
  - It covers the load effect, the search effect and the case-insensitive, order-preserving filter.
  - It also covers the availability colours, the result count line and what the page shows in each state.
- **The doctor card** (`components/DoctorCard.tsx`): the badge colour, the "Fully Booked" button rule and the profile link.

Files:

- `wrappers.dfy`: `Option`, `Result`, and the value a `catch` clause receives.
- `types.dfy`: the records of `types/index.ts`.
- `text.dfy`: the JavaScript string built-ins the pages rely on. These are `trim` with the ECMAScript whitespace set, `toLowerCase`, `includes`, and the decimal text of a number.
- `validation.dfy`, `confirmation.dfy`, `home.dfy` and `doctor_card.dfy`: one per source file.

Inputs the model takes as parameters:

- The booking service's random outcome.
- The result of the doctor data fetch.
- The page's query parameters.

## Model

| member | source | states |
|---|---|---|
| Wrappers.CaughtMessage | app/page.tsx:31 | a thrown `Error` yields its message, any other thrown value the fallback text |
| Types.WithValue | app/confirmation/page.tsx:70-73 | the named form field gets the new value, the other field is unchanged |
| Types.WithError | app/confirmation/page.tsx:77-80 | the named error gets the new message, the other error is unchanged |
| Text.Trim | utils/validationUtils.ts:6 | the result is a contiguous slice of the input with no whitespace at either end, with only whitespace cut away on each side; it is empty iff the input is all whitespace |
| Text.TrimIdempotent | utils/validationUtils.ts:6 | trimming twice is trimming once |
| Text.TrimIgnoresPadding | utils/validationUtils.ts:6 | whitespace added around a string does not change its trimmed value |
| Text.ToLower | app/page.tsx:45-46 | same length; each character is lower-cased on its own (ASCII letters) |
| Text.Includes | app/page.tsx:45-46 | true iff the needle occurs at some position of the haystack |
| Text.NatToDecimal | app/page.tsx:141 | non-empty decimal digits, no superfluous leading zero, denoting the number |
| Text.IntToDecimal | components/DoctorCard.tsx:62 | a minus sign exactly for a negative integer, then digits with no superfluous leading zero (zero is "0", never "-0"), whose signed value is the integer |
| Text.CanonicalDecimalUnique | app/page.tsx:141 | two canonical decimal texts (non-empty digits, no superfluous leading zero) that denote the same number are equal |
| Text.NatToDecimalUnique | app/page.tsx:141 | the rendered decimal text is the only canonical decimal text denoting the number |
| ValidationUtils.EmailAutomatonCorrect | utils/validationUtils.ts:5 | the automaton accepts exactly local part, `@`, domain with an inner `.`, where no part holds whitespace or a second `@` |
| ValidationUtils.EmailShapeEnds | utils/validationUtils.ts:5 | an accepted address starts and ends with a non-blank, non-`@` character, so trimming leaves it unchanged |
| ValidationUtils.EmailPatternMatches | utils/validationUtils.ts:5 | the pattern test holds iff the string has the email shape |
| ValidationUtils.ValidateEmail | utils/validationUtils.ts:4-7 | holds iff the trimmed input has the email shape |
| ValidationUtils.EmailVerdictIgnoresPadding | utils/validationUtils.ts:4-7 | surrounding whitespace never changes the verdict; `validateEmail(s) == validateEmail(trim(s))` |
| ValidationUtils.RepeatAtLeast | utils/validationUtils.ts:13 | an anchored `[class]{n,}` holds iff the string has at least n characters, all in the class |
| ValidationUtils.ValidatePatientName | utils/validationUtils.ts:12-15 | holds iff the trimmed name has at least two characters, each an ASCII letter or whitespace |
| ValidationUtils.ValidatePhoneNumber | utils/validationUtils.ts:20-23 | holds iff the trimmed number is an optional `+` then at least ten characters, each a digit, whitespace, `-` or `$` |
| ValidationUtils.DollarsPassAsPhone | utils/validationUtils.ts:21 | ten dollar signs pass as a phone number |
| ValidationUtils.BracketsFailAsPhone | utils/validationUtils.ts:21 | "(555) 123-4567" fails as a phone number |
| ValidationUtils.ValidatePhoneNumberIntended | utils/validationUtils.ts:20-23 | the phone check with digits, whitespace, `-`, `(` and `)`; an accepted number holds no `$` |
| ValidationUtils.IntendedPhoneAcceptsBrackets | utils/validationUtils.ts:21 | the intended check accepts "(555) 123-4567" |
| ValidationUtils.IntendedPhoneRejectsDollars | utils/validationUtils.ts:21 | the intended check rejects ten dollar signs |
| ValidationUtils.ValidateFormField | utils/validationUtils.ts:36-65 | valid iff no message. A required blank value gives "`fieldName` is required". Otherwise valid iff the rule the lower-cased name selects ("email"; "patientname" or "name"; none) accepts a non-empty value, and the message is that rule's. An optional empty value is valid; an optional non-empty blank email or name is invalid |
| ValidationUtils.FieldNameCaseInsensitive | utils/validationUtils.ts:44 | field names that lower-case alike give the same verdict, and the same result once the required check passes |
| Confirmation.PageEmailValid | app/confirmation/page.tsx:44-47 | the page's check holds iff the untrimmed string has the email shape |
| Confirmation.PageEmailIsUntrimmedValidator | app/confirmation/page.tsx:44-47 | the page's check is the shared validator restricted to strings with no whitespace padding |
| Confirmation.PaddedAddressSplitsTheChecks | app/confirmation/page.tsx:44-46 | a well-formed address behind whitespace passes the shared validator and fails the page's check |
| Confirmation.FormErrorsFor | app/confirmation/page.tsx:49-64 | each error is empty or one of that field's fixed messages |
| Confirmation.FormErrorsMeaning | app/confirmation/page.tsx:55-63 | "Patient name is required" iff the name is blank. "Email is required" iff the email is blank. "Please enter a valid email address" iff it is not blank and the untrimmed email fails the pattern. No errors iff the name is not blank and the email has the email shape |
| Confirmation.ValidationExamples | app/confirmation/page.tsx:49-64 | the errors for an empty form, a good form, and a good name with a malformed email |
| Confirmation.PageNameCheckIsRequiredOnly | app/confirmation/page.tsx:55-57 | the page's name check is the shared required check alone; a one-letter name passes here and fails the shared name rule |
| Confirmation.PageEmailCheckAgainstUtility | app/confirmation/page.tsx:59-63 | an email the page accepts passes the shared email field check, and the two agree on addresses without padding |
| Confirmation.SimulatedBooking | app/confirmation/page.tsx:95-104 | the booking resolves iff the draw succeeds; otherwise it rejects with the "temporarily unavailable" error |
| Confirmation.Param | app/confirmation/page.tsx:32-35 | a present query parameter reads as its value, a missing one as `""` |
| Confirmation.ConfirmationPage.constructor | app/confirmation/page.tsx:18-35 | the query parameters are read with `""` for a missing one; the form and errors are empty, the page is not submitted and not loading |
| Confirmation.ConfirmationPage.RedirectGuard | app/confirmation/page.tsx:37-42 | a redirect to "/" is requested iff the doctor name, date or time is empty; the slot is not checked |
| Confirmation.ConfirmationPage.ValidateForm | app/confirmation/page.tsx:49-67 | replaces the whole error record with the computed errors, and returns true iff both are empty |
| Confirmation.ConfirmationPage.HandleInputChange | app/confirmation/page.tsx:69-82 | sets the field's value and clears its error; the other field's value and error are unchanged |
| Confirmation.ConfirmationPage.StartSubmit | app/confirmation/page.tsx:87-91 | validates. A valid form enters loading with no error; an invalid one leaves the loading state, including an earlier error, unchanged. After an attempt starts, the submit button is disabled |
| Confirmation.ConfirmationPage.SubmitEnabled | app/confirmation/page.tsx:275 | the submit button is enabled iff no booking is loading |
| Confirmation.ConfirmationPage.SettleBooking | app/confirmation/page.tsx:106-110 | a resolved booking marks the page submitted and leaves loading on. A rejection ends loading with the thrown message, or "Failed to book appointment" for a non-Error value, and re-enables the submit button |
| Confirmation.ConfirmationPage.HandleSubmit | app/confirmation/page.tsx:84-111 | errors are recomputed, and a booking is attempted iff there are none. Without an attempt, the loading state and the submitted flag are unchanged. Success leaves the page submitted and still loading, with the submit button disabled; failure gives "Booking service temporarily unavailable", not loading, with the button enabled again. The form data is never changed |
| Confirmation.ConfirmationPage.ConfirmedView | app/confirmation/page.tsx:113-162 | shown iff submitted, with exactly the form data and the incoming doctor, date and time |
| Confirmation.ConfirmedBookingScenario | app/confirmation/page.tsx:84-162 | a valid form and a successful booking end on the confirmed view of those fields and query parameters |
| Confirmation.RetryAfterFailureScenario | app/confirmation/page.tsx:98-110 | a rejected booking shows the service's message, keeps the form data and re-enables the submit button (its `disabled` test is at line 275); a second, successful attempt confirms |
| DoctorCard.AvailabilityColor | components/DoctorCard.tsx:14-25 | green for "Available Today", red for "Fully Booked", yellow for "Available Tomorrow", each both ways |
| DoctorCard.AvailabilityColorInjective | components/DoctorCard.tsx:14-25 | different labels get different badge classes |
| DoctorCard.ButtonDisabled | components/DoctorCard.tsx:63 | the button is disabled iff the doctor is fully booked |
| DoctorCard.ButtonLabel | components/DoctorCard.tsx:64 | "Fully Booked" iff fully booked, "View Profile" otherwise |
| DoctorCard.ProfileHref | components/DoctorCard.tsx:62 | "/doctor/" followed by the canonical decimal text of the doctor's id: a minus sign exactly for a negative id, no superfluous leading zero, and signed value equal to the id |
| DoctorCard.ImageSource | components/DoctorCard.tsx:33 | the doctor's picture when the reference is non-empty, otherwise "/placeholder.svg"; never empty |
| DoctorCard.Render | components/DoctorCard.tsx:27-72 | the card shows the doctor's image (or the placeholder), "Dr. " and the name as alternative text, the name, specialization, rating, experience and location, the badge class of its availability and the label text. The button is disabled iff the doctor is fully booked, which is exactly when the badge is red and the label reads "Fully Booked" (otherwise "View Profile"); the link is the profile route |
| Home.AvailabilityColor | app/page.tsx:51-62 | green, red and yellow for today, fully booked and tomorrow, each both ways |
| Home.AvailabilityColorsAgree | app/page.tsx:51-62 | the page's mapping equals the card component's for every label |
| Home.MatchesSearch | app/page.tsx:44-46 | a doctor matches iff the lower-cased term occurs at some position of the lower-cased name or of the lower-cased specialization |
| Home.FilterDoctors | app/page.tsx:42-49 | no longer than the list; a doctor is kept iff it is in the list and its lower-cased name or specialization contains the lower-cased term |
| Home.FilterCounts | app/page.tsx:43-47 | every matching doctor is kept as many times as it occurs, and no other doctor is kept |
| Home.FilterKeepsOrder | app/page.tsx:43-47 | the result is a subsequence of the list |
| Home.FilterConcat | app/page.tsx:43-47 | filtering a concatenation filters each part |
| Home.FilterEmptyIffNoMatch | app/page.tsx:146 | the result is empty iff no doctor in the list matches |
| Home.FilterEmptyTerm | app/page.tsx:43-47 | an empty term keeps the whole list |
| Home.FilterCaseInsensitive | app/page.tsx:45-46 | the term's letter case does not matter |
| Home.FilterIdempotent | app/page.tsx:43-47 | filtering the result again with the same term changes nothing |
| Home.FilterNarrows | app/page.tsx:43-47 | extending the term never brings a doctor back |
| Home.MatchesExtension | app/page.tsx:45-46 | a text that contains a term plus more also contains the term |
| Home.CountLabel | app/page.tsx:141-142 | exactly the count in decimal, " doctor", an "s" iff the count is not 1, " found", and for a non-empty term ` for "term"`: each piece is fixed at its position and the total length is their sum |
| Home.PageCard | app/page.tsx:156-201 | the inline card shows the doctor's image (or the placeholder), the bare name as alternative text, the doctor's own fields, the badge class the page's and the card's colour mappings give its availability, and the profile link; its button is disabled and reads "Fully Booked" iff the doctor is fully booked, "View Profile" otherwise |
| Home.PageCardMatchesComponent | app/page.tsx:161-163 | the inline card equals the card component except for the picture's alternative text, which differs |
| Home.HomePage.constructor | app/page.tsx:15-21 | empty lists, empty term, loading with no error; the shown list is the search result |
| Home.HomePage.FilterEffect | app/page.tsx:42-49 | the shown list becomes the search result for the current list and term |
| Home.HomePage.SetSearchTerm | app/page.tsx:127-128 | the term changes and the shown list follows it; the loaded list is unchanged |
| Home.HomePage.LoadDoctors | app/page.tsx:23-40 | success sets the list to the fetched data, the shown list to its search result (all of it for an empty term) and ends loading with no error. Failure keeps both lists and ends loading with the error message or "Failed to load doctors". The shown list stays the search result |
| Home.HomePage.View | app/page.tsx:64-204 | the spinner while loading, then the error if there is a non-empty one. Otherwise the count line and "No doctors found" iff the shown list is empty, else one inline card per shown doctor |
| Home.NoMatchScenario | app/page.tsx:146-153 | when no doctor matches the typed term, the page shows "No doctors found" with a zero count |

## Left out

- `utils/dateUtils.ts` is not part of this model. Date formatting depends on JavaScript `Date` parsing, locale formatting and the wall clock.
- `Math.random()`, the 1500 ms timer and the promise mechanics of the booking call are not modelled. The outcome is the `bookingSucceeds` parameter of `HandleSubmit`. `StartSubmit` and `SettleBooking` are the two halves either side of the wait.
- The data source `fetchDoctorsData` is not part of this model. `LoadDoctors` takes its outcome as a `Result`.
- Rendering, routing and side effects are left out: JSX and CSS, `router.push`, `Link` and `Image`, `window.print()` and `console.error`.
  - The redirect guard returns its target rather than navigating.
  - The views keep only the data they display.
- The back link to the doctor's page on the confirmation page is not modelled.
- The confirmation page shows only the doctor name, date and time. The `slot` parameter is read but never displayed or checked.
- Text.ToLower: only ASCII letters are lower-cased. JavaScript's full Unicode case mapping, e.g. for accented capitals, is not modelled.
- Text.NatToDecimal: numbers of 10^21 and above are rendered as plain digits. JavaScript switches to exponent notation there, and doctor ids and counts never reach it.
- `Doctor.id` is an unbounded `int`, not a JavaScript number. Ids are whole numbers, so only the decimal text of the link matters, and that is modelled.
- `Doctor.rating` is a `real` that is displayed, never computed with. Floating-point behaviour is not modelled.
- While a booking is in flight, further submissions are blocked only by the disabled submit button (`app/confirmation/page.tsx:275`). `HandleSubmit` itself has no guard, as in the code, and `SubmitEnabled` states the button's condition.
- The grey default branch of both `getAvailabilityColor` functions is not modelled. The availability is a closed three-valued datatype, so that branch cannot be reached.
- Confirmation.FormErrorsFor: blankness is written as "every character is whitespace". `Text.Trim` proves this is the same as the code's empty trimmed value, and `ValidateForm` uses the trimmed test as the code does.
- Any thrown value that is not an `Error` is a single case, `OtherValue`. Only the fact that it is not an `Error` matters to the code.

## Findings

| source | as written | input that shows it | evidently intended | confidence | as-written member | corrected member |
|---|---|---|---|---|---|---|
| utils/validationUtils.ts:21 | the phone class `[\d\s\-$$$$]` admits `$` and no brackets | "$$$$$$$$$$" is accepted and "(555) 123-4567" is rejected | digits, whitespace, `-`, `(` and `)`, as in common phone formats | medium, not executed | ValidationUtils.DollarsPassAsPhone | ValidationUtils.ValidatePhoneNumberIntended |
