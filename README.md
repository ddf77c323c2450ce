# ZeeCare appointments: a Dafny model

This project models the appointment booking and payment logic of the ZeeCare
hospital system, in two parts:

- The appointment controller of the Express back end:
  - the booking handler's guard chain;
  - doctor resolution;
  - the consultation-fee table and the options of the payment order;
  - payment-signature verification;
  - the admin listing's query filter;
  - the update, delete and confirm handlers, which change the appointment collection.
- The patient's appointment form in the React front end:
  - its copy of the departments and fees;
  - the fee effect;
  - the department and doctor selects;
  - `resetForm`;
  - the checks `handleAppointment` runs before it sends anything.

Modules, one per file:

- `Common`: `Option`, `Result`, the `HttpError(status, message)` an error handler answers with, and document ids.
- `Strings`: `indexOf`, `split(" ")` with its inverse `join(" ")`, and ASCII case-insensitive containment.
- `Records`: the booking fields, the appointment document, and the update body (`Patch`, one optional value per field) with its merge.
- `Validation`: the guard chain shared by server and form. `FirstViolation` returns the first guard that fails. Its specification is rank-based: the guard it reports fails, and every earlier guard passes.
- `Email`: the form's email regular expression.
  - The pattern's own meaning is given as ghost predicates over the ways a string can be cut.
  - A recogniser checks a fixed shape.
  - `AcceptsEmailIffRegex` proves the two agree on every string.
- `Fees`: the server's fee table, the fee guard and the order options. It also holds the lookup as written; see Findings.
- `Doctors`: the `User.find` lookup as a filter over a directory, and the three-way case analysis on the length of its result. That result is characterised over directory indices: no match, two matches, or a single matching entry.
- `Payment`: the signature check. The HMAC is a function parameter.
- `Booking`: `postAppointment` composed from the pieces above.
- `Filters`: the listing's filter.
  - `BuildFilter` is a method that sets the keys one at a time, as the handler does.
  - `Selects` states field by field what a query is meant to list.
  - `BuildFilter` is proved to produce a filter that selects exactly that.
- `Store`: the appointment collection. It is a class holding a map from id to document and a fresh-id counter. `UpdateStatus`, `Delete`, `Confirm` and `ListAppointments` are methods on it.
- `Form`: the form component as a class.
  - One field holds the twelve text inputs, which the source keeps as twelve state hooks; the checkbox and the amount shown are two more fields.
  - Its invariant `Valid()` is the fee effect's promise: the amount shown is the selected department's fee.

Three behaviours of the code that a reader might not expect, which the model follows:

- The sentinel signature `"signature_test_dummy"` is accepted unconditionally. No environment flag gates it.
- `confirmAppointment` creates a paid appointment without checking any signature. It does not re-run the field checks either; it only resolves the doctor again.
- `updateAppointmentStatus` merges the whole request body, payment fields included, not only the status.

## Model

| member | source | states |
|---|---|---|
| Validation.FirstViolation | backend/controller/appointmentController.js:37-67 | With no result, every guard passes. Otherwise the reported guard fails and every guard earlier in the fixed order passes. |
| Validation.MissingFieldComesFirst | backend/controller/appointmentController.js:37-52 | An empty required field is reported before any length or email test. |
| Validation.FirstViolationUnique | backend/controller/appointmentController.js:53-67 | A guard where the chain stops (it fails, and every earlier guard passes) is the one reported, so the guard order fixes the answer. |
| Booking.ValidateBooking | backend/controller/appointmentController.js:37-67 | Passes exactly when all twelve fields are present, both names have at least 3 characters, the email test holds, the phone has 11 characters and the NIC has 13. On failure the error is 400 with the message of the guard where the chain stops: the first failing guard in the source order. A missing field gives "Please Fill Full Form!". |
| Booking.PostAppointment | backend/controller/appointmentController.js:21-104 | A failed guard's error is the result, before any doctor lookup; a missing field gives the full-form error. The result is Ok exactly when validation passes, exactly one directory entry matches the doctor and the department is one of the nine in the table. The department check follows the corrected fee guard (see Findings), so an inherited name such as "constructor" gives "Invalid Department!". An Ok result is `OrderOptions(fee * 100, "INR")`. After valid input: no match gives 404, two matches give 400 Conflict, and a single match gives the fee guard's answer (`OrderFor`), so a department outside the table gives 400 "Invalid Department!". That error only comes after the doctor has been resolved. |
| Booking.ShortFirstNameBeforeDoctorLookup | backend/controller/appointmentController.js:37-87 | With every field present and a first name shorter than 3, the booking fails with 400 "First name must contain at least 3 characters.", whatever the directory holds. |
| Booking.OnlyMatchFromResolved | backend/controller/appointmentController.js:69-87 | Resolution succeeds exactly when a single directory entry matches. |
| Doctors.FindDoctors | backend/controller/appointmentController.js:69-74 | The lookup returns only directory entries that match name, role "Doctor" and department. |
| Doctors.FindDoctorsCount | backend/controller/appointmentController.js:69-87 | Length 0 exactly when nothing matches. Length of at least 2 exactly when two entries match. Length 1 means its one element is the only matching entry. |
| Doctors.ResolveDoctor | backend/controller/appointmentController.js:75-87 | Not found exactly on an empty list, Conflict exactly on more than one element. Otherwise the id of the single element. |
| Doctors.LookupDoctor | backend/controller/appointmentController.js:69-87 | Over the directory: not found iff no entry matches, Conflict iff two entries match. A resolved id is that of the only matching entry, never an arbitrary pick. |
| Doctors.OnlyMatchIsResolved | backend/controller/appointmentController.js:233-251 | A single matching entry is always the one resolved. Booking and confirmation share this lookup. |
| Doctors.TwoJohnSmithsConflict | backend/controller/appointmentController.js:79-86 | Two cardiologists with the same name give a Conflict. |
| Fees.FeeTableShape | backend/controller/appointmentController.js:9-19 | The table has exactly the nine departments as keys. Every fee is between 500 and 1500. |
| Fees.FeeOf | backend/controller/appointmentController.js:90-93 | A fee exists exactly for the nine departments. It is that department's fee in the table, between 500 and 1500. |
| Fees.OrderFor | backend/controller/appointmentController.js:90-104 | Ok exactly for the nine departments, with currency "INR" and amount equal to the table fee times 100 (a multiple of 100 between 50000 and 150000). Otherwise 400 "Invalid Department!". |
| Fees.CardiologyOrder | backend/controller/appointmentController.js:100-104 | A Cardiology booking orders 100000 paise in INR. |
| Fees.PropertyAsWritten | backend/controller/appointmentController.js:90 | `departmentFees[department]` is an own fee exactly for the nine departments, and then it is the table's fee. It is an inherited member exactly for the other names every object inherits. |
| Fees.InheritedNamePassesFeeGuard | backend/controller/appointmentController.js:90-93 | "constructor" is not a department and has no order, yet it passes the `!amount` guard as written. |
| Fees.CorrectedGuardAgreesOnOwnKeys | backend/controller/appointmentController.js:90-93 | The corrected guard passes only departments the guard as written also passes. The two differ exactly on inherited names. |
| Payment.VerifyPayment | backend/controller/appointmentController.js:195-211 | A signature other than the sentinel is accepted iff it equals the HMAC of `orderId\|paymentId`. The sentinel is always accepted. Acceptance says "Payment Verified Successfully!", failure is 400 "Payment Verification Failed!". |
| Payment.OneSignaturePerPayment | backend/controller/appointmentController.js:197-202 | For fixed ids, any two accepted non-sentinel signatures are equal. |
| Payment.BypassAlwaysAccepted | backend/controller/appointmentController.js:202 | The sentinel is accepted for every configured secret, every HMAC and every pair of ids: no flag gates it. |
| Payment.JoinedIdsCanCollide | backend/controller/appointmentController.js:195 | The ids ("a\|b", "c") and ("a", "b\|c") sign the same message, so every signature gets the same verdict for both pairs. |
| Payment.FirstBarEndsOrderId | backend/controller/appointmentController.js:195 | In the signed message of an order id without '\|', the first '\|' sits right after the order id. |
| Payment.SignedMessageInjective | backend/controller/appointmentController.js:195 | When neither order id contains '\|', equal signed messages mean equal order ids and equal payment ids. A collision as in JoinedIdsCanCollide needs a '\|' inside an order id. |
| Strings.SplitOnSpace | backend/controller/appointmentController.js:128 | `split(" ")` returns at least one piece, none containing a space, and joining them with spaces gives back the input. |
| Strings.SplitJoin | backend/controller/appointmentController.js:128 | Splitting undoes joining for space-free pieces. |
| Filters.FilterMeaning | backend/controller/appointmentController.js:117-150 | A filter with the keys the query calls for matches an appointment iff the query selects it. |
| Filters.BuildFilter | backend/controller/appointmentController.js:115-148 | The filter has the keys the query calls for and selects exactly what the query means. Status and hasVisited are unconstrained iff "" or "All". A hasVisited key is true iff the parameter is "true". The doctor key is the first token. |
| Filters.EmptyQuerySelectsAll | backend/controller/appointmentController.js:117-150 | A query with no parameters lists every appointment. |
| Filters.ReturningPatientsOfAnyStatus | backend/controller/appointmentController.js:119-121 | Status "All" with hasVisited "true" selects exactly the returning patients. |
| Filters.OtherVisitedValuesMeanFalse | backend/controller/appointmentController.js:139-141 | Any hasVisited value besides "", "All" and "true" selects only first visits. |
| Filters.DoctorTokens | backend/controller/appointmentController.js:127-133 | A one-token doctor parameter constrains only the first name. For "first last", the first name is matched and, when the second token is non-empty, the last name too. |
| Records.MergeIdempotent | backend/controller/appointmentController.js:163-167 | Applying an update body twice gives the same document as applying it once. |
| Records.StatusPatchChangesOnlyStatus | backend/controller/appointmentController.js:163-167 | A body naming only the status changes the status and nothing else. |
| Records.EmptyPatchIsIdentity | backend/controller/appointmentController.js:163-167 | A body naming no field leaves the document unchanged. |
| Records.PatchCanRewritePayment | backend/controller/appointmentController.js:163-167 | A body naming the payment status overwrites it: the update does not protect payment fields. |
| Store.AppointmentStore.UpdateStatus | backend/controller/appointmentController.js:156-173 | An absent id gives 404 "Appointment not found!" and no change. A present id has exactly its document replaced by the document merged with the body, with reply "Appointment Status Updated!". Ids and other documents are unchanged. |
| Store.AppointmentStore.Delete | backend/controller/appointmentController.js:174-185 | An absent id gives 404 "Appointment Not Found!" and no change. A present id loses exactly its document, with reply "Appointment Deleted!". Every other document stays. |
| Store.AppointmentStore.Confirm | backend/controller/appointmentController.js:214-282 | A failed resolution gives its 404/400 error and no change. Otherwise exactly one document is inserted under a fresh id. It has paymentStatus "Paid", status "Pending", the requested doctor names, the supplied payment and order ids, the patient and the id of the only matching doctor. |
| Store.AppointmentStore.ListAppointments | backend/controller/appointmentController.js:115-155 | Returns exactly the documents the query selects, unchanged. |
| Store.UpdateTwiceIsUpdateOnce | backend/controller/appointmentController.js:156-173 | Two identical updates leave the collection as one does. |
| Form.ClientTableMatchesServer | frontend/src/components/AppointmentForm.jsx:21-43 | The client fee keys are exactly the nine distinct entries of `departmentsArray`, and the client table equals the server's. |
| Form.NoDepartmentNoFee | frontend/src/components/AppointmentForm.jsx:45-47 | With department "" the lookup finds no fee. |
| Form.CheckSubmission | frontend/src/components/AppointmentForm.jsx:81-118 | No message exactly when all fields are present, both names have at least 3 characters, the email matches the regular expression, the phone has 11 characters and the NIC has 13. Otherwise the message is that of the guard where the chain stops, the first failing one in the source order. A missing field gives "Please fill all required fields.". |
| Form.SameVerdictAsServer | frontend/src/components/AppointmentForm.jsx:81-118 | When the server's email test agrees with the form's on the address, the form blocks exactly the submissions the server rejects. |
| Form.SameGuardAsServer | frontend/src/components/AppointmentForm.jsx:81-118 | When the email tests agree and the server rejects, both report the same guard: the server with status 400 and its own message, the form with its message. |
| Form.MessagesDifferOnlyForMissingField | frontend/src/components/AppointmentForm.jsx:95-117 | The form's message for a guard equals the server's exactly when the guard is not the missing-field check. |
| Email.AcceptsEmailIffRegex | frontend/src/components/AppointmentForm.jsx:106-110 | The recogniser accepts exactly the strings `^\w+([.-]?\w+)*@\w+([.-]?\w+)*(\.\w{2,3})+$` matches. |
| Email.RegexImpliesAccepted | frontend/src/components/AppointmentForm.jsx:106 | Every match of the pattern is accepted. |
| Email.AcceptedImpliesRegex | frontend/src/components/AppointmentForm.jsx:106 | Every accepted string matches the pattern. |
| Email.ChainIsDotted | frontend/src/components/AppointmentForm.jsx:106 | `\w+([.-]?\w+)*` matches only word characters and lone separators that begin and end with a word character. |
| Email.DottedIsChain | frontend/src/components/AppointmentForm.jsx:106 | Every such string matches `\w+([.-]?\w+)*`. |
| Email.DomainHasShape | frontend/src/components/AppointmentForm.jsx:106 | A matched domain ends in '.', then two or three word characters, after a dotted prefix. |
| Email.ShapeIsDomain | frontend/src/components/AppointmentForm.jsx:106 | Every string of that shape is a matched domain. |
| Email.AtAfterDotted | frontend/src/components/AppointmentForm.jsx:106 | An '@' after a dotted local part is the first '@' of the string. |
| Form.AppointmentForm.constructor | frontend/src/components/AppointmentForm.jsx:6-19 | The form opens with blank inputs, Pediatrics selected, the box unchecked and, once the fee effect has run, 500 shown. |
| Form.AppointmentForm.ShowFee | frontend/src/components/AppointmentForm.jsx:45-47 | The amount shown becomes the selected department's fee. Nothing else changes. |
| Form.AppointmentForm.ChangeDepartment | frontend/src/components/AppointmentForm.jsx:271-275 | The department changes, both doctor names are cleared, and the new department's fee is shown. |
| Form.AppointmentForm.SelectDoctor | frontend/src/components/AppointmentForm.jsx:285-297 | Choosing a doctor sets both doctor names and nothing else. Choosing the "Select Doctor" placeholder changes nothing, because parsing its empty value throws before either name is set. The fee invariant is kept. |
| Form.AppointmentForm.ResetForm | frontend/src/components/AppointmentForm.jsx:62-76 | Every text input, department included, becomes "" and the box is cleared. The fee effect then leaves no fee shown. |
| Form.AppointmentForm.HandleAppointment | frontend/src/components/AppointmentForm.jsx:78-135 | Blocked exactly when a check fails, with the message of the first failing guard in the source order. A missing field blocks with "Please fill all required fields.". Otherwise the request carries the inputs and the box. |
| Form.ResetThenSubmit | frontend/src/components/AppointmentForm.jsx:62-97 | Submitting right after a reset is blocked with the required-fields message. |

## Left out

- Razorpay order creation and the receipt label built from `Date.now()` are left out. The model returns the order options the handler passes to the gateway.
- HMAC-SHA256 and the hex digest are a function parameter `hmacHex(secret, message)`. The comparison is string equality, not constant-time.
- `validator.isEmail` is a parameter of the server guard chain (`isEmail`). Its rules are not modelled.
- The database is not modelled:
  - The collection is an in-memory map.
  - `User.find` is a filter over a directory sequence.
  - Malformed ObjectId strings are not modelled; ids are naturals.
- Patient-name matching is a literal case-insensitive substring test. `$regex` metacharacters and non-ASCII case folding are not modelled.
- Store.AppointmentStore.ListAppointments: returns a map from id to document, so the order of the result is not modelled.
- The appointment schema is not part of this model:
  - The status a new appointment gets is taken to be the default "Pending".
  - `runValidators` and the schema's enumerations are not modelled. An update body is applied field by field as given.
- String lengths count characters. JavaScript's `.length` counts UTF-16 code units, so the two differ for characters outside the Basic Multilingual Plane.
- Every request field is a string in this model. `req.body` and `req.query` can also carry numbers, arrays or objects, and the source behaves differently on them:
  - a numeric phone has no `.length` and fails the phone guard;
  - an array first name passes the length guard by its element count;
  - an object such as `{"$ne": ""}` in a doctor name becomes a query operator in `User.find` (lines 69-74 and 233-238), and confirmation validates nothing before that lookup.
- Payment.BypassAlwaysAccepted: holds for a configured secret only. With `RAZORPAY_SECRET` unset, `createHmac` throws before the sentinel comparison (lines 197-202), so no signature is accepted. The model's `secret` is always a string.
- Payment.VerifyPayment: an unset secret, where the HMAC call throws, is not modelled, for the same reason.
- `req.user`, authentication, `catchAsyncErrors` and routing are left out. The patient id is a parameter of `Confirm`.
- The handlers' success payloads are only partly modelled. The booking result is the order options, not the `success`, `order` and `key_id` fields. Confirmation returns the created document, but its message "Appointment Booked Successfully!" is not modelled.
- The React side is limited to the form's logic:
  - Rendering, axios calls, toasts, the gateway's checkout window and its handler chain are left out.
  - The `fetchDoctors` effect and the doctor options it feeds are left out.
  - The plain text-input `onChange` setters are left out.
- Form.AppointmentForm.constructor: the single render before the fee effect runs, when 0 is shown, is not modelled. The constructor ends after the effect.
- Concurrency between requests is not modelled. Each handler is one atomic step on the collection.

## Findings

| source | as written | input that shows it | evidently intended | confidence | as-written member | corrected member |
|---|---|---|---|---|---|---|
| backend/controller/appointmentController.js:90-93 | `departmentFees[department]` on a plain object literal, guarded by `!amount`. The lookup also finds members every object inherits. | A department "constructor", with one doctor registered under it: the fee guard passes with a function as the amount. The order amount `amount * 100` is then not a number. | Only the nine departments of the table pass the fee guard. | not executed; high | Fees.InheritedNamePassesFeeGuard | Fees.OrderFor |
