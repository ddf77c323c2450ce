/** The booking handler: validate the request, resolve the doctor, look up the
    fee and build the options of the payment order. */
module Booking {
  import opened Common
  import opened Records
  import opened Validation
  import opened Doctors
  import opened Fees

  /** The server's message for each guard (all answered with status 400). */
  function ServerMessage(v: Violation): string
  {
    match v
    case MissingField => "Please Fill Full Form!"
    case ShortFirstName => "First name must contain at least 3 characters."
    case ShortLastName => "Last name must contain at least 3 characters."
    case InvalidEmail => "Please provide a valid email."
    case BadPhoneLength => "Phone number must contain exactly 11 digits."
    case BadNicLength => "NIC must contain exactly 13 digits."
  }

  /** The server's guard chain; `isEmail` stands for the validator library's test. */
  function ValidateBooking(b: BookingFields, isEmail: string -> bool): (r: Option<HttpError>)
    ensures r.None? <==>
              AllPresent(b) && |b.firstName| >= 3 && |b.lastName| >= 3 && isEmail(b.email) &&
              |b.phone| == 11 && |b.nic| == 13
    ensures !AllPresent(b) ==> r == Some(HttpError(400, "Please Fill Full Form!"))
    ensures r.Some? ==> exists v :: StopsAt(b, isEmail(b.email), v) && r.value == HttpError(400, ServerMessage(v))
  {
    match FirstViolation(b, isEmail(b.email))
    case None => None
    case Some(v) =>
      assert StopsAt(b, isEmail(b.email), v);
      Some(HttpError(400, ServerMessage(v)))
  }

  /** `postAppointment`: the order options for a valid booking of a uniquely
      named doctor in a department with a fee, or the first error met. */
  function PostAppointment(req: BookingRequest, isEmail: string -> bool, users: seq<User>): (r: Result<OrderOptions>)
    ensures !AllPresent(req.fields) ==> r == Err(HttpError(400, "Please Fill Full Form!"))
    ensures ValidateBooking(req.fields, isEmail).Some? ==> r == Err(ValidateBooking(req.fields, isEmail).value)
    ensures r.Ok? <==>
              && ValidateBooking(req.fields, isEmail).None?
              && (exists k :: OnlyMatchAt(users, k, req.fields.doctorFirstName, req.fields.doctorLastName, req.fields.department))
              && req.fields.department in KnownDepartments
    ensures r.Ok? ==> r.value == OrderOptions(DepartmentFees[req.fields.department] * 100, "INR")
    ensures (ValidateBooking(req.fields, isEmail).None? &&
             NoMatch(users, req.fields.doctorFirstName, req.fields.doctorLastName, req.fields.department)) ==>
            r == Err(HttpError(404, "Doctor not found"))
    ensures (ValidateBooking(req.fields, isEmail).None? &&
             TwoMatches(users, req.fields.doctorFirstName, req.fields.doctorLastName, req.fields.department)) ==>
            r == Err(HttpError(400, "Doctors Conflict! Please Contact Through Email Or Phone!"))
    ensures (ValidateBooking(req.fields, isEmail).None? &&
             (exists k :: OnlyMatchAt(users, k, req.fields.doctorFirstName, req.fields.doctorLastName, req.fields.department))) ==>
            r == OrderFor(req.fields.department)
    ensures r == Err(InvalidDepartment) ==>
              LookupDoctor(users, req.fields.doctorFirstName, req.fields.doctorLastName, req.fields.department).Resolved?
  {
    var b := req.fields;
    match ValidateBooking(b, isEmail)
    case Some(e) => Err(e)
    case None =>
      var resolution := LookupDoctor(users, b.doctorFirstName, b.doctorLastName, b.department);
      if !resolution.Resolved? then
        Err(ResolutionError(resolution))
      else
        OnlyMatchFromResolved(users, b.doctorFirstName, b.doctorLastName, b.department);
        OrderFor(b.department)
  }

  /** Resolution succeeds exactly when one entry matches. */
  lemma OnlyMatchFromResolved(users: seq<User>, firstName: string, lastName: string, department: string)
    ensures LookupDoctor(users, firstName, lastName, department).Resolved? <==>
              exists k :: OnlyMatchAt(users, k, firstName, lastName, department)
  {
    if k :| OnlyMatchAt(users, k, firstName, lastName, department) {
      OnlyMatchIsResolved(users, k, firstName, lastName, department);
    }
  }

  /** A short first name is answered before any doctor is looked up: whatever
      the directory holds, the booking fails with the first-name message. */
  lemma ShortFirstNameBeforeDoctorLookup(req: BookingRequest, isEmail: string -> bool, users: seq<User>)
    requires AllPresent(req.fields) && |req.fields.firstName| < 3
    ensures PostAppointment(req, isEmail, users) ==
              Err(HttpError(400, "First name must contain at least 3 characters."))
  {
    var v :| StopsAt(req.fields, isEmail(req.fields.email), v) &&
             ValidateBooking(req.fields, isEmail).value == HttpError(400, ServerMessage(v));
    FirstViolationUnique(req.fields, isEmail(req.fields.email), v);
  }
}
