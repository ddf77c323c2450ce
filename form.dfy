/** The patient's appointment form: its state, the department and fee
    handling, the reset after a booking, and the checks run before any
    request is sent. */
module Form {
  import opened Common
  import opened Records
  import opened Validation
  import Email
  import Fees
  import Booking

  /** `departmentsArray`: the options of the department select. */
  const DepartmentsArray: seq<string> := [
    "Pediatrics", "Orthopedics", "Cardiology", "Neurology", "Oncology",
    "Radiology", "Physical Therapy", "Dermatology", "ENT"]

  /** The form's own copy of the fee table. */
  const ClientFees: map<string, nat> := map[
    "Pediatrics" := 500,
    "Orthopedics" := 700,
    "Cardiology" := 1000,
    "Neurology" := 1200,
    "Oncology" := 1500,
    "Radiology" := 800,
    "Physical Therapy" := 600,
    "Dermatology" := 750,
    "ENT" := 650]

  /** The client table covers exactly the nine listed departments and charges
      what the server charges for each. */
  lemma ClientTableMatchesServer()
    ensures ClientFees.Keys == set d | d in DepartmentsArray
    ensures |DepartmentsArray| == 9
    ensures forall i, j | 0 <= i < j < |DepartmentsArray| :: DepartmentsArray[i] != DepartmentsArray[j]
    ensures ClientFees == Fees.DepartmentFees
  {
  }

  /** `departmentFees[department]` in the form: undefined for a department the
      table does not list (as after a reset, when the department is ""). */
  function DisplayedFee(department: string): Option<nat>
  {
    if department in ClientFees then Some(ClientFees[department]) else None
  }

  /** With no department selected there is no fee to show. */
  lemma NoDepartmentNoFee()
    ensures DisplayedFee("").None?
  {
    assert forall k | k in ClientFees :: |k| > 0;
  }

  /** The form's messages for each guard. */
  function ClientMessage(v: Violation): string
  {
    match v
    case MissingField => "Please fill all required fields."
    case ShortFirstName => "First name must contain at least 3 characters."
    case ShortLastName => "Last name must contain at least 3 characters."
    case InvalidEmail => "Please provide a valid email."
    case BadPhoneLength => "Phone number must contain exactly 11 digits."
    case BadNicLength => "NIC must contain exactly 13 digits."
  }

  /** The checks in `handleAppointment`: the shared guard chain, with the email
      regular expression as the email test. */
  function CheckSubmission(b: BookingFields): (r: Option<string>)
    ensures r.None? <==>
              AllPresent(b) && |b.firstName| >= 3 && |b.lastName| >= 3 && Email.MatchesEmailRegex(b.email) &&
              |b.phone| == 11 && |b.nic| == 13
    ensures !AllPresent(b) ==> r == Some("Please fill all required fields.")
    ensures r.Some? ==> exists v :: StopsAt(b, Email.MatchesEmailRegex(b.email), v) && r.value == ClientMessage(v)
  {
    Email.AcceptsEmailIffRegex(b.email);
    match FirstViolation(b, Email.AcceptsEmail(b.email))
    case None => None
    case Some(v) =>
      assert StopsAt(b, Email.MatchesEmailRegex(b.email), v);
      Some(ClientMessage(v))
  }

  /** The two sides word their messages alike except for a missing field. */
  lemma MessagesDifferOnlyForMissingField(v: Violation)
    ensures ClientMessage(v) == Booking.ServerMessage(v) <==> v != MissingField
  {
  }

  /** Whenever the server's email test agrees with the form's on the address,
      the form blocks exactly the submissions the server rejects. */
  lemma SameVerdictAsServer(b: BookingFields, isEmail: string -> bool)
    requires isEmail(b.email) == Email.MatchesEmailRegex(b.email)
    ensures CheckSubmission(b).None? <==> Booking.ValidateBooking(b, isEmail).None?
  {
  }

  /** ... and when the server rejects, both report the same guard, each in its
      own words. */
  lemma SameGuardAsServer(b: BookingFields, isEmail: string -> bool)
    requires isEmail(b.email) == Email.MatchesEmailRegex(b.email)
    requires Booking.ValidateBooking(b, isEmail).Some?
    ensures exists v :: && StopsAt(b, isEmail(b.email), v)
                        && Booking.ValidateBooking(b, isEmail).value == HttpError(400, Booking.ServerMessage(v))
                        && CheckSubmission(b) == Some(ClientMessage(v))
  {
    SameVerdictAsServer(b, isEmail);
    var v :| StopsAt(b, isEmail(b.email), v) &&
             Booking.ValidateBooking(b, isEmail).value == HttpError(400, Booking.ServerMessage(v));
    var w :| StopsAt(b, isEmail(b.email), w) && CheckSubmission(b).value == ClientMessage(w);
    FirstViolationUnique(b, isEmail(b.email), v);
    FirstViolationUnique(b, isEmail(b.email), w);
    assert CheckSubmission(b) == Some(ClientMessage(v));
  }

  /** What a submit does: stop with a message, or send the booking request. */
  datatype Submission = Blocked(message: string) | Send(request: BookingRequest)

  /** Every text input of the form left empty. */
  const BlankFields := BookingFields("", "", "", "", "", "", "", "", "", "", "", "")

  /** The form's state hooks: the twelve text inputs (grouped as the fields of
      one record), the visited checkbox and the amount shown. */
  class AppointmentForm {
    var fields: BookingFields
    var hasVisited: bool
    var paymentAmount: Option<nat>

    /** The fee effect has run: the amount shown is the selected department's fee. */
    ghost predicate Valid()
      reads this
    {
      paymentAmount == DisplayedFee(fields.department)
    }

    /** The form as first shown: Pediatrics selected and, once the fee effect has
        run, its fee displayed. */
    constructor ()
      ensures Valid()
      ensures fields == BlankFields.(department := "Pediatrics")
      ensures !hasVisited && paymentAmount == Some(500)
    {
      fields := BlankFields.(department := "Pediatrics");
      hasVisited := false;
      paymentAmount := Some(0);
      new;
      ShowFee();
    }

    /** The effect that runs whenever the department changes: the amount shown
        becomes that department's fee, and nothing else changes. */
    method ShowFee()
      modifies this
      ensures Valid()
      ensures fields == old(fields) && hasVisited == old(hasVisited)
    {
      paymentAmount := DisplayedFee(fields.department);
    }

    /** The department select's change handler, followed by the fee effect:
        the doctor choice is cleared and the new department's fee shown. */
    method ChangeDepartment(d: string)
      modifies this
      ensures Valid()
      ensures fields == old(fields).(department := d, doctorFirstName := "", doctorLastName := "")
      ensures hasVisited == old(hasVisited)
      ensures paymentAmount == DisplayedFee(d)
    {
      fields := fields.(department := d, doctorFirstName := "", doctorLastName := "");
      ShowFee();
    }

    /** The doctor select's change handler. `choice` is the parsed option:
        None for the "Select Doctor" placeholder, whose empty value makes the
        parse throw before either name is set, so nothing changes. */
    method SelectDoctor(choice: Option<DoctorName>)
      requires Valid()
      modifies this
      ensures Valid()
      ensures choice.Some? ==>
                fields == old(fields).(doctorFirstName := choice.value.firstName, doctorLastName := choice.value.lastName)
      ensures choice.None? ==> fields == old(fields)
      ensures hasVisited == old(hasVisited) && paymentAmount == old(paymentAmount)
    {
      if choice.Some? {
        fields := fields.(doctorFirstName := choice.value.firstName, doctorLastName := choice.value.lastName);
      }
    }

    /** `resetForm`, followed by the fee effect its department change triggers:
        every text field is "", the visited box is cleared, and with no
        department there is no fee to show. */
    method ResetForm()
      modifies this
      ensures Valid()
      ensures fields == BlankFields
      ensures !hasVisited
      ensures paymentAmount.None?
    {
      fields := BlankFields;
      hasVisited := false;
      ShowFee();
      NoDepartmentNoFee();
    }

    /** `handleAppointment` up to the booking request: the first failed check
        stops it before any request is made; otherwise the fields and the
        visited flag are sent. */
    method HandleAppointment() returns (s: Submission)
      ensures s.Blocked? <==> CheckSubmission(fields).Some?
      ensures s.Blocked? ==> s.message == CheckSubmission(fields).value
      ensures s.Send? ==> s.request == BookingRequest(fields, hasVisited)
      ensures !AllPresent(fields) ==> s == Blocked("Please fill all required fields.")
      ensures s.Blocked? ==>
                exists v :: StopsAt(fields, Email.MatchesEmailRegex(fields.email), v) && s.message == ClientMessage(v)
    {
      var problem := CheckSubmission(fields);
      if problem.Some? {
        return Blocked(problem.value);
      }
      s := Send(BookingRequest(fields, hasVisited));
    }
  }

  /** After a reset nothing can be submitted until the form is filled again. */
  method ResetThenSubmit(form: AppointmentForm) returns (s: Submission)
    modifies form
    ensures s == Blocked("Please fill all required fields.")
  {
    form.ResetForm();
    s := form.HandleAppointment();
  }
}
