/** The booking guard chain that both the server handler and the client form
    run before anything else: presence of all twelve fields, then the two name
    lengths, then the email, then the phone length, then the NIC length.
    Each side supplies its own email test and its own messages. */
module Validation {
  import opened Common
  import opened Records

  /** The guards, in the order they run. */
  datatype Violation =
    | MissingField
    | ShortFirstName
    | ShortLastName
    | InvalidEmail
    | BadPhoneLength
    | BadNicLength

  /** Position of a guard in the chain. */
  function Rank(v: Violation): nat
  {
    match v
    case MissingField => 0
    case ShortFirstName => 1
    case ShortLastName => 2
    case InvalidEmail => 3
    case BadPhoneLength => 4
    case BadNicLength => 5
  }

  /** No required field is the empty string (`!field` is false for each). */
  predicate AllPresent(b: BookingFields)
  {
    && b.firstName != ""
    && b.lastName != ""
    && b.email != ""
    && b.phone != ""
    && b.nic != ""
    && b.dob != ""
    && b.gender != ""
    && b.appointmentDate != ""
    && b.department != ""
    && b.doctorFirstName != ""
    && b.doctorLastName != ""
    && b.address != ""
  }

  /** Guard `v`, taken on its own, rejects the fields. Lengths only: the
      characters of the phone number and NIC are never inspected. */
  predicate Breaks(b: BookingFields, emailValid: bool, v: Violation)
  {
    match v
    case MissingField => !AllPresent(b)
    case ShortFirstName => |b.firstName| < 3
    case ShortLastName => |b.lastName| < 3
    case InvalidEmail => !emailValid
    case BadPhoneLength => |b.phone| != 11
    case BadNicLength => |b.nic| != 13
  }

  /** Guard `v` rejects the fields and every earlier guard accepts them: `v`
      is where the chain stops. */
  predicate StopsAt(b: BookingFields, emailValid: bool, v: Violation)
  {
    Breaks(b, emailValid, v) && forall w :: Rank(w) < Rank(v) ==> !Breaks(b, emailValid, w)
  }

  /** The guard that stops the chain: none when every guard passes, otherwise
      a guard that rejects the fields while every earlier guard accepts them. */
  function FirstViolation(b: BookingFields, emailValid: bool): (r: Option<Violation>)
    ensures r.None? ==> forall v :: !Breaks(b, emailValid, v)
    ensures r.Some? ==> StopsAt(b, emailValid, r.value)
  {
    if !AllPresent(b) then Some(MissingField)
    else if |b.firstName| < 3 then Some(ShortFirstName)
    else if |b.lastName| < 3 then Some(ShortLastName)
    else if !emailValid then Some(InvalidEmail)
    else if |b.phone| != 11 then Some(BadPhoneLength)
    else if |b.nic| != 13 then Some(BadNicLength)
    else None
  }

  /** A missing field is reported before any length or email test can be. */
  lemma MissingFieldComesFirst(b: BookingFields, emailValid: bool)
    requires !AllPresent(b)
    ensures FirstViolation(b, emailValid) == Some(MissingField)
  {
  }

  /** The contract of FirstViolation pins its result down: a failing guard
      preceded only by passing guards is the one reported. */
  lemma FirstViolationUnique(b: BookingFields, emailValid: bool, v: Violation)
    requires StopsAt(b, emailValid, v)
    ensures FirstViolation(b, emailValid) == Some(v)
  {
  }
}
