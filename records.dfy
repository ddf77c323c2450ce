/** The records the appointment handlers exchange: the twelve booking fields,
    the booking request a patient submits, and the stored appointment. */
module Records {
  import opened Common

  /** The twelve fields a booking must carry (an absent field is ""). */
  datatype BookingFields = BookingFields(
    firstName: string,
    lastName: string,
    email: string,
    phone: string,
    nic: string,
    dob: string,
    gender: string,
    appointmentDate: string,
    department: string,
    doctorFirstName: string,
    doctorLastName: string,
    address: string)

  /** The body of a booking or confirmation request: the fields and the visited flag. */
  datatype BookingRequest = BookingRequest(fields: BookingFields, hasVisited: bool)

  /** The doctor's names as copied into the appointment when it is created. */
  datatype DoctorName = DoctorName(firstName: string, lastName: string)

  /** A stored appointment document. */
  datatype Appointment = Appointment(
    firstName: string,
    lastName: string,
    email: string,
    phone: string,
    nic: string,
    dob: string,
    gender: string,
    appointmentDate: string,
    department: string,
    doctor: DoctorName,
    hasVisited: bool,
    address: string,
    doctorId: Id,
    patientId: Id,
    status: string,
    paymentStatus: string,
    razorpayPaymentId: string,
    razorpayOrderId: string)

  /** An update body: each field it names is set, each field it omits is kept. */
  datatype Patch = Patch(
    firstName: Option<string>,
    lastName: Option<string>,
    email: Option<string>,
    phone: Option<string>,
    nic: Option<string>,
    dob: Option<string>,
    gender: Option<string>,
    appointmentDate: Option<string>,
    department: Option<string>,
    doctor: Option<DoctorName>,
    hasVisited: Option<bool>,
    address: Option<string>,
    doctorId: Option<Id>,
    patientId: Option<Id>,
    status: Option<string>,
    paymentStatus: Option<string>,
    razorpayPaymentId: Option<string>,
    razorpayOrderId: Option<string>)

  /** The update body the admin dashboard sends: `{ status }`. */
  function StatusPatch(status: string): Patch
  {
    Patch(None, None, None, None, None, None, None, None, None, None,
          None, None, None, None, Some(status), None, None, None)
  }

  /** The body that names no field. */
  function EmptyPatch(): Patch
  {
    Patch(None, None, None, None, None, None, None, None, None, None,
          None, None, None, None, None, None, None, None)
  }

  function Override<T>(current: T, update: Option<T>): T
  {
    if update.Some? then update.value else current
  }

  /** `findByIdAndUpdate(id, body)` on one document: every field the body names
      takes the body's value. */
  function Merge(a: Appointment, p: Patch): Appointment
  {
    Appointment(
      Override(a.firstName, p.firstName),
      Override(a.lastName, p.lastName),
      Override(a.email, p.email),
      Override(a.phone, p.phone),
      Override(a.nic, p.nic),
      Override(a.dob, p.dob),
      Override(a.gender, p.gender),
      Override(a.appointmentDate, p.appointmentDate),
      Override(a.department, p.department),
      Override(a.doctor, p.doctor),
      Override(a.hasVisited, p.hasVisited),
      Override(a.address, p.address),
      Override(a.doctorId, p.doctorId),
      Override(a.patientId, p.patientId),
      Override(a.status, p.status),
      Override(a.paymentStatus, p.paymentStatus),
      Override(a.razorpayPaymentId, p.razorpayPaymentId),
      Override(a.razorpayOrderId, p.razorpayOrderId))
  }

  /** Applying the same body twice leaves the document as applying it once. */
  lemma MergeIdempotent(a: Appointment, p: Patch)
    ensures Merge(Merge(a, p), p) == Merge(a, p)
  {
  }

  /** A body naming only the status changes the status and nothing else. */
  lemma StatusPatchChangesOnlyStatus(a: Appointment, status: string)
    ensures Merge(a, StatusPatch(status)) == a.(status := status)
  {
  }

  /** A body naming no field leaves the document as it was. */
  lemma EmptyPatchIsIdentity(a: Appointment)
    ensures Merge(a, EmptyPatch()) == a
  {
  }

  /** A body that names a payment field can overwrite it: the update path
      does not protect the payment record. */
  lemma PatchCanRewritePayment(a: Appointment, paymentStatus: string)
    ensures Merge(a, EmptyPatch().(paymentStatus := Some(paymentStatus))).paymentStatus == paymentStatus
  {
  }
}
