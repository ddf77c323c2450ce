/** The appointment collection and the handlers that change or list it:
    update-by-id, delete-by-id, confirmation (insert) and the admin listing. */
module Store {
  import opened Common
  import opened Records
  import opened Doctors
  import opened Filters

  /** The status a new appointment starts with (the schema's default). */
  const DefaultStatus := "Pending"

  /** The body of a confirmation: the booking request and the gateway's ids. */
  datatype ConfirmRequest = ConfirmRequest(booking: BookingRequest, paymentId: string, orderId: string)

  /** The document `confirmAppointment` creates. */
  function NewAppointment(req: ConfirmRequest, doctorId: Id, patientId: Id): Appointment
  {
    var b := req.booking.fields;
    Appointment(
      b.firstName, b.lastName, b.email, b.phone, b.nic, b.dob, b.gender,
      b.appointmentDate, b.department,
      DoctorName(b.doctorFirstName, b.doctorLastName),
      req.booking.hasVisited, b.address,
      doctorId, patientId, DefaultStatus, "Paid", req.paymentId, req.orderId)
  }

  class AppointmentStore {
    /** The documents, by id. */
    var records: map<Id, Appointment>
    /** An id no document has yet. */
    var nextId: Id

    ghost predicate Valid()
      reads this
    {
      forall id | id in records :: id < nextId
    }

    constructor ()
      ensures Valid() && records == map[]
    {
      records := map[];
      nextId := 0;
    }

    /** `updateAppointmentStatus`: 404 and no change when the id is absent;
        otherwise the whole body is merged into that document alone. */
    method UpdateStatus(id: Id, body: Patch) returns (r: Result<string>)
      requires Valid()
      modifies this
      ensures Valid() && nextId == old(nextId)
      ensures id !in old(records) ==>
                r == Err(HttpError(404, "Appointment not found!")) && records == old(records)
      ensures id in old(records) ==>
                && r == Ok("Appointment Status Updated!")
                && records == old(records)[id := Merge(old(records)[id], body)]
      ensures records.Keys == old(records).Keys
      ensures forall other | other in old(records) && other != id :: records[other] == old(records)[other]
    {
      if id !in records {
        return Err(HttpError(404, "Appointment not found!"));
      }
      records := records[id := Merge(records[id], body)];
      r := Ok("Appointment Status Updated!");
    }

    /** `deleteAppointment`: 404 and no change when the id is absent; otherwise
        exactly that document is removed. */
    method Delete(id: Id) returns (r: Result<string>)
      requires Valid()
      modifies this
      ensures Valid() && nextId == old(nextId)
      ensures id !in old(records) ==>
                r == Err(HttpError(404, "Appointment Not Found!")) && records == old(records)
      ensures id in old(records) ==>
                r == Ok("Appointment Deleted!") && records == old(records) - {id}
      ensures id !in records
      ensures forall other | other in old(records) && other != id :: other in records && records[other] == old(records)[other]
    {
      if id !in records {
        return Err(HttpError(404, "Appointment Not Found!"));
      }
      records := records - {id};
      r := Ok("Appointment Deleted!");
    }

    /** `confirmAppointment`: resolves the doctor again and, on a unique match,
        inserts one paid appointment under a fresh id. The handler takes the
        gateway's ids as given; it does not check a signature. */
    method Confirm(req: ConfirmRequest, users: seq<User>, patientId: Id) returns (r: Result<Appointment>)
      requires Valid()
      modifies this
      ensures Valid()
      ensures var b := req.booking.fields;
              var resolution := LookupDoctor(users, b.doctorFirstName, b.doctorLastName, b.department);
              && (!resolution.Resolved? ==> r == Err(ResolutionError(resolution)) && records == old(records))
              && (resolution.Resolved? ==>
                    && r == Ok(NewAppointment(req, resolution.doctorId, patientId))
                    && old(nextId) !in old(records)
                    && records == old(records)[old(nextId) := r.value])
      ensures r.Ok? ==>
                && r.value.paymentStatus == "Paid"
                && r.value.status == DefaultStatus
                && r.value.doctor == DoctorName(req.booking.fields.doctorFirstName, req.booking.fields.doctorLastName)
                && r.value.razorpayPaymentId == req.paymentId
                && r.value.razorpayOrderId == req.orderId
                && r.value.patientId == patientId
                && exists k :: OnlyMatchAt(users, k, req.booking.fields.doctorFirstName,
                                           req.booking.fields.doctorLastName, req.booking.fields.department)
                                && users[k].id == r.value.doctorId
      ensures |records| == |old(records)| + (if r.Ok? then 1 else 0)
    {
      var b := req.booking.fields;
      var resolution := LookupDoctor(users, b.doctorFirstName, b.doctorLastName, b.department);
      if !resolution.Resolved? {
        return Err(ResolutionError(resolution));
      }
      var appointment := NewAppointment(req, resolution.doctorId, patientId);
      var id := nextId;
      records := records[id := appointment];
      nextId := nextId + 1;
      r := Ok(appointment);
    }

    /** `getAllAppointments`: every document the query selects, unchanged. */
    method ListAppointments(q: AdminQuery) returns (result: map<Id, Appointment>)
      ensures forall id :: id in result <==> id in records && Selects(q, records[id])
      ensures forall id | id in result :: result[id] == records[id]
    {
      var filter := BuildFilter(q);
      result := map id | id in records && filter.Matches(records[id]) :: records[id];
    }
  }

  /** Sending the same update body twice leaves the store as sending it once. */
  method UpdateTwiceIsUpdateOnce(store: AppointmentStore, id: Id, body: Patch)
    requires store.Valid()
    modifies store
    ensures store.Valid()
    ensures id in old(store.records) ==> store.records == old(store.records)[id := Merge(old(store.records)[id], body)]
    ensures id !in old(store.records) ==> store.records == old(store.records)
  {
    var first := store.UpdateStatus(id, body);
    var second := store.UpdateStatus(id, body);
    if id in old(store.records) {
      MergeIdempotent(old(store.records)[id], body);
    }
  }
}
