/** The admin listing's query filter: sparse string parameters become a
    conjunction of constraints on appointment documents. */
module Filters {
  import opened Common
  import opened Records
  import Strings

  /** The query-string parameters of the listing; an absent parameter is "". */
  datatype AdminQuery = AdminQuery(
    status: string,
    appointmentDate: string,
    doctor: string,
    department: string,
    hasVisited: string,
    patientName: string)

  /** The filter object, one optional constraint per key. */
  datatype Filter = Filter(
    status: Option<string>,
    appointmentDate: Option<string>,
    doctorFirstName: Option<string>,
    doctorLastName: Option<string>,
    department: Option<string>,
    hasVisited: Option<bool>,
    patientName: Option<string>)
  {
    /** How the store reads the filter: every key present must hold; the
        patient-name key holds when either name contains it, ignoring case. */
    predicate Matches(a: Appointment)
    {
      && (status.Some? ==> a.status == status.value)
      && (appointmentDate.Some? ==> a.appointmentDate == appointmentDate.value)
      && (doctorFirstName.Some? ==> a.doctor.firstName == doctorFirstName.value)
      && (doctorLastName.Some? ==> a.doctor.lastName == doctorLastName.value)
      && (department.Some? ==> a.department == department.value)
      && (hasVisited.Some? ==> a.hasVisited == hasVisited.value)
      && (patientName.Some? ==>
            Strings.ContainsIgnoringCase(a.firstName, patientName.value) ||
            Strings.ContainsIgnoringCase(a.lastName, patientName.value))
    }
  }

  /** "" and the sentinel "All" leave a field unconstrained. */
  predicate IsWildcard(p: string)
  {
    p == "" || p == "All"
  }

  /** The doctor parameter names the doctor by its space-separated tokens: the
      first is the first name; the second, when there is a non-empty one, is
      the last name; any further tokens are ignored. */
  predicate NamesDoctor(doctor: string, d: DoctorName)
  {
    var tokens := Strings.SplitOnSpace(doctor);
    d.firstName == tokens[0] && (|tokens| < 2 || tokens[1] == "" || d.lastName == tokens[1])
  }

  /** Which appointments a query is meant to list, stated field by field. */
  predicate Selects(q: AdminQuery, a: Appointment)
  {
    && (IsWildcard(q.status) || a.status == q.status)
    && (q.appointmentDate == "" || a.appointmentDate == q.appointmentDate)
    && (q.doctor == "" || NamesDoctor(q.doctor, a.doctor))
    && (q.department == "" || a.department == q.department)
    && (IsWildcard(q.hasVisited) || a.hasVisited == (q.hasVisited == "true"))
    && (q.patientName == "" ||
        Strings.ContainsIgnoringCase(a.firstName, q.patientName) ||
        Strings.ContainsIgnoringCase(a.lastName, q.patientName))
  }

  /** The keys the listing sets for a query: a key for every parameter that is
      neither "" nor (for status and hasVisited) "All"; the doctor parameter
      gives the first-name key and, when its second token is non-empty, the
      last-name key. */
  predicate Encodes(q: AdminQuery, f: Filter)
  {
    var tokens := Strings.SplitOnSpace(q.doctor);
    && f.status == (if IsWildcard(q.status) then None else Some(q.status))
    && f.appointmentDate == (if q.appointmentDate == "" then None else Some(q.appointmentDate))
    && f.doctorFirstName == (if q.doctor == "" then None else Some(tokens[0]))
    && f.doctorLastName == (if q.doctor != "" && |tokens| > 1 && tokens[1] != "" then Some(tokens[1]) else None)
    && f.department == (if q.department == "" then None else Some(q.department))
    && f.hasVisited == (if IsWildcard(q.hasVisited) then None else Some(q.hasVisited == "true"))
    && f.patientName == (if q.patientName == "" then None else Some(q.patientName))
  }

  /** A filter with those keys selects what the query is meant to select. */
  lemma FilterMeaning(q: AdminQuery, f: Filter, a: Appointment)
    requires Encodes(q, f)
    ensures f.Matches(a) <==> Selects(q, a)
  {
  }

  /** The filter built in `getAllAppointments`, one key at a time. */
  method BuildFilter(q: AdminQuery) returns (f: Filter)
    ensures Encodes(q, f)
    ensures forall a :: f.Matches(a) <==> Selects(q, a)
    ensures IsWildcard(q.status) <==> f.status.None?
    ensures IsWildcard(q.hasVisited) <==> f.hasVisited.None?
    ensures f.hasVisited.Some? ==> (f.hasVisited.value <==> q.hasVisited == "true")
    ensures q.doctor != "" ==> f.doctorFirstName == Some(Strings.SplitOnSpace(q.doctor)[0])
  {
    f := Filter(None, None, None, None, None, None, None);
    if !IsWildcard(q.status) {
      f := f.(status := Some(q.status));
    }
    if q.appointmentDate != "" {
      f := f.(appointmentDate := Some(q.appointmentDate));
    }
    if q.doctor != "" {
      var tokens := Strings.SplitOnSpace(q.doctor);
      f := f.(doctorFirstName := Some(tokens[0]));
      if |tokens| > 1 && tokens[1] != "" {
        f := f.(doctorLastName := Some(tokens[1]));
      }
    }
    if q.department != "" {
      f := f.(department := Some(q.department));
    }
    if !IsWildcard(q.hasVisited) {
      f := f.(hasVisited := Some(q.hasVisited == "true"));
    }
    if q.patientName != "" {
      f := f.(patientName := Some(q.patientName));
    }
    forall a
      ensures f.Matches(a) <==> Selects(q, a)
    {
      FilterMeaning(q, f, a);
    }
  }

  /** A query with no parameters lists every appointment. */
  lemma EmptyQuerySelectsAll(a: Appointment)
    ensures Selects(AdminQuery("", "", "", "", "", ""), a)
  {
  }

  /** `{status: "All", hasVisited: "true"}` lists exactly the appointments of
      returning patients, whatever their status. */
  lemma ReturningPatientsOfAnyStatus(a: Appointment)
    ensures Selects(AdminQuery("All", "", "", "", "true", ""), a) <==> a.hasVisited
  {
  }

  /** Any hasVisited value other than "", "All" and "true" selects first visits. */
  lemma OtherVisitedValuesMeanFalse(q: AdminQuery, a: Appointment)
    requires !IsWildcard(q.hasVisited) && q.hasVisited != "true"
    requires Selects(q, a)
    ensures !a.hasVisited
  {
  }

  /** The doctor tokens: the first name is the text before the first space, and
      a doctor given as "first last" is matched on both names. */
  lemma {:induction false} DoctorTokens(first: string, last: string, d: DoctorName)
    requires first != "" && ' ' !in first && ' ' !in last
    ensures NamesDoctor(first, d) <==> d.firstName == first
    ensures NamesDoctor(first + " " + last, d) <==>
              d.firstName == first && (last == "" || d.lastName == last)
  {
    Strings.SplitJoin([first]);
    Strings.SplitJoin([first, last]);
    assert Strings.JoinWithSpace([first, last]) == first + " " + last;
  }
}
