/** Doctor resolution: the doctors matching a (first name, last name,
    department) triple are looked up, and the length of that list decides
    the outcome. Both booking and confirmation resolve this way. */
module Doctors {
  import opened Common

  /** A user document as the lookup sees it. */
  datatype User = User(id: Id, firstName: string, lastName: string, role: string, doctorDepartment: string)

  /** The lookup's exact-match query. */
  predicate IsMatch(u: User, firstName: string, lastName: string, department: string)
  {
    u.firstName == firstName && u.lastName == lastName && u.role == "Doctor" && u.doctorDepartment == department
  }

  /** No user in the directory matches. */
  ghost predicate NoMatch(users: seq<User>, firstName: string, lastName: string, department: string)
  {
    forall i | 0 <= i < |users| :: !IsMatch(users[i], firstName, lastName, department)
  }

  /** Two different entries of the directory match. */
  ghost predicate TwoMatches(users: seq<User>, firstName: string, lastName: string, department: string)
  {
    exists i, j | 0 <= i < j < |users| ::
      IsMatch(users[i], firstName, lastName, department) && IsMatch(users[j], firstName, lastName, department)
  }

  /** Entry `k` matches and no other entry does. */
  ghost predicate OnlyMatchAt(users: seq<User>, k: int, firstName: string, lastName: string, department: string)
  {
    && 0 <= k < |users|
    && IsMatch(users[k], firstName, lastName, department)
    && forall i | 0 <= i < |users| && i != k :: !IsMatch(users[i], firstName, lastName, department)
  }

  /** `User.find({ firstName, lastName, role: "Doctor", doctorDepartment })`:
      the matching users, in directory order. */
  function FindDoctors(users: seq<User>, firstName: string, lastName: string, department: string): (found: seq<User>)
    ensures |found| <= |users|
    ensures forall u | u in found :: u in users && IsMatch(u, firstName, lastName, department)
  {
    if users == [] then []
    else
      var rest := FindDoctors(users[1..], firstName, lastName, department);
      if IsMatch(users[0], firstName, lastName, department) then [users[0]] + rest else rest
  }

  /** The length of the lookup's result tells none, one or several matches
      apart, and a single result is the one matching entry. */
  ghost predicate LengthTellsMatches(users: seq<User>, firstName: string, lastName: string, department: string)
  {
    var found := FindDoctors(users, firstName, lastName, department);
    && (|found| == 0 <==> NoMatch(users, firstName, lastName, department))
    && (|found| >= 2 <==> TwoMatches(users, firstName, lastName, department))
    && (|found| == 1 ==> exists k :: OnlyMatchAt(users, k, firstName, lastName, department) && found[0] == users[k])
  }

  lemma {:induction false} FindDoctorsCount(users: seq<User>, firstName: string, lastName: string, department: string)
    ensures LengthTellsMatches(users, firstName, lastName, department)
  {
    if users != [] {
      FindDoctorsCount(users[1..], firstName, lastName, department);
      if IsMatch(users[0], firstName, lastName, department) {
        CountWhenFirstMatches(users, firstName, lastName, department);
      } else {
        CountWhenFirstDiffers(users, firstName, lastName, department);
      }
    }
  }

  /** Inductive step when the first entry matches. */
  lemma CountWhenFirstMatches(users: seq<User>, firstName: string, lastName: string, department: string)
    requires users != [] && IsMatch(users[0], firstName, lastName, department)
    requires LengthTellsMatches(users[1..], firstName, lastName, department)
    ensures LengthTellsMatches(users, firstName, lastName, department)
  {
    var rest := users[1..];
    var foundRest := FindDoctors(rest, firstName, lastName, department);
    assert FindDoctors(users, firstName, lastName, department) == [users[0]] + foundRest;
    if |foundRest| >= 1 {
      var j :| 0 <= j < |rest| && IsMatch(rest[j], firstName, lastName, department);
      assert users[j + 1] == rest[j];
      assert IsMatch(users[0], firstName, lastName, department) && IsMatch(users[j + 1], firstName, lastName, department);
    } else {
      forall i | 0 < i < |users|
        ensures !IsMatch(users[i], firstName, lastName, department)
      {
        assert users[i] == rest[i - 1];
      }
      assert OnlyMatchAt(users, 0, firstName, lastName, department);
    }
  }

  /** Inductive step when the first entry does not match. */
  lemma CountWhenFirstDiffers(users: seq<User>, firstName: string, lastName: string, department: string)
    requires users != [] && !IsMatch(users[0], firstName, lastName, department)
    requires LengthTellsMatches(users[1..], firstName, lastName, department)
    ensures LengthTellsMatches(users, firstName, lastName, department)
  {
    var rest := users[1..];
    var foundRest := FindDoctors(rest, firstName, lastName, department);
    assert FindDoctors(users, firstName, lastName, department) == foundRest;
    if TwoMatches(users, firstName, lastName, department) {
      var i, j :| 0 <= i < j < |users| &&
        IsMatch(users[i], firstName, lastName, department) && IsMatch(users[j], firstName, lastName, department);
      assert rest[i - 1] == users[i] && rest[j - 1] == users[j];
    }
    if TwoMatches(rest, firstName, lastName, department) {
      var i, j :| 0 <= i < j < |rest| &&
        IsMatch(rest[i], firstName, lastName, department) && IsMatch(rest[j], firstName, lastName, department);
      assert users[i + 1] == rest[i] && users[j + 1] == rest[j];
    }
    if !NoMatch(users, firstName, lastName, department) {
      var i :| 0 <= i < |users| && IsMatch(users[i], firstName, lastName, department);
      assert rest[i - 1] == users[i];
    }
    if !NoMatch(rest, firstName, lastName, department) {
      var i :| 0 <= i < |rest| && IsMatch(rest[i], firstName, lastName, department);
      assert users[i + 1] == rest[i];
    }
    if |foundRest| == 1 {
      var k :| OnlyMatchAt(rest, k, firstName, lastName, department) && foundRest[0] == rest[k];
      forall i | 0 <= i < |users| && i != k + 1
        ensures !IsMatch(users[i], firstName, lastName, department)
      {
        if i > 0 {
          assert users[i] == rest[i - 1];
        }
      }
      assert OnlyMatchAt(users, k + 1, firstName, lastName, department);
    }
  }

  /** The three outcomes of resolution. */
  datatype Resolution = DoctorNotFound | DoctorConflict | Resolved(doctorId: Id)

  /** The case analysis on the length of the lookup's result. */
  function ResolveDoctor(found: seq<User>): (r: Resolution)
    ensures r == DoctorNotFound <==> |found| == 0
    ensures r == DoctorConflict <==> |found| > 1
    ensures r.Resolved? ==> |found| == 1 && r.doctorId == found[0].id
  {
    if |found| == 0 then DoctorNotFound
    else if |found| > 1 then DoctorConflict
    else Resolved(found[0].id)
  }

  /** Lookup and case analysis together, stated over the directory: a doctor is
      resolved only when exactly one entry matches, and then it is that entry. */
  function LookupDoctor(users: seq<User>, firstName: string, lastName: string, department: string): (r: Resolution)
    ensures r == DoctorNotFound <==> NoMatch(users, firstName, lastName, department)
    ensures r == DoctorConflict <==> TwoMatches(users, firstName, lastName, department)
    ensures r.Resolved? ==> exists k :: OnlyMatchAt(users, k, firstName, lastName, department) && users[k].id == r.doctorId
  {
    FindDoctorsCount(users, firstName, lastName, department);
    ResolveDoctor(FindDoctors(users, firstName, lastName, department))
  }

  /** A single matching entry is always the one resolved. */
  lemma OnlyMatchIsResolved(users: seq<User>, k: int, firstName: string, lastName: string, department: string)
    requires OnlyMatchAt(users, k, firstName, lastName, department)
    ensures LookupDoctor(users, firstName, lastName, department) == Resolved(users[k].id)
  {
    assert !NoMatch(users, firstName, lastName, department);
  }

  /** The message and status each failed resolution answers with. */
  function ResolutionError(r: Resolution): HttpError
    requires !r.Resolved?
  {
    if r == DoctorNotFound then HttpError(404, "Doctor not found")
    else HttpError(400, "Doctors Conflict! Please Contact Through Email Or Phone!")
  }

  /** Two cardiologists named John Smith: resolution refuses to pick one. */
  lemma TwoJohnSmithsConflict(a: Id, b: Id)
    ensures LookupDoctor([User(a, "John", "Smith", "Doctor", "Cardiology"),
                          User(b, "John", "Smith", "Doctor", "Cardiology")],
                         "John", "Smith", "Cardiology") == DoctorConflict
  {
    var users := [User(a, "John", "Smith", "Doctor", "Cardiology"), User(b, "John", "Smith", "Doctor", "Cardiology")];
    assert IsMatch(users[0], "John", "Smith", "Cardiology") && IsMatch(users[1], "John", "Smith", "Cardiology");
  }
}
