/** The server's consultation-fee table and the payment-order options built
    from it. */
module Fees {
  import opened Common

  /** `departmentFees`: consultation fee per department, in rupees. */
  const DepartmentFees: map<string, nat> := map[
    "Pediatrics" := 500,
    "Orthopedics" := 700,
    "Cardiology" := 1000,
    "Neurology" := 1200,
    "Oncology" := 1500,
    "Radiology" := 800,
    "Physical Therapy" := 600,
    "Dermatology" := 750,
    "ENT" := 650]

  /** The nine departments the table knows. */
  const KnownDepartments: set<string> := {
    "Pediatrics", "Orthopedics", "Cardiology", "Neurology", "Oncology",
    "Radiology", "Physical Therapy", "Dermatology", "ENT"}

  /** The table is closed over the nine departments and every fee is positive. */
  lemma FeeTableShape()
    ensures DepartmentFees.Keys == KnownDepartments
    ensures |KnownDepartments| == 9
    ensures forall d | d in DepartmentFees :: 500 <= DepartmentFees[d] <= 1500
  {
    TableKeys();
    TableSize();
    TableBounds();
  }

  // The three facts are proved one per lemma: together in one proof they
  // cost the solver several times as much.

  lemma TableKeys()
    ensures DepartmentFees.Keys == KnownDepartments
  {
  }

  lemma TableSize()
    ensures |KnownDepartments| == 9
  {
  }

  lemma TableBounds()
    ensures forall d | d in DepartmentFees :: 500 <= DepartmentFees[d] <= 1500
  {
  }

  /** Fee lookup on the table's own keys (the corrected lookup, see below). */
  function FeeOf(department: string): (fee: Option<nat>)
    ensures fee.Some? <==> department in KnownDepartments
    ensures fee.Some? ==> fee.value == DepartmentFees[department] && 500 <= fee.value <= 1500
  {
    FeeTableShape();
    if department in DepartmentFees then Some(DepartmentFees[department]) else None
  }

  /** The options sent to the gateway's order-creation call (the receipt label,
      derived from the clock, is not modelled). */
  datatype OrderOptions = OrderOptions(amount: int, currency: string)

  const InvalidDepartment := HttpError(400, "Invalid Department!")

  /** The fee guard and the order options: the amount is the fee in paise. */
  function OrderFor(department: string): (r: Result<OrderOptions>)
    ensures r.Ok? <==> department in KnownDepartments
    ensures r.Ok? ==> r.value.currency == "INR" && r.value.amount == DepartmentFees[department] * 100
    ensures r.Ok? ==> 50000 <= r.value.amount <= 150000 && r.value.amount % 100 == 0
    ensures r.Err? ==> r.error == InvalidDepartment
  {
    match FeeOf(department)
    case None => Err(InvalidDepartment)
    case Some(fee) => Ok(OrderOptions(fee * 100, "INR"))
  }

  /** A Cardiology booking asks the gateway for 100000 paise. */
  lemma CardiologyOrder()
    ensures OrderFor("Cardiology") == Ok(OrderOptions(100000, "INR"))
  {
  }

  // ---------------------------------------------------------------------
  // The lookup as written: `departmentFees[department]` on a plain object
  // literal also sees the members every object inherits.

  /** Names every plain object inherits from `Object.prototype`. */
  const ObjectPrototypeMembers: set<string> := {
    "constructor", "hasOwnProperty", "isPrototypeOf", "propertyIsEnumerable",
    "toLocaleString", "toString", "valueOf", "__proto__",
    "__defineGetter__", "__defineSetter__", "__lookupGetter__", "__lookupSetter__"}

  /** What `departmentFees[department]` evaluates to. */
  datatype Property = OwnFee(fee: nat) | InheritedMember | Undefined

  function PropertyAsWritten(department: string): (p: Property)
    ensures p.OwnFee? <==> department in KnownDepartments
    ensures p.OwnFee? ==> p.fee == DepartmentFees[department]
    ensures p.InheritedMember? <==> department !in KnownDepartments && department in ObjectPrototypeMembers
  {
    FeeTableShape();
    if department in DepartmentFees then OwnFee(DepartmentFees[department])
    else if department in ObjectPrototypeMembers then InheritedMember
    else Undefined
  }

  /** `!amount` is false: the value is truthy (a non-zero number, or an inherited
      function or object). */
  predicate PassesFeeGuardAsWritten(department: string)
  {
    match PropertyAsWritten(department)
    case OwnFee(fee) => fee != 0
    case InheritedMember => true
    case Undefined => false
  }

  /** The guard as written lets through a department that has no fee: for
      "constructor" the amount is a function and `amount * 100` is NaN. */
  lemma InheritedNamePassesFeeGuard()
    ensures PassesFeeGuardAsWritten("constructor")
    ensures "constructor" !in KnownDepartments && OrderFor("constructor").Err?
  {
  }

  /** The corrected guard (`FeeOf`) passes exactly the departments whose fee is
      the table's own, which the guard as written also passes; it differs only
      on inherited names. */
  lemma CorrectedGuardAgreesOnOwnKeys(department: string)
    ensures FeeOf(department).Some? ==> PassesFeeGuardAsWritten(department)
    ensures (FeeOf(department).None? && PassesFeeGuardAsWritten(department)) <==>
            (department !in KnownDepartments && department in ObjectPrototypeMembers)
  {
  }
}
