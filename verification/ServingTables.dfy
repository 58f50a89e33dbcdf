/** The tables the serving protocol reads and writes, one datatype per row.

    A table keyed by an auto-increment id is a sequence, and a row's position is its id.  SHA-256 is
    taken to be injective, so a digest column holds the value that was hashed.
 */
module ServingTables {
  import opened Options

  type Uuid = nat   // a request id; the all-zero UUID is refused before it gets here
  type Token = nat  // a QR token, identified with its digest

  datatype Code =
    | APPROVED | DUPLICATE_REQUEST
    // refused before a request is reserved
    | INVALID_REQUEST_ID | INVALID_QR | INVALID_MEAL_TYPE_ID | INVALID_QUANTITY | INVALID_AUTHORIZATION_ID
    | INVALID_SCAN_READ_INPUT | INVALID_VISITOR_DETAILS | INVALID_SCANNER_CODE | AUTHENTICATION_REQUIRED
    | INVALID_SCANNER_BROWSER | SCANNER_NOT_CONFIGURED | SCAN_APP_UNAVAILABLE | STAFF_INACTIVE | ROLE_REQUIRED
    // refused because the request id is already taken
    | REQUEST_MISMATCH | IDEMPOTENCY_KEY_REUSED | IDEMPOTENCY_PROOF_UNAVAILABLE
    // refused while processing
    | AUTHENTICATION_CHANGED | PROCESSING_INTERRUPTED
    | UNKNOWN_SCANNER | SCANNER_INACTIVE | LOCATION_INACTIVE | SCANNER_LOCATION_CHANGED
    | MEAL_TYPE_UNAVAILABLE | UNKNOWN_QR | QR_REVOKED | QR_EXPIRED | EMPLOYEE_INACTIVE
    | EMPLOYEE_QUANTITY_MUST_BE_ONE | AUTHORIZATION_NOT_APPLICABLE | VISITOR_DETAILS_NOT_APPLICABLE
    | MEAL_TYPE_NOT_ELIGIBLE | MEAL_TYPE_ALREADY_RECORDED
    | VISITOR_QUANTITY_MUST_BE_ONE | MASTER_ALLOCATION_SCOPE_MISMATCH
    | MASTER_MEAL_TYPE_NOT_ALLOWED | MASTER_MEAL_TYPE_USED_UP
    | VISITOR_DETAILS_AUTHORIZATION_CONFLICT | VISITOR_DETAILS_REQUIRED
    | AUTHORIZATION_SCOPE_MISMATCH | AUTHORIZATION_NOT_FOUND | AUTHORIZING_ADMIN_UNAVAILABLE
    | AUTHORIZATION_REVOKED | AUTHORIZATION_EXPIRED
    // answers of the pre-approval, the correction and the receipt lookup
    | WAITER_UNAVAILABLE | MASTER_QR_REQUIRED | INVALID_AUTHORIZATION_EXPIRY | REQUEST_ALREADY_FINALIZED
    | AUTHORIZATION_ALREADY_EXISTS | MEAL_NOT_FOUND | MEAL_TYPE_UNCHANGED
    | SCAN_RECEIPT_NOT_FOUND | PROCESSING_UNCONFIRMED | SCAN_RECEIPT_UNCONFIRMED

  datatype Kind = EMPLOYEE | MASTER
  datatype Status = PENDING | SUCCEEDED | REJECTED
  datatype Outcome = RECEIVED | SUCCESS | REFUSED | AWAITING_DETAILS

  datatype Visitor = Visitor(company: string, name: string, email: Option<string>, phone: string)

  /** What a scan shows beyond its fingerprint: an administrator's approval or the visitor's own details. */
  datatype Proof = Proof(authorization: Option<int>, visitor: Option<Visitor>)

  /** The scanner a code resolves to and where it stands; both are null for an unknown code. */
  datatype Place = Place(scanner: Option<nat>, location: Option<nat>)

  datatype Fingerprint = Fingerprint(token: Token, staff: nat, place: Place, mealType: int, quantity: int)

  datatype Request = Request(hash: Fingerprint, status: Status, code: Option<Code>, bound: Option<Proof>)

  datatype Attempt = Attempt(
    request: Option<Uuid>, hash: Option<Fingerprint>, token: Option<Token>, staff: Option<nat>, place: Place,
    reported: Option<string>, outcome: Outcome, code: Option<Code>, serving: Option<nat>, qr: Option<nat>,
    receivedAt: int)

  datatype Serving = Serving(
    request: Uuid, qr: nat, kind: Kind, employee: Option<nat>, mealType: int, quantity: nat, waiter: nat,
    place: Place, authorization: Option<int>, at: int, visitor: Option<Visitor>)

  datatype Meal = Meal(serving: nat, unit: nat, quantity: nat, at: int)
  datatype Correction = Correction(meal: nat, seen: int, to: int)

  datatype Qr = Qr(kind: Kind, employee: Option<nat>, token: Token, revoked: bool, expires: Option<int>)

  /** One meal type of a visitor QR (master_qr_meal_types). */
  datatype Allowance = Allowance(limit: nat, used: nat, exhausted: bool)
  /** The summary row of a visitor QR (master_qr_allocations). */
  datatype Allocation = Allocation(visitor: Visitor, limit: nat, used: int, exhausted: bool)

  /** An administrator's approval; the table is keyed by its request, which has at most one. */
  datatype Authorization = Authorization(
    id: int, qr: nat, mealType: int, quantity: int, waiter: nat, place: Place, admin: nat, expires: int, revoked: bool)

  datatype Device = Device(location: nat, active: bool, locationActive: bool)

  /** Reference data the protocol only reads.  It may change in any way between two transactions. */
  datatype World = World(
    scanners: map<string, nat>, devices: map<nat, Device>, activeMealTypes: set<int>,
    activeEmployees: set<nat>, eligible: set<(nat, int)>, admins: set<nat>, waiters: set<nat>)

  /** What `_receive` hands to `_process`: the receipt together with the scan it was made for. */
  datatype Call = Call(
    request: Uuid, fingerprint: Fingerprint, token: Token, staff: nat, place: Place, code: string, mealType: int,
    quantity: nat, proof: Proof, reading: bool, public: bool)

  datatype Tables = Tables(
    now: int, lock: nat, world: World,
    qrs: map<nat, Qr>, tokens: map<Token, nat>,
    requests: map<Uuid, Request>, attempts: seq<Attempt>, servings: seq<Serving>, meals: seq<Meal>,
    corrections: seq<Correction>, voids: set<nat>,
    authorizations: map<Uuid, Authorization>,
    allocations: map<nat, Allocation>, allowances: map<nat, map<int, Allowance>>,
    calls: map<nat, Call>)  // not a table: the receipts that running `_record` calls hold in memory

  predicate Final(r: Request) { r.status != PENDING }

  // ---- Inserted rows ----

  /** The meal rows of a new serving, numbered from 1. */
  function Units(s: nat, quantity: nat, at: int): (block: seq<Meal>)
    ensures |block| == quantity
    ensures forall k :: 0 <= k < quantity ==> block[k] == Meal(s, k + 1, quantity, at)
  {
    seq(quantity, u requires 0 <= u => Meal(s, u + 1, quantity, at))
  }

  /** The ids the next `n` rows of a table of length `from` get. */
  function FreshIds(from: nat, n: nat): (ids: seq<nat>)
    ensures |ids| == n
    ensures forall i :: 0 <= i < n ==> ids[i] == from + i
  {
    seq(n, i requires 0 <= i => from + i)
  }

  // ---- Queries ----

  /** The earliest attempt of request `r` carrying hash `h`, or the table's length if there is none. */
  function First(attempts: seq<Attempt>, r: Uuid, h: Fingerprint, from: nat := 0): (i: nat)
    requires from <= |attempts|
    ensures from <= i <= |attempts|
    ensures i < |attempts| ==> attempts[i].request == Some(r) && attempts[i].hash == Some(h)
    ensures forall k :: from <= k < i ==> !(attempts[k].request == Some(r) && attempts[k].hash == Some(h))
    decreases |attempts| - from
  {
    if from == |attempts| || (attempts[from].request == Some(r) && attempts[from].hash == Some(h)) then from
    else First(attempts, r, h, from + 1)
  }

  /** The serving of request `r`, or the table's length if there is none. */
  function ServingOf(servings: seq<Serving>, r: Uuid, from: nat := 0): (i: nat)
    requires from <= |servings|
    ensures from <= i <= |servings|
    ensures i < |servings| ==> servings[i].request == r
    ensures forall k :: from <= k < i ==> servings[k].request != r
    decreases |servings| - from
  {
    if from == |servings| || servings[from].request == r then from else ServingOf(servings, r, from + 1)
  }

  /** The ids of the meals of serving `s`, in id order. */
  function MealsOf(meals: seq<Meal>, s: nat): seq<nat> {
    if meals == [] then []
    else
      var k := |meals| - 1;
      MealsOf(meals[..k], s) + if meals[k].serving == s then [k] else []
  }

  /** The type a meal counts as: its latest correction, or else the type recorded with its serving. */
  function EffectiveType(corrections: seq<Correction>, m: nat, recorded: int): int {
    if corrections == [] then recorded
    else
      var k := |corrections| - 1;
      if corrections[k].meal == m then corrections[k].to else EffectiveType(corrections[..k], m, recorded)
  }

  /** How many servings the QR `q` has had of the recorded type `mealType`. */
  function ServedOf(servings: seq<Serving>, q: nat, mealType: int): nat {
    if servings == [] then 0
    else
      var k := |servings| - 1;
      ServedOf(servings[..k], q, mealType) + if servings[k].qr == q && servings[k].mealType == mealType then 1 else 0
  }

  /** `v` is the largest remaining count over the meal types of one visitor QR. */
  predicate IsMostRemaining(types: map<int, Allowance>, v: int) {
    && (exists k :: k in types && types[k].limit - types[k].used == v)
    && (forall k :: k in types ==> types[k].limit - types[k].used <= v)
  }

  lemma {:induction false} MostRemainingExists(types: map<int, Allowance>)
    requires exists k :: k in types
    ensures exists v :: IsMostRemaining(types, v)
    decreases |types|
  {
    var k :| k in types;
    var v, rest := types[k].limit - types[k].used, types - {k};
    assert forall j :: j in types ==> j == k || j in rest;
    if exists j :: j in rest {
      MostRemainingExists(rest);
      var w :| IsMostRemaining(rest, w);
      assert IsMostRemaining(types, if v < w then w else v);
    } else {
      assert IsMostRemaining(types, v);
    }
  }

  /** SELECT MAX(meal_limit - meals_used) */
  ghost function MostRemaining(types: map<int, Allowance>): (v: int)
    requires exists k :: k in types
    ensures IsMostRemaining(types, v)
  {
    MostRemainingExists(types);
    var v :| IsMostRemaining(types, v);
    v
  }
}
