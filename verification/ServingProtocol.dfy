/** What each transaction of the serving protocol does to the tables, as a function from the old tables to
    the new ones.  A transaction is one step: it runs under the row locks it takes.

    A refused decision is described here by its net effect; the service class performs the partial writes
    and the savepoint rollback, and is proved to have this effect.
 */
module ServingProtocol {
  import opened Options
  import opened ServingTables

  datatype ActorCheck = Staff(id: nat) | Denied(code: Code)

  datatype VisitorInput = NoVisitor | BadVisitor(code: Code) | GivenVisitor(visitor: Visitor)

  /** A scan as it arrives.  A malformed request id, token or scanner code is `None`; `rawCode` is the text
      recorded for a scan whose code was not accepted. */
  datatype Scan = Scan(
    request: Option<Uuid>, token: Option<Token>, mealType: int, quantity: int, authorization: Option<int>,
    visitor: VisitorInput, rawCode: Option<string>, code: Option<string>)

  datatype Reply =
    | Answer(approved: bool, code: Code, serving: Option<nat>, meals: seq<nat>, duplicate: bool)
    | NeedsDetails
    | Unconfirmed  // the transaction raised: nothing of it was committed

  datatype Reception = Received(attempt: nat, call: Call) | NotReceived(code: Code)

  function No(code: Code): Reply { Answer(false, code, None, [], false) }

  // ---- Receiving ----

  predicate Identifier(x: int) { 1 <= x < 0x1_0000_0000_0000_0000 }

  /** The first complaint about a scan, in the order the checks are made. */
  function Complaint(actor: ActorCheck, scan: Scan, reading: bool): Option<Code> {
    if actor.Denied? then Some(actor.code)
    else if scan.request.None? then Some(INVALID_REQUEST_ID)
    else if scan.token.None? then Some(INVALID_QR)
    else if !Identifier(scan.mealType) then Some(INVALID_MEAL_TYPE_ID)
    else if !(1 <= scan.quantity <= 65535) then Some(INVALID_QUANTITY)
    else if scan.authorization.Some? && !Identifier(scan.authorization.value) then Some(INVALID_AUTHORIZATION_ID)
    else if reading && (scan.quantity != 1 || scan.authorization.Some? || !scan.visitor.NoVisitor?)
    then Some(INVALID_SCAN_READ_INPUT)
    else if scan.visitor.BadVisitor? then Some(scan.visitor.code)
    else if scan.visitor.GivenVisitor? && scan.authorization.Some? then Some(VISITOR_DETAILS_AUTHORIZATION_CONFLICT)
    else if scan.visitor.GivenVisitor? && scan.quantity != 1 then Some(VISITOR_QUANTITY_MUST_BE_ONE)
    else if scan.code.None? then Some(INVALID_SCANNER_CODE)
    else None
  }

  function Locate(w: World, code: Option<string>): Place {
    if code.Some? && code.value in w.scanners && w.scanners[code.value] in w.devices
    then Place(Some(w.scanners[code.value]), Some(w.devices[w.scanners[code.value]].location))
    else Place(None, None)
  }

  /** `reserve_request`: the row already there, or a new pending one. */
  function Reserved(requests: map<Uuid, Request>, r: Uuid, h: Fingerprint): map<Uuid, Request> {
    if r in requests then requests else requests[r := Request(h, PENDING, None, None)]
  }

  /** How a repeated scan of a final request is identified: by the place stored with the first attempt that
      carries the request's own hash, whatever place the scanner has now. */
  datatype Identified = Same(hash: Fingerprint) | Mismatch(code: Code)

  function Identify(t: Tables, request: Uuid, row: Request, h: Fingerprint, code: string): (r: Identified)
    ensures r.Same? ==> r.hash == h.(place := r.hash.place)
    ensures !Final(row) ==> r == Same(h)
  {
    if !Final(row) then Same(h)
    else
      var i := First(t.attempts, request, row.hash);
      if i == |t.attempts| then Mismatch(IDEMPOTENCY_PROOF_UNAVAILABLE)
      else if t.attempts[i].reported != Some(code) then Mismatch(IDEMPOTENCY_KEY_REUSED)
      else Same(h.(place := t.attempts[i].place))
  }

  function Fail(attempt: Attempt, code: Code): Attempt { attempt.(outcome := REFUSED, code := Some(code)) }

  /** A scan with a complaint is logged without naming its request. */
  function Decline(t: Tables, actor: ActorCheck, scan: Scan, code: Code): (Tables, Reception) {
    var known := actor.Staff? && scan.request.Some?;
    var attempt := Attempt(None, None, if known then scan.token else None, if actor.Staff? then Some(actor.id) else None,
                           Locate(t.world, scan.rawCode), scan.rawCode, REFUSED, Some(code), None, None, t.now);
    (t.(attempts := t.attempts + [attempt]),
     NotReceived(if known && scan.request.value in t.requests then REQUEST_MISMATCH else code))
  }

  /** The row that logs a scan, with the fingerprint it was identified by. */
  function Arrival(scan: Scan, staff: nat, place: Place, hash: Fingerprint, identified: Identified, now: int): Attempt {
    var attempt := Attempt(scan.request, Some(hash), scan.token, Some(staff), place, scan.code, RECEIVED, None, None,
                           None, now);
    if identified.Same? then attempt.(hash := Some(identified.hash)) else Fail(attempt, identified.code)
  }

  function ScanProof(scan: Scan): Proof {
    Proof(scan.authorization, if scan.visitor.GivenVisitor? then Some(scan.visitor.visitor) else None)
  }

  /** Any other scan reserves its request and is logged with its fingerprint. */
  function Accept(t: Tables, staff: nat, scan: Scan, reading: bool, public: bool): (Tables, Reception)
    requires scan.request.Some? && scan.token.Some? && scan.code.Some? && scan.quantity >= 0
  {
    var id, place, a := scan.request.value, Locate(t.world, scan.code), |t.attempts|;
    var hash := Fingerprint(scan.token.value, staff, place, scan.mealType, scan.quantity);
    var requests := Reserved(t.requests, id, hash);
    var identified := Identify(t, id, requests[id], hash, scan.code.value);
    var reception :=
      if identified.Mismatch? then NotReceived(identified.code)
      else Received(a, Call(id, identified.hash, scan.token.value, staff, place, scan.code.value, scan.mealType,
                            scan.quantity, ScanProof(scan), reading, public));
    (t.(requests := requests, attempts := t.attempts + [Arrival(scan, staff, place, hash, identified, t.now)],
        calls := if reception.Received? then t.calls[a := reception.call] else t.calls),
     reception)
  }

  function Receive(t: Tables, actor: ActorCheck, scan: Scan, reading: bool, public: bool): (Tables, Reception) {
    match Complaint(actor, scan, reading)
    case Some(code) => Decline(t, actor, scan, code)
    case None => Accept(t, actor.id, scan, reading, public)
  }

  // ---- Deciding ----

  datatype Verdict =
    | Serve(qr: nat, employee: Option<nat>, visitor: Option<Visitor>, counted: bool)
    | Await(qr: nat)
    | Refuse(code: Code)
    | RefuseAttempt(code: Code)

  /** `lock_scanner` */
  function ScannerProblem(w: World, code: string): Option<Code> {
    if code !in w.scanners || w.scanners[code] !in w.devices then Some(UNKNOWN_SCANNER)
    else
      var d := w.devices[w.scanners[code]];
      if !d.active then Some(SCANNER_INACTIVE) else if !d.locationActive then Some(LOCATION_INACTIVE) else None
  }

  /** `check_qr` */
  function QrProblem(qr: Qr, now: int): Option<Code> {
    if qr.revoked then Some(QR_REVOKED)
    else if qr.expires.Some? && qr.expires.value <= now then Some(QR_EXPIRED)
    else None
  }

  /** Meal `m` is an unvoided meal of `employee`, counts as `mealType`, and was served after `since`. */
  predicate Blocks(t: Tables, m: nat, employee: nat, mealType: int, since: int)
    requires m < |t.meals|
  {
    var s := t.meals[m].serving;
    && s < |t.servings|
    && t.servings[s].employee == Some(employee)
    && t.servings[s].at > since
    && m !in t.voids
    && EffectiveType(t.corrections, m, t.servings[s].mealType) == mealType
  }

  predicate Blocked(t: Tables, employee: nat, mealType: int, since: int) {
    exists m | 0 <= m < |t.meals| :: Blocks(t, m, employee, mealType, since)
  }

  /** `_check_employee_meal_type` */
  function EmployeeProblem(t: Tables, employee: nat, mealType: int): Option<Code> {
    if (employee, mealType) !in t.world.eligible then Some(MEAL_TYPE_NOT_ELIGIBLE)
    else if t.lock == 0 then None
    else if Blocked(t, employee, mealType, t.now - t.lock) then Some(MEAL_TYPE_ALREADY_RECORDED)
    else None
  }

  /** `_use_master_meal_type`, as far as it can refuse */
  function AllowanceProblem(t: Tables, qr: nat, mealType: int): Option<Code> {
    if qr !in t.allowances || mealType !in t.allowances[qr] then Some(MASTER_MEAL_TYPE_NOT_ALLOWED)
    else
      var a := t.allowances[qr][mealType];
      if a.exhausted || a.used >= a.limit then Some(MASTER_MEAL_TYPE_USED_UP) else None
  }

  /** `_validate_authorization`.  The approval named by the scan is either the one prepared for this request
      or one of another request, which is out of scope. */
  function AuthorizationProblem(t: Tables, call: Call, staff: nat, qr: nat): Option<Code>
    requires call.proof.authorization.Some?
  {
    var id := call.proof.authorization.value;
    if !(exists r | r in t.authorizations :: t.authorizations[r].id == id) then Some(AUTHORIZATION_NOT_FOUND)
    else if call.request !in t.authorizations then Some(AUTHORIZATION_SCOPE_MISMATCH)
    else
      var a := t.authorizations[call.request];
      if a.qr != qr || a.mealType != call.mealType || a.quantity != call.quantity || a.waiter != staff
         || a.place != call.place
      then Some(AUTHORIZATION_SCOPE_MISMATCH)
      else if a.admin !in t.world.admins then Some(AUTHORIZING_ADMIN_UNAVAILABLE)
      else if a.revoked then Some(AUTHORIZATION_REVOKED)
      else if a.expires <= t.now then Some(AUTHORIZATION_EXPIRED)
      else None
  }

  /** A serving can only be decided for a known credential, and counted only against an allowance it has. */
  predicate Grounded(t: Tables, call: Call, v: Verdict) {
    v.Serve? ==>
      && v.qr in t.qrs
      && (v.counted ==> v.qr in t.allocations && v.qr in t.allowances && call.mealType in t.allowances[v.qr])
  }

  function DecideEmployee(t: Tables, call: Call, q: nat, employee: nat): Verdict {
    if call.quantity != 1 then Refuse(EMPLOYEE_QUANTITY_MUST_BE_ONE)
    else if call.proof.authorization.Some? then Refuse(AUTHORIZATION_NOT_APPLICABLE)
    else if call.proof.visitor.Some? then Refuse(VISITOR_DETAILS_NOT_APPLICABLE)
    else match EmployeeProblem(t, employee, call.mealType)
      case Some(code) => Refuse(code)
      case None => Serve(q, Some(employee), None, false)
  }

  function DecideMaster(t: Tables, call: Call, staff: nat, q: nat): Verdict {
    if q in t.allocations then
      var allocation := t.allocations[q];
      if call.quantity != 1 then Refuse(VISITOR_QUANTITY_MUST_BE_ONE)
      else if call.proof != Proof(None, None) then Refuse(MASTER_ALLOCATION_SCOPE_MISMATCH)
      else if allocation.exhausted || allocation.used >= allocation.limit then Refuse(QR_EXPIRED)
      else match AllowanceProblem(t, q, call.mealType)
        case Some(code) => Refuse(code)
        case None => Serve(q, None, Some(allocation.visitor), true)
    else if call.reading then Await(q)
    else if call.proof.visitor.Some? then
      if call.quantity != 1 then Refuse(VISITOR_QUANTITY_MUST_BE_ONE)
      else if call.proof.authorization.Some? then Refuse(VISITOR_DETAILS_AUTHORIZATION_CONFLICT)
      else Serve(q, None, call.proof.visitor, false)
    else if call.proof.authorization.None? then
      if call.public then Refuse(QR_EXPIRED) else RefuseAttempt(VISITOR_DETAILS_REQUIRED)
    else match AuthorizationProblem(t, call, staff, q)
      case Some(code) => Refuse(code)
      case None => Serve(q, None, None, false)
  }

  /** `_create_serving` up to its first write that matters: what becomes of this scan? */
  function Decide(t: Tables, call: Call, staff: nat): (v: Verdict)
    ensures Grounded(t, call, v)
  {
    match ScannerProblem(t.world, call.code)
    case Some(code) => Refuse(code)
    case None =>
      if Locate(t.world, Some(call.code)) != call.place then Refuse(SCANNER_LOCATION_CHANGED)
      else if call.mealType !in t.world.activeMealTypes then Refuse(MEAL_TYPE_UNAVAILABLE)
      else if call.token !in t.tokens || t.tokens[call.token] !in t.qrs then Refuse(UNKNOWN_QR)
      else
        var q := t.tokens[call.token];
        var qr := t.qrs[q];
        if qr.kind == EMPLOYEE && (qr.employee.None? || qr.employee.value !in t.world.activeEmployees)
        then Refuse(EMPLOYEE_INACTIVE)
        else match QrProblem(qr, t.now)
          case Some(code) => Refuse(code)
          case None =>
            match qr.kind
            case EMPLOYEE => DecideEmployee(t, call, q, qr.employee.value)
            case MASTER => DecideMaster(t, call, staff, q)
  }

  // ---- The effects a processed scan can have ----

  /** Only attempt `a` is closed. */
  function Closed(t: Tables, a: nat, outcome: Outcome, code: Option<Code>, serving: Option<nat>, qr: Option<nat>): Tables
    requires a < |t.attempts|
  {
    t.(attempts := t.attempts[a := t.attempts[a].(outcome := outcome, code := code, serving := serving, qr := qr)])
  }

  function Rejected(t: Tables, a: nat, code: Code, serving: Option<nat> := None, qr: Option<nat> := None): Tables
    requires a < |t.attempts|
  {
    Closed(t, a, REFUSED, Some(code), serving, qr)
  }

  function Bind(row: Request, proof: Proof): Request {
    if row.bound.None? then row.(bound := Some(proof)) else row
  }

  function UseAllowance(a: Allowance): Allowance {
    a.(used := a.used + 1, exhausted := a.used + 1 == a.limit)
  }

  /** The summary row after a use: as much used as if only the type with the most left were counted. */
  ghost function Summarize(types: map<int, Allowance>, a: Allocation): Allocation
    requires exists k :: k in types
  {
    if a.exhausted then a
    else a.(used := a.limit - MostRemaining(types), exhausted := MostRemaining(types) == 0)
  }

  /** One use of a visitor allowance. */
  ghost function Counted(t: Tables, q: nat, mealType: int): Tables
    requires q in t.allocations && q in t.allowances && mealType in t.allowances[q]
  {
    var types := t.allowances[q][mealType := UseAllowance(t.allowances[q][mealType])];
    assert mealType in types;
    t.(allowances := t.allowances[q := types], allocations := t.allocations[q := Summarize(types, t.allocations[q])])
  }

  /** The serving with its meals numbered from 1, the request succeeded, the attempt successful. */
  function Recorded(t: Tables, a: nat, call: Call, staff: nat, v: Verdict): Tables
    requires v.Serve? && v.qr in t.qrs && a < |t.attempts| && call.request in t.requests
  {
    var s := |t.servings|;
    var serving := Serving(call.request, v.qr, t.qrs[v.qr].kind, v.employee, call.mealType, call.quantity, staff,
                           call.place, call.proof.authorization, t.now, v.visitor);
    var row := Bind(t.requests[call.request], call.proof);
    Closed(t, a, SUCCESS, None, Some(s), Some(v.qr)).(
      servings := t.servings + [serving],
      meals := t.meals + Units(s, call.quantity, t.now),
      requests := t.requests[call.request := row.(status := SUCCEEDED)])
  }

  /** The request itself is refused for good. */
  function Dismissed(t: Tables, a: nat, call: Call, code: Code): Tables
    requires a < |t.attempts| && call.request in t.requests
  {
    var row := Bind(t.requests[call.request], call.proof);
    var qr := if call.token in t.tokens then Some(t.tokens[call.token]) else None;
    Rejected(t, a, code, None, qr).(
      requests := t.requests[call.request := row.(status := REJECTED, code := Some(code))])
  }

  predicate Deferred(call: Call) { call.reading || call.proof == Proof(None, None) }

  /** The proof shown does not match the one the request is bound to. */
  predicate ProofDiffers(row: Request, call: Call) {
    var visitor := if row.bound.Some? then row.bound.value.visitor else None;
    && !call.reading
    && (|| (row.bound.Some? && row.bound.value.authorization != call.proof.authorization)
        || ((row.bound.Some? || Final(row)) && visitor != call.proof.visitor))
  }

  /** A pending request is decided. */
  ghost function Resolve(t: Tables, a: nat, call: Call, staff: nat): (r: (Tables, Reply))
    requires a < |t.attempts| && call.request in t.requests
  {
    var r := call.request;
    if r in t.authorizations && Some(t.authorizations[r].id) != call.proof.authorization then
      (Rejected(t, a, AUTHORIZATION_SCOPE_MISMATCH), No(AUTHORIZATION_SCOPE_MISMATCH))
    else
      var early := if Deferred(call) then t else t.(requests := t.requests[r := Bind(t.requests[r], call.proof)]);
      var v := Decide(t, call, staff);
      match v
      case Serve(q, _, _, counted) =>
        var used := if counted then Counted(t, q, call.mealType) else t;
        (Recorded(used, a, call, staff, v),
         Answer(true, APPROVED, Some(|t.servings|), FreshIds(|t.meals|, call.quantity), false))
      case Await(q) => (Closed(early, a, AWAITING_DETAILS, None, None, Some(q)), NeedsDetails)
      case Refuse(code) => (Dismissed(t, a, call, code), No(code))
      case RefuseAttempt(code) =>
        (Rejected(early, a, code, None, if call.token in t.tokens then Some(t.tokens[call.token]) else None), No(code))
  }

  /** A request that is already final: the original answer again, or a refusal of this attempt. */
  function Replay(t: Tables, a: nat, call: Call): (r: (Tables, Reply))
    requires a < |t.attempts| && call.request in t.requests
  {
    var row := t.requests[call.request];
    if row.status == SUCCEEDED then
      var s := ServingOf(t.servings, call.request);
      if s == |t.servings| then (t, Unconfirmed)
      else if !call.reading && t.servings[s].authorization != call.proof.authorization then
        (Rejected(t, a, IDEMPOTENCY_KEY_REUSED), No(IDEMPOTENCY_KEY_REUSED))
      else
        (Rejected(t, a, DUPLICATE_REQUEST, Some(s), Some(t.servings[s].qr)),
         Answer(true, APPROVED, Some(s), MealsOf(t.meals, s), true))
    else
      var code := if row.bound.Some? && row.code.Some? then row.code.value else IDEMPOTENCY_PROOF_UNAVAILABLE;
      (Rejected(t, a, code), Answer(false, code, None, [], row.bound.Some?))
  }

  /** `_process`, run with the receipt of attempt `a`. */
  ghost function Process(t: Tables, a: nat, actor: ActorCheck): (r: (Tables, Reply)) {
    if a !in t.calls || a >= |t.attempts| || t.calls[a].request !in t.requests then (t, Unconfirmed)
    else
      var call := t.calls[a];
      var row := t.requests[call.request];
      if t.attempts[a].outcome != RECEIVED then (t, Unconfirmed)
      else if actor.Denied? then (Rejected(t, a, actor.code), No(actor.code))
      else if actor.id != call.staff then (Rejected(t, a, AUTHENTICATION_CHANGED), No(AUTHENTICATION_CHANGED))
      else if row.hash != call.fingerprint || ProofDiffers(row, call) then
        (Rejected(t, a, IDEMPOTENCY_KEY_REUSED), No(IDEMPOTENCY_KEY_REUSED))
      else if Final(row) then Replay(t, a, call)
      else Resolve(t, a, call, actor.id)
  }

  // ---- The other transactions ----

  /** `_mark_interrupted`, and one candidate of `reconcile_received`. */
  function Interrupt(t: Tables, a: nat): Tables {
    if a < |t.attempts| && t.attempts[a].outcome == RECEIVED
    then t.(attempts := t.attempts[a := Fail(t.attempts[a], PROCESSING_INTERRUPTED)])
    else t
  }

  datatype Approval = Approval(
    request: Uuid, token: Token, waiter: nat, code: string, mealType: int, quantity: nat, expires: Option<int>)

  const TEN_MINUTES := 600_000_000  // times are in microseconds
  const ONE_HOUR := 3_600_000_000

  /** `ApprovalService.authorize`; `id` is the new row's id. */
  function Authorize(t: Tables, admin: ActorCheck, ask: Approval, id: int): (r: (Tables, Option<Code>)) {
    if admin.Denied? then (t, Some(admin.code))
    else if ask.waiter !in t.world.waiters then (t, Some(WAITER_UNAVAILABLE))
    else match ScannerProblem(t.world, ask.code)
      case Some(code) => (t, Some(code))
      case None =>
        if ask.mealType !in t.world.activeMealTypes then (t, Some(MEAL_TYPE_UNAVAILABLE))
        else if ask.token !in t.tokens || t.tokens[ask.token] !in t.qrs then (t, Some(UNKNOWN_QR))
        else
          var q := t.tokens[ask.token];
          match QrProblem(t.qrs[q], t.now)
          case Some(code) => (t, Some(code))
          case None =>
            var expires := if ask.expires.Some? then ask.expires.value else t.now + TEN_MINUTES;
            var place := Locate(t.world, Some(ask.code));
            var hash := Fingerprint(ask.token, ask.waiter, place, ask.mealType, ask.quantity);
            var requests := Reserved(t.requests, ask.request, hash);
            if t.qrs[q].kind != MASTER then (t, Some(MASTER_QR_REQUIRED))
            else if !(t.now < expires <= t.now + ONE_HOUR) then (t, Some(INVALID_AUTHORIZATION_EXPIRY))
            else if requests[ask.request].hash != hash then (t, Some(IDEMPOTENCY_KEY_REUSED))
            else if Final(requests[ask.request]) then (t, Some(REQUEST_ALREADY_FINALIZED))
            else if ask.request in t.authorizations then (t, Some(AUTHORIZATION_ALREADY_EXISTS))
            else
              var row := Authorization(id, q, ask.mealType, ask.quantity, ask.waiter, place, admin.id, expires, false);
              (t.(requests := requests, authorizations := t.authorizations[ask.request := row]), None)
  }

  /** `correct_meal_type`.  The type the meal had is read before the employee is locked, so `seen` may be stale. */
  function Correct(t: Tables, admin: ActorCheck, m: nat, seen: int, to: int): (r: (Tables, Option<Code>)) {
    if admin.Denied? then (t, Some(admin.code))
    else if m >= |t.meals| then (t, Some(MEAL_NOT_FOUND))
    else if to !in t.world.activeMealTypes then (t, Some(MEAL_TYPE_UNAVAILABLE))
    else if seen == to then (t, Some(MEAL_TYPE_UNCHANGED))
    else (t.(corrections := t.corrections + [Correction(m, seen, to)]), None)
  }

  /** A new credential without allowances: an employee's, or a visitor QR of the older kind. */
  function Issue(t: Tables, q: nat, qr: Qr): Tables {
    if q in t.qrs || qr.token in t.tokens || (qr.kind == EMPLOYEE) != qr.employee.Some? then t
    else t.(qrs := t.qrs[q := qr], tokens := t.tokens[qr.token := q])
  }

  function Unused(limit: nat, types: seq<int>): map<int, Allowance> {
    map k | k in types :: Allowance(limit, 0, false)
  }

  /** A new visitor QR with one allowance for each meal type (`issue_master`, `_create_master_allocation`). */
  function IssueVisitor(t: Tables, q: nat, qr: Qr, visitor: Visitor, limit: nat, types: seq<int>): Tables {
    if q in t.qrs || qr.token in t.tokens || qr.kind != MASTER || qr.employee.Some? || limit == 0 || types == []
    then t
    else
      t.(qrs := t.qrs[q := qr], tokens := t.tokens[qr.token := q],
         allocations := t.allocations[q := Allocation(visitor, limit, 0, false)],
         allowances := t.allowances[q := Unused(limit, types)])
  }

  // ---- Runs ----

  datatype Event =
    | OnReceive(actor: ActorCheck, scan: Scan, reading: bool, public: bool)
    | OnProcess(attempt: nat, actor: ActorCheck)
    | OnInterrupt(attempt: nat)
    | OnAuthorize(actor: ActorCheck, approval: Approval, id: int)
    | OnWithdraw(request: Uuid)  // ApprovalService.revoke
    | OnCorrect(actor: ActorCheck, meal: nat, seen: int, to: int)
    | OnVoid(meal: nat)  // meal_voids is only read by this code: rows may appear at any time
    | OnIssue(qr: nat, credential: Qr)
    | OnIssueVisitor(qr: nat, credential: Qr, visitor: Visitor, limit: nat, types: seq<int>)
    | OnRevoke(qr: nat)
    | OnWorld(world: World, elapsed: nat)  // reference data change, time passes

  /** One committed transaction.  A process that dies simply takes no further step; a commit that raised is a
      step if it took effect and none if it did not, and the caller's retry is a later step of its own. */
  ghost function Step(t: Tables, e: Event): Tables {
    match e
    case OnReceive(actor, scan, reading, public) => Receive(t, actor, scan, reading, public).0
    case OnProcess(a, actor) => Process(t, a, actor).0
    case OnInterrupt(a) => Interrupt(t, a)
    case OnAuthorize(actor, ask, id) => Authorize(t, actor, ask, id).0
    case OnWithdraw(r) =>
      if r in t.authorizations
      then t.(authorizations := t.authorizations[r := t.authorizations[r].(revoked := true)]) else t
    case OnCorrect(actor, m, seen, to) => Correct(t, actor, m, seen, to).0
    case OnVoid(m) => t.(voids := t.voids + {m})
    case OnIssue(q, qr) => Issue(t, q, qr)
    case OnIssueVisitor(q, qr, visitor, limit, types) => IssueVisitor(t, q, qr, visitor, limit, types)
    case OnRevoke(q) => if q in t.qrs then t.(qrs := t.qrs[q := t.qrs[q].(revoked := true)]) else t
    case OnWorld(w, elapsed) => t.(world := w, now := t.now + elapsed)
  }

  ghost function Run(t: Tables, es: seq<Event>): Tables
    decreases es
  {
    if es == [] then t else Run(Step(t, es[0]), es[1..])
  }

  /** A fresh installation: whatever the reference data and the clock, no rows yet. */
  function Empty(now: int, lock: nat, world: World): Tables {
    Tables(now, lock, world, map[], map[], map[], [], [], [], [], {}, map[], map[], map[], map[])
  }
}
