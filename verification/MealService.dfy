/** The serving protocol as the services run it: tables updated row by row, a decision undone by rolling back to its
    savepoint, retry loops.  Every method is proved to have the effect `ServingProtocol` describes. */
module MealService {
  import opened Options
  import opened ServingTables
  import opened ServingProtocol
  import opened ServingInvariant
  import opened ServingPreserved
  import opened ServingRuns
  import opened ServingTheorems
  import opened ServingReplay
  import opened ScanReceipts

  /** How `_create_serving` ends: a serving, a request for details, or a raised rejection. */
  datatype Decided =
    | Made(serving: nat, meals: seq<nat>)
    | Details
    | Raised(code: Code, attemptOnly: bool)

  /** A decision never looks at the request table, so binding early does not change it. */
  lemma DecideIgnoresRequests(t: Tables, requests: map<Uuid, Request>, call: Call, staff: nat)
    ensures Decide(t.(requests := requests), call, staff) == Decide(t, call, staff)
  {
    hide Locate, ScannerProblem, QrProblem, Blocks, EffectiveType;
    var u := t.(requests := requests);
    forall e: nat, k, since ensures Blocked(u, e, k, since) == Blocked(t, e, k, since) {
      BlockedIgnoresRequests(t, requests, e, k, since);
    }
  }

  lemma BlockedIgnoresRequests(t: Tables, requests: map<Uuid, Request>, e: nat, k: int, since: int)
    ensures Blocked(t.(requests := requests), e, k, since) == Blocked(t, e, k, since)
  {
    assert forall m :: 0 <= m < |t.meals| ==> Blocks(t.(requests := requests), m, e, k, since) == Blocks(t, m, e, k, since);
  }

  class MealDatabase {
    var now: int
    const lock: nat
    var world: World
    var qrs: map<nat, Qr>
    var tokens: map<Token, nat>
    var requests: map<Uuid, Request>
    var attempts: seq<Attempt>
    var servings: seq<Serving>
    var meals: seq<Meal>
    var corrections: seq<Correction>
    var voids: set<nat>
    var authorizations: map<Uuid, Authorization>
    var allocations: map<nat, Allocation>
    var allowances: map<nat, map<int, Allowance>>
    var calls: map<nat, Call>

    function T(): Tables
      reads this
    {
      Tables(now, lock, world, qrs, tokens, requests, attempts, servings, meals, corrections, voids, authorizations,
             allocations, allowances, calls)
    }

    constructor (now: int, lock: nat, world: World)
      ensures T() == Empty(now, lock, world)
    {
      this.now, this.lock, this.world := now, lock, world;
      qrs, tokens, requests, attempts, servings, meals := map[], map[], map[], [], [], [];
      corrections, voids, authorizations, allocations, allowances, calls := [], {}, map[], map[], map[], map[];
    }

    /** ROLLBACK TO SAVEPOINT: every table a decision writes, as it was saved. */
    method Rollback(saved: Tables)
      requires saved == T().(requests := saved.requests, attempts := saved.attempts, servings := saved.servings,
                             meals := saved.meals, allocations := saved.allocations, allowances := saved.allowances)
      modifies this`requests, this`attempts, this`servings, this`meals, this`allocations, this`allowances
      ensures T() == saved
    {
      requests, attempts, servings, meals := saved.requests, saved.attempts, saved.servings, saved.meals;
      allocations, allowances := saved.allocations, saved.allowances;
    }

    // ---- Receiving ----

    method Receive(actor: ActorCheck, scan: Scan, reading: bool, public: bool) returns (r: Reception)
      modifies this
      ensures T() == ServingProtocol.Receive(old(T()), actor, scan, reading, public).0
      ensures r == ServingProtocol.Receive(old(T()), actor, scan, reading, public).1
    {
      hide Complaint, First, Locate;
      var error := Complaint(actor, scan, reading);
      var a := |attempts|;
      if error.Some? {
        var known := actor.Staff? && scan.request.Some?;
        attempts := attempts + [Attempt(None, None, if known then scan.token else None,
                                        if actor.Staff? then Some(actor.id) else None, Locate(world, scan.rawCode),
                                        scan.rawCode, REFUSED, error, None, None, now)];
        return NotReceived(if known && scan.request.value in requests then REQUEST_MISMATCH else error.value);
      }
      Accepted(actor, scan, reading);
      var id := scan.request.value;
      var place := Locate(world, scan.code);
      var hash := Fingerprint(scan.token.value, actor.id, place, scan.mealType, scan.quantity);
      if id !in requests { requests := requests[id := Request(hash, PENDING, None, None)]; }
      error := None;
      if Final(requests[id]) {
        var original := First(attempts, id, requests[id].hash);
        if original == |attempts| { error := Some(IDEMPOTENCY_PROOF_UNAVAILABLE); }
        else if attempts[original].reported != scan.code { error := Some(IDEMPOTENCY_KEY_REUSED); }
        else { hash := Fingerprint(scan.token.value, actor.id, attempts[original].place, scan.mealType, scan.quantity); }
      }
      attempts := attempts + [Attempt(Some(id), Some(hash), scan.token, Some(actor.id), place, scan.code,
                                      if error.Some? then REFUSED else RECEIVED, error, None, None, now)];
      if error.Some? { return NotReceived(error.value); }
      var call := Call(id, hash, scan.token.value, actor.id, place, scan.code.value, scan.mealType, scan.quantity,
                       ScanProof(scan), reading, public);
      calls := calls[a := call];
      return Received(a, call);
    }

    // ---- Processing ----

    method FinishAttempt(a: nat, outcome: Outcome, code: Option<Code>, serving: Option<nat>, qr: Option<nat>)
      requires a < |attempts|
      modifies this`attempts
      ensures T() == Closed(old(T()), a, outcome, code, serving, qr)
    {
      attempts := attempts[a := attempts[a].(outcome := outcome, code := code, serving := serving, qr := qr)];
    }

    method BindScan(r: Uuid, proof: Proof)
      requires r in requests
      modifies this`requests
      ensures requests == old(requests)[r := Bind(old(requests)[r], proof)]
    {
      if requests[r].bound.None? { requests := requests[r := requests[r].(bound := Some(proof))]; }
    }

    method UseMasterMealType(q: nat, k: int) returns (problem: Option<Code>)
      requires q in allocations && !allocations[q].exhausted
      modifies this`allowances, this`allocations
      ensures problem == AllowanceProblem(old(T()), q, k)
      ensures problem.None? ==> T() == Counted(old(T()), q, k)
      ensures problem.Some? ==> T() == old(T())
    {
      if q !in allowances || k !in allowances[q] { return Some(MASTER_MEAL_TYPE_NOT_ALLOWED); }
      var a := allowances[q][k];
      if a.exhausted || a.used >= a.limit { return Some(MASTER_MEAL_TYPE_USED_UP); }
      allowances := allowances[q := allowances[q][k := a.(used := a.used + 1, exhausted := a.used + 1 == a.limit)]];
      assert k in allowances[q];
      MostRemainingExists(allowances[q]);
      var remaining :| IsMostRemaining(allowances[q], remaining);
      assert remaining == MostRemaining(allowances[q]);
      if !allocations[q].exhausted {
        allocations := allocations[
          q := allocations[q].(used := allocations[q].limit - remaining, exhausted := remaining == 0)];
      }
      return None;
    }

    /** The serving row and one meal row a unit. */
    method InsertServing(v: Serving) returns (s: nat, ids: seq<nat>)
      modifies this`servings, this`meals
      ensures s == |old(servings)| && servings == old(servings) + [v]
      ensures meals == old(meals) + Units(s, v.quantity, v.at)
      ensures ids == FreshIds(|old(meals)|, v.quantity)
    {
      s, ids := |servings|, [];
      servings := servings + [v];
      for unit := 1 to v.quantity + 1
        invariant |ids| == unit - 1 && |meals| == |old(meals)| + unit - 1
        invariant servings == old(servings) + [v]
        invariant forall u :: 0 <= u < unit - 1 ==> ids[u] == |old(meals)| + u
        invariant forall m :: 0 <= m < |old(meals)| ==> meals[m] == old(meals)[m]
        invariant forall m :: |old(meals)| <= m < |meals| ==>
                    meals[m] == Meal(s, m - |old(meals)| + 1, v.quantity, v.at)
      {
        ids := ids + [|meals|];
        meals := meals + [Meal(s, unit, v.quantity, v.at)];
      }
    }

    /** The rows of a serving that was decided, its request already bound. */
    method Record(a: nat, staff: nat, v: Verdict) returns (d: Decided)
      requires a in calls && a < |attempts| && calls[a].request in requests && v.Serve? && v.qr in qrs
      requires requests[calls[a].request].bound.Some?
      modifies this`requests, this`attempts, this`servings, this`meals
      ensures d == Made(|old(servings)|, FreshIds(|old(meals)|, old(calls)[a].quantity))
      ensures T() == Recorded(old(T()), a, old(calls)[a], staff, v)
    {
      var call := calls[a];
      var s, ids := InsertServing(Serving(call.request, v.qr, qrs[v.qr].kind, v.employee, call.mealType, call.quantity,
                                          staff, call.place, call.proof.authorization, now, v.visitor));
      requests := requests[call.request := requests[call.request].(status := SUCCEEDED)];
      FinishAttempt(a, SUCCESS, None, Some(s), Some(v.qr));
      return Made(s, ids);
    }

    /** What `_create_serving` must have done when it decided `v`. */
    ghost predicate Carried(t: Tables, a: nat, staff: nat, v: Verdict, d: Decided)
      requires a in t.calls && a < |t.attempts| && t.calls[a].request in t.requests && Grounded(t, t.calls[a], v)
      reads this
    {
      match v
      case Serve(q, _, _, counted) =>
        && d == Made(|t.servings|, FreshIds(|t.meals|, t.calls[a].quantity))
        && T() == Recorded(if counted then Counted(t, q, t.calls[a].mealType) else t, a, t.calls[a], staff, v)
      case Await(q) => d == Details && T() == Closed(t, a, AWAITING_DETAILS, None, None, Some(q))
      case Refuse(code) => d == Raised(code, false)
      case RefuseAttempt(code) => d == Raised(code, true)
    }

    ghost predicate Ready(a: nat)
      reads this
    {
      && a in calls && a < |attempts| && calls[a].request in requests
      && (Deferred(calls[a]) || requests[calls[a].request].bound.Some?)
    }

    method ServeEmployee(a: nat, staff: nat, q: nat) returns (d: Decided)
      requires Ready(a) && q in qrs && qrs[q].employee.Some?
      modifies this`requests, this`attempts, this`servings, this`meals
      ensures Carried(old(T()), a, staff, DecideEmployee(old(T()), old(calls)[a], q, old(qrs)[q].employee.value), d)
    {
      hide EmployeeProblem, Recorded;
      var call, employee := calls[a], qrs[q].employee.value;
      if call.quantity != 1 { return Raised(EMPLOYEE_QUANTITY_MUST_BE_ONE, false); }
      if call.proof.authorization.Some? { return Raised(AUTHORIZATION_NOT_APPLICABLE, false); }
      if call.proof.visitor.Some? { return Raised(VISITOR_DETAILS_NOT_APPLICABLE, false); }
      var problem := EmployeeProblem(T(), employee, call.mealType);
      if problem.Some? { return Raised(problem.value, false); }
      BindScan(call.request, call.proof);
      RecordedOnceBound(old(T()), a, call, staff, Serve(q, Some(employee), None, false));
      d := Record(a, staff, Serve(q, Some(employee), None, false));
    }

    method ServeVisitor(a: nat, staff: nat, q: nat) returns (d: Decided)
      requires Ready(a) && q in qrs && q in allocations
      modifies this`requests, this`attempts, this`servings, this`meals, this`allocations, this`allowances
      ensures Carried(old(T()), a, staff, DecideMaster(old(T()), old(calls)[a], staff, q), d)
    {
      hide AllowanceProblem, Recorded, Counted;
      var call, allocation := calls[a], allocations[q];
      if call.quantity != 1 { return Raised(VISITOR_QUANTITY_MUST_BE_ONE, false); }
      if call.proof != Proof(None, None) { return Raised(MASTER_ALLOCATION_SCOPE_MISMATCH, false); }
      if allocation.exhausted || allocation.used >= allocation.limit { return Raised(QR_EXPIRED, false); }
      var problem := UseMasterMealType(q, call.mealType);
      if problem.Some? { return Raised(problem.value, false); }
      ghost var counted := T();
      BindScan(call.request, call.proof);
      RecordedOnceBound(counted, a, call, staff, Serve(q, None, Some(allocation.visitor), true));
      d := Record(a, staff, Serve(q, None, Some(allocation.visitor), true));
    }

    method ServeMaster(a: nat, staff: nat, q: nat) returns (d: Decided)
      requires Ready(a) && q in qrs && q !in allocations
      modifies this`requests, this`attempts, this`servings, this`meals
      ensures Carried(old(T()), a, staff, DecideMaster(old(T()), old(calls)[a], staff, q), d)
    {
      hide AuthorizationProblem, Recorded;
      var call := calls[a];
      if call.reading {
        FinishAttempt(a, AWAITING_DETAILS, None, None, Some(q));
        return Details;
      }
      if call.proof.visitor.Some? {
        if call.quantity != 1 { return Raised(VISITOR_QUANTITY_MUST_BE_ONE, false); }
        if call.proof.authorization.Some? { return Raised(VISITOR_DETAILS_AUTHORIZATION_CONFLICT, false); }
      } else if call.proof.authorization.None? {
        return if call.public then Raised(QR_EXPIRED, false) else Raised(VISITOR_DETAILS_REQUIRED, true);
      } else {
        var problem := AuthorizationProblem(T(), call, staff, q);
        if problem.Some? { return Raised(problem.value, false); }
      }
      d := Record(a, staff, Serve(q, None, call.proof.visitor, false));
    }

    /** `_create_serving`: writes as it goes, and may stop half-way by raising. */
    method CreateServing(a: nat, staff: nat) returns (d: Decided)
      requires Ready(a) && CredentialInv(T())
      modifies this`requests, this`attempts, this`servings, this`meals, this`allocations, this`allowances
      ensures Carried(old(T()), a, staff, Decide(old(T()), old(calls)[a], staff), d)
    {
      hide Locate, QrProblem, ScannerProblem, DecideEmployee, DecideMaster, Recorded, Counted;
      var call := calls[a];
      var problem := ScannerProblem(world, call.code);
      if problem.Some? { return Raised(problem.value, false); }
      if Locate(world, Some(call.code)) != call.place { return Raised(SCANNER_LOCATION_CHANGED, false); }
      if call.mealType !in world.activeMealTypes { return Raised(MEAL_TYPE_UNAVAILABLE, false); }
      if call.token !in tokens || tokens[call.token] !in qrs { return Raised(UNKNOWN_QR, false); }
      var q := tokens[call.token];
      if qrs[q].kind == EMPLOYEE && (qrs[q].employee.None? || qrs[q].employee.value !in world.activeEmployees) {
        return Raised(EMPLOYEE_INACTIVE, false);
      }
      problem := QrProblem(qrs[q], now);
      if problem.Some? { return Raised(problem.value, false); }
      if qrs[q].kind == EMPLOYEE { d := ServeEmployee(a, staff, q); }
      else if q in allocations { d := ServeVisitor(a, staff, q); }
      else { d := ServeMaster(a, staff, q); }
    }

    /** A rejection closes its attempt, naming the QR if there is one. */
    method RefuseAttempt(a: nat, code: Code)
      requires a in calls && a < |attempts|
      modifies this`attempts
      ensures T() == Rejected(old(T()), a, code, None, if calls[a].token in tokens then Some(tokens[calls[a].token]) else None)
    {
      hide Closed;
      var token := calls[a].token;
      FinishAttempt(a, REFUSED, Some(code), None, if token in tokens then Some(tokens[token]) else None);
    }

    /** And unless it is a rejection of the attempt only, it refuses the request for good, binding it if that was
        deferred. */
    method Refuse(a: nat, code: Code, attemptOnly: bool)
      requires Ready(a)
      modifies this`requests, this`attempts
      ensures T() == if attemptOnly
                     then Rejected(old(T()), a, code, None,
                                   if calls[a].token in tokens then Some(tokens[calls[a].token]) else None)
                     else Dismissed(old(T()), a, calls[a], code)
    {
      hide Closed;
      if !attemptOnly {
        var call := calls[a];
        if Deferred(call) { BindScan(call.request, call.proof); }
        requests := requests[call.request := requests[call.request].(status := REJECTED, code := Some(code))];
        RejectedTwice(old(T()), requests, a, code,
                      if call.token in tokens then Some(tokens[call.token]) else None);
      }
      RefuseAttempt(a, code);
    }

    /** Set a savepoint, decide, and roll back what a rejection had written before refusing. */
    method Settle(a: nat, staff: nat) returns (reply: Reply)
      requires Ready(a) && CredentialInv(T())
      modifies this`requests, this`attempts, this`servings, this`meals, this`allocations, this`allowances
      ensures (T(), reply) == Settled(old(T()), a, old(calls)[a], staff)
    {
      hide Decide, Counted, Recorded, Dismissed, Closed;
      var saved := T();
      var d := CreateServing(a, staff);
      match d
      case Made(s, ids) => return Answer(true, APPROVED, Some(s), ids, false);
      case Details => return NeedsDetails;
      case Raised(code, attemptOnly) =>
        Rollback(saved);
        Refuse(a, code, attemptOnly);
        return No(code);
    }

    /** The pending branch of `_process`. */
    method ResolvePending(a: nat, staff: nat) returns (reply: Reply)
      requires a in calls && a < |attempts| && calls[a].request in requests && CredentialInv(T())
      requires requests[calls[a].request].bound.None?
      modifies this`requests, this`attempts, this`servings, this`meals, this`allocations, this`allowances
      ensures (T(), reply) == Resolve(old(T()), a, old(calls)[a], staff)
    {
      hide Settled, Closed;
      var call := calls[a];
      var r := call.request;
      SettledIsResolved(T(), a, call, staff);
      if r in authorizations && Some(authorizations[r].id) != call.proof.authorization {
        FinishAttempt(a, REFUSED, Some(AUTHORIZATION_SCOPE_MISMATCH), None, None);
        return No(AUTHORIZATION_SCOPE_MISMATCH);
      }
      if !Deferred(call) { BindScan(r, call.proof); }
      reply := Settle(a, staff);
    }

    /** `_process` with the receipt of attempt `a`. */
    method Process(a: nat, actor: ActorCheck) returns (reply: Reply)
      requires Inv(T())
      modifies this
      ensures T() == ServingProtocol.Process(old(T()), a, actor).0
      ensures reply == ServingProtocol.Process(old(T()), a, actor).1
    {
      hide Inv, Closed, Resolve, Replay, ProofDiffers;
      if a !in calls || a >= |attempts| || calls[a].request !in requests { return Unconfirmed; }
      PendingUnbound(T(), calls[a].request);
      var call, row := calls[a], requests[calls[a].request];
      if attempts[a].outcome != RECEIVED { return Unconfirmed; }
      var error := if actor.Denied? then Some(actor.code)
                   else if actor.id != call.staff then Some(AUTHENTICATION_CHANGED)
                   else if row.hash != call.fingerprint || ProofDiffers(row, call) then Some(IDEMPOTENCY_KEY_REUSED)
                   else None;
      if error.Some? {
        FinishAttempt(a, REFUSED, error, None, None);
        return No(error.value);
      }
      if Final(row) { reply := ReplayFinal(a); } else { reply := ResolvePending(a, actor.id); }
    }

    /** The branches of `_process` for a request that is already final. */
    method ReplayFinal(a: nat) returns (reply: Reply)
      requires a in calls && a < |attempts| && calls[a].request in requests
      modifies this`attempts
      ensures (T(), reply) == Replay(old(T()), a, calls[a])
    {
      hide Closed, ServingOf, MealsOf;
      var call, row := calls[a], requests[calls[a].request];
      if row.status == SUCCEEDED {
        var s := ServingOf(servings, call.request);
        if s == |servings| { return Unconfirmed; }
        if !call.reading && servings[s].authorization != call.proof.authorization {
          FinishAttempt(a, REFUSED, Some(IDEMPOTENCY_KEY_REUSED), None, None);
          return No(IDEMPOTENCY_KEY_REUSED);
        }
        var ids := MealIds(s);
        FinishAttempt(a, REFUSED, Some(DUPLICATE_REQUEST), Some(s), Some(servings[s].qr));
        return Answer(true, APPROVED, Some(s), ids, true);
      }
      var code := if row.bound.Some? && row.code.Some? then row.code.value else IDEMPOTENCY_PROOF_UNAVAILABLE;
      FinishAttempt(a, REFUSED, Some(code), None, None);
      return Answer(false, code, None, [], row.bound.Some?);
    }

    /** SELECT id FROM meals WHERE serving_id = s, in id order */
    method MealIds(s: nat) returns (ids: seq<nat>)
      ensures ids == MealsOf(meals, s)
    {
      ids := [];
      for m := 0 to |meals|
        invariant ids == MealsOf(meals[..m], s)
      {
        assert meals[..m + 1][..m] == meals[..m];
        if meals[m].serving == s { ids := ids + [m]; }
      }
      assert meals[..|meals|] == meals;
    }

    // ---- The other transactions ----

    /** `UPDATE scan_attempts SET outcome = 'REJECTED' ... WHERE id = a AND outcome = 'RECEIVED'` */
    method Interrupt(a: nat) returns (changed: bool)
      modifies this`attempts
      ensures T() == ServingProtocol.Interrupt(old(T()), a)
      ensures changed <==> a < |old(attempts)| && old(attempts)[a].outcome == RECEIVED
    {
      changed := a < |attempts| && attempts[a].outcome == RECEIVED;
      if changed {
        attempts := attempts[a := attempts[a].(outcome := REFUSED, code := Some(PROCESSING_INTERRUPTED))];
      }
    }

    method Authorize(admin: ActorCheck, ask: Approval, id: int) returns (error: Option<Code>)
      modifies this`requests, this`authorizations
      ensures (T(), error) == ServingProtocol.Authorize(old(T()), admin, ask, id)
    {
      hide Locate, ScannerProblem, QrProblem;
      if admin.Denied? { return Some(admin.code); }
      if ask.waiter !in world.waiters { return Some(WAITER_UNAVAILABLE); }
      error := ScannerProblem(world, ask.code);
      if error.Some? { return; }
      if ask.mealType !in world.activeMealTypes { return Some(MEAL_TYPE_UNAVAILABLE); }
      if ask.token !in tokens || tokens[ask.token] !in qrs { return Some(UNKNOWN_QR); }
      var q := tokens[ask.token];
      error := QrProblem(qrs[q], now);
      if error.Some? { return; }
      if qrs[q].kind != MASTER { return Some(MASTER_QR_REQUIRED); }
      var expires := if ask.expires.Some? then ask.expires.value else now + TEN_MINUTES;
      if !(now < expires <= now + ONE_HOUR) { return Some(INVALID_AUTHORIZATION_EXPIRY); }
      var place := Locate(world, Some(ask.code));
      var hash := Fingerprint(ask.token, ask.waiter, place, ask.mealType, ask.quantity);
      error := ReserveFor(ask.request, hash);
      if error.None? {
        authorizations := authorizations[
          ask.request := Authorization(id, q, ask.mealType, ask.quantity, ask.waiter, place, admin.id, expires, false)];
      }
    }

    /** The end of `authorize` before its insert: reserve the request, and roll back if it cannot be approved. */
    method ReserveFor(r: Uuid, hash: Fingerprint) returns (error: Option<Code>)
      modifies this`requests
      ensures var reserved := Reserved(old(requests), r, hash);
              && error == (if reserved[r].hash != hash then Some(IDEMPOTENCY_KEY_REUSED)
                           else if Final(reserved[r]) then Some(REQUEST_ALREADY_FINALIZED)
                           else if r in authorizations then Some(AUTHORIZATION_ALREADY_EXISTS)
                           else None)
              && requests == if error.None? then reserved else old(requests)
    {
      var before := requests;
      if r !in requests { requests := requests[r := Request(hash, PENDING, None, None)]; }
      error := if requests[r].hash != hash then Some(IDEMPOTENCY_KEY_REUSED)
               else if Final(requests[r]) then Some(REQUEST_ALREADY_FINALIZED)
               else if r in authorizations then Some(AUTHORIZATION_ALREADY_EXISTS)
               else None;
      if error.Some? { requests := before; }
    }

    method Correct(admin: ActorCheck, m: nat, seen: int, to: int) returns (error: Option<Code>)
      modifies this`corrections
      ensures (T(), error) == ServingProtocol.Correct(old(T()), admin, m, seen, to)
    {
      if admin.Denied? { return Some(admin.code); }
      if m >= |meals| { return Some(MEAL_NOT_FOUND); }
      if to !in world.activeMealTypes { return Some(MEAL_TYPE_UNAVAILABLE); }
      if seen == to { return Some(MEAL_TYPE_UNCHANGED); }
      corrections := corrections + [Correction(m, seen, to)];
      return None;
    }

    method Issue(q: nat, qr: Qr)
      modifies this`qrs, this`tokens
      ensures T() == ServingProtocol.Issue(old(T()), q, qr)
    {
      if q in qrs || qr.token in tokens || (qr.kind == EMPLOYEE) != qr.employee.Some? { return; }
      qrs, tokens := qrs[q := qr], tokens[qr.token := q];
    }

    /** One allowance for each meal type, inserted in turn. */
    method InsertAllowances(q: nat, limit: nat, types: seq<int>)
      modifies this`allowances
      ensures allowances == old(allowances)[q := Unused(limit, types)]
    {
      allowances := allowances[q := map[]];
      for i := 0 to |types|
        invariant allowances == old(allowances)[q := Unused(limit, types[..i])]
      {
        UnusedGrows(limit, types, i);
        allowances := allowances[q := allowances[q][types[i] := Allowance(limit, 0, false)]];
      }
      assert types[..|types|] == types;
    }

    method IssueVisitor(q: nat, qr: Qr, visitor: Visitor, limit: nat, types: seq<int>)
      modifies this`qrs, this`tokens, this`allocations, this`allowances
      ensures T() == ServingProtocol.IssueVisitor(old(T()), q, qr, visitor, limit, types)
    {
      hide Unused;
      if q in qrs || qr.token in tokens || qr.kind != MASTER || qr.employee.Some? || limit == 0 || types == [] { return; }
      InsertAllowances(q, limit, types);
      qrs, tokens := qrs[q := qr], tokens[qr.token := q];
      allocations := allocations[q := Allocation(visitor, limit, 0, false)];
    }

    /** The smaller changes: an approval withdrawn, a meal voided, a credential revoked, reference data and time. */
    method Change(e: Event)
      requires e.OnWithdraw? || e.OnVoid? || e.OnRevoke? || e.OnWorld?
      modifies this`authorizations, this`voids, this`qrs, this`world, this`now
      ensures T() == Step(old(T()), e)
    {
      if e.OnWithdraw? {
        if e.request in authorizations {
          authorizations := authorizations[e.request := authorizations[e.request].(revoked := true)];
        }
      } else if e.OnVoid? {
        voids := voids + {e.meal};
      } else if e.OnRevoke? {
        if e.qr in qrs { qrs := qrs[e.qr := qrs[e.qr].(revoked := true)]; }
      } else {
        world, now := e.world, now + e.elapsed;
      }
    }

    /** One transaction of the run, whichever it is. */
    method Perform(e: Event)
      requires Inv(T())
      modifies this
      ensures T() == Step(old(T()), e) && Inv(T())
    {
      StepKeepsInv(T(), e);
      hide Inv, ServingProtocol.Receive, ServingProtocol.Process, ServingProtocol.Interrupt, ServingProtocol.Authorize,
        ServingProtocol.Correct, ServingProtocol.Issue, ServingProtocol.IssueVisitor, T;
      match e
      case OnReceive(actor, scan, reading, public) => var _ := Receive(actor, scan, reading, public);
      case OnProcess(a, actor) => var _ := Process(a, actor);
      case OnInterrupt(a) => var _ := Interrupt(a);
      case OnAuthorize(actor, ask, id) => var _ := Authorize(actor, ask, id);
      case OnCorrect(actor, m, seen, to) => var _ := Correct(actor, m, seen, to);
      case OnIssue(q, qr) => Issue(q, qr);
      case OnIssueVisitor(q, qr, visitor, limit, types) => IssueVisitor(q, qr, visitor, limit, types);
      case OnWithdraw(_) => Change(e);
      case OnVoid(_) => Change(e);
      case OnRevoke(_) => Change(e);
      case OnWorld(_, _) => Change(e);
    }

    method PerformAll(es: seq<Event>)
      requires Inv(T())
      modifies this
      ensures T() == Run(old(T()), es) && Inv(T())
    {
      hide Inv, Step;
      assert es[..0] == [];
      for i := 0 to |es|
        invariant Inv(T()) && T() == Run(old(T()), es[..i])
      {
        RunAppend(old(T()), es[..i], [es[i]]);
        assert es[..i + 1] == es[..i] + [es[i]];
        RunOne(T(), es[i]);
        Perform(es[i]);
      }
      assert es[..|es|] == es;
    }
  }

  lemma UnusedGrows(limit: nat, types: seq<int>, i: nat)
    requires i < |types|
    ensures Unused(limit, types[..i + 1]) == Unused(limit, types[..i])[types[i] := Allowance(limit, 0, false)]
  {
    assert types[..i + 1] == types[..i] + [types[i]];
  }

  lemma RunOne(t: Tables, e: Event)
    ensures Run(t, [e]) == Step(t, e)
  {
    hide Step;
    assert Run(Step(t, e), [e][1..]) == Step(t, e);
  }

  /** A pending request is not bound. */
  lemma PendingUnbound(t: Tables, r: Uuid)
    requires Inv(t) && r in t.requests
    ensures CredentialInv(t) && (!Final(t.requests[r]) ==> t.requests[r].bound.None?)
  {
    assert RequestOk(t, r);
  }

  /** `Resolve` once the prepared approval has been checked and the request bound if it is to be bound first. */
  ghost function Settled(t: Tables, a: nat, call: Call, staff: nat): (r: (Tables, Reply))
    requires a < |t.attempts| && call.request in t.requests
  {
    var v := Decide(t, call, staff);
    match v
    case Serve(q, _, _, counted) =>
      (Recorded(if counted then Counted(t, q, call.mealType) else t, a, call, staff, v),
       Answer(true, APPROVED, Some(|t.servings|), FreshIds(|t.meals|, call.quantity), false))
    case Await(q) => (Closed(t, a, AWAITING_DETAILS, None, None, Some(q)), NeedsDetails)
    case Refuse(code) => (Dismissed(t, a, call, code), No(code))
    case RefuseAttempt(code) =>
      (Rejected(t, a, code, None, if call.token in t.tokens then Some(t.tokens[call.token]) else None), No(code))
  }

  lemma SettledIsResolved(t: Tables, a: nat, call: Call, staff: nat)
    requires a < |t.attempts| && call.request in t.requests
    ensures var r := call.request;
            var early := if Deferred(call) then t else t.(requests := t.requests[r := Bind(t.requests[r], call.proof)]);
            if r in t.authorizations && Some(t.authorizations[r].id) != call.proof.authorization
            then Resolve(t, a, call, staff)
                 == (Rejected(t, a, AUTHORIZATION_SCOPE_MISMATCH), No(AUTHORIZATION_SCOPE_MISMATCH))
            else Resolve(t, a, call, staff) == Settled(early, a, call, staff)
  {
    hide Decide, Counted, Recorded, Dismissed, Closed;
    var r := call.request;
    var early := if Deferred(call) then t else t.(requests := t.requests[r := Bind(t.requests[r], call.proof)]);
    RecordedEither(t, early, a, call, staff);
    if early != t {
      var v := Decide(t, call, staff);
      if v.Refuse? { DismissedOnceBound(t, a, call, v.code); }
    }
  }

  /** Binding first and recording then comes to the same rows. */
  lemma RecordedOnceBound(t: Tables, a: nat, call: Call, staff: nat, v: Verdict)
    requires v.Serve? && v.qr in t.qrs && a < |t.attempts| && call.request in t.requests
    ensures Recorded(t.(requests := t.requests[call.request := Bind(t.requests[call.request], call.proof)]),
                     a, call, staff, v) == Recorded(t, a, call, staff, v)
  {
  }

  /** Closing an attempt and writing requests are independent. */
  lemma RejectedTwice(t: Tables, requests: map<Uuid, Request>, a: nat, code: Code, qr: Option<nat>)
    requires a < |t.attempts|
    ensures Rejected(t.(requests := requests), a, code, None, qr)
            == Rejected(t, a, code, None, qr).(requests := requests)
  {
  }

  lemma DismissedOnceBound(t: Tables, a: nat, call: Call, code: Code)
    requires a < |t.attempts| && call.request in t.requests
    ensures Dismissed(t.(requests := t.requests[call.request := Bind(t.requests[call.request], call.proof)]),
                      a, call, code) == Dismissed(t, a, call, code)
  {
  }

  lemma RecordedEither(t: Tables, u: Tables, a: nat, call: Call, staff: nat)
    requires a < |t.attempts| && call.request in t.requests
    requires u == t || u == t.(requests := t.requests[call.request := Bind(t.requests[call.request], call.proof)])
    ensures Decide(u, call, staff) == Decide(t, call, staff)
    ensures var v := Decide(t, call, staff);
            v.Serve? ==>
              Recorded(if v.counted then Counted(u, v.qr, call.mealType) else u, a, call, staff, v)
              == Recorded(if v.counted then Counted(t, v.qr, call.mealType) else t, a, call, staff, v)
  {
    hide Decide, Summarize;
    DecideIgnoresRequests(t, u.requests, call, staff);
    var v := Decide(t, call, staff);
    if v.Serve? {
      RecordedOnceBound(if v.counted then Counted(t, v.qr, call.mealType) else t, a, call, staff, v);
    }
  }
}
