/** What each transaction of the serving protocol writes. */
module ServingEffects {
  // Row by row and column by column, for every answer it can give.

  import opened Options
  import opened ServingTables
  import opened ServingProtocol
  import opened ServingInvariant
  import opened ServingPreserved
  import opened ServingRuns
  import opened ServingTheorems
  import opened ServingReplay
  import opened ServingDecisions

  // ---- Approvals ----

  /** One more use of a type, which is exhausted when its limit is reached; all other types are as they were. */
  ghost predicate OneMoreUse(types: map<int, Allowance>, after: map<int, Allowance>, k: int) {
    && k in types && after.Keys == types.Keys
    && (forall j :: j in types && j != k ==> after[j] == types[j])
    && after[k] == Allowance(types[k].limit, types[k].used + 1, types[k].used + 1 == types[k].limit)
  }

  /** The allowance of visitor QR `q` for type `k` is used once, if it has allowances; no other is touched. */
  ghost predicate Uses(t: Tables, u: Tables, q: nat, k: int) {
    if q in t.allocations then
      && q in t.allowances && q in u.allowances && q in u.allocations
      && u.allowances == t.allowances[q := u.allowances[q]] && u.allocations == t.allocations[q := u.allocations[q]]
      && OneMoreUse(t.allowances[q], u.allowances[q], k)
      && u.allocations[q].visitor == t.allocations[q].visitor && u.allocations[q].limit == t.allocations[q].limit
    else u.allowances == t.allowances && u.allocations == t.allocations
  }

  /** The serving of scan `c` of QR `q`: whose it is and, for a visitor, whose details are recorded. */
  ghost function ServingRow(t: Tables, c: Call, q: nat): Serving
    requires q in t.qrs
  {
    Serving(c.request, q, t.qrs[q].kind, t.qrs[q].employee, c.mealType, c.quantity, c.staff, c.place,
            c.proof.authorization, t.now,
            if q in t.allocations then Some(t.allocations[q].visitor) else c.proof.visitor)
  }

  /** The rows of an approved scan. */
  ghost predicate Serves(t: Tables, u: Tables, a: nat, q: nat)
    requires a in t.calls && a < |t.attempts| && q in t.qrs
  {
    var c, s := t.calls[a], |t.servings|;
    && u.servings == t.servings + [ServingRow(t, c, q)]
    && |u.meals| == |t.meals| + c.quantity && u.meals[..|t.meals|] == t.meals
    && (forall m :: |t.meals| <= m < |u.meals| ==> u.meals[m] == Meal(s, m - |t.meals| + 1, c.quantity, t.now))
    && u.requests == t.requests[c.request := Request(c.fingerprint, SUCCEEDED, None, Some(c.proof))]
    && u.attempts == t.attempts[a := t.attempts[a].(outcome := SUCCESS, code := None, serving := Some(s), qr := Some(q))]
    && u == t.(servings := u.servings, meals := u.meals, requests := u.requests, attempts := u.attempts,
               allowances := u.allowances, allocations := u.allocations)
    && Uses(t, u, q, c.mealType)
  }

  lemma CountedUses(t: Tables, q: nat, k: int)
    requires q in t.allocations && q in t.allowances && k in t.allowances[q]
    ensures var u := Counted(t, q, k);
            Uses(t, u, q, k) && u == t.(allowances := u.allowances, allocations := u.allocations)
  {
    hide MostRemaining;
  }

  lemma RecordedRows(t: Tables, used: Tables, a: nat, v: Verdict)
    requires a in t.calls && a < |t.attempts| && t.calls[a].request in t.requests && v.Serve? && v.qr in t.qrs
    requires t.requests[t.calls[a].request] == Request(t.calls[a].fingerprint, PENDING, None, None)
    requires used == t.(allowances := used.allowances, allocations := used.allocations)
    requires Uses(t, used, v.qr, t.calls[a].mealType)
    requires v.employee == t.qrs[v.qr].employee
    requires v.visitor == if v.qr in t.allocations then Some(t.allocations[v.qr].visitor) else t.calls[a].proof.visitor
    ensures Serves(t, Recorded(used, a, t.calls[a], t.calls[a].staff, v), a, v.qr)
  {
    hide OneMoreUse;
    var u := Recorded(used, a, t.calls[a], t.calls[a].staff, v);
    assert u.meals[..|t.meals|] == t.meals;
  }

  lemma PendingIsUnbound(t: Tables, r: Uuid)
    requires r in t.requests && RequestOk(t, r) && !Final(t.requests[r])
    ensures t.requests[r] == Request(t.requests[r].hash, PENDING, None, None)
  {
    hide ServingOf;
  }

  /** Whose serving it is, and whose details are recorded. */
  lemma ServeRows(t: Tables, c: Call, v: Verdict)
    requires v == Decide(t, c, c.staff) && v.Serve? && CredentialInv(t) && AllowanceInv(t) && v.qr in t.qrs
    ensures v.employee == t.qrs[v.qr].employee
    ensures v.visitor == if v.qr in t.allocations then Some(t.allocations[v.qr].visitor) else c.proof.visitor
    ensures v.counted <==> v.qr in t.allocations
  {
    hide Locate, ScannerProblem, QrProblem, AuthorizationProblem, EmployeeProblem, AllowanceProblem;
    if v.qr in t.allocations { assert AllocationOk(t, v.qr); }
  }

  /** Over any run, an approval writes exactly these rows and answers with the ids of its serving and meals. */
  lemma WhatAnApprovedScanStores(start: Start, es: seq<Event>, a: nat, actor: ActorCheck)
    requires ApprovesAnew(Process(After(start, es), a, actor).1)
    ensures var t := After(start, es);
            var (u, reply) := Process(t, a, actor);
            && a in t.calls && a < |t.attempts|
            && var c := t.calls[a];
               && c.token in t.tokens && t.tokens[c.token] in t.qrs && Serves(t, u, a, t.tokens[c.token])
               && reply == Answer(true, APPROVED, Some(|t.servings|), reply.meals, false)
               && |reply.meals| == c.quantity && forall i :: 0 <= i < c.quantity ==> reply.meals[i] == |t.meals| + i
  {
    hide Run, Process, Inv, Resolve, Decide, Serves, Prepared, Servable, Counted, Recorded;
    var t := After(start, es);
    AfterInv(start, es);
    ApprovedExactlyWhen(start, es, a, actor);
    UndecidedIsResolved(t, a);
    var c := t.calls[a];
    OpenFacts(t, a);
    ResolvedServes(t, a, c);
    PendingIsUnbound(t, c.request);
    InvParts(t);
    var v := Decide(t, c, c.staff);
    ServeFits(t, c, c.staff, v);
    ServeRows(t, c, v);
    hide Uses, AllowanceInv, CredentialInv;
    if v.counted { CountedUses(t, v.qr, c.mealType); } else { NothingUsed(t, v.qr, c.mealType); }
    RecordedRows(t, if v.counted then Counted(t, v.qr, c.mealType) else t, a, v);
  }

  lemma NothingUsed(t: Tables, q: nat, k: int)
    requires q !in t.allocations
    ensures Uses(t, t, q, k)
  {
  }

  lemma InvParts(t: Tables)
    requires Inv(t)
    ensures AllowanceInv(t) && CredentialInv(t)
  {
  }

  lemma ResolvedServes(t: Tables, a: nat, c: Call)
    requires a < |t.attempts| && c.request in t.requests && ApprovesAnew(Resolve(t, a, c, c.staff).1)
    ensures var v := Decide(t, c, c.staff);
            && v.Serve?
            && Resolve(t, a, c, c.staff)
               == (Recorded(if v.counted then Counted(t, v.qr, c.mealType) else t, a, c, c.staff, v),
                   Answer(true, APPROVED, Some(|t.servings|), FreshIds(|t.meals|, c.quantity), false))
  {
    hide Decide, Counted, Recorded, Dismissed, Closed, Bind;
  }

  // ---- Refusals ----

  /** Attempt `a` is closed, and nothing else is written but request rows. */
  ghost predicate ClosesAs(t: Tables, u: Tables, a: nat, outcome: Outcome, code: Option<Code>, serving: Option<nat>,
                           qr: Option<nat>)
    requires a < |t.attempts|
  {
    && u == t.(attempts := u.attempts, requests := u.requests)
    && u.attempts == t.attempts[a := t.attempts[a].(outcome := outcome, code := code, serving := serving, qr := qr)]
  }

  /** The scan is refused with this code, and only its attempt is closed. */
  ghost predicate RefusedOnly(t: Tables, u: Tables, a: nat, reply: Reply, code: Code)
    requires a < |t.attempts|
  {
    reply == No(code) && u.requests == t.requests && ClosesAs(t, u, a, REFUSED, Some(code), None, None)
  }

  /** The rows of a refusal, or of a request for details. */
  ghost predicate Refuses(t: Tables, u: Tables, a: nat, c: Call, reply: Reply)
    requires a < |t.attempts|
  {
    && (reply.Answer? && !reply.approved ==>
          && ClosesAs(t, u, a, REFUSED, Some(reply.code), None, if Prepared(t, c) then NamedQr(t, c) else None)
          && u.requests == if Prepared(t, c) && reply.code != VISITOR_DETAILS_REQUIRED
                           then t.requests[c.request := Request(c.fingerprint, REJECTED, Some(reply.code), Some(c.proof))]
                           else t.requests)
    && (reply.NeedsDetails? ==>
          u.requests == t.requests && ClosesAs(t, u, a, AWAITING_DETAILS, None, None, NamedQr(t, c)))
  }

  function NamedQr(t: Tables, c: Call): Option<nat> { if c.token in t.tokens then Some(t.tokens[c.token]) else None }

  lemma OnlyAttemptsRefused(t: Tables, c: Call)
    ensures var v := Decide(t, c, c.staff);
            && (v.RefuseAttempt? ==> v.code == VISITOR_DETAILS_REQUIRED && Deferred(c))
            && (v.Refuse? ==> v.code != VISITOR_DETAILS_REQUIRED)
            && (v.Await? ==> Deferred(c) && c.token in t.tokens && v.qr == t.tokens[c.token])
  {
    hide Locate, Blocked;
    if Decide(t, c, c.staff).Await? || Decide(t, c, c.staff).RefuseAttempt? { UndecidedIsDeferred(t, c, c.staff); }
  }

  lemma ResolvedRows(t: Tables, a: nat, c: Call)
    requires a < |t.attempts| && c.request in t.requests && t.requests[c.request] == Request(c.fingerprint, PENDING, None, None)
    ensures var (u, reply) := Resolve(t, a, c, c.staff); Refuses(t, u, a, c, reply)
  {
    hide Decide, Counted, Recorded;
    OnlyAttemptsRefused(t, c);
  }

  /** Over any run, what the other answers to an undecided scan write: a refusal closes the attempt with its code,
      naming the QR, and makes the request final with that code, bound to what was shown; only a scan that is to show
      more, or not the prepared approval, leaves the request pending and unbound. */
  lemma WhatARefusedScanStores(start: Start, es: seq<Event>, a: nat)
    requires Undecided(After(start, es), a)
    ensures var t := After(start, es);
            var c := t.calls[a];
            var (u, reply) := Process(t, a, Staff(c.staff));
            Refuses(t, u, a, c, reply)
  {
    hide Run, Process, Inv, Resolve, Refuses;
    var t := After(start, es);
    AfterInv(start, es);
    UndecidedIsResolved(t, a);
    OpenFacts(t, a);
    PendingIsUnbound(t, t.calls[a].request);
    ResolvedRows(t, a, t.calls[a]);
  }

  /** Over any run, every other scan: closed attempts are left alone; a refused session, another account, another
      fingerprint, or another proof under a final request close the attempt only. */
  lemma OtherScansChangeNothing(start: Start, es: seq<Event>, a: nat, actor: ActorCheck)
    ensures var t := After(start, es);
            var (u, reply) := Process(t, a, actor);
            if a !in t.calls then u == t && reply.Unconfirmed?
            else a < |t.attempts| && t.calls[a].request in t.requests && Otherwise(t, u, a, actor, reply)
  {
    hide Run, Inv, Process, Otherwise;
    var t := After(start, es);
    AfterInv(start, es);
    if a in t.calls {
      OpenFacts(t, a);
      OtherRows(t, a, actor);
    } else {
      NoReceipt(t, a, actor);
    }
  }

  ghost predicate Otherwise(t: Tables, u: Tables, a: nat, actor: ActorCheck, reply: Reply)
    requires a in t.calls && a < |t.attempts| && t.calls[a].request in t.requests
  {
    var c, row := t.calls[a], t.requests[t.calls[a].request];
    if t.attempts[a].outcome != RECEIVED then u == t && reply.Unconfirmed?
    else if actor.Denied? then RefusedOnly(t, u, a, reply, actor.code)
    else if actor.id != c.staff then RefusedOnly(t, u, a, reply, AUTHENTICATION_CHANGED)
    else if c.fingerprint != row.hash || (row.status != PENDING && !c.reading && row.bound != Some(c.proof))
    then RefusedOnly(t, u, a, reply, IDEMPOTENCY_KEY_REUSED)
    else row.status == PENDING ==> Undecided(t, a)
  }

  lemma NoReceipt(t: Tables, a: nat, actor: ActorCheck)
    requires a !in t.calls
    ensures Process(t, a, actor) == (t, Unconfirmed)
  {
  }

  lemma OtherRows(t: Tables, a: nat, actor: ActorCheck)
    requires a in t.calls && Remembers(t, a) && RequestOk(t, t.calls[a].request)
    ensures var (u, reply) := Process(t, a, actor); Otherwise(t, u, a, actor, reply)
  {
    hide Resolve, Replay, ServingOf;
  }

  /** And a repetition of a final request is logged as a duplicate of its serving, or with its code. */
  lemma WhatARepetitionStores(start: Start, es: seq<Event>, a: nat)
    requires var t := After(start, es);
             && a in t.calls && a < |t.attempts| && t.attempts[a].outcome == RECEIVED && t.calls[a].request in t.requests
             && var c, row := t.calls[a], t.requests[t.calls[a].request];
                Final(row) && row.hash == c.fingerprint && (c.reading || row.bound == Some(c.proof))
    ensures var t := After(start, es);
            var c, row := t.calls[a], t.requests[t.calls[a].request];
            var (u, reply) := Process(t, a, Staff(c.staff));
            && reply == Original(t, c.request) && u.requests == t.requests
            && if row.status == SUCCEEDED then
                 exists s: nat ::
                   && s < |t.servings| && t.servings[s].request == c.request
                   && ClosesAs(t, u, a, REFUSED, Some(DUPLICATE_REQUEST), Some(s), Some(t.servings[s].qr))
               else row.code.Some? && ClosesAs(t, u, a, REFUSED, row.code, None, None)
  {
    hide Run, Inv, Process, Original;
    var t := After(start, es);
    AfterInv(start, es);
    RepetitionAnswered(t, t.calls[a].request, a);
    FinalFacts(t, t.calls[a].request);
    RepetitionRows(t, a);
  }

  lemma RepetitionRows(t: Tables, a: nat)
    requires a in t.calls && a < |t.attempts| && t.attempts[a].outcome == RECEIVED
    requires t.calls[a].request in t.requests && RequestOk(t, t.calls[a].request)
    requires var c, row := t.calls[a], t.requests[t.calls[a].request];
             && Final(row) && row.hash == c.fingerprint && (c.reading || row.bound == Some(c.proof))
             && (row.status == SUCCEEDED ==>
                   var s := ServingOf(t.servings, c.request);
                   s < |t.servings| && t.servings[s].authorization == row.bound.value.authorization)
    ensures var c, row := t.calls[a], t.requests[t.calls[a].request];
            var u := Process(t, a, Staff(c.staff)).0;
            && u.requests == t.requests
            && if row.status == SUCCEEDED then
                 var s := ServingOf(t.servings, c.request);
                 s < |t.servings| && ClosesAs(t, u, a, REFUSED, Some(DUPLICATE_REQUEST), Some(s), Some(t.servings[s].qr))
               else row.code.Some? && ClosesAs(t, u, a, REFUSED, row.code, None, None)
  {
    hide MealsOf, ServingOf, Resolve;
  }

  // ---- Receiving ----

  /** A number a database row can have. */
  ghost predicate RowId(x: int) { 1 <= x <= 18_446_744_073_709_551_615 }

  /** The checks of a scan as it arrives, in order. */
  ghost function ArrivalChecks(actor: ActorCheck, scan: Scan, reading: bool): seq<Check> {
    (if actor.Denied? then [Check(false, actor.code)] else [])
    + ([Check(scan.request.Some?, INVALID_REQUEST_ID),
        Check(scan.token.Some?, INVALID_QR),
        Check(RowId(scan.mealType), INVALID_MEAL_TYPE_ID),
        Check(1 <= scan.quantity <= 65535, INVALID_QUANTITY),
        Check(scan.authorization.Some? ==> RowId(scan.authorization.value), INVALID_AUTHORIZATION_ID)]
       + ([Check(reading ==> scan.quantity == 1 && scan.authorization.None? && scan.visitor.NoVisitor?,
                 INVALID_SCAN_READ_INPUT)]
          + ((if scan.visitor.BadVisitor? then [Check(false, scan.visitor.code)] else [])
             + [Check(scan.visitor.GivenVisitor? ==> scan.authorization.None?, VISITOR_DETAILS_AUTHORIZATION_CONFLICT),
                Check(scan.visitor.GivenVisitor? ==> scan.quantity == 1, VISITOR_QUANTITY_MUST_BE_ONE),
                Check(scan.code.Some?, INVALID_SCANNER_CODE)])))
  }

  function VisitorComplaint(scan: Scan): Option<Code> {
    if scan.visitor.BadVisitor? then Some(scan.visitor.code)
    else if scan.visitor.GivenVisitor? && scan.authorization.Some? then Some(VISITOR_DETAILS_AUTHORIZATION_CONFLICT)
    else if scan.visitor.GivenVisitor? && scan.quantity != 1 then Some(VISITOR_QUANTITY_MUST_BE_ONE)
    else if scan.code.None? then Some(INVALID_SCANNER_CODE)
    else None
  }

  ghost function VisitorChecks(scan: Scan): seq<Check> {
    (if scan.visitor.BadVisitor? then [Check(false, scan.visitor.code)] else [])
    + [Check(scan.visitor.GivenVisitor? ==> scan.authorization.None?, VISITOR_DETAILS_AUTHORIZATION_CONFLICT),
       Check(scan.visitor.GivenVisitor? ==> scan.quantity == 1, VISITOR_QUANTITY_MUST_BE_ONE),
       Check(scan.code.Some?, INVALID_SCANNER_CODE)]
  }

  lemma VisitorAgrees(scan: Scan)
    ensures Agrees(VisitorComplaint(scan), VisitorChecks(scan))
  {
    hide Agrees;
    var a, b, c := Check(scan.visitor.GivenVisitor? ==> scan.authorization.None?, VISITOR_DETAILS_AUTHORIZATION_CONFLICT),
                   Check(scan.visitor.GivenVisitor? ==> scan.quantity == 1, VISITOR_QUANTITY_MUST_BE_ONE),
                   Check(scan.code.Some?, INVALID_SCANNER_CODE);
    var p := if !a.passes then Some(a.code) else if !b.passes then Some(b.code) else if !c.passes then Some(c.code) else None;
    ThreeChecks(a, b, c);
    NoChecks();
    if scan.visitor.BadVisitor? {
      OneCheck(Check(false, scan.visitor.code));
      Both(Some(scan.visitor.code), [Check(false, scan.visitor.code)], p, [a, b, c]);
    } else {
      Both(None, [], p, [a, b, c]);
    }
  }

  lemma ArrivalAgrees(actor: ActorCheck, scan: Scan, reading: bool)
    ensures Agrees(Complaint(actor, scan, reading), ArrivalChecks(actor, scan, reading))
  {
    hide Agrees;
    VisitorAgrees(scan);
    var a, b, c, d, e := Check(scan.request.Some?, INVALID_REQUEST_ID), Check(scan.token.Some?, INVALID_QR),
                         Check(RowId(scan.mealType), INVALID_MEAL_TYPE_ID),
                         Check(1 <= scan.quantity <= 65535, INVALID_QUANTITY),
                         Check(scan.authorization.Some? ==> RowId(scan.authorization.value), INVALID_AUTHORIZATION_ID);
    var f := Check(reading ==> scan.quantity == 1 && scan.authorization.None? && scan.visitor.NoVisitor?,
                   INVALID_SCAN_READ_INPUT);
    FiveChecks(a, b, c, d, e);
    OneCheck(f);
    NoChecks();
    var p := if !a.passes then Some(a.code) else if !b.passes then Some(b.code) else if !c.passes then Some(c.code)
             else if !d.passes then Some(d.code) else if !e.passes then Some(e.code) else None;
    var pf := if !f.passes then Some(f.code) else None;
    Both(pf, [f], VisitorComplaint(scan), VisitorChecks(scan));
    var pv := if pf.Some? then pf else VisitorComplaint(scan);
    Both(p, [a, b, c, d, e], pv, [f] + VisitorChecks(scan));
    var rest := [a, b, c, d, e] + ([f] + VisitorChecks(scan));
    if actor.Denied? {
      OneCheck(Check(false, actor.code));
      Both(Some(actor.code), [Check(false, actor.code)], if p.Some? then p else pv, rest);
    } else {
      Both(None, [], if p.Some? then p else pv, rest);
    }
  }

  /** The place of a scanner code, which is no place for an unknown one. */
  ghost predicate PlacedAt(w: World, code: Option<string>, place: Place) {
    if code.Some? && code.value in w.scanners && w.scanners[code.value] in w.devices
    then StandsAt(w, code.value, place) else place == Place(None, None)
  }

  /** A scan that fails a check is logged with the code of the first that fails, naming the token only if account and
      request were in order; the caller is told that the request is taken if it is. */
  lemma WhatADeclinedScanStores(t: Tables, actor: ActorCheck, scan: Scan, reading: bool, public: bool)
    ensures var (u, reception) := Receive(t, actor, scan, reading, public);
            || AllPass(ArrivalChecks(actor, scan, reading))
            || exists code ::
                 && FailsWith(ArrivalChecks(actor, scan, reading), code)
                 && u == t.(attempts := u.attempts) && |u.attempts| == |t.attempts| + 1
                 && u.attempts[..|t.attempts|] == t.attempts
                 && var x, known := u.attempts[|t.attempts|], actor.Staff? && scan.request.Some?;
                    && x.request.None? && x.hash.None? && x.token == (if known then scan.token else None)
                    && x.staff == (if actor.Staff? then Some(actor.id) else None)
                    && PlacedAt(t.world, scan.rawCode, x.place) && x.reported == scan.rawCode
                    && x.outcome == REFUSED && x.code == Some(code) && x.serving.None? && x.qr.None?
                    && x.receivedAt == t.now
                    && reception == NotReceived(if known && scan.request.value in t.requests then REQUEST_MISMATCH else code)
  {
    hide Complaint, ArrivalChecks, Agrees, FailsWith, AllPass;
    ArrivalAgrees(actor, scan, reading);
    AgreesMeans(Complaint(actor, scan, reading), ArrivalChecks(actor, scan, reading));
  }

  /** The row of an accepted scan, whatever becomes of it. */
  ghost predicate Logs(t: Tables, u: Tables, staff: nat, scan: Scan) {
    && u == t.(attempts := u.attempts, requests := u.requests, calls := u.calls)
    && |u.attempts| == |t.attempts| + 1 && u.attempts[..|t.attempts|] == t.attempts
    && var x := u.attempts[|t.attempts|];
       && x.request == scan.request && x.token == scan.token && x.staff == Some(staff) && x.reported == scan.code
       && PlacedAt(t.world, scan.code, x.place) && x.serving.None? && x.qr.None? && x.receivedAt == t.now
       && x.hash.Some? && Some(x.hash.value.token) == scan.token && x.hash.value.staff == staff
       && x.hash.value.mealType == scan.mealType && x.hash.value.quantity == scan.quantity
  }

  /** The request and the receipt of an accepted scan, whose attempt row is `x`.  The request is reserved if it was not
      there.  While it is open, the scan is identified by the place the scanner stands at now; once it is final, by the
      place of the request, if the scanner code is that of the first attempt with the request's fingerprint. */
  ghost predicate Receipts(t: Tables, u: Tables, reception: Reception, x: Attempt, scan: Scan, staff: nat, reading: bool,
                           public: bool)
    requires scan.request.Some? && scan.token.Some? && scan.code.Some? && scan.quantity >= 0 && x.hash.Some?
  {
    var r, visitor := scan.request.value, if scan.visitor.GivenVisitor? then Some(scan.visitor.visitor) else None;
    && u.requests == (if r in t.requests then t.requests
                      else t.requests[r := Request(x.hash.value, PENDING, None, None)])
    && (r !in t.requests || t.requests[r].status == PENDING ==> reception.Received? && x.hash.value.place == x.place)
    && (r in t.requests && t.requests[r].status != PENDING ==>
          if scan.code == FirstCode(t, r) then reception.Received? && x.hash.value.place == t.requests[r].hash.place
          else reception == NotReceived(IDEMPOTENCY_KEY_REUSED))
    && (if reception.Received? then
          && x.outcome == RECEIVED && x.code.None? && reception.attempt == |t.attempts|
          && reception.call == Call(r, x.hash.value, scan.token.value, staff, x.place, scan.code.value, scan.mealType,
                                    scan.quantity, Proof(scan.authorization, visitor), reading, public)
          && u.calls == t.calls[|t.attempts| := reception.call]
        else x.outcome == REFUSED && x.code == Some(reception.code) && u.calls == t.calls)
  }

  /** Over any run, what an accepted scan writes. */
  lemma WhatAnAcceptedScanStores(start: Start, es: seq<Event>, staff: nat, scan: Scan, reading: bool, public: bool)
    requires AllPass(ArrivalChecks(Staff(staff), scan, reading))
    ensures var t := After(start, es);
            var (u, reception) := Receive(t, Staff(staff), scan, reading, public);
            && scan.request.Some? && scan.token.Some? && scan.code.Some? && scan.quantity >= 0
            && Logs(t, u, staff, scan)
            && u.attempts[|t.attempts|].hash.Some?
            && Receipts(t, u, reception, u.attempts[|t.attempts|], scan, staff, reading, public)
  {
    hide Run, Inv, Complaint, ArrivalChecks, Agrees, AllPass, FailsWith, Accept, Reserved, Receipts, PlacedAt;
    var t := After(start, es);
    AfterInv(start, es);
    var checks, p := ArrivalChecks(Staff(staff), scan, reading), Complaint(Staff(staff), scan, reading);
    ArrivalAgrees(Staff(staff), scan, reading);
    AgreesMeans(p, checks);
    if p.Some? { NotBoth(checks, p.value); }
    Accepted(Staff(staff), scan, reading);
    var r := scan.request.value;
    if r in t.requests && Final(t.requests[r]) { FinalProvable(t, r); }
    AcceptedIsLogged(t, staff, scan, reading, public);
    AcceptedRows(t, staff, scan, reading, public);
  }

  lemma LocatedIsPlaced(w: World, code: Option<string>)
    ensures PlacedAt(w, code, Locate(w, code))
  {
  }

  lemma AcceptedIsLogged(t: Tables, staff: nat, scan: Scan, reading: bool, public: bool)
    requires scan.request.Some? && scan.token.Some? && scan.code.Some? && scan.quantity >= 0
    ensures Logs(t, Accept(t, staff, scan, reading, public).0, staff, scan)
  {
    hide Identify, Reserved, Locate, PlacedAt;
    LocatedIsPlaced(t.world, scan.code);
    var u := Accept(t, staff, scan, reading, public).0;
    assert u.attempts[..|t.attempts|] == t.attempts;
  }

  lemma AcceptedRows(t: Tables, staff: nat, scan: Scan, reading: bool, public: bool)
    requires scan.request.Some? && scan.token.Some? && scan.code.Some? && scan.quantity >= 0
    requires scan.request.value in t.requests && Final(t.requests[scan.request.value]) ==> Provable(t, scan.request.value)
    ensures var (u, reception) := Accept(t, staff, scan, reading, public);
            && |u.attempts| == |t.attempts| + 1 && u.attempts[|t.attempts|].hash.Some?
            && Receipts(t, u, reception, u.attempts[|t.attempts|], scan, staff, reading, public)
  {
    hide Locate, First;
  }

  // ---- The other transactions ----

  /** An interruption closes its attempt if it is open, and does nothing else. */
  lemma WhatAnInterruptionStores(t: Tables, a: nat)
    ensures var u := Step(t, OnInterrupt(a));
            if a < |t.attempts| && t.attempts[a].outcome == RECEIVED then
              u == t.(attempts := t.attempts[a := t.attempts[a].(outcome := REFUSED, code := Some(PROCESSING_INTERRUPTED))])
            else u == t
  {
  }

  /** A correction is made by an administrator, of a meal there is, to an active type other than the one the meal was
      seen to have; the first check that fails is answered.  It only adds its row, after which the meal counts as the
      new type, and every other as before. */
  lemma WhatACorrectionStores(t: Tables, admin: ActorCheck, m: nat, seen: int, to: int)
    ensures var (u, error) := Correct(t, admin, m, seen, to);
            && (admin.Denied? ==> error == Some(admin.code))
            && (admin.Staff? ==>
                  && (error == Some(MEAL_NOT_FOUND) <==> m >= |t.meals|)
                  && (error == Some(MEAL_TYPE_UNAVAILABLE) <==> m < |t.meals| && to !in t.world.activeMealTypes)
                  && (error == Some(MEAL_TYPE_UNCHANGED)
                      <==> m < |t.meals| && to in t.world.activeMealTypes && seen == to)
                  && (error.None? <==> m < |t.meals| && to in t.world.activeMealTypes && seen != to))
            && (error.Some? ==> u == t)
            && (error.None? ==>
                  && u == t.(corrections := u.corrections) && u.corrections[..|u.corrections| - 1] == t.corrections
                  && u.corrections[|t.corrections|] == Correction(m, seen, to)
                  && (forall recorded, k :: CountsAs(u.corrections, m, recorded, k) <==> k == to)
                  && (forall n: nat, recorded, k :: n != m ==>
                        (CountsAs(u.corrections, n, recorded, k) <==> CountsAs(t.corrections, n, recorded, k))))
  {
    var (u, error) := Correct(t, admin, m, seen, to);
    if error.None? {
      var c := Correction(m, seen, to);
      assert (t.corrections + [c])[..|t.corrections|] == t.corrections;
      forall recorded: int, k: int ensures CountsAs(u.corrections, m, recorded, k) <==> k == to {
        EffectiveTypeMeans(u.corrections, m, recorded, k);
      }
      forall n: nat, recorded: int, k: int | n != m
        ensures CountsAs(u.corrections, n, recorded, k) <==> CountsAs(t.corrections, n, recorded, k)
      {
        EffectiveTypeMeans(u.corrections, n, recorded, k);
        EffectiveTypeMeans(t.corrections, n, recorded, k);
      }
    }
    hide CountsAs;
  }

  /** A credential is added under an unused id and token, with an owner exactly if it is an employee's; a visitor's with
      a positive limit and some meal types comes with its details and, for each type, the whole limit unused. */
  lemma WhatAnIssueStores(t: Tables, q: nat, qr: Qr, visitor: Visitor, limit: nat, types: seq<int>)
    ensures var unused := q !in t.qrs && qr.token !in t.tokens && (qr.kind == EMPLOYEE <==> qr.employee.Some?);
            var u, v := Step(t, OnIssue(q, qr)), Step(t, OnIssueVisitor(q, qr, visitor, limit, types));
            && u == (if unused then t.(qrs := t.qrs[q := qr], tokens := t.tokens[qr.token := q]) else t)
            && (if unused && qr.kind == MASTER && limit > 0 && types != [] then
                  && v == t.(qrs := t.qrs[q := qr], tokens := t.tokens[qr.token := q], allocations := v.allocations,
                             allowances := v.allowances)
                  && v.allocations == t.allocations[q := Allocation(visitor, limit, 0, false)]
                  && q in v.allowances && v.allowances == t.allowances[q := v.allowances[q]]
                  && (forall k :: k in v.allowances[q] <==> k in types)
                  && (forall k :: k in types ==> v.allowances[q][k] == Allowance(limit, 0, false))
                else v == t)
  {
  }

  /** Withdrawing an approval sets just that. */
  lemma WhatAWithdrawalStores(t: Tables, r: Uuid)
    ensures var u := Step(t, OnWithdraw(r));
            && u == t.(authorizations := u.authorizations) && u.authorizations.Keys == t.authorizations.Keys
            && forall x :: x in t.authorizations ==>
                 u.authorizations[x] == t.authorizations[x].(revoked := x == r || t.authorizations[x].revoked)
  {
    hide Receive, Process, Interrupt, Authorize, Correct, Issue, IssueVisitor;
  }

  /** And so does revoking a credential. */
  lemma WhatARevocationStores(t: Tables, q: nat)
    ensures var u := Step(t, OnRevoke(q));
            && u == t.(qrs := u.qrs) && u.qrs.Keys == t.qrs.Keys
            && forall x :: x in t.qrs ==> u.qrs[x] == t.qrs[x].(revoked := x == q || t.qrs[x].revoked)
  {
    hide Receive, Process, Interrupt, Authorize, Correct, Issue, IssueVisitor;
  }

  /** A voided meal is listed; reference data and the clock are replaced as a whole. */
  lemma WhatTheWorldStores(t: Tables, m: nat, w: World, elapsed: nat)
    ensures Step(t, OnVoid(m)) == t.(voids := t.voids + {m})
    ensures Step(t, OnWorld(w, elapsed)) == t.(world := w, now := t.now + elapsed)
  {
    hide Receive, Process, Interrupt, Authorize, Correct, Issue, IssueVisitor;
  }
}
