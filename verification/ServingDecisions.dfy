/** What a decision to serve rests on. */
module ServingDecisions {
  // Each check stated on the rows of the tables, in the order in which the code makes them: a scan is answered with the
  // code of the first that fails, and approved if none does.

  import opened Options
  import opened ServingTables
  import opened ServingProtocol
  import opened ServingInvariant
  import opened ServingPreserved
  import opened ServingRuns
  import opened ServingTheorems

  datatype Check = Check(passes: bool, code: Code)

  ghost predicate AllPass(checks: seq<Check>) { forall i :: 0 <= i < |checks| ==> checks[i].passes }

  /** The first check that fails is the one with this code. */
  ghost predicate FailsWith(checks: seq<Check>, code: Code) {
    exists i :: 0 <= i < |checks| && !checks[i].passes && checks[i].code == code
                && forall j :: 0 <= j < i ==> checks[j].passes
  }

  ghost predicate Agrees(problem: Option<Code>, checks: seq<Check>) {
    if problem.Some? then FailsWith(checks, problem.value) else AllPass(checks)
  }

  lemma Both(p: Option<Code>, a: seq<Check>, q: Option<Code>, b: seq<Check>)
    requires Agrees(p, a) && (p.None? ==> Agrees(q, b))
    ensures Agrees(if p.Some? then p else q, a + b)
  {
    if p.Some? {
      var i :| 0 <= i < |a| && !a[i].passes && a[i].code == p.value && forall j :: 0 <= j < i ==> a[j].passes;
      assert (a + b)[i] == a[i];
    } else if q.Some? {
      var i :| 0 <= i < |b| && !b[i].passes && b[i].code == q.value && forall j :: 0 <= j < i ==> b[j].passes;
      assert (a + b)[|a| + i] == b[i];
    }
  }

  lemma NoChecks()
    ensures Agrees(None, [])
  {
  }

  lemma OneCheck(a: Check)
    ensures Agrees(if !a.passes then Some(a.code) else None, [a])
  {
    if !a.passes { assert [a][0] == a; }
  }

  lemma ThreeChecks(a: Check, b: Check, c: Check)
    ensures Agrees(if !a.passes then Some(a.code) else if !b.passes then Some(b.code) else if !c.passes then Some(c.code)
                   else None, [a, b, c])
  {
    var all := [a, b, c];
    if !a.passes { assert all[0] == a; } else if !b.passes { assert all[1] == b; } else if !c.passes { assert all[2] == c; }
  }

  lemma FiveChecks(a: Check, b: Check, c: Check, d: Check, e: Check)
    ensures Agrees(if !a.passes then Some(a.code) else if !b.passes then Some(b.code) else if !c.passes then Some(c.code)
                   else if !d.passes then Some(d.code) else if !e.passes then Some(e.code) else None, [a, b, c, d, e])
  {
    var all := [a, b, c, d, e];
    if !a.passes { assert all[0] == a; } else if !b.passes { assert all[1] == b; }
    else if !c.passes { assert all[2] == c; } else if !d.passes { assert all[3] == d; }
    else if !e.passes { assert all[4] == e; }
  }

  // ---- The scanner and the credential ----

  /** The scanner is known, it is active, and so is its location. */
  ghost function ScannerChecks(w: World, code: string): seq<Check> {
    var known := code in w.scanners && w.scanners[code] in w.devices;
    [Check(known, UNKNOWN_SCANNER),
     Check(known && w.devices[w.scanners[code]].active, SCANNER_INACTIVE),
     Check(known && w.devices[w.scanners[code]].locationActive, LOCATION_INACTIVE)]
  }

  /** The code is that of a scanner which stands at this place. */
  ghost predicate StandsAt(w: World, code: string, place: Place) {
    && place.scanner.Some? && place.location.Some?
    && code in w.scanners && w.scanners[code] == place.scanner.value
    && place.scanner.value in w.devices && w.devices[place.scanner.value].location == place.location.value
  }

  ghost function EntryChecks(t: Tables, c: Call): seq<Check> {
    ScannerChecks(t.world, c.code)
    + [Check(StandsAt(t.world, c.code, c.place), SCANNER_LOCATION_CHANGED),
       Check(c.mealType in t.world.activeMealTypes, MEAL_TYPE_UNAVAILABLE),
       Check(c.token in t.tokens && t.tokens[c.token] in t.qrs, UNKNOWN_QR)]
  }

  ghost function UsableChecks(qr: Qr, now: int): seq<Check> {
    [Check(!qr.revoked, QR_REVOKED)] + [Check(qr.expires.None? || now < qr.expires.value, QR_EXPIRED)]
  }

  ghost function CredentialChecks(t: Tables, qr: Qr): seq<Check> {
    (if qr.kind == EMPLOYEE
     then [Check(qr.employee.Some? && qr.employee.value in t.world.activeEmployees, EMPLOYEE_INACTIVE)] else [])
    + UsableChecks(qr, t.now)
  }

  lemma ScannerAgrees(w: World, code: string)
    ensures Agrees(ScannerProblem(w, code), ScannerChecks(w, code))
  {
    hide Agrees;
    var known := code in w.scanners && w.scanners[code] in w.devices;
    ThreeChecks(Check(known, UNKNOWN_SCANNER),
                Check(known && w.devices[w.scanners[code]].active, SCANNER_INACTIVE),
                Check(known && w.devices[w.scanners[code]].locationActive, LOCATION_INACTIVE));
  }

  lemma StandingIsLocated(w: World, code: string, place: Place)
    requires code in w.scanners && w.scanners[code] in w.devices
    ensures Locate(w, Some(code)) == place <==> StandsAt(w, code, place)
  {
  }

  lemma UsableAgrees(qr: Qr, now: int)
    ensures Agrees(QrProblem(qr, now), UsableChecks(qr, now))
  {
    hide Agrees;
    var a, b := Check(!qr.revoked, QR_REVOKED), Check(qr.expires.None? || now < qr.expires.value, QR_EXPIRED);
    OneCheck(a);
    OneCheck(b);
    Both(if !a.passes then Some(a.code) else None, [a], if !b.passes then Some(b.code) else None, [b]);
  }

  /** The problem found before the kind of the credential matters. */
  function EntryProblem(t: Tables, c: Call): Option<Code> {
    var p := ScannerProblem(t.world, c.code);
    if p.Some? then p
    else if Locate(t.world, Some(c.code)) != c.place then Some(SCANNER_LOCATION_CHANGED)
    else if c.mealType !in t.world.activeMealTypes then Some(MEAL_TYPE_UNAVAILABLE)
    else if c.token !in t.tokens || t.tokens[c.token] !in t.qrs then Some(UNKNOWN_QR)
    else None
  }

  lemma KnownScanner(w: World, code: string)
    requires ScannerProblem(w, code).None?
    ensures code in w.scanners && w.scanners[code] in w.devices
  {
  }

  lemma EntryAgrees(t: Tables, c: Call)
    ensures Agrees(EntryProblem(t, c), EntryChecks(t, c))
  {
    hide Agrees, ScannerProblem, ScannerChecks, Locate, StandsAt;
    var p := ScannerProblem(t.world, c.code);
    ScannerAgrees(t.world, c.code);
    var a, b, d := Check(StandsAt(t.world, c.code, c.place), SCANNER_LOCATION_CHANGED),
                   Check(c.mealType in t.world.activeMealTypes, MEAL_TYPE_UNAVAILABLE),
                   Check(c.token in t.tokens && t.tokens[c.token] in t.qrs, UNKNOWN_QR);
    ThreeChecks(a, b, d);
    if p.None? {
      KnownScanner(t.world, c.code);
      StandingIsLocated(t.world, c.code, c.place);
    }
    Both(p, ScannerChecks(t.world, c.code),
         if !a.passes then Some(a.code) else if !b.passes then Some(b.code) else if !d.passes then Some(d.code) else None,
         [a, b, d]);
  }

  function CredentialProblem(t: Tables, qr: Qr): Option<Code> {
    if qr.kind == EMPLOYEE && (qr.employee.None? || qr.employee.value !in t.world.activeEmployees)
    then Some(EMPLOYEE_INACTIVE) else QrProblem(qr, t.now)
  }

  lemma CredentialAgrees(t: Tables, qr: Qr)
    ensures Agrees(CredentialProblem(t, qr), CredentialChecks(t, qr))
  {
    hide Agrees, QrProblem, UsableChecks;
    UsableAgrees(qr, t.now);
    var a := Check(qr.employee.Some? && qr.employee.value in t.world.activeEmployees, EMPLOYEE_INACTIVE);
    OneCheck(a);
    NoChecks();
    var p := if qr.kind == EMPLOYEE && !a.passes then Some(a.code) else None;
    Both(p, if qr.kind == EMPLOYEE then [a] else [], QrProblem(qr, t.now), UsableChecks(qr, t.now));
  }

  // ---- Employees ----

  /** Correction `c` is the latest of meal `m`. */
  ghost predicate LatestCorrection(corrections: seq<Correction>, m: nat, c: nat) {
    c < |corrections| && corrections[c].meal == m && forall d :: c < d < |corrections| ==> corrections[d].meal != m
  }

  /** Meal `m` counts as type `k`: its latest correction says so, or it was never corrected and recorded as `k`. */
  ghost predicate CountsAs(corrections: seq<Correction>, m: nat, recorded: int, k: int) {
    || (exists c: nat :: LatestCorrection(corrections, m, c) && corrections[c].to == k)
    || ((forall c :: 0 <= c < |corrections| ==> corrections[c].meal != m) && recorded == k)
  }

  /** Employee `e` had meal `m`, not voided and counting as type `k`, since the lock's length ago. */
  ghost predicate RecentMeal(t: Tables, m: nat, e: nat, k: int) {
    && m < |t.meals| && m !in t.voids && t.meals[m].serving < |t.servings|
    && var s := t.servings[t.meals[m].serving];
       s.employee == Some(e) && t.now - t.lock < s.at && CountsAs(t.corrections, m, s.mealType, k)
  }

  lemma {:induction false} EffectiveTypeMeans(corrections: seq<Correction>, m: nat, recorded: int, k: int)
    ensures EffectiveType(corrections, m, recorded) == k <==> CountsAs(corrections, m, recorded, k)
  {
    if corrections != [] {
      var n := |corrections| - 1;
      var before := corrections[..n];
      EffectiveTypeMeans(before, m, recorded, k);
      if corrections[n].meal == m {
        assert LatestCorrection(corrections, m, n);
        assert forall c: nat :: LatestCorrection(corrections, m, c) ==> c == n;
      } else {
        forall c: nat ensures LatestCorrection(corrections, m, c) <==> LatestCorrection(before, m, c) {
          if LatestCorrection(before, m, c) {
            forall d | c < d < |corrections| ensures corrections[d].meal != m { if d < n { assert before[d].meal != m; } }
          }
        }
        assert (forall c :: 0 <= c < |corrections| ==> corrections[c].meal != m)
          <==> (forall c :: 0 <= c < n ==> before[c].meal != m);
      }
    }
  }

  lemma BlockedMeans(t: Tables, e: nat, k: int)
    ensures Blocked(t, e, k, t.now - t.lock) <==> exists m: nat :: RecentMeal(t, m, e, k)
  {
    hide CountsAs, EffectiveType;
    forall m: nat | m < |t.meals| ensures Blocks(t, m, e, k, t.now - t.lock) <==> RecentMeal(t, m, e, k) {
      if t.meals[m].serving < |t.servings| {
        EffectiveTypeMeans(t.corrections, m, t.servings[t.meals[m].serving].mealType, k);
      }
    }
    if Blocked(t, e, k, t.now - t.lock) {
      var m :| 0 <= m < |t.meals| && Blocks(t, m, e, k, t.now - t.lock);
      assert RecentMeal(t, m, e, k);
    }
    if m: nat :| RecentMeal(t, m, e, k) { assert Blocks(t, m, e, k, t.now - t.lock); }
  }

  ghost function EmployeeChecks(t: Tables, c: Call, employee: Option<nat>): seq<Check> {
    [Check(c.quantity == 1, EMPLOYEE_QUANTITY_MUST_BE_ONE),
     Check(c.proof.authorization.None?, AUTHORIZATION_NOT_APPLICABLE),
     Check(c.proof.visitor.None?, VISITOR_DETAILS_NOT_APPLICABLE),
     Check(employee.Some? && (employee.value, c.mealType) in t.world.eligible, MEAL_TYPE_NOT_ELIGIBLE),
     Check(employee.Some? && (t.lock > 0 ==> forall m: nat :: !RecentMeal(t, m, employee.value, c.mealType)),
           MEAL_TYPE_ALREADY_RECORDED)]
  }

  function CodeOf(v: Verdict): Option<Code> {
    match v
    case Serve(_, _, _, _) => None
    case Await(_) => None
    case Refuse(code) => Some(code)
    case RefuseAttempt(code) => Some(code)
  }

  lemma EmployeeAgrees(t: Tables, c: Call, q: nat, employee: nat)
    ensures Agrees(CodeOf(DecideEmployee(t, c, q, employee)), EmployeeChecks(t, c, Some(employee)))
  {
    hide Agrees, Blocked, RecentMeal;
    BlockedMeans(t, employee, c.mealType);
    FiveChecks(Check(c.quantity == 1, EMPLOYEE_QUANTITY_MUST_BE_ONE),
               Check(c.proof.authorization.None?, AUTHORIZATION_NOT_APPLICABLE),
               Check(c.proof.visitor.None?, VISITOR_DETAILS_NOT_APPLICABLE),
               Check((employee, c.mealType) in t.world.eligible, MEAL_TYPE_NOT_ELIGIBLE),
               Check(t.lock > 0 ==> forall m: nat :: !RecentMeal(t, m, employee, c.mealType), MEAL_TYPE_ALREADY_RECORDED));
  }

  // ---- Visitors with an allocation ----

  /** The servings QR `q` has had of type `k`. */
  function Had(servings: seq<Serving>, q: nat, k: int): set<nat> {
    set s: nat | s < |servings| && servings[s].qr == q && servings[s].mealType == k
  }

  lemma {:induction false} HadIsServed(servings: seq<Serving>, q: nat, k: int)
    ensures |Had(servings, q, k)| == ServedOf(servings, q, k)
  {
    if servings == [] {
      assert Had(servings, q, k) == {};
    } else {
      var n := |servings| - 1;
      HadIsServed(servings[..n], q, k);
      assert Had(servings, q, k)
          == Had(servings[..n], q, k) + (if servings[n].qr == q && servings[n].mealType == k then {n} else {});
      assert n !in Had(servings[..n], q, k);
    }
  }

  /** Visitor QR `q` may have type `k`, and has had fewer of it than its limit. */
  ghost predicate HasLeft(t: Tables, q: nat, k: int) {
    q in t.allowances && k in t.allowances[q] && |Had(t.servings, q, k)| < t.allowances[q][k].limit
  }

  ghost function AllocationChecks(t: Tables, c: Call, q: nat): seq<Check> {
    [Check(c.quantity == 1, VISITOR_QUANTITY_MUST_BE_ONE),
     Check(c.proof.authorization.None? && c.proof.visitor.None?, MASTER_ALLOCATION_SCOPE_MISMATCH),
     Check(exists k :: HasLeft(t, q, k), QR_EXPIRED),
     Check(q in t.allowances && c.mealType in t.allowances[q], MASTER_MEAL_TYPE_NOT_ALLOWED),
     Check(HasLeft(t, q, c.mealType), MASTER_MEAL_TYPE_USED_UP)]
  }

  lemma LeftMeans(t: Tables, q: nat, k: int)
    requires AllowanceInv(t) && q in t.allocations
    ensures q in t.allowances && (AllowanceProblem(t, q, k).None? <==> HasLeft(t, q, k))
    ensures k in t.allowances[q] && !HasLeft(t, q, k) ==> AllowanceProblem(t, q, k) == Some(MASTER_MEAL_TYPE_USED_UP)
    ensures k !in t.allowances[q] ==> AllowanceProblem(t, q, k) == Some(MASTER_MEAL_TYPE_NOT_ALLOWED)
    ensures k in t.allowances[q] ==>
              (HasLeft(t, q, k) <==> t.allowances[q][k].used < t.allowances[q][k].limit)
  {
    assert AllocationOk(t, q);
    if k in t.allowances[q] {
      assert AllowanceOk(t, q, k);
      HadIsServed(t.servings, q, k);
    }
    hide Had, ServedOf;
  }

  lemma SomeLeft(t: Tables, q: nat)
    requires AllowanceInv(t) && q in t.allocations
    ensures t.allocations[q].exhausted || t.allocations[q].used >= t.allocations[q].limit
            <==> !exists k :: HasLeft(t, q, k)
  {
    hide HasLeft, AllowanceProblem;
    assert AllocationOk(t, q);
    var left := MostRemaining(t.allowances[q]);
    var k :| k in t.allowances[q] && t.allowances[q][k].limit - t.allowances[q][k].used == left;
    assert AllowanceOk(t, q, k);
    LeftMeans(t, q, k);
    forall j | HasLeft(t, q, j) ensures left > 0 {
      HasLeftListed(t, q, j);
      LeftMeans(t, q, j);
    }
  }

  lemma HasLeftListed(t: Tables, q: nat, k: int)
    requires HasLeft(t, q, k)
    ensures q in t.allowances && k in t.allowances[q]
  {
  }

  lemma AllocationAgrees(t: Tables, c: Call, staff: nat, q: nat)
    requires AllowanceInv(t) && q in t.allocations
    ensures Agrees(CodeOf(DecideMaster(t, c, staff, q)), AllocationChecks(t, c, q))
  {
    hide Agrees, HasLeft, AllowanceProblem, AllowanceInv;
    LeftMeans(t, q, c.mealType);
    SomeLeft(t, q);
    FiveChecks(Check(c.quantity == 1, VISITOR_QUANTITY_MUST_BE_ONE),
               Check(c.proof.authorization.None? && c.proof.visitor.None?, MASTER_ALLOCATION_SCOPE_MISMATCH),
               Check(exists k :: HasLeft(t, q, k), QR_EXPIRED),
               Check(q in t.allowances && c.mealType in t.allowances[q], MASTER_MEAL_TYPE_NOT_ALLOWED),
               Check(HasLeft(t, q, c.mealType), MASTER_MEAL_TYPE_USED_UP));
  }

  // ---- Visitors of the older kind ----

  /** An administrator approved exactly this scan. */
  ghost predicate ApprovedFor(t: Tables, c: Call, q: nat) {
    && c.request in t.authorizations
    && var a := t.authorizations[c.request];
       && c.proof.authorization == Some(a.id) && a.qr == q && a.mealType == c.mealType && a.quantity == c.quantity
       && a.waiter == c.staff && a.place == c.place
  }

  ghost function ApprovalChecks(t: Tables, c: Call, q: nat): seq<Check> {
    var there := c.request in t.authorizations;
    [Check(exists r :: r in t.authorizations && Some(t.authorizations[r].id) == c.proof.authorization,
           AUTHORIZATION_NOT_FOUND),
     Check(ApprovedFor(t, c, q), AUTHORIZATION_SCOPE_MISMATCH),
     Check(there && t.authorizations[c.request].admin in t.world.admins, AUTHORIZING_ADMIN_UNAVAILABLE),
     Check(there && !t.authorizations[c.request].revoked, AUTHORIZATION_REVOKED),
     Check(there && t.now < t.authorizations[c.request].expires, AUTHORIZATION_EXPIRED)]
  }

  /** A scan of such a QR has to be a reading, or to show the visitor's details or an approval. */
  ghost function OlderChecks(t: Tables, c: Call, q: nat): seq<Check> {
    [Check(c.reading || c.proof.visitor.Some? || c.proof.authorization.Some?,
           if c.public then QR_EXPIRED else VISITOR_DETAILS_REQUIRED)]
    + if c.proof.authorization.Some? then ApprovalChecks(t, c, q) else []
  }

  /** An approval prepared for the request is the one the scan shows. */
  ghost predicate Prepared(t: Tables, c: Call) {
    c.request in t.authorizations ==> c.proof.authorization == Some(t.authorizations[c.request].id)
  }

  lemma ApprovalAgrees(t: Tables, c: Call, q: nat)
    requires Prepared(t, c) && c.proof.authorization.Some?
    ensures Agrees(AuthorizationProblem(t, c, c.staff, q), ApprovalChecks(t, c, q))
  {
    hide Agrees;
    var there := c.request in t.authorizations;
    FiveChecks(Check(exists r :: r in t.authorizations && Some(t.authorizations[r].id) == c.proof.authorization,
                     AUTHORIZATION_NOT_FOUND),
               Check(ApprovedFor(t, c, q), AUTHORIZATION_SCOPE_MISMATCH),
               Check(there && t.authorizations[c.request].admin in t.world.admins, AUTHORIZING_ADMIN_UNAVAILABLE),
               Check(there && !t.authorizations[c.request].revoked, AUTHORIZATION_REVOKED),
               Check(there && t.now < t.authorizations[c.request].expires, AUTHORIZATION_EXPIRED));
  }

  /** What the receipt of a scan can show. */
  ghost predicate Sound(c: Call) {
    && (c.proof.visitor.Some? ==> c.proof.authorization.None? && c.quantity == 1)
    && (c.reading ==> c.proof == Proof(None, None))
  }

  lemma OlderAgrees(t: Tables, c: Call, q: nat)
    requires Prepared(t, c) && Sound(c) && q !in t.allocations
    ensures Agrees(CodeOf(DecideMaster(t, c, c.staff, q)), OlderChecks(t, c, q))
  {
    hide Agrees, AuthorizationProblem, ApprovalChecks;
    var a := Check(c.reading || c.proof.visitor.Some? || c.proof.authorization.Some?,
                   if c.public then QR_EXPIRED else VISITOR_DETAILS_REQUIRED);
    OneCheck(a);
    NoChecks();
    if c.proof.authorization.Some? {
      ApprovalAgrees(t, c, q);
      Both(None, [a], AuthorizationProblem(t, c, c.staff, q), ApprovalChecks(t, c, q));
    } else {
      Both(if !a.passes then Some(a.code) else None, [a], None, []);
    }
  }

  // ---- The decision ----

  ghost function KindChecks(t: Tables, c: Call, q: nat): seq<Check>
    requires q in t.qrs
  {
    if t.qrs[q].kind == EMPLOYEE then EmployeeChecks(t, c, t.qrs[q].employee)
    else if q in t.allocations then AllocationChecks(t, c, q)
    else OlderChecks(t, c, q)
  }

  /** All checks of a scan, in order. */
  ghost function Checks(t: Tables, c: Call): seq<Check> {
    EntryChecks(t, c)
    + if c.token in t.tokens && t.tokens[c.token] in t.qrs
      then CredentialChecks(t, t.qrs[t.tokens[c.token]]) + KindChecks(t, c, t.tokens[c.token]) else []
  }

  lemma KindAgrees(t: Tables, c: Call, q: nat)
    requires AllowanceInv(t) && Prepared(t, c) && Sound(c) && q in t.qrs
    requires t.qrs[q].kind == EMPLOYEE ==> t.qrs[q].employee.Some?
    ensures Agrees(CodeOf(if t.qrs[q].kind == EMPLOYEE then DecideEmployee(t, c, q, t.qrs[q].employee.value)
                          else DecideMaster(t, c, c.staff, q)), KindChecks(t, c, q))
  {
    hide Agrees, DecideEmployee, DecideMaster, EmployeeChecks, AllocationChecks, OlderChecks, AllowanceInv;
    if t.qrs[q].kind == EMPLOYEE { EmployeeAgrees(t, c, q, t.qrs[q].employee.value); }
    else if q in t.allocations { AllocationAgrees(t, c, c.staff, q); }
    else { OlderAgrees(t, c, q); }
  }

  lemma DecisionAgrees(t: Tables, c: Call)
    requires AllowanceInv(t) && Prepared(t, c) && Sound(c)
    ensures Agrees(CodeOf(Decide(t, c, c.staff)), Checks(t, c))
  {
    hide Agrees, DecideEmployee, DecideMaster, ScannerProblem, QrProblem, Locate, EntryChecks, CredentialChecks, KindChecks,
      AllowanceInv, Prepared, Sound;
    EntryAgrees(t, c);
    NoChecks();
    if EntryProblem(t, c).Some? {
      var rest := if c.token in t.tokens && t.tokens[c.token] in t.qrs
                  then CredentialChecks(t, t.qrs[t.tokens[c.token]]) + KindChecks(t, c, t.tokens[c.token]) else [];
      Both(EntryProblem(t, c), EntryChecks(t, c), None, rest);
    } else {
      var q := t.tokens[c.token];
      var p := CredentialProblem(t, t.qrs[q]);
      CredentialAgrees(t, t.qrs[q]);
      if p.None? { KindAgrees(t, c, q); }
      var v := if p.Some? then None
               else CodeOf(if t.qrs[q].kind == EMPLOYEE then DecideEmployee(t, c, q, t.qrs[q].employee.value)
                           else DecideMaster(t, c, c.staff, q));
      Both(p, CredentialChecks(t, t.qrs[q]), v, KindChecks(t, c, q));
      Both(None, EntryChecks(t, c), if p.Some? then p else v, CredentialChecks(t, t.qrs[q]) + KindChecks(t, c, q));
    }
  }

  /** A reading of a visitor QR of the older kind only asks for the visitor's details. */
  ghost predicate OnlyAsks(t: Tables, c: Call) {
    && c.reading && c.token in t.tokens && t.tokens[c.token] in t.qrs
    && t.qrs[t.tokens[c.token]].kind == MASTER && t.tokens[c.token] !in t.allocations
  }

  lemma DecisionAsks(t: Tables, c: Call)
    requires CodeOf(Decide(t, c, c.staff)).None?
    ensures Decide(t, c, c.staff).Await? <==> OnlyAsks(t, c)
  {
    hide ScannerProblem, QrProblem, Locate, AllowanceProblem, AuthorizationProblem, EmployeeProblem;
  }

  /** Attempt `a` is open, its request pending, and both carry the same fingerprint. */
  ghost predicate Undecided(t: Tables, a: nat) {
    && a in t.calls && a < |t.attempts| && t.attempts[a].outcome == RECEIVED
    && t.calls[a].request in t.requests && t.requests[t.calls[a].request].status == PENDING
    && t.requests[t.calls[a].request].hash == t.calls[a].fingerprint
  }

  lemma UndecidedIsResolved(t: Tables, a: nat)
    requires Inv(t) && Undecided(t, a)
    ensures var c := t.calls[a];
            Sound(c) && Open(t, a) && Process(t, a, Staff(c.staff)) == Resolve(t, a, c, c.staff)
  {
    OpenFacts(t, a);
    hide Inv, Resolve, Replay, Closed, ServingOf;
  }

  lemma ResolvedByDecision(t: Tables, a: nat, c: Call)
    requires a < |t.attempts| && c.request in t.requests
    ensures var reply, v := Resolve(t, a, c, c.staff).1, Decide(t, c, c.staff);
            if !Prepared(t, c) then reply == No(AUTHORIZATION_SCOPE_MISMATCH)
            else if CodeOf(v).Some? then reply == No(CodeOf(v).value)
            else if v.Await? then reply == NeedsDetails
            else ApprovesAnew(reply)
  {
    hide Decide, Counted, Recorded, Dismissed, Closed, Bind;
  }

  /** Over any run, an undecided scan by the account it was received from: one that does not show the approval
      prepared for its request is refused as out of scope; else the first check that fails gives the answer; and if
      none does, it is approved, or asked for details if it only reads an older visitor QR. */
  lemma AnsweredByTheFirstFailedCheck(start: Start, es: seq<Event>, a: nat)
    requires Undecided(After(start, es), a)
    ensures var t := After(start, es);
            var c := t.calls[a];
            var reply := Process(t, a, Staff(c.staff)).1;
            if !Prepared(t, c) then reply == No(AUTHORIZATION_SCOPE_MISMATCH)
            else
              || (exists code :: FailsWith(Checks(t, c), code) && reply == No(code))
              || (AllPass(Checks(t, c)) && if OnlyAsks(t, c) then reply == NeedsDetails else ApprovesAnew(reply))
  {
    hide Run, Process, Resolve, Inv, Undecided, Prepared, Decide, Checks, OnlyAsks;
    AfterInv(start, es);
    var t := After(start, es);
    UndecidedIsResolved(t, a);
    var c := t.calls[a];
    ResolvedByDecision(t, a, c);
    if Prepared(t, c) {
      InvAllowances(t);
      DecisionAgrees(t, c);
      if CodeOf(Decide(t, c, c.staff)).None? { DecisionAsks(t, c); }
    }
  }

  lemma InvAllowances(t: Tables)
    requires Inv(t)
    ensures AllowanceInv(t)
  {
  }

  // ---- When a scan is approved ----

  /** Nothing on the columns of the tables speaks against serving. */
  ghost predicate Servable(t: Tables, c: Call) {
    && StandsAt(t.world, c.code, c.place)
    && t.world.devices[c.place.scanner.value].active && t.world.devices[c.place.scanner.value].locationActive
    && c.mealType in t.world.activeMealTypes
    && c.token in t.tokens && t.tokens[c.token] in t.qrs
    && var q, qr := t.tokens[c.token], t.qrs[t.tokens[c.token]];
       && !qr.revoked && (qr.expires.Some? ==> t.now < qr.expires.value)
       && (match qr.kind
           case EMPLOYEE =>
             && qr.employee.Some? && qr.employee.value in t.world.activeEmployees
             && (qr.employee.value, c.mealType) in t.world.eligible
             && c.quantity == 1 && c.proof == Proof(None, None)
             && (t.lock > 0 ==> forall m: nat :: !RecentMeal(t, m, qr.employee.value, c.mealType))
           case MASTER =>
             if q in t.allocations then c.quantity == 1 && c.proof == Proof(None, None) && HasLeft(t, q, c.mealType)
             else
               && !c.reading
               && (c.proof.visitor.Some?
                   || (&& ApprovedFor(t, c, q)
                       && var a := t.authorizations[c.request];
                          a.admin in t.world.admins && !a.revoked && t.now < a.expires)))
  }

  lemma AllPassBoth(a: seq<Check>, b: seq<Check>)
    ensures AllPass(a + b) <==> AllPass(a) && AllPass(b)
  {
    assert forall i :: 0 <= i < |b| ==> (a + b)[|a| + i] == b[i];
    assert forall i :: 0 <= i < |a| ==> (a + b)[i] == a[i];
  }

  lemma EntryPasses(t: Tables, c: Call)
    ensures AllPass(EntryChecks(t, c))
            <==> && StandsAt(t.world, c.code, c.place)
                 && t.world.devices[c.place.scanner.value].active && t.world.devices[c.place.scanner.value].locationActive
                 && c.mealType in t.world.activeMealTypes
                 && c.token in t.tokens && t.tokens[c.token] in t.qrs
  {
    AllPassBoth(ScannerChecks(t.world, c.code),
                [Check(StandsAt(t.world, c.code, c.place), SCANNER_LOCATION_CHANGED),
                 Check(c.mealType in t.world.activeMealTypes, MEAL_TYPE_UNAVAILABLE),
                 Check(c.token in t.tokens && t.tokens[c.token] in t.qrs, UNKNOWN_QR)]);
    ScannerPasses(t.world, c.code);
    var a, b, d := Check(StandsAt(t.world, c.code, c.place), SCANNER_LOCATION_CHANGED),
                   Check(c.mealType in t.world.activeMealTypes, MEAL_TYPE_UNAVAILABLE),
                   Check(c.token in t.tokens && t.tokens[c.token] in t.qrs, UNKNOWN_QR);
    ThreePass(a, b, d);
    hide AllPass, ScannerChecks;
  }

  lemma ThreePass(a: Check, b: Check, c: Check)
    ensures AllPass([a, b, c]) <==> a.passes && b.passes && c.passes
  {
    var all := [a, b, c];
    assert all[0] == a && all[1] == b && all[2] == c;
  }

  lemma FivePass(a: Check, b: Check, c: Check, d: Check, e: Check)
    ensures AllPass([a, b, c, d, e]) <==> a.passes && b.passes && c.passes && d.passes && e.passes
  {
    var all := [a, b, c, d, e];
    assert all[0] == a && all[1] == b && all[2] == c && all[3] == d && all[4] == e;
  }

  lemma OnePasses(a: Check)
    ensures AllPass([a]) <==> a.passes
  {
    assert [a][0] == a;
  }

  lemma ScannerPasses(w: World, code: string)
    ensures AllPass(ScannerChecks(w, code))
            <==> code in w.scanners && w.scanners[code] in w.devices
                 && w.devices[w.scanners[code]].active && w.devices[w.scanners[code]].locationActive
  {
    var known := code in w.scanners && w.scanners[code] in w.devices;
    ThreePass(Check(known, UNKNOWN_SCANNER),
              Check(known && w.devices[w.scanners[code]].active, SCANNER_INACTIVE),
              Check(known && w.devices[w.scanners[code]].locationActive, LOCATION_INACTIVE));
    hide AllPass;
  }

  lemma UsablePasses(qr: Qr, now: int)
    ensures AllPass(UsableChecks(qr, now)) <==> !qr.revoked && (qr.expires.Some? ==> now < qr.expires.value)
  {
    var a, b := Check(!qr.revoked, QR_REVOKED), Check(qr.expires.None? || now < qr.expires.value, QR_EXPIRED);
    AllPassBoth([a], [b]);
    OnePasses(a);
    OnePasses(b);
    hide AllPass;
  }

  lemma CredentialPasses(t: Tables, qr: Qr)
    ensures AllPass(CredentialChecks(t, qr))
            <==> && (qr.kind == EMPLOYEE ==> qr.employee.Some? && qr.employee.value in t.world.activeEmployees)
                 && !qr.revoked && (qr.expires.Some? ==> t.now < qr.expires.value)
  {
    var a := Check(qr.employee.Some? && qr.employee.value in t.world.activeEmployees, EMPLOYEE_INACTIVE);
    AllPassBoth(if qr.kind == EMPLOYEE then [a] else [], UsableChecks(qr, t.now));
    OnePasses(a);
    UsablePasses(qr, t.now);
    assert AllPass([]);
    hide AllPass, UsableChecks;
  }

  lemma EmployeePasses(t: Tables, c: Call, employee: Option<nat>)
    ensures AllPass(EmployeeChecks(t, c, employee))
            <==> && c.quantity == 1 && c.proof == Proof(None, None)
                 && employee.Some? && (employee.value, c.mealType) in t.world.eligible
                 && (t.lock > 0 ==> forall m: nat :: !RecentMeal(t, m, employee.value, c.mealType))
  {
    hide RecentMeal;
    FivePass(Check(c.quantity == 1, EMPLOYEE_QUANTITY_MUST_BE_ONE),
             Check(c.proof.authorization.None?, AUTHORIZATION_NOT_APPLICABLE),
             Check(c.proof.visitor.None?, VISITOR_DETAILS_NOT_APPLICABLE),
             Check(employee.Some? && (employee.value, c.mealType) in t.world.eligible, MEAL_TYPE_NOT_ELIGIBLE),
             Check(employee.Some? && (t.lock > 0 ==> forall m: nat :: !RecentMeal(t, m, employee.value, c.mealType)),
                   MEAL_TYPE_ALREADY_RECORDED));
    hide AllPass;
  }

  lemma AllocationPasses(t: Tables, c: Call, q: nat)
    ensures AllPass(AllocationChecks(t, c, q))
            <==> c.quantity == 1 && c.proof == Proof(None, None) && HasLeft(t, q, c.mealType)
  {
    FivePass(Check(c.quantity == 1, VISITOR_QUANTITY_MUST_BE_ONE),
             Check(c.proof.authorization.None? && c.proof.visitor.None?, MASTER_ALLOCATION_SCOPE_MISMATCH),
             Check(exists k :: HasLeft(t, q, k), QR_EXPIRED),
             Check(q in t.allowances && c.mealType in t.allowances[q], MASTER_MEAL_TYPE_NOT_ALLOWED),
             Check(HasLeft(t, q, c.mealType), MASTER_MEAL_TYPE_USED_UP));
    if HasLeft(t, q, c.mealType) { HasLeftListed(t, q, c.mealType); }
    hide AllPass, HasLeft;
  }

  lemma OlderPasses(t: Tables, c: Call, q: nat)
    requires Sound(c)
    ensures AllPass(OlderChecks(t, c, q)) && !c.reading
            <==> !c.reading
                 && (c.proof.visitor.Some?
                     || (&& ApprovedFor(t, c, q)
                         && var a := t.authorizations[c.request];
                            a.admin in t.world.admins && !a.revoked && t.now < a.expires))
  {
    var a := Check(c.reading || c.proof.visitor.Some? || c.proof.authorization.Some?,
                   if c.public then QR_EXPIRED else VISITOR_DETAILS_REQUIRED);
    AllPassBoth([a], if c.proof.authorization.Some? then ApprovalChecks(t, c, q) else []);
    OnePasses(a);
    assert AllPass([]);
    ApprovalPasses(t, c, q);
    hide AllPass, ApprovalChecks;
  }

  lemma ApprovalPasses(t: Tables, c: Call, q: nat)
    ensures AllPass(ApprovalChecks(t, c, q))
            <==> && ApprovedFor(t, c, q)
                 && var a := t.authorizations[c.request];
                    a.admin in t.world.admins && !a.revoked && t.now < a.expires
  {
    var there := c.request in t.authorizations;
    FivePass(Check(exists r :: r in t.authorizations && Some(t.authorizations[r].id) == c.proof.authorization,
                   AUTHORIZATION_NOT_FOUND),
             Check(ApprovedFor(t, c, q), AUTHORIZATION_SCOPE_MISMATCH),
             Check(there && t.authorizations[c.request].admin in t.world.admins, AUTHORIZING_ADMIN_UNAVAILABLE),
             Check(there && !t.authorizations[c.request].revoked, AUTHORIZATION_REVOKED),
             Check(there && t.now < t.authorizations[c.request].expires, AUTHORIZATION_EXPIRED));
    hide AllPass;
  }

  lemma PassingIsServable(t: Tables, c: Call)
    requires Sound(c)
    ensures AllPass(Checks(t, c)) && !OnlyAsks(t, c) <==> Servable(t, c)
  {
    hide AllPass, EntryChecks, CredentialChecks, EmployeeChecks, AllocationChecks, OlderChecks, RecentMeal, HasLeft,
      ApprovedFor, StandsAt;
    EntryPasses(t, c);
    if c.token in t.tokens && t.tokens[c.token] in t.qrs {
      var q, qr := t.tokens[c.token], t.qrs[t.tokens[c.token]];
      AllPassBoth(EntryChecks(t, c), CredentialChecks(t, qr) + KindChecks(t, c, q));
      AllPassBoth(CredentialChecks(t, qr), KindChecks(t, c, q));
      CredentialPasses(t, qr);
      EmployeePasses(t, c, qr.employee);
      AllocationPasses(t, c, q);
      OlderPasses(t, c, q);
    } else {
      AllPassBoth(EntryChecks(t, c), []);
    }
  }

  /** Over any run: a scan is newly approved if and only if its attempt is open, its request pending with the same
      fingerprint, the account is the one it was received from, an approval prepared for it is the one it shows, and
      nothing speaks against serving. */
  lemma ApprovedExactlyWhen(start: Start, es: seq<Event>, a: nat, actor: ActorCheck)
    ensures var t := After(start, es);
            ApprovesAnew(Process(t, a, actor).1)
            <==> && Undecided(t, a) && actor == Staff(t.calls[a].staff)
                 && Prepared(t, t.calls[a]) && Servable(t, t.calls[a])
  {
    hide Run, Process, Resolve, Inv, Prepared, Checks, OnlyAsks, Servable, AllPass, FailsWith;
    AfterInv(start, es);
    var t := After(start, es);
    if Undecided(t, a) && actor == Staff(t.calls[a].staff) {
      AnsweredByTheFirstFailedCheck(start, es, a);
      UndecidedIsResolved(t, a);
      PassingIsServable(t, t.calls[a]);
      if code :| FailsWith(Checks(t, t.calls[a]), code) { NotBoth(Checks(t, t.calls[a]), code); }
    } else {
      OthersServeNothing(t, a, actor);
    }
  }

  lemma NotBoth(checks: seq<Check>, code: Code)
    requires FailsWith(checks, code)
    ensures !AllPass(checks)
  {
  }

  lemma OthersServeNothing(t: Tables, a: nat, actor: ActorCheck)
    requires !(Undecided(t, a) && actor == Staff(t.calls[a].staff))
    ensures !ApprovesAnew(Process(t, a, actor).1)
  {
    hide Resolve, Replay, Closed, ProofDiffers;
    if a in t.calls && a < |t.attempts| && t.calls[a].request in t.requests { ReplayServesNothing(t, a, t.calls[a]); }
  }

  // ---- Pre-approvals ----

  const MINUTES_10 := 600_000_000
  const HOUR_1 := 3_600_000_000

  /** When an approval asked for now would expire. */
  ghost predicate ExpiresAt(t: Tables, ask: Approval, expires: int) {
    if ask.expires.Some? then expires == ask.expires.value else expires == t.now + MINUTES_10
  }

  /** The request was reserved for exactly the scan that is to be approved. */
  ghost predicate ReservedFor(w: World, row: Request, ask: Approval) {
    && row.hash.token == ask.token && row.hash.staff == ask.waiter && StandsAt(w, ask.code, row.hash.place)
    && row.hash.mealType == ask.mealType && row.hash.quantity == ask.quantity
  }

  /** All checks of a pre-approval, in order. */
  ghost function ApprovalEntryChecks(t: Tables, admin: ActorCheck, ask: Approval): seq<Check> {
    (if admin.Denied? then [Check(false, admin.code)] else [])
    + ([Check(ask.waiter in t.world.waiters, WAITER_UNAVAILABLE)]
       + (ScannerChecks(t.world, ask.code)
          + ([Check(ask.mealType in t.world.activeMealTypes, MEAL_TYPE_UNAVAILABLE)]
             + [Check(ask.token in t.tokens && t.tokens[ask.token] in t.qrs, UNKNOWN_QR)])))
  }

  ghost function ApprovalRequestChecks(t: Tables, ask: Approval, qr: Qr): seq<Check> {
    var r := ask.request;
    [Check(qr.kind == MASTER, MASTER_QR_REQUIRED),
     Check(forall v :: ExpiresAt(t, ask, v) ==> t.now < v <= t.now + HOUR_1, INVALID_AUTHORIZATION_EXPIRY),
     Check(r in t.requests ==> ReservedFor(t.world, t.requests[r], ask), IDEMPOTENCY_KEY_REUSED),
     Check(r in t.requests ==> t.requests[r].status == PENDING, REQUEST_ALREADY_FINALIZED),
     Check(r !in t.authorizations, AUTHORIZATION_ALREADY_EXISTS)]
  }

  ghost function AuthorizeChecks(t: Tables, admin: ActorCheck, ask: Approval): seq<Check> {
    ApprovalEntryChecks(t, admin, ask)
    + if ask.token in t.tokens && t.tokens[ask.token] in t.qrs
      then UsableChecks(t.qrs[t.tokens[ask.token]], t.now) + ApprovalRequestChecks(t, ask, t.qrs[t.tokens[ask.token]]) else []
  }

  function AuthorizeEntryProblem(t: Tables, admin: ActorCheck, ask: Approval): Option<Code> {
    if admin.Denied? then Some(admin.code)
    else if ask.waiter !in t.world.waiters then Some(WAITER_UNAVAILABLE)
    else if ScannerProblem(t.world, ask.code).Some? then ScannerProblem(t.world, ask.code)
    else if ask.mealType !in t.world.activeMealTypes then Some(MEAL_TYPE_UNAVAILABLE)
    else if ask.token !in t.tokens || t.tokens[ask.token] !in t.qrs then Some(UNKNOWN_QR)
    else None
  }

  lemma ApprovalEntryAgrees(t: Tables, admin: ActorCheck, ask: Approval)
    ensures Agrees(AuthorizeEntryProblem(t, admin, ask), ApprovalEntryChecks(t, admin, ask))
  {
    hide Agrees, ScannerProblem, ScannerChecks;
    var a, b, d := Check(ask.waiter in t.world.waiters, WAITER_UNAVAILABLE),
                   Check(ask.mealType in t.world.activeMealTypes, MEAL_TYPE_UNAVAILABLE),
                   Check(ask.token in t.tokens && t.tokens[ask.token] in t.qrs, UNKNOWN_QR);
    var p := ScannerProblem(t.world, ask.code);
    OneCheck(a);
    OneCheck(b);
    OneCheck(d);
    ScannerAgrees(t.world, ask.code);
    NoChecks();
    var pa := if !a.passes then Some(a.code) else None;
    var pb := if !b.passes then Some(b.code) else None;
    var pd := if !d.passes then Some(d.code) else None;
    Both(pb, [b], pd, [d]);
    var p3 := if pb.Some? then pb else pd;
    Both(p, ScannerChecks(t.world, ask.code), p3, [b] + [d]);
    var p2 := if p.Some? then p else p3;
    Both(pa, [a], p2, ScannerChecks(t.world, ask.code) + ([b] + [d]));
    var p1 := if pa.Some? then pa else p2;
    var rest := [a] + (ScannerChecks(t.world, ask.code) + ([b] + [d]));
    if admin.Denied? {
      OneCheck(Check(false, admin.code));
      Both(Some(admin.code), [Check(false, admin.code)], p1, rest);
    } else {
      Both(None, [], p1, rest);
    }
  }

  lemma ReservedForMeans(t: Tables, ask: Approval)
    requires ScannerProblem(t.world, ask.code).None?
    ensures var hash := Fingerprint(ask.token, ask.waiter, Locate(t.world, Some(ask.code)), ask.mealType, ask.quantity);
            && (Reserved(t.requests, ask.request, hash)[ask.request].hash == hash
                <==> (ask.request in t.requests ==> ReservedFor(t.world, t.requests[ask.request], ask)))
            && (!Final(Reserved(t.requests, ask.request, hash)[ask.request])
                <==> (ask.request in t.requests ==> t.requests[ask.request].status == PENDING))
  {
    KnownScanner(t.world, ask.code);
    if ask.request in t.requests { StandingIsLocated(t.world, ask.code, t.requests[ask.request].hash.place); }
    hide Locate, StandsAt, ScannerProblem;
  }

  function AuthorizeRequestProblem(t: Tables, ask: Approval, qr: Qr): Option<Code> {
    var expires := if ask.expires.Some? then ask.expires.value else t.now + TEN_MINUTES;
    var hash := Fingerprint(ask.token, ask.waiter, Locate(t.world, Some(ask.code)), ask.mealType, ask.quantity);
    var row := Reserved(t.requests, ask.request, hash)[ask.request];
    if qr.kind != MASTER then Some(MASTER_QR_REQUIRED)
    else if !(t.now < expires <= t.now + ONE_HOUR) then Some(INVALID_AUTHORIZATION_EXPIRY)
    else if row.hash != hash then Some(IDEMPOTENCY_KEY_REUSED)
    else if Final(row) then Some(REQUEST_ALREADY_FINALIZED)
    else if ask.request in t.authorizations then Some(AUTHORIZATION_ALREADY_EXISTS)
    else None
  }

  lemma ApprovalRequestAgrees(t: Tables, ask: Approval, qr: Qr)
    requires ScannerProblem(t.world, ask.code).None?
    ensures Agrees(AuthorizeRequestProblem(t, ask, qr), ApprovalRequestChecks(t, ask, qr))
  {
    hide Agrees, Locate, ScannerProblem, ReservedFor, Reserved;
    ReservedForMeans(t, ask);
    var r, expires := ask.request, if ask.expires.Some? then ask.expires.value else t.now + TEN_MINUTES;
    assert ExpiresAt(t, ask, expires) && forall v :: ExpiresAt(t, ask, v) ==> v == expires;
    FiveChecks(Check(qr.kind == MASTER, MASTER_QR_REQUIRED),
               Check(forall v :: ExpiresAt(t, ask, v) ==> t.now < v <= t.now + HOUR_1, INVALID_AUTHORIZATION_EXPIRY),
               Check(r in t.requests ==> ReservedFor(t.world, t.requests[r], ask), IDEMPOTENCY_KEY_REUSED),
               Check(r in t.requests ==> t.requests[r].status == PENDING, REQUEST_ALREADY_FINALIZED),
               Check(r !in t.authorizations, AUTHORIZATION_ALREADY_EXISTS));
  }

  lemma AuthorizeInParts(t: Tables, admin: ActorCheck, ask: Approval, id: int)
    ensures var p, error := AuthorizeEntryProblem(t, admin, ask), Authorize(t, admin, ask, id).1;
            if p.Some? then error == p
            else
              && ask.token in t.tokens && t.tokens[ask.token] in t.qrs && ScannerProblem(t.world, ask.code).None?
              && var qr := t.qrs[t.tokens[ask.token]];
                 error == if QrProblem(qr, t.now).Some? then QrProblem(qr, t.now) else AuthorizeRequestProblem(t, ask, qr)
  {
    hide ScannerProblem, QrProblem, Locate, Reserved;
  }

  /** The first check that fails gives the answer, and the approval is made if none does. */
  lemma AuthorizedByTheChecks(t: Tables, admin: ActorCheck, ask: Approval, id: int)
    ensures var error := Authorize(t, admin, ask, id).1;
            if error.Some? then FailsWith(AuthorizeChecks(t, admin, ask), error.value)
            else AllPass(AuthorizeChecks(t, admin, ask))
  {
    hide Agrees, Authorize, AuthorizeEntryProblem, AuthorizeRequestProblem, ApprovalEntryChecks, ApprovalRequestChecks,
      UsableChecks, QrProblem, ScannerProblem;
    AuthorizeInParts(t, admin, ask, id);
    ApprovalEntryAgrees(t, admin, ask);
    NoChecks();
    var p := AuthorizeEntryProblem(t, admin, ask);
    if ask.token in t.tokens && t.tokens[ask.token] in t.qrs {
      var qr := t.qrs[t.tokens[ask.token]];
      var v := if p.None? then AuthorizeRequestProblem(t, ask, qr) else None;
      UsableAgrees(qr, t.now);
      if p.None? {
        ApprovalRequestAgrees(t, ask, qr);
        Both(QrProblem(qr, t.now), UsableChecks(qr, t.now), v, ApprovalRequestChecks(t, ask, qr));
      }
      Both(p, ApprovalEntryChecks(t, admin, ask), if QrProblem(qr, t.now).Some? then QrProblem(qr, t.now) else v,
           UsableChecks(qr, t.now) + ApprovalRequestChecks(t, ask, qr));
    } else {
      Both(p, ApprovalEntryChecks(t, admin, ask), None, []);
    }
    AgreesMeans(Authorize(t, admin, ask, id).1, AuthorizeChecks(t, admin, ask));
  }

  lemma AgreesMeans(p: Option<Code>, checks: seq<Check>)
    requires Agrees(p, checks)
    ensures if p.Some? then FailsWith(checks, p.value) else AllPass(checks)
  {
  }

  /** A refused approval leaves no trace; one that is made adds its row, and reserves the request if it was not there.
      */
  lemma WhatAnApprovalStores(t: Tables, admin: ActorCheck, ask: Approval, id: int)
    ensures var (u, error) := Authorize(t, admin, ask, id);
            if error.Some? then u == t
            else
              && admin.Staff?
              && u == t.(requests := u.requests, authorizations := u.authorizations)
              && ask.request in u.requests && ReservedFor(t.world, u.requests[ask.request], ask)
              && u.requests == (if ask.request in t.requests then t.requests
                                else t.requests[ask.request := Request(u.requests[ask.request].hash, PENDING, None, None)])
              && ask.request in u.authorizations
              && u.authorizations == t.authorizations[ask.request := u.authorizations[ask.request]]
              && var a := u.authorizations[ask.request];
                 && a.id == id && ask.token in t.tokens && a.qr == t.tokens[ask.token] && a.mealType == ask.mealType
                 && a.quantity == ask.quantity && a.waiter == ask.waiter && StandsAt(t.world, ask.code, a.place)
                 && a.admin == admin.id && ExpiresAt(t, ask, a.expires) && !a.revoked
  {
    hide QrProblem;
    if Authorize(t, admin, ask, id).1.None? {
      KnownScanner(t.world, ask.code);
      StandingIsLocated(t.world, ask.code, Locate(t.world, Some(ask.code)));
    }
    hide ScannerProblem, Locate, StandsAt;
  }
}
