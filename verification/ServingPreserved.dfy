/** Every transaction keeps the invariant of the serving tables.

    Each transaction is first reduced to what it can do at all: receiving logs one attempt and may reserve its request
    (`Logged`), processing closes an attempt and may dismiss its request or record a serving for it (`OnlyCloses`,
    `Dismisses`, `Records`), and everything else leaves attempts, servings and meals alone (`Grows`).  Each part of the
    invariant is then kept by each of these.
 */
module ServingPreserved {
  import opened Options
  import opened ServingTables
  import opened ServingProtocol
  import opened ServingInvariant

  // ---- Appending ----

  lemma {:induction false} MealsOfAppend(meals: seq<Meal>, more: seq<Meal>, s: nat)
    requires forall i :: 0 <= i < |more| ==> more[i].serving != s
    ensures MealsOf(meals + more, s) == MealsOf(meals, s)
    decreases |more|
  {
    if more == [] {
      assert meals + more == meals;
    } else {
      var k := |more| - 1;
      assert (meals + more)[..|meals + more| - 1] == meals + more[..k];
      MealsOfAppend(meals, more[..k], s);
    }
  }

  lemma {:induction false} MealsOfNone(meals: seq<Meal>, s: nat)
    requires forall i :: 0 <= i < |meals| ==> meals[i].serving != s
    ensures MealsOf(meals, s) == []
  {
    MealsOfAppend([], meals, s);
    assert [] + meals == meals;
  }

  /** A block of meals appended for a new serving is exactly what is found for it. */
  lemma {:induction false} MealsOfNew(meals: seq<Meal>, more: seq<Meal>, s: nat)
    requires forall i :: 0 <= i < |meals| ==> meals[i].serving != s
    requires forall i :: 0 <= i < |more| ==> more[i].serving == s
    ensures MealsOf(meals + more, s) == FreshIds(|meals|, |more|)
    decreases |more|
  {
    if more == [] {
      assert meals + more == meals;
      MealsOfNone(meals, s);
    } else {
      var k := |more| - 1;
      assert (meals + more)[..|meals + more| - 1] == meals + more[..k];
      MealsOfNew(meals, more[..k], s);
      assert FreshIds(|meals|, k) + [|meals| + k] == FreshIds(|meals|, |more|);
    }
  }

  lemma ServedOfAppend(servings: seq<Serving>, v: Serving, q: nat, k: int)
    ensures ServedOf(servings + [v], q, k) == ServedOf(servings, q, k) + if v.qr == q && v.mealType == k then 1 else 0
  {
    assert (servings + [v])[..|servings|] == servings;
  }

  lemma {:induction false} NeverServed(servings: seq<Serving>, q: nat, k: int)
    requires forall s :: 0 <= s < |servings| ==> servings[s].qr != q
    ensures ServedOf(servings, q, k) == 0
  {
    if servings != [] { NeverServed(servings[..|servings| - 1], q, k); }
  }

  lemma {:induction false} NeverCorrected(corrections: seq<Correction>, m: nat, recorded: int)
    requires forall c :: 0 <= c < |corrections| ==> corrections[c].meal != m
    ensures EffectiveType(corrections, m, recorded) == recorded
  {
    if corrections != [] { NeverCorrected(corrections[..|corrections| - 1], m, recorded); }
  }

  /** The earliest carrier of a hash stays the earliest while rows are appended and their outcomes change. */
  lemma FirstKept(attempts: seq<Attempt>, later: seq<Attempt>, r: Uuid, h: Fingerprint)
    requires |attempts| <= |later|
    requires forall i :: 0 <= i < |attempts| ==>
               later[i].request == attempts[i].request && later[i].hash == attempts[i].hash
    requires First(attempts, r, h) < |attempts|
    ensures First(later, r, h) == First(attempts, r, h)
  {
    var i, j := First(attempts, r, h), First(later, r, h);
    assert later[i].request == Some(r) && later[i].hash == Some(h);
    if j < i { assert false; }
  }

  // ---- Receiving ----

  /** A new attempt row that is not successful, and possibly a new pending request it is the first to name. */
  ghost predicate Logged(t: Tables, x: Attempt, u: Tables) {
    && u == t.(requests := u.requests, attempts := t.attempts + [x], calls := u.calls)
    && x.outcome != SUCCESS
    && (u.requests == t.requests
        || (&& x.request.Some? && x.request.value !in t.requests
            && x.hash.Some? && x.hash.value.place == x.place
            && u.requests == t.requests[x.request.value := Request(x.hash.value, PENDING, None, None)]))
    && (x.request.Some? ==> x.request.value in u.requests)
    && (x.hash.Some? ==> x.staff == Some(x.hash.value.staff))
    && (x.request.Some? && !Final(u.requests[x.request.value]) ==> x.hash.Some? && x.hash.value.place == x.place)
  }

  lemma LoggedKeepsOutcomes(t: Tables, x: Attempt, u: Tables)
    requires CallsInv(t) && OutcomeInv(t) && AttemptInv(t) && Logged(t, x, u)
    ensures OutcomeInv(u) && AttemptInv(u)
  {
    forall s | 0 <= s < |u.servings| ensures ServingOk(u, s) { assert ServingOk(t, s); }
    forall r | r in u.requests ensures RequestOk(u, r) {
      if r in t.requests {
        assert RequestOk(t, r);
      } else {
        forall s | 0 <= s < |t.servings| ensures t.servings[s].request != r { assert ServingOk(t, s); }
      }
    }
    forall a | 0 <= a < |u.attempts| ensures AttemptOk(u, a) {
      if a < |t.attempts| { assert AttemptOk(t, a); }
    }
    forall s | 0 <= s < |u.servings| ensures Produced(u, s) {
      assert Produced(t, s);
      var a: nat :| Succeeded(t, a, s);
      assert Succeeded(u, a, s);
    }
    forall a: nat, a': nat, s: nat | Succeeded(u, a, s) && Succeeded(u, a', s) ensures a == a' {
      assert Succeeded(t, a, s) && Succeeded(t, a', s);
    }
  }

  lemma LoggedKeepsProofs(t: Tables, x: Attempt, u: Tables)
    requires CallsInv(t) && ProofInv(t) && Logged(t, x, u)
    ensures ProofInv(u)
  {
    forall a | 0 <= a < |u.attempts| ensures PlaceKept(u, a) {
      if a < |t.attempts| { assert PlaceKept(t, a); }
    }
    forall r | r in u.requests ensures Provable(u, r) {
      if r in t.requests {
        assert Provable(t, r);
        if Final(t.requests[r]) { FirstKept(t.attempts, u.attempts, r, t.requests[r].hash); }
      }
    }
  }

  lemma LoggedKeepsRest(t: Tables, x: Attempt, u: Tables)
    requires MealsInv(t) && AllowanceInv(t) && LockInv(t) && ApprovalInv(t) && Logged(t, x, u)
    ensures MealsInv(u) && AllowanceInv(u) && LockInv(u) && ApprovalInv(u)
  {
    forall q | q in u.allocations ensures AllocationOk(u, q) {
      assert AllocationOk(t, q);
      forall k | k in u.allowances[q] ensures AllowanceOk(u, q, k) { assert AllowanceOk(t, q, k); }
    }
    forall s: nat, s': nat | Recurs(u, s, s') && Untouched(u, s)
      ensures u.servings[s'].at - u.servings[s].at >= u.lock
    {
      assert Recurs(t, s, s') && Untouched(t, s);
    }
  }

  /** What the call table may gain with attempt `a`. */
  ghost predicate CallsGrow(t: Tables, u: Tables, a: nat) {
    || u.calls == t.calls
    || (a in u.calls && Remembers(u, a) && u.calls == t.calls[a := u.calls[a]])
  }

  lemma LoggedKeepsInv(t: Tables, x: Attempt, u: Tables)
    requires Inv(t) && Logged(t, x, u) && CallsGrow(t, u, |t.attempts|)
    ensures Inv(u)
  {
    LoggedKeepsOutcomes(t, x, u);
    LoggedKeepsProofs(t, x, u);
    LoggedKeepsRest(t, x, u);
    LoggedKeepsCalls(t, x, u);
    hide CallsInv, OutcomeInv, MealsInv, ProofInv, AttemptInv, AllowanceInv, LockInv, ApprovalInv, CallsGrow;
  }

  lemma LoggedKeepsCalls(t: Tables, x: Attempt, u: Tables)
    requires CallsInv(t) && Logged(t, x, u) && CallsGrow(t, u, |t.attempts|)
    ensures CallsInv(u)
  {
    forall a | a in u.calls ensures Remembers(u, a) {
      if a in t.calls { assert Remembers(t, a); }
    }
  }

  /** What an accepted scan satisfies. */
  lemma Accepted(actor: ActorCheck, scan: Scan, reading: bool)
    requires Complaint(actor, scan, reading).None?
    ensures actor.Staff? && scan.request.Some? && scan.token.Some? && scan.code.Some?
    ensures 1 <= scan.quantity <= 65535 && !scan.visitor.BadVisitor?
    ensures scan.visitor.GivenVisitor? ==> scan.authorization.None? && scan.quantity == 1
    ensures reading ==> scan.authorization.None? && scan.visitor.NoVisitor?
  {
  }

  lemma DeclineLogs(t: Tables, actor: ActorCheck, scan: Scan, code: Code, u: Tables)
    requires u == Decline(t, actor, scan, code).0
    ensures |u.attempts| == |t.attempts| + 1
    ensures Logged(t, u.attempts[|t.attempts|], u) && u.calls == t.calls
  {
    hide Locate;
  }

  lemma AcceptLogs(t: Tables, staff: nat, scan: Scan, reading: bool, public: bool, u: Tables)
    requires scan.request.Some? && scan.token.Some? && scan.code.Some? && scan.quantity >= 0
    requires u == Accept(t, staff, scan, reading, public).0
    ensures |u.attempts| == |t.attempts| + 1 && Logged(t, u.attempts[|t.attempts|], u)
  {
    hide Identify, Locate, Reserved;
    ReservedCases(t.requests, scan.request.value,
                  Fingerprint(scan.token.value, staff, Locate(t.world, scan.code), scan.mealType, scan.quantity));
  }

  lemma ReservedCases(requests: map<Uuid, Request>, r: Uuid, h: Fingerprint)
    ensures r in Reserved(requests, r, h)
    ensures Reserved(requests, r, h) == if r in requests then requests else requests[r := Request(h, PENDING, None, None)]
  {
  }

  lemma AcceptRemembers(t: Tables, staff: nat, scan: Scan, reading: bool, public: bool, u: Tables)
    requires Complaint(Staff(staff), scan, reading).None?
    requires scan.request.Some? && scan.token.Some? && scan.code.Some? && scan.quantity >= 0
    requires u == Accept(t, staff, scan, reading, public).0
    ensures CallsGrow(t, u, |t.attempts|)
  {
    hide Identify, Locate, Complaint;
    Accepted(Staff(staff), scan, reading);
  }

  lemma ReceiveLogs(t: Tables, actor: ActorCheck, scan: Scan, reading: bool, public: bool, u: Tables)
    requires u == Receive(t, actor, scan, reading, public).0
    ensures |u.attempts| == |t.attempts| + 1
    ensures Logged(t, u.attempts[|t.attempts|], u) && CallsGrow(t, u, |t.attempts|)
  {
    hide Complaint, Decline, Accept, Logged, Remembers;
    match Complaint(actor, scan, reading)
    case Some(code) => DeclineLogs(t, actor, scan, code, u);
    case None =>
      Accepted(actor, scan, reading);
      AcceptLogs(t, actor.id, scan, reading, public, u);
      AcceptRemembers(t, actor.id, scan, reading, public, u);
  }

  lemma ReceiveKeepsInv(t: Tables, actor: ActorCheck, scan: Scan, reading: bool, public: bool)
    requires Inv(t)
    ensures Inv(Receive(t, actor, scan, reading, public).0)
  {
    hide *;
    var u := Receive(t, actor, scan, reading, public).0;
    ReceiveLogs(t, actor, scan, reading, public, u);
    LoggedKeepsInv(t, u.attempts[|t.attempts|], u);
  }

  // ---- Closing an attempt ----

  /** Attempt `a`, until now RECEIVED, gets another outcome; the columns written on receipt stay. */
  ghost predicate AttemptCloses(t: Tables, u: Tables, a: nat) {
    && a < |t.attempts|
    && t.attempts[a].outcome == RECEIVED
    && |u.attempts| == |t.attempts|
    && u.attempts == t.attempts[a := u.attempts[a]]
    && u.attempts[a] == t.attempts[a].(outcome := u.attempts[a].outcome, code := u.attempts[a].code,
                                       serving := u.attempts[a].serving, qr := u.attempts[a].qr)
  }

  ghost predicate OnlyCloses(t: Tables, u: Tables, a: nat) {
    AttemptCloses(t, u, a) && u == t.(attempts := u.attempts) && u.attempts[a].outcome != SUCCESS
  }

  lemma CloseKeepsCalls(t: Tables, u: Tables, a: nat)
    requires CallsInv(t) && AttemptCloses(t, u, a) && u.calls == t.calls
    requires forall r :: r in t.requests ==> r in u.requests
    ensures CallsInv(u)
  {
    forall b | b in u.calls ensures Remembers(u, b) { assert Remembers(t, b); }
  }

  lemma CloseKeepsAttempts(t: Tables, u: Tables, a: nat)
    requires AttemptInv(t) && AttemptCloses(t, u, a) && u.attempts[a].outcome != SUCCESS && u.servings == t.servings
    ensures AttemptInv(u)
  {
    forall b | 0 <= b < |u.attempts| ensures AttemptOk(u, b) { assert AttemptOk(t, b); }
    forall s | 0 <= s < |u.servings| ensures Produced(u, s) {
      assert Produced(t, s);
      var b: nat :| Succeeded(t, b, s);
      assert Succeeded(u, b, s);
    }
    forall b: nat, b': nat, s: nat | Succeeded(u, b, s) && Succeeded(u, b', s) ensures b == b' {
      assert Succeeded(t, b, s) && Succeeded(t, b', s);
    }
  }

  lemma CloseKeepsProofs(t: Tables, u: Tables, a: nat)
    requires CallsInv(t) && ProofInv(t) && AttemptCloses(t, u, a) && u.requests == t.requests
    ensures ProofInv(u)
  {
    forall b | 0 <= b < |u.attempts| ensures PlaceKept(u, b) { assert PlaceKept(t, b); }
    forall r | r in u.requests ensures Provable(u, r) {
      assert Provable(t, r);
      if Final(t.requests[r]) { FirstKept(t.attempts, u.attempts, r, t.requests[r].hash); }
    }
  }

  /** Nothing but attempts, requests and calls differs. */
  ghost predicate SameServings(t: Tables, u: Tables) {
    u == t.(attempts := u.attempts, requests := u.requests, calls := u.calls)
  }

  lemma SameServingsKeepsRest(t: Tables, u: Tables)
    requires MealsInv(t) && AllowanceInv(t) && LockInv(t) && SameServings(t, u)
    ensures MealsInv(u) && AllowanceInv(u) && LockInv(u)
  {
    forall q | q in u.allocations ensures AllocationOk(u, q) {
      assert AllocationOk(t, q);
      forall k | k in u.allowances[q] ensures AllowanceOk(u, q, k) { assert AllowanceOk(t, q, k); }
    }
    forall s: nat, s': nat | Recurs(u, s, s') && Untouched(u, s)
      ensures u.servings[s'].at - u.servings[s].at >= u.lock
    {
      assert Recurs(t, s, s') && Untouched(t, s);
    }
  }

  lemma CloseKeepsInv(t: Tables, u: Tables, a: nat)
    requires Inv(t) && OnlyCloses(t, u, a)
    ensures Inv(u)
  {
    CloseKeepsCalls(t, u, a);
    CloseKeepsAttempts(t, u, a);
    CloseKeepsProofs(t, u, a);
    SameServingsKeepsRest(t, u);
    forall s | 0 <= s < |u.servings| ensures ServingOk(u, s) { assert ServingOk(t, s); }
    forall r | r in u.requests ensures RequestOk(u, r) { assert RequestOk(t, r); }
  }

  // ---- Dismissing a request ----

  /** Attempt `a` is open, its call runs, and its fingerprint is the pending request's. */
  ghost predicate Open(t: Tables, a: nat) {
    && a in t.calls && a < |t.attempts|
    && t.attempts[a].outcome == RECEIVED
    && t.calls[a].request in t.requests
    && !Final(t.requests[t.calls[a].request])
    && t.requests[t.calls[a].request].hash == t.calls[a].fingerprint
  }

  /** The request of call `a` becomes final, keeping its hash and bound to the call's proof. */
  ghost predicate Finalizes(t: Tables, u: Tables, a: nat)
    requires Open(t, a)
  {
    var c := t.calls[a];
    && c.request in u.requests
    && u.requests == t.requests[c.request := u.requests[c.request]]
    && Final(u.requests[c.request])
    && u.requests[c.request].hash == c.fingerprint
    && u.requests[c.request].bound == Some(c.proof)
  }

  lemma FinalizeKeepsProofs(t: Tables, u: Tables, a: nat)
    requires CallsInv(t) && ProofInv(t) && Open(t, a) && Finalizes(t, u, a) && AttemptCloses(t, u, a)
    ensures ProofInv(u)
  {
    assert Remembers(t, a) && PlaceKept(t, a);
    var id, h := t.calls[a].request, t.calls[a].fingerprint;
    forall b | 0 <= b < |u.attempts| ensures PlaceKept(u, b) { assert PlaceKept(t, b); }
    forall r | r in u.requests ensures Provable(u, r) {
      if r == id {
        var i := First(t.attempts, r, h);
        assert t.attempts[a].request == Some(r) && t.attempts[a].hash == Some(h);
        assert i < |t.attempts| && PlaceKept(t, i);
        FirstKept(t.attempts, u.attempts, r, h);
      } else {
        assert Provable(t, r);
        if Final(t.requests[r]) { FirstKept(t.attempts, u.attempts, r, t.requests[r].hash); }
      }
    }
  }

  lemma FinalizeKeepsApprovals(t: Tables, u: Tables, a: nat)
    requires ApprovalInv(t) && Open(t, a) && Finalizes(t, u, a) && u.authorizations == t.authorizations
    ensures ApprovalInv(u)
  {
  }

  ghost predicate Dismisses(t: Tables, u: Tables, a: nat)
    requires Open(t, a)
  {
    && AttemptCloses(t, u, a) && Finalizes(t, u, a)
    && u == t.(attempts := u.attempts, requests := u.requests)
    && u.attempts[a].outcome != SUCCESS
    && u.requests[t.calls[a].request].status == REJECTED && u.requests[t.calls[a].request].code.Some?
    && u.requests[t.calls[a].request].code != Some(IDEMPOTENCY_PROOF_UNAVAILABLE)
  }

  lemma DismissKeepsOutcomes(t: Tables, u: Tables, a: nat)
    requires OutcomeInv(t) && Open(t, a) && Dismisses(t, u, a)
    ensures OutcomeInv(u)
  {
    assert RequestOk(t, t.calls[a].request);
    forall s | 0 <= s < |u.servings| ensures ServingOk(u, s) { assert ServingOk(t, s); }
    forall r | r in u.requests ensures RequestOk(u, r) { assert RequestOk(t, r); }
  }

  lemma DismissKeepsInv(t: Tables, u: Tables, a: nat)
    requires Inv(t) && Open(t, a) && Dismisses(t, u, a)
    ensures Inv(u)
  {
    hide CallsInv, OutcomeInv, MealsInv, ProofInv, AttemptInv, AllowanceInv, LockInv, ApprovalInv;
    CloseKeepsCalls(t, u, a);
    DismissKeepsOutcomes(t, u, a);
    CloseKeepsAttempts(t, u, a);
    FinalizeKeepsProofs(t, u, a);
    FinalizeKeepsApprovals(t, u, a);
    SameServingsKeepsRest(t, u);
  }

  // ---- Recording a serving ----

  /** The new serving row fits the call it is made for. */
  ghost predicate Fits(t: Tables, a: nat, v: Serving)
    requires Open(t, a)
  {
    var c := t.calls[a];
    && v.request == c.request && v.waiter == c.staff && v.mealType == c.mealType && v.quantity == c.quantity
    && v.authorization == c.proof.authorization && v.at == t.now && v.quantity >= 1
    && v.qr in t.qrs && v.kind == t.qrs[v.qr].kind
    && (v.employee.Some? <==> v.kind == EMPLOYEE)
    && (v.employee.Some? ==> v.quantity == 1)
  }

  ghost predicate NotLocked(t: Tables, v: Serving) {
    v.employee.Some? && t.lock > 0 ==> !Blocked(t, v.employee.value, v.mealType, t.now - t.lock)
  }

  /** A visitor QR with allowances has the used one counted; nothing else is counted. */
  ghost predicate Counts(t: Tables, u: Tables, v: Serving) {
    if v.qr in t.allocations then
      && v.qr in t.allowances && v.mealType in t.allowances[v.qr]
      && AllowanceProblem(t, v.qr, v.mealType).None?
      && !t.allocations[v.qr].exhausted
      && u.allowances == Counted(t, v.qr, v.mealType).allowances
      && u.allocations == Counted(t, v.qr, v.mealType).allocations
    else u.allowances == t.allowances && u.allocations == t.allocations
  }

  ghost predicate Records(t: Tables, u: Tables, a: nat, v: Serving)
    requires Open(t, a)
  {
    && AttemptCloses(t, u, a) && Finalizes(t, u, a) && Fits(t, a, v) && NotLocked(t, v) && Counts(t, u, v)
    && u.requests[t.calls[a].request].status == SUCCEEDED && u.requests[t.calls[a].request].code.None?
    && u.attempts[a].outcome == SUCCESS && u.attempts[a].serving == Some(|t.servings|)
    && u.servings == t.servings + [v]
    && u.meals == t.meals + Units(|t.servings|, v.quantity, v.at)
    && u == t.(attempts := u.attempts, requests := u.requests, servings := u.servings, meals := u.meals,
               allowances := u.allowances, allocations := u.allocations)
  }

  lemma RecordIsFirst(t: Tables, u: Tables, a: nat, v: Serving)
    requires CallsInv(t) && OutcomeInv(t) && Open(t, a) && Records(t, u, a, v)
    ensures ServingOk(u, |t.servings|)
    ensures forall s :: 0 <= s < |t.servings| ==> ServingOk(u, s) && t.servings[s].request != t.calls[a].request
  {
    hide AttemptCloses, NotLocked, Counts;
    assert Remembers(t, a) && RequestOk(t, t.calls[a].request);
    forall s | 0 <= s < |t.servings| ensures ServingOk(u, s) && t.servings[s].request != t.calls[a].request {
      assert ServingOk(t, s);
    }
  }

  lemma RecordKeepsOutcomes(t: Tables, u: Tables, a: nat, v: Serving)
    requires CallsInv(t) && OutcomeInv(t) && Open(t, a) && Records(t, u, a, v)
    ensures OutcomeInv(u)
  {
    RecordIsFirst(t, u, a, v);
    RecordedFor(t, u, a, v);
    hide AttemptCloses, NotLocked, Counts, ServingOk, CallsInv, Fits, ServingOf;
    forall r | r in u.requests ensures RequestOk(u, r) {
      assert RequestOk(t, r);
      ServingOfOneMore(t.servings, v, r);
    }
  }

  lemma RecordedFor(t: Tables, u: Tables, a: nat, v: Serving)
    requires Open(t, a) && Records(t, u, a, v)
    ensures v.request == t.calls[a].request
  {
    hide AttemptCloses, Finalizes, NotLocked, Counts;
  }

  lemma ServingOfOneMore(servings: seq<Serving>, v: Serving, r: Uuid)
    ensures var more := servings + [v];
            ServingOf(more, r) < |more| <==> ServingOf(servings, r) < |servings| || v.request == r
  {
    var more := servings + [v];
    var i, j := ServingOf(servings, r), ServingOf(more, r);
    if i < |servings| { assert more[i].request == r; }
    if v.request == r { assert more[|servings|].request == r; }
    if j < |servings| { assert servings[j].request == r; }
  }

  lemma RecordKeepsMeals(t: Tables, u: Tables, a: nat, v: Serving)
    requires MealsInv(t) && Open(t, a) && Records(t, u, a, v)
    ensures MealsInv(u)
  {
    var n, more := |t.servings|, Units(|t.servings|, v.quantity, v.at);
    MealsOfNew(t.meals, more, n);
    forall s | 0 <= s < |u.servings| ensures Numbered(u.meals, MealsOf(u.meals, s), s, u.servings[s]) {
      if s < n {
        MealsOfAppend(t.meals, more, s);
        assert Numbered(t.meals, MealsOf(t.meals, s), s, t.servings[s]);
      }
    }
  }

  lemma RecordKeepsAttempts(t: Tables, u: Tables, a: nat, v: Serving)
    requires CallsInv(t) && AttemptInv(t) && Open(t, a) && Records(t, u, a, v)
    ensures AttemptInv(u)
  {
    var n := |t.servings|;
    assert Remembers(t, a);
    forall b | 0 <= b < |u.attempts| ensures AttemptOk(u, b) { assert AttemptOk(t, b); }
    forall s | 0 <= s < |u.servings| ensures Produced(u, s) {
      if s == n {
        assert Succeeded(u, a, n);
      } else {
        assert Produced(t, s);
        var b: nat :| Succeeded(t, b, s);
        assert Succeeded(u, b, s);
      }
    }
    forall b: nat, b': nat, s: nat | Succeeded(u, b, s) && Succeeded(u, b', s) ensures b == b' {
      assert b != a ==> Succeeded(t, b, s) && AttemptOk(t, b);
      assert b' != a ==> Succeeded(t, b', s) && AttemptOk(t, b');
    }
  }

  /** The rows of the QR that was served: one more use of its type, and the summary follows the new maximum. */
  lemma UseKeepsAllocation(t: Tables, u: Tables, a: nat, v: Serving)
    requires AllowanceInv(t) && Open(t, a) && Records(t, u, a, v) && v.qr in t.allocations
    ensures v.qr in u.allocations && AllocationOk(u, v.qr)
  {
    hide AttemptCloses, Finalizes, Fits, NotLocked, Open, ServedOf, Units;
    var q := v.qr;
    assert AllocationOk(t, q);
    assert v.mealType in u.allowances[q];
    forall k | k in u.allowances[q] ensures AllowanceOk(u, q, k) {
      assert AllowanceOk(t, q, k);
      ServedOfAppend(t.servings, v, q, k);
    }
  }

  /** The rows of every other QR, and its servings, are as they were. */
  lemma OtherAllocation(t: Tables, u: Tables, q: nat, v: Serving)
    requires q in t.allocations && AllocationOk(t, q) && q != v.qr
    requires q in u.allocations && u.allocations[q] == t.allocations[q]
    requires q in u.allowances && u.allowances[q] == t.allowances[q]
    requires u.servings == t.servings + [v] && u.qrs == t.qrs
    ensures AllocationOk(u, q)
  {
    forall k | k in u.allowances[q] ensures AllowanceOk(u, q, k) {
      assert AllowanceOk(t, q, k);
      ServedOfAppend(t.servings, v, q, k);
    }
  }

  lemma RecordKeepsAllowances(t: Tables, u: Tables, a: nat, v: Serving)
    requires AllowanceInv(t) && Open(t, a) && Records(t, u, a, v)
    ensures AllowanceInv(u)
  {
    hide AttemptCloses, Finalizes, Fits, NotLocked, Open, AllocationOk, Summarize;
    forall q | q in u.allocations ensures AllocationOk(u, q) {
      if q == v.qr { UseKeepsAllocation(t, u, a, v); } else { OtherAllocation(t, u, q, v); }
    }
  }

  /** A serving that is not locked out comes at least the lock length after an untouched one it repeats. */
  lemma LockLength(t: Tables, v: Serving, s: nat)
    requires OutcomeInv(t) && MealsInv(t) && NotLocked(t, v) && s < |t.servings| && Untouched(t, s)
    requires v.employee.Some? && t.servings[s].employee == v.employee && t.servings[s].mealType == v.mealType
    ensures t.now - t.servings[s].at >= t.lock
  {
    assert ServingOk(t, s) && Numbered(t.meals, MealsOf(t.meals, s), s, t.servings[s]);
    if t.lock > 0 {
      var m, since := MealsOf(t.meals, s)[0], t.now - t.lock;
      NeverCorrected(t.corrections, m, v.mealType);
      assert !Blocks(t, m, v.employee.value, v.mealType, since);
    }
  }

  lemma RecordKeepsLock(t: Tables, u: Tables, a: nat, v: Serving)
    requires OutcomeInv(t) && MealsInv(t) && LockInv(t) && Open(t, a) && Records(t, u, a, v)
    ensures LockInv(u)
  {
    hide AttemptCloses, Finalizes, NotLocked, Counts, OutcomeInv;
    forall s: nat, s': nat | Recurs(u, s, s') && Untouched(u, s)
      ensures u.servings[s'].at - u.servings[s].at >= u.lock
    {
      assert forall m :: 0 <= m < |t.meals| ==> u.meals[m] == t.meals[m];
      assert Untouched(t, s);
      if s' < |t.servings| { assert Recurs(t, s, s'); } else { LockLength(t, v, s); }
    }
  }

  lemma RecordKeepsInv(t: Tables, u: Tables, a: nat, v: Serving)
    requires Inv(t) && Open(t, a) && Records(t, u, a, v)
    ensures Inv(u)
  {
    hide CallsInv, OutcomeInv, MealsInv, ProofInv, AttemptInv, AllowanceInv, LockInv, ApprovalInv;
    CloseKeepsCalls(t, u, a);
    RecordKeepsOutcomes(t, u, a, v);
    RecordKeepsMeals(t, u, a, v);
    FinalizeKeepsProofs(t, u, a);
    RecordKeepsAttempts(t, u, a, v);
    RecordKeepsAllowances(t, u, a, v);
    RecordKeepsLock(t, u, a, v);
    FinalizeKeepsApprovals(t, u, a);
  }

  // ---- Processing ----

  /** The row a serving verdict is recorded as. */
  ghost function NewServing(t: Tables, call: Call, staff: nat, v: Verdict): Serving
    requires v.Serve? && v.qr in t.qrs
  {
    Serving(call.request, v.qr, t.qrs[v.qr].kind, v.employee, call.mealType, call.quantity, staff, call.place,
            call.proof.authorization, t.now, v.visitor)
  }

  /** What a decision to serve rests on. */
  lemma ServeFits(t: Tables, call: Call, staff: nat, v: Verdict)
    requires v == Decide(t, call, staff) && v.Serve? && call.quantity >= 1
    requires CredentialInv(t) && AllowanceInv(t)
    ensures v.qr in t.qrs && call.token in t.tokens && v.qr == t.tokens[call.token]
    ensures v.employee.Some? <==> t.qrs[v.qr].kind == EMPLOYEE
    ensures v.employee.Some? ==> call.quantity == 1 && v.employee == t.qrs[v.qr].employee
    ensures v.employee.Some? && t.lock > 0 ==> !Blocked(t, v.employee.value, call.mealType, t.now - t.lock)
    ensures v.counted <==> v.qr in t.allocations
    ensures v.counted ==>
              && v.qr in t.allowances && call.mealType in t.allowances[v.qr]
              && AllowanceProblem(t, v.qr, call.mealType).None? && !t.allocations[v.qr].exhausted
              && call.quantity == 1
    ensures call.proof.visitor.Some? ==> v.visitor == call.proof.visitor
  {
    hide Locate, ScannerProblem, AuthorizationProblem, Blocked;
    if v.qr in t.allocations { assert AllocationOk(t, v.qr); }
  }

  /** A pending outcome is only ever left to a scan whose proof was not bound yet. */
  lemma UndecidedIsDeferred(t: Tables, call: Call, staff: nat)
    requires Decide(t, call, staff).Await? || Decide(t, call, staff).RefuseAttempt?
    ensures Deferred(call)
  {
    hide Locate, ScannerProblem, AuthorizationProblem, EmployeeProblem, AllowanceProblem;
  }

  /** The four things processing a scan can do. */
  ghost predicate Processed(t: Tables, u: Tables, a: nat) {
    || u == t
    || OnlyCloses(t, u, a)
    || (Open(t, a) && Dismisses(t, u, a))
    || (Open(t, a) && exists v :: Records(t, u, a, v))
  }

  lemma RecordedRecords(t: Tables, a: nat, staff: nat, v: Verdict, u: Tables)
    requires Inv(t) && Open(t, a) && staff == t.calls[a].staff
    requires v == Decide(t, t.calls[a], staff) && v.Serve?
    requires u == Recorded(if v.counted then Counted(t, v.qr, t.calls[a].mealType) else t, a, t.calls[a], staff, v)
    ensures Records(t, u, a, NewServing(t, t.calls[a], staff, v))
  {
    hide Decide, CallsInv, OutcomeInv, MealsInv, ProofInv, AttemptInv, AllowanceInv, LockInv, ApprovalInv, Blocked,
      AllowanceProblem, Summarize;
    var c := t.calls[a];
    assert Remembers(t, a) && RequestOk(t, c.request) by { OpenFacts(t, a); }
    ServeFits(t, c, staff, v);
  }

  lemma OpenFacts(t: Tables, a: nat)
    requires Inv(t) && a in t.calls
    ensures Remembers(t, a) && RequestOk(t, t.calls[a].request)
  {
  }

  lemma ClosedCloses(t: Tables, a: nat, outcome: Outcome, code: Option<Code>, serving: Option<nat>, qr: Option<nat>)
    requires a < |t.attempts| && t.attempts[a].outcome == RECEIVED && outcome != SUCCESS
    ensures OnlyCloses(t, Closed(t, a, outcome, code, serving, qr), a)
  {
  }

  lemma RefusalCodes(t: Tables, call: Call, staff: nat)
    requires Decide(t, call, staff).Refuse?
    ensures Decide(t, call, staff).code != IDEMPOTENCY_PROOF_UNAVAILABLE
  {
    hide Locate, Blocked;
  }

  lemma DismissedDismisses(t: Tables, a: nat, code: Code)
    requires Inv(t) && Open(t, a) && code != IDEMPOTENCY_PROOF_UNAVAILABLE
    ensures Dismisses(t, Dismissed(t, a, t.calls[a], code), a)
  {
    hide CallsInv, OutcomeInv, MealsInv, ProofInv, AttemptInv, AllowanceInv, LockInv, ApprovalInv;
    OpenFacts(t, a);
  }

  lemma ResolveCases(t: Tables, a: nat, staff: nat, u: Tables)
    requires Inv(t) && Open(t, a) && staff == t.calls[a].staff
    requires u == Resolve(t, a, t.calls[a], staff).0
    ensures Processed(t, u, a)
  {
    hide Inv, Decide, Recorded, Counted, Records, Dismissed, Dismisses, Closed, OnlyCloses, Bind;
    var c := t.calls[a];
    var v := Decide(t, c, staff);
    var qr := if c.token in t.tokens then Some(t.tokens[c.token]) else None;
    if c.request in t.authorizations && Some(t.authorizations[c.request].id) != c.proof.authorization {
      ClosedCloses(t, a, REFUSED, Some(AUTHORIZATION_SCOPE_MISMATCH), None, None);
    } else if v.Serve? {
      RecordedRecords(t, a, staff, v, u);
      assert Records(t, u, a, NewServing(t, c, staff, v));
    } else if v.Await? {
      UndecidedIsDeferred(t, c, staff);
      ClosedCloses(t, a, AWAITING_DETAILS, None, None, Some(v.qr));
    } else if v.Refuse? {
      RefusalCodes(t, c, staff);
      DismissedDismisses(t, a, v.code);
    } else {
      UndecidedIsDeferred(t, c, staff);
      ClosedCloses(t, a, REFUSED, Some(v.code), None, qr);
    }
  }

  lemma ReplayCases(t: Tables, a: nat, u: Tables)
    requires a < |t.attempts| && t.attempts[a].outcome == RECEIVED
    requires a in t.calls && t.calls[a].request in t.requests && u == Replay(t, a, t.calls[a]).0
    ensures u == t || OnlyCloses(t, u, a)
  {
    hide ServingOf, MealsOf, OnlyCloses, Closed;
    var s, row := ServingOf(t.servings, t.calls[a].request), t.requests[t.calls[a].request];
    ClosedCloses(t, a, REFUSED, Some(IDEMPOTENCY_KEY_REUSED), None, None);
    ClosedCloses(t, a, REFUSED, Some(IDEMPOTENCY_PROOF_UNAVAILABLE), None, None);
    if row.code.Some? { ClosedCloses(t, a, REFUSED, row.code, None, None); }
    if s < |t.servings| { ClosedCloses(t, a, REFUSED, Some(DUPLICATE_REQUEST), Some(s), Some(t.servings[s].qr)); }
  }

  lemma ProcessCases(t: Tables, a: nat, actor: ActorCheck, u: Tables)
    requires Inv(t) && u == Process(t, a, actor).0
    ensures Processed(t, u, a)
  {
    hide Inv, Resolve, Replay, Dismisses, Records, OnlyCloses, Closed, ProofDiffers;
    if u != t {
      var c := t.calls[a];
      var row := t.requests[c.request];
      if actor.Denied? { ClosedCloses(t, a, REFUSED, Some(actor.code), None, None); }
      else if actor.id != c.staff { ClosedCloses(t, a, REFUSED, Some(AUTHENTICATION_CHANGED), None, None); }
      else if row.hash != c.fingerprint || ProofDiffers(row, c) {
        ClosedCloses(t, a, REFUSED, Some(IDEMPOTENCY_KEY_REUSED), None, None);
      } else if Final(row) { ReplayCases(t, a, u); }
      else { ResolveCases(t, a, actor.id, u); }
    }
  }

  lemma ProcessKeepsInv(t: Tables, a: nat, actor: ActorCheck)
    requires Inv(t)
    ensures Inv(Process(t, a, actor).0)
  {
    hide *;
    var u := Process(t, a, actor).0;
    ProcessCases(t, a, actor, u);
    ProcessedKeepsInv(t, u, a);
  }

  lemma ProcessedKeepsInv(t: Tables, u: Tables, a: nat)
    requires Inv(t) && Processed(t, u, a)
    ensures Inv(u)
  {
    hide Inv, OnlyCloses, Open, Dismisses, Records;
    if OnlyCloses(t, u, a) { CloseKeepsInv(t, u, a); }
    else if Open(t, a) && Dismisses(t, u, a) { DismissKeepsInv(t, u, a); }
    else if u != t {
      var v :| Records(t, u, a, v);
      RecordKeepsInv(t, u, a, v);
    }
  }

  // ---- The other transactions ----

  /** Rows may be added to the request and credential tables and the clock may advance; nothing recorded changes. */
  ghost predicate Grows(t: Tables, u: Tables) {
    && u.attempts == t.attempts && u.servings == t.servings && u.meals == t.meals && u.calls == t.calls
    && u.now >= t.now
    && (forall r :: r in t.requests ==> r in u.requests && u.requests[r] == t.requests[r])
    && (forall r :: r in u.requests && r !in t.requests ==>
          u.requests[r] == Request(u.requests[r].hash, PENDING, None, None))
    && (forall q :: q in t.qrs ==> q in u.qrs && u.qrs[q].kind == t.qrs[q].kind)
  }

  lemma GrowKeepsOutcomes(t: Tables, u: Tables)
    requires OutcomeInv(t) && Grows(t, u)
    ensures OutcomeInv(u)
  {
    forall s | 0 <= s < |u.servings| ensures ServingOk(u, s) { assert ServingOk(t, s); }
    forall r | r in u.requests ensures RequestOk(u, r) {
      if r in t.requests {
        assert RequestOk(t, r);
      } else {
        forall s | 0 <= s < |t.servings| ensures t.servings[s].request != r { assert ServingOk(t, s); }
      }
    }
  }

  lemma GrowKeepsRecords(t: Tables, u: Tables)
    requires CallsInv(t) && MealsInv(t) && ProofInv(t) && AttemptInv(t) && Grows(t, u)
    ensures CallsInv(u) && MealsInv(u) && ProofInv(u) && AttemptInv(u)
  {
    forall a | a in u.calls ensures Remembers(u, a) { assert Remembers(t, a); }
    forall a | 0 <= a < |u.attempts| ensures PlaceKept(u, a) && AttemptOk(u, a) {
      assert PlaceKept(t, a) && AttemptOk(t, a);
    }
    forall r | r in u.requests ensures Provable(u, r) { if r in t.requests { assert Provable(t, r); } }
    forall s | 0 <= s < |u.servings| ensures Produced(u, s) {
      assert Produced(t, s);
      var a: nat :| Succeeded(t, a, s);
      assert Succeeded(u, a, s);
    }
    forall a: nat, a': nat, s: nat | Succeeded(u, a, s) && Succeeded(u, a', s) ensures a == a' {
      assert Succeeded(t, a, s) && Succeeded(t, a', s);
    }
  }

  lemma GrowKeepsLock(t: Tables, u: Tables)
    requires LockInv(t) && Grows(t, u) && u.lock == t.lock
    requires t.voids <= u.voids && t.corrections <= u.corrections
    ensures LockInv(u)
  {
    forall s: nat, s': nat | Recurs(u, s, s') && Untouched(u, s)
      ensures u.servings[s'].at - u.servings[s].at >= u.lock
    {
      assert Recurs(t, s, s') && Untouched(t, s);
    }
  }

  lemma GrowKeepsAllowances(t: Tables, u: Tables)
    requires AllowanceInv(t) && Grows(t, u) && u.allocations == t.allocations && u.allowances == t.allowances
    ensures AllowanceInv(u)
  {
    forall q | q in u.allocations ensures AllocationOk(u, q) {
      assert AllocationOk(t, q);
      forall k | k in u.allowances[q] ensures AllowanceOk(u, q, k) { assert AllowanceOk(t, q, k); }
    }
  }

  /** New visitor QRs start with nothing used. */
  lemma IssueKeepsAllowances(t: Tables, q: nat, qr: Qr, visitor: Visitor, limit: nat, types: seq<int>)
    requires AllowanceInv(t) && OutcomeInv(t)
    ensures AllowanceInv(IssueVisitor(t, q, qr, visitor, limit, types))
  {
    var u := IssueVisitor(t, q, qr, visitor, limit, types);
    if u != t {
      forall p | p in u.allocations ensures AllocationOk(u, p) {
        if p == q {
          var k := types[0];
          assert k in u.allowances[q] && u.allowances[q][k] == Allowance(limit, 0, false);
          forall s | 0 <= s < |t.servings| ensures t.servings[s].qr != q { assert ServingOk(t, s); }
          forall j | j in u.allowances[q] ensures AllowanceOk(u, q, j) { NeverServed(t.servings, q, j); }
        } else {
          assert AllocationOk(t, p);
          forall k | k in u.allowances[p] ensures AllowanceOk(u, p, k) { assert AllowanceOk(t, p, k); }
        }
      }
    }
  }

  predicate Counting(e: Event) { e.OnReceive? || e.OnProcess? || e.OnInterrupt? }

  lemma AuthorizeGrows(t: Tables, admin: ActorCheck, ask: Approval, id: int, u: Tables)
    requires u == Authorize(t, admin, ask, id).0
    ensures Grows(t, u) && u == t.(requests := u.requests, authorizations := u.authorizations)
  {
    hide ScannerProblem, QrProblem, Locate;
  }

  lemma IssueVisitorGrows(t: Tables, q: nat, qr: Qr, visitor: Visitor, limit: nat, types: seq<int>, u: Tables)
    requires u == IssueVisitor(t, q, qr, visitor, limit, types)
    ensures Grows(t, u)
    ensures u == t.(qrs := u.qrs, tokens := u.tokens, allocations := u.allocations, allowances := u.allowances)
  {
  }

  lemma IssueGrows(t: Tables, q: nat, qr: Qr, u: Tables)
    requires u == Issue(t, q, qr)
    ensures Grows(t, u) && u == t.(qrs := u.qrs, tokens := u.tokens)
  {
  }

  predicate Minor(e: Event) { e.OnWithdraw? || e.OnCorrect? || e.OnVoid? || e.OnRevoke? || e.OnWorld? }

  /** Withdrawals, corrections, voids, revocations and changes of reference data touch only these tables. */
  lemma MinorShape(t: Tables, e: Event, u: Tables)
    requires Minor(e) && u == Step(t, e)
    ensures u == t.(authorizations := u.authorizations, corrections := u.corrections, voids := u.voids, qrs := u.qrs,
                    world := u.world, now := u.now)
    ensures u.now >= t.now && (e.OnRevoke? || u.qrs == t.qrs)
    ensures u.corrections == t.corrections
            || (e.OnCorrect? && u.corrections == t.corrections + [Correction(e.meal, e.seen, e.to)])
    ensures t.voids <= u.voids
  {
    hide Authorize, Issue, IssueVisitor, Receive, Process, Interrupt, Correct;
    if e.OnCorrect? { CorrectShape(t, e.actor, e.meal, e.seen, e.to); }
  }

  lemma CorrectShape(t: Tables, admin: ActorCheck, m: nat, seen: int, to: int)
    ensures var u := Correct(t, admin, m, seen, to).0;
            u == t || u == t.(corrections := t.corrections + [Correction(m, seen, to)])
  {
  }

  lemma MinorGrows(t: Tables, e: Event, u: Tables)
    requires Minor(e) && u == Step(t, e)
    ensures Grows(t, u) && u.lock == t.lock && t.voids <= u.voids && t.corrections <= u.corrections
    ensures u.allocations == t.allocations && u.allowances == t.allowances
  {
    MinorShape(t, e, u);
    if !e.OnRevoke? { hide Step; }
  }

  lemma OthersGrow(t: Tables, e: Event, u: Tables)
    requires !Counting(e) && u == Step(t, e)
    ensures Grows(t, u) && u.lock == t.lock && t.voids <= u.voids && t.corrections <= u.corrections
    ensures !e.OnIssueVisitor? ==> u.allocations == t.allocations && u.allowances == t.allowances
  {
    hide Authorize, Issue, IssueVisitor, Receive, Process, Interrupt, Correct, Grows;
    if e.OnAuthorize? { AuthorizeGrows(t, e.actor, e.approval, e.id, u); }
    else if e.OnIssue? { IssueGrows(t, e.qr, e.credential, u); }
    else if e.OnIssueVisitor? { IssueVisitorGrows(t, e.qr, e.credential, e.visitor, e.limit, e.types, u); }
    else { MinorGrows(t, e, u); }
  }

  lemma AuthorizeKeepsApprovals(t: Tables, admin: ActorCheck, ask: Approval, id: int)
    requires ApprovalInv(t)
    ensures ApprovalInv(Authorize(t, admin, ask, id).0)
  {
    hide ScannerProblem, QrProblem, Locate;
  }

  lemma OthersKeepApprovals(t: Tables, e: Event, u: Tables)
    requires ApprovalInv(t) && !Counting(e) && u == Step(t, e)
    ensures ApprovalInv(u)
  {
    hide Authorize;
    if e.OnAuthorize? { AuthorizeKeepsApprovals(t, e.actor, e.approval, e.id); }
  }

  lemma OthersKeepCredentials(t: Tables, e: Event, u: Tables)
    requires CredentialInv(t) && !Counting(e) && u == Step(t, e)
    ensures CredentialInv(u)
  {
    hide Authorize;
    if e.OnAuthorize? { AuthorizeGrows(t, e.actor, e.approval, e.id, u); }
  }

  lemma StepKeepsInv(t: Tables, e: Event)
    requires Inv(t)
    ensures Inv(Step(t, e))
  {
    hide CallsInv, OutcomeInv, MealsInv, ProofInv, AttemptInv, AllowanceInv, LockInv, ApprovalInv, CredentialInv, Grows;
    hide Receive, Process, Interrupt, Authorize, Correct, Issue, IssueVisitor;
    if e.OnReceive? { ReceiveKeepsInv(t, e.actor, e.scan, e.reading, e.public); }
    else if e.OnProcess? { ProcessKeepsInv(t, e.attempt, e.actor); }
    else if e.OnInterrupt? { InterruptKeepsInv(t, e.attempt); }
    else {
      var u := Step(t, e);
      OthersGrow(t, e, u);
      OthersKeepApprovals(t, e, u);
      OthersKeepCredentials(t, e, u);
      GrowKeepsOutcomes(t, u);
      GrowKeepsRecords(t, u);
      GrowKeepsLock(t, u);
      if e.OnIssueVisitor? { IssueKeepsAllowances(t, e.qr, e.credential, e.visitor, e.limit, e.types); }
      else { GrowKeepsAllowances(t, u); }
    }
  }

  lemma InterruptKeepsInv(t: Tables, a: nat)
    requires Inv(t)
    ensures Inv(Interrupt(t, a))
  {
    hide Inv;
    var u := Interrupt(t, a);
    if u != t { CloseKeepsInv(t, u, a); }
  }

  lemma EmptyInv(now: int, lock: nat, world: World)
    ensures Inv(Empty(now, lock, world))
  {
  }
}
