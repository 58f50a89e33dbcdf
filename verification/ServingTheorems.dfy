/** The promises of the serving protocol. */
module ServingTheorems {
  // For every run from an empty database: any number of concurrent scans, retries, lost replies, crashes, ambiguous commits,
  // reconciliations, corrections and changes of reference data, in any order.

  import opened Options
  import opened ServingTables
  import opened ServingProtocol
  import opened ServingInvariant
  import opened ServingPreserved
  import opened ServingRuns

  /** A run from an empty database. */
  datatype Start = Start(now: int, lock: nat, world: World)

  ghost function After(start: Start, es: seq<Event>): Tables {
    Run(Empty(start.now, start.lock, start.world), es)
  }

  lemma AfterInv(start: Start, es: seq<Event>)
    ensures Inv(After(start, es))
  {
    EmptyInv(start.now, start.lock, start.world);
    RunKeeps(Empty(start.now, start.lock, start.world), es);
  }

  lemma {:induction false} RunAppend(t: Tables, es: seq<Event>, more: seq<Event>)
    ensures Run(t, es + more) == Run(Run(t, es), more)
    decreases es
  {
    if es == [] {
      assert es + more == more;
    } else {
      assert (es + more)[0] == es[0] && (es + more)[1..] == es[1..] + more;
      RunAppend(Step(t, es[0]), es[1..], more);
    }
  }

  // ---- One serving per request ----

  /** A succeeded request has exactly one serving, with meals numbered 1 to its quantity and no others; any other
      request has none. */
  lemma OneServingPerRequest(start: Start, es: seq<Event>, r: Uuid)
    requires r in After(start, es).requests
    ensures var t := After(start, es);
            if t.requests[r].status == SUCCEEDED then
              exists s: nat ::
                && s < |t.servings| && t.servings[s].request == r
                && (forall s' :: 0 <= s' < |t.servings| && t.servings[s'].request == r ==> s' == s)
                && t.servings[s].quantity == t.requests[r].hash.quantity >= 1
                && Numbered(t.meals, MealsOf(t.meals, s), s, t.servings[s])
                && (forall m :: 0 <= m < |t.meals| && t.meals[m].serving == s ==> m in MealsOf(t.meals, s))
            else forall s :: 0 <= s < |t.servings| ==> t.servings[s].request != r
  {
    AfterInv(start, es);
    hide Run;
    var t := After(start, es);
    assert RequestOk(t, r);
    if t.requests[r].status == SUCCEEDED {
      var s := ServingOf(t.servings, r);
      assert ServingOk(t, s);
      AllMealsFound(t.meals, s);
      assert Numbered(t.meals, MealsOf(t.meals, s), s, t.servings[s]);
    }
  }

  lemma {:induction false} AllMealsFound(meals: seq<Meal>, s: nat)
    ensures forall m :: 0 <= m < |meals| && meals[m].serving == s ==> m in MealsOf(meals, s)
  {
    if meals != [] { AllMealsFound(meals[..|meals| - 1], s); }
  }

  lemma MealsStay(t: Tables, u: Tables, s: nat)
    requires KeepsServings(t, u) && s < |t.servings|
    ensures MealsOf(u.meals, s) == MealsOf(t.meals, s)
  {
    assert u.meals == t.meals + u.meals[|t.meals|..];
    MealsOfAppend(t.meals, u.meals[|t.meals|..], s);
  }

  /** A final request never changes again: not its status, code or binding, and not its serving or meals. */
  lemma FinalIsForever(start: Start, es: seq<Event>, more: seq<Event>, r: Uuid)
    requires r in After(start, es).requests && Final(After(start, es).requests[r])
    ensures var t, u := After(start, es), After(start, es + more);
            && r in u.requests && u.requests[r] == t.requests[r]
            && forall s :: 0 <= s < |t.servings| && t.servings[s].request == r ==>
                 && s < |u.servings| && u.servings[s] == t.servings[s]
                 && ServingOf(u.servings, r) == s && MealsOf(u.meals, s) == MealsOf(t.meals, s)
  {
    AfterInv(start, es);
    AfterInv(start, es + more);
    RunAppend(Empty(start.now, start.lock, start.world), es, more);
    RunKeeps(After(start, es), more);
    hide Run;
    var t, u := After(start, es), After(start, es + more);
    forall s | 0 <= s < |t.servings| && t.servings[s].request == r
      ensures s < |u.servings| && u.servings[s] == t.servings[s]
      ensures ServingOf(u.servings, r) == s && MealsOf(u.meals, s) == MealsOf(t.meals, s)
    {
      MealsStay(t, u, s);
      OnlyServing(u, s);
    }
    hide Inv;
  }

  lemma OnlyServing(t: Tables, s: nat)
    requires OutcomeInv(t) && s < |t.servings|
    ensures ServingOf(t.servings, t.servings[s].request) == s
  {
    var i := ServingOf(t.servings, t.servings[s].request);
    if i < s { assert false; }
  }

  // ---- Binding to a proof ----

  /** Bound exactly when final, in every committed state. */
  lemma BoundExactlyWhenFinal(start: Start, es: seq<Event>, r: Uuid)
    requires r in After(start, es).requests
    ensures var row := After(start, es).requests[r]; row.bound.Some? <==> Final(row)
  {
    AfterInv(start, es);
    hide Run;
    assert RequestOk(After(start, es), r);
  }

  /** The step that makes a request final is the processing of one of its attempts, and binds the request to that
      attempt's proof. */
  lemma FinalizerBinds(t: Tables, e: Event, r: Uuid)
    requires Inv(t) && r in Step(t, e).requests && Final(Step(t, e).requests[r])
    requires r in t.requests ==> !Final(t.requests[r])
    ensures e.OnProcess? && e.attempt in t.calls && t.calls[e.attempt].request == r
    ensures Step(t, e).requests[r].bound == Some(t.calls[e.attempt].proof)
  {
    hide Receive, Process, Authorize, Correct, Issue, IssueVisitor, Inv;
    var u := Step(t, e);
    if e.OnReceive? { ReceiveLogs(t, e.actor, e.scan, e.reading, e.public, u); }
    else if e.OnProcess? { ProcessCases(t, e.attempt, e.actor, u); }
    else if !e.OnInterrupt? { OthersGrow(t, e, u); }
    hide Remembers, AttemptCloses, CallsGrow, Fits, NotLocked, Counts;
  }

  /** A binding is written once: at the end of any run it is still the proof of the attempt that finalized the
      request. */
  lemma BindingIsTheFinalizersProof(start: Start, before: seq<Event>, e: Event, after: seq<Event>, r: Uuid)
    requires r in After(start, before).requests ==> !Final(After(start, before).requests[r])
    requires r in Step(After(start, before), e).requests && Final(Step(After(start, before), e).requests[r])
    ensures var t, u := After(start, before), After(start, before + [e] + after);
            && e.OnProcess? && e.attempt in t.calls && t.calls[e.attempt].request == r
            && r in u.requests && u.requests[r].bound == Some(t.calls[e.attempt].proof)
  {
    var empty := Empty(start.now, start.lock, start.world);
    AfterInv(start, before);
    FinalizerBinds(After(start, before), e, r);
    RunAppend(empty, before, [e]);
    RunAppend(empty, before + [e], after);
    assert Run(After(start, before), [e]) == Step(After(start, before), e);
    StepKeepsInv(After(start, before), e);
    RunKeeps(Step(After(start, before), e), after);
    hide Run, Step, Inv;
  }

  /** The code IDEMPOTENCY_PROOF_UNAVAILABLE is never answered, by either half of the protocol; the codes the session
      and visitor-detail checks refuse with are others. */
  lemma ProofIsAlwaysAvailable(start: Start, es: seq<Event>, a: nat, actor: ActorCheck, scan: Scan, reading: bool,
                               public: bool)
    requires actor.Denied? ==> actor.code != IDEMPOTENCY_PROOF_UNAVAILABLE
    requires scan.visitor.BadVisitor? ==> scan.visitor.code != IDEMPOTENCY_PROOF_UNAVAILABLE
    ensures Receive(After(start, es), actor, scan, reading, public).1 != NotReceived(IDEMPOTENCY_PROOF_UNAVAILABLE)
    ensures var reply := Process(After(start, es), a, actor).1;
            reply.Answer? ==> reply.code != IDEMPOTENCY_PROOF_UNAVAILABLE
  {
    AfterInv(start, es);
    var t := After(start, es);
    ReceiveAvailable(t, actor, scan, reading, public);
    ProcessAvailable(t, a, actor);
    hide Run, Receive, Process, Inv;
  }

  lemma ReceiveAvailable(t: Tables, actor: ActorCheck, scan: Scan, reading: bool, public: bool)
    requires Inv(t) && (actor.Denied? ==> actor.code != IDEMPOTENCY_PROOF_UNAVAILABLE)
    requires scan.visitor.BadVisitor? ==> scan.visitor.code != IDEMPOTENCY_PROOF_UNAVAILABLE
    ensures Receive(t, actor, scan, reading, public).1 != NotReceived(IDEMPOTENCY_PROOF_UNAVAILABLE)
  {
    if scan.request.Some? && scan.request.value in t.requests { assert Provable(t, scan.request.value); }
    hide Inv, First, Locate, Logged;
  }

  lemma ProcessAvailable(t: Tables, a: nat, actor: ActorCheck)
    requires Inv(t) && (actor.Denied? ==> actor.code != IDEMPOTENCY_PROOF_UNAVAILABLE)
    ensures Process(t, a, actor).1.Answer? ==> Process(t, a, actor).1.code != IDEMPOTENCY_PROOF_UNAVAILABLE
  {
    hide Inv, Replay, Resolve, Decide, Closed, ProofDiffers;
    if a in t.calls && a < |t.attempts| && t.calls[a].request in t.requests && actor.Staff? {
      OpenFacts(t, a);
      if Final(t.requests[t.calls[a].request]) { ReplayAvailable(t, a, t.calls[a]); }
      ResolveAvailable(t, a, t.calls[a], actor.id);
    }
  }

  lemma ReplayAvailable(t: Tables, a: nat, call: Call)
    requires a < |t.attempts| && call.request in t.requests && RequestOk(t, call.request)
    requires Final(t.requests[call.request])
    ensures Replay(t, a, call).1.Answer? ==> Replay(t, a, call).1.code != IDEMPOTENCY_PROOF_UNAVAILABLE
  {
    hide ServingOf, MealsOf, Closed;
  }

  lemma ResolveAvailable(t: Tables, a: nat, call: Call, staff: nat)
    requires a < |t.attempts| && call.request in t.requests
    ensures Resolve(t, a, call, staff).1.Answer? ==> Resolve(t, a, call, staff).1.code != IDEMPOTENCY_PROOF_UNAVAILABLE
  {
    hide Decide, Recorded, Counted, Dismissed, Closed, Bind;
    if Decide(t, call, staff).Refuse? { RefusalCodes(t, call, staff); }
    else if Decide(t, call, staff).RefuseAttempt? { UndecidedCode(t, call, staff); }
  }

  lemma UndecidedCode(t: Tables, call: Call, staff: nat)
    requires Decide(t, call, staff).RefuseAttempt?
    ensures Decide(t, call, staff).code == VISITOR_DETAILS_REQUIRED
  {
    hide Locate, ScannerProblem, AuthorizationProblem, EmployeeProblem, AllowanceProblem;
  }

  // ---- Attempts ----

  /** Once an attempt has left RECEIVED its row is frozen. */
  lemma AttemptClosesOnce(start: Start, es: seq<Event>, more: seq<Event>, a: nat)
    requires a < |After(start, es).attempts| && After(start, es).attempts[a].outcome != RECEIVED
    ensures a < |After(start, es + more).attempts|
    ensures After(start, es + more).attempts[a] == After(start, es).attempts[a]
  {
    AfterInv(start, es);
    RunAppend(Empty(start.now, start.lock, start.world), es, more);
    RunKeeps(After(start, es), more);
    hide Run, Inv;
  }

  /** Successful attempts and servings correspond one to one, and they belong to the same request. */
  lemma AttemptsMatchServings(start: Start, es: seq<Event>)
    ensures var t := After(start, es);
            && (forall s :: 0 <= s < |t.servings| ==> Produced(t, s))
            && (forall a: nat, a': nat, s: nat :: Succeeded(t, a, s) && Succeeded(t, a', s) ==> a == a')
            && (forall a :: 0 <= a < |t.attempts| && t.attempts[a].outcome == SUCCESS ==>
                  && t.attempts[a].serving.Some? && t.attempts[a].serving.value < |t.servings|
                  && t.attempts[a].request == Some(t.servings[t.attempts[a].serving.value].request))
  {
    AfterInv(start, es);
    hide Run;
    var t := After(start, es);
    forall a | 0 <= a < |t.attempts| && t.attempts[a].outcome == SUCCESS
      ensures t.attempts[a].serving.Some? && t.attempts[a].serving.value < |t.servings|
      ensures t.attempts[a].request == Some(t.servings[t.attempts[a].serving.value].request)
    {
      assert AttemptOk(t, a);
    }
  }

  /** An attempt closed by interruption or reconciliation never yields a serving, however long the run goes on. */
  lemma InterruptedNeverServes(start: Start, es: seq<Event>, more: seq<Event>, a: nat, s: nat)
    requires a < |After(start, es).attempts| && After(start, es).attempts[a].outcome == RECEIVED
    ensures !Succeeded(After(start, es + [OnInterrupt(a)] + more), a, s)
  {
    var empty, t := Empty(start.now, start.lock, start.world), After(start, es);
    RunAppend(empty, es, [OnInterrupt(a)]);
    assert Run(t, [OnInterrupt(a)]) == Interrupt(t, a);
    AttemptClosesOnce(start, es + [OnInterrupt(a)], more, a);
    hide Run;
  }

  // ---- The meal-type lock ----

  /** With a fixed lock length, two servings of one employee with the same recorded type are at least that length
      apart, unless the earlier one was corrected or voided. */
  lemma ServingsAreALockApart(start: Start, es: seq<Event>, s: nat, s': nat)
    requires var t := After(start, es);
             && s < s' < |t.servings|
             && t.servings[s].employee.Some? && t.servings[s].employee == t.servings[s'].employee
             && t.servings[s].mealType == t.servings[s'].mealType
             && Untouched(t, s)
    ensures var t := After(start, es); t.servings[s'].at - t.servings[s].at >= start.lock
  {
    EmptyInv(start.now, start.lock, start.world);
    RunKeeps(Empty(start.now, start.lock, start.world), es);
    hide Run;
    assert Recurs(After(start, es), s, s');
  }

  /** With corrections: when an employee's serving is recorded, no unvoided meal of that employee which its latest
      correction gives the same type lies strictly inside the window (see `Blocks`). */
  lemma NothingInsideTheWindow(start: Start, es: seq<Event>, a: nat, actor: ActorCheck)
    requires ApprovesAnew(Process(After(start, es), a, actor).1)
    ensures var t := After(start, es);
            exists v :: Process(t, a, actor).0.servings == t.servings + [v]
                        && (v.employee.Some? && start.lock > 0 ==>
                              !Blocked(t, v.employee.value, v.mealType, t.now - start.lock))
  {
    hide Run, Inv, Process, Records, Open, Blocked, Keeps;
    AfterInv(start, es);
    LockIsFixed(start, es);
    var t := After(start, es);
    var u := Process(t, a, actor).0;
    ApprovalRecords(t, a, actor);
    var v :| Records(t, u, a, v);
    RecordsNotLocked(t, u, a, v);
  }

  lemma LockIsFixed(start: Start, es: seq<Event>)
    ensures After(start, es).lock == start.lock
  {
    EmptyInv(start.now, start.lock, start.world);
    RunKeeps(Empty(start.now, start.lock, start.world), es);
    hide Run, Inv;
  }

  lemma RecordsNotLocked(t: Tables, u: Tables, a: nat, v: Serving)
    requires Open(t, a) && Records(t, u, a, v)
    ensures u.servings == t.servings + [v] && NotLocked(t, v)
  {
    hide AttemptCloses, Finalizes, Fits, NotLocked, Counts, Open;
  }

  // ---- Visitor allowances ----

  /** Every type of a visitor QR has used exactly its committed servings and never more than its limit; the summary
      row shows the limit less the most any type has left, and is exhausted exactly when every type is. */
  lemma AllowancesCountServings(start: Start, es: seq<Event>, q: nat)
    requires q in After(start, es).allocations
    ensures var t := After(start, es);
            && q in t.allowances
            && var sum, types := t.allocations[q], t.allowances[q];
               && (forall k :: k in types ==>
                     && types[k].limit == sum.limit
                     && types[k].used == ServedOf(t.servings, q, k) <= types[k].limit
                     && (types[k].exhausted <==> types[k].used == types[k].limit))
               && IsMostRemaining(types, sum.limit - sum.used)
               && 0 <= sum.used <= sum.limit
               && (sum.exhausted <==> forall k :: k in types ==> types[k].exhausted)
  {
    AfterInv(start, es);
    hide Run;
    var t := After(start, es);
    assert AllocationOk(t, q);
    forall k | k in t.allowances[q] ensures AllowanceOk(t, q, k) {}
  }

  /** So the summary row never refuses a visitor who has meals of some type left. */
  lemma SummaryNeverBlocks(start: Start, es: seq<Event>, q: nat, k: int)
    requires var t := After(start, es);
             && q in t.allocations && q in t.allowances && k in t.allowances[q]
             && ServedOf(t.servings, q, k) < t.allocations[q].limit
    ensures var t := After(start, es);
            !t.allocations[q].exhausted && t.allocations[q].used < t.allocations[q].limit
            && AllowanceProblem(t, q, k).None?
  {
    AllowancesCountServings(start, es, q);
    hide Run;
  }

  /** What one approval consumes: one serving with its meals, and one use of its QR's allowance if it has one. */
  ghost predicate Consumes(t: Tables, u: Tables, v: Serving) {
    && u.servings == t.servings + [v]
    && |u.meals| == |t.meals| + v.quantity
    && (if v.qr in t.allocations then
          && v.qr in t.allowances && v.mealType in t.allowances[v.qr]
          && u.allowances == t.allowances[
               v.qr := t.allowances[v.qr][v.mealType := UseAllowance(t.allowances[v.qr][v.mealType])]]
        else u.allowances == t.allowances && u.allocations == t.allocations)
  }

  /** Processing that does not newly approve consumes nothing; processing that does consumes one serving. */
  lemma OnlyApprovalConsumes(start: Start, es: seq<Event>, a: nat, actor: ActorCheck)
    ensures var t := After(start, es);
            var (u, reply) := Process(t, a, actor);
            if ApprovesAnew(reply) then
              a in t.calls && exists v: Serving :: v.request == t.calls[a].request && Consumes(t, u, v)
            else
              && u.servings == t.servings && u.meals == t.meals
              && u.allowances == t.allowances && u.allocations == t.allocations
  {
    AfterInv(start, es);
    hide Run, Inv, Process, Consumes, Records, Open, Processed;
    var t := After(start, es);
    var (u, reply) := Process(t, a, actor);
    ApprovalRecords(t, a, actor);
    if ApprovesAnew(reply) {
      var v :| Records(t, u, a, v);
      RecordsConsume(t, u, a, v);
    } else {
      ProcessCases(t, a, actor, u);
      NoServingNoUse(t, u, a);
    }
  }

  lemma RecordsConsume(t: Tables, u: Tables, a: nat, v: Serving)
    requires Open(t, a) && Records(t, u, a, v)
    ensures a in t.calls && v.request == t.calls[a].request && Consumes(t, u, v)
  {
    hide AttemptCloses, Finalizes, NotLocked, Summarize;
  }

  lemma NoServingNoUse(t: Tables, u: Tables, a: nat)
    requires Processed(t, u, a) && u.servings == t.servings
    ensures u.meals == t.meals && u.allowances == t.allowances && u.allocations == t.allocations
  {
    hide AttemptCloses, Finalizes, Fits, NotLocked, Counts, Open;
  }

  ghost predicate ApprovesAnew(reply: Reply) { reply.Answer? && reply.approved && !reply.duplicate }

  /** A new approval is answered exactly when a serving is recorded. */
  lemma ApprovalRecords(t: Tables, a: nat, actor: ActorCheck)
    requires Inv(t)
    ensures var (u, reply) := Process(t, a, actor);
            if ApprovesAnew(reply) then Open(t, a) && exists v :: Records(t, u, a, v) else u.servings == t.servings
  {
    hide Inv, Resolve, Replay, Records;
    if a in t.calls && a < |t.attempts| && t.calls[a].request in t.requests {
      ReplayServesNothing(t, a, t.calls[a]);
      if Open(t, a) { ResolveServes(t, a, t.calls[a].staff); }
    }
  }

  lemma ReplayServesNothing(t: Tables, a: nat, call: Call)
    requires a < |t.attempts| && call.request in t.requests
    ensures !ApprovesAnew(Replay(t, a, call).1) && Replay(t, a, call).0.servings == t.servings
  {
    hide ServingOf, MealsOf;
  }

  lemma ResolveServes(t: Tables, a: nat, staff: nat)
    requires Inv(t) && Open(t, a) && staff == t.calls[a].staff
    ensures var (u, reply) := Resolve(t, a, t.calls[a], staff);
            if ApprovesAnew(reply) then exists v :: Records(t, u, a, v) else u.servings == t.servings
  {
    hide Inv, Decide, Records, Recorded, Counted, Bind;
    var u, c, v := Resolve(t, a, t.calls[a], staff).0, t.calls[a], Decide(t, t.calls[a], staff);
    if ApprovesAnew(Resolve(t, a, c, staff).1) {
      RecordedRecords(t, a, staff, v, u);
      assert Records(t, u, a, NewServing(t, c, staff, v));
    }
  }
}
