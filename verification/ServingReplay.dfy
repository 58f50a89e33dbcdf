/** Retries and their answers. */
module ServingReplay {
  // What a scan repeated under the same request id is answered, unchanged or changed.

  import opened Options
  import opened ServingTables
  import opened ServingProtocol
  import opened ServingInvariant
  import opened ServingPreserved
  import opened ServingRuns
  import opened ServingTheorems

  /** The answer a final request stands for. */
  function Original(t: Tables, r: Uuid): Reply
    requires r in t.requests
  {
    var row := t.requests[r];
    if row.status == SUCCEEDED then
      var s := ServingOf(t.servings, r);
      Answer(true, APPROVED, Some(s), MealsOf(t.meals, s), true)
    else Answer(false, if row.code.Some? then row.code.value else PROCESSING_UNCONFIRMED, None, [], true)
  }

  /** The scan shows everything the final request `row` was fixed to, except possibly the scanner code. */
  predicate Repeats(row: Request, actor: ActorCheck, scan: Scan, reading: bool) {
    && Complaint(actor, scan, reading).None?
    && scan.token == Some(row.hash.token)
    && actor == Staff(row.hash.staff)
    && scan.mealType == row.hash.mealType
    && scan.quantity == row.hash.quantity
    && (reading || row.bound == Some(ScanProof(scan)))
  }

  /** The scanner code reported by the earliest attempt that carries the request's hash. */
  function FirstCode(t: Tables, r: Uuid): Option<string>
    requires r in t.requests
  {
    var i := First(t.attempts, r, t.requests[r].hash);
    if i < |t.attempts| then t.attempts[i].reported else None
  }

  // ---- The first answer ----

  /** The reply given when a request becomes final is the one its retries will get, marked as no duplicate. */
  lemma FirstAnswerIsOriginal(t: Tables, a: nat, actor: ActorCheck)
    requires Inv(t) && a in t.calls && t.calls[a].request in t.requests && !Final(t.requests[t.calls[a].request])
    ensures var (u, reply) := Process(t, a, actor);
            var r := t.calls[a].request;
            r in u.requests && (Final(u.requests[r]) ==>
              reply.Answer? && !reply.duplicate && reply.(duplicate := true) == Original(u, r))
  {
    hide Inv, Resolve, Original;
    var c := t.calls[a];
    OpenFacts(t, a);
    if Open(t, a) && actor == Staff(c.staff) {
      ResolveAnswers(t, a, c.staff);
    }
  }

  lemma ResolveAnswers(t: Tables, a: nat, staff: nat)
    requires Inv(t) && Open(t, a) && staff == t.calls[a].staff
    ensures var (u, reply) := Resolve(t, a, t.calls[a], staff);
            var r := t.calls[a].request;
            r in u.requests && (Final(u.requests[r]) ==>
              reply.Answer? && !reply.duplicate && reply.(duplicate := true) == Original(u, r))
  {
    hide Inv, Decide, Recorded, Counted, Records;
    var c := t.calls[a];
    var (u, reply) := Resolve(t, a, c, staff);
    var v := Decide(t, c, staff);
    OpenFacts(t, a);
    if ApprovesAnew(reply) {
      RecordedRecords(t, a, staff, v, u);
      RecordedAnswer(t, u, a, NewServing(t, c, staff, v));
    } else if v.Await? || v.RefuseAttempt? {
      UndecidedIsDeferred(t, c, staff);
    }
  }

  lemma RecordedAnswer(t: Tables, u: Tables, a: nat, v: Serving)
    requires Inv(t) && Open(t, a) && Records(t, u, a, v)
    ensures var r := t.calls[a].request;
            r in u.requests && u.requests[r].status == SUCCEEDED && ServingOf(u.servings, r) == |t.servings|
            && MealsOf(u.meals, |t.servings|) == FreshIds(|t.meals|, v.quantity)
  {
    RecordKeepsInv(t, u, a, v);
    OnlyServing(u, |t.servings|);
    MealsOfNew(t.meals, Units(|t.servings|, v.quantity, v.at), |t.servings|);
    hide Counts, NotLocked;
  }

  // ---- Every later answer ----

  /** A repetition is received if and only if it names the scanner code of the earliest attempt with the request's
      hash; it is then identified by that hash wherever the scanner stands now. */
  lemma RepetitionReceived(t: Tables, r: Uuid, actor: ActorCheck, scan: Scan, reading: bool, public: bool)
    requires Inv(t) && r in t.requests && Final(t.requests[r])
    requires scan.request == Some(r) && Repeats(t.requests[r], actor, scan, reading)
    ensures var (u, reception) := Receive(t, actor, scan, reading, public);
            if scan.code == FirstCode(t, r) then
              && reception.Received? && reception.attempt == |t.attempts|
              && reception.attempt in u.calls && u.calls[reception.attempt] == reception.call
              && reception.call.request == r && reception.call.fingerprint == t.requests[r].hash
              && reception.call.staff == t.requests[r].hash.staff
              && reception.call.proof == ScanProof(scan) && reception.call.reading == reading
            else reception == NotReceived(IDEMPOTENCY_KEY_REUSED)
  {
    assert Provable(t, r);
    Accepted(actor, scan, reading);
    hide Inv, Locate, Complaint;
  }

  /** A received repetition, processed while its attempt is still open, is answered as the request was. */
  lemma RepetitionAnswered(t: Tables, r: Uuid, a: nat)
    requires Inv(t) && r in t.requests && Final(t.requests[r])
    requires a in t.calls && a < |t.attempts| && t.attempts[a].outcome == RECEIVED
    requires t.calls[a].request == r && t.calls[a].fingerprint == t.requests[r].hash
    requires t.calls[a].reading || t.requests[r].bound == Some(t.calls[a].proof)
    ensures Process(t, a, Staff(t.calls[a].staff)).1 == Original(t, r)
  {
    hide Inv, MealsOf, ServingOf, Closed;
    FinalFacts(t, r);
  }

  lemma FinalFacts(t: Tables, r: Uuid)
    requires Inv(t) && r in t.requests && Final(t.requests[r])
    ensures RequestOk(t, r)
    ensures t.requests[r].status == SUCCEEDED ==>
              var s := ServingOf(t.servings, r);
              s < |t.servings| && t.servings[s].authorization == t.requests[r].bound.value.authorization
  {
    assert RequestOk(t, r);
    if t.requests[r].status == SUCCEEDED { assert ServingOk(t, ServingOf(t.servings, r)); }
  }

  /** Replay stability.  Whatever happened since the request became final, and whatever happens between receiving and
      processing the retry, the retry gets the original serving and meals or the original code: if and only if it names
      the scanner code of the earliest attempt with the request's hash. */
  lemma RetryGetsTheOriginalAnswer(start: Start, es: seq<Event>, between: seq<Event>, r: Uuid,
                                   actor: ActorCheck, scan: Scan, reading: bool, public: bool)
    requires var t := After(start, es);
             && r in t.requests && Final(t.requests[r])
             && scan.request == Some(r) && Repeats(t.requests[r], actor, scan, reading)
    ensures var t := After(start, es);
            var reception := Receive(t, actor, scan, reading, public).1;
            if scan.code == FirstCode(t, r) then
              && reception.Received?
              && var u := Run(Receive(t, actor, scan, reading, public).0, between);
                 reception.attempt < |u.attempts|
                 && (u.attempts[reception.attempt].outcome == RECEIVED ==>
                       r in u.requests && Original(u, r) == Original(t, r)
                       && Process(u, reception.attempt, actor).1 == Original(t, r))
            else reception == NotReceived(IDEMPOTENCY_KEY_REUSED)
  {
    hide Inv, Receive, Process, Original, Complaint, Run;
    var t := After(start, es);
    AfterInv(start, es);
    RepetitionReceived(t, r, actor, scan, reading, public);
    if scan.code == FirstCode(t, r) {
      var (t', reception) := Receive(t, actor, scan, reading, public);
      var a := reception.attempt;
      var u := Run(t', between);
      ReceiveKeepsInv(t, actor, scan, reading, public);
      assert Step(t, OnReceive(actor, scan, reading, public)) == t';
      StepKeeps(t, OnReceive(actor, scan, reading, public));
      RunKeeps(t', between);
      KeepsTransitive(t, t', u);
      OriginalStays(t, u, r);
      RetryRemembered(t', u, a);
      if u.attempts[a].outcome == RECEIVED { RepetitionAnswered(u, r, a); }
    }
  }

  lemma RetryRemembered(t: Tables, u: Tables, a: nat)
    requires Inv(t) && Inv(u) && Keeps(t, u) && a in t.calls
    ensures a in u.calls && u.calls[a] == t.calls[a] && a < |u.attempts|
  {
    OpenFacts(u, a);
    hide Inv;
  }

  lemma OriginalStays(t: Tables, u: Tables, r: Uuid)
    requires Inv(t) && Inv(u) && Keeps(t, u) && r in t.requests && Final(t.requests[r])
    ensures r in u.requests && u.requests[r] == t.requests[r] && Original(u, r) == Original(t, r)
  {
    assert RequestOk(t, r);
    if t.requests[r].status == SUCCEEDED {
      var s := ServingOf(t.servings, r);
      assert u.servings[s] == t.servings[s];
      OnlyServing(u, s);
      MealsStay(t, u, s);
    }
    hide Inv, MealsOf;
  }

  // ---- Changed retries ----

  /** What the receipt of a scan says of it. */
  lemma ReceiptOf(t: Tables, actor: ActorCheck, scan: Scan, reading: bool, public: bool)
    requires Complaint(actor, scan, reading).None?
    ensures var (u, reception) := Receive(t, actor, scan, reading, public);
            reception.Received? ==>
              && reception.attempt in u.calls && u.calls[reception.attempt] == reception.call
              && var c := reception.call;
                 && Some(c.request) == scan.request && Some(c.fingerprint.token) == scan.token
                 && actor == Staff(c.fingerprint.staff) && c.fingerprint.mealType == scan.mealType
                 && c.fingerprint.quantity == scan.quantity && c.proof == ScanProof(scan) && c.reading == reading
  {
    Accepted(actor, scan, reading);
    hide Complaint, Identify, Reserved, Locate, Arrival, ScanProof;
  }

  /** A receipt with another fingerprint or proof than the final request's is never answered with its outcome. */
  lemma MismatchIsRefused(t: Tables, a: nat, actor: ActorCheck)
    requires a in t.calls && t.calls[a].request in t.requests
    requires var row, call := t.requests[t.calls[a].request], t.calls[a];
             && Final(row) && row.bound.Some?
             && (row.hash != call.fingerprint || (!call.reading && row.bound != Some(call.proof)))
    ensures var reply := Process(t, a, actor).1; reply.Unconfirmed? || (reply.Answer? && !reply.approved && !reply.duplicate)
  {
    hide Resolve, Replay, Closed;
  }

  /** The other half of replay stability.  A scan under the id of a final request that differs from it in the account,
      the credential, the meal type, the quantity or the proof is refused, whatever happens before it is processed. */
  lemma ChangedRetryIsRefused(start: Start, es: seq<Event>, between: seq<Event>, r: Uuid, actor: ActorCheck, scan: Scan,
                              reading: bool, public: bool, later: ActorCheck)
    requires var t := After(start, es);
             && r in t.requests && Final(t.requests[r]) && scan.request == Some(r)
             && Complaint(actor, scan, reading).None? && !Repeats(t.requests[r], actor, scan, reading)
    ensures var (u, reception) := Receive(After(start, es), actor, scan, reading, public);
            reception.Received? ==>
              var reply := Process(Run(u, between), reception.attempt, later).1;
              reply.Unconfirmed? || (reply.Answer? && !reply.approved && !reply.duplicate)
  {
    hide Inv, Receive, Process, Complaint, Run, ScanProof;
    var t := After(start, es);
    AfterInv(start, es);
    ReceiptOf(t, actor, scan, reading, public);
    var (t', reception) := Receive(t, actor, scan, reading, public);
    if reception.Received? {
      ReceiveKeepsInv(t, actor, scan, reading, public);
      assert Step(t, OnReceive(actor, scan, reading, public)) == t';
      StepKeeps(t, OnReceive(actor, scan, reading, public));
      RunKeeps(t', between);
      KeepsTransitive(t, t', Run(t', between));
      FinalFacts(t, r);
      FinalRowStays(t, Run(t', between), r);
      RetryRemembered(t', Run(t', between), reception.attempt);
      MismatchIsRefused(Run(t', between), reception.attempt, later);
    }
  }

  lemma FinalRowStays(t: Tables, u: Tables, r: Uuid)
    requires Keeps(t, u) && r in t.requests && Final(t.requests[r])
    ensures r in u.requests && u.requests[r] == t.requests[r]
  {
  }

  // ---- Where the promise fails, and where it cannot ----

  const NOWHERE := World(map[], map[], {}, {}, {}, {}, {})
  const FIRST_SCAN := Scan(Some(1), Some(7), 1, 1, None, NoVisitor, Some("A"), Some("A"))
  const SECOND_SCAN := FIRST_SCAN.(rawCode := Some("B"), code := Some("B"))

  lemma RunThree(t: Tables, x: Event, y: Event, z: Event)
    ensures Run(t, [x, y, z]) == Step(Step(Step(t, x), y), z)
  {
    hide Step;
    assert [x, y, z][1..] == [y, z] && [y, z][1..] == [z] && [z][1..] == [];
    assert Run(Step(Step(t, x), y), [z]) == Run(Step(Step(Step(t, x), y), z), []);
  }

  /** The state the counterexample reaches: attempt 0 still open, attempt 1 refused with its request. */
  function Stuck(): Tables {
    var place := Place(None, None);
    var hash := Fingerprint(7, 5, place, 1, 1);
    var first := Attempt(Some(1), Some(hash), Some(7), Some(5), place, Some("A"), RECEIVED, None, None, None, 0);
    var second := first.(reported := Some("B"), outcome := REFUSED, code := Some(UNKNOWN_SCANNER));
    var call := Call(1, hash, 7, 5, place, "A", 1, 1, Proof(None, None), false, false);
    Empty(0, 0, NOWHERE).(
      requests := map[1 := Request(hash, REJECTED, Some(UNKNOWN_SCANNER), Some(Proof(None, None)))],
      attempts := [first, second], calls := map[0 := call, 1 := call.(code := "B")])
  }

  lemma StuckIsReached()
    ensures After(Start(0, 0, NOWHERE), [OnReceive(Staff(5), FIRST_SCAN, false, false),
                                         OnReceive(Staff(5), SECOND_SCAN, false, false),
                                         OnProcess(1, Staff(5))]) == Stuck()
  {
    var t, u := Empty(0, 0, NOWHERE), Stuck();
    var x, y := OnReceive(Staff(5), FIRST_SCAN, false, false), OnReceive(Staff(5), SECOND_SCAN, false, false);
    RunThree(t, x, y, OnProcess(1, Staff(5)));
    var row := Request(u.requests[1].hash, PENDING, None, None);
    var t1 := t.(requests := map[1 := row], attempts := [u.attempts[0]], calls := map[0 := u.calls[0]]);
    assert Step(t, x) == t1;
    var t2 := u.(requests := map[1 := row], attempts := [u.attempts[0], u.attempts[0].(reported := Some("B"))]);
    assert Step(t1, y) == t2;
    assert Decide(t2, t2.calls[1], 5) == Refuse(UNKNOWN_SCANNER);
    assert Dismissed(t2, 1, t2.calls[1], UNKNOWN_SCANNER) == u;
  }

  /** Two unknown scanner codes give the same fingerprint.  If a scan naming the first is received but never processed,
      and one naming the second is refused, then repeating the second scan exactly is not answered with its refusal. */
  lemma ExactRetryCanBeRefused()
    ensures var t := After(Start(0, 0, NOWHERE), [OnReceive(Staff(5), FIRST_SCAN, false, false),
                                                  OnReceive(Staff(5), SECOND_SCAN, false, false),
                                                  OnProcess(1, Staff(5))]);
            && 1 in t.requests && t.requests[1].status == REJECTED && t.requests[1].code == Some(UNKNOWN_SCANNER)
            && Repeats(t.requests[1], Staff(5), SECOND_SCAN, false)
            && Receive(t, Staff(5), SECOND_SCAN, false, false).1 == NotReceived(IDEMPOTENCY_KEY_REUSED)
  {
    StuckIsReached();
    hide After;
    var u := Stuck();
    assert u.attempts[0].request == Some(1) && u.attempts[0].hash == Some(u.requests[1].hash);
    assert First(u.attempts, 1, u.requests[1].hash) == 0;
    assert "A" != "B" by { assert "A"[0] != "B"[0]; }
  }

  // ---- The public scanner ----

  /** The settings frozen for a public request id (a row of scan_app_requests). */
  datatype Mapping = Mapping(browser: nat, staff: nat, scanner: nat, mealType: int, code: string)

  /** `ScanAppService._scan`: the scan every try of the request `r` is built from. */
  function PublicScan(row: Mapping, r: Uuid, token: Option<Token>): Scan {
    Scan(Some(r), token, row.mealType, 1, None, NoVisitor, Some(row.code), Some(row.code))
  }

  /** Every scan in the run that names `r` is built from its frozen settings; the context is their staff account. */
  ghost predicate OnlyPublic(e: Event, r: Uuid, row: Mapping) {
    e.OnReceive? && e.actor.Staff? && e.scan.request == Some(r) ==>
      e.actor.id == row.staff && !e.reading && exists token :: e.scan == PublicScan(row, r, token)
  }

  /** All that is recorded of `r` repeats the frozen settings. */
  ghost predicate Frozen(t: Tables, r: Uuid, row: Mapping) {
    && (forall a :: 0 <= a < |t.attempts| && t.attempts[a].request == Some(r) ==>
          && t.attempts[a].reported == Some(row.code) && t.attempts[a].hash.Some?
          && t.attempts[a].hash.value.staff == row.staff
          && t.attempts[a].hash.value.mealType == row.mealType && t.attempts[a].hash.value.quantity == 1)
    && (forall a :: a in t.calls && t.calls[a].request == r ==> t.calls[a].proof == Proof(None, None))
    && (r in t.requests && t.requests[r].bound.Some? ==> t.requests[r].bound.value == Proof(None, None))
  }

  /** The attempt row an accepted scan adds. */
  lemma AcceptedRow(t: Tables, staff: nat, scan: Scan, reading: bool, public: bool) returns (x: Attempt)
    requires scan.request.Some? && scan.token.Some? && scan.code.Some? && scan.quantity >= 0
    ensures Accept(t, staff, scan, reading, public).0.attempts == t.attempts + [x]
    ensures x.request == scan.request && x.reported == scan.code
    ensures x.hash.Some? && x.hash.value.staff == staff
    ensures x.hash.value.mealType == scan.mealType && x.hash.value.quantity == scan.quantity
  {
    hide Identify, Reserved, Locate;
    var u := Accept(t, staff, scan, reading, public).0;
    x := u.attempts[|t.attempts|];
  }

  /** The call it starts, if it was identified. */
  lemma AcceptedCall(t: Tables, staff: nat, scan: Scan, reading: bool, public: bool)
    requires scan.request.Some? && scan.token.Some? && scan.code.Some? && scan.quantity >= 0
    ensures var (u, reception) := Accept(t, staff, scan, reading, public);
            if reception.Received? then
              && u.calls == t.calls[|t.attempts| := reception.call]
              && reception.call.proof == ScanProof(scan) && reception.call.request == scan.request.value
            else u.calls == t.calls
  {
    hide Identify, Reserved, Locate;
  }

  lemma AcceptFreezes(t: Tables, e: Event, r: Uuid, row: Mapping)
    requires Inv(t) && Frozen(t, r, row) && e.OnReceive? && OnlyPublic(e, r, row)
    ensures Frozen(Step(t, e), r, row)
  {
    hide Inv, Complaint, Accept, Decline, Remembers, CallsGrow;
    var u := Step(t, e);
    ReceiveLogs(t, e.actor, e.scan, e.reading, e.public, u);
    if Complaint(e.actor, e.scan, e.reading).None? {
      Accepted(e.actor, e.scan, e.reading);
      var x := AcceptedRow(t, e.actor.id, e.scan, e.reading, e.public);
      AcceptedCall(t, e.actor.id, e.scan, e.reading, e.public);
    } else {
      Declined(t, e.actor, e.scan, Complaint(e.actor, e.scan, e.reading).value);
    }
  }

  lemma Declined(t: Tables, actor: ActorCheck, scan: Scan, code: Code)
    ensures var u := Decline(t, actor, scan, code).0;
            |u.attempts| == |t.attempts| + 1 && u.attempts[|t.attempts|].request.None? && u.calls == t.calls
  {
    hide Locate;
  }

  lemma StepFreezes(t: Tables, e: Event, r: Uuid, row: Mapping)
    requires Inv(t) && Frozen(t, r, row) && OnlyPublic(e, r, row)
    ensures Frozen(Step(t, e), r, row)
  {
    hide Receive, Process, Authorize, Correct, Issue, IssueVisitor, Inv, OnlyPublic;
    var u := Step(t, e);
    if e.OnReceive? { AcceptFreezes(t, e, r, row); }
    else if e.OnProcess? {
      ProcessCases(t, e.attempt, e.actor, u);
      ProcessFreezes(t, u, e.attempt, r, row);
    } else if !e.OnInterrupt? { OthersGrow(t, e, u); }
    hide Frozen;
  }

  lemma ProcessFreezes(t: Tables, u: Tables, a: nat, r: Uuid, row: Mapping)
    requires Frozen(t, r, row) && Processed(t, u, a)
    ensures Frozen(u, r, row)
  {
    hide AttemptCloses, Finalizes, Fits, NotLocked, Counts, Open, Frozen;
    if u != t { CloseFreezes(t, u, a, r, row); }
  }

  lemma CloseFreezes(t: Tables, u: Tables, a: nat, r: Uuid, row: Mapping)
    requires Frozen(t, r, row) && AttemptCloses(t, u, a) && u.calls == t.calls
    requires u.requests == t.requests || (Open(t, a) && Finalizes(t, u, a))
    ensures Frozen(u, r, row)
  {
    forall b | 0 <= b < |u.attempts|
      ensures u.attempts[b] == t.attempts[b].(outcome := u.attempts[b].outcome, code := u.attempts[b].code,
                                              serving := u.attempts[b].serving, qr := u.attempts[b].qr)
    {
    }
    hide AttemptCloses;
  }

  lemma {:induction false} RunFreezes(t: Tables, es: seq<Event>, r: Uuid, row: Mapping)
    requires Inv(t) && Frozen(t, r, row) && forall i :: 0 <= i < |es| ==> OnlyPublic(es[i], r, row)
    ensures Frozen(Run(t, es), r, row)
    decreases es
  {
    hide Inv, Frozen, OnlyPublic, Step;
    if es != [] {
      StepKeepsInv(t, es[0]);
      StepFreezes(t, es[0], r, row);
      RunFreezes(Step(t, es[0]), es[1..], r, row);
    }
  }

  lemma FinalProvable(t: Tables, r: Uuid)
    requires Inv(t) && r in t.requests && Final(t.requests[r])
    ensures Provable(t, r) && RequestOk(t, r)
  {
  }

  /** For the public scanner the promise holds without a condition: since every try of a request id uses its frozen
      settings, a retry showing the token the request was made with is always identified, and one showing another token
      never is. */
  lemma PublicRetryIsIdentified(start: Start, es: seq<Event>, r: Uuid, row: Mapping, token: Token)
    requires forall i :: 0 <= i < |es| ==> OnlyPublic(es[i], r, row)
    requires var t := After(start, es); r in t.requests && Final(t.requests[r])
    requires Identifier(row.mealType)
    ensures var t := After(start, es);
            var scan := PublicScan(row, r, Some(token));
            && scan.code == FirstCode(t, r)
            && (token == t.requests[r].hash.token <==> Repeats(t.requests[r], Staff(row.staff), scan, false))
  {
    hide Run, Inv;
    AfterInv(start, es);
    EmptyInv(start.now, start.lock, start.world);
    RunFreezes(Empty(start.now, start.lock, start.world), es, r, row);
    FinalProvable(After(start, es), r);
  }
}
