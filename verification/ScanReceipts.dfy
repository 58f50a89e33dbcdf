/** The recovery lookup. */
module ScanReceipts {
  // What a scanner that lost a reply is shown for its request id.

  import opened Options
  import opened ServingTables
  import opened ServingProtocol
  import opened ServingInvariant
  import opened ServingPreserved
  import opened ServingRuns
  import opened ServingTheorems
  import opened ServingReplay
  import opened ServingDecisions

  datatype Lookup = Shown(reply: Reply) | Hidden(code: Code)

  /** `_request`: the caller made the serving, holds its approval, or made an attempt with the request's own hash. */
  predicate Owns(t: Tables, staff: nat, r: Uuid)
    requires r in t.requests
  {
    || (exists s | 0 <= s < |t.servings| :: t.servings[s].request == r && t.servings[s].waiter == staff)
    || (r in t.authorizations && t.authorizations[r].waiter == staff)
    || (exists a | 0 <= a < |t.attempts| ::
          t.attempts[a].request == Some(r) && t.attempts[a].hash == Some(t.requests[r].hash)
          && t.attempts[a].staff == Some(staff))
  }

  /** The meals found for a serving are all there: as many as served, distinct, numbered 1, 2, ... */
  predicate Complete(t: Tables, s: nat, ids: seq<nat>)
    requires s < |t.servings|
  {
    var q := t.servings[s].quantity;
    && q > 0 && |ids| == q
    && (forall i, j :: 0 <= i < j < |ids| ==> ids[i] != ids[j])
    && (forall i :: 0 <= i < |ids| ==>
          ids[i] < |t.meals| && t.meals[ids[i]].unit == i + 1 && t.meals[ids[i]].quantity == q)
  }

  const UNCONFIRMED := Answer(false, PROCESSING_UNCONFIRMED, None, [], true)

  /** `ScanReceiptService.result` */
  function Result(t: Tables, staff: nat, r: Uuid): Lookup {
    if r !in t.requests || !Owns(t, staff, r) then Hidden(SCAN_RECEIPT_NOT_FOUND)
    else if t.requests[r].status == PENDING then Shown(UNCONFIRMED)
    else if t.requests[r].status == REJECTED then
      Shown(if t.requests[r].code.Some? then UNCONFIRMED.(code := t.requests[r].code.value) else UNCONFIRMED)
    else
      var s := ServingOf(t.servings, r);
      if s == |t.servings| || t.servings[s].waiter != staff then Hidden(SCAN_RECEIPT_NOT_FOUND)
      else if Complete(t, s, MealsOf(t.meals, s)) then Shown(Answer(true, APPROVED, Some(s), MealsOf(t.meals, s), true))
      else Shown(UNCONFIRMED)
  }

  lemma OwnersAreStaff(t: Tables, staff: nat, r: Uuid)
    requires Inv(t) && r in t.requests && Owns(t, staff, r)
    ensures staff == t.requests[r].hash.staff
  {
    if s :| 0 <= s < |t.servings| && t.servings[s].request == r && t.servings[s].waiter == staff {
      assert ServingOk(t, s);
    }
  }

  /** Only the account a request was made for is ever shown anything about it. */
  lemma OthersSeeNothing(start: Start, es: seq<Event>, staff: nat, r: Uuid)
    ensures var t := After(start, es);
            r in t.requests && staff != t.requests[r].hash.staff ==>
              Result(t, staff, r) == Hidden(SCAN_RECEIPT_NOT_FOUND)
  {
    AfterInv(start, es);
    var t := After(start, es);
    if r in t.requests && Owns(t, staff, r) { OwnersAreStaff(t, staff, r); }
    hide Run, Inv;
  }

  lemma MealsComplete(t: Tables, s: nat)
    requires MealsInv(t) && OutcomeInv(t) && s < |t.servings|
    ensures Complete(t, s, MealsOf(t.meals, s))
  {
    assert ServingOk(t, s);
    assert Numbered(t.meals, MealsOf(t.meals, s), s, t.servings[s]);
  }

  /** And that account is shown the original answer of its final request, the same a retry gets. */
  lemma LookupShowsTheOriginalAnswer(start: Start, es: seq<Event>, r: Uuid)
    requires r in After(start, es).requests && Final(After(start, es).requests[r])
    ensures var t := After(start, es);
            Result(t, t.requests[r].hash.staff, r) == Shown(Original(t, r))
  {
    AfterInv(start, es);
    OwnerFound(After(start, es), r);
    hide Run, Inv, Owns, Complete, MealsOf, ServingOf;
  }

  lemma OwnerFound(t: Tables, r: Uuid)
    requires Inv(t) && r in t.requests && Final(t.requests[r])
    ensures Owns(t, t.requests[r].hash.staff, r) && RequestOk(t, r)
    ensures t.requests[r].status == SUCCEEDED ==>
              var s := ServingOf(t.servings, r);
              && s < |t.servings| && t.servings[s].waiter == t.requests[r].hash.staff
              && Complete(t, s, MealsOf(t.meals, s))
  {
    FinalProvable(t, r);
    var i := First(t.attempts, r, t.requests[r].hash);
    assert t.attempts[i].staff == Some(t.requests[r].hash.staff);
    if t.requests[r].status == SUCCEEDED {
      var s := ServingOf(t.servings, r);
      MealsComplete(t, s);
      assert ServingOk(t, s);
    }
    hide Inv, Complete;
  }

  // ---- Open requests ----

  /** Something of the account the request was made for is there: an attempt with its fingerprint, or an approval. */
  ghost predicate Traced(t: Tables, r: Uuid)
    requires r in t.requests
  {
    || r in t.authorizations
    || exists a: nat ::
         a < |t.attempts| && t.attempts[a].request == Some(r) && t.attempts[a].hash == Some(t.requests[r].hash)
  }

  lemma StillTraced(t: Tables, u: Tables, r: Uuid)
    requires r in t.requests && Traced(t, r) && Keeps(t, u) && t.authorizations.Keys <= u.authorizations.Keys
    ensures r in u.requests && Traced(u, r)
  {
    if r !in t.authorizations {
      var a: nat :| a < |t.attempts| && t.attempts[a].request == Some(r) && t.attempts[a].hash == Some(t.requests[r].hash);
      assert u.attempts[a].request == Some(r) && u.attempts[a].hash == Some(u.requests[r].hash);
    }
  }

  /** What a step can add to the requests, and that approvals stay. */
  lemma StepTraces(t: Tables, e: Event, r: Uuid)
    requires Inv(t) && r in Step(t, e).requests
    ensures t.authorizations.Keys <= Step(t, e).authorizations.Keys
    ensures r !in t.requests ==> Traced(Step(t, e), r)
  {
    hide Inv, Receive, Process, Authorize, Correct, Issue, IssueVisitor;
    var u := Step(t, e);
    if e.OnReceive? {
      ReceiveLogs(t, e.actor, e.scan, e.reading, e.public, u);
      assert u.attempts[|t.attempts|] == u.attempts[|t.attempts|];
    } else if e.OnProcess? {
      ProcessCases(t, e.attempt, e.actor, u);
      ProcessAddsNothing(t, u, e.attempt);
    } else if e.OnAuthorize? {
      WhatAnApprovalStores(t, e.actor, e.approval, e.id);
    } else if e.OnCorrect? {
      CorrectShape(t, e.actor, e.meal, e.seen, e.to);
    } else if e.OnIssue? {
      IssueGrows(t, e.qr, e.credential, u);
    } else if e.OnIssueVisitor? {
      IssueVisitorGrows(t, e.qr, e.credential, e.visitor, e.limit, e.types, u);
    }
    hide Grows, StandsAt, ReservedFor;
  }

  lemma ProcessAddsNothing(t: Tables, u: Tables, a: nat)
    requires Processed(t, u, a)
    ensures u.requests.Keys == t.requests.Keys && u.authorizations == t.authorizations
  {
    hide AttemptCloses, Fits, NotLocked, Counts;
  }

  lemma {:induction false} AllTraced(t: Tables, es: seq<Event>, r: Uuid)
    requires Inv(t) && (r in t.requests ==> Traced(t, r)) && r in Run(t, es).requests
    ensures Traced(Run(t, es), r)
    decreases es
  {
    hide Inv, Traced, Step, Keeps;
    if es != [] {
      var u := Step(t, es[0]);
      StepKeepsInv(t, es[0]);
      StepKeeps(t, es[0]);
      if r in u.requests {
        StepTraces(t, es[0], r);
        if r in t.requests { StillTraced(t, u, r); }
      }
      AllTraced(u, es[1..], r);
    }
  }

  /** Over any run, the account a request was made for is always answered, by the outcome of the request or, while it is
      open, by the unconfirmed answer: it is never told that there is no such scan. */
  lemma OwnersAreAlwaysAnswered(start: Start, es: seq<Event>, r: Uuid)
    requires r in After(start, es).requests
    ensures var t := After(start, es);
            var shown := Result(t, t.requests[r].hash.staff, r);
            && shown.Shown?
            && (t.requests[r].status == PENDING ==>
                  shown.reply == Answer(false, PROCESSING_UNCONFIRMED, None, [], true))
  {
    hide Run, Inv, Original, Complete;
    var t := After(start, es);
    AfterInv(start, es);
    if Final(t.requests[r]) {
      LookupShowsTheOriginalAnswer(start, es, r);
    } else {
      EmptyInv(start.now, start.lock, start.world);
      AllTraced(Empty(start.now, start.lock, start.world), es, r);
      TracedIsOwned(t, r);
    }
  }

  lemma TracedIsOwned(t: Tables, r: Uuid)
    requires Inv(t) && r in t.requests && Traced(t, r)
    ensures Owns(t, t.requests[r].hash.staff, r)
  {
    if r !in t.authorizations {
      var a: nat :| a < |t.attempts| && t.attempts[a].request == Some(r) && t.attempts[a].hash == Some(t.requests[r].hash);
      assert t.attempts[a].staff == Some(t.requests[r].hash.staff);
    }
  }
}
