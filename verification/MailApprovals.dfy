/** What the approvals of emails write. */
module MailApprovals {
  // Over every run, on the columns of the tables.

  import opened Options
  import opened MailTables
  import opened MailProtocol
  import opened MailInvariant
  import opened MailLife
  import opened MailSending
  import opened MailTheorems
  import opened MailDrafts
  import opened MailOutcomes

  /** The message is queued, with the approval and its time. */
  function QueuedRow(x: Message, actor: nat, now: int): Message {
    x.(status := QUEUED, approved := Some(actor), updated := now, mark := Clear)
  }

  lemma ApproveMeans(t: Post, m: nat, actor: nat, status: Status)
    requires LifeInv(t) && m < |t.messages| && status in {DRAFT, PENDING_APPROVAL}
    ensures Known(t, m)
    ensures ApproveDraft(t, m, actor, status)
            == if t.messages[m].status == status && CanGoOut(t, t.messages[m])
               then (t.(messages := t.messages[m := QueuedRow(t.messages[m], actor, t.now)]), Ok(m))
               else (t, Error(EMAIL_NOT_DELIVERABLE))
  {
    PreviewMeans(t, m, status);
    assert MessageOk(t, m);
    hide PreviewProblem, CanGoOut;
  }

  // ---- One message ----

  /** The message is about a credential of the employee, or about this visitor QR. */
  ghost predicate OwnedBy(t: Post, m: nat, owner: nat)
    requires m < |t.messages| && t.messages[m].qr < |t.credentials|
  {
    var q := t.messages[m].qr;
    if t.credentials[q].kind == EMPLOYEE then t.credentials[q].owner == Some(owner) else q == owner && q in t.allocations
  }

  lemma OwnerMeans(t: Post, m: nat, owner: nat)
    requires LifeInv(t) && m < |t.messages|
    ensures Known(t, m)
    ensures OwnedBy(t, m, owner) <==> OwnerOf(t, t.messages[m].qr).Some? && OwnerOf(t, t.messages[m].qr).value.id == owner
  {
    assert MessageOk(t, m) && CredentialOk(t, t.messages[m].qr);
  }

  /** Over any run: a single draft that can go out is approved; one that was approved before is left as it is. */
  lemma WhatASingleApprovalStores(start: Start, es: seq<Event>, m: nat, owner: nat, actor: nat)
    ensures var t := After(start, es);
            var (u, outcome) := ApproveSingle(t, m, owner, actor);
            if m >= |t.messages| then u == t && outcome == Error(EMAIL_NOT_FOUND)
            else
              && t.messages[m].qr < |t.credentials|
              && var x := t.messages[m];
                 if !OwnedBy(t, m, owner) then u == t && outcome == Error(EMAIL_NOT_FOUND)
                 else if x.mode != SINGLE then u == t && outcome == Error(SINGLE_EMAIL_REQUIRED)
                 else if x.status == DRAFT && !CanGoOut(t, x) then u == t && outcome == Error(EMAIL_NOT_DELIVERABLE)
                 else
                   && outcome == Ok(m)
                   && u == if x.status == DRAFT then t.(messages := t.messages[m := QueuedRow(x, actor, t.now)]) else t
  {
    hide Run, CanGoOut, OwnedBy, ApproveDraft, OwnerOf;
    var t := After(start, es);
    Reached(start, es);
    if m < |t.messages| {
      OwnerMeans(t, m, owner);
      ApproveMeans(t, m, actor, DRAFT);
      assert MessageOk(t, m);
    }
    hide LifeInv;
  }

  // ---- Several messages ----

  /** Why a bulk approval naming message `m` is refused. */
  ghost predicate Misfit(t: Post, m: nat, code: Code) {
    && m < |t.messages|
    && var x := t.messages[m];
       if x.status == PENDING_APPROVAL || x.status == QUEUED then !CanGoOut(t, x) && code == EMAIL_NOT_DELIVERABLE
       else x.approved.None? && code == EMAIL_APPROVAL_REQUIRED
  }

  lemma MisfitMeans(t: Post, m: nat)
    requires LifeInv(t) && m < |t.messages| && t.messages[m].mode == BULK
    ensures Known(t, m) && (forall code :: BulkProblem(t, m) == Some(code) <==> Misfit(t, m, code))
  {
    PreviewMeans(t, m, PENDING_APPROVAL);
    PreviewMeans(t, m, QUEUED);
    assert MessageOk(t, m);
    hide PreviewProblem, CanGoOut;
  }

  /** Row `i` is the first that is refused. */
  ghost predicate FirstMisfit(t: Post, ids: seq<nat>, i: nat, code: Code) {
    i < |ids| && Misfit(t, ids[i], code) && forall j, c :: 0 <= j < i ==> !Misfit(t, ids[j], c)
  }

  lemma {:induction false} FirstProblemMeans(t: Post, ids: seq<nat>)
    requires LifeInv(t) && forall k :: 0 <= k < |ids| ==> Known(t, ids[k]) && t.messages[ids[k]].mode == BULK
    ensures var p := FirstProblem(t, ids);
            if p.Some? then exists i: nat :: FirstMisfit(t, ids, i, p.value)
            else forall j, c :: 0 <= j < |ids| ==> !Misfit(t, ids[j], c)
  {
    hide Misfit, BulkProblem, LifeInv;
    if ids != [] {
      var n := |ids| - 1;
      var rest := ids[..n];
      FirstProblemMeans(t, rest);
      MisfitMeans(t, ids[n]);
      assert forall j :: 0 <= j < n ==> rest[j] == ids[j];
      var p := FirstProblem(t, rest);
      if p.Some? {
        var i: nat :| FirstMisfit(t, rest, i, p.value);
        assert FirstMisfit(t, ids, i, p.value);
      } else {
        forall j, c | 0 <= j < n ensures !Misfit(t, ids[j], c) { assert !Misfit(t, rest[j], c); }
        if BulkProblem(t, ids[n]).Some? { assert FirstMisfit(t, ids, n, BulkProblem(t, ids[n]).value); }
      }
    }
  }

  /** Those of the messages that await approval. */
  function Waiting(t: Post, ids: seq<nat>): set<nat> {
    set m | m in ids && m < |t.messages| && t.messages[m].status == PENDING_APPROVAL
  }

  /** The messages in `s` are queued, all others as they were. */
  ghost predicate Approves(t: Post, u: Post, s: set<nat>, actor: nat) {
    && u == t.(messages := u.messages) && |u.messages| == |t.messages|
    && forall m :: 0 <= m < |t.messages| ==>
         u.messages[m] == if m in s then QueuedRow(t.messages[m], actor, t.now) else t.messages[m]
  }

  lemma NoneApproved(t: Post, actor: nat)
    ensures Approves(t, t, {}, actor)
  {
  }

  lemma OneMoreApproved(t: Post, u: Post, s: set<nat>, actor: nat, m: nat)
    requires Approves(t, u, s, actor) && m < |t.messages| && m !in s
    ensures Approves(t, u.(messages := u.messages[m := QueuedRow(u.messages[m], actor, u.now)]), s + {m}, actor)
  {
  }

  lemma WaitingGrows(t: Post, ids: seq<nat>)
    requires ids != [] && Distinct(ids) && forall k :: 0 <= k < |ids| ==> Known(t, ids[k])
    ensures var n := |ids| - 1;
            && ids[n] < |t.messages| && ids[n] !in Waiting(t, ids[..n])
            && Waiting(t, ids)
               == Waiting(t, ids[..n]) + (if t.messages[ids[n]].status == PENDING_APPROVAL then {ids[n]} else {})
  {
    var n := |ids| - 1;
    assert Known(t, ids[n]);
    assert ids == ids[..n] + [ids[n]];
    assert ids[n] !in ids[..n];
  }

  lemma {:induction false} ApproveRowsMeans(t: Post, ids: seq<nat>, actor: nat)
    requires LifeInv(t) && Distinct(ids) && forall k :: 0 <= k < |ids| ==> Known(t, ids[k])
    ensures var (u, outcome) := ApproveRows(t, ids, actor);
            Approves(t, u, Waiting(t, ids), actor) && outcome == Ok(|Waiting(t, ids)|)
  {
    hide LifeInv, Known, Approves, Waiting;
    if ids == [] {
      NoneApproved(t, actor);
      assert Waiting(t, []) == {} by { NobodyWaits(t); }
    } else {
      var n := |ids| - 1;
      var u := ApproveRows(t, ids[..n], actor).0;
      ApproveRowsMeans(t, ids[..n], actor);
      WaitingGrows(t, ids);
      if t.messages[ids[n]].status == PENDING_APPROVAL {
        OneMoreApproved(t, u, Waiting(t, ids[..n]), actor, ids[n]);
        NotApproved(t, u, Waiting(t, ids[..n]), actor, ids[n]);
      }
    }
  }

  lemma NobodyWaits(t: Post)
    ensures Waiting(t, []) == {}
  {
  }

  lemma NotApproved(t: Post, u: Post, s: set<nat>, actor: nat, m: nat)
    requires LifeInv(t) && Approves(t, u, s, actor) && m < |t.messages| && m !in s
    requires t.messages[m].status == PENDING_APPROVAL
    ensures m < |u.messages| && u.messages[m].approved.None?
  {
    assert MessageOk(t, m);
  }

  lemma AllKnown(t: Post, ids: seq<nat>)
    requires LifeInv(t)
    ensures forall i :: 0 <= i < |ids| ==> (Known(t, ids[i]) <==> ids[i] < |t.messages|)
  {
    forall i | 0 <= i < |ids| && ids[i] < |t.messages| ensures Known(t, ids[i]) { assert MessageOk(t, ids[i]); }
  }

  /** The listed messages are checked in order, and then those that wait are approved: all of them or none. */
  ghost predicate ApprovesListed(t: Post, u: Post, ids: seq<nat>, actor: nat, outcome: Outcome) {
    || (outcome.Error? && u == t && exists i: nat :: FirstMisfit(t, ids, i, outcome.code))
    || (&& outcome == Ok(|Waiting(t, ids)|) && Approves(t, u, Waiting(t, ids), actor)
        && forall j, c :: 0 <= j < |ids| ==> !Misfit(t, ids[j], c))
  }

  lemma ListedMeans(t: Post, ids: seq<nat>, actor: nat)
    requires LifeInv(t) && Distinct(ids)
    requires forall k :: 0 <= k < |ids| ==> Known(t, ids[k]) && t.messages[ids[k]].mode == BULK
    ensures var (u, outcome) := ApproveListed(t, ids, actor); ApprovesListed(t, u, ids, actor, outcome)
  {
    FirstProblemMeans(t, ids);
    ApproveRowsMeans(t, ids, actor);
    hide LifeInv, Known, FirstMisfit, Misfit, Approves, Waiting, FirstProblem, ApproveRows;
  }

  /** Over any run: a bulk approval names one to a hundred different messages, all of them bulk messages. */
  lemma WhatABulkApprovalStores(start: Start, es: seq<Event>, ids: seq<nat>, actor: nat)
    ensures var t := After(start, es);
            var (u, outcome) := ApproveBulk(t, ids, actor);
            if |ids| < 1 || 100 < |ids| || (exists i, j :: 0 <= i < j < |ids| && ids[i] == ids[j])
            then u == t && outcome == Error(INVALID_EMAIL_IDS)
            else if exists i :: 0 <= i < |ids| && ids[i] >= |t.messages| then u == t && outcome == Error(EMAIL_NOT_FOUND)
            else if exists i :: 0 <= i < |ids| && t.messages[ids[i]].mode == SINGLE
            then u == t && outcome == Error(BULK_EMAIL_REQUIRED)
            else ApprovesListed(t, u, ids, actor, outcome)
  {
    hide Run, LifeInv, ApprovesListed, FirstProblem, ApproveRows, Known;
    var t := After(start, es);
    Reached(start, es);
    AllKnown(t, ids);
    if Distinct(ids) && (forall k :: 0 <= k < |ids| ==> Known(t, ids[k]) && t.messages[ids[k]].mode == BULK) {
      ListedMeans(t, ids, actor);
    }
  }

  // ---- A visitor batch ----

  /** The messages of the batch that await approval. */
  function WaitingIn(t: Post, batch: nat): set<nat> {
    set m: nat | m < |t.messages| && t.messages[m].batch == Some(batch) && t.messages[m].status == PENDING_APPROVAL
  }

  /** What counts against the day's allowance: the rows SENT in the last day, and those queued. */
  function Booked(t: Post): nat {
    var sentLately := set m: nat | m < |t.messages| && t.messages[m].status == SENT
                                   && t.messages[m].updated >= t.now - 24 * 60 * 60 * 1_000_000;
    var queued := set m: nat | m < |t.messages| && t.messages[m].status == QUEUED;
    |sentLately| + |queued|
  }

  lemma RemainingMeans(t: Post, allowance: nat)
    ensures Remaining(t, allowance) == if Booked(t) < allowance then allowance - Booked(t) else 0
  {
    assert SentSince(t.messages, t.now - DAY)
        == set m: nat | m < |t.messages| && t.messages[m].status == SENT
                        && t.messages[m].updated >= t.now - 24 * 60 * 60 * 1_000_000;
    assert QueuedNow(t.messages) == set m: nat | m < |t.messages| && t.messages[m].status == QUEUED;
  }

  lemma {:induction false} PendingComplete(ms: seq<Message>, batch: nat, m: nat)
    ensures m in Pending(ms, batch)
            <==> m < |ms| && ms[m].batch == Some(batch) && ms[m].status == PENDING_APPROVAL
  {
    if ms != [] {
      var k := |ms| - 1;
      PendingComplete(ms[..k], batch, m);
      if m < k { assert ms[..k][m] == ms[m]; }
    }
  }

  lemma {:induction false} SizeOfDistinct(ids: seq<nat>)
    requires Distinct(ids)
    ensures |Those(ids)| == |ids|
  {
    if ids == [] {
      assert Those(ids) == {};
    } else {
      var n := |ids| - 1;
      SizeOfDistinct(ids[..n]);
      assert ids == ids[..n] + [ids[n]];
      assert Those(ids) == Those(ids[..n]) + {ids[n]} && ids[n] !in Those(ids[..n]);
    }
  }

  lemma PendingMeans(t: Post, batch: nat)
    requires LifeInv(t)
    ensures var ids := Pending(t.messages, batch);
            && Distinct(ids) && |ids| == |WaitingIn(t, batch)| && Waiting(t, ids) == WaitingIn(t, batch)
            && (forall m :: m in WaitingIn(t, batch) <==> m in ids)
            && forall k :: 0 <= k < |ids| ==>
                 && Known(t, ids[k]) && t.messages[ids[k]].mode == BULK && t.messages[ids[k]].status == PENDING_APPROVAL
  {
    var ids := Pending(t.messages, batch);
    forall m: nat ensures m in WaitingIn(t, batch) <==> m in ids { PendingComplete(t.messages, batch, m); }
    forall k | 0 <= k < |ids| ensures Known(t, ids[k]) && t.messages[ids[k]].mode == BULK { assert MessageOk(t, ids[k]); }
    SizeOfDistinct(ids);
    assert Those(ids) == WaitingIn(t, batch);
    assert Waiting(t, ids) == WaitingIn(t, batch);
  }

  /** Over any run: the waiting messages of a visitor batch are approved, if there are as many as the caller saw, they
      fit the day's allowance together with what is booked, and all of them can go out. */
  lemma WhatABatchApprovalStores(start: Start, es: seq<Event>, batch: nat, expected: nat, allowance: nat, actor: nat)
    ensures var t := After(start, es);
            var (u, outcome) := ApproveEmails(t, batch, expected, allowance, actor);
            var waiting := WaitingIn(t, batch);
            if waiting == {} then u == t && outcome == Error(VISITOR_BATCH_NOTHING_TO_SEND)
            else if |waiting| != expected then u == t && outcome == Error(EMAIL_COUNT_CHANGED)
            else if |waiting| + Booked(t) > allowance then u == t && outcome == Error(EMAIL_DAILY_LIMIT_EXCEEDED)
            else if exists m :: m in waiting && m < |t.messages| && !CanGoOut(t, t.messages[m])
            then u == t && outcome == Error(EMAIL_NOT_DELIVERABLE)
            else outcome == Ok(|waiting|) && Approves(t, u, waiting, actor)
  {
    hide Run, LifeInv, ApproveListed, Pending, WaitingIn, Booked, Remaining, CanGoOut, Approves, Known, Waiting;
    var t := After(start, es);
    Reached(start, es);
    var ids := Pending(t.messages, batch);
    PendingMeans(t, batch);
    RemainingMeans(t, allowance);
    ListedMeans(t, ids, actor);
    assert ids != [] ==> ids[0] in WaitingIn(t, batch);
    if m :| m in WaitingIn(t, batch) && m < |t.messages| && !CanGoOut(t, t.messages[m]) {
      var k :| 0 <= k < |ids| && ids[k] == m;
      assert Misfit(t, ids[k], EMAIL_NOT_DELIVERABLE);
    }
    var (u, outcome) := ApproveListed(t, ids, actor);
    if outcome.Error? {
      var i: nat :| FirstMisfit(t, ids, i, outcome.code);
      assert ids[i] in WaitingIn(t, batch);
    }
  }

  // ---- One visitor ----

  function Sent(ms: seq<Message>, q: nat, to: Address): set<nat> {
    set m: nat | m < |ms| && ms[m].qr == q && ms[m].recipient == to
  }

  lemma {:induction false} CountMeans(ms: seq<Message>, q: nat, to: Address)
    ensures CountTo(ms, q, to) == |Sent(ms, q, to)|
  {
    if ms == [] {
      assert Sent(ms, q, to) == {};
    } else {
      var k := |ms| - 1;
      CountMeans(ms[..k], q, to);
      assert Sent(ms, q, to) == Sent(ms[..k], q, to) + (if ms[k].qr == q && ms[k].recipient == to then {k} else {});
      assert k !in Sent(ms[..k], q, to);
    }
  }

  /** The latest email of a visitor: none, one under way, a draft, or one that is over. */
  ghost predicate LatestIs(t: Post, q: nat, m: nat, statuses: set<Status>) {
    IsLatest(t.messages, q, None, m) && t.messages[m].status in statuses
  }

  /** What preparing a visitor's email makes of an active QR with the address `to`. */
  ghost predicate Prepares(t: Post, u: Post, q: nat, to: Address, allowance: nat, actor: nat, outcome: Outcome)
    requires q < |t.credentials|
  {
    if exists m: nat :: LatestIs(t, q, m, {QUEUED, PENDING_APPROVAL}) then u == t && outcome == Error(EMAIL_ALREADY_PENDING)
    else if Booked(t) >= allowance then u == t && outcome == Error(EMAIL_DAILY_LIMIT_EXCEEDED)
    else if exists m: nat :: LatestIs(t, q, m, {DRAFT}) then
      exists m: nat :: LatestIs(t, q, m, {DRAFT}) && outcome == Ok(m) && Approves(t, u, {m}, actor)
    else if |Sent(t.messages, q, to)| > 3 then u == t && outcome == Error(EMAIL_RESEND_LIMIT_REACHED)
    else
      && outcome == Ok(|t.messages|) && u == t.(messages := u.messages)
      && u.messages == t.messages + [Message(q, to, Some(ForVisitor(q, t.credentials[q].token)), QUEUED, Clear, SINGLE, None,
                                             Some(actor), t.now)]
  }

  /** Over any run: an email of a visitor QR in use is approved at once: its latest one if that is a draft, or else a
      new one, unless one is under way, the day's allowance is used up, or more than three went to that address
      already. */
  lemma WhatPreparingAVisitorEmailStores(start: Start, es: seq<Event>, q: nat, allowance: nat, actor: nat)
    ensures var t := After(start, es);
            var (u, outcome) := PrepareSingle(t, q, allowance, actor);
            if q >= |t.credentials| || t.credentials[q].kind != MASTER || q !in t.allocations
            then u == t && outcome == Error(MASTER_QR_REQUIRED)
            else if t.allocations[q].email.None? then u == t && outcome == Error(VISITOR_EMAIL_MISSING)
            else if t.credentials[q].revoked || t.allocations[q].exhausted || !Unexpired(t.credentials[q], t.now)
            then u == t && outcome == Error(QR_NOT_ACTIVE)
            else Prepares(t, u, q, t.allocations[q].email.value, allowance, actor, outcome)
  {
    hide Run, LifeInv, Prepares, Latest, Remaining, ApproveDraft, Prepared;
    var t := After(start, es);
    Reached(start, es);
    if q < |t.credentials| && t.credentials[q].kind == MASTER && q in t.allocations && t.allocations[q].email.Some?
       && !t.credentials[q].revoked && !t.allocations[q].exhausted && Unexpired(t.credentials[q], t.now) {
      PrepareMeans(t, q, allowance, actor);
    }
  }

  ghost predicate InUse(t: Post, q: nat) {
    && q < |t.credentials| && t.credentials[q].kind == MASTER && q in t.allocations && t.allocations[q].email.Some?
    && !t.credentials[q].revoked && !t.allocations[q].exhausted && Unexpired(t.credentials[q], t.now)
  }

  lemma PrepareMeans(t: Post, q: nat, allowance: nat, actor: nat)
    requires LifeInv(t) && InUse(t, q)
    ensures var (u, outcome) := PrepareSingle(t, q, allowance, actor);
            Prepares(t, u, q, t.allocations[q].email.value, allowance, actor, outcome)
  {
    hide LifeInv, Latest, Remaining, ApproveDraft, Prepared, Booked, Approves, IsLatest, Sent, CanGoOut;
    var m := LatestFound(t.messages, q, None);
    RemainingMeans(t, allowance);
    PreparedMeans(t, q, actor);
    if m.Some? {
      LatestListed(t.messages, q, None, m.value);
      LatestRow(t, q, m.value);
      assert LatestIs(t, q, m.value, {QUEUED, PENDING_APPROVAL})
          <==> t.messages[m.value].status in {QUEUED, PENDING_APPROVAL};
      assert LatestIs(t, q, m.value, {DRAFT}) <==> t.messages[m.value].status == DRAFT;
      if t.messages[m.value].status == DRAFT {
        ApproveMeans(t, m.value, actor, DRAFT);
        OnlyOneApproved(t, m.value, actor);
      }
    }
  }

  lemma OnlyOneApproved(t: Post, m: nat, actor: nat)
    requires m < |t.messages|
    ensures Approves(t, t.(messages := t.messages[m := QueuedRow(t.messages[m], actor, t.now)]), {m}, actor)
  {
  }

  /** A draft of a visitor QR in use is a single one and can go out. */
  lemma LatestRow(t: Post, q: nat, m: nat)
    requires LifeInv(t) && InUse(t, q) && IsLatest(t.messages, q, None, m)
    ensures m < |t.messages| && t.messages[m].qr == q && CanGoOut(t, t.messages[m])
    ensures t.messages[m].status == DRAFT ==> t.messages[m].mode == SINGLE
  {
    assert MessageOk(t, m);
  }

  lemma PreparedMeans(t: Post, q: nat, actor: nat)
    requires LifeInv(t) && InUse(t, q)
    ensures var (u, outcome) := Prepared(t, q, actor);
            var to := t.allocations[q].email.value;
            if |Sent(t.messages, q, to)| > 3 then u == t && outcome == Error(EMAIL_RESEND_LIMIT_REACHED)
            else
              && outcome == Ok(|t.messages|) && u == t.(messages := u.messages)
              && u.messages == t.messages + [Message(q, to, Some(ForVisitor(q, t.credentials[q].token)), QUEUED, Clear,
                                                     SINGLE, None, Some(actor), t.now)]
  {
    hide ApproveDraft, CountTo, Sent;
    var to := t.allocations[q].email.value;
    CountMeans(t.messages, q, to);
    assert CredentialOk(t, q);
    var payload := ForVisitor(q, t.credentials[q].token);
    var v := AddMessage(t, q, to, payload, None);
    AddMessageFine(t, q, to, payload, None);
    FineKeeps(t, v);
    ApproveMeans(v, |t.messages|, actor, DRAFT);
    assert v.messages[|t.messages| := QueuedRow(v.messages[|t.messages|], actor, t.now)]
        == t.messages + [QueuedRow(v.messages[|t.messages|], actor, t.now)];
    hide LifeInv, Quiet;
  }
}
