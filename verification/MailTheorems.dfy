/** The promises of the email protocol. */
module MailTheorems {
  // For every run from an empty database: any number of concurrent senders and administrators, crashes, and commits that
  // raise before or after taking effect.

  import opened Options
  import opened MailTables
  import opened MailProtocol
  import opened MailInvariant
  import opened MailLife
  import opened MailSending

  /** A run starts from empty tables; the daily limit is a setting, the refused addresses those of malformed or reserved
      domains. */
  datatype Start = Start(now: int, limit: Option<nat>, refused: map<Address, Code>)

  function After(start: Start, es: seq<Event>): Post { Run(Empty(start.now, start.limit, start.refused), es) }

  lemma AfterInv(start: Start, es: seq<Event>)
    ensures Inv(After(start, es)) && After(start, es).limit == start.limit
  {
    EmptyInv(start.now, start.limit, start.refused);
    RunGood(Empty(start.now, start.limit, start.refused), es);
    hide Inv, Run;
  }

  lemma {:induction false} RunAppend(t: Post, es: seq<Event>, more: seq<Event>)
    ensures Run(t, es + more) == Run(Run(t, es), more)
    decreases es
  {
    hide Step;
    if es == [] {
      assert es + more == more;
    } else {
      assert (es + more)[0] == es[0] && (es + more)[1..] == es[1..] + more;
      RunAppend(Step(t, es[0]), es[1..], more);
    }
  }

  lemma AfterMore(start: Start, es: seq<Event>, more: seq<Event>)
    ensures After(start, es + more) == Run(After(start, es), more)
    ensures Inv(After(start, es)) && Inv(After(start, es + more)) && Keeps(After(start, es), After(start, es + more))
  {
    RunAppend(Empty(start.now, start.limit, start.refused), es, more);
    AfterInv(start, es);
    RunGood(After(start, es), more);
    hide Inv, Keeps, Run;
  }

  lemma AfterOne(start: Start, es: seq<Event>, e: Event)
    ensures After(start, es + [e]) == Step(After(start, es), e)
  {
    hide Step;
    RunAppend(Empty(start.now, start.limit, start.refused), es, [e]);
    assert Run(Step(After(start, es), e), [e][1..]) == Step(After(start, es), e);
  }

  // ---- At most one provider call a message ----

  /** No two calls are ever made for the same row. */
  lemma AtMostOneCall(start: Start, es: seq<Event>)
    ensures var calls := After(start, es).calls;
            forall c, d :: 0 <= c < d < |calls| ==> calls[c].message != calls[d].message
  {
    AfterInv(start, es);
    hide Run;
  }

  /** A row only moves forward: out of the queue it never returns, SENT and CANCELLED are final, an approval stays. */
  lemma RowsOnlyAdvance(start: Start, es: seq<Event>, more: seq<Event>, m: nat)
    requires m < |After(start, es).messages|
    ensures var t, u := After(start, es), After(start, es + more);
            && m < |u.messages|
            && var x, y := t.messages[m], u.messages[m];
               && Rank(x.status) <= Rank(y.status)
               && (x.status !in {DRAFT, PENDING_APPROVAL, QUEUED} ==> y.status !in {DRAFT, PENDING_APPROVAL, QUEUED})
               && (Terminal(x.status) ==> y.status == x.status)
               && (x.approved.Some? ==> y.approved == x.approved)
  {
    AfterMore(start, es, more);
    hide Inv, Run;
    var t, u := After(start, es), After(start, es + more);
    assert Advances(t.messages[m], u.messages[m]);
  }

  /** A message that is SENT, CANCELLED or failed without a claim is never handed to the provider again. */
  lemma SpentIsNeverCalled(start: Start, es: seq<Event>, more: seq<Event>, m: nat)
    requires m < |After(start, es).messages| && Spent(After(start, es).messages[m])
    ensures var t, u := After(start, es), After(start, es + more);
            && t.calls <= u.calls
            && (forall c :: |t.calls| <= c < |u.calls| ==> u.calls[c].message != m)
            && m < |u.messages| && Spent(u.messages[m])
  {
    AfterMore(start, es, more);
    hide Inv, Run;
    var t, u := After(start, es), After(start, es + more);
    assert Advances(t.messages[m], u.messages[m]);
  }

  // ---- The conditions of a call ----

  /** Everything a message must meet when it is handed to the provider. */
  ghost predicate Authorised(t: Post, c: ProviderCall) {
    && Known(t, c.message)
    && var x := t.messages[c.message];
       var credential := t.credentials[x.qr];
       && x.approved.Some? && x.status == FAILED && x.mark == Claim(c.send)
       && !credential.revoked && !Expired(t, credential)
       && c.token == credential.token && c.recipient == x.recipient && x.recipient !in t.refused
       && (if credential.owner.Some? then
             && credential.owner.value < |t.employees|
             && t.employees[credential.owner.value].active && !t.employees[credential.owner.value].archived
             && c.recipient == t.employees[credential.owner.value].email
           else
             && x.qr in t.allocations && !t.allocations[x.qr].exhausted
             && t.allocations[x.qr].email == Some(c.recipient))
  }

  lemma CallIsAuthorised(t: Post, i: nat)
    requires LifeInv(t) && Calls(t, i)
    ensures var m := t.sends[i].message;
            var x := t.messages[m];
            Authorised(t, ProviderCall(m, i, x.recipient, t.credentials[x.qr].token))
  {
    var m := t.sends[i].message;
    assert CredentialOk(t, t.messages[m].qr) && MessageOk(t, m);
  }

  /** Calls are made by deliveries that reach the provider and by nothing else. */
  lemma StepCalls(t: Post, e: Event)
    requires Inv(t)
    ensures Step(t, e).calls == t.calls
            || (e.OnDeliver? && Calls(t, e.send)
                && var m := t.sends[e.send].message;
                   var x := t.messages[m];
                   Step(t, e).calls == t.calls + [ProviderCall(m, e.send, x.recipient, t.credentials[x.qr].token)])
  {
    hide Inv, Administer, Validate;
    if !e.OnCheck? && !e.OnClaim? && !e.OnDeliver? && !e.OnCrash? && !e.OnTick? {
      AdministerCalls(t, e);
    }
  }

  lemma AdministerCalls(t: Post, e: Event)
    requires Inv(t)
    ensures Administer(t, e).calls == t.calls && Administer(t, e).sends == t.sends
  {
    AdministerFine(t, e);
    FineKeeps(t, Administer(t, e));
    hide Inv, Administer, SameOwners;
  }

  /** The state a call was made in, and the claim it rests on. */
  ghost predicate MadeAt(start: Start, es: seq<Event>, n: nat, c: ProviderCall) {
    && n < |es| && es[n].OnDeliver? && es[n].send == c.send
    && Authorised(After(start, es[..n]), c)
    && exists k :: 0 <= k < n && es[k] == OnClaim(c.send, true)
  }

  /** Every call of the run was made by a delivery, after an acknowledged claim, in a state that authorised it:
      approved, to the owner's current address, the owner active, the credential unrevoked and unexpired, with its
      token. */
  lemma {:induction false} EveryCallWasAuthorised(start: Start, es: seq<Event>, c: nat)
    requires c < |After(start, es).calls|
    ensures exists n: nat :: MadeAt(start, es, n, After(start, es).calls[c])
    decreases es
  {
    hide Inv, Step, Run, Authorised, Calls;
    if es == [] {
      RunsFromEmpty(start);
      assert false;
    } else {
      var rest, e := es[..|es| - 1], es[|es| - 1];
      var t := After(start, rest);
      var u := After(start, es);
      assert es == rest + [e];
      AfterOne(start, rest, e);
      AfterInv(start, rest);
      StepCalls(t, e);
      if c < |t.calls| {
        EveryCallWasAuthorised(start, rest, c);
        var n: nat :| MadeAt(start, rest, n, t.calls[c]);
        assert rest[..n] == es[..n];
        assert MadeAt(start, es, n, u.calls[c]);
      } else {
        InvLife(t);
        CallIsAuthorised(t, e.send);
        SendClaimed(t, e.send);
        ClaimedEarlier(start, rest, e.send);
        assert es[..|rest|] == rest;
        assert MadeAt(start, es, |rest|, u.calls[c]);
      }
    }
  }

  lemma InvLife(t: Post)
    requires Inv(t)
    ensures LifeInv(t)
  {
  }

  lemma SendClaimed(t: Post, i: nat)
    requires Calls(t, i)
    ensures i < |t.sends| && t.sends[i].stage == Claimed
  {
  }

  lemma RunsFromEmpty(start: Start)
    ensures After(start, []) == Empty(start.now, start.limit, start.refused)
  {
  }

  /** A claim is the only gate: a send may deliver only after its claim was committed and acknowledged. */
  lemma {:induction false} ClaimedEarlier(start: Start, es: seq<Event>, i: nat)
    requires i < |After(start, es).sends| && After(start, es).sends[i].stage == Claimed
    ensures exists k :: 0 <= k < |es| && es[k] == OnClaim(i, true)
    decreases es
  {
    hide Inv, Step, Run;
    if es == [] {
      RunsFromEmpty(start);
      assert false;
    } else {
      var rest, e := es[..|es| - 1], es[|es| - 1];
      var t := After(start, rest);
      assert es == rest + [e];
      AfterOne(start, rest, e);
      AfterInv(start, rest);
      if e != OnClaim(i, true) {
        StepStage(t, e, i);
        ClaimedEarlier(start, rest, i);
        var k :| 0 <= k < |rest| && rest[k] == OnClaim(i, true);
        assert es[k] == rest[k];
      } else {
        assert es[|rest|] == e;
      }
    }
  }

  lemma StageAfterClaim(t: Post, k: nat, acknowledged: bool, i: nat)
    requires i < |ClaimStep(t, k, acknowledged).sends| && ClaimStep(t, k, acknowledged).sends[i].stage == Claimed
    requires k != i || !acknowledged
    ensures i < |t.sends| && t.sends[i].stage == Claimed
  {
    hide Validate;
  }

  lemma StageAfterDelivery(t: Post, k: nat, p: Provider, lag: nat, committed: bool, i: nat)
    requires i < |Deliver(t, k, p, lag, committed).sends|
    requires Deliver(t, k, p, lag, committed).sends[i].stage == Claimed
    ensures i < |t.sends| && t.sends[i].stage == Claimed
  {
    hide Validate;
  }

  lemma StepStage(t: Post, e: Event, i: nat)
    requires Inv(t) && i < |Step(t, e).sends| && Step(t, e).sends[i].stage == Claimed && e != OnClaim(i, true)
    ensures i < |t.sends| && t.sends[i].stage == Claimed
  {
    hide Inv, Administer, SentSince, ClaimStep, Deliver;
    if e.OnClaim? { StageAfterClaim(t, e.send, e.acknowledged, i); }
    else if e.OnDeliver? { StageAfterDelivery(t, e.send, e.provider, e.lag, e.committed, i); }
    else if !e.OnCheck? && !e.OnCrash? && !e.OnTick? { AdministerCalls(t, e); }
  }

  // ---- Employees, credentials and messages ----

  /** An employee never has two unrevoked credentials; an archived one is inactive and has none, for good. */
  lemma Lifecycle(start: Start, es: seq<Event>, more: seq<Event>)
    ensures var t, u := After(start, es), After(start, es + more);
            && (forall q: nat, p: nat :: q < p < |t.credentials| ==> Apart(t.credentials, q, p))
            && |t.employees| <= |u.employees|
            && (forall e :: 0 <= e < |t.employees| && t.employees[e].archived ==>
                  u.employees[e].archived && !u.employees[e].active && Current(u.credentials, e).None?)
  {
    AfterMore(start, es, more);
    var u := After(start, es + more);
    forall e | 0 <= e < |u.employees| && u.employees[e].archived ensures Current(u.credentials, e).None? {
      NoneIfArchived(u, e);
    }
    hide Run, Current;
  }

  lemma NoneIfArchived(t: Post, e: nat)
    requires OwnersInv(t) && e < |t.employees| && t.employees[e].archived
    ensures Current(t.credentials, e).None?
  {
    forall q | 0 <= q < |t.credentials| && t.credentials[q].owner == Some(e) ensures t.credentials[q].revoked {
      assert CredentialOk(t, q);
    }
  }

  /** A revoked QR and an inactive employee have only SENT and CANCELLED messages; any other message of an employee is
      addressed to the employee's current email with the credential's own token; and a payload is kept exactly while a
      message may still be sent. */
  lemma MessagesFollowTheirOwners(start: Start, es: seq<Event>, m: nat)
    requires m < |After(start, es).messages|
    ensures var t := After(start, es);
            var x := t.messages[m];
            && x.qr < |t.credentials|
            && (x.payload.None? <==> x.status in {SENT, CANCELLED})
            && (t.credentials[x.qr].revoked ==> x.status in {SENT, CANCELLED})
            && (Mail(t, m).Some? ==>
                  && Mail(t, m).value < |t.employees|
                  && var employee := t.employees[Mail(t, m).value];
                     && (!employee.active ==> x.status in {SENT, CANCELLED})
                     && (x.status !in {SENT, CANCELLED} ==>
                           && x.recipient == employee.email
                           && x.payload == Some(ForEmployee(Mail(t, m).value, t.credentials[x.qr].token))))
            && (x.status in {DRAFT, PENDING_APPROVAL} ==> x.approved.None?)
            && (x.status in {QUEUED, FAILED, SENT} ==> x.approved.Some?)
  {
    AfterInv(start, es);
    hide Run;
    var t := After(start, es);
    assert MessageOk(t, m);
    assert CredentialOk(t, t.messages[m].qr);
  }

  /** Administration never fails half-way on its own data: an unrevoked credential can always be decrypted to its token,
      a message awaiting approval has none, and a payload always fits its credential. */
  lemma DataNeverMisfits(start: Start, es: seq<Event>, q: nat, m: nat, status: Status)
    requires var t := After(start, es); q < |t.credentials| && Known(t, m)
    ensures var t := After(start, es);
            && (!t.credentials[q].revoked ==> Decrypt(t.credentials[q]) == Ok(t.credentials[q].token))
            && (t.messages[m].status in {DRAFT, PENDING_APPROVAL} ==> ApproveRow(t, m, 1).1.Ok?)
            && PreviewProblem(t, m, status) != Some(INVALID_EMAIL_PAYLOAD)
  {
    AfterInv(start, es);
    hide Run;
    var t := After(start, es);
    assert CredentialOk(t, q) && MessageOk(t, m) && CredentialOk(t, t.messages[m].qr);
  }

  // ---- Changes stop what is under way ----

  /** The event changes the address of message `m`'s owner, deactivates or archives them, or revokes the credential. */
  predicate Stops(t: Post, e: Event, m: nat)
    requires m < |t.messages|
  {
    var q, owner := t.messages[m].qr, Mail(t, m);
    || (e.OnUpdateEmail? && owner == Some(e.employee) && UpdateEmail(t, e.employee, e.email).1.Ok?
        && e.employee < |t.employees| && e.email != t.employees[e.employee].email)
    || (e.OnSetActive? && owner == Some(e.employee) && !e.active && SetActive(t, e.employee, e.active).1.Ok?)
    || (e.OnArchive? && owner == Some(e.employee) && Archive(t, e.employee).1.Ok?)
    || (e.OnReplaceEmployee? && owner == Some(e.employee)
        && ReplaceEmployee(t, e.employee, e.token, e.expires).1.Ok?)
    || (e.OnRevoke? && q == e.qr)
    || (e.OnReplaceMaster? && q == e.qr && ReplaceMaster(t, e.qr, e.details, e.token, e.expires).1.Ok?)
  }

  lemma StoppedIsTerminal(t: Post, e: Event, m: nat)
    requires LifeInv(t) && m < |t.messages| && Stops(t, e, m)
    ensures var u := Administer(t, e); m < |u.messages| && Terminal(u.messages[m].status)
  {
    hide LifeInv, Current, Reset, RevokeRow, RevokeCurrent, Equip, AddVisitor, Decrypt, Quiet;
    var u := Administer(t, e);
    AdministerFine(t, e);
    FineKeeps(t, u);
    MailKept(t, u, m);
    if e.OnUpdateEmail? {
      ResetFine(t, e.employee, t.employees[e.employee].(email := e.email));
      ResetMail(t, e.employee, t.employees[e.employee].(email := e.email), m);
    } else if e.OnSetActive? {
      ResetFine(t, e.employee, t.employees[e.employee].(active := false));
      ResetMail(t, e.employee, t.employees[e.employee].(active := false), m);
    } else if e.OnArchive? {
      ArchivedSilent(t, u, e.employee, m);
    } else if e.OnReplaceEmployee? {
      RevokeCurrentFine(t, e.employee);
      FineKeeps(t, RevokeCurrent(t, e.employee));
      MailKept(t, RevokeCurrent(t, e.employee), m);
      UnequippedIsSilent(RevokeCurrent(t, e.employee), e.employee);
      EquipKeeps(RevokeCurrent(t, e.employee), e.employee, e.token, e.expires, m);
    } else if e.OnRevoke? {
      RevokedTerminal(t, e.qr, m);
    } else {
      RevokedTerminal(t, e.qr, m);
      VisitorKeeps(RevokeRow(t, e.qr), e.details, e.token, e.expires, m);
    }
  }

  lemma MailKept(t: Post, u: Post, m: nat)
    requires LifeInv(t) && Quiet(t, u) && m < |t.messages|
    ensures m < |u.messages| && Mail(u, m) == Mail(t, m)
  {
    assert MessageOk(t, m) && Moves(t.messages[m], u.messages[m]);
  }

  lemma ResetMail(t: Post, e: nat, row: Employee, m: nat)
    requires e < |t.employees| && m < |t.messages| && Silent(Reset(t, e, row), e) && Mail(t, m) == Some(e)
    ensures m < |Reset(t, e, row).messages| && Terminal(Reset(t, e, row).messages[m].status)
  {
    var u := Reset(t, e, row);
    assert u.credentials == t.credentials && |u.messages| == |t.messages|;
    assert u.messages[m].qr == t.messages[m].qr;
    assert Mail(u, m) == Some(e);
  }

  lemma ArchivedSilent(t: Post, u: Post, e: nat, m: nat)
    requires LifeInv(t) && e < |t.employees| && u == ArchiveRow(t, e)
    requires LifeInv(u) && m < |u.messages| && Mail(u, m) == Some(e)
    ensures Terminal(u.messages[m].status)
  {
    UnequippedIsSilent(u, e);
    hide Current, RevokeRow;
  }

  lemma EquipKeeps(t: Post, e: nat, token: Token, expires: Option<int>, m: nat)
    requires e < |t.employees| && m < |t.messages|
    ensures var u := Equip(t, e, token, expires).0; m < |u.messages| && u.messages[m] == t.messages[m]
  {
  }

  lemma VisitorKeeps(t: Post, details: Option<Option<Address>>, token: Token, expires: Option<int>, m: nat)
    requires m < |t.messages|
    ensures var u := AddVisitor(t, details, token, expires, None).0; m < |u.messages| && u.messages[m] == t.messages[m]
  {
  }

  lemma RevokedTerminal(t: Post, q: nat, m: nat)
    requires LifeInv(t) && m < |t.messages| && t.messages[m].qr == q
    ensures q < |t.credentials|
    ensures var u := RevokeRow(t, q); m < |u.messages| && Terminal(u.messages[m].status)
  {
    assert MessageOk(t, m);
  }

  /** However it was claimed, and even if the change is undone at once: no call is made for the message after it. */
  lemma ChangesStopDelivery(start: Start, es: seq<Event>, e: Event, more: seq<Event>, m: nat)
    requires m < |After(start, es).messages| && Stops(After(start, es), e, m)
    ensures var t, u := After(start, es), After(start, es + [e] + more);
            && t.calls <= u.calls
            && (forall c :: |t.calls| <= c < |u.calls| ==> u.calls[c].message != m)
            && m < |u.messages| && u.messages[m].status in {SENT, CANCELLED}
            && (t.messages[m].status != SENT ==> u.messages[m].status == CANCELLED)
  {
    hide Inv, Step, Run, Administer, Stops;
    var t := After(start, es);
    AfterInv(start, es);
    AfterOne(start, es, e);
    InvLife(t);
    StoppedIsTerminal(t, e, m);
    StopsAdministers(t, e, m);
    AdministerCalls(t, e);
    CancelledNotSent(t, e, m);
    SpentIsNeverCalled(start, es + [e], more, m);
    RowsOnlyAdvance(start, es + [e], more, m);
  }

  lemma StopsAdministers(t: Post, e: Event, m: nat)
    requires m < |t.messages| && Stops(t, e, m)
    ensures Step(t, e) == Administer(t, e)
  {
    hide Administer, UpdateEmail, SetActive, Archive, ReplaceEmployee, ReplaceMaster;
  }

  lemma CancelledNotSent(t: Post, e: Event, m: nat)
    requires LifeInv(t) && m < |t.messages|
    ensures var u := Administer(t, e);
            m < |u.messages| && (u.messages[m].status == SENT ==> t.messages[m].status == SENT)
  {
    AdministerFine(t, e);
    FineKeeps(t, Administer(t, e));
    hide LifeInv, Administer, SameOwners;
    assert Moves(t.messages[m], Administer(t, e).messages[m]);
  }
}
