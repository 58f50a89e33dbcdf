/** What the administration of employees and credentials writes. */
module MailDrafts {
  // Over every run: whose emails are cancelled, and which one is drafted instead.

  import opened Options
  import opened MailTables
  import opened MailProtocol
  import opened MailInvariant
  import opened MailLife
  import opened MailSending
  import opened MailTheorems

  // ---- Rows ----

  /** All messages of QR `q` lose payload and error and are CANCELLED unless they are SENT; no other is touched. */
  ghost predicate CancelledFor(before: seq<Message>, after: seq<Message>, q: nat, now: int) {
    && |after| == |before|
    && forall m :: 0 <= m < |before| ==>
         after[m] == if before[m].qr != q then before[m]
                     else before[m].(status := if before[m].status == SENT then SENT else CANCELLED, payload := None,
                                     updated := now, mark := Clear)
  }

  /** One message is added: not approved yet, waiting for a batch approval if it belongs to a batch, a draft
      otherwise. */
  ghost predicate Drafted(before: seq<Message>, after: seq<Message>, q: nat, to: Address, payload: Payload,
                          batch: Option<nat>, now: int)
  {
    && |after| == |before| + 1 && after[..|before|] == before
    && after[|before|] == if batch.Some? then Message(q, to, Some(payload), PENDING_APPROVAL, Clear, BULK, batch, None, now)
                          else Message(q, to, Some(payload), DRAFT, Clear, SINGLE, None, None, now)
  }

  /** Credential `q` is the employee's, and not revoked. */
  ghost predicate Serving(cs: seq<Credential>, e: nat, q: nat) {
    q < |cs| && cs[q].owner == Some(e) && !cs[q].revoked
  }

  ghost predicate Unexpired(c: Credential, now: int) { c.expires.Some? ==> now < c.expires.value }
  ghost predicate InTheFuture(expires: Option<int>, now: int) { expires.Some? ==> now < expires.value }

  /** Credential `q` is revoked and its stored token gone; the others are as they were. */
  ghost predicate RevokedOnly(before: seq<Credential>, after: seq<Credential>, q: nat) {
    && |after| == |before|
    && forall p :: 0 <= p < |before| ==>
         after[p] == if p == q then before[p].(revoked := true, cipher := None) else before[p]
  }

  /** Nothing but employees, credentials, allocations and messages differs. */
  ghost predicate SameSending(t: Post, u: Post) {
    u == t.(employees := u.employees, credentials := u.credentials, allocations := u.allocations, messages := u.messages)
  }

  lemma CurrentMeans(t: Post, e: nat, q: nat)
    requires LifeInv(t)
    ensures Serving(t.credentials, e, q) <==> Current(t.credentials, e) == Some(q)
  {
    var c := Current(t.credentials, e);
    if Serving(t.credentials, e, q) && c.Some? {
      assert c.value < q ==> Apart(t.credentials, c.value, q);
      assert q < c.value ==> Apart(t.credentials, q, c.value);
    }
    hide Current;
  }

  /** The employee's credential, if there is one. */
  lemma CurrentFound(t: Post, e: nat) returns (q: Option<nat>)
    requires LifeInv(t)
    ensures q == Current(t.credentials, e)
    ensures q.Some? ==> Serving(t.credentials, e, q.value) && q.value < |t.credentials| && CredentialOk(t, q.value)
    ensures forall p: nat :: Serving(t.credentials, e, p) <==> q == Some(p)
  {
    q := Current(t.credentials, e);
    forall p: nat ensures Serving(t.credentials, e, p) <==> q == Some(p) { CurrentMeans(t, e, p); }
    hide Current;
  }

  lemma CancelMeans(t: Post, q: nat)
    ensures CancelledFor(t.messages, Cancel(t, q).messages, q, t.now)
    ensures Cancel(t, q) == t.(messages := Cancel(t, q).messages)
  {
  }

  lemma AddMessageMeans(t: Post, q: nat, to: Address, payload: Payload, batch: Option<nat>)
    ensures var u := AddMessage(t, q, to, payload, batch);
            u == t.(messages := u.messages) && Drafted(t.messages, u.messages, q, to, payload, batch, t.now)
  {
    assert AddMessage(t, q, to, payload, batch).messages[..|t.messages|] == t.messages;
  }

  lemma RevokeMeans(t: Post, q: nat)
    requires q < |t.credentials| && !t.credentials[q].revoked
    ensures var u := RevokeRow(t, q);
            && u == t.(credentials := u.credentials, messages := u.messages)
            && RevokedOnly(t.credentials, u.credentials, q) && CancelledFor(t.messages, u.messages, q, t.now)
  {
  }

  lemma Reached(start: Start, es: seq<Event>)
    ensures LifeInv(After(start, es))
  {
    AfterInv(start, es);
    InvLife(After(start, es));
    hide Run;
  }

  // ---- New employees and credentials ----

  /** A registration adds the employee, active, a credential and an email to their address, or nothing if the credential
      would have expired already. */
  lemma WhatARegistrationStores(t: Post, email: Address, token: Token, expires: Option<int>, batch: Option<nat>)
    ensures var (u, outcome) := Register(t, email, token, expires, batch);
            var e, q := |t.employees|, |t.credentials|;
            if !InTheFuture(expires, t.now) then u == t && outcome == Error(INVALID_QR_EXPIRY)
            else
              && outcome == Ok(e) && SameSending(t, u) && u.allocations == t.allocations
              && u.employees == t.employees + [Employee(email, true, false)]
              && u.credentials == t.credentials + [Credential(EMPLOYEE, Some(e), token, Some(token), false, expires)]
              && Drafted(t.messages, u.messages, q, email, ForEmployee(e, token), batch, t.now)
  {
    var u := Register(t, email, token, expires, batch).0;
    if InTheFuture(expires, t.now) { assert u.messages[..|t.messages|] == t.messages; }
  }

  /** Over any run: a credential is issued to an active employee who has none, with an email to their address. */
  lemma WhatAnIssueStores(start: Start, es: seq<Event>, e: nat, token: Token, expires: Option<int>)
    ensures var t := After(start, es);
            var (u, outcome) := IssueEmployee(t, e, token, expires);
            if e >= |t.employees| then u == t && outcome == Error(EMPLOYEE_NOT_FOUND)
            else if !t.employees[e].active then u == t && outcome == Error(EMPLOYEE_INACTIVE)
            else if exists q: nat :: Serving(t.credentials, e, q) then u == t && outcome == Error(EMPLOYEE_QR_ALREADY_EXISTS)
            else if !InTheFuture(expires, t.now) then u == t && outcome == Error(INVALID_QR_EXPIRY)
            else
              && outcome == Ok(|t.credentials|) && u == t.(credentials := u.credentials, messages := u.messages)
              && u.credentials == t.credentials + [Credential(EMPLOYEE, Some(e), token, Some(token), false, expires)]
              && Drafted(t.messages, u.messages, |t.credentials|, t.employees[e].email, ForEmployee(e, token), None, t.now)
  {
    hide Run, LifeInv, Current;
    var t := After(start, es);
    Reached(start, es);
    var current := CurrentFound(t, e);
    var u := IssueEmployee(t, e, token, expires).0;
    if u != t { assert u.messages[..|t.messages|] == t.messages; }
  }

  lemma EquipMeans(t: Post, e: nat, token: Token, expires: Option<int>)
    requires e < |t.employees|
    ensures var (u, outcome) := Equip(t, e, token, expires);
            if !InTheFuture(expires, t.now) then outcome == Error(INVALID_QR_EXPIRY)
            else
              && outcome == Ok(|t.credentials|) && u == t.(credentials := u.credentials, messages := u.messages)
              && u.credentials == t.credentials + [Credential(EMPLOYEE, Some(e), token, Some(token), false, expires)]
              && Drafted(t.messages, u.messages, |t.credentials|, t.employees[e].email, ForEmployee(e, token), None, t.now)
  {
    var u := Equip(t, e, token, expires).0;
    if InTheFuture(expires, t.now) { assert u.messages[..|t.messages|] == t.messages; }
  }

  /** Over any run: a replacement revokes the active employee's credential, if there is one, and cancels its emails, and
      issues another with an email of its own; or it changes nothing at all. */
  lemma WhatAReplacementStores(start: Start, es: seq<Event>, e: nat, token: Token, expires: Option<int>)
    ensures var t := After(start, es);
            var (u, outcome) := ReplaceEmployee(t, e, token, expires);
            if e >= |t.employees| then u == t && outcome == Error(EMPLOYEE_NOT_FOUND)
            else if !t.employees[e].active then u == t && outcome == Error(EMPLOYEE_INACTIVE)
            else if !InTheFuture(expires, t.now) then u == t && outcome == Error(INVALID_QR_EXPIRY)
            else
              && outcome == Ok(|t.credentials|) && u == t.(credentials := u.credentials, messages := u.messages)
              && |u.credentials| == |t.credentials| + 1
              && u.credentials[|t.credentials|] == Credential(EMPLOYEE, Some(e), token, Some(token), false, expires)
              && (forall q :: 0 <= q < |t.credentials| ==>
                    u.credentials[q] == if Serving(t.credentials, e, q) then t.credentials[q].(revoked := true, cipher := None)
                                        else t.credentials[q])
              && exists kept: seq<Message> ::
                   && Drafted(kept, u.messages, |t.credentials|, t.employees[e].email, ForEmployee(e, token), None, t.now)
                   && (forall q: nat :: Serving(t.credentials, e, q) ==> CancelledFor(t.messages, kept, q, t.now))
                   && ((forall q: nat :: !Serving(t.credentials, e, q)) ==> kept == t.messages)
  {
    hide Run, LifeInv, Current, Equip, RevokeRow, Drafted, CancelledFor;
    var t := After(start, es);
    Reached(start, es);
    var current := CurrentFound(t, e);
    if e < |t.employees| && t.employees[e].active {
      var v := RevokeCurrent(t, e);
      if current.Some? { RevokeMeans(t, current.value); }
      EquipMeans(v, e, token, expires);
      if InTheFuture(expires, t.now) {
        var u := ReplaceEmployee(t, e, token, expires).0;
        assert Drafted(v.messages, u.messages, |t.credentials|, t.employees[e].email, ForEmployee(e, token), None, t.now);
      }
    }
  }

  // ---- Changes of an employee ----

  lemma ResetMeans(t: Post, e: nat, row: Employee)
    requires LifeInv(t) && e < |t.employees|
    ensures var u := Reset(t, e, row);
            && u == t.(employees := t.employees[e := row], messages := u.messages)
            && (forall q: nat :: Serving(t.credentials, e, q) ==> CancelledFor(t.messages, u.messages, q, t.now))
            && ((forall q: nat :: !Serving(t.credentials, e, q)) ==> u.messages == t.messages)
  {
    hide LifeInv, Current, Cancel;
    var current := CurrentFound(t, e);
    var u := t.(employees := t.employees[e := row]);
    if current.Some? { CancelMeans(u, current.value); }
    hide CancelledFor;
  }

  /** Over any run: a new address cancels the emails of the employee's credential and, if the employee is active and the
      credential has not expired, drafts exactly one to the new address, with that credential's token. */
  lemma WhatAnAddressChangeStores(start: Start, es: seq<Event>, e: nat, email: Address)
    ensures var t := After(start, es);
            var (u, outcome) := UpdateEmail(t, e, email);
            if e >= |t.employees| then u == t && outcome == Error(EMPLOYEE_NOT_FOUND)
            else if t.employees[e].archived then u == t && outcome == Error(EMPLOYEE_REMOVED)
            else
              && outcome == Ok(e)
              && (email == t.employees[e].email ==> u == t)
              && (email != t.employees[e].email ==>
                    && u == t.(employees := t.employees[e := t.employees[e].(email := email)], messages := u.messages)
                    && ((forall q: nat :: !Serving(t.credentials, e, q)) ==> u.messages == t.messages)
                    && forall q: nat :: Serving(t.credentials, e, q) ==>
                         exists kept: seq<Message> ::
                           && CancelledFor(t.messages, kept, q, t.now)
                           && if t.employees[e].active && Unexpired(t.credentials[q], t.now)
                              then Drafted(kept, u.messages, q, email, ForEmployee(e, t.credentials[q].token), None, t.now)
                              else u.messages == kept)
  {
    hide Run, LifeInv, Current, Reset, AddMessage, Drafted, CancelledFor;
    var t := After(start, es);
    Reached(start, es);
    var current := CurrentFound(t, e);
    if e < |t.employees| && !t.employees[e].archived && t.employees[e].email != email {
      var v := Reset(t, e, t.employees[e].(email := email));
      ResetMeans(t, e, t.employees[e].(email := email));
      if current.Some? {
        var q := current.value;
        AddMessageMeans(v, q, email, ForEmployee(e, t.credentials[q].token), None);
        assert CancelledFor(t.messages, v.messages, q, t.now);
      }
    }
  }

  /** Over any run: a deactivation cancels the emails of the employee's credential; the flag is all else that changes.
      */
  lemma WhatAnActivationStores(start: Start, es: seq<Event>, e: nat, active: bool)
    ensures var t := After(start, es);
            var (u, outcome) := SetActive(t, e, active);
            if e >= |t.employees| then u == t && outcome == Error(EMPLOYEE_NOT_FOUND)
            else if t.employees[e].archived then u == t && outcome == Error(EMPLOYEE_REMOVED)
            else
              && outcome == Ok(e)
              && u == t.(employees := t.employees[e := t.employees[e].(active := active)], messages := u.messages)
              && (active || (forall q: nat :: !Serving(t.credentials, e, q)) ==> u.messages == t.messages)
              && forall q: nat :: !active && Serving(t.credentials, e, q) ==> CancelledFor(t.messages, u.messages, q, t.now)
  {
    hide Run, LifeInv, Current, Reset, CancelledFor;
    var t := After(start, es);
    Reached(start, es);
    if e < |t.employees| { ResetMeans(t, e, t.employees[e].(active := active)); }
  }

  /** Over any run: archiving deactivates the employee for good, revokes their credential and cancels its emails,
      once. */
  lemma WhatAnArchivingStores(start: Start, es: seq<Event>, e: nat)
    ensures var t := After(start, es);
            var (u, outcome) := Archive(t, e);
            if e >= |t.employees| then u == t && outcome == Error(EMPLOYEE_NOT_FOUND)
            else if t.employees[e].archived then u == t && outcome == Error(EMPLOYEE_ALREADY_REMOVED)
            else outcome == Ok(e) && Archives(t, u, {e})
  {
    hide Run, LifeInv, ArchiveRow, Archives;
    var t := After(start, es);
    Reached(start, es);
    if e < |t.employees| { ArchiveRowMeans(t, e); }
  }

  /** The employees `es` are archived: inactive, their credentials revoked, the emails of these cancelled. */
  ghost predicate Archives(t: Post, u: Post, es: set<nat>) {
    && u == t.(employees := u.employees, credentials := u.credentials, messages := u.messages)
    && |u.employees| == |t.employees| && |u.credentials| == |t.credentials| && |u.messages| == |t.messages|
    && (forall e :: 0 <= e < |t.employees| ==>
          u.employees[e] == if e in es then t.employees[e].(active := false, archived := true) else t.employees[e])
    && (forall q :: 0 <= q < |t.credentials| ==>
          u.credentials[q] == if Ends(t, q, es) then t.credentials[q].(revoked := true, cipher := None) else t.credentials[q])
    && (forall m :: 0 <= m < |t.messages| ==>
          u.messages[m] == if Ends(t, t.messages[m].qr, es) then
                             t.messages[m].(status := if t.messages[m].status == SENT then SENT else CANCELLED,
                                            payload := None, updated := t.now, mark := Clear)
                           else t.messages[m])
  }

  /** Credential `q` is the one in use of one of the employees. */
  ghost predicate Ends(t: Post, q: nat, es: set<nat>) {
    q < |t.credentials| && !t.credentials[q].revoked && t.credentials[q].owner.Some? && t.credentials[q].owner.value in es
  }

  lemma ArchiveRowMeans(t: Post, e: nat)
    requires LifeInv(t) && e < |t.employees|
    ensures Archives(t, ArchiveRow(t, e), {e})
  {
    hide LifeInv, Current, RevokeRow;
    var current := CurrentFound(t, e);
    var v := t.(employees := t.employees[e := t.employees[e].(active := false, archived := true)]);
    forall q: nat ensures Ends(t, q, {e}) <==> Serving(t.credentials, e, q) {}
    if current.Some? { RevokeMeans(v, current.value); }
  }

  lemma NobodyArchived(t: Post)
    ensures Archives(t, t, {})
  {
  }

  lemma ArchivesThen(t: Post, u: Post, v: Post, es: set<nat>, e: nat)
    requires Archives(t, u, es) && Archives(u, v, {e}) && e !in es
    ensures Archives(t, v, es + {e})
  {
    forall q: nat ensures Ends(t, q, es + {e}) <==> Ends(t, q, es) || Ends(u, q, {e}) {}
    hide Ends;
  }

  function Those(es: seq<nat>): set<nat> { set e | e in es }

  lemma {:induction false} ArchiveRowsMeans(t: Post, es: seq<nat>)
    requires LifeInv(t) && (forall i :: 0 <= i < |es| ==> es[i] < |t.employees|)
    requires forall i, j :: 0 <= i < j < |es| ==> es[i] < es[j]
    ensures Archives(t, ArchiveRows(t, es), Those(es))
  {
    hide LifeInv, ArchiveRow, Archives, Fine;
    if es == [] {
      NobodyArchived(t);
      assert Those(es) == {};
    } else {
      var n := |es| - 1;
      var u := ArchiveRows(t, es[..n]);
      ArchiveRowsMeans(t, es[..n]);
      ArchiveRowsFine(t, es[..n]);
      FineKeeps(t, u);
      ArchiveRowMeans(u, es[n]);
      ArchivesThen(t, u, ArchiveRow(u, es[n]), Those(es[..n]), es[n]);
      assert es == es[..n] + [es[n]];
      assert Those(es) == Those(es[..n]) + {es[n]};
    }
  }

  /** Over any run: a bulk archiving, of ids in order without repetition, archives all of them or none. */
  lemma WhatABulkArchivingStores(start: Start, es: seq<Event>, ids: seq<nat>)
    ensures var t := After(start, es);
            var (u, outcome) := ArchiveBulk(t, ids);
            if ids == [] || !(forall i, j :: 0 <= i < j < |ids| ==> ids[i] < ids[j])
            then u == t && outcome == Error(INVALID_EMPLOYEE_IDS)
            else if !(forall i :: 0 <= i < |ids| ==> ids[i] < |t.employees|) then u == t && outcome == Error(EMPLOYEE_NOT_FOUND)
            else if !(forall i :: 0 <= i < |ids| ==> !t.employees[ids[i]].archived)
            then u == t && outcome == Error(EMPLOYEE_ALREADY_REMOVED)
            else outcome == Ok(|ids|) && Archives(t, u, Those(ids))
  {
    hide Run, LifeInv, ArchiveRows, Archives;
    var t := After(start, es);
    Reached(start, es);
    if ArchiveBulk(t, ids).1.Ok? { ArchiveRowsMeans(t, ids); }
  }

  /** A revocation revokes once and cancels the emails of the credential. */
  lemma WhatARevocationStores(t: Post, q: nat)
    ensures var (u, outcome) := Revoke(t, q);
            if q >= |t.credentials| then u == t && outcome == Error(QR_NOT_FOUND)
            else
              && outcome == Ok(q) && (t.credentials[q].revoked ==> u == t)
              && (!t.credentials[q].revoked ==>
                    && u == t.(credentials := u.credentials, messages := u.messages)
                    && RevokedOnly(t.credentials, u.credentials, q) && CancelledFor(t.messages, u.messages, q, t.now))
  {
    if q < |t.credentials| && !t.credentials[q].revoked { RevokeMeans(t, q); }
    hide RevokeRow, RevokedOnly, CancelledFor;
  }

  // ---- Sending again ----

  /** Message `m` is the latest of QR `q`, to the address if one is given. */
  ghost predicate IsLatest(ms: seq<Message>, q: nat, to: Option<Address>, m: nat) {
    && m < |ms| && ms[m].qr == q && (to.Some? ==> ms[m].recipient == to.value)
    && forall n :: m < n < |ms| && ms[n].qr == q ==> to.Some? && ms[n].recipient != to.value
  }

  lemma {:induction false} LatestMeans(ms: seq<Message>, q: nat, to: Option<Address>, m: nat)
    ensures IsLatest(ms, q, to, m) <==> Latest(ms, q, to) == Some(m)
  {
    if ms != [] {
      var k := |ms| - 1;
      LatestMeans(ms[..k], q, to, m);
      if ms[k].qr == q && (to.None? || ms[k].recipient == to.value) {
        assert IsLatest(ms, q, to, k);
        assert IsLatest(ms, q, to, m) ==> m == k;
      } else {
        if IsLatest(ms[..k], q, to, m) {
          forall n | m < n < |ms| && ms[n].qr == q ensures to.Some? && ms[n].recipient != to.value {
            if n < k { assert ms[..k][n] == ms[n]; }
          }
        }
      }
    }
  }

  /** The outcome of the message is not known: it is FAILED, and not for one of the reasons a failure is certain. */
  ghost predicate Unknown(x: Message) {
    x.status == FAILED && (x.mark == Clear || x.mark == Review || x.mark.Claim? || (x.mark.Reason? && !Certain(x.mark.code)))
  }

  /** The reasons for which nothing can have been sent. */
  predicate Certain(code: Code) {
    match code
    case INVALID_EMAIL_PAYLOAD => true
    case INVALID_EMAIL_SENDER => true
    case INVALID_EMAIL_RECIPIENT => true
    case TEST_EMAIL_RECIPIENT_FORBIDDEN => true
    case INVALID_EMAIL_CONTENT => true
    case INVALID_QR => true
    case GMAIL_CONFIGURATION_REQUIRED => true
    case EMAIL_AUTHENTICATION_FAILED => true
    case EMAIL_SENDER_REJECTED => true
    case EMAIL_RECIPIENT_REJECTED => true
    case EMAIL_DATA_REJECTED => true
    case EMAIL_DELIVERY_FAILED => true
    case EMAIL_NOT_DELIVERABLE => true
    case REAL_EMAIL_NOT_AUTHORIZED => true
    case EMAIL_APPROVAL_REQUIRED => true
    case _ => false
  }

  lemma UnknownMeans(x: Message)
    ensures NeedsReview(x) <==> Unknown(x)
    ensures Unknown(x) ==> x.status == FAILED
  {
  }

  lemma LatestFound(ms: seq<Message>, q: nat, to: Option<Address>) returns (m: Option<nat>)
    ensures m == Latest(ms, q, to)
    ensures forall n: nat :: IsLatest(ms, q, to, n) <==> m == Some(n)
  {
    m := Latest(ms, q, to);
    forall n: nat ensures IsLatest(ms, q, to, n) <==> m == Some(n) { LatestMeans(ms, q, to, n); }
    hide Latest;
  }

  /** Over any run: sending an active employee's unexpired QR again is refused while the latest email of it to their
      address has an unknown outcome, reuses that email if it is a single one still open, and otherwise drafts
      another. */
  lemma WhatAResendingStores(start: Start, es: seq<Event>, e: nat)
    ensures var t := After(start, es);
            var (u, outcome) := ResendEmployee(t, e);
            if e >= |t.employees| then u == t && outcome == Error(EMPLOYEE_NOT_FOUND)
            else if !t.employees[e].active then u == t && outcome == Error(EMPLOYEE_INACTIVE)
            else
              && ((forall q: nat :: !Serving(t.credentials, e, q)) ==> u == t && outcome == Error(QR_NOT_FOUND))
              && forall q: nat :: Serving(t.credentials, e, q) ==> Resends(t, u, e, q, outcome)
  {
    hide Run, LifeInv, Current, Latest, Resends;
    var t := After(start, es);
    Reached(start, es);
    var current := CurrentFound(t, e);
    if e < |t.employees| && t.employees[e].active && current.Some? { ResendMeans(t, e, current.value); }
  }

  ghost predicate Resends(t: Post, u: Post, e: nat, q: nat, outcome: Outcome)
    requires e < |t.employees| && q < |t.credentials|
  {
    var to := Some(t.employees[e].email);
    if !Unexpired(t.credentials[q], t.now) then u == t && outcome == Error(QR_EXPIRED)
    else
      && (forall m: nat :: IsLatest(t.messages, q, to, m) && Unknown(t.messages[m]) ==>
            u == t && outcome == Error(EMAIL_DELIVERY_NEEDS_REVIEW))
      && (forall m: nat :: IsLatest(t.messages, q, to, m) && Open(t.messages[m]) ==> u == t && outcome == Ok(m))
      && ((forall m: nat :: IsLatest(t.messages, q, to, m) ==> !Unknown(t.messages[m]) && !Open(t.messages[m])) ==>
            && outcome == Ok(|t.messages|) && u == t.(messages := u.messages)
            && Drafted(t.messages, u.messages, q, t.employees[e].email, ForEmployee(e, t.credentials[q].token), None, t.now))
  }

  /** A single email that can still go out. */
  ghost predicate Open(x: Message) { x.mode == SINGLE && (x.status == DRAFT || x.status == QUEUED) }

  lemma ResendMeans(t: Post, e: nat, q: nat)
    requires LifeInv(t) && e < |t.employees| && t.employees[e].active && Current(t.credentials, e) == Some(q)
    ensures q < |t.credentials| && Resends(t, ResendEmployee(t, e).0, e, q, ResendEmployee(t, e).1)
  {
    hide LifeInv, Current, Latest, NeedsReview, Unknown, AddMessage, Drafted, IsLatest;
    var current := CurrentFound(t, e);
    var m := LatestFound(t.messages, q, Some(t.employees[e].email));
    if m.Some? {
      LatestListed(t.messages, q, Some(t.employees[e].email), m.value);
      UnknownMeans(t.messages[m.value]);
    }
    AddMessageMeans(t, q, t.employees[e].email, ForEmployee(e, t.credentials[q].token), None);
  }

  lemma LatestListed(ms: seq<Message>, q: nat, to: Option<Address>, m: nat)
    requires IsLatest(ms, q, to, m)
    ensures m < |ms|
  {
  }

  // ---- Visitors ----

  /** What a visitor QR is issued with: its credential, its allocation if it has details, an email if there is an
      address. */
  ghost predicate VisitorIssued(t: Post, u: Post, details: Option<Option<Address>>, token: Token, expires: Option<int>,
                                batch: Option<nat>)
  {
    var q := |t.credentials|;
    && SameSending(t, u) && u.employees == t.employees
    && u.credentials == t.credentials + [Credential(MASTER, None, token, Some(token), false, expires)]
    && u.allocations == (if details.Some? then t.allocations[q := Allocation(details.value, false)] else t.allocations)
    && (if details.Some? && details.value.Some?
        then Drafted(t.messages, u.messages, q, details.value.value, ForVisitor(q, token), batch, t.now)
        else u.messages == t.messages)
  }

  lemma WhatAVisitorIssueStores(t: Post, details: Option<Option<Address>>, token: Token, expires: Option<int>,
                                batch: Option<nat>)
    ensures var (u, outcome) := AddVisitor(t, details, token, expires, batch);
            if !InTheFuture(expires, t.now) then u == t && outcome == Error(INVALID_QR_EXPIRY)
            else outcome == Ok(|t.credentials|) && VisitorIssued(t, u, details, token, expires, batch)
  {
    var u := AddVisitor(t, details, token, expires, batch).0;
    if details.Some? && details.value.Some? && u != t { assert u.messages[..|t.messages|] == t.messages; }
  }

  /** A visitor QR in use is revoked and another issued, or nothing happens. */
  lemma WhatAVisitorReplacementStores(t: Post, q: nat, details: Option<Option<Address>>, token: Token,
                                      expires: Option<int>)
    ensures var (u, outcome) := ReplaceMaster(t, q, details, token, expires);
            if q >= |t.credentials| then u == t && outcome == Error(QR_NOT_FOUND)
            else if t.credentials[q].kind != MASTER then u == t && outcome == Error(MASTER_QR_REQUIRED)
            else if t.credentials[q].revoked then u == t && outcome == Error(QR_REVOKED)
            else if !InTheFuture(expires, t.now) then u == t && outcome == Error(INVALID_QR_EXPIRY)
            else
              && outcome == Ok(|t.credentials|)
              && exists v: Post ::
                   && v == t.(credentials := v.credentials, messages := v.messages)
                   && RevokedOnly(t.credentials, v.credentials, q) && CancelledFor(t.messages, v.messages, q, t.now)
                   && VisitorIssued(v, u, details, token, expires, None)
  {
    hide RevokeRow, AddVisitor, RevokedOnly, CancelledFor, VisitorIssued;
    if q < |t.credentials| && !t.credentials[q].revoked {
      RevokeMeans(t, q);
      RevokedLength(t, q);
      WhatAVisitorIssueStores(RevokeRow(t, q), details, token, expires, None);
    }
  }

  lemma RevokedLength(t: Post, q: nat)
    requires q < |t.credentials|
    ensures |RevokeRow(t, q).credentials| == |t.credentials| && RevokeRow(t, q).now == t.now
  {
  }

  /** When the serving protocol has used up a visitor's meals, the allocation shows it. */
  lemma WhatAnExhaustionStores(t: Post, q: nat)
    ensures var u := Administer(t, OnExhaust(q));
            if q in t.allocations then u == t.(allocations := t.allocations[q := Allocation(t.allocations[q].email, true)])
            else u == t
  {
  }
}
