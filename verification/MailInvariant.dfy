/** What holds of employees, credentials and emails after every transaction of the administration services, and how far
    those transactions can move a message. */
module MailInvariant {
  import opened Options
  import opened MailTables
  import opened MailProtocol

  // ---- Employees, credentials and messages ----

  ghost predicate CredentialOk(t: Post, q: nat)
    requires q < |t.credentials|
  {
    var c := t.credentials[q];
    && (c.kind == EMPLOYEE <==> c.owner.Some?)
    && (c.owner.Some? ==> c.owner.value < |t.employees|)
    && (c.owner.Some? && t.employees[c.owner.value].archived ==> c.revoked)
    && c.cipher == (if c.revoked then None else Some(c.token))
  }

  /** Credentials `q` and `p` do not both serve one employee. */
  ghost predicate Apart(cs: seq<Credential>, q: nat, p: nat)
    requires q < |cs| && p < |cs|
  {
    cs[q].owner.Some? && cs[q].owner == cs[p].owner ==> cs[q].revoked || cs[p].revoked
  }

  /** What the status of a message says of its other columns. */
  ghost predicate RowOk(x: Message) {
    && (x.payload.None? <==> Terminal(x.status))
    && (x.status in {DRAFT, PENDING_APPROVAL} ==> x.approved.None?)
    && (x.status in {QUEUED, FAILED, SENT} ==> x.approved.Some?)
    && (x.status == DRAFT ==> x.mode == SINGLE) && (x.status == PENDING_APPROVAL ==> x.mode == BULK)
    && (x.mark.Claim? ==> x.status == FAILED)
  }

  /** A message that can still be sent is addressed to its owner, who may have it, and carries the credential's token.
      */
  ghost predicate Addressed(t: Post, x: Message)
    requires x.qr < |t.credentials|
  {
    var c := t.credentials[x.qr];
    && !c.revoked
    && (if c.owner.Some? then
          && c.owner.value < |t.employees| && t.employees[c.owner.value].active
          && x.recipient == t.employees[c.owner.value].email
          && x.payload == Some(ForEmployee(c.owner.value, c.token))
        else
          && x.qr in t.allocations && t.allocations[x.qr].email == Some(x.recipient)
          && x.payload == Some(ForVisitor(x.qr, c.token)))
  }

  ghost predicate MessageOk(t: Post, m: nat)
    requires m < |t.messages|
  {
    var x := t.messages[m];
    && x.qr < |t.credentials| && RowOk(x) && x.updated <= t.now
    && (!Terminal(x.status) ==> Addressed(t, x))
  }

  ghost predicate OwnersInv(t: Post) {
    && (forall e :: 0 <= e < |t.employees| && t.employees[e].archived ==> !t.employees[e].active)
    && (forall q :: 0 <= q < |t.credentials| ==> CredentialOk(t, q))
    && (forall q: nat, p: nat :: q < p < |t.credentials| ==> Apart(t.credentials, q, p))
    && (forall q :: q in t.allocations ==> q < |t.credentials| && t.credentials[q].kind == MASTER)
  }

  ghost predicate MessagesInv(t: Post) { forall m :: 0 <= m < |t.messages| ==> MessageOk(t, m) }

  ghost predicate LifeInv(t: Post) { OwnersInv(t) && MessagesInv(t) }

  // ---- How far administration can move a message ----

  function Rank(s: Status): nat {
    match s case DRAFT => 0 case PENDING_APPROVAL => 0 case QUEUED => 1 case FAILED => 2 case SENT => 3 case CANCELLED => 3
  }

  /** Administration may approve or cancel a message: it never sends, fails, claims or requeues one. */
  ghost predicate Moves(x: Message, y: Message) {
    && y.qr == x.qr && y.recipient == x.recipient && y.mode == x.mode && y.batch == x.batch
    && Rank(x.status) <= Rank(y.status)
    && (Terminal(x.status) ==> y.status == x.status)
    && (y.status in {FAILED, SENT} ==> x.status == y.status)
    && (y.mark.Claim? ==> y == x)
    && (y.status == FAILED ==> y == x)
    && (x.approved.Some? ==> y.approved == x.approved)
    && x.updated <= y.updated
  }

  ghost predicate New(x: Message) { x.status !in {FAILED, SENT} && !x.mark.Claim? }

  ghost predicate SameOwners(t: Post, u: Post) {
    && |t.employees| <= |u.employees| && |t.credentials| <= |u.credentials|
    && (forall e :: 0 <= e < |t.employees| && t.employees[e].archived ==> u.employees[e].archived)
    && (forall q :: 0 <= q < |t.credentials| ==>
          && u.credentials[q].kind == t.credentials[q].kind && u.credentials[q].owner == t.credentials[q].owner
          && u.credentials[q].token == t.credentials[q].token && u.credentials[q].expires == t.credentials[q].expires
          && (t.credentials[q].revoked ==> u.credentials[q].revoked))
  }

  ghost predicate Quiet(t: Post, u: Post) {
    && u.now == t.now && u.limit == t.limit && u.refused == t.refused
    && u.sends == t.sends && u.calls == t.calls && u.sent == t.sent
    && SameOwners(t, u)
    && |t.messages| <= |u.messages|
    && (forall m :: 0 <= m < |t.messages| ==> Moves(t.messages[m], u.messages[m]))
    && (forall m :: |t.messages| <= m < |u.messages| ==> New(u.messages[m]))
  }

  lemma QuietTransitive(t: Post, u: Post, v: Post)
    requires Quiet(t, u) && Quiet(u, v)
    ensures Quiet(t, v)
  {
    forall m | 0 <= m < |t.messages| ensures Moves(t.messages[m], v.messages[m]) {
      assert Moves(t.messages[m], u.messages[m]) && Moves(u.messages[m], v.messages[m]);
    }
    forall m | |t.messages| <= m < |v.messages| ensures New(v.messages[m]) {
      if m < |u.messages| { assert New(u.messages[m]) && Moves(u.messages[m], v.messages[m]); }
    }
  }

  lemma QuietSame(t: Post)
    ensures Quiet(t, t)
  {
  }

  /** `u` keeps the invariant and is reached from `t` quietly. */
  ghost predicate Fine(t: Post, u: Post) { LifeInv(u) && Quiet(t, u) }

  lemma FineThen(t: Post, u: Post, v: Post)
    requires Fine(t, u) && Fine(u, v)
    ensures Fine(t, v)
  {
    QuietTransitive(t, u, v);
    hide LifeInv, Quiet;
  }

  lemma FineKeeps(t: Post, u: Post)
    requires Fine(t, u)
    ensures LifeInv(u) && Quiet(t, u)
  {
  }

  lemma FineSame(t: Post)
    requires LifeInv(t)
    ensures Fine(t, t)
  {
    QuietSame(t);
    hide LifeInv, Quiet;
  }

  // ---- Row operations ----

  lemma OwnersUnchanged(t: Post, u: Post)
    requires OwnersInv(t)
    requires u.employees == t.employees && u.credentials == t.credentials && u.allocations == t.allocations
    ensures OwnersInv(u)
  {
    forall q | 0 <= q < |u.credentials| ensures CredentialOk(u, q) { assert CredentialOk(t, q); }
  }

  lemma CancelFine(t: Post, q: nat)
    requires LifeInv(t)
    ensures Fine(t, Cancel(t, q))
  {
    var u := Cancel(t, q);
    OwnersUnchanged(t, u);
    forall m | 0 <= m < |u.messages| ensures MessageOk(u, m) && Moves(t.messages[m], u.messages[m]) {
      assert MessageOk(t, m);
    }
  }

  lemma AddCredentialFine(t: Post, kind: Kind, owner: Option<nat>, token: Token, expires: Option<int>)
    requires LifeInv(t) && (kind == EMPLOYEE <==> owner.Some?)
    requires owner.Some? ==>
               && owner.value < |t.employees| && !t.employees[owner.value].archived
               && Current(t.credentials, owner.value).None?
    ensures Fine(t, AddCredential(t, kind, owner, token, expires))
  {
    var u := AddCredential(t, kind, owner, token, expires);
    forall q | 0 <= q < |u.credentials| ensures CredentialOk(u, q) {
      if q < |t.credentials| { assert CredentialOk(t, q); }
    }
    forall q: nat, p: nat | q < p < |u.credentials| ensures Apart(u.credentials, q, p) {
      if p < |t.credentials| { assert Apart(t.credentials, q, p); }
    }
    forall m | 0 <= m < |u.messages| ensures MessageOk(u, m) && Moves(t.messages[m], u.messages[m]) {
      assert MessageOk(t, m);
    }
  }

  lemma AddMessageFine(t: Post, q: nat, to: Address, payload: Payload, batch: Option<nat>)
    requires LifeInv(t) && q < |t.credentials|
    requires Addressed(t, Message(q, to, Some(payload), DRAFT, Clear, SINGLE, batch, None, t.now))
    ensures Fine(t, AddMessage(t, q, to, payload, batch))
  {
    var u := AddMessage(t, q, to, payload, batch);
    OwnersUnchanged(t, u);
    forall m | 0 <= m < |u.messages| ensures MessageOk(u, m) {
      if m < |t.messages| { assert MessageOk(t, m); }
    }
  }

  /** All messages of employee `e` are SENT or CANCELLED. */
  ghost predicate Silent(t: Post, e: nat) {
    forall m :: 0 <= m < |t.messages| && Mail(t, m) == Some(e) ==> Terminal(t.messages[m].status)
  }

  /** The employee whose credential message `m` is about, if it is an employee's. */
  function Mail(t: Post, m: nat): Option<nat>
    requires m < |t.messages|
  {
    if t.messages[m].qr < |t.credentials| then t.credentials[t.messages[m].qr].owner else None
  }

  lemma CancelSilences(t: Post, e: nat)
    requires LifeInv(t) && Current(t.credentials, e).Some?
    ensures Silent(Cancel(t, Current(t.credentials, e).value), e)
  {
    var q := Current(t.credentials, e).value;
    var u := Cancel(t, q);
    forall m | 0 <= m < |u.messages| && Mail(u, m) == Some(e)
      ensures Terminal(u.messages[m].status)
    {
      assert MessageOk(t, m);
      var p := t.messages[m].qr;
      if p < q { assert Apart(t.credentials, p, q); }
      if q < p { assert Apart(t.credentials, q, p); }
    }
  }

  lemma UnequippedIsSilent(t: Post, e: nat)
    requires LifeInv(t) && (Current(t.credentials, e).None? || (e < |t.employees| && !t.employees[e].active))
    ensures Silent(t, e)
  {
    forall m | 0 <= m < |t.messages| && Mail(t, m) == Some(e)
      ensures Terminal(t.messages[m].status)
    {
      assert MessageOk(t, m);
    }
  }

  lemma RevokeRowFine(t: Post, q: nat)
    requires LifeInv(t) && q < |t.credentials|
    ensures Fine(t, RevokeRow(t, q))
  {
    hide Current;
    var u := RevokeRow(t, q);
    if u == t { FineSame(t); return; }
    forall p | 0 <= p < |u.credentials| ensures CredentialOk(u, p) { assert CredentialOk(t, p); }
    forall p: nat, p': nat | p < p' < |u.credentials| ensures Apart(u.credentials, p, p') {
      assert Apart(t.credentials, p, p');
    }
    forall m | 0 <= m < |u.messages| ensures MessageOk(u, m) && Moves(t.messages[m], u.messages[m]) {
      assert MessageOk(t, m);
    }
  }

  lemma RevokeCurrentFine(t: Post, e: nat)
    requires LifeInv(t)
    ensures Fine(t, RevokeCurrent(t, e)) && Current(RevokeCurrent(t, e).credentials, e).None?
  {
    var c := Current(t.credentials, e);
    if c.Some? {
      RevokeRowFine(t, c.value);
      OnlyCurrent(t, e);
    } else {
      FineSame(t);
    }
    hide LifeInv, Fine;
  }

  /** Once its current credential is revoked an employee has none. */
  lemma OnlyCurrent(t: Post, e: nat)
    requires LifeInv(t) && Current(t.credentials, e).Some?
    ensures Current(RevokeRow(t, Current(t.credentials, e).value).credentials, e).None?
  {
    var q := Current(t.credentials, e).value;
    var u := RevokeRow(t, q);
    forall p | 0 <= p < |u.credentials| && u.credentials[p].owner == Some(e) ensures u.credentials[p].revoked {
      if p < q { assert Apart(t.credentials, p, q); }
      if q < p { assert Apart(t.credentials, q, p); }
    }
  }

  /** An employee without mail under way may change in any way. */
  lemma SetRowFine(t: Post, e: nat, row: Employee)
    requires LifeInv(t) && e < |t.employees| && Silent(t, e)
    requires t.employees[e].archived ==> row.archived
    requires row.archived ==> !row.active && Current(t.credentials, e).None?
    ensures Fine(t, t.(employees := t.employees[e := row]))
  {
    hide Current;
    var u := t.(employees := t.employees[e := row]);
    forall q | 0 <= q < |u.credentials| ensures CredentialOk(u, q) { assert CredentialOk(t, q); }
    forall m | 0 <= m < |u.messages| ensures MessageOk(u, m) { assert MessageOk(t, m); }
  }

  lemma ApproveRowFine(t: Post, m: nat, actor: nat)
    requires LifeInv(t) && m < |t.messages| && t.messages[m].status in {DRAFT, PENDING_APPROVAL}
    ensures Fine(t, ApproveRow(t, m, actor).0) && ApproveRow(t, m, actor).1.Ok?
  {
    assert MessageOk(t, m);
    var u := ApproveRow(t, m, actor).0;
    OwnersUnchanged(t, u);
    forall k | 0 <= k < |u.messages| ensures MessageOk(u, k) { assert MessageOk(t, k); }
  }
}
