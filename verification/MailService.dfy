/** Employees, credentials and emails as the services change them: row by row, rolled back when a transaction raises.
    Every method is proved to have the effect `MailProtocol` describes. */
module MailService {
  import opened Options
  import opened MailTables
  import opened MailProtocol
  import opened MailInvariant
  import opened MailLife
  import opened MailSending
  import opened MailTheorems

  class MailDatabase {
    var now: int
    const limit: Option<nat>
    const refused: map<Address, Code>
    var employees: seq<Employee>
    var credentials: seq<Credential>
    var allocations: map<nat, Allocation>
    var messages: seq<Message>
    var sends: seq<Send>
    var calls: seq<ProviderCall>
    var sent: seq<Delivery>

    function T(): Post
      reads this
    {
      Post(now, limit, refused, employees, credentials, allocations, messages, sends, calls, sent)
    }

    constructor (now: int, limit: Option<nat>, refused: map<Address, Code>)
      ensures T() == Empty(now, limit, refused)
    {
      this.now, this.limit, this.refused := now, limit, refused;
      employees, credentials, allocations, messages, sends, calls, sent := [], [], map[], [], [], [], [];
    }

    /** ROLLBACK of a transaction of the administration services. */
    method Rollback(saved: Post)
      requires saved == T().(employees := saved.employees, credentials := saved.credentials,
                             allocations := saved.allocations, messages := saved.messages)
      modifies this`employees, this`credentials, this`allocations, this`messages
      ensures T() == saved
    {
      employees, credentials := saved.employees, saved.credentials;
      allocations, messages := saved.allocations, saved.messages;
    }

    // ---- Rows ----

    /** UPDATE email_queue SET ... WHERE qr_id = q */
    method CancelForQr(q: nat)
      modifies this`messages
      ensures T() == Cancel(old(T()), q)
    {
      for m := 0 to |messages|
        invariant |messages| == |old(messages)|
        invariant forall k :: 0 <= k < m ==> messages[k] == CancelRow(old(messages)[k], q, now)
        invariant forall k :: m <= k < |messages| ==> messages[k] == old(messages)[k]
      {
        if messages[m].qr == q {
          var open := messages[m].status in {DRAFT, PENDING_APPROVAL, QUEUED, FAILED};
          messages := messages[
            m := messages[m].(status := if open then CANCELLED else messages[m].status, payload := None, updated := now,
                              mark := Clear)];
        }
      }
      assert messages == Cancel(old(T()), q).messages;
    }

    /** SELECT id FROM qr_credentials WHERE employee_id = e AND revoked_at IS NULL */
    method CurrentQr(e: nat) returns (q: Option<nat>)
      ensures q == Current(credentials, e)
    {
      var k := |credentials|;
      assert credentials[..k] == credentials;
      while k > 0
        invariant 0 <= k <= |credentials|
        invariant Current(credentials[..k], e) == Current(credentials, e)
      {
        k := k - 1;
        assert credentials[..k + 1][..k] == credentials[..k];
        if credentials[k].owner == Some(e) && !credentials[k].revoked { return Some(k); }
      }
      return None;
    }

    method Issue(kind: Kind, owner: Option<nat>, token: Token, expires: Option<int>) returns (outcome: Outcome)
      modifies this`credentials
      ensures if BadExpiry(old(T()), expires) then T() == old(T()) && outcome == Error(INVALID_QR_EXPIRY)
              else T() == AddCredential(old(T()), kind, owner, token, expires) && outcome == Ok(|old(credentials)|)
    {
      if expires.Some? && expires.value <= now { return Error(INVALID_QR_EXPIRY); }
      credentials := credentials + [Credential(kind, owner, token, Some(token), false, expires)];
      return Ok(|credentials| - 1);
    }

    method Enqueue(q: nat, to: Address, payload: Payload, batch: Option<nat>)
      modifies this`messages
      ensures T() == AddMessage(old(T()), q, to, payload, batch)
    {
      messages := messages + [Message(q, to, Some(payload), if batch.Some? then PENDING_APPROVAL else DRAFT, Clear,
                                      if batch.Some? then BULK else SINGLE, batch, None, now)];
    }

    method RevokeCredential(q: nat)
      requires q < |credentials|
      modifies this`credentials, this`messages
      ensures T() == RevokeRow(old(T()), q)
    {
      hide Cancel;
      if credentials[q].revoked { return; }
      credentials := credentials[q := credentials[q].(revoked := true, cipher := None)];
      CancelForQr(q);
    }

    // ---- Employees and their credentials ----

    method Register(email: Address, token: Token, expires: Option<int>, batch: Option<nat>) returns (outcome: Outcome)
      modifies this`employees, this`credentials, this`allocations, this`messages
      ensures (T(), outcome) == MailProtocol.Register(old(T()), email, token, expires, batch)
    {
      hide AddCredential, AddMessage;
      var saved, e := T(), |employees|;
      employees := employees + [Employee(email, true, false)];
      outcome := Issue(EMPLOYEE, Some(e), token, expires);
      if outcome.Error? {
        Rollback(saved);
        return;
      }
      Enqueue(outcome.id, email, ForEmployee(e, token), batch);
      return Ok(e);
    }

    method IssueEmployee(e: nat, token: Token, expires: Option<int>) returns (outcome: Outcome)
      modifies this`credentials, this`messages
      ensures (T(), outcome) == MailProtocol.IssueEmployee(old(T()), e, token, expires)
    {
      hide Current, AddCredential, AddMessage;
      if e >= |employees| { return Error(EMPLOYEE_NOT_FOUND); }
      if !employees[e].active { return Error(EMPLOYEE_INACTIVE); }
      var current := CurrentQr(e);
      if current.Some? { return Error(EMPLOYEE_QR_ALREADY_EXISTS); }
      outcome := Issue(EMPLOYEE, Some(e), token, expires);
      if outcome.Ok? { Enqueue(outcome.id, employees[e].email, ForEmployee(e, token), None); }
    }

    method ReplaceEmployee(e: nat, token: Token, expires: Option<int>) returns (outcome: Outcome)
      modifies this`employees, this`credentials, this`allocations, this`messages
      ensures (T(), outcome) == MailProtocol.ReplaceEmployee(old(T()), e, token, expires)
    {
      hide Current, AddCredential, AddMessage, RevokeRow;
      if e >= |employees| { return Error(EMPLOYEE_NOT_FOUND); }
      if !employees[e].active { return Error(EMPLOYEE_INACTIVE); }
      var saved := T();
      var current := CurrentQr(e);
      if current.Some? {
        RevokeTouches(T(), current.value);
        RevokeCredential(current.value);
      }
      outcome := Issue(EMPLOYEE, Some(e), token, expires);
      if outcome.Error? { Rollback(saved); }
      else { Enqueue(outcome.id, employees[e].email, ForEmployee(e, token), None); }
    }

    method UpdateEmail(e: nat, email: Address) returns (outcome: Outcome)
      modifies this`employees, this`credentials, this`allocations, this`messages
      ensures (T(), outcome) == MailProtocol.UpdateEmail(old(T()), e, email)
    {
      hide Current, Cancel, AddMessage;
      if e >= |employees| { return Error(EMPLOYEE_NOT_FOUND); }
      if employees[e].archived { return Error(EMPLOYEE_REMOVED); }
      if employees[e].email == email { return Ok(e); }
      var saved, active := T(), employees[e].active;
      employees := employees[e := employees[e].(email := email)];
      var current := CurrentQr(e);
      if current.Some? {
        var q := current.value;
        CancelForQr(q);
        if active && !Expired(T(), credentials[q]) {
          var token := Decrypt(credentials[q]);
          if token.Error? {
            Rollback(saved);
            return token;
          }
          Enqueue(q, email, ForEmployee(e, token.id), None);
        }
      }
      return Ok(e);
    }

    method SetActive(e: nat, active: bool) returns (outcome: Outcome)
      modifies this`employees, this`messages
      ensures (T(), outcome) == MailProtocol.SetActive(old(T()), e, active)
    {
      hide Current, Cancel;
      if e >= |employees| { return Error(EMPLOYEE_NOT_FOUND); }
      if employees[e].archived { return Error(EMPLOYEE_REMOVED); }
      employees := employees[e := employees[e].(active := active)];
      if !active {
        var current := CurrentQr(e);
        if current.Some? { CancelForQr(current.value); }
      }
      return Ok(e);
    }

    method ArchiveOne(e: nat)
      requires e < |employees|
      modifies this`employees, this`credentials, this`messages
      ensures T() == ArchiveRow(old(T()), e)
    {
      hide Current, RevokeRow;
      employees := employees[e := employees[e].(active := false, archived := true)];
      var current := CurrentQr(e);
      if current.Some? { RevokeCredential(current.value); }
    }

    method Archive(e: nat) returns (outcome: Outcome)
      modifies this`employees, this`credentials, this`messages
      ensures (T(), outcome) == MailProtocol.Archive(old(T()), e)
    {
      hide ArchiveRow;
      if e >= |employees| { return Error(EMPLOYEE_NOT_FOUND); }
      if employees[e].archived { return Error(EMPLOYEE_ALREADY_REMOVED); }
      ArchiveOne(e);
      return Ok(e);
    }

    method ArchiveBulk(es: seq<nat>) returns (outcome: Outcome)
      modifies this`employees, this`credentials, this`messages
      ensures (T(), outcome) == MailProtocol.ArchiveBulk(old(T()), es)
    {
      hide ArchiveRow;
      if es == [] || exists i, j :: 0 <= i < j < |es| && es[i] >= es[j] { return Error(INVALID_EMPLOYEE_IDS); }
      if exists i :: 0 <= i < |es| && es[i] >= |employees| { return Error(EMPLOYEE_NOT_FOUND); }
      if exists i :: 0 <= i < |es| && employees[es[i]].archived { return Error(EMPLOYEE_ALREADY_REMOVED); }
      for i := 0 to |es|
        invariant |employees| == |old(employees)|
        invariant T() == ArchiveRows(old(T()), es[..i])
      {
        assert es[..i + 1][..i] == es[..i];
        ArchiveOne(es[i]);
        assert T() == ArchiveRows(old(T()), es[..i + 1]);
      }
      assert es[..|es|] == es;
      return Ok(|es|);
    }

    /** SELECT ... WHERE qr_id = q [AND recipient_email = to] ORDER BY id DESC LIMIT 1 */
    method LatestMessage(q: nat, to: Option<Address>) returns (m: Option<nat>)
      ensures m == Latest(messages, q, to)
    {
      var k := |messages|;
      assert messages[..k] == messages;
      while k > 0
        invariant 0 <= k <= |messages|
        invariant Latest(messages[..k], q, to) == Latest(messages, q, to)
      {
        k := k - 1;
        assert messages[..k + 1][..k] == messages[..k];
        if messages[k].qr == q && (to.None? || messages[k].recipient == to.value) { return Some(k); }
      }
      return None;
    }

    method ResendEmployee(e: nat) returns (outcome: Outcome)
      modifies this`messages
      ensures (T(), outcome) == MailProtocol.ResendEmployee(old(T()), e)
    {
      hide Current, Latest, AddMessage, NeedsReview;
      if e >= |employees| { return Error(EMPLOYEE_NOT_FOUND); }
      if !employees[e].active { return Error(EMPLOYEE_INACTIVE); }
      var current := CurrentQr(e);
      if current.None? { return Error(QR_NOT_FOUND); }
      var q := current.value;
      if Expired(T(), credentials[q]) { return Error(QR_EXPIRED); }
      var previous := LatestMessage(q, Some(employees[e].email));
      if previous.Some? {
        var x := messages[previous.value];
        if NeedsReview(x) { return Error(EMAIL_DELIVERY_NEEDS_REVIEW); }
        if x.mode == SINGLE && x.status in {DRAFT, QUEUED} { return Ok(previous.value); }
      }
      var token := Decrypt(credentials[q]);
      if token.Error? { return token; }
      outcome := Ok(|messages|);
      Enqueue(q, employees[e].email, ForEmployee(e, token.id), None);
    }

    method Revoke(q: nat) returns (outcome: Outcome)
      modifies this`credentials, this`messages
      ensures (T(), outcome) == MailProtocol.Revoke(old(T()), q)
    {
      hide RevokeRow;
      if q >= |credentials| { return Error(QR_NOT_FOUND); }
      RevokeCredential(q);
      return Ok(q);
    }

    // ---- Visitors ----

    method IssueMaster(details: Option<Option<Address>>, token: Token, expires: Option<int>, batch: Option<nat>)
      returns (outcome: Outcome)
      modifies this`credentials, this`allocations, this`messages
      ensures (T(), outcome) == AddVisitor(old(T()), details, token, expires, batch)
    {
      hide AddCredential, AddMessage;
      outcome := Issue(MASTER, None, token, expires);
      if outcome.Ok? && details.Some? {
        var q := outcome.id;
        AddedCredential(old(T()), token, expires);
        allocations := allocations[q := Allocation(details.value, false)];
        if details.value.Some? { Enqueue(q, details.value.value, ForVisitor(q, token), batch); }
      }
    }

    method ReplaceMaster(q: nat, details: Option<Option<Address>>, token: Token, expires: Option<int>)
      returns (outcome: Outcome)
      modifies this`employees, this`credentials, this`allocations, this`messages
      ensures (T(), outcome) == MailProtocol.ReplaceMaster(old(T()), q, details, token, expires)
    {
      hide AddVisitor, RevokeRow;
      if q >= |credentials| { return Error(QR_NOT_FOUND); }
      if credentials[q].kind != MASTER { return Error(MASTER_QR_REQUIRED); }
      if credentials[q].revoked { return Error(QR_REVOKED); }
      var saved := T();
      RevokeCredential(q);
      outcome := IssueMaster(details, token, expires, None);
      if outcome.Error? { Rollback(saved); }
    }

    // ---- Approving ----

    method ApproveMessage(m: nat, actor: nat) returns (outcome: Outcome)
      requires m < |messages|
      modifies this`messages
      ensures (T(), outcome) == ApproveRow(old(T()), m, actor)
    {
      if messages[m].approved.Some? { return Error(EMAIL_APPROVAL_CONFLICT); }
      messages := messages[
        m := messages[m].(status := QUEUED, approved := Some(actor), updated := now, mark := Clear)];
      return Ok(m);
    }

    method ApproveSingle(m: nat, owner: nat, actor: nat) returns (outcome: Outcome)
      modifies this`messages
      ensures (T(), outcome) == MailProtocol.ApproveSingle(old(T()), m, owner, actor)
    {
      hide PreviewProblem, ApproveRow;
      if !Known(T(), m) { return Error(EMAIL_NOT_FOUND); }
      var x, o := messages[m], OwnerOf(T(), messages[m].qr);
      if o.None? || o.value.id != owner { return Error(EMAIL_NOT_FOUND); }
      if x.mode != SINGLE { return Error(SINGLE_EMAIL_REQUIRED); }
      if x.status == DRAFT {
        var problem := PreviewProblem(T(), m, DRAFT);
        if problem.Some? { return Error(problem.value); }
        outcome := ApproveMessage(m, actor);
      } else if (x.status == QUEUED && x.approved.None?) || x.status !in {QUEUED, SENT, FAILED, CANCELLED} {
        return Error(EMAIL_APPROVAL_REQUIRED);
      } else {
        return Ok(m);
      }
    }

    /** The rows a bulk request names, in the order they are locked. */
    method LockRows(ids: seq<nat>) returns (error: Option<Code>)
      ensures error == if exists i :: 0 <= i < |ids| && !Known(T(), ids[i]) then Some(EMAIL_NOT_FOUND)
                       else if exists i :: 0 <= i < |ids| && messages[ids[i]].mode != BULK then Some(BULK_EMAIL_REQUIRED)
                       else None
    {
      if exists i :: 0 <= i < |ids| && !Known(T(), ids[i]) { return Some(EMAIL_NOT_FOUND); }
      for i := 0 to |ids|
        invariant forall k :: 0 <= k < i ==> messages[ids[k]].mode == BULK
      {
        if messages[ids[i]].mode != BULK { return Some(BULK_EMAIL_REQUIRED); }
      }
      return None;
    }

    /** `approve_bulk`: one loop checks every row and collects those that wait, the next approves them. */
    method ApproveBulk(ids: seq<nat>, actor: nat) returns (outcome: Outcome)
      modifies this`employees, this`credentials, this`allocations, this`messages
      ensures (T(), outcome) == MailProtocol.ApproveBulk(old(T()), ids, actor)
    {
      hide BulkProblem, ApproveRow, FirstProblem, ApproveRows, Known;
      if !(1 <= |ids| <= 100) || !Distinct(ids) { return Error(INVALID_EMAIL_IDS); }
      var error := LockRows(ids);
      if error.Some? { return Error(error.value); }
      error := Problems(ids);
      if error.Some? { return Error(error.value); }
      outcome := ApproveWaiting(ids, actor);
    }

    method Problems(ids: seq<nat>) returns (error: Option<Code>)
      requires forall i :: 0 <= i < |ids| ==> Known(T(), ids[i])
      ensures error == FirstProblem(T(), ids)
    {
      hide BulkProblem, Known;
      for i := 0 to |ids|
        invariant FirstProblem(T(), ids[..i]).None?
      {
        assert ids[..i + 1][..i] == ids[..i];
        error := BulkProblem(T(), ids[i]);
        if error.Some? {
          ProblemStays(T(), ids, i);
          return;
        }
      }
      assert ids[..|ids|] == ids;
      return None;
    }

    method ApproveWaiting(ids: seq<nat>, actor: nat) returns (outcome: Outcome)
      requires forall i :: 0 <= i < |ids| ==> Known(T(), ids[i])
      modifies this`employees, this`credentials, this`allocations, this`messages
      ensures (T(), outcome) == ApproveRows(old(T()), ids, actor)
    {
      hide ApproveRow;
      var saved := T();
      outcome := Ok(0);
      for i := 0 to |ids|
        invariant |messages| == |saved.messages| && outcome.Ok?
        invariant T() == saved.(messages := messages)
        invariant (T(), outcome) == ApproveRows(saved, ids[..i], actor)
      {
        assert ids[..i + 1][..i] == ids[..i];
        assert Known(saved, ids[i]);
        if saved.messages[ids[i]].status == PENDING_APPROVAL {
          var approved := ApproveMessage(ids[i], actor);
          if approved.Error? {
            Rollback(saved);
            ErrorStays(saved, ids, actor, i, approved);
            return approved;
          }
          outcome := Ok(outcome.id + 1);
          assert T() == ApproveRows(saved, ids[..i + 1], actor).0;
        }
      }
      assert ids[..|ids|] == ids;
    }

    /** SELECT COUNT(*) ... WHERE status = 'SENT' AND updated_at >= since */
    method CountSentSince(since: int) returns (n: nat)
      ensures n == |SentSince(messages, since)|
    {
      n := 0;
      for m := 0 to |messages|
        invariant n == |SentSince(messages[..m], since)|
      {
        SentSinceGrows(messages, since, m);
        if messages[m].status == SENT && messages[m].updated >= since { n := n + 1; }
      }
      assert messages[..|messages|] == messages;
    }

    method CountQueued() returns (n: nat)
      ensures n == |QueuedNow(messages)|
    {
      n := 0;
      for m := 0 to |messages|
        invariant n == |QueuedNow(messages[..m])|
      {
        QueuedGrows(messages, m);
        if messages[m].status == QUEUED { n := n + 1; }
      }
      assert messages[..|messages|] == messages;
    }

    method RemainingToday(allowance: nat) returns (n: nat)
      ensures n == Remaining(T(), allowance)
    {
      hide SentSince, QueuedNow;
      var sentToday := CountSentSince(now - DAY);
      var queued := CountQueued();
      var left := allowance - sentToday - queued;
      n := if left < 0 then 0 else left;
    }

    method PendingIds(batch: nat) returns (ids: seq<nat>)
      ensures ids == Pending(messages, batch)
    {
      ids := [];
      for m := 0 to |messages|
        invariant ids == Pending(messages[..m], batch)
      {
        assert messages[..m + 1][..m] == messages[..m];
        if messages[m].batch == Some(batch) && messages[m].status == PENDING_APPROVAL { ids := ids + [m]; }
      }
      assert messages[..|messages|] == messages;
    }

    /** `approve_emails`: each waiting row is checked and approved in turn; the first problem rolls all of it back. */
    method ApproveEmails(batch: nat, expected: nat, allowance: nat, actor: nat) returns (outcome: Outcome)
      requires LifeInv(T())
      modifies this`employees, this`credentials, this`allocations, this`messages
      ensures (T(), outcome) == MailProtocol.ApproveEmails(old(T()), batch, expected, allowance, actor)
    {
      hide Pending, Remaining, ApproveListed;
      var ids := PendingIds(batch);
      if ids == [] { return Error(VISITOR_BATCH_NOTHING_TO_SEND); }
      if |ids| != expected { return Error(EMAIL_COUNT_CHANGED); }
      var remaining := RemainingToday(allowance);
      if |ids| > remaining { return Error(EMAIL_DAILY_LIMIT_EXCEEDED); }
      PendingListed(T(), batch);
      outcome := ApproveInTurn(ids, actor);
    }

    method ApproveInTurn(ids: seq<nat>, actor: nat) returns (outcome: Outcome)
      requires LifeInv(T()) && Distinct(ids)
      requires forall i :: 0 <= i < |ids| ==>
                 Known(T(), ids[i]) && messages[ids[i]].mode == BULK && messages[ids[i]].status == PENDING_APPROVAL
      modifies this`employees, this`credentials, this`allocations, this`messages
      ensures (T(), outcome) == ApproveListed(old(T()), ids, actor)
    {
      hide LifeInv, ApproveRow, PreviewProblem;
      var saved := T();
      outcome := Ok(0);
      for i := 0 to |ids|
        invariant T() == saved.(messages := messages) && outcome.Ok?
        invariant (T(), outcome) == ApproveRows(saved, ids[..i], actor)
        invariant FirstProblem(saved, ids[..i]).None?
      {
        assert ids[..i + 1][..i] == ids[..i];
        assert Known(saved, ids[i]);
        PreviewUnmoved(saved, ids, i, actor);
        var problem := PreviewProblem(T(), ids[i], PENDING_APPROVAL);
        if problem.Some? {
          Rollback(saved);
          ProblemStays(saved, ids, i);
          return Error(problem.value);
        }
        var approved := ApproveMessage(ids[i], actor);
        outcome := Ok(outcome.id + 1);
      }
      assert ids[..|ids|] == ids;
    }

    method CountMessages(q: nat, to: Address) returns (n: nat)
      ensures n == CountTo(messages, q, to)
    {
      n := 0;
      for m := 0 to |messages|
        invariant n == CountTo(messages[..m], q, to)
      {
        assert messages[..m + 1][..m] == messages[..m];
        if messages[m].qr == q && messages[m].recipient == to { n := n + 1; }
      }
      assert messages[..|messages|] == messages;
    }

    /** `approve_visitor`, for a draft of visitor QR `q` */
    method ApproveVisitor(m: nat, q: nat, actor: nat) returns (outcome: Outcome)
      requires Known(T(), m) && messages[m].mode == SINGLE && messages[m].status == DRAFT
      modifies this`messages
      ensures (T(), outcome) == ApproveDraft(old(T()), m, actor, DRAFT)
    {
      hide PreviewProblem, ApproveRow;
      var problem := PreviewProblem(T(), m, DRAFT);
      if problem.Some? { return Error(problem.value); }
      outcome := ApproveMessage(m, actor);
    }

    method PrepareSingle(q: nat, allowance: nat, actor: nat) returns (outcome: Outcome)
      requires LifeInv(T())
      modifies this`employees, this`credentials, this`allocations, this`messages
      ensures (T(), outcome) == MailProtocol.PrepareSingle(old(T()), q, allowance, actor)
    {
      hide Latest, CountTo, Remaining, ApproveDraft;
      if q >= |credentials| || credentials[q].kind != MASTER || q !in allocations { return Error(MASTER_QR_REQUIRED); }
      if allocations[q].email.None? { return Error(VISITOR_EMAIL_MISSING); }
      if credentials[q].revoked || allocations[q].exhausted || Expired(T(), credentials[q]) {
        return Error(QR_NOT_ACTIVE);
      }
      var latest := LatestMessage(q, None);
      if latest.Some? && messages[latest.value].status in {QUEUED, PENDING_APPROVAL} {
        return Error(EMAIL_ALREADY_PENDING);
      }
      var remaining := RemainingToday(allowance);
      if remaining < 1 { return Error(EMAIL_DAILY_LIMIT_EXCEEDED); }
      if latest.Some? && messages[latest.value].status == DRAFT && messages[latest.value].mode == SINGLE {
        outcome := ApproveVisitor(latest.value, q, actor);
      } else {
        outcome := PrepareAnew(q, actor);
      }
    }

    /** A new message for the visitor, approved at once. */
    method PrepareAnew(q: nat, actor: nat) returns (outcome: Outcome)
      requires q < |credentials| && q in allocations && allocations[q].email.Some?
      modifies this`employees, this`credentials, this`allocations, this`messages
      ensures (T(), outcome) == Prepared(old(T()), q, actor)
    {
      hide CountTo, ApproveDraft;
      var saved, m, email := T(), |messages|, allocations[q].email.value;
      var count := CountMessages(q, email);
      if count > RESEND_LIMIT { return Error(EMAIL_RESEND_LIMIT_REACHED); }
      var token := Decrypt(credentials[q]);
      if token.Error? { return token; }
      Enqueue(q, email, ForVisitor(q, token.id), None);
      outcome := ApproveVisitor(m, q, actor);
      if outcome.Error? { Rollback(saved); }
    }

    // ---- Sending ----

    /** The three transactions of `send`: the limit, the claim, the delivery. */
    method LimitReached(m: nat) returns (send: Option<nat>)
      modifies this`sends
      ensures T() == Check(old(T()), m)
      ensures send == if T() == old(T()) then None else Some(|old(sends)|)
    {
      if limit.Some? {
        var sentToday := CountSentSince(now - DAY);
        if sentToday >= limit.value { return None; }
      }
      send := Some(|sends|);
      sends := sends + [Send(m, Checked, now, |sent|, InFlight(sends))];
    }

    method StoreStatus(m: nat, status: Status, mark: Mark, at: int)
      requires m < |messages|
      modifies this`messages
      ensures T() == SetStatus(old(T()), m, status, mark, at)
    {
      messages := messages[
        m := messages[m].(status := status, mark := mark, updated := at,
                          payload := if status in {SENT, CANCELLED} then None else messages[m].payload)];
    }

    method Advance(i: nat, stage: Stage)
      requires i < |sends|
      modifies this`sends
      ensures T() == old(T()).(sends := old(sends)[i := old(sends)[i].(stage := stage)])
    {
      sends := sends[i := sends[i].(stage := stage)];
    }

    /** `_claim`.  When the commit is not acknowledged the send stops, whether or not the claim took effect. */
    method Claim(i: nat, acknowledged: bool)
      modifies this`sends, this`messages
      ensures T() == ClaimStep(old(T()), i, acknowledged)
    {
      hide Validate, SetStatus;
      if i >= |sends| || sends[i].stage != Checked { return; }
      var m := sends[i].message;
      Advance(i, Done);
      if !Known(T(), m) || messages[m].status != QUEUED || messages[m].approved.None? { return; }
      ValidateIgnoresSends(old(T()), T(), m, QUEUED);
      var validity := Validate(T(), m, QUEUED);
      if validity.Problem? {
        StoreStatus(m, validity.status, Reason(validity.code), now);
      } else {
        if acknowledged { Advance(i, Claimed); }
        assert sends == old(sends)[i := old(sends)[i].(stage := if acknowledged then Claimed else Done)];
        StoreStatus(m, FAILED, MailTables.Claim(i), now);
      }
    }

    /** `_deliver` */
    method Deliver(i: nat, p: Provider, lag: nat, committed: bool)
      modifies this`sends, this`messages, this`calls, this`sent
      ensures T() == MailProtocol.Deliver(old(T()), i, p, lag, committed)
    {
      hide Validate, SetStatus;
      if i >= |sends| || sends[i].stage != Claimed { return; }
      var m, at := sends[i].message, Stamp(T(), i, lag);
      Advance(i, Done);
      if !Holds(T(), m, i) { return; }
      ValidateIgnoresSends(old(T()), T(), m, FAILED);
      var validity := Validate(T(), m, FAILED);
      if validity.Problem? {
        if committed { StoreStatus(m, validity.status, Reason(validity.code), now); }
        return;
      }
      calls := calls + [ProviderCall(m, i, messages[m].recipient, credentials[messages[m].qr].token)];
      if committed {
        if p.Accepted? { sent := sent + [Delivery(m, i, at)]; }
        StoreStatus(m, Verdict(p).0, Verdict(p).1, at);
      }
    }

    // ---- Any transaction ----

    method PerformAdministration(e: Event)
      requires LifeInv(T())
      modifies this
      ensures T() == Administer(old(T()), e)
    {
      hide LifeInv, MailProtocol.Register, MailProtocol.UpdateEmail, MailProtocol.SetActive, MailProtocol.Archive,
        MailProtocol.ArchiveBulk, MailProtocol.IssueEmployee, MailProtocol.ReplaceEmployee, MailProtocol.ResendEmployee,
        MailProtocol.Revoke, AddVisitor, MailProtocol.ReplaceMaster, MailProtocol.ApproveSingle,
        MailProtocol.ApproveBulk, MailProtocol.ApproveEmails, MailProtocol.PrepareSingle;
      match e
      case OnRegister(email, token, expires, batch) => var _ := Register(email, token, expires, batch);
      case OnUpdateEmail(n, email) => var _ := UpdateEmail(n, email);
      case OnSetActive(n, active) => var _ := SetActive(n, active);
      case OnArchive(n) => var _ := Archive(n);
      case OnArchiveBulk(ns) => var _ := ArchiveBulk(ns);
      case OnIssueEmployee(n, token, expires) => var _ := IssueEmployee(n, token, expires);
      case OnReplaceEmployee(n, token, expires) => var _ := ReplaceEmployee(n, token, expires);
      case OnResendEmployee(n) => var _ := ResendEmployee(n);
      case OnRevoke(q) => var _ := Revoke(q);
      case OnIssueMaster(details, token, expires, batch) => var _ := IssueMaster(details, token, expires, batch);
      case OnReplaceMaster(q, details, token, expires) => var _ := ReplaceMaster(q, details, token, expires);
      case OnExhaust(q) =>
        if q in allocations { allocations := allocations[q := allocations[q].(exhausted := true)]; }
      case OnApproveSingle(m, owner, actor) => var _ := ApproveSingle(m, owner, actor);
      case OnApproveBulk(ids, actor) => var _ := ApproveBulk(ids, actor);
      case OnApproveEmails(group, expected, allowance, actor) =>
        var _ := ApproveEmails(group, expected, allowance, actor);
      case OnPrepareSingle(q, allowance, actor) => var _ := PrepareSingle(q, allowance, actor);
      case OnCheck(_) =>
      case OnClaim(_, _) =>
      case OnDeliver(_, _, _, _) =>
      case OnCrash(_) =>
      case OnTick(_) =>
    }

    method Perform(e: Event)
      requires Inv(T())
      modifies this
      ensures T() == Step(old(T()), e) && Inv(T())
    {
      StepGood(T(), e);
      GoodInv(T(), Step(T(), e));
      InvLife(T());
      hide Inv, Good, LifeInv, Check, ClaimStep, MailProtocol.Deliver, Administer;
      if e.OnCheck? { var _ := LimitReached(e.message); }
      else if e.OnClaim? { Claim(e.send, e.acknowledged); }
      else if e.OnDeliver? { Deliver(e.send, e.provider, e.lag, e.committed); }
      else if e.OnCrash? { if e.send < |sends| { Advance(e.send, Done); } }
      else if e.OnTick? { now := now + e.elapsed; }
      else { PerformAdministration(e); }
    }

    method PerformAll(es: seq<Event>)
      requires Inv(T())
      modifies this
      ensures T() == Run(old(T()), es) && Inv(T())
    {
      hide Inv, Step;
      assert es[..0] == [];
      for i := 0 to |es|
        invariant Inv(T()) && T() == Run(old(T()), es[..i])
      {
        RunAppend(old(T()), es[..i], [es[i]]);
        assert es[..i + 1] == es[..i] + [es[i]];
        RunOne(T(), es[i]);
        Perform(es[i]);
      }
      assert es[..|es|] == es;
    }
  }

  lemma RevokeTouches(t: Post, q: nat)
    requires q < |t.credentials|
    ensures RevokeRow(t, q) == t.(credentials := RevokeRow(t, q).credentials, messages := RevokeRow(t, q).messages)
  {
  }

  lemma AddedCredential(t: Post, token: Token, expires: Option<int>)
    ensures AddCredential(t, MASTER, None, token, expires).allocations == t.allocations
    ensures |AddCredential(t, MASTER, None, token, expires).credentials| == |t.credentials| + 1
  {
  }

  /** The first problem found is the one reported. */
  lemma {:induction false} ProblemStays(t: Post, ids: seq<nat>, i: nat)
    requires i < |ids| && forall k :: 0 <= k < |ids| ==> Known(t, ids[k])
    requires FirstProblem(t, ids[..i]).None? && BulkProblem(t, ids[i]).Some?
    ensures FirstProblem(t, ids) == BulkProblem(t, ids[i])
    decreases |ids|
  {
    hide BulkProblem, Known;
    if i == |ids| - 1 {
    } else {
      var rest := ids[..|ids| - 1];
      assert rest[..i] == ids[..i];
      ProblemStays(t, rest, i);
    }
  }

  lemma {:induction false} ErrorStays(t: Post, ids: seq<nat>, actor: nat, i: nat, error: Outcome)
    requires i < |ids| && error.Error? && forall k :: 0 <= k < |ids| ==> Known(t, ids[k])
    requires ApproveRows(t, ids[..i + 1], actor) == (t, error)
    ensures ApproveRows(t, ids, actor) == (t, error)
    decreases |ids|
  {
    hide ApproveRow;
    if i == |ids| - 1 {
      assert ids[..i + 1] == ids;
    } else {
      var rest := ids[..|ids| - 1];
      assert rest[..i + 1] == ids[..i + 1];
      ErrorStays(t, rest, actor, i, error);
    }
  }

  lemma SentSinceGrows(ms: seq<Message>, since: int, m: nat)
    requires m < |ms|
    ensures SentSince(ms[..m + 1], since)
            == SentSince(ms[..m], since) + if ms[m].status == SENT && ms[m].updated >= since then {m} else {}
    ensures m !in SentSince(ms[..m], since)
  {
  }

  lemma QueuedGrows(ms: seq<Message>, m: nat)
    requires m < |ms|
    ensures QueuedNow(ms[..m + 1]) == QueuedNow(ms[..m]) + if ms[m].status == QUEUED then {m} else {}
    ensures m !in QueuedNow(ms[..m])
  {
  }

  /** Rows waiting for a batch approval are bulk rows of known credentials, each listed once. */
  lemma PendingListed(t: Post, batch: nat)
    requires LifeInv(t)
    ensures var ids := Pending(t.messages, batch);
            && Distinct(ids)
            && forall i :: 0 <= i < |ids| ==>
                 && Known(t, ids[i])
                 && t.messages[ids[i]].mode == BULK && t.messages[ids[i]].status == PENDING_APPROVAL
  {
    var ids := Pending(t.messages, batch);
    forall i | 0 <= i < |ids| ensures Known(t, ids[i]) && t.messages[ids[i]].mode == BULK {
      assert MessageOk(t, ids[i]);
    }
  }

  /** Approving the rows before it neither changes what the next row is checked for nor fails. */
  lemma PreviewUnmoved(t: Post, ids: seq<nat>, i: nat, actor: nat)
    requires LifeInv(t) && Distinct(ids) && i < |ids| && forall k :: 0 <= k < |ids| ==> Known(t, ids[k])
    requires Known(t, ids[i]) && t.messages[ids[i]].status == PENDING_APPROVAL
    requires ApproveRows(t, ids[..i], actor).0 == t.(messages := ApproveRows(t, ids[..i], actor).0.messages)
    ensures var u, m := ApproveRows(t, ids[..i], actor).0, ids[i];
            && Known(u, m) && PreviewProblem(u, m, PENDING_APPROVAL) == BulkProblem(t, m)
            && ApproveRow(u, m, actor).1.Ok?
  {
    hide LifeInv;
    var u, m := ApproveRows(t, ids[..i], actor).0, ids[i];
    ApproveRowsFine(t, ids[..i], actor);
    assert m !in ids[..i];
    assert u.messages[m] == t.messages[m];
    FineKeeps(t, u);
    ApproveRowFine(u, m, actor);
    hide ApproveRows;
  }

  lemma ValidateIgnoresSends(t: Post, u: Post, m: nat, status: Status)
    requires Known(t, m) && u == t.(sends := u.sends)
    ensures Known(u, m) && Validate(u, m, status) == Validate(t, m, status)
  {
  }

  lemma RunOne(t: Post, e: Event)
    ensures Run(t, [e]) == Step(t, e)
  {
    hide Step;
    assert Run(Step(t, e), [e][1..]) == Step(t, e);
  }
}
