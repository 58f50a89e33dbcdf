/** Every transaction of the administration services keeps the employee, credential and message invariant. */
module MailLife {
  import opened Options
  import opened MailTables
  import opened MailProtocol
  import opened MailInvariant

  // ---- Employees ----

  lemma AddEmployeeFine(t: Post, email: Address)
    requires LifeInv(t)
    ensures Fine(t, t.(employees := t.employees + [Employee(email, true, false)]))
    ensures Current(t.credentials, |t.employees|).None?
  {
    var u := t.(employees := t.employees + [Employee(email, true, false)]);
    forall q | 0 <= q < |u.credentials|
      ensures CredentialOk(u, q) && t.credentials[q].owner != Some(|t.employees|)
    {
      assert CredentialOk(t, q);
    }
    forall m | 0 <= m < |u.messages| ensures MessageOk(u, m) { assert MessageOk(t, m); }
  }

  lemma EquipFine(t: Post, e: nat, token: Token, expires: Option<int>)
    requires LifeInv(t) && e < |t.employees| && t.employees[e].active && Current(t.credentials, e).None?
    ensures Fine(t, Equip(t, e, token, expires).0)
  {
    var u := AddCredential(t, EMPLOYEE, Some(e), token, expires);
    AddCredentialFine(t, EMPLOYEE, Some(e), token, expires);
    AddMessageFine(u, |t.credentials|, t.employees[e].email, ForEmployee(e, token), None);
    FineThen(t, u, AddMessage(u, |t.credentials|, t.employees[e].email, ForEmployee(e, token), None));
    FineSame(t);
    hide LifeInv, Fine, Current;
  }

  lemma RegisterFine(t: Post, email: Address, token: Token, expires: Option<int>, batch: Option<nat>)
    requires LifeInv(t)
    ensures Fine(t, Register(t, email, token, expires, batch).0)
  {
    hide Current;
    var e, q := |t.employees|, |t.credentials|;
    var u := t.(employees := t.employees + [Employee(email, true, false)]);
    AddEmployeeFine(t, email);
    var v := AddCredential(u, EMPLOYEE, Some(e), token, expires);
    AddCredentialFine(u, EMPLOYEE, Some(e), token, expires);
    AddMessageFine(v, q, email, ForEmployee(e, token), batch);
    FineThen(t, u, v);
    FineThen(t, v, AddMessage(v, q, email, ForEmployee(e, token), batch));
    FineSame(t);
    hide LifeInv, Fine;
  }

  lemma ReplaceFine(t: Post, e: nat, token: Token, expires: Option<int>)
    requires LifeInv(t)
    ensures Fine(t, ReplaceEmployee(t, e, token, expires).0)
  {
    hide Current, Equip;
    FineSame(t);
    if e < |t.employees| && t.employees[e].active {
      var u := RevokeCurrent(t, e);
      RevokeCurrentFine(t, e);
      EquipFine(u, e, token, expires);
      FineThen(t, u, Equip(u, e, token, expires).0);
    }
    hide LifeInv, Fine;
  }

  /** Resetting an employee cancels first, for the purposes of the proof: it comes to the same. */
  lemma ResetFine(t: Post, e: nat, row: Employee)
    requires LifeInv(t) && e < |t.employees| && !t.employees[e].archived && !row.archived
    ensures Fine(t, Reset(t, e, row)) && Silent(Reset(t, e, row), e)
  {
    hide Current;
    var c := Current(t.credentials, e);
    if c.None? {
      UnequippedIsSilent(t, e);
      SetRowFine(t, e, row);
    } else {
      var u := Cancel(t, c.value);
      CancelFine(t, c.value);
      CancelSilences(t, e);
      SetRowFine(u, e, row);
      assert Reset(t, e, row) == u.(employees := u.employees[e := row]);
      FineThen(t, u, Reset(t, e, row));
    }
    hide LifeInv, Fine;
  }

  lemma UpdateFine(t: Post, e: nat, email: Address)
    requires LifeInv(t)
    ensures Fine(t, UpdateEmail(t, e, email).0)
  {
    hide Current, Reset;
    FineSame(t);
    if e < |t.employees| && !t.employees[e].archived && t.employees[e].email != email {
      var row := t.employees[e].(email := email);
      var u := Reset(t, e, row);
      ResetFine(t, e, row);
      var c := Current(t.credentials, e);
      if c.Some? && t.employees[e].active {
        ResetKeepsOwners(t, e, row);
        assert CredentialOk(t, c.value);
        var payload := ForEmployee(e, t.credentials[c.value].token);
        AddMessageFine(u, c.value, email, payload, None);
        FineThen(t, u, AddMessage(u, c.value, email, payload, None));
      }
    }
    hide LifeInv, Fine;
  }

  lemma ResetKeepsOwners(t: Post, e: nat, row: Employee)
    requires e < |t.employees|
    ensures var u := Reset(t, e, row);
            u.credentials == t.credentials && u.employees == t.employees[e := row] && u.allocations == t.allocations
  {
  }

  lemma SetActiveFine(t: Post, e: nat, active: bool)
    requires LifeInv(t)
    ensures Fine(t, SetActive(t, e, active).0)
  {
    hide Current, Reset;
    FineSame(t);
    if e < |t.employees| && !t.employees[e].archived {
      var row := t.employees[e].(active := active);
      if !active { ResetFine(t, e, row); }
      else if !t.employees[e].active {
        UnequippedIsSilent(t, e);
        SetRowFine(t, e, row);
      } else {
        assert t.employees[e := row] == t.employees;
      }
    }
    hide LifeInv, Fine;
  }

  lemma ArchiveRowFine(t: Post, e: nat)
    requires LifeInv(t) && e < |t.employees|
    ensures Fine(t, ArchiveRow(t, e))
  {
    hide Current;
    var row := t.employees[e].(active := false, archived := true);
    var u := RevokeCurrent(t, e);
    RevokeCurrentFine(t, e);
    UnequippedIsSilent(u, e);
    SetRowFine(u, e, row);
    RevokeCommutes(t, e, row);
    FineThen(t, u, ArchiveRow(t, e));
    hide LifeInv, Fine;
  }

  lemma RevokeCommutes(t: Post, e: nat, row: Employee)
    requires e < |t.employees|
    ensures var u := RevokeCurrent(t, e);
            RevokeCurrent(t.(employees := t.employees[e := row]), e) == u.(employees := u.employees[e := row])
  {
    var c := Current(t.credentials, e);
    if c.Some? {
      var u, v := RevokeRow(t, c.value), RevokeRow(t.(employees := t.employees[e := row]), c.value);
      assert u.messages == v.messages;
    }
  }

  lemma {:induction false} ArchiveRowsFine(t: Post, es: seq<nat>)
    requires LifeInv(t) && forall i :: 0 <= i < |es| ==> es[i] < |t.employees|
    ensures Fine(t, ArchiveRows(t, es))
  {
    hide LifeInv, Fine, ArchiveRow;
    if es == [] {
      FineSame(t);
    } else {
      var u := ArchiveRows(t, es[..|es| - 1]);
      ArchiveRowsFine(t, es[..|es| - 1]);
      FineKeeps(t, u);
      ArchiveRowFine(u, es[|es| - 1]);
      FineThen(t, u, ArchiveRows(t, es));
    }
  }

  lemma ArchiveBulkFine(t: Post, es: seq<nat>)
    requires LifeInv(t)
    ensures Fine(t, ArchiveBulk(t, es).0)
  {
    FineSame(t);
    if ArchiveBulk(t, es).1.Ok? { ArchiveRowsFine(t, es); }
    hide LifeInv, Fine, ArchiveRows;
  }

  lemma ResendFine(t: Post, e: nat)
    requires LifeInv(t)
    ensures Fine(t, ResendEmployee(t, e).0)
  {
    hide Latest;
    FineSame(t);
    if e < |t.employees| && t.employees[e].active && Current(t.credentials, e).Some? {
      var q := Current(t.credentials, e).value;
      assert CredentialOk(t, q);
      AddMessageFine(t, q, t.employees[e].email, ForEmployee(e, t.credentials[q].token), None);
    }
    hide LifeInv, Fine, Current, NeedsReview;
  }

  // ---- Visitors ----

  lemma AddAllocationFine(t: Post, q: nat, email: Option<Address>)
    requires LifeInv(t) && q < |t.credentials| && t.credentials[q].kind == MASTER && q !in t.allocations
    ensures Fine(t, t.(allocations := t.allocations[q := Allocation(email, false)]))
  {
    var u := t.(allocations := t.allocations[q := Allocation(email, false)]);
    forall p | 0 <= p < |u.credentials| ensures CredentialOk(u, p) { assert CredentialOk(t, p); }
    forall m | 0 <= m < |u.messages| ensures MessageOk(u, m) { assert MessageOk(t, m); }
  }

  lemma AddVisitorFine(t: Post, details: Option<Option<Address>>, token: Token, expires: Option<int>,
                       batch: Option<nat>)
    requires LifeInv(t)
    ensures Fine(t, AddVisitor(t, details, token, expires, batch).0)
  {
    FineSame(t);
    var q := |t.credentials|;
    var u := AddCredential(t, MASTER, None, token, expires);
    AddCredentialFine(t, MASTER, None, token, expires);
    if details.Some? {
      var v := u.(allocations := u.allocations[q := Allocation(details.value, false)]);
      AddAllocationFine(u, q, details.value);
      FineThen(t, u, v);
      if details.value.Some? {
        assert CredentialOk(v, q);
        AddMessageFine(v, q, details.value.value, ForVisitor(q, token), batch);
        FineThen(t, v, AddMessage(v, q, details.value.value, ForVisitor(q, token), batch));
      }
    }
    hide LifeInv, Fine;
  }

  lemma ReplaceMasterFine(t: Post, q: nat, details: Option<Option<Address>>, token: Token, expires: Option<int>)
    requires LifeInv(t)
    ensures Fine(t, ReplaceMaster(t, q, details, token, expires).0)
  {
    hide AddVisitor, RevokeRow;
    FineSame(t);
    if q < |t.credentials| {
      var u := RevokeRow(t, q);
      RevokeRowFine(t, q);
      AddVisitorFine(u, details, token, expires, None);
      FineThen(t, u, AddVisitor(u, details, token, expires, None).0);
    }
    hide LifeInv, Fine;
  }

  lemma ExhaustFine(t: Post, q: nat)
    requires LifeInv(t) && q in t.allocations
    ensures Fine(t, t.(allocations := t.allocations[q := t.allocations[q].(exhausted := true)]))
  {
    var u := t.(allocations := t.allocations[q := t.allocations[q].(exhausted := true)]);
    forall p | 0 <= p < |u.credentials| ensures CredentialOk(u, p) { assert CredentialOk(t, p); }
    forall m | 0 <= m < |u.messages| ensures MessageOk(u, m) { assert MessageOk(t, m); }
  }

  // ---- Approvals ----

  lemma ApproveDraftFine(t: Post, m: nat, actor: nat, status: Status)
    requires LifeInv(t) && Known(t, m) && status in {DRAFT, PENDING_APPROVAL}
    ensures Fine(t, ApproveDraft(t, m, actor, status).0)
  {
    FineSame(t);
    if PreviewProblem(t, m, status).None? { ApproveRowFine(t, m, actor); }
    hide LifeInv, Fine, ApproveRow, PreviewProblem;
  }

  lemma ApproveSingleFine(t: Post, m: nat, owner: nat, actor: nat)
    requires LifeInv(t)
    ensures Fine(t, ApproveSingle(t, m, owner, actor).0)
  {
    hide ApproveDraft, OwnerOf;
    FineSame(t);
    if Known(t, m) { ApproveDraftFine(t, m, actor, DRAFT); }
    hide LifeInv, Fine;
  }

  /** Rows are approved in turn: those before are queued, those after are as they were. */
  lemma {:induction false} ApproveRowsFine(t: Post, ids: seq<nat>, actor: nat)
    requires LifeInv(t) && forall i :: 0 <= i < |ids| ==> Known(t, ids[i])
    requires Distinct(ids)
    ensures var (u, outcome) := ApproveRows(t, ids, actor);
            && Fine(t, u) && outcome.Ok?
            && (forall m :: 0 <= m < |t.messages| && m !in ids ==> u.messages[m] == t.messages[m])
  {
    hide LifeInv, Fine, Known;
    if ids == [] {
      FineSame(t);
    } else {
      var rest, m := ids[..|ids| - 1], ids[|ids| - 1];
      ApproveRowsFine(t, rest, actor);
      var u := ApproveRows(t, rest, actor).0;
      assert m < |t.messages| by { KnownRow(t, m); }
      if t.messages[m].status == PENDING_APPROVAL {
        FineKeeps(t, u);
        ApproveRowFine(u, m, actor);
        FineThen(t, u, ApproveRow(u, m, actor).0);
      }
    }
  }

  lemma KnownRow(t: Post, m: nat)
    requires Known(t, m)
    ensures m < |t.messages|
  {
  }

  lemma ApproveListedFine(t: Post, ids: seq<nat>, actor: nat)
    requires LifeInv(t) && Distinct(ids)
    ensures Fine(t, ApproveListed(t, ids, actor).0)
  {
    FineSame(t);
    if forall i :: 0 <= i < |ids| ==> Known(t, ids[i]) { ApproveRowsFine(t, ids, actor); }
    hide LifeInv, Fine, FirstProblem, ApproveRows, Known;
  }

  lemma PrepareFine(t: Post, q: nat, allowance: nat, actor: nat)
    requires LifeInv(t)
    ensures Fine(t, PrepareSingle(t, q, allowance, actor).0)
  {
    hide Latest, CountTo, Remaining, ApproveDraft;
    FineSame(t);
    if q in t.allocations && t.allocations[q].email.Some? && q < |t.credentials| && !t.credentials[q].revoked {
      var email, payload := t.allocations[q].email.value, ForVisitor(q, t.credentials[q].token);
      assert CredentialOk(t, q);
      var u := AddMessage(t, q, email, payload, None);
      AddMessageFine(t, q, email, payload, None);
      ApproveDraftFine(u, |t.messages|, actor, DRAFT);
      FineThen(t, u, ApproveDraft(u, |t.messages|, actor, DRAFT).0);
      var latest := Latest(t.messages, q, None);
      if latest.Some? { ApproveDraftFine(t, latest.value, actor, DRAFT); }
    }
    hide LifeInv, Fine;
  }

  // ---- All of them ----

  lemma AdministerFine(t: Post, e: Event)
    requires LifeInv(t)
    ensures Fine(t, Administer(t, e))
  {
    FineSame(t);
    if e.OnRegister? { RegisterFine(t, e.email, e.token, e.expires, e.batch); }
    else if e.OnUpdateEmail? { UpdateFine(t, e.employee, e.email); }
    else if e.OnSetActive? { SetActiveFine(t, e.employee, e.active); }
    else if e.OnArchive? { if e.employee < |t.employees| { ArchiveRowFine(t, e.employee); } }
    else if e.OnArchiveBulk? { ArchiveBulkFine(t, e.employees); }
    else if e.OnIssueEmployee? {
      if IssueEmployee(t, e.employee, e.token, e.expires).1.Ok? { EquipFine(t, e.employee, e.token, e.expires); }
    }
    else if e.OnReplaceEmployee? { ReplaceFine(t, e.employee, e.token, e.expires); }
    else if e.OnResendEmployee? { ResendFine(t, e.employee); }
    else if e.OnRevoke? { if e.qr < |t.credentials| { RevokeRowFine(t, e.qr); } }
    else if e.OnIssueMaster? { AddVisitorFine(t, e.details, e.token, e.expires, e.batch); }
    else if e.OnReplaceMaster? { ReplaceMasterFine(t, e.qr, e.details, e.token, e.expires); }
    else if e.OnExhaust? { if e.qr in t.allocations { ExhaustFine(t, e.qr); } }
    else if e.OnApproveSingle? { ApproveSingleFine(t, e.message, e.owner, e.actor); }
    else if e.OnApproveBulk? { if Distinct(e.ids) { ApproveListedFine(t, e.ids, e.actor); } }
    else if e.OnApproveEmails? { ApproveListedFine(t, Pending(t.messages, e.group), e.actor); }
    else if e.OnPrepareSingle? { PrepareFine(t, e.qr, e.allowance, e.actor); }
    hide LifeInv, Fine, Register, UpdateEmail, SetActive, ArchiveRow, ArchiveBulk, Equip, ReplaceEmployee, ResendEmployee,
      RevokeRow, AddVisitor, ReplaceMaster, ApproveSingle, ApproveListed, PrepareSingle, Current;
  }
}
