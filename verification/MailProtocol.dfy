/** What each transaction on employees, credentials and emails does to the tables.  A transaction that raises is rolled
    back: its function returns the old tables and the error. */
module MailProtocol {
  import opened Options
  import opened MailTables

  datatype Outcome = Ok(id: nat) | Error(code: Code)

  // ---- Row operations shared by the services ----

  function CancelRow(x: Message, q: nat, now: int): Message {
    if x.qr != q then x
    else x.(status := if Terminal(x.status) then x.status else CANCELLED, payload := None, updated := now, mark := Clear)
  }

  /** `cancel_for_qr` */
  function Cancel(t: Post, q: nat): (u: Post)
    ensures |u.messages| == |t.messages|
    ensures forall m :: 0 <= m < |t.messages| ==> u.messages[m] == CancelRow(t.messages[m], q, t.now)
  {
    t.(messages := seq(|t.messages|, m requires 0 <= m < |t.messages| => CancelRow(t.messages[m], q, t.now)))
  }

  predicate BadExpiry(t: Post, expires: Option<int>) { expires.Some? && expires.value <= t.now }
  predicate Expired(t: Post, c: Credential) { c.expires.Some? && c.expires.value <= t.now }

  /** `_issue` */
  function AddCredential(t: Post, kind: Kind, owner: Option<nat>, token: Token, expires: Option<int>): Post {
    t.(credentials := t.credentials + [Credential(kind, owner, token, Some(token), false, expires)])
  }

  /** `enqueue_employee` and `enqueue_visitor` */
  function AddMessage(t: Post, q: nat, to: Address, payload: Payload, batch: Option<nat>): Post {
    t.(messages := t.messages + [
         Message(q, to, Some(payload), if batch.Some? then PENDING_APPROVAL else DRAFT, Clear,
                 if batch.Some? then BULK else SINGLE, batch, None, t.now)])
  }

  /** QrService._revoke */
  function RevokeRow(t: Post, q: nat): Post
    requires q < |t.credentials|
  {
    if t.credentials[q].revoked then t
    else Cancel(t.(credentials := t.credentials[q := t.credentials[q].(revoked := true, cipher := None)]), q)
  }

  function Decrypt(c: Credential): Outcome {
    if c.cipher.None? then Error(QR_TOKEN_UNAVAILABLE)
    else if c.cipher.value != c.token then Error(QR_TOKEN_MISMATCH)
    else Ok(c.token)
  }

  // ---- Employees and their credentials ----

  function Register(t: Post, email: Address, token: Token, expires: Option<int>, batch: Option<nat>): (Post, Outcome) {
    if BadExpiry(t, expires) then (t, Error(INVALID_QR_EXPIRY))
    else
      var e, q := |t.employees|, |t.credentials|;
      var u := AddCredential(t.(employees := t.employees + [Employee(email, true, false)]), EMPLOYEE, Some(e), token,
                             expires);
      (AddMessage(u, q, email, ForEmployee(e, token), batch), Ok(e))
  }

  /** A new credential for an active employee without one, with its email. */
  function Equip(t: Post, e: nat, token: Token, expires: Option<int>): (Post, Outcome)
    requires e < |t.employees|
  {
    if BadExpiry(t, expires) then (t, Error(INVALID_QR_EXPIRY))
    else
      var q := |t.credentials|;
      (AddMessage(AddCredential(t, EMPLOYEE, Some(e), token, expires), q, t.employees[e].email, ForEmployee(e, token),
                  None),
       Ok(q))
  }

  function IssueEmployee(t: Post, e: nat, token: Token, expires: Option<int>): (Post, Outcome) {
    if e >= |t.employees| then (t, Error(EMPLOYEE_NOT_FOUND))
    else if !t.employees[e].active then (t, Error(EMPLOYEE_INACTIVE))
    else if Current(t.credentials, e).Some? then (t, Error(EMPLOYEE_QR_ALREADY_EXISTS))
    else Equip(t, e, token, expires)
  }

  /** The unrevoked credential of `e` revoked, if there is one. */
  function RevokeCurrent(t: Post, e: nat): (u: Post)
    ensures u.employees == t.employees
  {
    var c := Current(t.credentials, e);
    if c.Some? then RevokeRow(t, c.value) else t
  }

  function ReplaceEmployee(t: Post, e: nat, token: Token, expires: Option<int>): (Post, Outcome) {
    if e >= |t.employees| then (t, Error(EMPLOYEE_NOT_FOUND))
    else if !t.employees[e].active then (t, Error(EMPLOYEE_INACTIVE))
    else
      var (u, outcome) := Equip(RevokeCurrent(t, e), e, token, expires);
      (if outcome.Ok? then u else t, outcome)
  }

  /** Employee `e` changed to `row`, and the emails of its unrevoked credential cancelled. */
  function Reset(t: Post, e: nat, row: Employee): Post
    requires e < |t.employees|
  {
    var u := t.(employees := t.employees[e := row]);
    var c := Current(t.credentials, e);
    if c.Some? then Cancel(u, c.value) else u
  }

  /** `update` of the email address */
  function UpdateEmail(t: Post, e: nat, email: Address): (Post, Outcome) {
    if e >= |t.employees| then (t, Error(EMPLOYEE_NOT_FOUND))
    else if t.employees[e].archived then (t, Error(EMPLOYEE_REMOVED))
    else if t.employees[e].email == email then (t, Ok(e))
    else
      var u := Reset(t, e, t.employees[e].(email := email));
      var c := Current(t.credentials, e);
      if c.None? || !t.employees[e].active || Expired(t, t.credentials[c.value]) then (u, Ok(e))
      else
        match Decrypt(t.credentials[c.value])
        case Error(code) => (t, Error(code))
        case Ok(token) => (AddMessage(u, c.value, email, ForEmployee(e, token), None), Ok(e))
  }

  function SetActive(t: Post, e: nat, active: bool): (Post, Outcome) {
    if e >= |t.employees| then (t, Error(EMPLOYEE_NOT_FOUND))
    else if t.employees[e].archived then (t, Error(EMPLOYEE_REMOVED))
    else
      var row := t.employees[e].(active := active);
      (if active then t.(employees := t.employees[e := row]) else Reset(t, e, row), Ok(e))
  }

  function ArchiveRow(t: Post, e: nat): Post
    requires e < |t.employees|
  {
    RevokeCurrent(t.(employees := t.employees[e := t.employees[e].(active := false, archived := true)]), e)
  }

  function Archive(t: Post, e: nat): (Post, Outcome) {
    if e >= |t.employees| then (t, Error(EMPLOYEE_NOT_FOUND))
    else if t.employees[e].archived then (t, Error(EMPLOYEE_ALREADY_REMOVED))
    else (ArchiveRow(t, e), Ok(e))
  }

  function ArchiveRows(t: Post, es: seq<nat>): (u: Post)
    requires forall i :: 0 <= i < |es| ==> es[i] < |t.employees|
    ensures |u.employees| == |t.employees|
  {
    if es == [] then t else ArchiveRow(ArchiveRows(t, es[..|es| - 1]), es[|es| - 1])
  }

  function ArchiveBulk(t: Post, es: seq<nat>): (Post, Outcome) {
    if es == [] || exists i, j :: 0 <= i < j < |es| && es[i] >= es[j] then (t, Error(INVALID_EMPLOYEE_IDS))
    else if exists i :: 0 <= i < |es| && es[i] >= |t.employees| then (t, Error(EMPLOYEE_NOT_FOUND))
    else if exists i :: 0 <= i < |es| && t.employees[es[i]].archived then (t, Error(EMPLOYEE_ALREADY_REMOVED))
    else (ArchiveRows(t, es), Ok(|es|))
  }

  const FAILURE_CODES: set<Code> := {
    INVALID_EMAIL_PAYLOAD, INVALID_EMAIL_SENDER, INVALID_EMAIL_RECIPIENT, TEST_EMAIL_RECIPIENT_FORBIDDEN,
    INVALID_EMAIL_CONTENT, INVALID_QR, GMAIL_CONFIGURATION_REQUIRED, EMAIL_AUTHENTICATION_FAILED,
    EMAIL_SENDER_REJECTED, EMAIL_RECIPIENT_REJECTED, EMAIL_DATA_REJECTED, EMAIL_DELIVERY_FAILED,
    EMAIL_NOT_DELIVERABLE, REAL_EMAIL_NOT_AUTHORIZED, EMAIL_APPROVAL_REQUIRED}

  /** `email_delivery_state`, as far as it says a message needs review */
  predicate NeedsReview(x: Message) {
    x.status == FAILED && !(x.mark.Reason? && x.mark.code in FAILURE_CODES)
  }

  function ResendEmployee(t: Post, e: nat): (Post, Outcome) {
    if e >= |t.employees| then (t, Error(EMPLOYEE_NOT_FOUND))
    else if !t.employees[e].active then (t, Error(EMPLOYEE_INACTIVE))
    else if Current(t.credentials, e).None? then (t, Error(QR_NOT_FOUND))
    else
      var q := Current(t.credentials, e).value;
      var previous := Latest(t.messages, q, Some(t.employees[e].email));
      if Expired(t, t.credentials[q]) then (t, Error(QR_EXPIRED))
      else if previous.Some? && NeedsReview(t.messages[previous.value]) then (t, Error(EMAIL_DELIVERY_NEEDS_REVIEW))
      else if previous.Some? && t.messages[previous.value].mode == SINGLE
              && t.messages[previous.value].status in {DRAFT, QUEUED}
      then (t, Ok(previous.value))
      else
        match Decrypt(t.credentials[q])
        case Error(code) => (t, Error(code))
        case Ok(token) =>
          (AddMessage(t, q, t.employees[e].email, ForEmployee(e, token), None), Ok(|t.messages|))
  }

  function Revoke(t: Post, q: nat): (Post, Outcome) {
    if q >= |t.credentials| then (t, Error(QR_NOT_FOUND)) else (RevokeRow(t, q), Ok(q))
  }

  // ---- Visitor credentials ----

  /** What a visitor QR is issued with: nothing (the older kind), or an allocation that may have an address. */
  function AddVisitor(t: Post, details: Option<Option<Address>>, token: Token, expires: Option<int>,
                      batch: Option<nat>): (Post, Outcome) {
    if BadExpiry(t, expires) then (t, Error(INVALID_QR_EXPIRY))
    else
      var q := |t.credentials|;
      var u := AddCredential(t, MASTER, None, token, expires);
      if details.None? then (u, Ok(q))
      else
        var v := u.(allocations := u.allocations[q := Allocation(details.value, false)]);
        (if details.value.Some? then AddMessage(v, q, details.value.value, ForVisitor(q, token), batch) else v, Ok(q))
  }

  function ReplaceMaster(t: Post, q: nat, details: Option<Option<Address>>, token: Token, expires: Option<int>)
    : (Post, Outcome)
  {
    if q >= |t.credentials| then (t, Error(QR_NOT_FOUND))
    else if t.credentials[q].kind != MASTER then (t, Error(MASTER_QR_REQUIRED))
    else if t.credentials[q].revoked then (t, Error(QR_REVOKED))
    else
      var (u, outcome) := AddVisitor(RevokeRow(t, q), details, token, expires, None);
      (if outcome.Ok? then u else t, outcome)
  }

  // ---- Approving ----

  /** Whom a credential belongs to, for mail: an employee, or a visitor while the allocation has meals left. */
  datatype Owner = Owner(id: nat, email: Option<Address>, active: bool, visitor: bool)

  function OwnerOf(t: Post, q: nat): Option<Owner>
    requires q < |t.credentials|
  {
    var c := t.credentials[q];
    if c.kind == MASTER then
      if q in t.allocations then Some(Owner(q, t.allocations[q].email, !t.allocations[q].exhausted, true)) else None
    else if c.owner.Some? && c.owner.value < |t.employees| then
      Some(Owner(c.owner.value, Some(t.employees[c.owner.value].email), t.employees[c.owner.value].active, false))
    else None
  }

  predicate PayloadFits(owner: Owner, q: nat, token: Token, payload: Payload) {
    && payload.token == token
    && (if payload.ForVisitor? then owner.visitor && payload.qr == q && payload.qr == owner.id
        else !owner.visitor && payload.employee == owner.id)
  }

  /** `validated_preview` */
  function PreviewProblem(t: Post, m: nat, status: Status): Option<Code>
    requires m < |t.messages| && t.messages[m].qr < |t.credentials|
  {
    var x := t.messages[m];
    var c, owner := t.credentials[x.qr], OwnerOf(t, x.qr);
    if owner.None? || !owner.value.active || owner.value.email != Some(x.recipient) || x.status != status
       || x.payload.None? || c.revoked || Expired(t, c)
    then Some(EMAIL_NOT_DELIVERABLE)
    else if !PayloadFits(owner.value, x.qr, c.token, x.payload.value) then Some(INVALID_EMAIL_PAYLOAD)
    else None
  }

  /** `_approve` */
  function ApproveRow(t: Post, m: nat, actor: nat): (Post, Outcome)
    requires m < |t.messages|
  {
    if t.messages[m].approved.Some? then (t, Error(EMAIL_APPROVAL_CONFLICT))
    else
      (t.(messages := t.messages[
            m := t.messages[m].(status := QUEUED, approved := Some(actor), updated := t.now, mark := Clear)]),
       Ok(m))
  }

  predicate Known(t: Post, m: nat) { m < |t.messages| && t.messages[m].qr < |t.credentials| }

  /** A draft that may be sent, approved. */
  function ApproveDraft(t: Post, m: nat, actor: nat, status: Status): (Post, Outcome)
    requires Known(t, m)
  {
    match PreviewProblem(t, m, status)
    case Some(code) => (t, Error(code))
    case None => ApproveRow(t, m, actor)
  }

  function ApproveSingle(t: Post, m: nat, owner: nat, actor: nat): (Post, Outcome) {
    if !Known(t, m) then (t, Error(EMAIL_NOT_FOUND))
    else
      var x, o := t.messages[m], OwnerOf(t, t.messages[m].qr);
      if o.None? || o.value.id != owner then (t, Error(EMAIL_NOT_FOUND))
      else if x.mode != SINGLE then (t, Error(SINGLE_EMAIL_REQUIRED))
      else if x.status == DRAFT then ApproveDraft(t, m, actor, DRAFT)
      else if x.status == PENDING_APPROVAL || (x.status == QUEUED && x.approved.None?) then
        (t, Error(EMAIL_APPROVAL_REQUIRED))
      else (t, Ok(m))
  }

  /** Why a bulk approval naming `m` fails, if it does. */
  function BulkProblem(t: Post, m: nat): Option<Code>
    requires Known(t, m)
  {
    var x := t.messages[m];
    if x.status == PENDING_APPROVAL then PreviewProblem(t, m, PENDING_APPROVAL)
    else if x.status == DRAFT || x.approved.None? then Some(EMAIL_APPROVAL_REQUIRED)
    else if x.status == QUEUED then PreviewProblem(t, m, QUEUED)
    else None
  }

  function FirstProblem(t: Post, ids: seq<nat>): Option<Code>
    requires forall i :: 0 <= i < |ids| ==> Known(t, ids[i])
  {
    if ids == [] then None
    else
      var p := FirstProblem(t, ids[..|ids| - 1]);
      if p.Some? then p else BulkProblem(t, ids[|ids| - 1])
  }

  /** Those of `ids` that await approval, approved in turn; all or nothing. */
  function ApproveRows(t: Post, ids: seq<nat>, actor: nat): (r: (Post, Outcome))
    requires forall i :: 0 <= i < |ids| ==> Known(t, ids[i])
    ensures |r.0.messages| == |t.messages|
  {
    if ids == [] then (t, Ok(0))
    else
      var (u, outcome) := ApproveRows(t, ids[..|ids| - 1], actor);
      var m := ids[|ids| - 1];
      assert Known(t, m);
      if outcome.Error? || t.messages[m].status != PENDING_APPROVAL then (u, outcome)
      else
        var (v, last) := ApproveRow(u, m, actor);
        if last.Ok? then (v, Ok(outcome.id + 1)) else (t, last)
  }

  predicate Distinct(ids: seq<nat>) { forall i, j :: 0 <= i < j < |ids| ==> ids[i] != ids[j] }

  /** `approve_bulk`; `ids` are given in the order their rows are locked. */
  function ApproveBulk(t: Post, ids: seq<nat>, actor: nat): (Post, Outcome) {
    if !(1 <= |ids| <= 100) || !Distinct(ids) then (t, Error(INVALID_EMAIL_IDS)) else ApproveListed(t, ids, actor)
  }

  /** The rows of a bulk approval: each is checked, then those that wait are approved. */
  function ApproveListed(t: Post, ids: seq<nat>, actor: nat): (Post, Outcome) {
    if exists i :: 0 <= i < |ids| && !Known(t, ids[i]) then (t, Error(EMAIL_NOT_FOUND))
    else if exists i :: 0 <= i < |ids| && t.messages[ids[i]].mode != BULK then (t, Error(BULK_EMAIL_REQUIRED))
    else
      match FirstProblem(t, ids)
      case Some(code) => (t, Error(code))
      case None => ApproveRows(t, ids, actor)
  }

  /** `remaining_today`: the day's allowance less what was sent and what is already queued. */
  function Remaining(t: Post, allowance: nat): nat {
    var used := |SentSince(t.messages, t.now - DAY)| + |QueuedNow(t.messages)|;
    if used < allowance then allowance - used else 0
  }

  /** `approve_emails`: every waiting message of a visitor batch. */
  function ApproveEmails(t: Post, batch: nat, expected: nat, allowance: nat, actor: nat): (Post, Outcome) {
    var ids := Pending(t.messages, batch);
    if ids == [] then (t, Error(VISITOR_BATCH_NOTHING_TO_SEND))
    else if |ids| != expected then (t, Error(EMAIL_COUNT_CHANGED))
    else if |ids| > Remaining(t, allowance) then (t, Error(EMAIL_DAILY_LIMIT_EXCEEDED))
    else ApproveListed(t, ids, actor)
  }

  const RESEND_LIMIT := 3

  /** `prepare_single`: the visitor's latest draft, or a new message, approved at once. */
  function PrepareSingle(t: Post, q: nat, allowance: nat, actor: nat): (Post, Outcome) {
    if q >= |t.credentials| || t.credentials[q].kind != MASTER || q !in t.allocations then
      (t, Error(MASTER_QR_REQUIRED))
    else if t.allocations[q].email.None? then (t, Error(VISITOR_EMAIL_MISSING))
    else if t.credentials[q].revoked || t.allocations[q].exhausted || Expired(t, t.credentials[q]) then
      (t, Error(QR_NOT_ACTIVE))
    else
      var latest := Latest(t.messages, q, None);
      if latest.Some? && t.messages[latest.value].status in {QUEUED, PENDING_APPROVAL} then
        (t, Error(EMAIL_ALREADY_PENDING))
      else if Remaining(t, allowance) < 1 then (t, Error(EMAIL_DAILY_LIMIT_EXCEEDED))
      else if latest.Some? && t.messages[latest.value].status == DRAFT && t.messages[latest.value].mode == SINGLE then
        ApproveDraft(t, latest.value, actor, DRAFT)
      else Prepared(t, q, actor)
  }

  /** A new message for visitor QR `q`, approved at once. */
  function Prepared(t: Post, q: nat, actor: nat): (Post, Outcome)
    requires q < |t.credentials| && q in t.allocations && t.allocations[q].email.Some?
  {
    var email := t.allocations[q].email.value;
    if CountTo(t.messages, q, email) > RESEND_LIMIT then (t, Error(EMAIL_RESEND_LIMIT_REACHED))
    else
      match Decrypt(t.credentials[q])
      case Error(code) => (t, Error(code))
      case Ok(token) =>
        var (u, outcome) := ApproveDraft(AddMessage(t, q, email, ForVisitor(q, token), None), |t.messages|, actor, DRAFT);
        (if outcome.Ok? then u else t, outcome)
  }

  // ---- Sending ----

  /** What the provider does with a message handed to it.  An exception, or an answer that names no accepted message,
      is uncertain. */
  datatype Provider = Accepted | Refused(code: Code) | Uncertain

  const SAFE_FAILURES: set<Code> := FAILURE_CODES + {EMAIL_DAILY_LIMIT_REACHED}

  /** `_set_status` */
  function SetStatus(t: Post, m: nat, status: Status, mark: Mark, at: int): Post
    requires m < |t.messages|
  {
    var x := t.messages[m];
    t.(messages := t.messages[
         m := x.(status := status, mark := mark, updated := at, payload := if Terminal(status) then None else x.payload)])
  }

  function Finish(t: Post, i: nat): Post
    requires i < |t.sends|
  {
    t.(sends := t.sends[i := t.sends[i].(stage := Done)])
  }

  /** `_limit_reached`, the start of `send` */
  function Check(t: Post, m: nat): Post {
    if t.limit.Some? && |SentSince(t.messages, t.now - DAY)| >= t.limit.value then t
    else t.(sends := t.sends + [Send(m, Checked, t.now, |t.sent|, InFlight(t.sends))])
  }

  datatype Validity = Clean | Problem(status: Status, code: Code)

  /** `_validate` */
  function Validate(t: Post, m: nat, status: Status): Validity
    requires Known(t, m)
  {
    var problem := if t.messages[m].approved.None? then Some(EMAIL_APPROVAL_REQUIRED)
                   else PreviewProblem(t, m, status);
    if problem.Some? then
      Problem(if problem.value == EMAIL_NOT_DELIVERABLE then CANCELLED else FAILED, problem.value)
    else if t.messages[m].recipient in t.refused then
      Problem(CANCELLED, t.refused[t.messages[m].recipient])  // malformed, or of a reserved test domain
    else Clean
  }

  /** `_claim`: the only gate to the provider.  If the commit raised, it may have taken effect, but the send stops. */
  function ClaimStep(t: Post, i: nat, acknowledged: bool): Post {
    if i >= |t.sends| || t.sends[i].stage != Checked then t
    else
      var m := t.sends[i].message;
      if !Known(t, m) || t.messages[m].status != QUEUED || t.messages[m].approved.None? then Finish(t, i)
      else
        match Validate(t, m, QUEUED)
        case Problem(status, code) => SetStatus(Finish(t, i), m, status, Reason(code), t.now)
        case Clean =>
          SetStatus(t.(sends := t.sends[i := t.sends[i].(stage := if acknowledged then Claimed else Done)]),
                    m, FAILED, Claim(i), t.now)
  }

  function Verdict(p: Provider): (Status, Mark) {
    match p
    case Accepted => (SENT, Clear)
    case Refused(code) => (FAILED, Reason(if code in SAFE_FAILURES then code else EMAIL_DELIVERY_FAILED))
    case Uncertain => (FAILED, Review)
  }

  /** Message `m` still carries the claim of send `i`. */
  predicate Holds(t: Post, m: nat, i: nat) {
    Known(t, m) && t.messages[m].status == FAILED && t.messages[m].mark == Claim(i)
  }

  /** Does this delivery reach the provider? */
  predicate Calls(t: Post, i: nat) {
    && i < |t.sends| && t.sends[i].stage == Claimed
    && Holds(t, t.sends[i].message, i)
    && Validate(t, t.sends[i].message, FAILED).Clean?
  }

  /** The time stamped on the row: between the check and the commit. */
  function Stamp(t: Post, i: nat, lag: nat): (at: int)
    requires i < |t.sends|
  {
    if t.now - lag < t.sends[i].checkedAt then t.sends[i].checkedAt else t.now - lag
  }

  /** `_deliver`.  The call to the provider is made inside the transaction: it happens whether or not the transaction is
      then committed. */
  function Deliver(t: Post, i: nat, p: Provider, lag: nat, committed: bool): Post {
    if i >= |t.sends| || t.sends[i].stage != Claimed then t
    else
      var m, u := t.sends[i].message, Finish(t, i);
      if !Holds(t, m, i) then u
      else
        match Validate(t, m, FAILED)
        case Problem(status, code) => if committed then SetStatus(u, m, status, Reason(code), t.now) else u
        case Clean =>
          var x := t.messages[m];
          var at := Stamp(t, i, lag);
          var v := u.(calls := t.calls + [ProviderCall(m, i, x.recipient, t.credentials[x.qr].token)]);
          if !committed then v
          else
            SetStatus(v.(sent := if p.Accepted? then t.sent + [Delivery(m, i, at)] else t.sent),
                      m, Verdict(p).0, Verdict(p).1, at)
  }

  /** What a send is answered. */
  datatype Reply =
    | LimitHit          // QUEUED, EMAIL_DAILY_LIMIT_REACHED
    | AlreadySent
    | SentNow
    | NotSent           // CANCELLED or FAILED, with the reason stored on the row
    | Unsure            // NEEDS_REVIEW
    | Raised            // a DomainError, EMAIL_CLAIM_UNCONFIRMED among them

  /** `_existing`, for a message that is not queued or whose claim was lost */
  function Existing(t: Post, m: nat): Reply {
    if !Known(t, m) then Raised
    else
      var x := t.messages[m];
      match x.status
      case SENT => AlreadySent
      case CANCELLED => NotSent
      case FAILED => if x.mark.Claim? || x.mark.Review? then Unsure else NotSent
      case DRAFT => Raised
      case PENDING_APPROVAL => Raised
      case QUEUED => Unsure
  }

  // ---- Runs ----

  datatype Event =
    | OnRegister(email: Address, token: Token, expires: Option<int>, batch: Option<nat>)
    | OnUpdateEmail(employee: nat, email: Address)
    | OnSetActive(employee: nat, active: bool)
    | OnArchive(employee: nat)
    | OnArchiveBulk(employees: seq<nat>)
    | OnIssueEmployee(employee: nat, token: Token, expires: Option<int>)
    | OnReplaceEmployee(employee: nat, token: Token, expires: Option<int>)
    | OnResendEmployee(employee: nat)
    | OnRevoke(qr: nat)
    | OnIssueMaster(details: Option<Option<Address>>, token: Token, expires: Option<int>, batch: Option<nat>)
    | OnReplaceMaster(qr: nat, details: Option<Option<Address>>, token: Token, expires: Option<int>)
    | OnExhaust(qr: nat)  // the serving protocol used up a visitor's meals
    | OnApproveSingle(message: nat, owner: nat, actor: nat)
    | OnApproveBulk(ids: seq<nat>, actor: nat)
    | OnApproveEmails(group: nat, expected: nat, allowance: nat, actor: nat)
    | OnPrepareSingle(qr: nat, allowance: nat, actor: nat)
    | OnCheck(message: nat)
    | OnClaim(send: nat, acknowledged: bool)
    | OnDeliver(send: nat, provider: Provider, lag: nat, committed: bool)
    | OnCrash(send: nat)
    | OnTick(elapsed: nat)

  /** The transactions of the administration services. */
  function Administer(t: Post, e: Event): Post {
    match e
    case OnRegister(email, token, expires, batch) => Register(t, email, token, expires, batch).0
    case OnUpdateEmail(n, email) => UpdateEmail(t, n, email).0
    case OnSetActive(n, active) => SetActive(t, n, active).0
    case OnArchive(n) => Archive(t, n).0
    case OnArchiveBulk(ns) => ArchiveBulk(t, ns).0
    case OnIssueEmployee(n, token, expires) => IssueEmployee(t, n, token, expires).0
    case OnReplaceEmployee(n, token, expires) => ReplaceEmployee(t, n, token, expires).0
    case OnResendEmployee(n) => ResendEmployee(t, n).0
    case OnRevoke(q) => Revoke(t, q).0
    case OnIssueMaster(details, token, expires, batch) => AddVisitor(t, details, token, expires, batch).0
    case OnReplaceMaster(q, details, token, expires) => ReplaceMaster(t, q, details, token, expires).0
    case OnExhaust(q) =>
      if q in t.allocations then t.(allocations := t.allocations[q := t.allocations[q].(exhausted := true)]) else t
    case OnApproveSingle(m, owner, actor) => ApproveSingle(t, m, owner, actor).0
    case OnApproveBulk(ids, actor) => ApproveBulk(t, ids, actor).0
    case OnApproveEmails(group, expected, allowance, actor) => ApproveEmails(t, group, expected, allowance, actor).0
    case OnPrepareSingle(q, allowance, actor) => PrepareSingle(t, q, allowance, actor).0
    case OnCheck(_) => t
    case OnClaim(_, _) => t
    case OnDeliver(_, _, _, _) => t
    case OnCrash(_) => t
    case OnTick(_) => t
  }

  /** One committed transaction, a crash of a sender, or time passing.  Senders and administrators interleave freely. */
  function Step(t: Post, e: Event): Post {
    match e
    case OnCheck(m) => Check(t, m)
    case OnClaim(i, acknowledged) => ClaimStep(t, i, acknowledged)
    case OnDeliver(i, p, lag, committed) => Deliver(t, i, p, lag, committed)
    case OnCrash(i) => if i < |t.sends| then Finish(t, i) else t
    case OnTick(elapsed) => t.(now := t.now + elapsed)
    case _ => Administer(t, e)
  }

  function Run(t: Post, es: seq<Event>): Post
    decreases es
  {
    if es == [] then t else Run(Step(t, es[0]), es[1..])
  }

  function Empty(now: int, limit: Option<nat>, refused: map<Address, Code>): Post {
    Post(now, limit, refused, [], [], map[], [], [], [], [])
  }
}
