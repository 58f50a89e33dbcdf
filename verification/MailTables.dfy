/** The tables behind the QR emails: employees, credentials, visitor allocations and the email queue, with the sends in
    progress.  Ids are positions.  Encryption is invertible and a token hash stands for its token. */
module MailTables {
  import opened Options

  type Address = string
  type Token = nat

  datatype Code =
    // stored as the reason of a failure
    | EMAIL_NOT_DELIVERABLE | INVALID_EMAIL_PAYLOAD | EMAIL_APPROVAL_REQUIRED
    | INVALID_EMAIL_RECIPIENT | TEST_EMAIL_RECIPIENT_FORBIDDEN
    | INVALID_EMAIL_SENDER | INVALID_EMAIL_CONTENT | INVALID_QR | GMAIL_CONFIGURATION_REQUIRED
    | EMAIL_AUTHENTICATION_FAILED | EMAIL_SENDER_REJECTED | EMAIL_RECIPIENT_REJECTED | EMAIL_DATA_REJECTED
    | EMAIL_DELIVERY_FAILED | REAL_EMAIL_NOT_AUTHORIZED | EMAIL_DAILY_LIMIT_REACHED | UNKNOWN_PROVIDER_ERROR
    // answers only
    | EMPLOYEE_NOT_FOUND | EMPLOYEE_INACTIVE | EMPLOYEE_REMOVED | EMPLOYEE_ALREADY_REMOVED | INVALID_EMPLOYEE_IDS
    | EMPLOYEE_QR_ALREADY_EXISTS | QR_NOT_FOUND | QR_REVOKED | QR_EXPIRED | QR_NOT_ACTIVE | INVALID_QR_EXPIRY
    | QR_TOKEN_UNAVAILABLE | QR_TOKEN_MISMATCH | MASTER_QR_REQUIRED | VISITOR_EMAIL_MISSING
    | EMAIL_NOT_FOUND | EMAIL_DELIVERY_NEEDS_REVIEW | SINGLE_EMAIL_REQUIRED | BULK_EMAIL_REQUIRED
    | EMAIL_APPROVAL_CONFLICT | EMAIL_ALREADY_PENDING | EMAIL_DAILY_LIMIT_EXCEEDED | EMAIL_RESEND_LIMIT_REACHED
    | INVALID_EMAIL_IDS | EMAIL_COUNT_CHANGED | VISITOR_BATCH_NOTHING_TO_SEND

  datatype Kind = EMPLOYEE | MASTER
  datatype Status = DRAFT | PENDING_APPROVAL | QUEUED | FAILED | SENT | CANCELLED
  datatype Mode = SINGLE | BULK

  /** `last_error`: nothing, the random claim of a send (identified with the send), a call of unknown outcome, or a
      reason. */
  datatype Mark = Clear | Claim(send: nat) | Review | Reason(code: Code)

  datatype Payload = ForEmployee(employee: nat, token: Token) | ForVisitor(qr: nat, token: Token)

  datatype Employee = Employee(email: Address, active: bool, archived: bool)
  datatype Credential = Credential(
    kind: Kind, owner: Option<nat>, token: Token, cipher: Option<Token>, revoked: bool, expires: Option<int>)
  datatype Allocation = Allocation(email: Option<Address>, exhausted: bool)
  datatype Message = Message(
    qr: nat, recipient: Address, payload: Option<Payload>, status: Status, mark: Mark, mode: Mode, batch: Option<nat>,
    approved: Option<nat>, updated: int)

  /** A call of `send`: the daily limit is checked, then the message is claimed, then delivered.  `sentBefore` and
      `rivals` record what had been sent and which calls were under way at the check. */
  datatype Stage = Checked | Claimed | Done
  datatype Send = Send(message: nat, stage: Stage, checkedAt: int, sentBefore: nat, rivals: set<nat>)

  /** The calls made to the mail provider, and the messages that reached SENT, in order. */
  datatype ProviderCall = ProviderCall(message: nat, send: nat, recipient: Address, token: Token)
  datatype Delivery = Delivery(message: nat, send: nat, at: int)

  datatype Post = Post(
    now: int, limit: Option<nat>, refused: map<Address, Code>,
    employees: seq<Employee>, credentials: seq<Credential>, allocations: map<nat, Allocation>, messages: seq<Message>,
    sends: seq<Send>, calls: seq<ProviderCall>, sent: seq<Delivery>)

  const DAY := 86_400_000_000  // in microseconds

  predicate Terminal(s: Status) { s == SENT || s == CANCELLED }

  /** The unrevoked credential of employee `e`. */
  function Current(cs: seq<Credential>, e: nat): (r: Option<nat>)
    ensures r.Some? ==> r.value < |cs| && cs[r.value].owner == Some(e) && !cs[r.value].revoked
    ensures r.None? ==> forall q :: 0 <= q < |cs| && cs[q].owner == Some(e) ==> cs[q].revoked
  {
    if cs == [] then None
    else
      var k := |cs| - 1;
      if cs[k].owner == Some(e) && !cs[k].revoked then Some(k) else Current(cs[..k], e)
  }

  /** The latest message of QR `q`, to `to` if an address is given. */
  function Latest(ms: seq<Message>, q: nat, to: Option<Address>): (r: Option<nat>)
    ensures r.Some? ==> r.value < |ms| && ms[r.value].qr == q && (to.Some? ==> ms[r.value].recipient == to.value)
  {
    if ms == [] then None
    else
      var k := |ms| - 1;
      if ms[k].qr == q && (to.None? || ms[k].recipient == to.value) then Some(k) else Latest(ms[..k], q, to)
  }

  /** SELECT COUNT(*) WHERE qr_id = q AND recipient_email = to */
  function CountTo(ms: seq<Message>, q: nat, to: Address): nat {
    if ms == [] then 0
    else
      var k := |ms| - 1;
      CountTo(ms[..k], q, to) + if ms[k].qr == q && ms[k].recipient == to then 1 else 0
  }

  /** The messages SENT that were last updated at or after `since`. */
  function SentSince(ms: seq<Message>, since: int): set<nat> {
    set m: nat | m < |ms| && ms[m].status == SENT && ms[m].updated >= since
  }

  function QueuedNow(ms: seq<Message>): set<nat> {
    set m: nat | m < |ms| && ms[m].status == QUEUED
  }

  /** The ids of the messages of `batch` that await approval, in id order. */
  function Pending(ms: seq<Message>, batch: nat): (ids: seq<nat>)
    ensures forall i :: 0 <= i < |ids| ==>
              ids[i] < |ms| && ms[ids[i]].batch == Some(batch) && ms[ids[i]].status == PENDING_APPROVAL
    ensures forall i, j :: 0 <= i < j < |ids| ==> ids[i] < ids[j]
  {
    if ms == [] then []
    else
      var k := |ms| - 1;
      Pending(ms[..k], batch)
      + if ms[k].batch == Some(batch) && ms[k].status == PENDING_APPROVAL then [k] else []
  }

  /** The sends under way. */
  function InFlight(sends: seq<Send>): set<nat> {
    set i: nat | i < |sends| && sends[i].stage != Done
  }
}
