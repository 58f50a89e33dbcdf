/** What sends write. */
module MailOutcomes {
  // Over every run, on the columns of the tables.

  import opened Options
  import opened MailTables
  import opened MailProtocol
  import opened MailInvariant
  import opened MailLife
  import opened MailSending
  import opened MailTheorems
  import opened MailDrafts

  // ---- Which messages can go out ----

  /** The credential of the message has not expired, and a visitor's has meals left. */
  ghost predicate CanGoOut(t: Post, x: Message) {
    && x.qr < |t.credentials| && Unexpired(t.credentials[x.qr], t.now)
    && (t.credentials[x.qr].kind == MASTER && x.qr in t.allocations ==> !t.allocations[x.qr].exhausted)
  }

  /** In every reachable state all else follows from the status: a preview fails only because of that, or of an
      expired or used up credential, and always as not deliverable. */
  lemma PreviewMeans(t: Post, m: nat, status: Status)
    requires LifeInv(t) && m < |t.messages|
    ensures Known(t, m)
    ensures var x := t.messages[m];
            PreviewProblem(t, m, status)
            == if x.status == status && !Terminal(status) && CanGoOut(t, x) then None else Some(EMAIL_NOT_DELIVERABLE)
  {
    assert MessageOk(t, m) && CredentialOk(t, t.messages[m].qr);
  }

  /** Why a message that is approved cannot be handed to the provider now. */
  ghost predicate Stopped(t: Post, m: nat, code: Code)
    requires m < |t.messages| && t.messages[m].qr < |t.credentials|
  {
    if !CanGoOut(t, t.messages[m]) then code == EMAIL_NOT_DELIVERABLE
    else t.messages[m].recipient in t.refused && code == t.refused[t.messages[m].recipient]
  }

  ghost predicate Deliverable(t: Post, m: nat)
    requires m < |t.messages| && t.messages[m].qr < |t.credentials|
  {
    CanGoOut(t, t.messages[m]) && t.messages[m].recipient !in t.refused
  }

  lemma ValidityMeans(t: Post, m: nat)
    requires LifeInv(t) && m < |t.messages| && t.messages[m].status in {QUEUED, FAILED}
    ensures Known(t, m) && t.messages[m].approved.Some?
    ensures var v := Validate(t, m, t.messages[m].status);
            && (v.Clean? <==> Deliverable(t, m))
            && (v.Problem? ==> v.status == CANCELLED && Stopped(t, m, v.code))
  {
    PreviewMeans(t, m, t.messages[m].status);
    assert MessageOk(t, m);
    hide PreviewProblem, CanGoOut, LifeInv;
  }

  // ---- The steps of a send ----

  /** A send starts if the limit of the last day is not reached by the rows SENT in it; it notes the other sends under
      way. */
  lemma WhatACheckStores(t: Post, m: nat)
    ensures var u := Step(t, OnCheck(m));
            var recent := set k: nat | k < |t.messages| && t.messages[k].status == SENT
                                       && t.messages[k].updated >= t.now - 24 * 60 * 60 * 1_000_000;
            if t.limit.Some? && |recent| >= t.limit.value then u == t
            else
              && u == t.(sends := u.sends) && |u.sends| == |t.sends| + 1 && u.sends[..|t.sends|] == t.sends
              && u.sends[|t.sends|]
                 == Send(m, Checked, t.now, |t.sent|, set i: nat | i < |t.sends| && t.sends[i].stage != Done)
  {
    var recent := set k: nat | k < |t.messages| && t.messages[k].status == SENT
                               && t.messages[k].updated >= t.now - 24 * 60 * 60 * 1_000_000;
    assert recent == SentSince(t.messages, t.now - DAY);
  }

  /** Send `i` reaches stage `stage`, and of the messages only `m` may differ. */
  ghost predicate Proceeds(t: Post, u: Post, i: nat, stage: Stage, m: nat)
    requires i < |t.sends|
  {
    && u == t.(sends := u.sends, messages := u.messages, calls := u.calls, sent := u.sent)
    && u.sends == t.sends[i := t.sends[i].(stage := stage)]
    && |u.messages| == |t.messages|
    && forall k :: 0 <= k < |t.messages| && k != m ==> u.messages[k] == t.messages[k]
  }

  /** Over any run: a queued message that is deliverable is claimed, and the send goes on if it knows; any other queued
      message is cancelled with the reason; and a message that is not queued is left alone. */
  lemma WhatAClaimStores(start: Start, es: seq<Event>, i: nat, acknowledged: bool)
    ensures var t := After(start, es);
            var u := Step(t, OnClaim(i, acknowledged));
            if i >= |t.sends| || t.sends[i].stage != Checked then u == t
            else
              var m := t.sends[i].message;
              && u.calls == t.calls && u.sent == t.sent
              && if m >= |t.messages| || t.messages[m].status != QUEUED then
                   u.messages == t.messages && Proceeds(t, u, i, Done, m)
                 else
                   && t.messages[m].qr < |t.credentials|
                   && Proceeds(t, u, i, if Deliverable(t, m) && acknowledged then Claimed else Done, m)
                   && if Deliverable(t, m) then
                        u.messages[m] == t.messages[m].(status := FAILED, mark := Claim(i), updated := t.now)
                      else
                        exists code ::
                          && Stopped(t, m, code)
                          && u.messages[m] == t.messages[m].(status := CANCELLED, mark := Reason(code), payload := None,
                                                             updated := t.now)
  {
    hide Run, LifeInv, Validate, Deliverable, Stopped;
    var t := After(start, es);
    Reached(start, es);
    if i < |t.sends| {
      var m := t.sends[i].message;
      if m < |t.messages| && t.messages[m].status == QUEUED { ValidityMeans(t, m); }
    }
  }

  /** The row of a message the provider was called for, once that is committed at `at`. */
  ghost predicate Settled(x: Message, y: Message, p: Provider, at: int) {
    match p
    case Accepted => y == x.(status := SENT, mark := Clear, payload := None, updated := at)
    case Uncertain => y == x.(status := FAILED, mark := Review, updated := at)
    case Refused(code) =>
      y == x.(status := FAILED, updated := at,
              mark := Reason(if Certain(code) || code == EMAIL_DAILY_LIMIT_REACHED then code else EMAIL_DELIVERY_FAILED))
  }

  lemma VerdictMeans(t: Post, m: nat, p: Provider, at: int)
    requires m < |t.messages|
    ensures Settled(t.messages[m], SetStatus(t, m, Verdict(p).0, Verdict(p).1, at).messages[m], p, at)
  {
  }

  /** Send `i` still holds the claim of its message. */
  ghost predicate HoldsClaim(t: Post, i: nat) {
    && i < |t.sends| && t.sends[i].stage == Claimed && t.sends[i].message < |t.messages|
    && t.messages[t.sends[i].message].status == FAILED && t.messages[t.sends[i].message].mark == Claim(i)
  }

  lemma CallsMeans(t: Post, i: nat)
    requires LifeInv(t) && HoldsClaim(t, i)
    ensures var m := t.sends[i].message;
            && Known(t, m) && Holds(t, m, i) && (Calls(t, i) <==> Deliverable(t, m))
            && var v := Validate(t, m, FAILED); v.Problem? ==> v.status == CANCELLED && Stopped(t, m, v.code)
  {
    ValidityMeans(t, t.sends[i].message);
    hide LifeInv, Validate, Deliverable, Stopped;
  }

  /** Over any run: a delivery calls the provider if and only if it still holds its claim and the message is
      deliverable; whether or not it is then committed, the call has been made.  What is stored is what the provider
      did: SENT, or FAILED for a certain reason, or FAILED and to be reviewed, with the payload kept. */
  lemma WhatADeliveryStores(start: Start, es: seq<Event>, i: nat, p: Provider, lag: nat, committed: bool)
    ensures var t := After(start, es);
            var u := Step(t, OnDeliver(i, p, lag, committed));
            if i >= |t.sends| || t.sends[i].stage != Claimed then u == t
            else
              var m := t.sends[i].message;
              && Proceeds(t, u, i, Done, m)
              && if !HoldsClaim(t, i) then u.messages == t.messages && u.calls == t.calls && u.sent == t.sent
                 else
                   && t.messages[m].qr < |t.credentials|
                   && if Deliverable(t, m) then Calling(t, u, i, p, committed)
                      else
                        && u.calls == t.calls && u.sent == t.sent
                        && if !committed then u.messages == t.messages
                           else
                             exists code ::
                               && Stopped(t, m, code)
                               && u.messages[m] == t.messages[m].(status := CANCELLED, mark := Reason(code),
                                                                  payload := None, updated := t.now)
  {
    hide Run, LifeInv, Inv, Validate, Deliverable, Stopped, Calling, Deliver, Proceeds;
    var t := After(start, es);
    AfterInv(start, es);
    InvLife(t);
    if HoldsClaim(t, i) {
      CallsMeans(t, i);
      if Deliverable(t, t.sends[i].message) { CallStores(t, i, p, lag, committed); }
      else { StopStores(t, i, p, lag, committed); }
    } else {
      NoClaimStores(t, i, p, lag, committed);
    }
  }

  /** The call, and what is stored of it. */
  ghost predicate Calling(t: Post, u: Post, i: nat, p: Provider, committed: bool)
    requires i < |t.sends| && t.sends[i].message < |t.messages|
    requires t.messages[t.sends[i].message].qr < |t.credentials|
  {
    var m := t.sends[i].message;
    && u.calls == t.calls + [ProviderCall(m, i, t.messages[m].recipient, t.credentials[t.messages[m].qr].token)]
    && |u.messages| == |t.messages|
    && if !committed then u.messages == t.messages && u.sent == t.sent
       else
         exists at ::
           && t.sends[i].checkedAt <= at <= t.now && Settled(t.messages[m], u.messages[m], p, at)
           && u.sent == if p.Accepted? then t.sent + [Delivery(m, i, at)] else t.sent
  }

  lemma CallStores(t: Post, i: nat, p: Provider, lag: nat, committed: bool)
    requires Inv(t) && Calls(t, i)
    ensures var u := Deliver(t, i, p, lag, committed);
            Proceeds(t, u, i, Done, t.sends[i].message) && Calling(t, u, i, p, committed)
  {
    var m := t.sends[i].message;
    CheckWasBefore(t, i);
    VerdictMeans(t, m, p, Stamp(t, i, lag));
    hide Inv, Validate, Settled, Verdict;
  }

  lemma CheckWasBefore(t: Post, i: nat)
    requires Inv(t) && i < |t.sends|
    ensures t.sends[i].checkedAt <= t.now
  {
    assert CheckOk(t, i);
  }

  lemma StopStores(t: Post, i: nat, p: Provider, lag: nat, committed: bool)
    requires HoldsClaim(t, i) && Holds(t, t.sends[i].message, i) && Validate(t, t.sends[i].message, FAILED).Problem?
    requires Validate(t, t.sends[i].message, FAILED).status == CANCELLED
    ensures var u, m := Deliver(t, i, p, lag, committed), t.sends[i].message;
            && Proceeds(t, u, i, Done, m) && u.calls == t.calls && u.sent == t.sent
            && u.messages[m] == if !committed then t.messages[m]
                                else t.messages[m].(status := CANCELLED, payload := None, updated := t.now,
                                                    mark := Reason(Validate(t, m, FAILED).code))
    ensures !committed ==> Deliver(t, i, p, lag, committed).messages == t.messages
  {
    hide Validate;
  }

  lemma NoClaimStores(t: Post, i: nat, p: Provider, lag: nat, committed: bool)
    requires LifeInv(t) && !HoldsClaim(t, i)
    ensures var u := Deliver(t, i, p, lag, committed);
            if i >= |t.sends| || t.sends[i].stage != Claimed then u == t
            else
              && Proceeds(t, u, i, Done, t.sends[i].message)
              && u.messages == t.messages && u.calls == t.calls && u.sent == t.sent
  {
    if i < |t.sends| && t.sends[i].message < |t.messages| { assert MessageOk(t, t.sends[i].message); }
    hide LifeInv, Validate;
  }

  /** A sender that dies takes no further step, and time is only added up. */
  lemma WhatAStopStores(t: Post, i: nat, elapsed: nat)
    ensures Step(t, OnCrash(i)) == if i < |t.sends| then t.(sends := t.sends[i := t.sends[i].(stage := Done)]) else t
    ensures Step(t, OnTick(elapsed)) == t.(now := t.now + elapsed)
  {
    hide Administer, Check, ClaimStep, Deliver;
  }

  // ---- Messages of unknown outcome ----

  /** The provider may or may not have the message, and nobody will ever know: it is to be reviewed, or claimed by a
      send that is over. */
  ghost predicate Unresolved(t: Post, m: nat) {
    && m < |t.messages| && t.messages[m].status == FAILED
    && (t.messages[m].mark == Review
        || (t.messages[m].mark.Claim? && t.messages[m].mark.send < |t.sends|
            && t.sends[t.messages[m].mark.send].stage == Done))
  }

  /** It stays as it is, or is cancelled. */
  ghost predicate StaysOrCancelled(t: Post, u: Post, m: nat)
    requires m < |t.messages|
  {
    m < |u.messages| && (u.messages[m].status == CANCELLED || (Unresolved(u, m) && u.messages[m] == t.messages[m]))
  }

  lemma ClaimLeavesUnresolved(t: Post, i: nat, acknowledged: bool, m: nat)
    requires Unresolved(t, m)
    ensures StaysOrCancelled(t, ClaimStep(t, i, acknowledged), m)
  {
    hide Validate;
  }

  lemma DeliveryLeavesUnresolved(t: Post, i: nat, p: Provider, lag: nat, committed: bool, m: nat)
    requires Unresolved(t, m)
    ensures StaysOrCancelled(t, Deliver(t, i, p, lag, committed), m)
  {
    hide Validate;
  }

  lemma StepLeavesUnresolved(t: Post, e: Event, m: nat)
    requires Inv(t) && Unresolved(t, m)
    ensures StaysOrCancelled(t, Step(t, e), m)
  {
    hide Inv, Administer, SentSince, InFlight, ClaimStep, Deliver;
    if e.OnClaim? { ClaimLeavesUnresolved(t, e.send, e.acknowledged, m); }
    else if e.OnDeliver? { DeliveryLeavesUnresolved(t, e.send, e.provider, e.lag, e.committed, m); }
    else if !e.OnCheck? && !e.OnCrash? && !e.OnTick? { AdministrationLeavesUnresolved(t, e, m); }
  }

  lemma AdministrationLeavesUnresolved(t: Post, e: Event, m: nat)
    requires Inv(t) && Unresolved(t, m)
    ensures StaysOrCancelled(t, Administer(t, e), m)
  {
    hide Inv, Administer, SameOwners;
    InvLife(t);
    AdministerFine(t, e);
    FineKeeps(t, Administer(t, e));
    assert Moves(t.messages[m], Administer(t, e).messages[m]);
  }

  lemma {:induction false} RunLeavesUnresolved(t: Post, es: seq<Event>, m: nat)
    requires Inv(t) && Unresolved(t, m)
    ensures StaysOrCancelled(t, Run(t, es), m)
    decreases es
  {
    hide Inv, Step, Unresolved, Good, Keeps;
    UnresolvedExists(t, m);
    if es != [] {
      var u := Step(t, es[0]);
      StepLeavesUnresolved(t, es[0], m);
      StepGood(t, es[0]);
      GoodInv(t, u);
      if Unresolved(u, m) { RunLeavesUnresolved(u, es[1..], m); }
      else { CancelledStays(u, es[1..], m); }
    }
  }

  lemma UnresolvedExists(t: Post, m: nat)
    requires Unresolved(t, m)
    ensures m < |t.messages|
  {
  }

  lemma CancelledStays(t: Post, es: seq<Event>, m: nat)
    requires Inv(t) && m < |t.messages| && t.messages[m].status == CANCELLED
    ensures m < |Run(t, es).messages| && Run(t, es).messages[m].status == CANCELLED
  {
    RunGood(t, es);
    hide Inv, Run;
    assert Advances(t.messages[m], Run(t, es).messages[m]);
  }

  /** After a call whose outcome was not stored, or stored as uncertain. */
  lemma CallLeavesUnresolved(start: Start, es: seq<Event>, i: nat, p: Provider, lag: nat, committed: bool)
    requires var t := After(start, es); Calls(t, i) && (!committed || p.Uncertain?)
    ensures var t := After(start, es);
            Unresolved(Step(t, OnDeliver(i, p, lag, committed)), t.sends[i].message)
  {
    hide Run, Inv, Deliver, Validate;
    var t := After(start, es);
    AfterInv(start, es);
    CallStores(t, i, p, lag, committed);
    hide LifeInv;
  }

  /** Over any run, once the provider was called and the outcome was lost or uncertain: the message keeps its claim or
      review mark and payload until it is cancelled, however long the run goes on.  All the while a send of it is
      answered as unsure, and while it is the latest email of an active employee's unexpired QR to their address,
      sending that again is refused. */
  lemma UncertainCallsNeedReview(start: Start, es: seq<Event>, i: nat, p: Provider, lag: nat, committed: bool,
                                 more: seq<Event>)
    requires var t := After(start, es); Calls(t, i) && (!committed || p.Uncertain?)
    ensures var m := After(start, es).sends[i].message;
            var u := After(start, es + [OnDeliver(i, p, lag, committed)] + more);
            && m < |u.messages|
            && var x := u.messages[m];
               x.status != CANCELLED ==>
                 && x.status == FAILED && (x.mark == Review || x.mark == Claim(i)) && x.payload.Some?
                 && Existing(u, m) == Unsure
                 && forall e: nat ::
                      (&& e < |u.employees| && u.employees[e].active && u.employees[e].email == x.recipient
                       && Serving(u.credentials, e, x.qr) && Unexpired(u.credentials[x.qr], u.now)
                       && IsLatest(u.messages, x.qr, Some(x.recipient), m)) ==>
                        ResendEmployee(u, e) == (u, Error(EMAIL_DELIVERY_NEEDS_REVIEW))
  {
    hide Run, Inv, Step, Calls, Existing, ResendEmployee, StaysOrCancelled, Unresolved;
    var t, event := After(start, es), OnDeliver(i, p, lag, committed);
    SendClaimed(t, i);
    var m := t.sends[i].message;
    CallLeavesUnresolved(start, es, i, p, lag, committed);
    AfterOne(start, es, event);
    AfterInv(start, es + [event]);
    var v := After(start, es + [event]);
    RunAppend(Empty(start.now, start.limit, start.refused), es + [event], more);
    RunLeavesUnresolved(v, more, m);
    var u := After(start, es + [event] + more);
    AfterInv(start, es + [event] + more);
    CallMark(start, es, i, p, lag, committed);
    UnresolvedMeans(v, u, m);
    if u.messages[m].status != CANCELLED {
      forall e: nat | e < |u.employees| && u.employees[e].active && u.employees[e].email == u.messages[m].recipient
                      && Serving(u.credentials, e, u.messages[m].qr)
                      && Unexpired(u.credentials[u.messages[m].qr], u.now)
                      && IsLatest(u.messages, u.messages[m].qr, Some(u.messages[m].recipient), m)
        ensures ResendEmployee(u, e) == (u, Error(EMAIL_DELIVERY_NEEDS_REVIEW))
      {
        ResendRefused(start, es + [event] + more, e, m);
      }
    }
  }

  lemma CallMark(start: Start, es: seq<Event>, i: nat, p: Provider, lag: nat, committed: bool)
    requires var t := After(start, es); Calls(t, i) && (!committed || p.Uncertain?)
    ensures var t := After(start, es);
            var u, m := Step(t, OnDeliver(i, p, lag, committed)), t.sends[i].message;
            m < |u.messages| && (u.messages[m].mark == Review || u.messages[m].mark == Claim(i))
  {
    hide Run, Inv, Deliver, Validate;
    var t := After(start, es);
    AfterInv(start, es);
    CallStores(t, i, p, lag, committed);
    hide LifeInv;
  }

  lemma UnresolvedMeans(v: Post, u: Post, m: nat)
    requires Unresolved(v, m) && StaysOrCancelled(v, u, m) && Inv(u)
    ensures m < |u.messages|
    ensures u.messages[m].status != CANCELLED ==>
              && u.messages[m] == v.messages[m] && u.messages[m].status == FAILED && u.messages[m].payload.Some?
              && Existing(u, m) == Unsure
  {
    InvLife(u);
    assert MessageOk(u, m);
    hide Inv;
  }

  lemma ResendRefused(start: Start, es: seq<Event>, e: nat, m: nat)
    requires var u := After(start, es);
             && m < |u.messages| && e < |u.employees| && u.employees[e].active
             && u.messages[m].status == FAILED && (u.messages[m].mark == Review || u.messages[m].mark.Claim?)
             && u.employees[e].email == u.messages[m].recipient && Serving(u.credentials, e, u.messages[m].qr)
             && Unexpired(u.credentials[u.messages[m].qr], u.now)
             && IsLatest(u.messages, u.messages[m].qr, Some(u.messages[m].recipient), m)
    ensures ResendEmployee(After(start, es), e) == (After(start, es), Error(EMAIL_DELIVERY_NEEDS_REVIEW))
  {
    hide Run, ResendEmployee, IsLatest, Certain;
    var u := After(start, es);
    WhatAResendingStores(start, es, e);
    assert Resends(u, ResendEmployee(u, e).0, e, u.messages[m].qr, ResendEmployee(u, e).1);
    assert Unknown(u.messages[m]);
  }

  /** What a send is answered of a message that is not queued, or whose claim was lost. */
  lemma ExistingMeans(t: Post, m: nat)
    requires Known(t, m)
    ensures var x, reply := t.messages[m], Existing(t, m);
            && (reply == AlreadySent <==> x.status == SENT)
            && (reply == Unsure <==> x.status == QUEUED || (x.status == FAILED && (x.mark.Claim? || x.mark == Review)))
            && (reply == NotSent
                <==> x.status == CANCELLED || (x.status == FAILED && !x.mark.Claim? && x.mark != Review))
            && (reply == Raised <==> x.status == DRAFT || x.status == PENDING_APPROVAL)
  {
  }
}
