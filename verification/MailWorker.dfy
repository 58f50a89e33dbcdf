/** Whole sends of an email. */
module MailWorker {
  // Three transactions, any of which may fail before or after its commit, with other transactions in between.

  import opened Options
  import opened MailTables
  import opened MailProtocol
  import opened MailInvariant
  import opened MailSending
  import opened MailTheorems
  import opened MailDrafts
  import opened MailOutcomes
  import opened MailService

  /** How a transaction's commit goes: acknowledged, or raised after or before taking effect. */
  datatype Commit = Acknowledged | Ambiguous | Lost

  /** What a reply promises about message `m`: SENT and ALREADY_SENT only of a row that is SENT, CANCELLED and FAILED
      only of one that is not and can never be handed to the provider again. */
  predicate Truthful(t: Post, m: nat, reply: Reply) {
    && (reply in {AlreadySent, SentNow} ==> m < |t.messages| && t.messages[m].status == SENT)
    && (reply == NotSent ==> m < |t.messages| && Spent(t.messages[m]) && t.messages[m].status != SENT)
  }

  lemma StepInv(t: Post, e: Event)
    requires Inv(t)
    ensures Inv(Step(t, e))
  {
    StepGood(t, e);
    GoodInv(t, Step(t, e));
    hide Inv, Good, Step;
  }

  /** What becomes of the claim of send `i`.  No reply means that delivery may go on. */
  function ClaimOutcome(t: Post, i: nat, commit: Commit): (Post, Option<Reply>)
    requires i < |t.sends|
  {
    var m := t.sends[i].message;
    var u := ClaimStep(t, i, commit == Acknowledged);
    if commit == Lost then (Finish(t, i), Some(Raised))
    else if commit == Ambiguous then (u, Some(Raised))
    else if !Known(t, m) || t.messages[m].status != QUEUED || t.messages[m].approved.None? then (u, Some(Existing(t, m)))
    else (u, if Validate(t, m, QUEUED).Clean? then None else Some(NotSent))
  }

  /** The claim of send `i`. */
  method ClaimMessage(db: MailDatabase, i: nat, commit: Commit) returns (reply: Option<Reply>, ghost e: Event)
    requires Inv(db.T()) && i < |db.sends| && db.sends[i].stage == Checked
    modifies db
    ensures (db.T(), reply) == ClaimOutcome(old(db.T()), i, commit)
    ensures db.T() == Step(old(db.T()), e) && Inv(db.T())
    ensures reply.Some? ==> Truthful(db.T(), old(db.sends[i]).message, reply.value) && reply.value != SentNow
  {
    hide Inv, ClaimStep, Existing, Truthful, Validate, Administer;
    var m := db.sends[i].message;
    ClaimIsTruthful(db.T(), i, commit);
    if commit == Lost {
      e := OnCrash(i);
      StepInv(db.T(), e);
      db.Advance(i, Done);
      return Some(Raised), e;
    }
    e := OnClaim(i, commit == Acknowledged);
    ClaimStage(db.T(), i, commit == Acknowledged);
    var queued := Known(db.T(), m) && db.messages[m].status == QUEUED && db.messages[m].approved.Some?;
    var before := Existing(db.T(), m);
    StepInv(db.T(), e);
    db.Claim(i, commit == Acknowledged);
    if commit == Ambiguous { return Some(Raised), e; }
    if !queued { return Some(before), e; }
    if db.sends[i].stage == Claimed { return None, e; }
    return Some(NotSent), e;
  }

  lemma ClaimStage(t: Post, i: nat, acknowledged: bool)
    requires i < |t.sends| && t.sends[i].stage == Checked
    ensures var u, m := ClaimStep(t, i, acknowledged), t.sends[i].message;
            && |u.sends| == |t.sends|
            && (Known(t, m) && t.messages[m].status == QUEUED && t.messages[m].approved.Some? && acknowledged ==>
                  (u.sends[i].stage == Claimed <==> Validate(t, m, QUEUED).Clean?))
  {
    hide Validate;
  }

  lemma ClaimIsTruthful(t: Post, i: nat, commit: Commit)
    requires i < |t.sends| && t.sends[i].stage == Checked
    ensures var (u, reply) := ClaimOutcome(t, i, commit);
            reply.Some? ==> Truthful(u, t.sends[i].message, reply.value) && reply.value != SentNow
  {
    hide PreviewProblem;
  }

  /** What becomes of the delivery of send `i`, once it has claimed its message. */
  function DeliverOutcome(t: Post, i: nat, p: Provider, lag: nat, commit: Commit): (Post, Reply)
    requires i < |t.sends|
  {
    var m := t.sends[i].message;
    (MailProtocol.Deliver(t, i, p, lag, commit != Lost),
     if commit != Acknowledged || t.sends[i].stage != Claimed then Unsure
     else if !Holds(t, m, i) then (if Existing(t, m) == Raised then Unsure else Existing(t, m))
     else if Validate(t, m, FAILED).Problem? || p.Refused? then NotSent
     else if p.Accepted? then SentNow
     else Unsure)
  }

  /** The delivery of send `i`. */
  method DeliverMessage(db: MailDatabase, i: nat, p: Provider, lag: nat, commit: Commit)
    returns (reply: Reply, ghost e: Event)
    requires Inv(db.T()) && i < |db.sends|
    modifies db
    ensures (db.T(), reply) == DeliverOutcome(old(db.T()), i, p, lag, commit)
    ensures db.T() == Step(old(db.T()), e) && Inv(db.T())
    ensures Truthful(db.T(), old(db.sends[i]).message, reply)
    ensures reply == SentNow ==> |db.calls| == |old(db.calls)| + 1 && |db.sent| == |old(db.sent)| + 1
  {
    hide Inv, MailProtocol.Deliver;
    var m := db.sends[i].message;
    e := OnDeliver(i, p, lag, commit != Lost);
    DeliverReplies(db.T(), i, p, lag, commit != Lost);
    var stage, held := db.sends[i].stage, Holds(db.T(), m, i);
    var before := Existing(db.T(), m);
    var validity := if held then Validate(db.T(), m, FAILED) else Clean;
    StepInv(db.T(), e);
    db.Deliver(i, p, lag, commit != Lost);
    if commit != Acknowledged || stage != Claimed { return Unsure, e; }
    if !held { return if before == Raised then Unsure else before, e; }
    if validity.Problem? || p.Refused? { return NotSent, e; }
    return if p.Accepted? then SentNow else Unsure, e;
  }

  lemma DeliverReplies(t: Post, i: nat, p: Provider, lag: nat, committed: bool)
    requires i < |t.sends|
    ensures var u, m := MailProtocol.Deliver(t, i, p, lag, committed), t.sends[i].message;
            t.sends[i].stage == Claimed ==>
              if !Holds(t, m, i) then Truthful(u, m, Existing(t, m)) && Existing(t, m) != SentNow
              else if Validate(t, m, FAILED).Problem? || p.Refused? then committed ==> Truthful(u, m, NotSent)
              else if p.Accepted? then
                committed ==> Truthful(u, m, SentNow) && |u.calls| == |t.calls| + 1 && |u.sent| == |t.sent| + 1
              else true
  {
    hide PreviewProblem;
  }

  /** Over any run, what a delivery is answered: SENT only for a message the provider accepted, when that is known to be
      stored; CANCELLED or FAILED when nothing was or can be sent; what the row says if the claim is gone; and in every
      other case, the outcome is to be reviewed. */
  lemma WhatADeliveryAnswers(start: Start, es: seq<Event>, i: nat, p: Provider, lag: nat, commit: Commit)
    requires i < |After(start, es).sends| && After(start, es).sends[i].stage == Claimed
    ensures var t := After(start, es);
            var m, (u, reply) := t.sends[i].message, DeliverOutcome(t, i, p, lag, commit);
            && u == Step(t, OnDeliver(i, p, lag, commit != Lost))
            && (if commit != Acknowledged then reply == Unsure
                else if !HoldsClaim(t, i) then reply == (if Existing(t, m) == Raised then Unsure else Existing(t, m))
                else if !(Known(t, m) && Deliverable(t, m)) then reply == NotSent
                else match p
                     case Accepted => reply == SentNow
                     case Refused(_) => reply == NotSent
                     case Uncertain => reply == Unsure)
  {
    hide Run, Inv, MailProtocol.Deliver, Validate, Deliverable, Existing;
    var t := After(start, es);
    AfterInv(start, es);
    InvLife(t);
    if HoldsClaim(t, i) { CallsMeans(t, i); }
    hide LifeInv;
  }

  /** Over any run, when a claim ends the send: the claim was not confirmed; the message was not queued, and is
      answered as it stands; or it was queued but cannot go out. */
  lemma WhatAClaimAnswers(start: Start, es: seq<Event>, i: nat, commit: Commit)
    requires i < |After(start, es).sends| && After(start, es).sends[i].stage == Checked
    ensures var t := After(start, es);
            var m, (u, reply) := t.sends[i].message, ClaimOutcome(t, i, commit);
            && u == Step(t, if commit == Lost then OnCrash(i) else OnClaim(i, commit == Acknowledged))
            && (if commit != Acknowledged then reply == Some(Raised)
                else if m >= |t.messages| || t.messages[m].status != QUEUED then reply == Some(Existing(t, m))
                else reply == if Known(t, m) && Deliverable(t, m) then None else Some(NotSent))
  {
    hide Run, Inv, Validate, Deliverable, Existing;
    var t := After(start, es);
    AfterInv(start, es);
    InvLife(t);
    var m := t.sends[i].message;
    if m < |t.messages| && t.messages[m].status == QUEUED { ValidityMeans(t, m); }
    hide LifeInv, ClaimStep;
  }

  /** Other transactions, in between. */
  method Meanwhile(db: MailDatabase, others: seq<Event>, ghost t: Post, ghost before: seq<Event>)
    returns (ghost trace: seq<Event>)
    requires Inv(t) && Inv(db.T()) && db.T() == Run(t, before)
    modifies db
    ensures trace == before + others && Inv(db.T()) && db.T() == Run(t, trace)
    ensures db.T() == Run(old(db.T()), others)
  {
    hide Inv, Run;
    RunAppend(t, before, others);
    db.PerformAll(others);
    trace := before + others;
  }

  lemma RunSnoc(t: Post, es: seq<Event>, e: Event)
    ensures Run(t, es + [e]) == Step(Run(t, es), e)
  {
    RunAppend(t, es, [e]);
    RunOne(Run(t, es), e);
  }

  /** A send, once checked, keeps its message whatever runs meanwhile. */
  lemma {:induction false} SendStays(t: Post, es: seq<Event>, i: nat)
    requires Inv(t) && i < |t.sends|
    ensures i < |Run(t, es).sends| && Run(t, es).sends[i].message == t.sends[i].message
    decreases es
  {
    hide Inv, Good, Step;
    if es != [] {
      StepSend(t, es[0], i);
      StepGood(t, es[0]);
      GoodInv(t, Step(t, es[0]));
      SendStays(Step(t, es[0]), es[1..], i);
    }
  }

  lemma StepSend(t: Post, e: Event, i: nat)
    requires Inv(t) && i < |t.sends|
    ensures i < |Step(t, e).sends| && Step(t, e).sends[i].message == t.sends[i].message
  {
    hide Inv, Administer, Validate, SentSince;
    if !e.OnCheck? && !e.OnClaim? && !e.OnDeliver? && !e.OnCrash? && !e.OnTick? { AdministerCalls(t, e); }
  }

  /** What becomes of a whole call of `send`. */
  function SendOutcome(t: Post, m: nat, others: nat -> seq<Event>, claiming: Commit, p: Provider, lag: nat,
                       delivering: Commit): (Post, Reply)
  {
    var i, u := |t.sends|, Check(t, m);
    if |u.sends| == i then (t, LimitHit)
    else
      var v := Run(u, others(0));
      if i >= |v.sends| || v.sends[i].stage != Checked then (v, Raised)
      else
        var (w, answer) := ClaimOutcome(v, i, claiming);
        if answer.Some? then (w, answer.value)
        else
          var x := Run(w, others(1));
          if i >= |x.sends| then (x, Raised) else DeliverOutcome(x, i, p, lag, delivering)
  }

  /** `send`.  Whatever fails and whatever runs in between, the tables are those of a run of the protocol and the
      reply is true of the message when it is given: in particular SENT is answered only for a committed row, and an
      outcome that is not known for sure is answered NEEDS_REVIEW. */
  method Send(db: MailDatabase, m: nat, others: nat -> seq<Event>, claiming: Commit, p: Provider, lag: nat,
              delivering: Commit)
    returns (reply: Reply, ghost trace: seq<Event>)
    requires Inv(db.T())
    modifies db
    ensures (db.T(), reply) == SendOutcome(old(db.T()), m, others, claiming, p, lag, delivering)
    ensures Inv(db.T()) && db.T() == Run(old(db.T()), trace)
    ensures Truthful(db.T(), m, reply)
  {
    hide Inv, Run, Step, Truthful, ClaimOutcome, DeliverOutcome, Check;
    ghost var t := db.T();
    trace := [OnCheck(m)];
    RunOne(t, OnCheck(m));
    CheckStep(t, m);
    var send := db.LimitReached(m);
    if send.None? { return LimitHit, trace; }
    var i := send.value;
    SendStays(db.T(), others(0), i);
    trace := Meanwhile(db, others(0), t, trace);
    RaisedIsTrue(db.T(), m);
    if db.sends[i].stage != Checked { return Raised, trace; }  // the process died
    ghost var u := db.T();
    ghost var e;
    var answer;
    answer, e := ClaimMessage(db, i, claiming);
    StepSend(u, e, i);
    RunSnoc(t, trace, e);
    trace := trace + [e];
    if answer.Some? { return answer.value, trace; }
    SendStays(db.T(), others(1), i);
    trace := Meanwhile(db, others(1), t, trace);
    reply, e := DeliverMessage(db, i, p, lag, delivering);
    RunSnoc(t, trace, e);
    trace := trace + [e];
  }

  lemma RaisedIsTrue(t: Post, m: nat)
    ensures Truthful(t, m, Raised)
  {
  }

  lemma CheckStep(t: Post, m: nat)
    requires Inv(t)
    ensures Step(t, OnCheck(m)) == Check(t, m) && Inv(Check(t, m))
    ensures if Check(t, m) == t then |Check(t, m).sends| == |t.sends|
            else |Check(t, m).sends| == |t.sends| + 1 && Check(t, m).sends[|t.sends|].message == m
    ensures Truthful(t, m, LimitHit)
  {
    CheckGood(t, m);
    GoodInv(t, Check(t, m));
    hide Inv, Good, SentSince;
  }
}
