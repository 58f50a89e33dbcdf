/** The daily email limit. */
module MailDailyLimit {
  // Over every day, not only over those a sender looked at.

  import opened Options
  import opened MailTables
  import opened MailProtocol
  import opened MailInvariant
  import opened MailLife
  import opened MailSending
  import opened MailTheorems

  /** The messages that reached SENT in the closed day that starts at `from`. */
  function SentWithin(sent: seq<Delivery>, from: int): set<nat> {
    set p: nat | p < |sent| && from <= sent[p].at <= from + DAY :: sent[p].message
  }

  /** At most `k` sends are ever under way at once. */
  ghost predicate AtMost(t: Post, es: seq<Event>, k: nat)
    decreases es
  {
    es == [] || ((es[0].OnCheck? ==> |InFlight(t.sends)| < k) && AtMost(Step(t, es[0]), es[1..], k))
  }

  ghost predicate FewRivals(t: Post, k: nat) { forall i :: 0 <= i < |t.sends| ==> |t.sends[i].rivals| < k }

  lemma StepFewRivals(t: Post, e: Event, k: nat)
    requires Inv(t) && FewRivals(t, k) && (e.OnCheck? ==> |InFlight(t.sends)| < k)
    ensures FewRivals(Step(t, e), k)
  {
    hide Inv, Administer, Validate, SentSince, InFlight;
    if !e.OnCheck? && !e.OnClaim? && !e.OnDeliver? && !e.OnCrash? && !e.OnTick? { AdministerCalls(t, e); }
  }

  lemma {:induction false} RunFewRivals(t: Post, es: seq<Event>, k: nat)
    requires Inv(t) && FewRivals(t, k) && AtMost(t, es, k)
    ensures FewRivals(Run(t, es), k)
    decreases es
  {
    hide Inv, Good, Step, FewRivals, InFlight;
    if es != [] {
      StepFewRivals(t, es[0], k);
      StepGood(t, es[0]);
      GoodInv(t, Step(t, es[0]));
      RunFewRivals(Step(t, es[0]), es[1..], k);
    }
  }

  /** Entry `p` of the log lies in the day and was made by the send checked last among those that do. */
  predicate LastIn(sent: seq<Delivery>, from: int, p: nat) {
    && p < |sent| && from <= sent[p].at <= from + DAY
    && forall r: nat :: r < |sent| && from <= sent[r].at <= from + DAY ==> sent[r].send <= sent[p].send
  }

  lemma {:induction false} LastExists(sent: seq<Delivery>, from: int, some: nat)
    requires some < |sent| && from <= sent[some].at <= from + DAY
    ensures exists p: nat :: LastIn(sent, from, p)
    decreases |sent|
  {
    var n := |sent| - 1;
    var rest := sent[..n];
    if exists r: nat :: r < n && from <= rest[r].at <= from + DAY {
      var r: nat :| r < n && from <= rest[r].at <= from + DAY;
      LastExists(rest, from, r);
      var p: nat :| LastIn(rest, from, p);
      assert LastIn(sent, from, if from <= sent[n].at <= from + DAY && sent[p].send <= sent[n].send then n else p);
    } else {
      assert LastIn(sent, from, some);
    }
  }

  /** The messages of a set of sends. */
  function MessagesOf(sends: seq<Send>, s: set<nat>): set<nat> { set i | i in s && i < |sends| :: sends[i].message }

  lemma {:induction false} MessagesOfSize(sends: seq<Send>, s: set<nat>)
    ensures |MessagesOf(sends, s)| <= |s|
    decreases |s|
  {
    if i :| i in s {
      MessagesOfSize(sends, s - {i});
      var rest := MessagesOf(sends, s - {i});
      var more := if i < |sends| then {sends[i].message} else {};
      assert MessagesOf(sends, s) == rest + more;
    } else {
      assert MessagesOf(sends, s) == {};
    }
  }

  /** Take the send checked last among those of the day.  What was sent before its check was counted by it; what was
      sent after is its own message or that of a rival. */
  lemma DayCovered(t: Post, from: int, p: nat)
    requires Inv(t) && LastIn(t.sent, from, p)
    ensures t.sent[p].send < |t.sends|
    ensures var i := t.sent[p].send;
            var s := t.sends[i];
            && s.sentBefore <= |t.sent|
            && SentWithin(t.sent, from)
               <= Recent(t.sent[..s.sentBefore], s.checkedAt - DAY) + MessagesOf(t.sends, s.rivals + {i})
  {
    assert DeliveryOk(t, p);
    var i := t.sent[p].send;
    assert CheckOk(t, i);
    var s := t.sends[i];
    var before := t.sent[..s.sentBefore];
    forall r: nat | r < |t.sent| && from <= t.sent[r].at <= from + DAY
      ensures t.sent[r].message in Recent(before, s.checkedAt - DAY) + MessagesOf(t.sends, s.rivals + {i})
    {
      assert DeliveryOk(t, r);
      if r < s.sentBefore { assert before[r] == t.sent[r]; }
      else { assert t.sent[r].send in s.rivals + {i}; }
    }
  }

  lemma UnionSize(a: set<nat>, b: set<nat>)
    ensures |a + b| <= |a| + |b|
  {
    assert |a + b| == |a| + |b| - |a * b|;
  }

  lemma DayLimited(t: Post, k: nat, from: int)
    requires Inv(t) && FewRivals(t, k) && t.limit.Some? && t.limit.value >= 1 && k >= 1
    ensures |SentWithin(t.sent, from)| <= t.limit.value + k - 1
  {
    hide Inv, Recent, MessagesOf;
    if some: nat :| some < |t.sent| && from <= t.sent[some].at <= from + DAY {
      LastExists(t.sent, from, some);
      var p: nat :| LastIn(t.sent, from, p);
      var i := t.sent[p].send;
      DayCovered(t, from, p);
      CheckWasClear(t, i);
      var a, b := Recent(t.sent[..t.sends[i].sentBefore], t.sends[i].checkedAt - DAY),
                  MessagesOf(t.sends, t.sends[i].rivals + {i});
      SubsetSize(SentWithin(t.sent, from), a + b);
      UnionSize(a, b);
      MessagesOfSize(t.sends, t.sends[i].rivals + {i});
    } else {
      assert SentWithin(t.sent, from) == {};
    }
  }

  lemma CheckWasClear(t: Post, i: nat)
    requires Inv(t) && i < |t.sends|
    ensures CheckOk(t, i)
  {
  }

  /** In any day whatsoever, at most `limit` messages reach SENT if messages are sent one at a time; if up to `k`
      sends are under way at once, at most `limit + k - 1`.  Cancellations rewriting the time of SENT rows make no
      difference. */
  lemma DailyLimit(start: Start, es: seq<Event>, k: nat, from: int)
    requires start.limit.Some? && start.limit.value >= 1 && k >= 1
    requires AtMost(Empty(start.now, start.limit, start.refused), es, k)
    ensures |SentWithin(After(start, es).sent, from)| <= start.limit.value + k - 1
  {
    AfterInv(start, es);
    EmptyInv(start.now, start.limit, start.refused);
    RunFewRivals(Empty(start.now, start.limit, start.refused), es, k);
    hide Inv, Run, SentWithin;
    DayLimited(After(start, es), k, from);
  }

  // ---- Booking ahead ----

  lemma {:induction false} ApprovedRows(t: Post, ids: seq<nat>, actor: nat)
    requires forall i :: 0 <= i < |ids| ==> Known(t, ids[i])
    ensures var u := ApproveRows(t, ids, actor).0; u.now == t.now && OnlyQueued(t, u, ids)
  {
    hide Known;
    if ids != [] {
      var rest := ids[..|ids| - 1];
      ApprovedRows(t, rest, actor);
      KnownRow(t, ids[|ids| - 1]);
    }
  }

  function Elements(ids: seq<nat>): set<nat> { set i | i in ids }

  lemma {:induction false} ElementsSize(ids: seq<nat>)
    ensures |Elements(ids)| <= |ids|
  {
    if ids == [] {
      assert Elements(ids) == {};
    } else {
      var n := |ids| - 1;
      ElementsSize(ids[..n]);
      assert ids == ids[..n] + [ids[n]];
      assert Elements(ids) == Elements(ids[..n]) + {ids[n]};
    }
  }

  /** Rows that only moved to QUEUED, and only those of `ids`. */
  ghost predicate OnlyQueued(t: Post, u: Post, ids: seq<nat>) {
    && |u.messages| == |t.messages|
    && forall m :: 0 <= m < |t.messages| ==>
         u.messages[m] == t.messages[m] || (m in ids && u.messages[m].status == QUEUED)
  }

  lemma OnlyQueuedSizes(t: Post, u: Post, ids: seq<nat>, since: int)
    requires OnlyQueued(t, u, ids)
    ensures |SentSince(u.messages, since)| <= |SentSince(t.messages, since)|
    ensures |QueuedNow(u.messages)| <= |QueuedNow(t.messages)| + |ids|
  {
    ElementsSize(ids);
    SubsetSize(SentSince(u.messages, since), SentSince(t.messages, since));
    SubsetSize(QueuedNow(u.messages), QueuedNow(t.messages) + Elements(ids));
    UnionSize(QueuedNow(t.messages), Elements(ids));
  }

  /** Approving a visitor batch never books more than the day's allowance: what was sent in the last day and what is
      then queued stay within it together. */
  lemma BookingsFitTheAllowance(t: Post, batch: nat, expected: nat, allowance: nat, actor: nat)
    requires ApproveEmails(t, batch, expected, allowance, actor).1.Ok?
    ensures var u := ApproveEmails(t, batch, expected, allowance, actor).0;
            |SentSince(u.messages, u.now - DAY)| + |QueuedNow(u.messages)| <= allowance
  {
    hide Known, FirstProblem, ApproveRows, SentSince, QueuedNow;
    var ids := Pending(t.messages, batch);
    ApprovedRows(t, ids, actor);
    OnlyQueuedSizes(t, ApproveRows(t, ids, actor).0, ids, t.now - DAY);
  }
}
