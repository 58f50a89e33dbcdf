/** Claims, provider calls and the daily limit: what holds of the sends after every step, and what no run can undo. */
module MailSending {
  import opened Options
  import opened MailTables
  import opened MailProtocol
  import opened MailInvariant
  import opened MailLife

  // ---- Claims and calls ----

  /** A call was made for a message that had left the queue, by a send of that message that is over. */
  ghost predicate CallOk(t: Post, c: nat)
    requires c < |t.calls|
  {
    var x := t.calls[c];
    && x.message < |t.messages| && Rank(t.messages[x.message].status) >= 2
    && x.send < |t.sends| && t.sends[x.send].stage == Done && t.sends[x.send].message == x.message
  }

  ghost predicate Uncalled(t: Post, m: nat) { forall c :: 0 <= c < |t.calls| ==> t.calls[c].message != m }

  /** A claim names a send of its message; while that send may still deliver, no call has been made for the message. */
  ghost predicate ClaimOk(t: Post, m: nat)
    requires m < |t.messages|
  {
    var x := t.messages[m];
    x.mark.Claim? ==>
      && x.mark.send < |t.sends| && t.sends[x.mark.send].message == m
      && (t.sends[x.mark.send].stage == Claimed ==> Uncalled(t, m))
  }

  ghost predicate ClaimInv(t: Post) {
    && (forall c :: 0 <= c < |t.calls| ==> CallOk(t, c))
    && (forall c, d :: 0 <= c < d < |t.calls| ==> t.calls[c].message != t.calls[d].message)
    && (forall m :: 0 <= m < |t.messages| ==> ClaimOk(t, m))
  }

  // ---- The sent log ----

  /** A delivery stands for a row that is SENT and was stamped no earlier than it. */
  ghost predicate DeliveryOk(t: Post, p: nat)
    requires p < |t.sent|
  {
    var d := t.sent[p];
    && d.message < |t.messages| && t.messages[d.message].status == SENT && d.at <= t.messages[d.message].updated
    && d.send < |t.sends| && t.sends[d.send].stage == Done && t.sends[d.send].message == d.message
    && t.sends[d.send].checkedAt <= d.at <= t.now
  }

  ghost predicate SentInv(t: Post) {
    && (forall p :: 0 <= p < |t.sent| ==> DeliveryOk(t, p))
    && (forall p, r :: 0 <= p < r < |t.sent| ==> t.sent[p].message != t.sent[r].message)
  }

  // ---- The daily limit ----

  /** The messages delivered at or after `since`. */
  function Recent(sent: seq<Delivery>, since: int): set<nat> {
    set p: nat | p < |sent| && sent[p].at >= since :: sent[p].message
  }

  /** When send `i` was checked the limit was not reached, and `rivals` were the sends under way: any earlier send still
      under way, or finished since, is one of them. */
  ghost predicate CheckOk(t: Post, i: nat)
    requires i < |t.sends|
  {
    var s := t.sends[i];
    && s.checkedAt <= t.now && s.sentBefore <= |t.sent|
    && (t.limit.Some? ==> |Recent(t.sent[..s.sentBefore], s.checkedAt - DAY)| < t.limit.value)
    && (forall j :: 0 <= j < i && t.sends[j].stage != Done ==> j in s.rivals)
    && (forall p :: s.sentBefore <= p < |t.sent| && t.sent[p].send < i ==> t.sent[p].send in s.rivals)
  }

  ghost predicate LimitInv(t: Post) { forall i :: 0 <= i < |t.sends| ==> CheckOk(t, i) }

  ghost predicate SendsInv(t: Post) { ClaimInv(t) && SentInv(t) && LimitInv(t) }

  ghost predicate Inv(t: Post) { LifeInv(t) && SendsInv(t) }

  // ---- What no run undoes ----

  /** A message that can never be handed to the provider again. */
  predicate Spent(x: Message) { Terminal(x.status) || (x.status == FAILED && !x.mark.Claim?) }

  ghost predicate Advances(x: Message, y: Message) {
    && y.qr == x.qr && y.recipient == x.recipient
    && Rank(x.status) <= Rank(y.status)
    && (Terminal(x.status) ==> y.status == x.status)
    && (Spent(x) ==> Spent(y))
    && (x.approved.Some? ==> y.approved == x.approved)
  }

  ghost predicate Keeps(t: Post, u: Post) {
    && t.now <= u.now && u.limit == t.limit && u.refused == t.refused && SameOwners(t, u)
    && |t.messages| <= |u.messages|
    && (forall m :: 0 <= m < |t.messages| ==> Advances(t.messages[m], u.messages[m]))
    && t.calls <= u.calls && t.sent <= u.sent
    && (forall c :: |t.calls| <= c < |u.calls| && u.calls[c].message < |t.messages| ==>
          !Spent(t.messages[u.calls[c].message]))
  }

  lemma KeepsTransitive(t: Post, u: Post, v: Post)
    requires Keeps(t, u) && Keeps(u, v)
    ensures Keeps(t, v)
  {
    forall m | 0 <= m < |t.messages| ensures Advances(t.messages[m], v.messages[m]) {
      assert Advances(t.messages[m], u.messages[m]) && Advances(u.messages[m], v.messages[m]);
    }
    forall c | |t.calls| <= c < |v.calls| && v.calls[c].message < |t.messages|
      ensures !Spent(t.messages[v.calls[c].message])
    {
      var m := v.calls[c].message;
      assert Advances(t.messages[m], u.messages[m]);
      if c < |u.calls| { assert v.calls[c] == u.calls[c]; }
    }
  }

  lemma KeepsSame(t: Post)
    ensures Keeps(t, t)
  {
  }

  ghost predicate Good(t: Post, u: Post) { Inv(u) && Keeps(t, u) }

  lemma GoodThen(t: Post, u: Post, v: Post)
    requires Good(t, u) && Good(u, v)
    ensures Good(t, v)
  {
    KeepsTransitive(t, u, v);
    hide Inv, Keeps;
  }

  lemma GoodSame(t: Post)
    requires Inv(t)
    ensures Good(t, t)
  {
    KeepsSame(t);
    hide Inv, Keeps;
  }

  // ---- Administration ----

  lemma QuietKeeps(t: Post, u: Post)
    requires Quiet(t, u) && MessagesInv(t)
    ensures Keeps(t, u)
  {
    forall m | 0 <= m < |t.messages| ensures Advances(t.messages[m], u.messages[m]) {
      assert Moves(t.messages[m], u.messages[m]) && MessageOk(t, m);
    }
  }

  lemma QuietClaims(t: Post, u: Post)
    requires Quiet(t, u) && ClaimInv(t)
    ensures ClaimInv(u)
  {
    hide SameOwners;
    forall c | 0 <= c < |u.calls| ensures CallOk(u, c) {
      assert CallOk(t, c);
      assert Moves(t.messages[t.calls[c].message], u.messages[t.calls[c].message]);
    }
    forall m | 0 <= m < |u.messages| ensures ClaimOk(u, m) {
      if m < |t.messages| { assert Moves(t.messages[m], u.messages[m]) && ClaimOk(t, m); }
      else { assert New(u.messages[m]); }
    }
  }

  lemma QuietSent(t: Post, u: Post)
    requires Quiet(t, u) && SentInv(t) && LimitInv(t)
    ensures SentInv(u) && LimitInv(u)
  {
    hide SameOwners, Recent;
    forall p | 0 <= p < |u.sent| ensures DeliveryOk(u, p) {
      assert DeliveryOk(t, p);
      assert Moves(t.messages[t.sent[p].message], u.messages[t.sent[p].message]);
    }
    forall i | 0 <= i < |u.sends| ensures CheckOk(u, i) { assert CheckOk(t, i); }
  }

  lemma AdministerGood(t: Post, e: Event)
    requires Inv(t)
    ensures Good(t, Administer(t, e))
  {
    var u := Administer(t, e);
    AdministerFine(t, e);
    FineKeeps(t, u);
    QuietKeeps(t, u);
    QuietClaims(t, u);
    QuietSent(t, u);
    hide LifeInv, ClaimInv, SentInv, LimitInv, Quiet, Fine, Keeps, Administer;
  }

  // ---- Steps of a send ----

  lemma FinishGood(t: Post, i: nat)
    requires Inv(t) && i < |t.sends|
    ensures Good(t, Finish(t, i))
  {
    hide Recent;
    var u := Finish(t, i);
    OwnersUnchanged(t, u);
    forall m | 0 <= m < |u.messages| ensures MessageOk(u, m) && ClaimOk(u, m) {
      assert MessageOk(t, m) && ClaimOk(t, m);
    }
    forall c | 0 <= c < |u.calls| ensures CallOk(u, c) { assert CallOk(t, c); }
    forall p | 0 <= p < |u.sent| ensures DeliveryOk(u, p) { assert DeliveryOk(t, p); }
    forall j | 0 <= j < |u.sends| ensures CheckOk(u, j) { assert CheckOk(t, j); }
  }

  lemma TickGood(t: Post, elapsed: nat)
    requires Inv(t)
    ensures Good(t, t.(now := t.now + elapsed))
  {
    hide Recent;
    var u := t.(now := t.now + elapsed);
    OwnersUnchanged(t, u);
    forall m | 0 <= m < |u.messages| ensures MessageOk(u, m) && ClaimOk(u, m) {
      assert MessageOk(t, m) && ClaimOk(t, m);
    }
    forall c | 0 <= c < |u.calls| ensures CallOk(u, c) { assert CallOk(t, c); }
    forall p | 0 <= p < |u.sent| ensures DeliveryOk(u, p) { assert DeliveryOk(t, p); }
    forall j | 0 <= j < |u.sends| ensures CheckOk(u, j) { assert CheckOk(t, j); }
  }

  // ---- The check of the daily limit ----

  lemma {:induction false} SubsetSize(a: set<nat>, b: set<nat>)
    requires a <= b
    ensures |a| <= |b|
  {
    assert b == a + (b - a);
  }

  /** Every recent delivery is counted by the query, whatever cancellation did to the rows since. */
  lemma RecentIsCounted(t: Post, since: int)
    requires SentInv(t)
    ensures |Recent(t.sent, since)| <= |SentSince(t.messages, since)|
  {
    forall p: nat | p < |t.sent| && t.sent[p].at >= since ensures t.sent[p].message in SentSince(t.messages, since) {
      assert DeliveryOk(t, p);
    }
    SubsetSize(Recent(t.sent, since), SentSince(t.messages, since));
  }

  lemma CheckGood(t: Post, m: nat)
    requires Inv(t)
    ensures Good(t, Check(t, m))
  {
    GoodSame(t);
    hide Recent, SentSince;
    var u := Check(t, m);
    if u != t {
      RecentIsCounted(t, t.now - DAY);
      assert t.sent[..|t.sent|] == t.sent;
      OwnersUnchanged(t, u);
      forall k | 0 <= k < |u.messages| ensures MessageOk(u, k) && ClaimOk(u, k) {
        assert MessageOk(t, k) && ClaimOk(t, k);
      }
      forall c | 0 <= c < |u.calls| ensures CallOk(u, c) { assert CallOk(t, c); }
      forall p | 0 <= p < |u.sent| ensures DeliveryOk(u, p) { assert DeliveryOk(t, p); }
      forall i | 0 <= i < |u.sends| ensures CheckOk(u, i) { if i < |t.sends| { assert CheckOk(t, i); } }
      KeepsSame(t);
      assert Keeps(t, u);
    }
  }

  // ---- The claim ----

  /** A queued or failed row given another status by a send; nothing else changes. */
  lemma SetStatusLife(t: Post, m: nat, status: Status, mark: Mark, at: int)
    requires LifeInv(t) && m < |t.messages| && t.messages[m].status in {QUEUED, FAILED}
    requires status in {FAILED, SENT, CANCELLED} && (mark.Claim? ==> status == FAILED) && at <= t.now
    ensures LifeInv(SetStatus(t, m, status, mark, at))
  {
    var u := SetStatus(t, m, status, mark, at);
    OwnersUnchanged(t, u);
    forall k | 0 <= k < |u.messages| ensures MessageOk(u, k) { assert MessageOk(t, k); }
  }

  /** A row that leaves the queue or its claim without being claimed. */
  lemma SettleGood(t: Post, m: nat, status: Status, mark: Mark, at: int)
    requires Inv(t) && m < |t.messages| && t.messages[m].status in {QUEUED, FAILED}
    requires status in {FAILED, CANCELLED} && !mark.Claim? && at <= t.now
    ensures Good(t, SetStatus(t, m, status, mark, at))
  {
    hide Recent;
    var u := SetStatus(t, m, status, mark, at);
    SetStatusLife(t, m, status, mark, at);
    assert MessageOk(t, m);
    forall k | 0 <= k < |u.messages| ensures ClaimOk(u, k) { assert ClaimOk(t, k); }
    forall c | 0 <= c < |u.calls| ensures CallOk(u, c) { assert CallOk(t, c); }
    forall p | 0 <= p < |u.sent| ensures DeliveryOk(u, p) { assert DeliveryOk(t, p); }
    forall j | 0 <= j < |u.sends| ensures CheckOk(u, j) { assert CheckOk(t, j); }
    hide LifeInv;
  }

  /** A queued message claimed by send `i`: it has never been handed to the provider. */
  lemma ClaimedGood(t: Post, i: nat, stage: Stage)
    requires Inv(t) && i < |t.sends| && t.sends[i].stage == Checked && stage != Checked
    requires t.sends[i].message < |t.messages| && t.messages[t.sends[i].message].status == QUEUED
    ensures Good(t, SetStatus(t.(sends := t.sends[i := t.sends[i].(stage := stage)]),
                              t.sends[i].message, FAILED, Claim(i), t.now))
  {
    hide Recent;
    var m := t.sends[i].message;
    var v := t.(sends := t.sends[i := t.sends[i].(stage := stage)]);
    var u := SetStatus(v, m, FAILED, Claim(i), t.now);
    OwnersUnchanged(t, v);
    forall k | 0 <= k < |v.messages| ensures MessageOk(v, k) { assert MessageOk(t, k); }
    SetStatusLife(v, m, FAILED, Claim(i), t.now);
    forall c | 0 <= c < |u.calls| ensures CallOk(u, c) && u.calls[c].message != m { assert CallOk(t, c); }
    forall k | 0 <= k < |u.messages| ensures ClaimOk(u, k) { assert ClaimOk(t, k) && MessageOk(t, k); }
    forall p | 0 <= p < |u.sent| ensures DeliveryOk(u, p) { assert DeliveryOk(t, p); }
    forall j | 0 <= j < |u.sends| ensures CheckOk(u, j) { assert CheckOk(t, j); }
    hide LifeInv;
  }

  lemma ClaimStepGood(t: Post, i: nat, acknowledged: bool)
    requires Inv(t)
    ensures Good(t, ClaimStep(t, i, acknowledged))
  {
    GoodSame(t);
    hide Validate, SetStatus;
    if i < |t.sends| && t.sends[i].stage == Checked {
      var m, v := t.sends[i].message, Finish(t, i);
      FinishGood(t, i);
      if Known(t, m) && t.messages[m].status == QUEUED && t.messages[m].approved.Some? {
        ClaimedGood(t, i, if acknowledged then Claimed else Done);
        ProblemsAreFinal(t, m, QUEUED);
        var validity := Validate(t, m, QUEUED);
        if validity.Problem? {
          GoodInv(t, v);
          SettleGood(v, m, validity.status, Reason(validity.code), t.now);
          GoodThen(t, v, SetStatus(v, m, validity.status, Reason(validity.code), t.now));
        }
      }
    }
    hide Inv, Good;
  }

  lemma GoodInv(t: Post, u: Post)
    requires Good(t, u)
    ensures Inv(u)
  {
  }

  lemma ProblemsAreFinal(t: Post, m: nat, status: Status)
    requires Known(t, m)
    ensures var v := Validate(t, m, status); v.Problem? ==> v.status in {FAILED, CANCELLED}
  {
  }

  // ---- The delivery ----

  /** The provider is called by a send that still holds its claim: for the first and only time. */
  lemma CalledGood(t: Post, i: nat, call: ProviderCall)
    requires Inv(t) && i < |t.sends| && t.sends[i].stage == Claimed && Holds(t, t.sends[i].message, i)
    requires call.message == t.sends[i].message && call.send == i
    ensures Good(t, Finish(t, i).(calls := t.calls + [call]))
  {
    hide Recent;
    var m, v := t.sends[i].message, Finish(t, i);
    var u := v.(calls := t.calls + [call]);
    FinishGood(t, i);
    OwnersUnchanged(v, u);
    assert ClaimOk(t, m);
    forall k | 0 <= k < |u.messages| ensures MessageOk(u, k) && ClaimOk(u, k) {
      assert MessageOk(v, k) && ClaimOk(v, k) && ClaimOk(t, k);
    }
    forall c | 0 <= c < |u.calls| ensures CallOk(u, c) { if c < |v.calls| { assert CallOk(v, c); } }
    forall p | 0 <= p < |u.sent| ensures DeliveryOk(u, p) { assert DeliveryOk(v, p); }
    forall j | 0 <= j < |u.sends| ensures CheckOk(u, j) { assert CheckOk(v, j); }
  }

  /** The message reaches SENT. */
  lemma SentGood(t: Post, i: nat, at: int)
    requires Inv(t) && i < |t.sends| && t.sends[i].stage == Done && t.sends[i].message < |t.messages|
    requires t.messages[t.sends[i].message].status == FAILED && t.sends[i].checkedAt <= at <= t.now
    requires forall j :: i < j < |t.sends| ==> i in t.sends[j].rivals
    ensures Good(t, SetStatus(t.(sent := t.sent + [Delivery(t.sends[i].message, i, at)]),
                              t.sends[i].message, SENT, Clear, at))
  {
    hide Recent;
    var m := t.sends[i].message;
    var u := SetStatus(t.(sent := t.sent + [Delivery(m, i, at)]), m, SENT, Clear, at);
    SetStatusLife(t, m, SENT, Clear, at);
    SentLife(t, u, m, at);
    forall k | 0 <= k < |u.messages| ensures ClaimOk(u, k) { assert ClaimOk(t, k); }
    forall c | 0 <= c < |u.calls| ensures CallOk(u, c) { assert CallOk(t, c); }
    forall p | 0 <= p < |t.sent| ensures DeliveryOk(u, p) && u.sent[p] == t.sent[p] && t.sent[p].message != m {
      assert DeliveryOk(t, p);
    }
    assert DeliveryOk(u, |t.sent|);
    forall j | 0 <= j < |u.sends| ensures CheckOk(u, j) {
      assert CheckOk(t, j);
      assert u.sent[..t.sends[j].sentBefore] == t.sent[..t.sends[j].sentBefore];
    }
    hide LifeInv;
  }

  lemma SentLife(t: Post, u: Post, m: nat, at: int)
    requires m < |t.messages| && LifeInv(SetStatus(t, m, SENT, Clear, at))
    requires u == SetStatus(t, m, SENT, Clear, at).(sent := u.sent)
    ensures LifeInv(u)
  {
    var v := SetStatus(t, m, SENT, Clear, at);
    OwnersUnchanged(v, u);
    forall k | 0 <= k < |u.messages| ensures MessageOk(u, k) { assert MessageOk(v, k); }
  }

  lemma DeliverGood(t: Post, i: nat, p: Provider, lag: nat, committed: bool)
    requires Inv(t)
    ensures Good(t, Deliver(t, i, p, lag, committed))
  {
    GoodSame(t);
    hide Validate, SetStatus;
    if i < |t.sends| && t.sends[i].stage == Claimed {
      var m, u := t.sends[i].message, Finish(t, i);
      FinishGood(t, i);
      if Holds(t, m, i) {
        ProblemsAreFinal(t, m, FAILED);
        var validity := Validate(t, m, FAILED);
        if validity.Problem? {
          GoodInv(t, u);
          SettleGood(u, m, validity.status, Reason(validity.code), t.now);
          GoodThen(t, u, SetStatus(u, m, validity.status, Reason(validity.code), t.now));
        } else {
          DeliverCleanGood(t, i, p, lag, committed);
        }
      }
    }
    hide Inv, Good;
  }

  lemma DeliverCleanGood(t: Post, i: nat, p: Provider, lag: nat, committed: bool)
    requires Inv(t) && Calls(t, i)
    ensures Good(t, Deliver(t, i, p, lag, committed))
  {
    hide Validate, SetStatus;
    var m := t.sends[i].message;
    var x := t.messages[m];
    var call := ProviderCall(m, i, x.recipient, t.credentials[x.qr].token);
    var v := Finish(t, i).(calls := t.calls + [call]);
    CalledGood(t, i, call);
    if committed {
      RivalsKnown(t, i);
      var at := Stamp(t, i, lag);
      GoodInv(t, v);
      if p.Accepted? { SentGood(v, i, at); }
      else { SettleGood(v, m, Verdict(p).0, Verdict(p).1, at); }
      GoodThen(t, v, Deliver(t, i, p, lag, committed));
    }
    hide Inv, Good;
  }

  /** A send under way counts as a rival of every later one. */
  lemma RivalsKnown(t: Post, i: nat)
    requires Inv(t) && i < |t.sends| && t.sends[i].stage != Done
    ensures t.sends[i].checkedAt <= t.now
    ensures forall j :: i < j < |t.sends| ==> i in t.sends[j].rivals
  {
    assert CheckOk(t, i);
    forall j | i < j < |t.sends| ensures i in t.sends[j].rivals { assert CheckOk(t, j); }
  }

  // ---- Runs ----

  lemma StepGood(t: Post, e: Event)
    requires Inv(t)
    ensures Good(t, Step(t, e))
  {
    GoodSame(t);
    if e.OnCheck? { CheckGood(t, e.message); }
    else if e.OnClaim? { ClaimStepGood(t, e.send, e.acknowledged); }
    else if e.OnDeliver? { DeliverGood(t, e.send, e.provider, e.lag, e.committed); }
    else if e.OnCrash? { if e.send < |t.sends| { FinishGood(t, e.send); } }
    else if e.OnTick? { TickGood(t, e.elapsed); }
    else { AdministerGood(t, e); }
    hide Inv, Good, Administer, Check, ClaimStep, Deliver, Finish;
  }

  lemma {:induction false} RunGood(t: Post, es: seq<Event>)
    requires Inv(t)
    ensures Good(t, Run(t, es))
    decreases es
  {
    hide Inv, Good, Step;
    if es == [] {
      GoodSame(t);
    } else {
      StepGood(t, es[0]);
      GoodInv(t, Step(t, es[0]));
      RunGood(Step(t, es[0]), es[1..]);
      GoodThen(t, Step(t, es[0]), Run(t, es));
    }
  }

  lemma EmptyInv(now: int, limit: Option<nat>, refused: map<Address, Code>)
    ensures Inv(Empty(now, limit, refused))
  {
  }
}
