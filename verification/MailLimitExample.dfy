/** The bound of the daily limit is attained: two senders at once can send one message more than the limit. */
module MailLimitExample {
  import opened Options
  import opened MailTables
  import opened MailProtocol
  import opened MailTheorems
  import opened MailDailyLimit

  /** Two messages, `a` and `b`, on their way through the protocol. */
  function Row(k: nat, status: Status, mark: Mark): Message {
    var to := if k == 0 then "a" else "b";
    Message(k, to, if status == SENT then None else Some(ForEmployee(k, k)), status, mark, SINGLE, None,
            if status == DRAFT then None else Some(1), 0)
  }

  const PEOPLE := [Employee("a", true, false), Employee("b", true, false)]
  const CARDS := [Credential(EMPLOYEE, Some(0), 0, Some(0), false, None),
                  Credential(EMPLOYEE, Some(1), 1, Some(1), false, None)]

  function Ready(messages: seq<Message>, sends: seq<Send>): Post {
    Post(0, Some(1), map[], PEOPLE, CARDS, map[], messages, sends, [], [])
  }

  const TWO_SENDERS := [
    OnRegister("a", 0, None, None), OnRegister("b", 1, None, None), OnApproveSingle(0, 0, 1), OnApproveSingle(1, 1, 1),
    OnCheck(0), OnCheck(1), OnClaim(0, true), OnClaim(1, true),
    OnDeliver(0, Accepted, 0, true), OnDeliver(1, Accepted, 0, true)]

  const CHECKED := [Send(0, Checked, 0, 0, {}), Send(1, Checked, 0, 0, {0})]
  const CLAIMED := [Send(0, Claimed, 0, 0, {}), Send(1, Claimed, 0, 0, {0})]
  const DONE := [Send(0, Done, 0, 0, {}), Send(1, Done, 0, 0, {0})]
  const CALLED := [ProviderCall(0, 0, "a", 0), ProviderCall(1, 1, "b", 1)]
  const SENT_BOTH := [Delivery(0, 0, 0), Delivery(1, 1, 0)]

  const ONE := Post(0, Some(1), map[], [PEOPLE[0]], [CARDS[0]], map[], [Row(0, DRAFT, Clear)], [], [], [])

  lemma FirstRegistered()
    ensures Step(Empty(0, Some(1), map[]), TWO_SENDERS[0]) == ONE
  {
  }

  lemma Registered()
    ensures Step(Step(Empty(0, Some(1), map[]), TWO_SENDERS[0]), TWO_SENDERS[1])
            == Ready([Row(0, DRAFT, Clear), Row(1, DRAFT, Clear)], [])
  {
    FirstRegistered();
    SecondRegistered();
    hide Step, Row, Ready;
  }

  lemma SecondRegistered()
    ensures Step(ONE, TWO_SENDERS[1]) == Ready([Row(0, DRAFT, Clear), Row(1, DRAFT, Clear)], [])
  {
  }

  lemma FirstApproved()
    ensures Step(Ready([Row(0, DRAFT, Clear), Row(1, DRAFT, Clear)], []), TWO_SENDERS[2])
            == Ready([Row(0, QUEUED, Clear), Row(1, DRAFT, Clear)], [])
  {
  }

  lemma Approved()
    ensures Step(Step(Ready([Row(0, DRAFT, Clear), Row(1, DRAFT, Clear)], []), TWO_SENDERS[2]), TWO_SENDERS[3])
            == Ready([Row(0, QUEUED, Clear), Row(1, QUEUED, Clear)], [])
  {
    FirstApproved();
    SecondApproved();
    hide Step, Row, Ready;
  }

  lemma SecondApproved()
    ensures Step(Ready([Row(0, QUEUED, Clear), Row(1, DRAFT, Clear)], []), TWO_SENDERS[3])
            == Ready([Row(0, QUEUED, Clear), Row(1, QUEUED, Clear)], [])
  {
  }

  lemma BothChecked()
    ensures Step(Step(Ready([Row(0, QUEUED, Clear), Row(1, QUEUED, Clear)], []), TWO_SENDERS[4]), TWO_SENDERS[5])
            == Ready([Row(0, QUEUED, Clear), Row(1, QUEUED, Clear)], CHECKED)
  {
    var ms := [Row(0, QUEUED, Clear), Row(1, QUEUED, Clear)];
    assert SentSince(ms, 0 - DAY) == {};
    assert InFlight([]) == {};
    assert Step(Ready(ms, []), TWO_SENDERS[4]) == Ready(ms, [CHECKED[0]]);
    assert InFlight([CHECKED[0]]) == {0};
  }

  lemma FirstClaimed()
    ensures Step(Ready([Row(0, QUEUED, Clear), Row(1, QUEUED, Clear)], CHECKED), TWO_SENDERS[6])
            == Ready([Row(0, FAILED, Claim(0)), Row(1, QUEUED, Clear)], [CLAIMED[0], CHECKED[1]])
  {
  }

  lemma SecondClaimed()
    ensures Step(Ready([Row(0, FAILED, Claim(0)), Row(1, QUEUED, Clear)], [CLAIMED[0], CHECKED[1]]), TWO_SENDERS[7])
            == Ready([Row(0, FAILED, Claim(0)), Row(1, FAILED, Claim(1))], CLAIMED)
  {
  }

  lemma BothClaimed()
    ensures Step(Step(Ready([Row(0, QUEUED, Clear), Row(1, QUEUED, Clear)], CHECKED), TWO_SENDERS[6]), TWO_SENDERS[7])
            == Ready([Row(0, FAILED, Claim(0)), Row(1, FAILED, Claim(1))], CLAIMED)
  {
    FirstClaimed();
    SecondClaimed();
    hide Step, Row, Ready;
  }

  const HALF := Ready([Row(0, SENT, Clear), Row(1, FAILED, Claim(1))], [DONE[0], CLAIMED[1]])
                .(calls := [CALLED[0]], sent := [SENT_BOTH[0]])

  lemma FirstDelivered()
    ensures Step(Ready([Row(0, FAILED, Claim(0)), Row(1, FAILED, Claim(1))], CLAIMED), TWO_SENDERS[8]) == HALF
  {
  }

  lemma SecondDelivered()
    ensures Step(HALF, TWO_SENDERS[9]).sent == SENT_BOTH
  {
  }

  lemma BothDelivered()
    ensures Step(Step(Ready([Row(0, FAILED, Claim(0)), Row(1, FAILED, Claim(1))], CLAIMED), TWO_SENDERS[8]),
                 TWO_SENDERS[9]).sent == SENT_BOTH
  {
    FirstDelivered();
    SecondDelivered();
    hide Step, Row, Ready;
  }

  lemma RunTwo(t: Post, x: Event, y: Event, rest: seq<Event>)
    ensures Run(t, [x, y] + rest) == Run(Step(Step(t, x), y), rest)
    ensures (&& AtMost(Step(Step(t, x), y), rest, 2) && (x.OnCheck? ==> |InFlight(t.sends)| < 2)
             && (y.OnCheck? ==> |InFlight(Step(t, x).sends)| < 2)) ==> AtMost(t, [x, y] + rest, 2)
  {
    hide Step, InFlight;
    var es := [x, y] + rest;
    assert es[1..] == [y] + rest && ([y] + rest)[1..] == rest;
    assert AtMost(Step(t, x), [y] + rest, 2)
      <==> (y.OnCheck? ==> |InFlight(Step(t, x).sends)| < 2) && AtMost(Step(Step(t, x), y), rest, 2);
  }

  lemma InFlightAtChecks(ms: seq<Message>)
    requires ms == [Row(0, QUEUED, Clear), Row(1, QUEUED, Clear)]
    ensures |InFlight(Ready(ms, []).sends)| < 2 && |InFlight(Step(Ready(ms, []), OnCheck(0)).sends)| < 2
  {
    assert InFlight([]) == {};
    assert SentSince(ms, 0 - DAY) == {};
    assert Step(Ready(ms, []), OnCheck(0)) == Ready(ms, [CHECKED[0]]);
    assert InFlight([CHECKED[0]]) == {0};
  }

  /** With a limit of one message a day and two senders at once, two messages can be sent within a day: the allowance of
      one message for each further sender is needed. */
  lemma TwoSendersExceedTheLimit()
    ensures AtMost(Empty(0, Some(1), map[]), TWO_SENDERS, 2)
    ensures |SentWithin(After(Start(0, Some(1), map[]), TWO_SENDERS).sent, 0)| == 1 + 2 - 1
  {
    hide Step, Run, AtMost, Row, Ready, SentWithin, InFlight;
    var es, t := TWO_SENDERS, Empty(0, Some(1), map[]);
    var drafts, queued := [Row(0, DRAFT, Clear), Row(1, DRAFT, Clear)], [Row(0, QUEUED, Clear), Row(1, QUEUED, Clear)];
    var claimed := Ready([Row(0, FAILED, Claim(0)), Row(1, FAILED, Claim(1))], CLAIMED);
    Pairs();
    Registered();
    RunTwo(t, es[0], es[1], es[2..]);
    Approved();
    RunTwo(Ready(drafts, []), es[2], es[3], es[4..]);
    BothChecked();
    InFlightAtChecks(queued);
    RunTwo(Ready(queued, []), es[4], es[5], es[6..]);
    BothClaimed();
    RunTwo(Ready(queued, CHECKED), es[6], es[7], es[8..]);
    BothDelivered();
    RunTwo(claimed, es[8], es[9], []);
    RunNone(Step(Step(claimed, es[8]), es[9]));
    BothCounted();
  }

  lemma Pairs()
    ensures var es := TWO_SENDERS;
            && es == [es[0], es[1]] + es[2..] && es[2..] == [es[2], es[3]] + es[4..]
            && es[4..] == [es[4], es[5]] + es[6..] && es[6..] == [es[6], es[7]] + es[8..]
            && es[8..] == [es[8], es[9]] + []
  {
  }

  lemma RunNone(t: Post)
    ensures Run(t, []) == t && AtMost(t, [], 2)
  {
  }

  lemma BothCounted()
    ensures |SentWithin(SENT_BOTH, 0)| == 2
  {
    var sent := SENT_BOTH;
    assert sent[0].message == 0 && sent[1].message == 1;
    assert SentWithin(sent, 0) == {0, 1};
  }
}
