/** Whole calls of the meal service. */
module MealRecording {
  // Several transactions in a row, each of which may fail before or after its commit, with other calls' transactions in
  // between.

  import opened Options
  import opened ServingTables
  import opened ServingProtocol
  import opened ServingInvariant
  import opened ServingPreserved
  import opened ServingRuns
  import opened ServingTheorems
  import opened ServingReplay
  import opened ScanReceipts
  import opened MealService

  /** A deadlock or lock timeout (errno 1213, 1205) is retried, anything else is not. */
  datatype Failure = Retryable | Fatal

  /** One try at a transaction: other calls' transactions come first, then it runs as `actor`; if it fails, it may have
      been committed all the same. */
  datatype Try = Try(others: seq<Event>, actor: ActorCheck, failure: Option<Failure>, committed: bool)

  /** The reply is what the request came to, as the database now has it. */
  ghost predicate Confirmed(t: Tables, r: Uuid, reply: Reply) {
    && r in t.requests && Final(t.requests[r])
    && reply.Answer? && reply.(duplicate := true) == Original(t, r)
  }

  /** An approval, and any answer marked as a duplicate, is given only if it is committed. */
  lemma AnswersAreCommitted(t: Tables, a: nat, actor: ActorCheck)
    requires Inv(t) && a in t.calls
    ensures var (u, reply) := Process(t, a, actor);
            reply.Answer? && (reply.approved || reply.duplicate) ==> Confirmed(u, t.calls[a].request, reply)
  {
    OpenFacts(t, a);
    var r := t.calls[a].request;
    if Final(t.requests[r]) {
      FinalFacts(t, r);
      FinalAnswers(t, a, actor);
    } else {
      FirstAnswerIsOriginal(t, a, actor);
      ApprovalFinalizes(t, a, actor);
    }
    hide Inv, Process, Original;
  }

  lemma FinalAnswers(t: Tables, a: nat, actor: ActorCheck)
    requires a in t.calls && a < |t.attempts| && t.calls[a].request in t.requests
    requires var row := t.requests[t.calls[a].request];
             Final(row) && (row.status == REJECTED ==> row.code.Some?)
    ensures var (u, reply) := Process(t, a, actor);
            reply.Answer? && (reply.approved || reply.duplicate) ==> Confirmed(u, t.calls[a].request, reply)
  {
    hide Replay, Resolve, Closed, Confirmed, ProofDiffers;
    ReplayConfirms(t, a, t.calls[a]);
  }

  lemma ReplayConfirms(t: Tables, a: nat, call: Call)
    requires a < |t.attempts| && call.request in t.requests && Final(t.requests[call.request])
    requires t.requests[call.request].status == REJECTED ==> t.requests[call.request].code.Some?
    ensures var (u, reply) := Replay(t, a, call);
            reply.Answer? && (reply.approved || reply.duplicate) ==> Confirmed(u, call.request, reply)
  {
    hide ServingOf, MealsOf;
  }

  lemma ApprovalFinalizes(t: Tables, a: nat, actor: ActorCheck)
    requires Inv(t) && a in t.calls && t.calls[a].request in t.requests && !Final(t.requests[t.calls[a].request])
    ensures var (u, reply) := Process(t, a, actor);
            reply.Answer? && (reply.approved || reply.duplicate) ==>
              t.calls[a].request in u.requests && Final(u.requests[t.calls[a].request])
  {
    hide Inv, Decide, Counted, Closed, Bind;
  }

  lemma ReceivedCall(t: Tables, actor: ActorCheck, scan: Scan, reading: bool, public: bool)
    requires Inv(t)
    ensures var (u, reception) := Receive(t, actor, scan, reading, public);
            Inv(u) && (reception.Received? ==>
              && scan.request.Some? && reception.attempt in u.calls
              && u.calls[reception.attempt].request == scan.request.value)
  {
    ReceiveKeepsInv(t, actor, scan, reading, public);
    if Complaint(actor, scan, reading).None? {
      Accepted(actor, scan, reading);
      AcceptedCall(t, actor.id, scan, reading, public);
    }
    hide Inv, Complaint, Accept;
  }

  lemma RunExtend(t: Tables, es: seq<Event>, more: seq<Event>, e: Event)
    ensures Run(t, es + more) == Run(Run(t, es), more)
    ensures Run(t, es + [e]) == Step(Run(t, es), e)
  {
    RunAppend(t, es, more);
    RunAppend(t, es, [e]);
    RunOne(Run(t, es), e);
  }

  /** What becomes of the first loop of `_record`, from its `i`-th try on. */
  ghost function ReceiveTries(t: Tables, scan: Scan, reading: bool, public: bool, tries: seq<Try>, i: nat)
    : (Tables, Reception)
    requires i < |tries|
    decreases |tries| - i
  {
    var u := Run(t, tries[i].others);
    var (v, reception) := ServingProtocol.Receive(u, tries[i].actor, scan, reading, public);
    if tries[i].failure.None? then (v, reception)
    else
      var w := if tries[i].committed then v else u;
      if tries[i].failure != Some(Retryable) || i + 1 == |tries| then (w, NotReceived(SCAN_RECEIPT_UNCONFIRMED))
      else ReceiveTries(w, scan, reading, public, tries, i + 1)
  }

  /** Receive, again after each retryable failure. */
  method ReceiveWithRetries(db: MealDatabase, scan: Scan, reading: bool, public: bool, tries: seq<Try>)
    returns (reception: Reception, ghost trace: seq<Event>)
    requires Inv(db.T()) && |tries| > 0
    modifies db
    ensures (db.T(), reception) == ReceiveTries(old(db.T()), scan, reading, public, tries, 0)
    ensures Inv(db.T()) && db.T() == Run(old(db.T()), trace)
    ensures reception.Received? ==>
              && scan.request.Some? && reception.attempt in db.calls
              && db.calls[reception.attempt].request == scan.request.value
  {
    hide Inv, Step, Run, ServingProtocol.Receive;
    ghost var t := db.T();
    trace := [];
    RunNothing(t);
    for i := 0 to |tries|
      invariant Inv(db.T()) && db.T() == Run(t, trace)
      invariant i < |tries|
      invariant ReceiveTries(t, scan, reading, public, tries, 0) == ReceiveTries(db.T(), scan, reading, public, tries, i)
    {
      var e := OnReceive(tries[i].actor, scan, reading, public);
      RunExtend(t, trace, tries[i].others, e);
      RunExtend(t, trace + tries[i].others, [], e);
      db.PerformAll(tries[i].others);
      trace := trace + tries[i].others;
      if tries[i].failure.None? || tries[i].committed {
        ReceivedCall(db.T(), tries[i].actor, scan, reading, public);
        ReceiveStep(db.T(), tries[i].actor, scan, reading, public);
        reception := db.Receive(tries[i].actor, scan, reading, public);
        trace := trace + [e];
        if tries[i].failure.None? { return; }
      }
      if tries[i].failure != Some(Retryable) || i + 1 == |tries| { return NotReceived(SCAN_RECEIPT_UNCONFIRMED), trace; }
    }
  }

  lemma RunNothing(t: Tables)
    ensures Run(t, []) == t
  {
  }

  lemma ReceiveStep(t: Tables, actor: ActorCheck, scan: Scan, reading: bool, public: bool)
    ensures Step(t, OnReceive(actor, scan, reading, public)) == Receive(t, actor, scan, reading, public).0
  {
    hide Receive;
  }

  lemma ProcessStep(t: Tables, a: nat, actor: ActorCheck)
    requires Inv(t)
    ensures Step(t, OnProcess(a, actor)) == Process(t, a, actor).0
    ensures Inv(Process(t, a, actor).0)
  {
    StepKeepsInv(t, OnProcess(a, actor));
    hide Process, Inv;
  }

  /** And of the second, with the receipt of attempt `a`.  `None` means that the outcome is unknown. */
  ghost function ProcessTries(t: Tables, a: nat, tries: seq<Try>, i: nat): (Tables, Option<Reply>)
    requires i < |tries|
    decreases |tries| - i
  {
    var u := Run(t, tries[i].others);
    var (v, reply) := ServingProtocol.Process(u, a, tries[i].actor);
    if tries[i].failure.None? then (v, if reply.Unconfirmed? then None else Some(reply))
    else
      var w := if tries[i].committed then v else u;
      if tries[i].failure != Some(Retryable) || i + 1 == |tries| then (w, None) else ProcessTries(w, a, tries, i + 1)
  }

  /** Process, again after each retryable failure. */
  method ProcessWithRetries(db: MealDatabase, a: nat, tries: seq<Try>)
    returns (reply: Option<Reply>, ghost trace: seq<Event>)
    requires Inv(db.T()) && |tries| > 0 && a in db.calls
    modifies db
    ensures (db.T(), reply) == ProcessTries(old(db.T()), a, tries, 0)
    ensures Inv(db.T()) && db.T() == Run(old(db.T()), trace)
    ensures a in db.calls && db.calls[a] == old(db.calls[a])
    ensures reply.Some? ==> reply.value.Answer? || reply.value.NeedsDetails?
    ensures reply.Some? && reply.value.Answer? && (reply.value.approved || reply.value.duplicate) ==>
              Confirmed(db.T(), old(db.calls[a]).request, reply.value)
  {
    hide Inv, Step, Run, ServingProtocol.Process, Confirmed;
    ghost var t := db.T();
    trace := [];
    RunNothing(t);
    for i := 0 to |tries|
      invariant Inv(db.T()) && db.T() == Run(t, trace)
      invariant a in db.calls && db.calls[a] == old(db.calls[a])
      invariant i < |tries| && ProcessTries(t, a, tries, 0) == ProcessTries(db.T(), a, tries, i)
    {
      var e := OnProcess(a, tries[i].actor);
      RunExtend(t, trace, tries[i].others, e);
      RunExtend(t, trace + tries[i].others, [], e);
      CallKept(db.T(), tries[i].others, a);
      db.PerformAll(tries[i].others);
      trace := trace + tries[i].others;
      if tries[i].failure.None? || tries[i].committed {
        AnswersAreCommitted(db.T(), a, tries[i].actor);
        ProcessStep(db.T(), a, tries[i].actor);
        CallKept(db.T(), [e], a);
        RunOne(db.T(), e);
        var answer := db.Process(a, tries[i].actor);
        trace := trace + [e];
        if tries[i].failure.None? { return if answer.Unconfirmed? then None else Some(answer), trace; }
      }
      if tries[i].failure != Some(Retryable) || i + 1 == |tries| { return None, trace; }
    }
    reply := None;
  }

  lemma CallKept(t: Tables, es: seq<Event>, a: nat)
    requires Inv(t) && a in t.calls
    ensures a in Run(t, es).calls && Run(t, es).calls[a] == t.calls[a]
  {
    RunKeeps(t, es);
    hide Inv, Run, KeepsRequests, KeepsServings;
  }

  /** `_mark_interrupted`, whose failures are ignored. */
  ghost function Closing(t: Tables, a: nat, closing: Try): Tables {
    var u := Run(t, closing.others);
    if closing.failure.None? || closing.committed then ServingProtocol.Interrupt(u, a) else u
  }

  /** What becomes of a whole call of `_record`: its tables, its reply, and the attempt it made. */
  ghost function RecordOutcome(t: Tables, scan: Scan, reading: bool, public: bool, receives: seq<Try>,
                               processes: seq<Try>, closing: Try): (Tables, Reply, Option<nat>)
    requires |receives| > 0 && |processes| > 0
  {
    var (u, reception) := ReceiveTries(t, scan, reading, public, receives, 0);
    if reception.NotReceived? then (u, No(reception.code), None)
    else
      var a := reception.attempt;
      var (v, reply) := ProcessTries(u, a, processes, 0);
      if reply.Some? then (v, reply.value, Some(a)) else (Closing(v, a, closing), Unconfirmed, Some(a))
  }

  /** `_record`: a scan from start to reply, at most |receives| + |processes| tries, then `_mark_interrupted`.
      Whatever fails, at whatever point, and whatever runs in between: the tables are those of a run of the protocol, an
      approval is answered only for a serving that is committed, and an unknown outcome leaves the attempt closed unless
      closing it failed too. */
  method Record(db: MealDatabase, scan: Scan, reading: bool, public: bool, receives: seq<Try>, processes: seq<Try>,
                closing: Try)
    returns (reply: Reply, ghost trace: seq<Event>, ghost attempt: Option<nat>)
    requires Inv(db.T()) && |receives| > 0 && |processes| > 0
    modifies db
    ensures (db.T(), reply, attempt) == RecordOutcome(old(db.T()), scan, reading, public, receives, processes, closing)
    ensures Inv(db.T()) && db.T() == Run(old(db.T()), trace)
    ensures reply.Answer? && (reply.approved || reply.duplicate) ==>
              scan.request.Some? && Confirmed(db.T(), scan.request.value, reply)
    ensures reply.Unconfirmed? && (closing.failure.None? || closing.committed) ==>
              attempt.Some? && attempt.value < |db.attempts| && db.attempts[attempt.value].outcome != RECEIVED
  {
    hide Inv, Step, Run, ServingProtocol.Interrupt, Confirmed, ReceiveTries, ProcessTries;
    ghost var t := db.T();
    attempt := None;
    var reception;
    reception, trace := ReceiveWithRetries(db, scan, reading, public, receives);
    if reception.NotReceived? { return No(reception.code), trace, None; }
    var answer;
    ghost var more;
    answer, more := ProcessWithRetries(db, reception.attempt, processes);
    attempt := Some(reception.attempt);
    RunAppend(t, trace, more);
    trace := trace + more;
    if answer.Some? { return answer.value, trace, attempt; }
    CallKept(db.T(), closing.others, reception.attempt);
    RunAppend(t, trace, closing.others);
    db.PerformAll(closing.others);
    trace := trace + closing.others;
    if closing.failure.None? || closing.committed {
      InterruptStep(db.T(), reception.attempt);
      RunExtend(t, trace, [], OnInterrupt(reception.attempt));
      var _ := db.Interrupt(reception.attempt);
      trace := trace + [OnInterrupt(reception.attempt)];
    }
    return Unconfirmed, trace, attempt;
  }

  lemma InterruptStep(t: Tables, a: nat)
    requires Inv(t)
    ensures Step(t, OnInterrupt(a)) == Interrupt(t, a) && Inv(Interrupt(t, a))
    ensures a in t.calls ==> a < |Interrupt(t, a).attempts| && Interrupt(t, a).attempts[a].outcome != RECEIVED
  {
    StepKeepsInv(t, OnInterrupt(a));
    if a in t.calls { OpenFacts(t, a); }
    hide Inv;
  }

  // ---- Which try counts ----

  /** Try `n` is the last one made: those before failed in a way that is retried, and it did not, or was the last
      allowed. */
  predicate EndsAt(tries: seq<Try>, n: nat) {
    && n < |tries| && (forall i :: 0 <= i < n ==> tries[i].failure == Some(Retryable))
    && (tries[n].failure != Some(Retryable) || n + 1 == |tries|)
  }

  /** What the first `n` tries, all failed, have left behind: the other calls' transactions, and the call's own where it
      took effect all the same. */
  function Left(tries: seq<Try>, own: ActorCheck -> Event, n: nat): seq<Event>
    requires n <= |tries|
  {
    if n == 0 then []
    else
      var x := tries[n - 1];
      Left(tries, own, n - 1) + x.others + if x.committed then [own(x.actor)] else []
  }

  lemma LeftBehind(t: Tables, tries: seq<Try>, own: ActorCheck -> Event, n: nat)
    requires n < |tries|
    ensures var u := Run(Run(t, Left(tries, own, n)), tries[n].others);
            Run(t, Left(tries, own, n + 1)) == if tries[n].committed then Step(u, own(tries[n].actor)) else u
  {
    hide Step, Run;
    var left, x := Left(tries, own, n), tries[n];
    RunAppend(t, left, x.others);
    RunExtend(t, left + x.others, [], own(x.actor));
    assert left + x.others + [] == left + x.others;
  }

  lemma {:induction false} ReceiveTriesTo(t: Tables, scan: Scan, reading: bool, public: bool, tries: seq<Try>, n: nat,
                                          k: nat)
    requires EndsAt(tries, n) && k <= n
    ensures var own := actor => OnReceive(actor, scan, reading, public);
            ReceiveTries(t, scan, reading, public, tries, 0)
            == ReceiveTries(Run(t, Left(tries, own, k)), scan, reading, public, tries, k)
    decreases k
  {
    hide Step, Run, ServingProtocol.Receive;
    var own := actor => OnReceive(actor, scan, reading, public);
    if k == 0 {
      RunNothing(t);
    } else {
      ReceiveTriesTo(t, scan, reading, public, tries, n, k - 1);
      LeftBehind(t, tries, own, k - 1);
      ReceiveStep(Run(Run(t, Left(tries, own, k - 1)), tries[k - 1].others), tries[k - 1].actor, scan, reading, public);
    }
  }

  /** The receipt is that of the first try that does not fail, made after all that went before; if there is none,
      because one failed for good or all of them did, the receipt is unconfirmed. */
  lemma TheFirstSuccessIsReceived(t: Tables, scan: Scan, reading: bool, public: bool, tries: seq<Try>, n: nat)
    requires EndsAt(tries, n)
    ensures var own := actor => OnReceive(actor, scan, reading, public);
            var u := Run(Run(t, Left(tries, own, n)), tries[n].others);
            ReceiveTries(t, scan, reading, public, tries, 0)
            == if tries[n].failure.None? then ServingProtocol.Receive(u, tries[n].actor, scan, reading, public)
               else (if tries[n].committed then ServingProtocol.Receive(u, tries[n].actor, scan, reading, public).0 else u,
                     NotReceived(SCAN_RECEIPT_UNCONFIRMED))
  {
    hide Step, Run, ServingProtocol.Receive;
    ReceiveTriesTo(t, scan, reading, public, tries, n, n);
  }

  lemma {:induction false} ProcessTriesTo(t: Tables, a: nat, tries: seq<Try>, n: nat, k: nat)
    requires EndsAt(tries, n) && k <= n
    ensures ProcessTries(t, a, tries, 0) == ProcessTries(Run(t, Left(tries, actor => OnProcess(a, actor), k)), a, tries, k)
    decreases k
  {
    hide Step, Run, ServingProtocol.Process;
    var own := actor => OnProcess(a, actor);
    if k == 0 {
      RunNothing(t);
    } else {
      ProcessTriesTo(t, a, tries, n, k - 1);
      LeftBehind(t, tries, own, k - 1);
      ProcessedStep(Run(Run(t, Left(tries, own, k - 1)), tries[k - 1].others), a, tries[k - 1].actor);
    }
  }

  lemma ProcessedStep(t: Tables, a: nat, actor: ActorCheck)
    ensures Step(t, OnProcess(a, actor)) == Process(t, a, actor).0
  {
    hide Process;
  }

  /** The same for the answer. */
  lemma TheFirstSuccessIsAnswered(t: Tables, a: nat, tries: seq<Try>, n: nat)
    requires EndsAt(tries, n)
    ensures var own := actor => OnProcess(a, actor);
            var u := Run(Run(t, Left(tries, own, n)), tries[n].others);
            var (v, reply) := ServingProtocol.Process(u, a, tries[n].actor);
            ProcessTries(t, a, tries, 0)
            == if tries[n].failure.None? then (v, if reply.Unconfirmed? then None else Some(reply))
               else (if tries[n].committed then v else u, None)
  {
    hide Step, Run, ServingProtocol.Process;
    ProcessTriesTo(t, a, tries, n, n);
  }

  // ---- Reconciliation ----

  predicate Stale(t: Tables, a: nat, cutoff: int) {
    a < |t.attempts| && t.attempts[a].outcome == RECEIVED && t.attempts[a].receivedAt < cutoff
  }

  /** `ids` are the stale attempts below `bound`, in id order; all of them, if there are fewer than `limit`. */
  ghost predicate Oldest(t: Tables, cutoff: int, limit: nat, bound: nat, ids: seq<nat>) {
    && |ids| <= limit
    && (forall i :: 0 <= i < |ids| ==> Stale(t, ids[i], cutoff) && ids[i] < bound)
    && (forall i, j :: 0 <= i < j < |ids| ==> ids[i] < ids[j])
    && (forall a: nat :: Stale(t, a, cutoff) && a < bound && a !in ids ==>
          |ids| == limit && forall i :: 0 <= i < |ids| ==> ids[i] < a)
  }

  /** SELECT ... WHERE outcome = 'RECEIVED' AND received_at < cutoff ORDER BY id LIMIT limit */
  method Candidates(db: MealDatabase, cutoff: int, limit: nat) returns (ids: seq<nat>)
    ensures Oldest(db.T(), cutoff, limit, |db.attempts|, ids)
  {
    ids := [];
    for a := 0 to |db.attempts|
      invariant Oldest(db.T(), cutoff, limit, a, ids)
    {
      if |ids| < limit && db.attempts[a].outcome == RECEIVED && db.attempts[a].receivedAt < cutoff {
        ids := ids + [a];
      }
    }
  }

  /** The tables after `n` candidates were handled, with other transactions before each. */
  ghost function Rounds(t: Tables, ids: seq<nat>, others: nat -> seq<Event>, n: nat): Tables
    requires n <= |ids|
  {
    if n == 0 then t else ServingProtocol.Interrupt(Run(Rounds(t, ids, others, n - 1), others(n - 1)), ids[n - 1])
  }

  /** How many of them were still open then. */
  ghost function StillOpen(t: Tables, ids: seq<nat>, others: nat -> seq<Event>, n: nat): nat
    requires n <= |ids|
  {
    if n == 0 then 0
    else
      var u := Run(Rounds(t, ids, others, n - 1), others(n - 1));
      StillOpen(t, ids, others, n - 1)
      + if ids[n - 1] < |u.attempts| && u.attempts[ids[n - 1]].outcome == RECEIVED then 1 else 0
  }

  /** `reconcile_received`: each candidate is closed in a transaction of its own, if it is still open by then.
      When no transaction is refused, every candidate ends up closed, and those closed here are counted. */
  method ReconcileReceived(db: MealDatabase, actor: ActorCheck, cutoff: int, limit: nat, others: nat -> seq<Event>,
                           actors: nat -> ActorCheck)
    returns (error: Option<Code>, changed: nat, ghost trace: seq<Event>, ghost ids: seq<nat>)
    requires Inv(db.T())
    modifies db
    ensures Inv(db.T()) && db.T() == Run(old(db.T()), trace)
    ensures actor.Denied? ==> error == Some(actor.code) && db.T() == old(db.T())
    ensures actor.Staff? ==> Oldest(old(db.T()), cutoff, limit, |old(db.attempts)|, ids)
    ensures error.None? ==>
              && actor.Staff? && (forall i :: 0 <= i < |ids| ==> actors(i).Staff?)
              && db.T() == Rounds(old(db.T()), ids, others, |ids|)
              && changed == StillOpen(old(db.T()), ids, others, |ids|)
              && forall i :: 0 <= i < |ids| ==> ids[i] < |db.attempts| && db.attempts[ids[i]].outcome != RECEIVED
    ensures actor.Staff? && error.Some? ==>
              exists n: nat :: n < |ids| && actors(n) == Denied(error.value)
                               && db.T() == Run(Rounds(old(db.T()), ids, others, n), others(n))
  {
    hide Inv, Step, Run, ServingProtocol.Interrupt, Oldest, Rounds, StillOpen;
    var t := db.T();
    changed, trace, ids := 0, [], [];
    RunNothing(t);
    if actor.Denied? { return Some(actor.code), 0, [], []; }
    var candidates := Candidates(db, cutoff, limit);
    ids := candidates;
    NoRound(t, ids, others);
    for i := 0 to |candidates|
      invariant Inv(db.T()) && db.T() == Run(t, trace)
      invariant db.T() == Rounds(t, ids, others, i) && changed == StillOpen(t, ids, others, i)
      invariant forall j :: 0 <= j < i ==> actors(j).Staff?
      invariant forall j :: 0 <= j < i ==> ids[j] < |db.attempts| && db.attempts[ids[j]].outcome != RECEIVED
    {
      ghost var u := db.T();
      var c := candidates[i];
      RunExtend(t, trace, others(i) + [OnInterrupt(c)], OnInterrupt(c));
      RunExtend(t, trace, others(i), OnInterrupt(c));
      RunExtend(u, others(i), [], OnInterrupt(c));
      db.PerformAll(others(i));
      if actors(i).Denied? {
        trace := trace + others(i);
        return Some(actors(i).code), changed, trace, ids;
      }
      NextRound(t, ids, others, i);
      InterruptStep(db.T(), c);
      CandidateExists(t, trace, others(i), cutoff, limit, ids, c);
      var closed := db.Interrupt(c);
      if closed { changed := changed + 1; }
      trace := trace + (others(i) + [OnInterrupt(c)]);
      ClosedStays(u, others(i) + [OnInterrupt(c)], ids[..i]);
    }
    return None, changed, trace, ids;
  }

  lemma NoRound(t: Tables, ids: seq<nat>, others: nat -> seq<Event>)
    ensures Rounds(t, ids, others, 0) == t && StillOpen(t, ids, others, 0) == 0
  {
  }

  lemma NextRound(t: Tables, ids: seq<nat>, others: nat -> seq<Event>, n: nat)
    requires n < |ids|
    ensures var u := Run(Rounds(t, ids, others, n), others(n));
            && Rounds(t, ids, others, n + 1) == ServingProtocol.Interrupt(u, ids[n])
            && StillOpen(t, ids, others, n + 1) == StillOpen(t, ids, others, n)
               + if ids[n] < |u.attempts| && u.attempts[ids[n]].outcome == RECEIVED then 1 else 0
  {
    hide ServingProtocol.Interrupt;
  }

  lemma CandidateExists(t: Tables, es: seq<Event>, more: seq<Event>, cutoff: int, limit: nat, ids: seq<nat>, c: nat)
    requires Inv(t) && Oldest(t, cutoff, limit, |t.attempts|, ids) && c in ids
    ensures var u := Run(Run(t, es), more);
            c < |u.attempts| && c < |Interrupt(u, c).attempts| && Interrupt(u, c).attempts[c].outcome != RECEIVED
  {
    RunKeeps(t, es);
    RunKeeps(Run(t, es), more);
    hide Inv, Run, KeepsRequests, KeepsServings;
  }

  lemma ClosedStays(u: Tables, es: seq<Event>, ids: seq<nat>)
    requires Inv(u)
    requires forall j :: 0 <= j < |ids| ==> ids[j] < |u.attempts| && u.attempts[ids[j]].outcome != RECEIVED
    ensures var v := Run(u, es);
            forall j :: 0 <= j < |ids| ==> ids[j] < |v.attempts| && v.attempts[ids[j]].outcome != RECEIVED
  {
    RunKeeps(u, es);
    hide Inv, Run, KeepsRequests, KeepsServings;
  }

  // ---- The recovery lookup ----

  /** `ScanReceiptService.result`: the unconfirmed answer, completed by what the tables show. */
  method Lookup(db: MealDatabase, actor: ActorCheck, r: Uuid) returns (shown: ScanReceipts.Lookup)
    ensures shown == if actor.Denied? then Hidden(actor.code) else Result(db.T(), actor.id, r)
  {
    hide Owns, Complete, MealsOf, ServingOf;
    if actor.Denied? { return Hidden(actor.code); }
    if r !in db.requests || !Owns(db.T(), actor.id, r) { return Hidden(SCAN_RECEIPT_NOT_FOUND); }
    var answer := UNCONFIRMED;
    if db.requests[r].status == REJECTED {
      if db.requests[r].code.Some? { answer := answer.(code := db.requests[r].code.value); }
    } else if db.requests[r].status == SUCCEEDED {
      var s := ServingOf(db.servings, r);
      if s == |db.servings| || db.servings[s].waiter != actor.id { return Hidden(SCAN_RECEIPT_NOT_FOUND); }
      var ids := db.MealIds(s);
      if Complete(db.T(), s, ids) {
        answer := answer.(approved := true, code := APPROVED, serving := Some(s), meals := ids);
      }
    }
    return Shown(answer);
  }
}
