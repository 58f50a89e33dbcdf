/** What a run of the serving protocol, of any length and interleaving, can never undo. */
module ServingRuns {
  import opened Options
  import opened ServingTables
  import opened ServingProtocol
  import opened ServingInvariant
  import opened ServingPreserved

  /** `y` is the row `x` at a later time: a closed attempt is never touched again. */
  ghost predicate Later(x: Attempt, y: Attempt) {
    && y == x.(outcome := y.outcome, code := y.code, serving := y.serving, qr := y.qr)
    && (x.outcome != RECEIVED ==> y == x)
  }

  /** `y` is the request `x` at a later time: its hash is fixed, and so is everything once it is final or bound. */
  ghost predicate Settles(x: Request, y: Request) {
    y.hash == x.hash && (Final(x) || x.bound.Some? ==> y == x)
  }

  ghost predicate KeepsAttempts(t: Tables, u: Tables) {
    && |t.attempts| <= |u.attempts|
    && (forall a :: 0 <= a < |t.attempts| ==> Later(t.attempts[a], u.attempts[a]))
    && (forall a :: a in t.calls ==> a in u.calls && u.calls[a] == t.calls[a])
  }

  ghost predicate KeepsRequests(t: Tables, u: Tables) {
    forall r :: r in t.requests ==> r in u.requests && Settles(t.requests[r], u.requests[r])
  }

  ghost predicate KeepsServings(t: Tables, u: Tables) {
    && t.servings <= u.servings && t.meals <= u.meals
    && (forall m :: |t.meals| <= m < |u.meals| ==> u.meals[m].serving >= |t.servings|)
    && t.now <= u.now && t.lock == u.lock
  }

  ghost predicate Keeps(t: Tables, u: Tables) {
    KeepsAttempts(t, u) && KeepsRequests(t, u) && KeepsServings(t, u)
  }

  lemma KeepsTransitive(t: Tables, u: Tables, v: Tables)
    requires Keeps(t, u) && Keeps(u, v)
    ensures Keeps(t, v)
  {
    forall a | 0 <= a < |t.attempts| ensures Later(t.attempts[a], v.attempts[a]) {
      assert Later(t.attempts[a], u.attempts[a]) && Later(u.attempts[a], v.attempts[a]);
    }
    forall r | r in t.requests ensures r in v.requests && Settles(t.requests[r], v.requests[r]) {
      assert Settles(t.requests[r], u.requests[r]) && Settles(u.requests[r], v.requests[r]);
    }
  }

  lemma CloseKeeps(t: Tables, u: Tables, a: nat)
    requires AttemptCloses(t, u, a) && u.calls == t.calls
    ensures KeepsAttempts(t, u)
  {
  }

  lemma OnlyCloseKeeps(t: Tables, u: Tables, a: nat)
    requires OnlyCloses(t, u, a)
    ensures Keeps(t, u)
  {
    CloseKeeps(t, u, a);
  }

  lemma FinalizeKeeps(t: Tables, u: Tables, a: nat)
    requires Inv(t) && Open(t, a) && Finalizes(t, u, a)
    ensures KeepsRequests(t, u)
  {
    hide Inv;
    OpenFacts(t, a);
  }

  lemma DismissKeeps(t: Tables, u: Tables, a: nat)
    requires Inv(t) && Open(t, a) && Dismisses(t, u, a)
    ensures Keeps(t, u)
  {
    CloseKeeps(t, u, a);
    FinalizeKeeps(t, u, a);
    hide Inv, AttemptCloses, Finalizes, Open, KeepsAttempts, KeepsRequests;
  }

  lemma RecordKeeps(t: Tables, u: Tables, a: nat, v: Serving)
    requires Inv(t) && Open(t, a) && Records(t, u, a, v)
    ensures Keeps(t, u)
  {
    CloseKeeps(t, u, a);
    FinalizeKeeps(t, u, a);
    hide Inv, AttemptCloses, Finalizes, Open, Fits, NotLocked, Counts, KeepsAttempts, KeepsRequests;
  }

  lemma ProcessKeeps(t: Tables, u: Tables, a: nat)
    requires Inv(t) && Processed(t, u, a)
    ensures Keeps(t, u)
  {
    if u == t {
    } else if OnlyCloses(t, u, a) {
      OnlyCloseKeeps(t, u, a);
    } else if Open(t, a) && Dismisses(t, u, a) {
      DismissKeeps(t, u, a);
    } else {
      var v :| Records(t, u, a, v);
      RecordKeeps(t, u, a, v);
    }
    hide Inv, OnlyCloses, Open, Dismisses, Records;
  }

  lemma LogKeeps(t: Tables, x: Attempt, u: Tables)
    requires CallsInv(t) && Logged(t, x, u) && CallsGrow(t, u, |t.attempts|)
    ensures Keeps(t, u)
  {
    forall a | a in t.calls ensures a < |t.attempts| { assert Remembers(t, a); }
  }

  lemma GrowthKeeps(t: Tables, u: Tables)
    requires Grows(t, u) && u.lock == t.lock
    ensures Keeps(t, u)
  {
  }

  lemma StepKeeps(t: Tables, e: Event)
    requires Inv(t)
    ensures Keeps(t, Step(t, e))
  {
    hide Receive, Process, Interrupt, Authorize, Correct, Issue, IssueVisitor, Keeps, Grows, Logged, CallsGrow, Processed;
    var u := Step(t, e);
    if e.OnReceive? {
      ReceiveLogs(t, e.actor, e.scan, e.reading, e.public, u);
      LogKeeps(t, u.attempts[|t.attempts|], u);
    } else if e.OnProcess? {
      ProcessCases(t, e.attempt, e.actor, u);
      ProcessKeeps(t, u, e.attempt);
    } else if e.OnInterrupt? {
      InterruptKeeps(t, e.attempt);
    } else {
      OthersGrow(t, e, u);
      GrowthKeeps(t, u);
    }
    hide Inv;
  }

  lemma InterruptKeeps(t: Tables, a: nat)
    ensures Keeps(t, Interrupt(t, a))
  {
    hide Keeps;
    var u := Interrupt(t, a);
    if u == t { KeepsSame(t); } else { OnlyCloseKeeps(t, u, a); }
  }

  /** Over any run: the invariant holds at the end, and nothing settled on the way is lost. */
  lemma {:induction false} RunKeeps(t: Tables, es: seq<Event>)
    requires Inv(t)
    ensures Inv(Run(t, es)) && Keeps(t, Run(t, es))
    decreases es
  {
    hide Inv, Keeps, Step;
    if es == [] {
      KeepsSame(t);
    } else {
      StepKeepsInv(t, es[0]);
      StepKeeps(t, es[0]);
      RunKeeps(Step(t, es[0]), es[1..]);
      KeepsTransitive(t, Step(t, es[0]), Run(t, es));
    }
  }

  lemma KeepsSame(t: Tables)
    ensures Keeps(t, t)
  {
  }
}
