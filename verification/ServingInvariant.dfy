/** What holds of the serving tables after every transaction. */
module ServingInvariant {
  import opened Options
  import opened ServingTables
  import opened ServingProtocol

  /** The receipt held by a running call agrees with the attempt row it was made for. */
  ghost predicate Remembers(t: Tables, a: nat)
    requires a in t.calls
  {
    var c := t.calls[a];
    && a < |t.attempts|
    && c.request in t.requests
    && t.attempts[a].request == Some(c.request)
    && t.attempts[a].hash == Some(c.fingerprint)
    && t.attempts[a].staff == Some(c.staff)
    && t.attempts[a].place == c.place
    && t.attempts[a].reported == Some(c.code)
    && c.fingerprint == Fingerprint(c.token, c.staff, c.fingerprint.place, c.mealType, c.quantity)
    && 1 <= c.quantity <= 65535
    && (c.proof.visitor.Some? ==> c.proof.authorization.None? && c.quantity == 1)
    && (c.reading ==> c.proof == Proof(None, None))
  }

  ghost predicate CallsInv(t: Tables) {
    && (forall a :: a in t.calls ==> Remembers(t, a))
    && (forall a :: 0 <= a < |t.attempts| && t.attempts[a].request.Some? ==> t.attempts[a].request.value in t.requests)
    && (forall a :: 0 <= a < |t.attempts| && t.attempts[a].hash.Some? ==>
          t.attempts[a].staff == Some(t.attempts[a].hash.value.staff))
  }

  /** A serving belongs to a succeeded request and repeats what the request was fixed to. */
  ghost predicate ServingOk(t: Tables, s: nat)
    requires s < |t.servings|
  {
    var v := t.servings[s];
    && v.request in t.requests
    && v.quantity >= 1
    && (v.employee.Some? <==> v.kind == EMPLOYEE)
    && (v.employee.Some? ==> v.quantity == 1)
    && v.qr in t.qrs && v.kind == t.qrs[v.qr].kind
    && v.at <= t.now
    && var r := t.requests[v.request];
       && r.status == SUCCEEDED
       && r.bound.Some?
       && v.waiter == r.hash.staff && v.mealType == r.hash.mealType && v.quantity == r.hash.quantity
       && v.authorization == r.bound.value.authorization
  }

  /** A request is bound to a proof exactly when it is final; it has a serving exactly when it succeeded. */
  ghost predicate RequestOk(t: Tables, r: Uuid)
    requires r in t.requests
  {
    && (t.requests[r].bound.Some? <==> Final(t.requests[r]))
    && (t.requests[r].code.Some? <==> t.requests[r].status == REJECTED)
    && t.requests[r].code != Some(IDEMPOTENCY_PROOF_UNAVAILABLE)
    && (t.requests[r].status == SUCCEEDED <==> ServingOf(t.servings, r) < |t.servings|)
  }

  ghost predicate OutcomeInv(t: Tables) {
    && (forall s :: 0 <= s < |t.servings| ==> ServingOk(t, s))
    && (forall s, s' :: 0 <= s < s' < |t.servings| ==> t.servings[s].request != t.servings[s'].request)
    && (forall r :: r in t.requests ==> RequestOk(t, r))
  }

  /** The ids `ids` are the meals numbered 1, 2, ... of serving `s`. */
  ghost predicate Numbered(meals: seq<Meal>, ids: seq<nat>, s: nat, v: Serving) {
    && |ids| == v.quantity
    && (forall u :: 0 <= u < |ids| ==> ids[u] < |meals| && meals[ids[u]] == Meal(s, u + 1, v.quantity, v.at))
    && (forall u, u' :: 0 <= u < u' < |ids| ==> ids[u] != ids[u'])
  }

  ghost predicate MealsInv(t: Tables) {
    && (forall m :: 0 <= m < |t.meals| ==> t.meals[m].serving < |t.servings|)
    && (forall s :: 0 <= s < |t.servings| ==> Numbered(t.meals, MealsOf(t.meals, s), s, t.servings[s]))
  }

  /** Every attempt that names a pending request stores the place its own hash was computed from. */
  ghost predicate PlaceKept(t: Tables, a: nat)
    requires a < |t.attempts|
  {
    var x := t.attempts[a];
    x.request.Some? && x.request.value in t.requests && !Final(t.requests[x.request.value]) ==>
      x.hash.Some? && x.hash.value.place == x.place
  }

  /** The earliest attempt carrying a final request's hash exists and stores the place that hash was computed from. */
  ghost predicate Provable(t: Tables, r: Uuid)
    requires r in t.requests
  {
    Final(t.requests[r]) ==>
      var i := First(t.attempts, r, t.requests[r].hash);
      i < |t.attempts| && t.attempts[i].place == t.requests[r].hash.place
  }

  ghost predicate ProofInv(t: Tables) {
    && (forall a :: 0 <= a < |t.attempts| ==> PlaceKept(t, a))
    && (forall r :: r in t.requests ==> Provable(t, r))
  }

  /** Successful attempts and servings are in bijection. */
  ghost predicate AttemptOk(t: Tables, a: nat)
    requires a < |t.attempts|
  {
    var x := t.attempts[a];
    x.outcome == SUCCESS ==>
      x.serving.Some? && x.serving.value < |t.servings| && x.request == Some(t.servings[x.serving.value].request)
  }

  ghost predicate Succeeded(t: Tables, a: nat, s: nat) {
    a < |t.attempts| && t.attempts[a].outcome == SUCCESS && t.attempts[a].serving == Some(s)
  }

  ghost predicate Produced(t: Tables, s: nat) { exists a: nat :: Succeeded(t, a, s) }

  ghost predicate AttemptInv(t: Tables) {
    && (forall a :: 0 <= a < |t.attempts| ==> AttemptOk(t, a))
    && (forall s :: 0 <= s < |t.servings| ==> Produced(t, s))
    && (forall a: nat, a': nat, s: nat :: Succeeded(t, a, s) && Succeeded(t, a', s) ==> a == a')
  }

  /** The rows of one visitor QR count exactly the servings it has had. */
  ghost predicate AllowanceOk(t: Tables, q: nat, k: int)
    requires q in t.allocations && q in t.allowances && k in t.allowances[q]
  {
    var a := t.allowances[q][k];
    && a.limit == t.allocations[q].limit
    && a.used == ServedOf(t.servings, q, k) <= a.limit
    && (a.exhausted <==> a.used == a.limit)
  }

  ghost predicate AllocationOk(t: Tables, q: nat)
    requires q in t.allocations
  {
    && q in t.qrs && t.qrs[q].kind == MASTER
    && q in t.allowances
    && (exists k :: k in t.allowances[q])
    && t.allocations[q].limit > 0
    && (forall k :: k in t.allowances[q] ==> AllowanceOk(t, q, k))
    && var left := MostRemaining(t.allowances[q]);
       t.allocations[q].used == t.allocations[q].limit - left && (t.allocations[q].exhausted <==> left == 0)
  }

  ghost predicate AllowanceInv(t: Tables) {
    && t.allowances.Keys == t.allocations.Keys
    && (forall q :: q in t.allocations ==> AllocationOk(t, q))
  }

  /** No meal of serving `s` was ever corrected or voided. */
  ghost predicate Untouched(t: Tables, s: nat) {
    && (forall m :: 0 <= m < |t.meals| && t.meals[m].serving == s ==> m !in t.voids)
    && (forall c :: 0 <= c < |t.corrections| && t.corrections[c].meal < |t.meals| ==>
          t.meals[t.corrections[c].meal].serving != s)
  }

  /** `s` was followed by `s'`, of the same employee and recorded type. */
  ghost predicate Recurs(t: Tables, s: nat, s': nat) {
    && s < s' < |t.servings|
    && t.servings[s].employee.Some? && t.servings[s].employee == t.servings[s'].employee
    && t.servings[s].mealType == t.servings[s'].mealType
  }

  ghost predicate LockInv(t: Tables) {
    forall s: nat, s': nat :: Recurs(t, s, s') && Untouched(t, s) ==>
      t.servings[s'].at - t.servings[s].at >= t.lock
  }

  /** An approval was made for the waiter its request was reserved for. */
  ghost predicate ApprovalInv(t: Tables) {
    forall r :: r in t.authorizations ==>
      r in t.requests && t.requests[r].hash.staff == t.authorizations[r].waiter
  }

  ghost predicate CredentialInv(t: Tables) {
    && (forall k :: k in t.tokens ==> t.tokens[k] in t.qrs)
    && (forall q :: q in t.qrs ==> (t.qrs[q].kind == EMPLOYEE <==> t.qrs[q].employee.Some?))
  }

  ghost predicate Inv(t: Tables) {
    && CallsInv(t) && OutcomeInv(t) && MealsInv(t) && ProofInv(t) && AttemptInv(t)
    && AllowanceInv(t) && LockInv(t) && ApprovalInv(t) && CredentialInv(t)
  }
}
