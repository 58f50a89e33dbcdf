/** The fixed-window rate limiter. */
module Limiter {
  // For logins and scanner requests: several buckets a call, all counted in one transaction.

  import opened Options

  type Key = nat  // a bucket's hash

  datatype Bucket = Bucket(start: int, count: nat)

  /** `window`: the length of a window; `limits`: the limit of each kind of bucket. */
  datatype Settings = Settings(window: nat, limits: Key -> nat)

  /** The bucket as a call finds it: a new one, or one whose window is over, starts afresh. */
  function Opened(buckets: map<Key, Bucket>, k: Key, now: int, window: nat): Bucket {
    if k !in buckets || now >= buckets[k].start + window then Bucket(now, 0) else buckets[k]
  }

  predicate Below(s: Settings, buckets: map<Key, Bucket>, k: Key, now: int) {
    Opened(buckets, k, now, s.window).count < s.limits(k)
  }

  /** One more attempt counted, up to one above the limit. */
  function Counted(b: Bucket, limit: nat): Bucket {
    b.(count := if b.count + 1 < limit + 1 then b.count + 1 else limit + 1)
  }

  function Charged(s: Settings, buckets: map<Key, Bucket>, k: Key, now: int): Bucket {
    Counted(Opened(buckets, k, now, s.window), s.limits(k))
  }

  /** Every bucket of the call is charged, whether or not the call is granted. */
  function Charge(s: Settings, buckets: map<Key, Bucket>, keys: seq<Key>, now: int): map<Key, Bucket> {
    map k | k in buckets.Keys + (set x | x in keys) :: if k in keys then Charged(s, buckets, k, now) else buckets[k]
  }

  /** A call is granted if and only if every one of its buckets is below its limit. */
  predicate Grants(s: Settings, buckets: map<Key, Bucket>, keys: seq<Key>, now: int) {
    forall k :: k in keys ==> Below(s, buckets, k, now)
  }

  predicate Distinct(keys: seq<Key>) { forall i, j :: 0 <= i < j < |keys| ==> keys[i] != keys[j] }

  class DatabaseLimiter {
    const settings: Settings
    var buckets: map<Key, Bucket>

    constructor (settings: Settings)
      ensures this.settings == settings && buckets == map[]
    {
      this.settings, buckets := settings, map[];
    }

    /** `consume`; the keys carry different prefixes and come sorted, for the order of the row locks. */
    method Consume(keys: seq<Key>, now: int) returns (denied: bool)
      requires Distinct(keys)
      modifies this
      ensures denied <==> !Grants(settings, old(buckets), keys, now)
      ensures buckets == Charge(settings, old(buckets), keys, now)
    {
      hide Charge, Grants;
      denied := false;
      ChargeNone(settings, buckets, now);
      assert keys[..0] == [];
      for i := 0 to |keys|
        invariant denied <==> !Grants(settings, old(buckets), keys[..i], now)
        invariant buckets == Charge(settings, old(buckets), keys[..i], now)
      {
        var key, limit := keys[i], settings.limits(keys[i]);
        ChargeNext(settings, old(buckets), keys, i, now);
        if key !in buckets { buckets := buckets[key := Bucket(now, 0)]; }
        var start, count := buckets[key].start, buckets[key].count;
        if now >= start + settings.window { start, count := now, 0; }
        denied := denied || count >= limit;
        buckets := buckets[key := Bucket(start, if count + 1 < limit + 1 then count + 1 else limit + 1)];
      }
      assert keys[..|keys|] == keys;
    }
  }

  lemma ChargeNone(s: Settings, buckets: map<Key, Bucket>, now: int)
    ensures Charge(s, buckets, [], now) == buckets && Grants(s, buckets, [], now)
  {
  }

  /** Charging one more bucket, distinct from those before. */
  lemma ChargeNext(s: Settings, buckets: map<Key, Bucket>, keys: seq<Key>, i: nat, now: int)
    requires Distinct(keys) && i < |keys|
    ensures var before, k := Charge(s, buckets, keys[..i], now), keys[i];
            && Charge(s, buckets, keys[..i + 1], now) == before[k := Charged(s, buckets, k, now)]
            && (k in before <==> k in buckets) && (k in buckets ==> before[k] == buckets[k])
            && (Grants(s, buckets, keys[..i + 1], now)
                <==> Grants(s, buckets, keys[..i], now) && Below(s, buckets, k, now))
  {
    hide Charged, Below;
    assert keys[i] !in keys[..i] && keys[..i + 1] == keys[..i] + [keys[i]];
  }

  // ---- Runs ----

  /** A call that was made, and the window each of its buckets was in. */
  datatype Call = Call(now: int, keys: seq<Key>, granted: bool, starts: map<Key, int>)

  datatype State = State(buckets: map<Key, Bucket>, now: int, calls: seq<Call>)

  /** The clock never goes back; any buckets may be asked for at any time, each once a call. */
  datatype Event = OnConsume(elapsed: nat, keys: seq<Key>)

  function Step(s: Settings, t: State, e: Event): State {
    var now := t.now + e.elapsed;
    var starts := map k | k in e.keys :: Opened(t.buckets, k, now, s.window).start;
    State(Charge(s, t.buckets, e.keys, now), now, t.calls + [Call(now, e.keys, Grants(s, t.buckets, e.keys, now), starts)])
  }

  function After(s: Settings, now: int, es: seq<Event>): State {
    if es == [] then State(map[], now, []) else Step(s, After(s, now, es[..|es| - 1]), es[|es| - 1])
  }

  /** Call `c` was granted, charging bucket `k` in the window that started at `start`. */
  predicate In(c: Call, k: Key, start: int) { c.granted && k in c.starts && c.starts[k] == start }

  /** How many calls bucket `k` granted in the window that started at `start`. */
  function GrantedIn(calls: seq<Call>, k: Key, start: int): nat {
    if calls == [] then 0
    else GrantedIn(calls[..|calls| - 1], k, start) + if In(calls[|calls| - 1], k, start) then 1 else 0
  }

  /** And how many of those later than the window's first moment. */
  function GrantedLater(calls: seq<Call>, k: Key, start: int): nat {
    if calls == [] then 0
    else
      var c := calls[|calls| - 1];
      GrantedLater(calls[..|calls| - 1], k, start) + if In(c, k, start) && c.now > start then 1 else 0
  }

  /** How many calls bucket `k` granted from `from` up to but not including a window's length later. */
  function GrantedWithin(calls: seq<Call>, k: Key, from: int, window: nat): nat {
    if calls == [] then 0
    else
      var c := calls[|calls| - 1];
      GrantedWithin(calls[..|calls| - 1], k, from, window)
      + if c.granted && k in c.starts && from <= c.now < from + window then 1 else 0
  }

  /** A call was made inside the window it was charged to, and the windows of a bucket are at least their length
      apart. */
  ghost predicate CallOk(s: Settings, t: State, i: nat, k: Key)
    requires i < |t.calls|
  {
    var c := t.calls[i];
    k in c.starts ==>
      && c.starts[k] <= c.now < c.starts[k] + s.window && c.now <= t.now
      && k in t.buckets && Apart(c.starts[k], t.buckets[k].start, s.window)
  }

  predicate Apart(earlier: int, later: int, window: nat) { earlier == later || earlier + window <= later }

  ghost predicate Windows(s: Settings, t: State, i: nat, j: nat, k: Key)
    requires i < |t.calls| && j < |t.calls|
  {
    k in t.calls[i].starts && k in t.calls[j].starts ==> Apart(t.calls[i].starts[k], t.calls[j].starts[k], s.window)
  }

  /** A bucket never counts beyond one above its limit, and has granted no more than it counted; the call that opened
      its window was one of those. */
  ghost predicate BucketOk(s: Settings, t: State, k: Key)
    requires k in t.buckets
  {
    var b := t.buckets[k];
    && b.start <= t.now && b.count <= s.limits(k) + 1
    && var counted := if b.count <= s.limits(k) then b.count else s.limits(k);
       && GrantedIn(t.calls, k, b.start) <= counted
       && b.count >= 1 && (s.limits(k) >= 1 ==> GrantedLater(t.calls, k, b.start) < counted)
  }

  ghost predicate Inv(s: Settings, t: State) {
    && (forall k :: k in t.buckets ==> BucketOk(s, t, k))
    && (forall i: nat, k: Key :: i < |t.calls| ==> CallOk(s, t, i, k))
    && (forall i: nat, j: nat, k: Key :: i < j < |t.calls| ==> Windows(s, t, i, j, k))
    && (forall k: Key, start: int :: GrantedIn(t.calls, k, start) <= s.limits(k))
    && (forall k: Key, start: int :: s.limits(k) >= 1 ==> GrantedLater(t.calls, k, start) < s.limits(k))
  }

  lemma {:induction false} NoneGranted(calls: seq<Call>, k: Key, start: int)
    requires forall i :: 0 <= i < |calls| ==> !In(calls[i], k, start)
    ensures GrantedIn(calls, k, start) == 0 && GrantedLater(calls, k, start) == 0
  {
    if calls != [] { NoneGranted(calls[..|calls| - 1], k, start); }
  }

  lemma GrantedMore(calls: seq<Call>, c: Call, k: Key, start: int)
    ensures GrantedIn(calls + [c], k, start) == GrantedIn(calls, k, start) + if In(c, k, start) then 1 else 0
    ensures GrantedLater(calls + [c], k, start)
            == GrantedLater(calls, k, start) + if In(c, k, start) && c.now > start then 1 else 0
  {
    assert (calls + [c])[..|calls|] == calls;
  }

  /** A window opened just now has granted nothing yet. */
  lemma OpenedCount(s: Settings, t: State, k: Key, now: int)
    requires Inv(s, t) && t.now <= now && s.window > 0
    ensures var b := Opened(t.buckets, k, now, s.window);
            && b.start <= now < b.start + s.window
            && GrantedIn(t.calls, k, b.start) <= (if b.count <= s.limits(k) then b.count else s.limits(k))
            && b.count <= s.limits(k) + 1
            && (if b.count == 0 then b.start == now && GrantedLater(t.calls, k, b.start) == 0
                else s.limits(k) >= 1 ==>
                  GrantedLater(t.calls, k, b.start) < if b.count <= s.limits(k) then b.count else s.limits(k))
            && (k in t.buckets ==> Apart(t.buckets[k].start, b.start, s.window))
  {
    var b := Opened(t.buckets, k, now, s.window);
    if k in t.buckets && b == t.buckets[k] {
      assert BucketOk(s, t, k);
    } else {
      forall i | 0 <= i < |t.calls| ensures !In(t.calls[i], k, b.start) { assert CallOk(s, t, i, k); }
      NoneGranted(t.calls, k, b.start);
    }
  }

  lemma StepKeepsCounts(s: Settings, t: State, e: Event)
    requires Inv(s, t) && s.window > 0
    ensures var u := Step(s, t, e);
            && (forall k :: k in u.buckets ==> BucketOk(s, u, k))
            && (forall k: Key, start: int :: GrantedIn(u.calls, k, start) <= s.limits(k))
            && (forall k: Key, start: int :: s.limits(k) >= 1 ==> GrantedLater(u.calls, k, start) < s.limits(k))
  {
    var u, now := Step(s, t, e), t.now + e.elapsed;
    var c := u.calls[|t.calls|];
    forall k: Key, start: int
      ensures GrantedIn(u.calls, k, start) == GrantedIn(t.calls, k, start) + if In(c, k, start) then 1 else 0
      ensures GrantedLater(u.calls, k, start)
              == GrantedLater(t.calls, k, start) + if In(c, k, start) && c.now > start then 1 else 0
      ensures GrantedIn(u.calls, k, start) <= s.limits(k)
      ensures s.limits(k) >= 1 ==> GrantedLater(u.calls, k, start) < s.limits(k)
    {
      GrantedMore(t.calls, c, k, start);
      if In(c, k, start) { OpenedCount(s, t, k, now); assert Below(s, t.buckets, k, now); }
    }
    forall k | k in u.buckets ensures BucketOk(s, u, k) {
      OpenedCount(s, t, k, now);
      if k !in e.keys { assert BucketOk(s, t, k); }
      else if c.granted { assert Below(s, t.buckets, k, now); }
    }
  }

  lemma StepKeepsWindows(s: Settings, t: State, e: Event)
    requires Inv(s, t) && s.window > 0
    ensures var u := Step(s, t, e);
            && (forall i: nat, k: Key :: i < |u.calls| ==> CallOk(s, u, i, k))
            && (forall i: nat, j: nat, k: Key :: i < j < |u.calls| ==> Windows(s, u, i, j, k))
  {
    hide Grants, GrantedIn, BucketOk;
    var u, now := Step(s, t, e), t.now + e.elapsed;
    forall i: nat, k: Key | i < |u.calls| ensures CallOk(s, u, i, k) {
      OpenedCount(s, t, k, now);
      if i < |t.calls| { assert CallOk(s, t, i, k); }
    }
    forall i: nat, j: nat, k: Key | i < j < |u.calls| ensures Windows(s, u, i, j, k) {
      OpenedCount(s, t, k, now);
      assert CallOk(s, t, i, k);
      if j < |t.calls| { assert Windows(s, t, i, j, k); }
    }
  }

  lemma {:induction false} AfterInv(s: Settings, now: int, es: seq<Event>)
    requires s.window > 0
    ensures Inv(s, After(s, now, es))
  {
    hide Step;
    if es != [] {
      AfterInv(s, now, es[..|es| - 1]);
      StepKeepsCounts(s, After(s, now, es[..|es| - 1]), es[|es| - 1]);
      StepKeepsWindows(s, After(s, now, es[..|es| - 1]), es[|es| - 1]);
    }
  }

  // ---- The limiter by its history alone ----

  /** How many calls, granted or not, charged bucket `k` in the window that started at `start`. */
  function Charges(calls: seq<Call>, k: Key, start: int): nat {
    if calls == [] then 0
    else
      var c := calls[|calls| - 1];
      Charges(calls[..|calls| - 1], k, start) + if k in c.starts && c.starts[k] == start then 1 else 0
  }

  /** Call `i` is the last that charged bucket `k`. */
  predicate LastOf(calls: seq<Call>, k: Key, i: nat) {
    i < |calls| && k in calls[i].starts && forall j :: i < j < |calls| ==> k !in calls[j].starts
  }

  /** The stored rows say of every bucket: the window of its last call, and the calls charged to it since, up to one
      above the limit. */
  ghost predicate Remembers(s: Settings, t: State, k: Key) {
    if k in t.buckets then
      && t.buckets[k].count
         == (var n := Charges(t.calls, k, t.buckets[k].start); if n <= s.limits(k) then n else s.limits(k) + 1)
      && exists i: nat :: LastOf(t.calls, k, i) && t.calls[i].starts[k] == t.buckets[k].start
    else forall i :: 0 <= i < |t.calls| ==> k !in t.calls[i].starts
  }

  lemma {:induction false} NoneCharged(calls: seq<Call>, k: Key, start: int)
    requires forall i :: 0 <= i < |calls| && k in calls[i].starts ==> calls[i].starts[k] != start
    ensures Charges(calls, k, start) == 0
  {
    if calls != [] { NoneCharged(calls[..|calls| - 1], k, start); }
  }

  lemma ChargedMore(calls: seq<Call>, c: Call, k: Key, start: int)
    ensures Charges(calls + [c], k, start)
            == Charges(calls, k, start) + if k in c.starts && c.starts[k] == start then 1 else 0
  {
    assert (calls + [c])[..|calls|] == calls;
  }

  /** A window opened just now has been charged nothing. */
  lemma OpenedCharges(s: Settings, t: State, k: Key, now: int)
    requires Inv(s, t) && Remembers(s, t, k) && t.now <= now && s.window > 0
    ensures var b, n := Opened(t.buckets, k, now, s.window), Charges(t.calls, k, Opened(t.buckets, k, now, s.window).start);
            b.count == if n <= s.limits(k) then n else s.limits(k) + 1
  {
    var b := Opened(t.buckets, k, now, s.window);
    if k !in t.buckets || b != t.buckets[k] {
      forall i | 0 <= i < |t.calls| && k in t.calls[i].starts ensures t.calls[i].starts[k] != b.start {
        assert CallOk(s, t, i, k);
      }
      NoneCharged(t.calls, k, b.start);
    }
  }

  lemma StepRemembers(s: Settings, t: State, e: Event, k: Key)
    requires Inv(s, t) && Remembers(s, t, k) && s.window > 0
    ensures Remembers(s, Step(s, t, e), k)
  {
    hide Grants, Inv;
    var u, now := Step(s, t, e), t.now + e.elapsed;
    var c := u.calls[|t.calls|];
    OpenedCharges(s, t, k, now);
    if k in e.keys {
      ChargedMore(t.calls, c, k, c.starts[k]);
      assert LastOf(u.calls, k, |t.calls|);
    } else if k in t.buckets {
      ChargedMore(t.calls, c, k, t.buckets[k].start);
      var i: nat :| LastOf(t.calls, k, i) && t.calls[i].starts[k] == t.buckets[k].start;
      assert LastOf(u.calls, k, i);
    }
  }

  lemma {:induction false} AfterRemembers(s: Settings, now: int, es: seq<Event>, k: Key)
    requires s.window > 0
    ensures Remembers(s, After(s, now, es), k)
  {
    hide Step, Inv;
    if es != [] {
      AfterInv(s, now, es[..|es| - 1]);
      AfterRemembers(s, now, es[..|es| - 1], k);
      StepRemembers(s, After(s, now, es[..|es| - 1]), es[|es| - 1], k);
    }
  }

  // ---- The promises ----

  /** What a call is answered, by the calls before it alone.  Each of its buckets is in the window of its last call
      while that lasts, and otherwise in a new one; and the call is granted if and only if every one of them has been
      charged fewer times than its limit in that window, by calls granted or not. */
  lemma GrantedExactlyBelowTheLimit(s: Settings, now: int, es: seq<Event>, e: Event)
    requires s.window > 0
    ensures var t, u := After(s, now, es), Step(s, After(s, now, es), e);
            && |u.calls| == |t.calls| + 1 && u.calls[..|t.calls|] == t.calls
            && var c := u.calls[|t.calls|];
               && c.now == t.now + e.elapsed && c.keys == e.keys
               && (forall k :: k in e.keys <==> k in c.starts)
               && (forall k, i: nat :: k in e.keys && LastOf(t.calls, k, i) ==>
                     c.starts[k] == if c.now < t.calls[i].starts[k] + s.window then t.calls[i].starts[k] else c.now)
               && (forall k :: k in e.keys && (forall i :: 0 <= i < |t.calls| ==> k !in t.calls[i].starts) ==>
                     c.starts[k] == c.now)
               && (c.granted <==> forall k :: k in e.keys ==> Charges(t.calls, k, c.starts[k]) < s.limits(k))
  {
    hide After, Inv;
    AfterInv(s, now, es);
    var t, u := After(s, now, es), Step(s, After(s, now, es), e);
    var c := u.calls[|t.calls|];
    forall k: Key
      ensures Remembers(s, t, k)
      ensures Below(s, t.buckets, k, c.now)
              <==> Charges(t.calls, k, Opened(t.buckets, k, c.now, s.window).start) < s.limits(k)
    {
      AfterRemembers(s, now, es, k);
      InvClock(s, t, k);
      OpenedCharges(s, t, k, c.now);
    }
    forall k, i: nat | k in e.keys && LastOf(t.calls, k, i)
      ensures c.starts[k] == if c.now < t.calls[i].starts[k] + s.window then t.calls[i].starts[k] else c.now
    {
      assert Remembers(s, t, k);
      var j: nat :| LastOf(t.calls, k, j) && t.calls[j].starts[k] == t.buckets[k].start;
      assert i == j;
    }
  }

  lemma InvClock(s: Settings, t: State, k: Key)
    requires Inv(s, t)
    ensures k in t.buckets ==> t.buckets[k].start <= t.now
  {
    if k in t.buckets { assert BucketOk(s, t, k); }
  }

  /** Over any calls: a bucket grants at most its limit in a window, its windows start at least a window apart, and its
      stored count never exceeds its limit by more than one. */
  lemma LimitPerWindow(s: Settings, now: int, es: seq<Event>, k: Key, start: int)
    requires s.window > 0
    ensures var t := After(s, now, es);
            && GrantedIn(t.calls, k, start) <= s.limits(k)
            && (k in t.buckets ==> t.buckets[k].count <= s.limits(k) + 1)
            && forall i: nat, j: nat :: i < j < |t.calls| && k in t.calls[i].starts && k in t.calls[j].starts ==>
                 var a, b := t.calls[i].starts[k], t.calls[j].starts[k]; a == b || a + s.window <= b
  {
    AfterInv(s, now, es);
    hide After;
    var t := After(s, now, es);
    if k in t.buckets { assert BucketOk(s, t, k); }
    forall i: nat, j: nat | i < j < |t.calls| && k in t.calls[i].starts && k in t.calls[j].starts
      ensures Apart(t.calls[i].starts[k], t.calls[j].starts[k], s.window)
    {
      assert Windows(s, t, i, j, k);
    }
  }

  /** A granted call counted within the span. */
  predicate Within(c: Call, k: Key, from: int, window: nat) {
    c.granted && k in c.starts && from <= c.now < from + window
  }

  lemma {:induction false} TwoWindows(calls: seq<Call>, k: Key, from: int, window: nat, a: int, b: int)
    requires forall i :: 0 <= i < |calls| && Within(calls[i], k, from, window) ==>
               calls[i].starts[k] == b || (calls[i].starts[k] == a && calls[i].now > a)
    ensures GrantedWithin(calls, k, from, window) <= GrantedLater(calls, k, a) + GrantedIn(calls, k, b)
  {
    if calls != [] {
      var n := |calls| - 1;
      TwoWindows(calls[..n], k, from, window, a, b);
      assert Within(calls[n], k, from, window) ==>
          calls[n].starts[k] == b || (calls[n].starts[k] == a && calls[n].now > a);
    }
  }

  /** The windows of the calls within one span are the first one's or the last one's: no third fits between; and if they
      are two, the first was opened before the span. */
  lemma NoThirdWindow(s: Settings, t: State, k: Key, from: int, i: nat, j: nat)
    requires Inv(s, t) && i <= j < |t.calls|
    requires Spans(t.calls, k, from, s.window, i, j)
    ensures var a, b := t.calls[i].starts[k], t.calls[j].starts[k];
            forall m :: 0 <= m < |t.calls| && Within(t.calls[m], k, from, s.window) ==>
              t.calls[m].starts[k] == b || (t.calls[m].starts[k] == a && t.calls[m].now > a)
  {
    var a, b := t.calls[i].starts[k], t.calls[j].starts[k];
    forall m | 0 <= m < |t.calls| && Within(t.calls[m], k, from, s.window)
      ensures t.calls[m].starts[k] == b || (t.calls[m].starts[k] == a && t.calls[m].now > a)
    {
      if i < m { assert Windows(s, t, i, m, k); }
      if m < j { assert Windows(s, t, m, j, k); }
      assert CallOk(s, t, i, k) && CallOk(s, t, j, k);
    }
  }

  /** Calls `i` and `j` are the first and the last granted within the span. */
  predicate Spans(calls: seq<Call>, k: Key, from: int, window: nat, i: nat, j: nat) {
    && i <= j < |calls| && Within(calls[i], k, from, window) && Within(calls[j], k, from, window)
    && forall m :: 0 <= m < |calls| && Within(calls[m], k, from, window) ==> i <= m <= j
  }

  lemma {:induction false} Ends(calls: seq<Call>, k: Key, from: int, window: nat)
    ensures GrantedWithin(calls, k, from, window) == 0 || exists i: nat, j: nat :: Spans(calls, k, from, window, i, j)
  {
    hide Spans, Within;
    if calls != [] {
      var rest := calls[..|calls| - 1];
      Ends(rest, k, from, window);
      if GrantedWithin(rest, k, from, window) == 0 {
        FirstSpan(calls, k, from, window);
      } else {
        var i: nat, j: nat :| Spans(rest, k, from, window, i, j);
        LongerSpan(calls, k, from, window, i, j);
      }
    }
  }

  lemma FirstSpan(calls: seq<Call>, k: Key, from: int, window: nat)
    requires calls != [] && GrantedWithin(calls[..|calls| - 1], k, from, window) == 0
    ensures var n := |calls| - 1;
            if Within(calls[n], k, from, window) then Spans(calls, k, from, window, n, n)
            else GrantedWithin(calls, k, from, window) == GrantedWithin(calls[..n], k, from, window)
  {
    var n := |calls| - 1;
    NoneWithin(calls[..n], k, from, window);
    forall m | 0 <= m < n ensures !Within(calls[m], k, from, window) { assert calls[..n][m] == calls[m]; }
  }

  lemma LongerSpan(calls: seq<Call>, k: Key, from: int, window: nat, i: nat, j: nat)
    requires calls != [] && Spans(calls[..|calls| - 1], k, from, window, i, j)
    ensures var n := |calls| - 1; Spans(calls, k, from, window, i, if Within(calls[n], k, from, window) then n else j)
  {
    var n := |calls| - 1;
    var rest := calls[..n];
    forall m | 0 <= m < n ensures calls[m] == rest[m] {}
  }

  lemma {:induction false} NoneWithin(calls: seq<Call>, k: Key, from: int, window: nat)
    requires GrantedWithin(calls, k, from, window) == 0
    ensures forall m :: 0 <= m < |calls| ==> !Within(calls[m], k, from, window)
  {
    if calls != [] { NoneWithin(calls[..|calls| - 1], k, from, window); }
  }

  /** In any half-open span of a window's length, wherever it starts, a bucket grants less than twice its limit: one of
      the calls counted against the earlier window opened it, before the span. */
  lemma LessThanTwiceTheLimitInAnySpan(s: Settings, now: int, es: seq<Event>, k: Key, from: int)
    requires s.window > 0
    ensures var granted := GrantedWithin(After(s, now, es).calls, k, from, s.window);
            if s.limits(k) == 0 then granted == 0 else granted <= 2 * s.limits(k) - 1
  {
    AfterInv(s, now, es);
    hide After;
    var t := After(s, now, es);
    Ends(t.calls, k, from, s.window);
    if GrantedWithin(t.calls, k, from, s.window) != 0 {
      var i: nat, j: nat :| Spans(t.calls, k, from, s.window, i, j);
      var a, b := t.calls[i].starts[k], t.calls[j].starts[k];
      NoThirdWindow(s, t, k, from, i, j);
      TwoWindows(t.calls, k, from, s.window, a, b);
      SomeGranted(t.calls, k, from, s.window, j);
    }
  }

  lemma {:induction false} SomeGranted(calls: seq<Call>, k: Key, from: int, window: nat, j: nat)
    requires j < |calls| && Within(calls[j], k, from, window)
    ensures GrantedIn(calls, k, calls[j].starts[k]) >= 1
    decreases |calls|
  {
    if j < |calls| - 1 {
      assert calls[..|calls| - 1][j] == calls[j];
      SomeGranted(calls[..|calls| - 1], k, from, window, j);
    }
  }

  /** A call of one bucket. */
  lemma StepOne(s: Settings, t: State, e: Event)
    requires e.keys == [0]
    ensures var now := t.now + e.elapsed;
            Step(s, t, e) == State(t.buckets[0 := Charged(s, t.buckets, 0, now)], now,
                                   t.calls + [Call(now, [0], Below(s, t.buckets, 0, now),
                                                   map[0 := Opened(t.buckets, 0, now, s.window).start])])
  {
    hide Charged, Below, Opened;
    var now := t.now + e.elapsed;
    assert Grants(s, t.buckets, e.keys, now) == Below(s, t.buckets, 0, now) by { assert 0 in e.keys; }
    assert Charge(s, t.buckets, e.keys, now) == t.buckets[0 := Charged(s, t.buckets, 0, now)];
    assert (map k | k in e.keys :: Opened(t.buckets, k, now, s.window).start)
        == map[0 := Opened(t.buckets, 0, now, s.window).start];
  }

  function TwoInTen(): Settings { Settings(10, (k: Key) => 2) }

  /** Calls of bucket 0 at 0, 9, 10 and 11. */
  const FOUR_CALLS := [Call(0, [0], true, map[0 := 0]), Call(9, [0], true, map[0 := 0]),
                       Call(10, [0], true, map[0 := 10]), Call(11, [0], true, map[0 := 10])]
  const FOUR_EVENTS := [OnConsume(0, [0]), OnConsume(9, [0]), OnConsume(1, [0]), OnConsume(1, [0])]

  function Stored(n: nat): State
    requires n <= 4
  {
    State(if n == 0 then map[] else map[0 := if n <= 2 then Bucket(0, n) else Bucket(10, n - 2)],
          if n == 0 then 0 else FOUR_CALLS[n - 1].now, FOUR_CALLS[..n])
  }

  lemma {:induction false} FourStored(n: nat)
    requires n <= 4
    ensures After(TwoInTen(), 0, FOUR_EVENTS[..n]) == Stored(n)
  {
    hide Step;
    if n > 0 {
      FourStored(n - 1);
      assert FOUR_EVENTS[..n][..n - 1] == FOUR_EVENTS[..n - 1];
      StepOne(TwoInTen(), Stored(n - 1), FOUR_EVENTS[n - 1]);
      assert FOUR_CALLS[..n] == FOUR_CALLS[..n - 1] + [FOUR_CALLS[n - 1]];
    }
  }

  lemma FourCounted()
    ensures GrantedWithin(FOUR_CALLS, 0, 9, 10) == 3
  {
    var calls := FOUR_CALLS;
    assert calls[..4] == calls && calls[..1][..0] == [];
    assert calls[..3][..2] == calls[..2] && calls[..2][..1] == calls[..1];
    assert GrantedWithin(calls[..1], 0, 9, 10) == 0;
    assert GrantedWithin(calls[..2], 0, 9, 10) == 1;
    assert GrantedWithin(calls[..3], 0, 9, 10) == 2;
  }

  /** The bound is attained: with two calls a window of ten, three are granted from the last moment of a window on. */
  lemma TheBoundIsAttained()
    ensures GrantedWithin(After(TwoInTen(), 0, FOUR_EVENTS).calls, 0, 9, 10) == 2 * TwoInTen().limits(0) - 1
  {
    hide After, GrantedWithin;
    FourStored(4);
    FourCounted();
    assert FOUR_EVENTS[..4] == FOUR_EVENTS && FOUR_CALLS[..4] == FOUR_CALLS;
  }
}
