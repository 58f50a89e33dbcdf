/** The public scanner. */
module ScanApp {
  // The settings of a request id are frozen by its first use, and every scan under it is built from them.

  import opened Options
  import opened ServingTables
  import opened ServingProtocol
  import opened ServingInvariant
  import opened ServingPreserved
  import opened ServingRuns
  import opened ServingTheorems
  import opened ServingReplay

  /** The scanner settings of the moment (`_profile`). */
  datatype Profile = Profile(staff: nat, scanner: nat, code: string)

  datatype Reservation = Reserved(row: Mapping) | NotReserved(code: Code)

  /** Whether the insert meets a row that was not there when it was looked for. */
  datatype Collision = NoCollision | Taken(row: Mapping) | Vanished

  /** A request to reserve: the signed browser cookie and the request id may be malformed (`None`). */
  datatype Ask = Ask(browser: Option<nat>, request: Option<Uuid>, mealType: int, profile: Option<Profile>)

  /** What was there for the request before this caller wrote: its own row, or one a concurrent caller got in first. */
  function Present(rows: map<Uuid, Mapping>, r: Uuid, collision: Collision): map<Uuid, Mapping> {
    if r !in rows && collision.Taken? then rows[r := collision.row] else rows
  }

  /** `_reserve`, by its effect. */
  function ReserveOutcome(rows: map<Uuid, Mapping>, ask: Ask, collision: Collision): (map<Uuid, Mapping>, Reservation) {
    if ask.browser.None? then (rows, NotReserved(INVALID_SCANNER_BROWSER))
    else if ask.request.None? then (rows, NotReserved(INVALID_REQUEST_ID))
    else if !Identifier(ask.mealType) then (rows, NotReserved(INVALID_MEAL_TYPE_ID))
    else
      var r := ask.request.value;
      if r !in rows && ask.profile.None? then (rows, NotReserved(SCANNER_NOT_CONFIGURED))
      else
        var there := Present(rows, r, collision);
        if r in there then
          (there, if there[r].browser == ask.browser.value then Reserved(there[r]) else NotReserved(REQUEST_MISMATCH))
        else if collision.Vanished? then (rows, NotReserved(SCAN_RECEIPT_UNCONFIRMED))
        else
          var p := ask.profile.value;
          var row := Mapping(ask.browser.value, p.staff, p.scanner, ask.mealType, p.code);
          (rows[r := row], Reserved(row))
  }

  class ScanAppService {
    var rows: map<Uuid, Mapping>  // scan_app_requests

    constructor ()
      ensures rows == map[]
    {
      rows := map[];
    }

    method LookUp(r: Uuid, browser: nat) returns (row: Option<Mapping>, error: Option<Code>)
      ensures row == if r in rows then Some(rows[r]) else None
      ensures error == if r in rows && rows[r].browser != browser then Some(REQUEST_MISMATCH) else None
    {
      row, error := None, None;
      if r in rows {
        row := Some(rows[r]);
        if rows[r].browser != browser { error := Some(REQUEST_MISMATCH); }
      }
    }

    /** INSERT: fails with a duplicate key if a concurrent caller's row got in first. */
    method Insert(r: Uuid, row: Mapping, collision: Collision) returns (inserted: bool)
      requires r !in rows
      modifies this
      ensures inserted <==> collision.NoCollision?
      ensures rows == if inserted then old(rows)[r := row] else Present(old(rows), r, collision)
    {
      inserted := collision.NoCollision?;
      if inserted { rows := rows[r := row]; }
      else if collision.Taken? { rows := rows[r := collision.row]; }
    }

    method Reserve(ask: Ask, collision: Collision) returns (result: Reservation)
      modifies this
      ensures (rows, result) == ReserveOutcome(old(rows), ask, collision)
    {
      if ask.browser.None? { return NotReserved(INVALID_SCANNER_BROWSER); }
      if ask.request.None? { return NotReserved(INVALID_REQUEST_ID); }
      if !(1 <= ask.mealType <= 0xFFFF_FFFF_FFFF_FFFF) { return NotReserved(INVALID_MEAL_TYPE_ID); }
      var r, browser := ask.request.value, ask.browser.value;
      var row, error := LookUp(r, browser);
      if error.Some? { return NotReserved(error.value); }
      if row.None? {
        if ask.profile.None? { return NotReserved(SCANNER_NOT_CONFIGURED); }
        var p := ask.profile.value;
        row := Some(Mapping(browser, p.staff, p.scanner, ask.mealType, p.code));
        var inserted := Insert(r, row.value, collision);
        if !inserted {
          row, error := LookUp(r, browser);
          if error.Some? { return NotReserved(error.value); }
          if row.None? { return NotReserved(SCAN_RECEIPT_UNCONFIRMED); }
        }
      }
      return Reserved(row.value);
    }
  }

  // ---- Runs of the public scanner ----

  datatype App = App(rows: map<Uuid, Mapping>, tables: Tables)

  datatype AppEvent =
    | OnReserve(ask: Ask, collision: Collision)
    | OnScan(request: Uuid, token: Option<Token>, denied: Option<Code>)  // `read`, once the request is reserved
    | OnOther(event: Event)

  /** The transaction of the serving protocol an event is, if it is one.  A scan runs as the account of its frozen row,
      or is refused. */
  function Transaction(rows: map<Uuid, Mapping>, e: AppEvent): Option<Event> {
    match e
    case OnReserve(_, _) => None
    case OnScan(r, token, denied) =>
      if r !in rows then None
      else Some(OnReceive(if denied.Some? then Denied(denied.value) else Staff(rows[r].staff),
                          PublicScan(rows[r], r, token), false, true))
    case OnOther(event) => Some(event)
  }

  ghost function AppStep(app: App, e: AppEvent): App {
    var x := Transaction(app.rows, e);
    App(if e.OnReserve? then ReserveOutcome(app.rows, e.ask, e.collision).0 else app.rows,
        if x.Some? then Step(app.tables, x.value) else app.tables)
  }

  ghost function AppRun(app: App, es: seq<AppEvent>): App
    decreases es
  {
    if es == [] then app else AppRun(AppStep(app, es[0]), es[1..])
  }

  /** The serving protocol's share of a run. */
  ghost function Transactions(app: App, es: seq<AppEvent>): seq<Event>
    decreases es
  {
    if es == [] then []
    else
      var x := Transaction(app.rows, es[0]);
      (if x.Some? then [x.value] else []) + Transactions(AppStep(app, es[0]), es[1..])
  }

  /** A reserved row is never changed. */
  lemma {:induction false} RowsStay(app: App, es: seq<AppEvent>, r: Uuid)
    requires r in app.rows
    ensures r in AppRun(app, es).rows && AppRun(app, es).rows[r] == app.rows[r]
    decreases es
  {
    hide Step;
    if es != [] { RowsStay(AppStep(app, es[0]), es[1..], r); }
  }

  /** A run of the public scanner is, for the tables of the protocol, a run of the protocol. */
  lemma {:induction false} AppRunIsRun(app: App, es: seq<AppEvent>)
    ensures AppRun(app, es).tables == Run(app.tables, Transactions(app, es))
    decreases es
  {
    hide Step;
    if es != [] {
      var x := Transaction(app.rows, es[0]);
      AppRunIsRun(AppStep(app, es[0]), es[1..]);
      if x.Some? {
        assert Transactions(app, es)[0] == x.value;
        assert Transactions(app, es)[1..] == Transactions(AppStep(app, es[0]), es[1..]);
      } else {
        assert Transactions(app, es) == Transactions(AppStep(app, es[0]), es[1..]);
      }
    }
  }

  /** No staff scan uses `r`: its UUID was made up by a browser. */
  predicate NotStaffs(e: AppEvent, r: Uuid) {
    e.OnOther? && e.event.OnReceive? ==> e.event.scan.request != Some(r)
  }

  /** Whatever the settings were changed to in between, every scan of `r` uses the ones frozen for it. */
  lemma {:induction false} ScansUseFrozenSettings(app: App, es: seq<AppEvent>, r: Uuid)
    requires forall i :: 0 <= i < |es| ==> NotStaffs(es[i], r)
    requires r in AppRun(app, es).rows
    ensures var xs := Transactions(app, es);
            forall i :: 0 <= i < |xs| ==> OnlyPublic(xs[i], r, AppRun(app, es).rows[r])
    decreases es
  {
    hide Step, OnlyPublic;
    if es != [] {
      var x, next, row := Transaction(app.rows, es[0]), AppStep(app, es[0]), AppRun(app, es).rows[r];
      ScansUseFrozenSettings(next, es[1..], r);
      assert Transactions(app, es) == (if x.Some? then [x.value] else []) + Transactions(next, es[1..]);
      if x.Some? {
        if r in app.rows { RowsStay(app, es, r); }
        ScanUsesFrozenSettings(app.rows, es[0], r, row);
      }
    }
  }

  lemma ScanUsesFrozenSettings(rows: map<Uuid, Mapping>, e: AppEvent, r: Uuid, row: Mapping)
    requires NotStaffs(e, r) && Transaction(rows, e).Some? && (r in rows ==> rows[r] == row)
    ensures OnlyPublic(Transaction(rows, e).value, r, row)
  {
    var x := Transaction(rows, e).value;
    if e.OnScan? && e.request == r { assert x.scan == PublicScan(row, r, e.token); }
  }

  /** The public scanner's replay promise, over every run: once the request `r` is final, scanning the same token again
      under it gets the original answer, and scanning any other token gets a refusal. */
  lemma PublicReplay(start: Start, es: seq<AppEvent>, r: Uuid, token: Token)
    requires forall i :: 0 <= i < |es| ==> NotStaffs(es[i], r)
    requires var app := AppRun(App(map[], Empty(start.now, start.lock, start.world)), es);
             r in app.rows && Identifier(app.rows[r].mealType)
             && r in app.tables.requests && Final(app.tables.requests[r])
    ensures var app := AppRun(App(map[], Empty(start.now, start.lock, start.world)), es);
            var t, row := app.tables, app.rows[r];
            var scan := PublicScan(row, r, Some(token));
            var reception := Receive(t, Staff(row.staff), scan, false, true).1;
            && reception.Received?
            && Process(Receive(t, Staff(row.staff), scan, false, true).0, reception.attempt, Staff(row.staff)).1
               == if token == t.requests[r].hash.token then Original(t, r) else No(IDEMPOTENCY_KEY_REUSED)
  {
    hide Receive, Process, Step, Inv, Original, Repeats, OnlyPublic;
    var app0 := App(map[], Empty(start.now, start.lock, start.world));
    var app := AppRun(app0, es);
    var xs, row := Transactions(app0, es), app.rows[r];
    AppRunIsRun(app0, es);
    ScansUseFrozenSettings(app0, es, r);
    PublicRetryIsIdentified(start, xs, r, row, token);
    var scan := PublicScan(row, r, Some(token));
    ReceivedIsOpen(app.tables, Staff(row.staff), scan, false, true);
    if token == app.tables.requests[r].hash.token {
      RetryGetsTheOriginalAnswer(start, xs, [], r, Staff(row.staff), scan, false, true);
    } else {
      AfterInv(start, xs);
      OtherTokenRefused(app.tables, r, row, token);
    }
  }

  lemma OtherTokenRefused(t: Tables, r: Uuid, row: Mapping, token: Token)
    requires Inv(t) && r in t.requests && Final(t.requests[r]) && Identifier(row.mealType)
    requires FirstCode(t, r) == Some(row.code) && token != t.requests[r].hash.token
    ensures var scan := PublicScan(row, r, Some(token));
            var (u, reception) := Receive(t, Staff(row.staff), scan, false, true);
            reception.Received? && Process(u, reception.attempt, Staff(row.staff)).1 == No(IDEMPOTENCY_KEY_REUSED)
  {
    hide Locate, Closed, Resolve, Replay, ProofDiffers, Inv;
  }

  lemma ReceivedIsOpen(t: Tables, actor: ActorCheck, scan: Scan, reading: bool, public: bool)
    ensures var (u, reception) := Receive(t, actor, scan, reading, public);
            reception.Received? ==>
              && reception.attempt < |u.attempts| && u.attempts[reception.attempt].outcome == RECEIVED
              && Run(u, []) == u
  {
    hide Complaint, First, Locate;
    if Complaint(actor, scan, reading).None? { Accepted(actor, scan, reading); }
  }

  // ---- What a reservation stores ----

  /** The settings frozen for a request: the browser's and the meal type asked for, and the scanner of the moment. */
  ghost predicate FrozenFrom(row: Mapping, ask: Ask) {
    && ask.browser == Some(row.browser) && ask.mealType == row.mealType
    && ask.profile == Some(Profile(row.staff, row.scanner, row.code))
  }

  /** A well-formed request that has a row, its own or one that got in first, is answered with it if it belongs to the
      same browser; one that has none gets a row frozen from the settings there are.  Only its own row can be added.
      */
  lemma WhatAReservationStores(rows: map<Uuid, Mapping>, ask: Ask, collision: Collision)
    ensures var (after, result) := ReserveOutcome(rows, ask, collision);
            if ask.browser.None? then after == rows && result == NotReserved(INVALID_SCANNER_BROWSER)
            else if ask.request.None? then after == rows && result == NotReserved(INVALID_REQUEST_ID)
            else if ask.mealType < 1 || 18_446_744_073_709_551_615 < ask.mealType
            then after == rows && result == NotReserved(INVALID_MEAL_TYPE_ID)
            else
              var r := ask.request.value;
              && (r in rows ==>
                    && after == rows
                    && result == if ask.browser == Some(rows[r].browser) then Reserved(rows[r])
                                 else NotReserved(REQUEST_MISMATCH))
              && (r !in rows && ask.profile.None? ==> after == rows && result == NotReserved(SCANNER_NOT_CONFIGURED))
              && (r !in rows && ask.profile.Some? ==>
                    match collision
                    case Taken(row) =>
                      && after == rows[r := row]
                      && result == if ask.browser == Some(row.browser) then Reserved(row) else NotReserved(REQUEST_MISMATCH)
                    case Vanished => after == rows && result == NotReserved(SCAN_RECEIPT_UNCONFIRMED)
                    case NoCollision =>
                      result.Reserved? && FrozenFrom(result.row, ask) && after == rows[r := result.row])
  {
  }

  /** Once a request was reserved, every later attempt to reserve it, after any run and whatever the settings are by
      then, is answered with the same row if it comes from the same browser, and refused if it does not. */
  lemma ReservedForGood(app: App, ask: Ask, collision: Collision, more: seq<AppEvent>, again: Ask, later: Collision)
    requires ReserveOutcome(app.rows, ask, collision).1.Reserved? && ask.request.Some?
    requires again.request == ask.request && again.browser.Some? && Identifier(again.mealType)
    ensures var row := ReserveOutcome(app.rows, ask, collision).1.row;
            var rows := AppRun(AppStep(app, OnReserve(ask, collision)), more).rows;
            && ask.browser == Some(row.browser)
            && ReserveOutcome(rows, again, later)
               == (rows, if again.browser == ask.browser then Reserved(row) else NotReserved(REQUEST_MISMATCH))
  {
    hide Step;
    RowsStay(AppStep(app, OnReserve(ask, collision)), more, ask.request.value);
    hide AppRun;
  }
}
