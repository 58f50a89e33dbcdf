/** Checking a visitor file. */
module VisitorRows {
  // Each row on its own, and duplicates across rows.

  import opened Options
  import opened VisitorCells

  // ---- Across rows ----

  datatype Key = ByNumber | ByPhone | ByEmail

  datatype Identity = Numbered(n: int) | Worded(s: string)

  /** What makes two values of a column the same: the number, the digits of a phone, a case-folded email. */
  function IdentityOf(u: Unicode, c: Clean, key: Key): Option<Identity> {
    match key
    case ByNumber => if c.srNo.Some? then Some(Numbered(c.srNo.value)) else None
    case ByPhone => if c.phone.Some? then Some(Worded(PhoneDigits(c.phone.value))) else None
    case ByEmail => if c.email.Some? then Some(Worded(u.fold(c.email.value))) else None
  }

  function Duplicate(row: int, key: Key): Problem {
    match key
    case ByNumber => Problem(row, SR_NO, DUPLICATE_SR_NO)
    case ByPhone => Problem(row, PHONE, DUPLICATE_PHONE)
    case ByEmail => Problem(row, EMAIL, DUPLICATE_EMAIL)
  }

  /** Rows `i` and `j` share a value of the column. */
  predicate Same(u: Unicode, clean: seq<Clean>, key: Key, i: nat, j: nat)
    requires i < |clean| && j < |clean|
  {
    IdentityOf(u, clean[i], key).Some? && IdentityOf(u, clean[i], key) == IdentityOf(u, clean[j], key)
  }

  predicate Shared(u: Unicode, clean: seq<Clean>, key: Key, i: nat)
    requires i < |clean|
  {
    exists j | 0 <= j < |clean| && j != i :: Same(u, clean, key, i, j)
  }

  /** One problem for each of the first `n` rows that shares its value with any other row. */
  function Duplicates(u: Unicode, clean: seq<Clean>, key: Key, n: nat): multiset<Problem>
    requires n <= |clean|
  {
    if n == 0 then multiset{}
    else
      Duplicates(u, clean, key, n - 1)
      + if Shared(u, clean, key, n - 1) then multiset{Duplicate(clean[n - 1].row, key)} else multiset{}
  }

  function AllDuplicates(u: Unicode, clean: seq<Clean>): multiset<Problem> {
    Duplicates(u, clean, ByNumber, |clean|) + Duplicates(u, clean, ByPhone, |clean|)
    + Duplicates(u, clean, ByEmail, |clean|)
  }

  function OwnOfAll(u: Unicode, rows: seq<Raw>): multiset<Problem>
    requires AllReadable(u, rows)
  {
    if rows == [] then multiset{}
    else
      var n := |rows| - 1;
      OwnOfAll(u, rows[..n]) + multiset(Own(u, rows[n], Number(rows[n], n)))
  }

  function KeptOfAll(u: Unicode, rows: seq<Raw>): (clean: seq<Clean>)
    requires AllReadable(u, rows)
    ensures |clean| == |rows|
    ensures forall i :: 0 <= i < |rows| ==> clean[i] == Kept(u, rows[i], Number(rows[i], i))
  {
    seq(|rows|, i requires 0 <= i < |rows| && Readable(u, rows[i]) => Kept(u, rows[i], Number(rows[i], i)))
  }

  // ---- Tracking duplicates row by row ----

  /** `seen` after the rows of `clean`: a value met once maps to the number of its row, a value met again to nothing. */
  ghost predicate Tracks(u: Unicode, clean: seq<Clean>, key: Key, seen: map<Identity, Option<int>>) {
    && (forall i :: 0 <= i < |clean| && IdentityOf(u, clean[i], key).Some? ==>
          IdentityOf(u, clean[i], key).value in seen)
    && (forall x :: x in seen ==> Once(u, clean, key, x, seen[x]))
  }

  ghost predicate Once(u: Unicode, clean: seq<Clean>, key: Key, x: Identity, first: Option<int>) {
    exists i: nat ::
      && i < |clean| && IdentityOf(u, clean[i], key) == Some(x)
      && (if Shared(u, clean, key, i) then first == None else first == Some(clean[i].row))
  }

  /** Another row changes whether an earlier one shares its value only if it has that value itself. */
  lemma SharedGrows(u: Unicode, clean: seq<Clean>, c: Clean, key: Key, i: nat)
    requires i < |clean|
    ensures Shared(u, clean + [c], key, i)
            <==> Shared(u, clean, key, i)
                 || (IdentityOf(u, c, key).Some? && IdentityOf(u, clean[i], key) == IdentityOf(u, c, key))
  {
    var all := clean + [c];
    if Shared(u, clean, key, i) {
      var j :| 0 <= j < |clean| && j != i && Same(u, clean, key, i, j);
      assert Same(u, all, key, i, j);
    }
    if Shared(u, all, key, i) {
      var j :| 0 <= j < |all| && j != i && Same(u, all, key, i, j);
      if j < |clean| { assert Same(u, clean, key, i, j); }
    }
    if IdentityOf(u, c, key).Some? && IdentityOf(u, clean[i], key) == IdentityOf(u, c, key) {
      assert Same(u, all, key, i, |clean|);
    }
  }

  /** Row `i` has the value of `c`. */
  predicate Meets(u: Unicode, clean: seq<Clean>, c: Clean, key: Key, i: nat)
    requires i < |clean|
  {
    IdentityOf(u, c, key).Some? && IdentityOf(u, clean[i], key) == IdentityOf(u, c, key)
  }

  /** The problems that a new row adds among the rows before it: one, if its value was met exactly once. */
  lemma {:induction false} DuplicatesGrow(u: Unicode, clean: seq<Clean>, c: Clean, key: Key, n: nat, only: Option<nat>)
    requires n <= |clean|
    requires only.Some? ==>
               only.value < |clean| && !Shared(u, clean, key, only.value) && Meets(u, clean, c, key, only.value)
    requires only.None? ==>
               forall i :: 0 <= i < |clean| && Meets(u, clean, c, key, i) ==> Shared(u, clean, key, i)
    ensures Duplicates(u, clean + [c], key, n)
            == Duplicates(u, clean, key, n)
               + if only.Some? && only.value < n then multiset{Duplicate(clean[only.value].row, key)} else multiset{}
  {
    if n > 0 {
      var i := n - 1;
      DuplicatesGrow(u, clean, c, key, i, only);
      SharedGrows(u, clean, c, key, i);
      if only.Some? && i != only.value && Meets(u, clean, c, key, i) { assert Same(u, clean, key, i, only.value); }
    }
  }

  /** Whether the new row itself shares its value. */
  lemma NewShared(u: Unicode, clean: seq<Clean>, c: Clean, key: Key)
    ensures Shared(u, clean + [c], key, |clean|) <==> exists i | 0 <= i < |clean| :: Meets(u, clean, c, key, i)
  {
    var all := clean + [c];
    if i :| 0 <= i < |clean| && Meets(u, clean, c, key, i) { assert Same(u, all, key, |clean|, i); }
    if Shared(u, all, key, |clean|) {
      var i :| 0 <= i < |all| && i != |clean| && Same(u, all, key, |clean|, i);
      assert Meets(u, clean, c, key, i);
    }
  }

  /** What is known of a value from what was seen of it: never met, met once, or met again. */
  lemma SeenMeans(u: Unicode, clean: seq<Clean>, c: Clean, key: Key, seen: map<Identity, Option<int>>)
    returns (only: Option<nat>)
    requires Tracks(u, clean, key, seen)
    ensures var id := IdentityOf(u, c, key);
            && (id.None? || id.value !in seen ==>
                  only.None? && forall i :: 0 <= i < |clean| ==> !Meets(u, clean, c, key, i))
            && (id.Some? && id.value in seen ==>
                  && (exists i | 0 <= i < |clean| :: Meets(u, clean, c, key, i))
                  && (only.Some? <==> seen[id.value].Some?))
    ensures only.Some? ==>
              && only.value < |clean| && !Shared(u, clean, key, only.value) && Meets(u, clean, c, key, only.value)
              && seen[IdentityOf(u, c, key).value] == Some(clean[only.value].row)
    ensures only.None? ==> forall i :: 0 <= i < |clean| && Meets(u, clean, c, key, i) ==> Shared(u, clean, key, i)
  {
    only := None;
    var id := IdentityOf(u, c, key);
    if id.Some? && id.value in seen {
      assert Once(u, clean, key, id.value, seen[id.value]);
      var i: nat :|
        && i < |clean| && IdentityOf(u, clean[i], key) == Some(id.value)
        && (if Shared(u, clean, key, i) then seen[id.value] == None else seen[id.value] == Some(clean[i].row));
      assert Meets(u, clean, c, key, i);
      if seen[id.value].Some? { only := Some(i); }
      else {
        forall j | 0 <= j < |clean| && Meets(u, clean, c, key, j) ensures Shared(u, clean, key, j) {
          if j != i { assert Same(u, clean, key, j, i); }
        }
      }
    }
  }

  /** `seen` stays right when a row is added. */
  lemma TracksOn(u: Unicode, clean: seq<Clean>, c: Clean, key: Key, seen: map<Identity, Option<int>>)
    requires Tracks(u, clean, key, seen)
    ensures var id := IdentityOf(u, c, key);
            Tracks(u, clean + [c], key,
                   if id.None? then seen else seen[id.value := if id.value in seen then None else Some(c.row)])
  {
    var id, all := IdentityOf(u, c, key), clean + [c];
    var only := SeenMeans(u, clean, c, key, seen);
    NewShared(u, clean, c, key);
    var after := if id.None? then seen else seen[id.value := if id.value in seen then None else Some(c.row)];
    forall x | x in after ensures Once(u, all, key, x, after[x]) {
      if id == Some(x) {
        assert IdentityOf(u, all[|clean|], key) == Some(x);
      } else {
        assert Once(u, clean, key, x, seen[x]);
        var i: nat :|
          && i < |clean| && IdentityOf(u, clean[i], key) == Some(x)
          && (if Shared(u, clean, key, i) then seen[x] == None else seen[x] == Some(clean[i].row));
        SharedGrows(u, clean, c, key, i);
        assert IdentityOf(u, all[i], key) == Some(x);
      }
    }
  }

  /** What tracking a value adds: nothing at first, both rows when it is met again, the new row from then on. */
  function Added(seen: map<Identity, Option<int>>, id: Option<Identity>, row: int, key: Key): seq<Problem> {
    if id.None? || id.value !in seen then []
    else if seen[id.value].None? then [Duplicate(row, key)]
    else [Duplicate(seen[id.value].value, key), Duplicate(row, key)]
  }

  function Noted(seen: map<Identity, Option<int>>, id: Option<Identity>, row: int): map<Identity, Option<int>> {
    if id.None? then seen else seen[id.value := if id.value in seen then None else Some(row)]
  }

  /** It is what the new row makes of the duplicates. */
  lemma DuplicatesNext(u: Unicode, clean: seq<Clean>, c: Clean, key: Key, seen: map<Identity, Option<int>>)
    requires Tracks(u, clean, key, seen)
    ensures Duplicates(u, clean + [c], key, |clean| + 1)
            == Duplicates(u, clean, key, |clean|) + multiset(Added(seen, IdentityOf(u, c, key), c.row, key))
  {
    hide Tracks, Shared, Meets, IdentityOf, Duplicate, Duplicates;
    var all, id := clean + [c], IdentityOf(u, c, key);
    var only := SeenMeans(u, clean, c, key, seen);
    NewShared(u, clean, c, key);
    DuplicatesGrow(u, clean, c, key, |clean|, only);
    LastDuplicate(u, clean, c, key);
    if id.None? || id.value !in seen {
      assert !Shared(u, all, key, |clean|);
    } else {
      assert Shared(u, all, key, |clean|);
      assert only.Some? ==> seen[id.value].value == clean[only.value].row;
    }
  }

  lemma LastDuplicate(u: Unicode, clean: seq<Clean>, c: Clean, key: Key)
    ensures Duplicates(u, clean + [c], key, |clean| + 1)
            == Duplicates(u, clean + [c], key, |clean|)
               + if Shared(u, clean + [c], key, |clean|) then multiset{Duplicate(c.row, key)} else multiset{}
  {
    hide Shared, Duplicate;
  }

  // ---- The check ----

  class RowChecker {
    const u: Unicode
    var clean: seq<Clean>
    var problems: seq<Problem>
    var seen: map<Key, map<Identity, Option<int>>>

    constructor (u: Unicode)
      ensures this.u == u && clean == [] && problems == []
      ensures seen == map[ByNumber := map[], ByPhone := map[], ByEmail := map[]]
    {
      this.u, clean, problems := u, [], [];
      seen := map[ByNumber := map[], ByPhone := map[], ByEmail := map[]];
    }

    /** The new row's value of one column, against the rows so far. */
    method Track(key: Key, c: Clean)
      requires key in seen
      modifies this`problems, this`seen
      ensures problems == old(problems) + Added(old(seen)[key], IdentityOf(u, c, key), c.row, key)
      ensures seen == old(seen)[key := Noted(old(seen)[key], IdentityOf(u, c, key), c.row)]
    {
      var identity := IdentityOf(u, c, key);
      if identity.None? {
        assert old(seen)[key := old(seen)[key]] == old(seen);
        return;
      }
      var x := identity.value;
      if x in seen[key] {
        var first := seen[key][x];
        if first.Some? {
          problems := problems + [Duplicate(first.value, key)];
          seen := seen[key := seen[key][x := None]];
        } else {
          assert old(seen)[key][x := None] == old(seen)[key];
          assert old(seen)[key := old(seen)[key]] == old(seen);
        }
        problems := problems + [Duplicate(c.row, key)];
        assert seen == old(seen)[key := old(seen)[key][x := None]];
      } else {
        seen := seen[key := seen[key][x := Some(c.row)]];
      }
    }

    ghost predicate Tracking()
      reads this
    {
      forall key: Key :: key in seen && Tracks(u, clean, key, seen[key])
    }

    /** One row: its own problems, what is kept of it, and its values against those of the rows before. */
    method CheckRow(raw: Raw, n: int)
      requires Readable(u, raw) && Tracking()
      modifies this
      ensures clean == old(clean) + [Kept(u, raw, n)] && Tracking()
      ensures multiset(problems) + AllDuplicates(u, old(clean))
              == multiset(old(problems)) + multiset(Own(u, raw, n)) + AllDuplicates(u, clean)
    {
      hide Kept, Own, Tracks, IdentityOf, Duplicates, Added, Noted;
      ghost var before, seenBefore := clean, seen;
      var c := RowAlone(raw, n);
      ghost var alone := problems;
      Track(ByNumber, c);
      Track(ByPhone, c);
      Track(ByEmail, c);
      clean := clean + [c];
      forall key: Key ensures key in seen && Tracks(u, clean, key, seen[key]) {
        NotedTracks(u, before, c, key, seenBefore[key]);
        assert key == ByNumber || key == ByPhone || key == ByEmail;
      }
      DuplicatesNext(u, before, c, ByNumber, seenBefore[ByNumber]);
      DuplicatesNext(u, before, c, ByPhone, seenBefore[ByPhone]);
      DuplicatesNext(u, before, c, ByEmail, seenBefore[ByEmail]);
    }

    method CheckNumber(s: string, n: int) returns (value: Option<int>)
      requires !ParseSrNo(u, s).NoInt?
      modifies this`problems
      ensures value == if ParseSrNo(u, s).Given? then Some(ParseSrNo(u, s).n) else None
      ensures problems == old(problems)
                          + One(if ParseSrNo(u, s).Given? then None else Some(INVALID_SR_NO), n, SR_NO)
    {
      hide ParseSrNo;
      var sr := ParseSrNo(u, s);
      if sr.Given? { return Some(sr.n); }
      problems := problems + [Problem(n, SR_NO, INVALID_SR_NO)];
      return None;
    }

    method CheckText(s: string, n: int, column: Column) returns (value: Option<string>)
      modifies this`problems
      ensures value == if TextProblem(s).None? then Some(s) else None
      ensures problems == old(problems) + One(TextProblem(s), n, column)
    {
      if s == [] { problems := problems + [Problem(n, column, REQUIRED)]; }
      else if |s| > 150 { problems := problems + [Problem(n, column, TOO_LONG)]; }
      else if exists i :: 0 <= i < |s| && (Control(s[i]) || s[i] as int == 127) {
        problems := problems + [Problem(n, column, INVALID_TEXT)];
      } else { return Some(s); }
      return None;
    }

    method CheckPhone(s: string, n: int) returns (value: Option<string>)
      modifies this`problems
      ensures value == if PhoneProblem(s).None? then Some(s) else None
      ensures problems == old(problems) + One(PhoneProblem(s), n, PHONE)
    {
      hide PhoneOk;
      if s == [] { problems := problems + [Problem(n, PHONE, REQUIRED)]; }
      else if PhoneOk(s) { return Some(s); }
      else { problems := problems + [Problem(n, PHONE, INVALID_PHONE)]; }
      return None;
    }

    method CheckEmail(s: string, n: int) returns (value: Option<string>)
      modifies this`problems
      ensures value == if s != [] && EmailOk(u, s) then Some(u.lower(s)) else None
      ensures problems == old(problems) + One(EmailProblem(u, s), n, EMAIL)
    {
      hide EmailOk;
      if s != [] {
        if EmailOk(u, s) { return Some(u.lower(s)); }
        problems := problems + [Problem(n, EMAIL, INVALID_EMAIL)];
      }
      return None;
    }

    /** The cells of the row, one after the other. */
    method RowAlone(raw: Raw, n: int) returns (c: Clean)
      requires Readable(u, raw)
      modifies this`problems
      ensures c == Kept(u, raw, n) && problems == old(problems) + Own(u, raw, n)
    {
      hide ParseSrNo, TextProblem, PhoneProblem, EmailProblem, EmailOk, One;
      var srNo := CheckNumber(raw.srNo, n);
      var person := CheckText(raw.person, n, PERSON_NAME);
      var company := CheckText(raw.company, n, COMPANY_NAME);
      var phone := CheckPhone(raw.phone, n);
      var email := CheckEmail(raw.email, n);
      return Clean(n, srNo, person, company, phone, email);
    }
  }

  lemma NotedTracks(u: Unicode, clean: seq<Clean>, c: Clean, key: Key, seen: map<Identity, Option<int>>)
    requires Tracks(u, clean, key, seen)
    ensures Tracks(u, clean + [c], key, Noted(seen, IdentityOf(u, c, key), c.row))
  {
    TracksOn(u, clean, c, key, seen);
    hide Tracks, IdentityOf;
  }

  // ---- The whole file ----

  function ColumnRank(c: Column): nat {
    match c case COMPANY_NAME => 0 case EMAIL => 1 case PERSON_NAME => 2 case PHONE => 3 case SR_NO => 4
  }

  /** key=lambda item: (item["row"], item["column"]) */
  predicate NotAfter(p: Problem, q: Problem) {
    p.row < q.row || (p.row == q.row && ColumnRank(p.column) <= ColumnRank(q.column))
  }

  predicate Ordered(ps: seq<Problem>) { forall i, j :: 0 <= i < j < |ps| ==> NotAfter(ps[i], ps[j]) }

  /** `p` put behind everything it does not precede. */
  function Inserted(sorted: seq<Problem>, p: Problem): (r: seq<Problem>)
    ensures multiset(r) == multiset(sorted) + multiset{p}
  {
    var n := |sorted|;
    if n == 0 || NotAfter(sorted[n - 1], p) then sorted + [p]
    else
      assert sorted == sorted[..n - 1] + [sorted[n - 1]];
      Inserted(sorted[..n - 1], p) + [sorted[n - 1]]
  }

  lemma NotAfterIsTotal(p: Problem, q: Problem, r: Problem)
    ensures NotAfter(p, q) || NotAfter(q, p)
    ensures NotAfter(p, q) && NotAfter(q, r) ==> NotAfter(p, r)
  {
  }

  lemma {:induction false} InsertedIsOrdered(sorted: seq<Problem>, p: Problem)
    requires Ordered(sorted)
    ensures Ordered(Inserted(sorted, p))
  {
    hide NotAfter;
    var n := |sorted|;
    if n > 0 {
      var last := sorted[n - 1];
      NotAfterIsTotal(p, last, last);
      if NotAfter(last, p) {
        forall j | 0 <= j < n ensures NotAfter(sorted[j], p) {
          if j < n - 1 { NotAfterIsTotal(sorted[j], last, p); }
        }
      } else {
        var rest := sorted[..n - 1];
        InsertedIsOrdered(rest, p);
        var r := Inserted(rest, p);
        forall j | 0 <= j < |r| ensures NotAfter(r[j], last) { InsertedIsBefore(sorted, p, j); }
      }
    }
  }

  lemma InsertedIsBefore(sorted: seq<Problem>, p: Problem, j: nat)
    requires sorted != [] && Ordered(sorted) && NotAfter(p, sorted[|sorted| - 1])
    requires j < |Inserted(sorted[..|sorted| - 1], p)|
    ensures NotAfter(Inserted(sorted[..|sorted| - 1], p)[j], sorted[|sorted| - 1])
  {
    hide NotAfter;
    var rest := sorted[..|sorted| - 1];
    var x := Inserted(rest, p)[j];
    assert x in multiset(Inserted(rest, p));
    if x != p {
      assert x in rest;
      var k :| 0 <= k < |rest| && rest[k] == x;
      assert sorted[k] == x;
    }
  }

  lemma NothingOrdered()
    ensures Ordered([])
  {
  }

  method Sort(ps: seq<Problem>) returns (sorted: seq<Problem>)
    ensures Ordered(sorted) && multiset(sorted) == multiset(ps)
  {
    hide Ordered;
    sorted := [];
    NothingOrdered();
    for i := 0 to |ps|
      invariant Ordered(sorted) && multiset(sorted) == multiset(ps[..i])
    {
      assert ps[..i + 1] == ps[..i] + [ps[i]];
      InsertedIsOrdered(sorted, ps[i]);
      sorted := Inserted(sorted, ps[i]);
    }
    assert ps[..|ps|] == ps;
  }

  /** What the first unreadable row makes of the call. */
  function Refusal(u: Unicode, raw: Raw): Outcome
    requires !Readable(u, raw)
  {
    if raw.Malformed? then INVALID_VISITOR_ROWS else ValueError
  }

  /** `validate_rows`: every problem is reported once for each row that deserves it (`Deserving`, in terms of the
      cells), ordered by row and column. */
  method ValidateRows(u: Unicode, rows: seq<Raw>) returns (outcome: Outcome)
    ensures rows == [] ==> outcome == VISITOR_FILE_EMPTY
    ensures |rows| > MAX_ROWS ==> outcome == VISITOR_FILE_TOO_MANY_ROWS
    ensures 1 <= |rows| <= MAX_ROWS && !AllReadable(u, rows) ==>
              exists i :: 0 <= i < |rows| && !Readable(u, rows[i]) && outcome == Refusal(u, rows[i])
                          && forall j :: 0 <= j < i ==> Readable(u, rows[j])
    ensures 1 <= |rows| <= MAX_ROWS && AllReadable(u, rows) ==>
              && outcome.Checked? && outcome.clean == KeptOfAll(u, rows) && Ordered(outcome.problems)
              && multiset(outcome.problems) == OwnOfAll(u, rows) + AllDuplicates(u, KeptOfAll(u, rows))
    ensures outcome.Checked? && AllReadable(u, rows) ==>
              forall p :: multiset(outcome.problems)[p] == |Deserving(u, rows, p)|
  {
    hide Kept, Own, AllDuplicates, Duplicates, Refusal, Ordered, Deserving;
    if rows == [] { return VISITOR_FILE_EMPTY; }
    if |rows| > MAX_ROWS { return VISITOR_FILE_TOO_MANY_ROWS; }
    var checker := new RowChecker(u);
    NothingSeen(checker);
    for i := 0 to |rows|
      invariant AllReadable(u, rows[..i]) && checker.Tracking() && checker.u == u
      invariant checker.clean == KeptOfAll(u, rows[..i])
      invariant multiset(checker.problems) == OwnOfAll(u, rows[..i]) + AllDuplicates(u, checker.clean)
    {
      if !Readable(u, rows[i]) {
        RefusalIs(u, rows[i]);
        assert forall j :: 0 <= j < i ==> rows[j] == rows[..i][j];
        return if rows[i].Malformed? then INVALID_VISITOR_ROWS else ValueError;
      }
      OneMoreRow(u, rows, i);
      ghost var found := AllDuplicates(u, checker.clean);
      checker.CheckRow(rows[i], Number(rows[i], i));
      CancelSum(multiset(checker.problems), found, OwnOfAll(u, rows[..i]),
                multiset(Own(u, rows[i], Number(rows[i], i))) + AllDuplicates(u, checker.clean));
    }
    assert rows[..|rows|] == rows;
    var problems := Sort(checker.problems);
    forall p ensures multiset(problems)[p] == |Deserving(u, rows, p)| { ReportedAsDeserved(u, rows, p); }
    return Checked(checker.clean, problems);
  }

  lemma CancelSum<T>(p: multiset<T>, x: multiset<T>, o: multiset<T>, q: multiset<T>)
    requires p + x == (o + x) + q
    ensures p == o + q
  {
    forall e ensures p[e] == (o + q)[e] { assert (p + x)[e] == ((o + x) + q)[e]; }
  }

  lemma RefusalIs(u: Unicode, raw: Raw)
    requires !Readable(u, raw)
    ensures Refusal(u, raw) == if raw.Malformed? then INVALID_VISITOR_ROWS else ValueError
  {
  }

  lemma NothingSeen(checker: RowChecker)
    requires checker.clean == [] && checker.seen == map[ByNumber := map[], ByPhone := map[], ByEmail := map[]]
    ensures checker.Tracking() && AllDuplicates(checker.u, []) == multiset{}
  {
    forall key: Key ensures key in checker.seen && Tracks(checker.u, [], key, checker.seen[key]) {
      assert key == ByNumber || key == ByPhone || key == ByEmail;
    }
  }

  lemma OneMoreRow(u: Unicode, rows: seq<Raw>, i: nat)
    requires i < |rows| && AllReadable(u, rows[..i]) && Readable(u, rows[i])
    ensures AllReadable(u, rows[..i + 1])
    ensures KeptOfAll(u, rows[..i + 1]) == KeptOfAll(u, rows[..i]) + [Kept(u, rows[i], Number(rows[i], i))]
    ensures OwnOfAll(u, rows[..i + 1]) == OwnOfAll(u, rows[..i]) + multiset(Own(u, rows[i], Number(rows[i], i)))
  {
    hide Kept, Own, Readable;
    var more := rows[..i + 1];
    assert more[..i] == rows[..i];
    forall j | 0 <= j < |more| ensures Readable(u, more[j]) { if j < i { assert rows[..i][j] == more[j]; } }
  }

  // ---- What the problems say ----

  /** Rows `i` and `j` both have a valid value in the column, and it is the same: the number, the digits of the phone in
      their order, or the address. */
  ghost predicate Clash(u: Unicode, rows: seq<Raw>, column: Column, i: nat, j: nat)
    requires AllReadable(u, rows) && i < |rows| && j < |rows|
  {
    var a, b := rows[i], rows[j];
    match column
    case SR_NO => IsNumber(u, a.srNo) && IsNumber(u, b.srNo) && SameNumber(u, a.srNo, b.srNo)
    case PHONE => IsPhone(a.phone) && IsPhone(b.phone) && SameDigits(a.phone, b.phone)
    case EMAIL => IsEmail(u, a.email) && IsEmail(u, b.email) && SameEmail(u, a.email, b.email)
    case PERSON_NAME => false
    case COMPANY_NAME => false
  }

  /** Row `i` clashes with another row. */
  ghost predicate Clashes(u: Unicode, rows: seq<Raw>, column: Column, i: nat)
    requires AllReadable(u, rows) && i < |rows|
  {
    exists j: nat :: j < |rows| && j != i && Clash(u, rows, column, i, j)
  }

  /** What is to be reported of row `i`: its own faults, and the values other rows have too. */
  ghost predicate Deserves(u: Unicode, rows: seq<Raw>, i: nat, column: Column, code: Code)
    requires AllReadable(u, rows) && i < |rows|
  {
    || Fault(u, rows[i], column, code)
    || ((column, code) in {(SR_NO, DUPLICATE_SR_NO), (PHONE, DUPLICATE_PHONE), (EMAIL, DUPLICATE_EMAIL)}
        && Clashes(u, rows, column, i))
  }

  /** The rows that deserve problem `p`. */
  ghost function Deserving(u: Unicode, rows: seq<Raw>, p: Problem): set<nat>
    requires AllReadable(u, rows)
  {
    set i: nat | i < |rows| && IsRowNumber(rows[i], i, p.row) && Deserves(u, rows, i, p.column, p.code)
  }

  function ColumnOf(key: Key): Column { match key case ByNumber => SR_NO case ByPhone => PHONE case ByEmail => EMAIL }

  /** Sharing an identity is clashing. */
  lemma SameMeans(u: Unicode, rows: seq<Raw>, key: Key, i: nat, j: nat)
    requires AllReadable(u, rows) && i < |rows| && j < |rows|
    ensures Same(u, KeptOfAll(u, rows), key, i, j) <==> Clash(u, rows, ColumnOf(key), i, j)
  {
    hide IsNumber, IsPhone, IsEmail, ParseSrNo, PhoneOk, EmailOk, PhoneDigits, TextProblem, SameNumber, SameDigits;
    var a, b := rows[i], rows[j];
    EmptyCells(u);
    if key == ByNumber {
      NumberMeans(u, a.srNo);
      NumberMeans(u, b.srNo);
      SameNumberIsSameValue(u, a.srNo, b.srNo);
    } else if key == ByPhone {
      PhoneMeans(a.phone);
      PhoneMeans(b.phone);
      SameDigitsMeans(a.phone, b.phone);
    } else {
      EmailMeans(u, a.email);
      EmailMeans(u, b.email);
    }
  }

  lemma SharedMeans(u: Unicode, rows: seq<Raw>, key: Key, i: nat)
    requires AllReadable(u, rows) && i < |rows|
    ensures Shared(u, KeptOfAll(u, rows), key, i) <==> Clashes(u, rows, ColumnOf(key), i)
  {
    hide Same, Clash, KeptOfAll, ParseSrNo;
    var clean := KeptOfAll(u, rows);
    assert |clean| == |rows|;
    forall j: nat | j < |rows| ensures Same(u, clean, key, i, j) <==> Clash(u, rows, ColumnOf(key), i, j) {
      SameMeans(u, rows, key, i, j);
    }
  }

  /** The rows before `n` with a fault reported as `p`. */
  ghost function Faulty(u: Unicode, rows: seq<Raw>, n: nat, p: Problem): set<nat>
    requires AllReadable(u, rows) && n <= |rows|
  {
    set i: nat | i < n && Number(rows[i], i) == p.row && Fault(u, rows[i], p.column, p.code)
  }

  lemma FaultyGrows(u: Unicode, rows: seq<Raw>, p: Problem)
    requires AllReadable(u, rows) && rows != []
    ensures var n := |rows| - 1;
            && n !in Faulty(u, rows[..n], n, p)
            && Faulty(u, rows, |rows|, p)
               == Faulty(u, rows[..n], n, p)
                  + (if Number(rows[n], n) == p.row && Fault(u, rows[n], p.column, p.code) then {n} else {})
  {
    hide Number, Fault, ParseSrNo;
    var n := |rows| - 1;
    assert forall i :: 0 <= i < n ==> rows[..n][i] == rows[i];
  }

  lemma {:induction false} FaultsCounted(u: Unicode, rows: seq<Raw>, p: Problem)
    requires AllReadable(u, rows)
    ensures OwnOfAll(u, rows)[p] == |Faulty(u, rows, |rows|, p)|
  {
    hide Own, Number, Fault, ParseSrNo;
    if rows == [] {
      assert Faulty(u, rows, 0, p) == {};
    } else {
      var n := |rows| - 1;
      FaultsCounted(u, rows[..n], p);
      OwnMeans(u, rows[n], Number(rows[n], n), p);
      FaultyGrows(u, rows, p);
    }
    hide Faulty;
  }

  /** The rows before `n` that share a value, reported as `p`. */
  ghost function Sharing(u: Unicode, clean: seq<Clean>, key: Key, n: nat, p: Problem): set<nat>
    requires n <= |clean|
  {
    set i: nat | i < n && Shared(u, clean, key, i) && Duplicate(clean[i].row, key) == p
  }

  lemma SharingGrows(u: Unicode, clean: seq<Clean>, key: Key, n: nat, p: Problem)
    requires 0 < n <= |clean|
    ensures n - 1 !in Sharing(u, clean, key, n - 1, p)
    ensures Sharing(u, clean, key, n, p)
            == Sharing(u, clean, key, n - 1, p)
               + (if Shared(u, clean, key, n - 1) && Duplicate(clean[n - 1].row, key) == p then {n - 1} else {})
  {
    hide Shared, Duplicate;
  }

  lemma {:induction false} SharesCounted(u: Unicode, clean: seq<Clean>, key: Key, n: nat, p: Problem)
    requires n <= |clean|
    ensures Duplicates(u, clean, key, n)[p] == |Sharing(u, clean, key, n, p)|
  {
    hide Shared, Duplicate;
    if n == 0 {
      assert Sharing(u, clean, key, 0, p) == {};
    } else {
      SharesCounted(u, clean, key, n - 1, p);
      SharingGrows(u, clean, key, n, p);
    }
    hide Sharing;
  }

  function KeyOf(column: Column): Key {
    match column case SR_NO => ByNumber case PHONE => ByPhone case EMAIL => ByEmail case _ => ByNumber
  }

  lemma NoneSharing(u: Unicode, clean: seq<Clean>, key: Key, p: Problem)
    requires p.column != ColumnOf(key) || p.code != Duplicate(0, key).code
    ensures Sharing(u, clean, key, |clean|, p) == {}
  {
    hide Shared;
  }

  const DUPLICATES: set<Code> := {DUPLICATE_SR_NO, DUPLICATE_PHONE, DUPLICATE_EMAIL}

  lemma FaultIsNoDuplicate(u: Unicode, raw: Raw, column: Column, code: Code)
    requires raw.Raw? && Fault(u, raw, column, code)
    ensures code !in DUPLICATES
  {
    hide IsNumber, IsPhone, IsEmail;
  }

  /** A problem is either a fault or a duplicate, never both. */
  lemma DeservingFaults(u: Unicode, rows: seq<Raw>, p: Problem)
    requires AllReadable(u, rows) && p.code !in DUPLICATES
    ensures Deserving(u, rows, p) == Faulty(u, rows, |rows|, p)
  {
    hide Fault, Clashes, ParseSrNo, Number, IsRowNumber;
    forall i: nat | i < |rows| ensures Number(rows[i], i) == p.row <==> IsRowNumber(rows[i], i, p.row) {
      RowNumberMeans(rows[i], i, p.row);
    }
  }

  lemma DeservingShares(u: Unicode, rows: seq<Raw>, p: Problem)
    requires AllReadable(u, rows) && p.code in DUPLICATES
    ensures Faulty(u, rows, |rows|, p) == {}
    ensures Deserving(u, rows, p) == Sharing(u, KeptOfAll(u, rows), KeyOf(p.column), |rows|, p)
  {
    hide Fault, Clashes, ParseSrNo, Number, IsRowNumber, Shared;
    var clean, key := KeptOfAll(u, rows), KeyOf(p.column);
    forall i: nat | i < |rows|
      ensures Number(rows[i], i) == p.row <==> IsRowNumber(rows[i], i, p.row)
      ensures Shared(u, clean, key, i) <==> Clashes(u, rows, ColumnOf(key), i)
      ensures clean[i].row == Number(rows[i], i) && !Fault(u, rows[i], p.column, p.code)
    {
      RowNumberMeans(rows[i], i, p.row);
      SharedMeans(u, rows, key, i);
      if Fault(u, rows[i], p.column, p.code) { FaultIsNoDuplicate(u, rows[i], p.column, p.code); }
    }
  }

  /** Every problem is reported once for each row that deserves it. */
  lemma ReportedAsDeserved(u: Unicode, rows: seq<Raw>, p: Problem)
    requires AllReadable(u, rows)
    ensures (OwnOfAll(u, rows) + AllDuplicates(u, KeptOfAll(u, rows)))[p] == |Deserving(u, rows, p)|
  {
    hide OwnOfAll, Duplicates, Deserving, Faulty, Sharing, ParseSrNo;
    var clean, key := KeptOfAll(u, rows), KeyOf(p.column);
    FaultsCounted(u, rows, p);
    SharesCounted(u, clean, ByNumber, |clean|, p);
    SharesCounted(u, clean, ByPhone, |clean|, p);
    SharesCounted(u, clean, ByEmail, |clean|, p);
    if key != ByNumber || p.code !in DUPLICATES { NoneSharing(u, clean, ByNumber, p); }
    if key != ByPhone || p.code !in DUPLICATES { NoneSharing(u, clean, ByPhone, p); }
    if key != ByEmail || p.code !in DUPLICATES { NoneSharing(u, clean, ByEmail, p); }
    if p.code in DUPLICATES { DeservingShares(u, rows, p); } else { DeservingFaults(u, rows, p); }
  }

  /** The file is free of problems if and only if every row is valid by itself and no two rows clash. */
  lemma NoProblemsMeans(u: Unicode, rows: seq<Raw>)
    requires AllReadable(u, rows)
    ensures OwnOfAll(u, rows) + AllDuplicates(u, KeptOfAll(u, rows)) == multiset{}
            <==> (forall i: nat, column, code :: i < |rows| ==> !Fault(u, rows[i], column, code))
                 && (forall i: nat, j: nat, column :: i < |rows| && j < |rows| && i != j ==> !Clash(u, rows, column, i, j))
  {
    hide OwnOfAll, AllDuplicates, Fault, Clash, ParseSrNo, IsRowNumber;
    var total := OwnOfAll(u, rows) + AllDuplicates(u, KeptOfAll(u, rows));
    if forall i: nat, column, code :: i < |rows| ==> !Deserves(u, rows, i, column, code) {
      forall p ensures total[p] == 0 {
        ReportedAsDeserved(u, rows, p);
        assert Deserving(u, rows, p) == {};
      }
      assert total == multiset{};
      forall i: nat, column, code | i < |rows| ensures !Fault(u, rows[i], column, code) {
        assert !Deserves(u, rows, i, column, code);
      }
      forall i: nat, j: nat, column | i < |rows| && j < |rows| && i != j ensures !Clash(u, rows, column, i, j) {
        if Clash(u, rows, column, i, j) { ClashIsDeserved(u, rows, column, i, j); }
      }
    } else {
      var i: nat, column, code :| i < |rows| && Deserves(u, rows, i, column, code);
      var p := Problem(Number(rows[i], i), column, code);
      RowNumberMeans(rows[i], i, p.row);
      ReportedAsDeserved(u, rows, p);
      assert i in Deserving(u, rows, p);
      assert total[p] > 0;
    }
  }

  lemma ClashIsDeserved(u: Unicode, rows: seq<Raw>, column: Column, i: nat, j: nat)
    requires AllReadable(u, rows) && i < |rows| && j < |rows| && i != j && Clash(u, rows, column, i, j)
    ensures Deserves(u, rows, i, column, Duplicate(0, KeyOf(column)).code)
  {
    hide Fault, ParseSrNo;
    assert Clashes(u, rows, column, i);
  }

  /** With distinct row numbers: each row is told exactly what it deserves, and that once, whatever the size of a
      group of equal values. */
  lemma EachMemberIsToldOnce(u: Unicode, rows: seq<Raw>, i: nat, column: Column, code: Code)
    requires AllReadable(u, rows) && i < |rows|
    requires forall j: nat, k: nat, n: int :: j < k < |rows| && IsRowNumber(rows[j], j, n) ==> !IsRowNumber(rows[k], k, n)
    ensures var told := OwnOfAll(u, rows) + AllDuplicates(u, KeptOfAll(u, rows));
            told[Problem(Number(rows[i], i), column, code)] == if Deserves(u, rows, i, column, code) then 1 else 0
  {
    hide OwnOfAll, AllDuplicates, Deserves, ParseSrNo, IsRowNumber, Number;
    var p := Problem(Number(rows[i], i), column, code);
    RowNumberMeans(rows[i], i, p.row);
    ReportedAsDeserved(u, rows, p);
    assert Deserving(u, rows, p) == if Deserves(u, rows, i, column, code) then {i} else {};
  }

  /** Problems come in the order of their rows, and within a row in that of the titles of the columns. */
  function Title(c: Column): string {
    match c
    case COMPANY_NAME => "Company Name"
    case EMAIL => "Email"
    case PERSON_NAME => "Person Name"
    case PHONE => "Phone"
    case SR_NO => "Sr. No."
  }

  /** The texts agree up to some place, where `s` has the smaller character. */
  ghost predicate TextBefore(s: string, t: string) {
    exists k: nat :: k < |s| && k < |t| && s[..k] == t[..k] && s[k] < t[k]
  }

  lemma OrderedByTitle(p: Problem, q: Problem)
    ensures NotAfter(p, q)
            <==> p.row < q.row || (p.row == q.row && (p.column == q.column || TextBefore(Title(p.column), Title(q.column))))
  {
    var s, t := Title(p.column), Title(q.column);
    if s != t {
      var k := if s[0] == t[0] then 1 else 0;
      assert s[..k] == t[..k] && s[k] != t[k];
      if TextBefore(s, t) {
        var j: nat :| j < |s| && j < |t| && s[..j] == t[..j] && s[j] < t[j];
        if j > k { assert s[..j][k] == t[..j][k]; }
      }
    }
  }

  /** A serial number of "superscript two" passes `isdigit()`, and then no number comes of it: the call fails instead of
      reporting the row.  So does one of more than 4300 digits. */
  lemma SuperscriptFails(u: Unicode, superscript: char)
    requires u.digit(superscript).OtherDigit?
    ensures ParseSrNo(u, [superscript]).NoInt?
  {
    assert u.digit([superscript][0]).OtherDigit?;
  }
}
