/** Newest-first paging. */
module Paging {
  // The text of a cursor, one page, and the loop that walks all pages.

  import opened Options

  /** What rows are ordered by: creation time in microseconds since 1970, and id. */
  datatype Row = Row(time: int, id: int)

  datatype Parsed = Ok(cursor: Option<Row>) | INVALID_REPORT_CURSOR

  const MAX_ID := 0xFFFF_FFFF_FFFF_FFFF
  const TEN_TO_17 := 100_000_000_000_000_000
  const LAST_MOMENT := 253_402_300_799_999_999  // the last microsecond of year 9999

  // ---- Decimal text ----

  predicate Digit(c: char) { '0' <= c <= '9' }
  predicate Digits(s: string) { forall i :: 0 <= i < |s| ==> Digit(s[i]) }

  function ToDecimal(n: nat): (s: string)
    ensures |s| > 0 && Digits(s)
  {
    var last := ('0' as int + n % 10) as char;
    if n < 10 then [last] else ToDecimal(n / 10) + [last]
  }

  /** str(n) */
  function Text(n: int): (s: string)
    ensures |s| > 0
  {
    if n < 0 then ['-'] + ToDecimal(-n) else ToDecimal(n)
  }

  /** int(s) */
  function FromDecimal(s: string): nat
    requires Digits(s)
  {
    if s == [] then 0 else 10 * FromDecimal(s[..|s| - 1]) + (s[|s| - 1] as int - '0' as int)
  }

  lemma {:induction false} DecimalRoundTrip(n: nat)
    ensures FromDecimal(ToDecimal(n)) == n
    ensures n > 0 ==> ToDecimal(n)[0] != '0'
  {
    var s := ToDecimal(n);
    if n >= 10 {
      assert s[..|s| - 1] == ToDecimal(n / 10);
      DecimalRoundTrip(n / 10);
    } else {
      assert s[..0] == [];
    }
  }

  function Pow10(k: nat): nat { if k == 0 then 1 else 10 * Pow10(k - 1) }

  /** A number has at most `k` digits if and only if it is below the `k`-th power of ten. */
  lemma {:induction false} DecimalLength(n: nat, k: nat)
    requires k > 0
    ensures |ToDecimal(n)| <= k <==> n < Pow10(k)
  {
    if k > 1 {
      if n < 10 { PowGrows(k); } else { DecimalLength(n / 10, k - 1); }
    } else if n >= 10 {
      assert |ToDecimal(n / 10)| > 0;
    }
  }

  lemma {:induction false} PowGrows(k: nat)
    requires k > 0
    ensures Pow10(k) >= 10
  {
    if k > 1 { PowGrows(k - 1); }
  }

  lemma {:induction false} DecimalBound(s: string)
    requires Digits(s)
    ensures FromDecimal(s) < Pow10(|s|)
  {
    if s != [] { DecimalBound(s[..|s| - 1]); }
  }

  lemma Powers()
    ensures Pow10(17) == TEN_TO_17 && Pow10(20) == 100_000_000_000_000_000_000
  {
    assert Pow10(5) == 100_000;
    assert Pow10(10) == 10_000_000_000;
    assert Pow10(15) == 1_000_000_000_000_000;
  }

  // ---- Cursors ----

  /** Where the first dot is, or the end. */
  function Dot(s: string): (p: nat)
    ensures p <= |s| && (p < |s| ==> s[p] == '.')
    ensures forall i :: 0 <= i < p ==> s[i] != '.'
  {
    if s == [] || s[0] == '.' then 0 else 1 + Dot(s[1..])
  }

  /** `^[0-9]{1,17}\.[1-9][0-9]{0,19}$` */
  predicate CursorPattern(s: string) {
    var p := Dot(s);
    && p < |s|
    && 1 <= p <= 17 && Digits(s[..p])
    && 1 <= |s| - (p + 1) <= 20 && Digits(s[p + 1..]) && s[p + 1] != '0'
  }

  function ParseCursor(value: Option<string>): Parsed {
    if value.None? then Ok(None)
    else
      var s := value.value;
      if !CursorPattern(s) then INVALID_REPORT_CURSOR
      else
        var time, id := FromDecimal(s[..Dot(s)]), FromDecimal(s[Dot(s) + 1..]);
        if id > MAX_ID || time > LAST_MOMENT then INVALID_REPORT_CURSOR else Ok(Some(Row(time, id)))
  }

  function FormatCursor(r: Row): string { Text(r.time) + ['.'] + Text(r.id) }

  lemma DotAfter(a: string, b: string)
    requires forall i :: 0 <= i < |a| ==> a[i] != '.'
    ensures Dot(a + ['.'] + b) == |a|
  {
    var s := a + ['.'] + b;
    assert s[|a|] == '.';
    assert forall i :: 0 <= i < |a| ==> s[i] == a[i];
  }

  /** A time of which 17 digits are enough, an id of the database's width. */
  predicate Addressable(r: Row) { 0 <= r.time < TEN_TO_17 && 1 <= r.id <= MAX_ID }

  /** A number written out has no dot, and is read back if it is all digits. */
  lemma TextReadBack(n: int)
    ensures forall i :: 0 <= i < |Text(n)| ==> Text(n)[i] != '.'
    ensures Digits(Text(n)) <==> n >= 0
    ensures n >= 0 ==> FromDecimal(Text(n)) == n && (Text(n)[0] != '0' <==> n > 0)
  {
    if n >= 0 {
      DecimalRoundTrip(n);
      if n == 0 { assert Text(n) == "0"; }
    } else {
      assert !Digit(Text(n)[0]);
    }
  }

  lemma TextLength(n: nat)
    ensures |Text(n)| <= 17 <==> n < TEN_TO_17
    ensures |Text(n)| <= 20 <==> n < 100_000_000_000_000_000_000
  {
    Powers();
    DecimalLength(n, 17);
    DecimalLength(n, 20);
  }

  /** A formatted cursor is read back as what it was made from exactly if its time is from 1970 on and below ten to the
      17th microseconds and its id is a positive 64-bit number; anything else is refused, never misread. */
  lemma CursorRoundTrip(r: Row)
    ensures ParseCursor(Some(FormatCursor(r))) == if Addressable(r) then Ok(Some(r)) else INVALID_REPORT_CURSOR
  {
    hide Text, FromDecimal, Digits;
    var a, b := Text(r.time), Text(r.id);
    var s := FormatCursor(r);
    TextReadBack(r.time);
    TextReadBack(r.id);
    DotAfter(a, b);
    assert s[..|a|] == a && s[|a| + 1..] == b;
    assert s[|a| + 1] == b[0];
    if r.time >= 0 { TextLength(r.time); }
    if r.id >= 0 { TextLength(r.id); }
  }

  /** Whatever text is accepted stands for a row that can be addressed; the overflow of a date cannot occur. */
  lemma ParsedIsAddressable(s: string)
    ensures CursorPattern(s) ==> FromDecimal(s[..Dot(s)]) <= LAST_MOMENT
    ensures var p := ParseCursor(Some(s)); p.Ok? ==> p.cursor.Some? && Addressable(p.cursor.value)
  {
    if CursorPattern(s) {
      var a, b := s[..Dot(s)], s[Dot(s) + 1..];
      Powers();
      DecimalBound(a);
      PowMonotone(|a|, 17);
      PositiveIfNoLeadingZero(b);
    }
  }

  lemma {:induction false} PowMonotone(j: nat, k: nat)
    requires j <= k
    ensures Pow10(j) <= Pow10(k)
  {
    if j < k { PowMonotone(j, k - 1); }
  }

  lemma {:induction false} PositiveIfNoLeadingZero(s: string)
    requires |s| > 0 && Digits(s) && s[0] != '0'
    ensures FromDecimal(s) >= 1
  {
    if |s| > 1 { PositiveIfNoLeadingZero(s[..|s| - 1]); }
  }

  // ---- Pages ----

  /** Row `a` comes after row `b` in ORDER BY time DESC, id DESC. */
  predicate Less(a: Row, b: Row) { a.time < b.time || (a.time == b.time && a.id < b.id) }

  /** The condition of `newest_first`. */
  predicate BelowCursor(r: Row, cursor: Option<Row>) { cursor.None? || Less(r, cursor.value) }

  predicate IsNewest(rows: set<Row>, r: Row) { r in rows && forall x :: x in rows ==> x == r || Less(x, r) }

  lemma {:induction false} NewestExists(rows: set<Row>)
    requires exists r :: r in rows
    ensures exists r :: IsNewest(rows, r)
    decreases |rows|
  {
    var r :| r in rows;
    var rest := rows - {r};
    assert forall x :: x in rows ==> x == r || x in rest;
    if exists x :: x in rest {
      NewestExists(rest);
      var x :| IsNewest(rest, x);
      assert IsNewest(rows, if Less(x, r) then r else x);
    } else {
      assert IsNewest(rows, r);
    }
  }

  /** SELECT ... WHERE below the cursor ORDER BY time DESC, id DESC LIMIT n, on a table of distinct rows */
  ghost function Query(table: set<Row>, cursor: Option<Row>, n: nat): (rows: seq<Row>)
    ensures |rows| <= n
    ensures forall i :: 0 <= i < |rows| ==> rows[i] in table && BelowCursor(rows[i], cursor)
    ensures forall i, j :: 0 <= i < j < |rows| ==> Less(rows[j], rows[i])
    ensures |rows| < n ==> forall r :: r in table && BelowCursor(r, cursor) ==> r in rows
    ensures forall r :: r in table && BelowCursor(r, cursor) && r !in rows ==>
              forall i :: 0 <= i < |rows| ==> Less(r, rows[i])
    decreases n
  {
    var below := set r | r in table && BelowCursor(r, cursor);
    assert forall r :: r in table && BelowCursor(r, cursor) ==> r in below;
    if n == 0 || !exists r :: r in below then []
    else
      NewestExists(below);
      var top :| IsNewest(below, top);
      [top] + Query(table, Some(top), n - 1)
  }

  /** What the server answers: the page, and the cursor of the next one if there are more rows. */
  datatype Page = Page(items: seq<Row>, next: Option<string>) | Refused

  /** A list endpoint: one row more than the page holds is read, to see whether there is a next page. */
  ghost function Serve(table: set<Row>, before: Option<string>, limit: nat): Page
    requires limit > 0
  {
    match ParseCursor(before)
    case INVALID_REPORT_CURSOR => Refused
    case Ok(cursor) =>
      var rows := Query(table, cursor, limit + 1);
      if |rows| <= limit then Page(rows, None) else Page(rows[..limit], Some(FormatCursor(rows[limit - 1])))
  }

  ghost predicate Decreasing(rows: seq<Row>) { forall i, j :: 0 <= i < j < |rows| ==> Less(rows[j], rows[i]) }

  /** All rows of `table` from the newest down to the last one listed have been listed. */
  ghost predicate Covered(table: set<Row>, items: seq<Row>) {
    forall r :: r in table && r !in items ==> |items| > 0 && Less(r, items[|items| - 1])
  }

  /** What one page adds. */
  lemma PageExtends(first: set<Row>, table: set<Row>, items: seq<Row>, limit: nat)
    requires limit > 0 && first <= table && forall r :: r in table ==> Addressable(r)
    requires Decreasing(items)
    requires items == [] || (Covered(first, items) && Addressable(items[|items| - 1]))
    ensures var before := if items == [] then None else Some(FormatCursor(items[|items| - 1]));
            var page := Serve(table, before, limit);
            && page.Page? && Decreasing(items + page.items)
            && (forall i :: 0 <= i < |page.items| ==> page.items[i] in table)
            && (if page.next.None? then forall r :: r in first ==> r in items + page.items
                else
                  && |page.items| == limit && Covered(first, items + page.items)
                  && page.next == Some(FormatCursor(page.items[limit - 1]))
                  && page.next != before)
  {
    hide ParseCursor, FormatCursor, Less, Covered, Addressable;
    var before := if items == [] then None else Some(FormatCursor(items[|items| - 1]));
    var cursor := if items == [] then None else Some(items[|items| - 1]);
    if items != [] { CursorRoundTrip(items[|items| - 1]); } else { NoCursor(); }
    var rows := Query(table, cursor, limit + 1);
    PageFollows(first, table, items, limit, rows);
    if |rows| > limit {
      assert rows[limit - 1] in table;
      CursorRoundTrip(rows[limit - 1]);
      if items != [] {
        assert BelowCursor(rows[limit - 1], cursor);
        NotItself(rows[limit - 1], items[|items| - 1]);
      }
    }
  }

  lemma NotItself(a: Row, b: Row)
    requires Less(a, b)
    ensures a != b
  {
  }

  /** The rows a page shows continue the list, and leave out nothing on the way down. */
  lemma PageFollows(first: set<Row>, table: set<Row>, items: seq<Row>, limit: nat, rows: seq<Row>)
    requires limit > 0 && first <= table && Decreasing(items) && (items == [] || Covered(first, items))
    requires var cursor := if items == [] then None else Some(items[|items| - 1]);
             rows == Query(table, cursor, limit + 1)
    ensures var shown := if |rows| <= limit then rows else rows[..limit];
            && Decreasing(items + shown)
            && (if |rows| <= limit then forall r :: r in first ==> r in items + shown
                else Covered(first, items + shown))
  {
    hide Query;
    var shown := if |rows| <= limit then rows else rows[..limit];
    forall i, j | 0 <= i < j < |items + shown| ensures Less((items + shown)[j], (items + shown)[i]) {
      if i < |items| <= j { assert BelowCursor(shown[j - |items|], Some(items[|items| - 1])); }
    }
    if |rows| > limit {
      forall r | r in first && r !in items + shown ensures Less(r, shown[limit - 1]) {
        if r in rows { assert r == rows[limit]; }
      }
      assert (items + shown)[|items + shown| - 1] == shown[limit - 1];
    }
  }

  lemma NoCursor()
    ensures ParseCursor(None) == Ok(None)
  {
  }

  /** The server answers the `i`-th request from the table as it is by then: it only ever grows. */
  ghost predicate Served(fetch: (nat, Option<string>) -> Page, tables: nat -> set<Row>, limit: nat)
    requires limit > 0
  {
    && (forall i: nat, before :: fetch(i, before) == Serve(tables(i), before, limit))
    && (forall i: nat, j: nat :: i <= j ==> tables(i) <= tables(j))
    && (forall i: nat, r :: r in tables(i) ==> Addressable(r))
  }

  /** Rows added after the first request are newer than all that were there. */
  ghost predicate OnlyNewer(tables: nat -> set<Row>) {
    forall i: nat, r, x :: r in tables(i) && r !in tables(0) && x in tables(0) ==> Less(x, r)
  }

  lemma PageOfFirst(tables: nat -> set<Row>, i: nat, items: seq<Row>, more: seq<Row>)
    requires Decreasing(items + more) && (items == [] ==> i == 0)
    requires forall k :: 0 <= k < |more| ==> more[k] in tables(i)
    requires OnlyNewer(tables) ==> forall r :: r in items ==> r in tables(0)
    ensures OnlyNewer(tables) ==> forall r :: r in more ==> r in tables(0)
  {
    if OnlyNewer(tables) && items != [] {
      var n := |items|;
      forall k | 0 <= k < |more| ensures more[k] in tables(0) {
        assert (items + more)[n - 1] == items[n - 1] && (items + more)[n + k] == more[k];
        assert Less(more[k], items[n - 1]);
        assert items[n - 1] in items && items[n - 1] in tables(0);
      }
    }
  }

  /** Each page ends strictly below the one before: by time, or at the same time by id. */
  lemma NextIsLower(last: Row, items: seq<Row>, more: seq<Row>)
    requires more != [] && Decreasing(items + more)
    requires if items == [] then last == Row(TEN_TO_17, 0) else last == items[|items| - 1]
    requires forall k :: 0 <= k < |more| ==> Addressable(more[k])
    ensures var next := more[|more| - 1];
            0 <= next.time && 0 <= next.id && (next.time < last.time || (next.time == last.time && next.id < last.id))
  {
    if items != [] {
      var all := items + more;
      assert all[|items| - 1] == last && all[|all| - 1] == more[|more| - 1];
      assert Less(all[|all| - 1], all[|items| - 1]);
    }
  }

  /** Where the walk stands before a request. */
  ghost predicate Walked(tables: nat -> set<Row>, requests: nat, items: seq<Row>, cursor: Option<string>, last: Row) {
    && Decreasing(items)
    && (forall r :: r in items ==> r in tables(requests))
    && (OnlyNewer(tables) ==> forall r :: r in items ==> r in tables(0))
    && (if items == [] then cursor == None && requests == 0 && last == Row(TEN_TO_17, 0)
        else
          && Covered(tables(0), items) && last == items[|items| - 1] && Addressable(last)
          && cursor == Some(FormatCursor(last)))
  }

  /** What one request makes of it. */
  lemma WalkOn(fetch: (nat, Option<string>) -> Page, tables: nat -> set<Row>, limit: nat, requests: nat,
               items: seq<Row>, cursor: Option<string>, last: Row)
    requires limit > 0 && Served(fetch, tables, limit) && Walked(tables, requests, items, cursor, last)
    ensures fetch(requests, cursor).Page?
    ensures var page := fetch(requests, cursor);
            var all := items + page.items;
            if page.next.None? then
              && Decreasing(all) && (forall r :: r in tables(0) ==> r in all) && (forall r :: r in all ==> r in tables(requests))
              && (OnlyNewer(tables) ==> forall r :: r in all ==> r in tables(0))
            else
              && page.next != cursor && page.items != []
              && var next := page.items[|page.items| - 1];
                 && Walked(tables, requests + 1, all, page.next, next)
                 && 0 <= next.time && 0 <= next.id
                 && (next.time < last.time || (next.time == last.time && next.id < last.id))
  {
    hide Serve, Less, FormatCursor, OnlyNewer;
    assert fetch(requests, cursor) == Serve(tables(requests), cursor, limit);
    assert tables(0) <= tables(requests) <= tables(requests + 1);
    PageExtends(tables(0), tables(requests), items, limit);
    var page := fetch(requests, cursor);
    PageOfFirst(tables, requests, items, page.items);
    if page.next.Some? {
      var all := items + page.items;
      assert all[|all| - 1] == page.items[|page.items| - 1];
      assert page.items[|page.items| - 1] in tables(requests);
      NextIsLower(last, items, page.items);
    }
    hide Covered, Addressable;
  }

  /** `allPages`.  Every row of the table as it was at the first request is listed exactly once, in strictly
      decreasing order, wherever rows are inserted meanwhile; nothing is listed that never was in the table; if only
      newer rows are inserted, exactly the first table is listed.  It ends, and never with an error: no cursor is
      refused or repeated. */
  method AllPages(fetch: (nat, Option<string>) -> Page, ghost tables: nat -> set<Row>, limit: nat)
    returns (result: Option<seq<Row>>, requests: nat)
    requires limit > 0 && Served(fetch, tables, limit)
    ensures result.Some? && Decreasing(result.value)
    ensures forall r :: r in tables(0) ==> r in result.value
    ensures forall r :: r in result.value ==> r in tables(requests)
    ensures OnlyNewer(tables) ==> forall r :: r in result.value ==> r in tables(0)
  {
    hide Walked, Served, OnlyNewer, Decreasing;
    var items: seq<Row> := [];
    var cursor: Option<string> := None;
    requests := 0;
    ghost var last := Row(TEN_TO_17, 0);
    WalkStarts(tables);
    while true
      invariant Walked(tables, requests, items, cursor, last) && last.time >= 0 && last.id >= 0
      decreases last.time, last.id
    {
      WalkOn(fetch, tables, limit, requests, items, cursor, last);
      var page := fetch(requests, cursor);
      items := items + page.items;
      if page.next.Some? && page.next == cursor { return None, requests; }
      cursor := page.next;
      if cursor.None? { return Some(items), requests; }
      last := page.items[|page.items| - 1];
      requests := requests + 1;
    }
  }

  lemma WalkStarts(tables: nat -> set<Row>)
    ensures Walked(tables, 0, [], None, Row(TEN_TO_17, 0))
  {
  }
}
