/** The CSV reader of the employee import. */
module EmployeeCsv {
  // Character by character, on UTF-16 code units as the browser has them.

  type Text = seq<int>
  type Table = seq<seq<Text>>

  const QUOTE := 34
  const COMMA := 44
  const LF := 10
  const CR := 13
  const BOM := 0xFEFF
  const MAXIMUM_BYTES := 65536

  datatype Result = Rows(rows: Table) | TooLarge | InvalidQuotedField | UnfinishedQuotedField

  /** What `trim` removes and `\s` matches. */
  predicate White(c: int) {
    || 9 <= c <= 13 || c == 32 || c == 0xA0 || c == 0x1680 || 0x2000 <= c <= 0x200A || c == 0x2028 || c == 0x2029
    || c == 0x202F || c == 0x205F || c == 0x3000 || c == BOM
  }

  predicate Trimmed(s: Text) { s == [] || (!White(s[0]) && !White(s[|s| - 1])) }

  function TrimStart(s: Text): (r: Text)
    ensures r == [] || !White(r[0])
    ensures s != [] && !White(s[0]) ==> r == s
  {
    if s != [] && White(s[0]) then TrimStart(s[1..]) else s
  }

  function TrimEnd(s: Text): (r: Text)
    ensures r <= s && (r == [] || !White(r[|r| - 1]))
    ensures s != [] && !White(s[|s| - 1]) ==> r == s
  {
    if s != [] && White(s[|s| - 1]) then TrimEnd(s[..|s| - 1]) else s
  }

  function Trim(s: Text): (r: Text)
    ensures Trimmed(r) && (Trimmed(s) ==> r == s)
  {
    TrimEnd(TrimStart(s))
  }

  /** The length in bytes of the text encoded as UTF-8; a lone surrogate counts as U+FFFD. */
  function Utf8Length(s: Text): nat {
    if s == [] then 0
    else if s[0] < 0x80 then 1 + Utf8Length(s[1..])
    else if s[0] < 0x800 then 2 + Utf8Length(s[1..])
    else if 0xD800 <= s[0] < 0xDC00 && |s| > 1 && 0xDC00 <= s[1] < 0xE000 then 4 + Utf8Length(s[2..])
    else 3 + Utf8Length(s[1..])
  }

  // ---- The reader ----

  datatype State = State(rows: Table, row: seq<Text>, field: Text, quoted: bool, ended: bool)

  const START := State([], [], [], false, false)

  predicate Blank(row: seq<Text>) { forall i :: 0 <= i < |row| ==> row[i] == [] }

  /** The field ends: it is added to its row, trimmed. */
  function EndField(st: State): State { st.(row := st.row + [Trim(st.field)], field := [], ended := false) }

  /** The row ends: it is kept unless all its fields are empty. */
  function EndRow(st: State): State { st.(rows := if Blank(st.row) then st.rows else st.rows + [st.row], row := []) }

  function Finish(st: State): Result {
    if st.quoted then UnfinishedQuotedField else Rows(EndRow(EndField(st)).rows)
  }

  /** Reading what is left of the text. */
  function Scan(rest: Text, st: State): Result
    decreases |rest|
  {
    if rest == [] then Finish(st)
    else
      var c := rest[0];
      if st.quoted then
        if c == QUOTE && |rest| > 1 && rest[1] == QUOTE then Scan(rest[2..], st.(field := st.field + [QUOTE]))
        else if c == QUOTE then Scan(rest[1..], st.(quoted := false, ended := true))
        else Scan(rest[1..], st.(field := st.field + [c]))
      else if c == QUOTE && st.field == [] && !st.ended then Scan(rest[1..], st.(quoted := true))
      else if c == COMMA then Scan(rest[1..], EndField(st))
      else if c == CR && |rest| > 1 && rest[1] == LF then Scan(rest[2..], EndRow(EndField(st)))
      else if c == CR || c == LF then Scan(rest[1..], EndRow(EndField(st)))
      else if c == QUOTE || (st.ended && !White(c)) then InvalidQuotedField
      else Scan(rest[1..], if st.ended then st else st.(field := st.field + [c]))
  }

  function WithoutBom(text: Text): Text { if text != [] && text[0] == BOM then text[1..] else text }

  function Parsed(text: Text): Result {
    if Utf8Length(text) > MAXIMUM_BYTES then TooLarge else Scan(WithoutBom(text), START)
  }

  method Utf8Bytes(text: Text) returns (n: nat)
    ensures n == Utf8Length(text)
  {
    n := 0;
    var i := 0;
    while i < |text|
      invariant 0 <= i <= |text|
      invariant n + Utf8Length(text[i..]) == Utf8Length(text)
    {
      var c := text[i];
      var pair := 0xD800 <= c < 0xDC00 && i + 1 < |text| && 0xDC00 <= text[i + 1] < 0xE000;
      assert text[i..][1..] == text[i + 1..];
      assert pair ==> text[i..][2..] == text[i + 2..];
      n := n + if c < 0x80 then 1 else if c < 0x800 then 2 else if pair then 4 else 3;
      i := i + if pair then 2 else 1;
    }
  }

  /** `csvRows` */
  method CsvRows(input: Text) returns (r: Result)
    ensures r == Parsed(input)
  {
    hide Scan, Trim, Blank;
    var bytes := Utf8Bytes(input);
    if bytes > MAXIMUM_BYTES { return TooLarge; }
    var text := input;
    if text != [] && text[0] == BOM { text := text[1..]; }
    var rows: Table, row: seq<Text>, field: Text, quoted, ended := [], [], [], false, false;
    var index := 0;
    assert text[0..] == text;
    while index < |text|
      invariant 0 <= index <= |text|
      invariant Scan(text[index..], State(rows, row, field, quoted, ended)) == Scan(text, START)
    {
      ScanNext(text, index, State(rows, row, field, quoted, ended));
      var c, two := text[index], index + 1 < |text|;
      index := index + 1;
      if quoted {
        if c == QUOTE && two && text[index] == QUOTE {
          field := field + [QUOTE];
          index := index + 1;
        } else if c == QUOTE {
          quoted, ended := false, true;
        } else {
          field := field + [c];
        }
      } else if c == QUOTE && field == [] && !ended {
        quoted := true;
      } else if c == COMMA || c == LF || c == CR {
        row := row + [Trim(field)];
        field, ended := [], false;
        if c != COMMA {
          if c == CR && two && text[index] == LF { index := index + 1; }
          if !Blank(row) { rows := rows + [row]; }
          row := [];
        }
      } else if c == QUOTE || (ended && !White(c)) {
        return InvalidQuotedField;
      } else if !ended {
        field := field + [c];
      }
    }
    ScanEnd(State(rows, row, field, quoted, ended));
    assert text[index..] == [];
    if quoted { return UnfinishedQuotedField; }
    row := row + [Trim(field)];
    if !Blank(row) { rows := rows + [row]; }
    return Rows(rows);
  }

  lemma ScanEnd(st: State)
    ensures Scan([], st) == Finish(st)
  {
  }

  /** One step of the reader, on the text from `i` on. */
  lemma ScanNext(text: Text, i: nat, st: State)
    requires i < |text|
    ensures var c, two := text[i], i + 1 < |text|;
            Scan(text[i..], st) ==
              if st.quoted then
                if c == QUOTE && two && text[i + 1] == QUOTE then Scan(text[i + 2..], st.(field := st.field + [QUOTE]))
                else if c == QUOTE then Scan(text[i + 1..], st.(quoted := false, ended := true))
                else Scan(text[i + 1..], st.(field := st.field + [c]))
              else if c == QUOTE && st.field == [] && !st.ended then Scan(text[i + 1..], st.(quoted := true))
              else if c == COMMA then Scan(text[i + 1..], EndField(st))
              else if c == CR && two && text[i + 1] == LF then Scan(text[i + 2..], EndRow(EndField(st)))
              else if c == CR || c == LF then Scan(text[i + 1..], EndRow(EndField(st)))
              else if c == QUOTE || (st.ended && !White(c)) then InvalidQuotedField
              else Scan(text[i + 1..], if st.ended then st else st.(field := st.field + [c]))
  {
    hide EndField, EndRow, White;
    assert text[i..][1..] == text[i + 1..];
    if i + 1 < |text| { assert text[i..][2..] == text[i + 2..]; }
  }

  // ---- Printing ----

  /** Every quote doubled (section 2 of RFC 4180). */
  function Escape(f: Text): Text {
    if f == [] then [] else (if f[0] == QUOTE then [QUOTE, QUOTE] else [f[0]]) + Escape(f[1..])
  }

  function Quoted(f: Text): Text { [QUOTE] + Escape(f) + [QUOTE] }

  function PrintRow(row: seq<Text>): Text
    requires row != []
  {
    if |row| == 1 then Quoted(row[0]) + [CR, LF] else Quoted(row[0]) + [COMMA] + PrintRow(row[1..])
  }

  predicate Printable(t: Table) { forall i :: 0 <= i < |t| ==> t[i] != [] }

  function Print(t: Table): Text
    requires Printable(t)
  {
    if t == [] then [] else PrintRow(t[0]) + Print(t[1..])
  }

  /** A table as the reader leaves it: all fields trimmed, a non-empty field in every row. */
  predicate Normal(t: Table) {
    forall i :: 0 <= i < |t| ==> !Blank(t[i]) && forall j :: 0 <= j < |t[i]| ==> Trimmed(t[i][j])
  }

  lemma ScanOne(c: int, rest: Text, st: State)
    requires st.quoted && c != QUOTE
    ensures Scan([c] + rest, st) == Scan(rest, st.(field := st.field + [c]))
  {
    assert ([c] + rest)[1..] == rest;
  }

  lemma ScanTwoQuotes(rest: Text, st: State)
    requires st.quoted
    ensures Scan([QUOTE, QUOTE] + rest, st) == Scan(rest, st.(field := st.field + [QUOTE]))
  {
    assert ([QUOTE, QUOTE] + rest)[2..] == rest;
  }

  lemma ScanEndQuote(rest: Text, st: State)
    requires st.quoted && (rest == [] || rest[0] != QUOTE)
    ensures Scan([QUOTE] + rest, st) == Scan(rest, st.(quoted := false, ended := true))
  {
    assert ([QUOTE] + rest)[1..] == rest;
  }

  lemma ScanComma(rest: Text, st: State)
    requires !st.quoted
    ensures Scan([COMMA] + rest, st) == Scan(rest, EndField(st))
  {
    hide EndField;
    assert ([COMMA] + rest)[1..] == rest;
  }

  lemma ScanCrLf(rest: Text, st: State)
    requires !st.quoted
    ensures Scan([CR, LF] + rest, st) == Scan(rest, EndRow(EndField(st)))
  {
    hide EndField, EndRow;
    assert ([CR, LF] + rest)[2..] == rest;
  }

  lemma {:induction false} ScanEscaped(f: Text, rest: Text, st: State)
    requires st.quoted && (rest == [] || rest[0] != QUOTE)
    ensures Scan(Escape(f) + [QUOTE] + rest, st) == Scan(rest, st.(field := st.field + f, quoted := false, ended := true))
    decreases f
  {
    hide Scan;
    if f == [] {
      ScanEndQuote(rest, st);
      assert Escape(f) + [QUOTE] + rest == [QUOTE] + rest;
      assert st.field + f == st.field;
    } else {
      var tail, next := Escape(f[1..]) + [QUOTE] + rest, st.(field := st.field + [f[0]]);
      ScanEscaped(f[1..], rest, next);
      assert next.field + f[1..] == st.field + f;
      if f[0] == QUOTE {
        assert Escape(f) + [QUOTE] + rest == [QUOTE, QUOTE] + tail;
        ScanTwoQuotes(tail, st);
      } else {
        assert Escape(f) + [QUOTE] + rest == [f[0]] + tail;
        ScanOne(f[0], tail, st);
      }
    }
  }

  /** A quoted field is read as what it was made from. */
  lemma ScanQuoted(f: Text, rest: Text, st: State)
    requires !st.quoted && !st.ended && st.field == [] && rest != [] && rest[0] != QUOTE
    ensures Scan(Quoted(f) + rest, st) == Scan(rest, st.(field := f, ended := true))
  {
    var all := Quoted(f) + rest;
    assert all[1..] == Escape(f) + [QUOTE] + rest;
    ScanEscaped(f, rest, st.(quoted := true));
    assert [] + f == f;
  }

  lemma {:induction false} ScanRow(row: seq<Text>, rest: Text, st: State)
    requires row != [] && forall j :: 0 <= j < |row| ==> Trimmed(row[j])
    requires !st.quoted && !st.ended && st.field == []
    ensures Scan(PrintRow(row) + rest, st) == Scan(rest, EndRow(st.(row := st.row + row)))
    decreases row
  {
    hide Scan, EndRow, Trimmed, Trim, Blank, Quoted;
    var f := row[0];
    FieldTrimmed(row);
    if |row| == 1 {
      var more := [CR, LF] + rest;
      assert PrintRow(row) + rest == Quoted(f) + more;
      ScanQuoted(f, more, st);
      ScanCrLf(rest, st.(field := f, ended := true));
      assert st.row + [f] == st.row + row;
    } else {
      var tail := PrintRow(row[1..]) + rest;
      assert PrintRow(row) + rest == Quoted(f) + ([COMMA] + tail);
      ScanQuoted(f, [COMMA] + tail, st);
      ScanComma(tail, st.(field := f, ended := true));
      ScanRow(row[1..], rest, st.(row := st.row + [f]));
      assert st.row + [f] + row[1..] == st.row + row;
    }
  }

  lemma FieldTrimmed(row: seq<Text>)
    requires row != [] && forall j :: 0 <= j < |row| ==> Trimmed(row[j])
    ensures Trim(row[0]) == row[0]
  {
  }

  lemma {:induction false} ScanTable(t: Table, before: Table)
    requires Normal(t) && Printable(t)
    ensures Scan(Print(t), State(before, [], [], false, false)) == Rows(before + t)
    decreases t
  {
    hide Trimmed, Scan, PrintRow;
    if t == [] {
      ScanEnd(State(before, [], [], false, false));
      assert Blank([Trim([])]);
      assert before + t == before;
    } else {
      ScanRow(t[0], Print(t[1..]), State(before, [], [], false, false));
      assert [] + t[0] == t[0];
      ScanTable(t[1..], before + [t[0]]);
      assert before + [t[0]] + t[1..] == before + t;
    }
  }

  /** Reading undoes printing: a table of trimmed fields with a non-empty field in every row, printed with every field
      quoted, is read back as it was if it is not too large. */
  lemma ReadingUndoesPrinting(t: Table)
    requires Normal(t) && Printable(t)
    ensures Parsed(Print(t)) == if Utf8Length(Print(t)) > MAXIMUM_BYTES then TooLarge else Rows(t)
  {
    hide Scan, Normal;
    PrintsNoBom(t);
    ScanTable(t, []);
    assert [] + t == t;
  }

  lemma PrintsNoBom(t: Table)
    requires Printable(t)
    ensures WithoutBom(Print(t)) == Print(t)
  {
  }

  /** Whatever is read is such a table. */
  lemma {:induction false} ScanIsNormal(rest: Text, st: State)
    requires Normal(st.rows) && forall j :: 0 <= j < |st.row| ==> Trimmed(st.row[j])
    ensures var r := Scan(rest, st); r.Rows? ==> Normal(r.rows)
    decreases |rest|
  {
    hide White, Trimmed, Blank, Trim;
    TrimIsTrimmed(st.field);
    if rest == [] {
    } else {
      var c := rest[0];
      if st.quoted {
        if c == QUOTE && |rest| > 1 && rest[1] == QUOTE { ScanIsNormal(rest[2..], st.(field := st.field + [QUOTE])); }
        else if c == QUOTE { ScanIsNormal(rest[1..], st.(quoted := false, ended := true)); }
        else { ScanIsNormal(rest[1..], st.(field := st.field + [c])); }
      } else if c == QUOTE && st.field == [] && !st.ended { ScanIsNormal(rest[1..], st.(quoted := true)); }
      else if c == COMMA { ScanIsNormal(rest[1..], EndField(st)); }
      else if c == CR && |rest| > 1 && rest[1] == LF { ScanIsNormal(rest[2..], EndRow(EndField(st))); }
      else if c == CR || c == LF { ScanIsNormal(rest[1..], EndRow(EndField(st))); }
      else if c == QUOTE || (st.ended && !White(c)) {}
      else { ScanIsNormal(rest[1..], if st.ended then st else st.(field := st.field + [c])); }
    }
  }

  lemma TrimIsTrimmed(s: Text)
    ensures Trimmed(Trim(s))
  {
  }

  lemma NormalIsPrintable(t: Table)
    requires Normal(t)
    ensures Printable(t)
  {
  }

  /** So reading, printing and reading again changes nothing, whatever the text: however it was quoted, spaced and
      ended, with or without blank rows. */
  lemma ReadingIsStable(text: Text)
    requires Parsed(text).Rows?
    ensures var t := Parsed(text).rows;
            && Normal(t) && Printable(t)
            && (Utf8Length(Print(t)) <= MAXIMUM_BYTES ==> Parsed(Print(t)) == Parsed(text))
  {
    ScanIsNormal(WithoutBom(text), START);
    NormalIsPrintable(Parsed(text).rows);
    ReadingUndoesPrinting(Parsed(text).rows);
    hide Scan, Normal, Print;
  }

  // ---- Unquoted text ----

  /** Nothing in the text quotes a field or ends it. */
  predicate Plain(f: Text) { forall i :: 0 <= i < |f| ==> f[i] != QUOTE && f[i] != COMMA && f[i] != CR && f[i] != LF }

  predicate PlainTable(t: Table) {
    forall i :: 0 <= i < |t| ==> t[i] != [] && forall j :: 0 <= j < |t[i]| ==> Plain(t[i][j])
  }

  /** Trimming takes away white space at both ends and nothing else. */
  lemma TrimMeans(s: Text)
    ensures exists i, j :: 0 <= i <= j <= |s| && Trim(s) == s[i..j]
                           && forall k :: 0 <= k < i || j <= k < |s| ==> White(s[k])
    ensures Trimmed(Trim(s))
  {
    var i := TrimStartMeans(s);
    var j := TrimEndMeans(s[i..]);
    assert s[i..][..j] == s[i..i + j];
    forall k | 0 <= k < i || i + j <= k < |s| ensures White(s[k]) {
      if k >= i { assert s[i..][k - i] == s[k]; }
    }
  }

  lemma {:induction false} TrimStartMeans(s: Text) returns (i: nat)
    ensures i <= |s| && TrimStart(s) == s[i..] && forall k :: 0 <= k < i ==> White(s[k])
  {
    i := 0;
    if s != [] && White(s[0]) {
      var rest := TrimStartMeans(s[1..]);
      i := rest + 1;
      assert s[1..][rest..] == s[i..];
      forall k | 0 <= k < i ensures White(s[k]) { if k > 0 { assert s[1..][k - 1] == s[k]; } }
    }
  }

  lemma {:induction false} TrimEndMeans(s: Text) returns (j: nat)
    ensures j <= |s| && TrimEnd(s) == s[..j] && forall k :: j <= k < |s| ==> White(s[k])
  {
    j := |s|;
    if s != [] && White(s[|s| - 1]) {
      j := TrimEndMeans(s[..|s| - 1]);
      assert s[..|s| - 1][..j] == s[..j];
      forall k | j <= k < |s| ensures White(s[k]) { if k < |s| - 1 { assert s[..|s| - 1][k] == s[k]; } }
    }
  }

  function TrimAll(row: seq<Text>): (r: seq<Text>)
    ensures |r| == |row| && forall j :: 0 <= j < |row| ==> r[j] == Trim(row[j])
  {
    seq(|row|, j requires 0 <= j < |row| => Trim(row[j]))
  }

  /** A row with its fields trimmed, unless it is blank then. */
  function KeptRow(row: seq<Text>): Table { if Blank(TrimAll(row)) then [] else [TrimAll(row)] }

  function Kept(t: Table): Table { if t == [] then [] else KeptRow(t[0]) + Kept(t[1..]) }

  function PlainRow(row: seq<Text>): Text
    requires row != []
  {
    if |row| == 1 then row[0] else row[0] + [COMMA] + PlainRow(row[1..])
  }

  /** The three ways a line can end. */
  predicate LineEnd(end: Text) { end == [LF] || end == [CR] || end == [CR, LF] }

  function Lines(t: Table, end: Text): Text
    requires PlainTable(t)
  {
    if t == [] then [] else PlainRow(t[0]) + end + Lines(t[1..], end)
  }

  lemma ScanPlainOne(c: int, rest: Text, st: State)
    requires !st.quoted && !st.ended && Plain([c])
    ensures Scan([c] + rest, st) == Scan(rest, st.(field := st.field + [c]))
  {
    assert ([c] + rest)[1..] == rest && [c][0] == c;
  }

  lemma {:induction false} ScanPlain(f: Text, rest: Text, st: State)
    requires !st.quoted && !st.ended && Plain(f)
    ensures Scan(f + rest, st) == Scan(rest, st.(field := st.field + f))
    decreases f
  {
    hide Scan;
    if f == [] {
      assert f + rest == rest && st.field + f == st.field;
    } else {
      assert f + rest == [f[0]] + (f[1..] + rest);
      ScanPlainOne(f[0], f[1..] + rest, st);
      ScanPlain(f[1..], rest, st.(field := st.field + [f[0]]));
      assert st.field + [f[0]] + f[1..] == st.field + f;
    }
  }

  lemma ScanLineEnd(end: Text, rest: Text, st: State)
    requires !st.quoted && LineEnd(end) && (end == [CR] ==> rest == [] || rest[0] != LF)
    ensures Scan(end + rest, st) == Scan(rest, EndRow(EndField(st)))
  {
    hide EndField, EndRow;
    assert (end + rest)[|end|..] == rest;
  }

  /** A row of unquoted fields, up to the end of its last field. */
  lemma {:induction false} ScanPlainRow(row: seq<Text>, rest: Text, st: State)
    requires row != [] && forall j :: 0 <= j < |row| ==> Plain(row[j])
    requires !st.quoted && !st.ended && st.field == []
    ensures Scan(PlainRow(row) + rest, st)
            == Scan(rest, st.(row := st.row + TrimAll(row)[..|row| - 1], field := row[|row| - 1]))
    decreases row
  {
    hide Scan, Trim, Plain;
    var f, n := row[0], |row| - 1;
    if n == 0 {
      ScanPlain(f, rest, st);
      assert [] + f == f && st.row + TrimAll(row)[..0] == st.row;
    } else {
      var tail := PlainRow(row[1..]) + rest;
      assert PlainRow(row) + rest == f + ([COMMA] + tail);
      ScanPlain(f, [COMMA] + tail, st);
      assert [] + f == f;
      ScanComma(tail, st.(field := f));
      ScanPlainRow(row[1..], rest, st.(row := st.row + [Trim(f)]));
      assert st.row + [Trim(f)] + TrimAll(row[1..])[..n - 1] == st.row + TrimAll(row)[..n];
    }
  }

  lemma RowEnds(row: seq<Text>, st: State)
    requires row != [] && st.rows == st.rows && st.row == TrimAll(row)[..|row| - 1] && st.field == row[|row| - 1]
    ensures EndField(st).row == TrimAll(row)
  {
    assert TrimAll(row)[..|row| - 1] + [Trim(row[|row| - 1])] == TrimAll(row);
  }

  /** Text that starts a line of unquoted fields does not start with a line feed. */
  lemma LinesStart(t: Table, end: Text, rest: Text)
    requires PlainTable(t) && end == [CR] && (rest == [] || rest[0] != LF)
    ensures var text := Lines(t, end) + rest; text == [] || text[0] != LF
  {
    if t != [] { RowStart(t[0], end + Lines(t[1..], end) + rest); }
  }

  lemma RowStart(row: seq<Text>, more: Text)
    requires row != [] && (forall j :: 0 <= j < |row| ==> Plain(row[j])) && more != [] && more[0] != LF
    ensures (PlainRow(row) + more)[0] != LF
  {
    assert Plain(row[0]);
  }

  lemma ScanLine(row: seq<Text>, end: Text, tail: Text, before: Table)
    requires row != [] && (forall j :: 0 <= j < |row| ==> Plain(row[j])) && LineEnd(end)
    requires end == [CR] ==> tail == [] || tail[0] != LF
    ensures Scan(PlainRow(row) + (end + tail), State(before, [], [], false, false))
            == Scan(tail, State(before + KeptRow(row), [], [], false, false))
  {
    hide Scan, PlainRow, Trim, Plain, Blank, LineEnd;
    assert before + [] == before;
    ScanPlainRow(row, end + tail, State(before, [], [], false, false));
    var last := State(before, TrimAll(row)[..|row| - 1], row[|row| - 1], false, false);
    assert [] + TrimAll(row)[..|row| - 1] == TrimAll(row)[..|row| - 1];
    ScanLineEnd(end, tail, last);
    RowEnds(row, last);
  }

  lemma {:induction false} ScanLines(t: Table, end: Text, rest: Text, before: Table)
    requires PlainTable(t) && LineEnd(end) && (end == [CR] ==> rest == [] || rest[0] != LF)
    ensures Scan(Lines(t, end) + rest, State(before, [], [], false, false))
            == Scan(rest, State(before + Kept(t), [], [], false, false))
    decreases t
  {
    hide Scan, PlainRow, Plain, KeptRow;
    if t == [] {
      assert Lines(t, end) + rest == rest && before + Kept(t) == before;
    } else {
      var tail, more := Lines(t[1..], end) + rest, KeptRow(t[0]);
      assert Lines(t, end) + rest == PlainRow(t[0]) + (end + tail);
      if end == [CR] { LinesStart(t[1..], end, rest); }
      ScanLine(t[0], end, tail, before);
      ScanLines(t[1..], end, rest, before + more);
      assert before + more + Kept(t[1..]) == before + Kept(t);
    }
  }

  predicate Small(text: Text) { Utf8Length(text) <= MAXIMUM_BYTES }

  /** Unquoted text is read line by line, whichever way its lines end and whether or not the last one does: fields are
      what stands between commas, trimmed; blank rows are left out; a byte order mark in front is ignored. */
  lemma PlainTextIsRead(t: Table, end: Text, last: seq<Text>)
    requires PlainTable(t) && LineEnd(end) && PlainTable([last])
    ensures var text := Lines(t, end) + PlainRow([last][0]);
            (text == [] || text[0] != BOM) ==>
              && (Small(text) ==> Parsed(text) == Rows(Kept(t + [last])))
              && (Small([BOM] + text) ==> Parsed([BOM] + text) == Rows(Kept(t + [last])))
  {
    hide Scan, Kept, Utf8Length, Plain, Trim, Blank;
    assert [last][0] == last;
    var text, rows := Lines(t, end) + PlainRow(last), Kept(t);
    if end == [CR] { RowStart(last, [COMMA]); LastStart(last); }
    ScanLines(t, end, PlainRow(last), []);
    assert [] + rows == rows;
    ScanPlainRow(last, [], State(rows, [], [], false, false));
    assert PlainRow(last) + [] == PlainRow(last);
    var st := State(rows, TrimAll(last)[..|last| - 1], last[|last| - 1], false, false);
    assert [] + TrimAll(last)[..|last| - 1] == TrimAll(last)[..|last| - 1];
    ScanEnd(st);
    RowEnds(last, st);
    KeptLast(t, last);
    assert ([BOM] + text)[1..] == text;
  }

  lemma LastStart(last: seq<Text>)
    requires last != [] && forall j :: 0 <= j < |last| ==> Plain(last[j])
    ensures PlainRow(last) == [] || PlainRow(last)[0] != LF
  {
    assert Plain(last[0]);
  }

  lemma {:induction false} KeptLast(t: Table, last: seq<Text>)
    ensures Kept(t + [last]) == Kept(t) + KeptRow(last)
  {
    hide KeptRow;
    if t == [] {
      assert t + [last] == [last] && [last][1..] == [];
    } else {
      assert (t + [last])[1..] == t[1..] + [last];
      KeptLast(t[1..], last);
    }
  }

  lemma {:induction false} KeptNormal(t: Table)
    requires Normal(t)
    ensures Kept(t) == t
  {
    if t != [] {
      KeptNormal(t[1..]);
      assert TrimAll(t[0]) == t[0];
    }
  }

  /** In particular: a table of trimmed fields without quotes, commas and line ends, with a non-empty field in every
      row, printed without quotes, is read back unchanged. */
  lemma ReadingUndoesPlainPrinting(t: Table, end: Text)
    requires Normal(t) && PlainTable(t) && LineEnd(end)
    ensures Parsed(Lines(t, end)) == if Small(Lines(t, end)) then Rows(t) else TooLarge
  {
    hide Scan, Utf8Length, Lines, Normal, Kept, LineEnd, Plain;
    ReadPlain(t, end);
    PlainHasNoBom(t, end);
  }

  lemma ReadPlain(t: Table, end: Text)
    requires Normal(t) && PlainTable(t) && LineEnd(end)
    ensures Scan(Lines(t, end), START) == Rows(t)
  {
    hide Scan, Lines, Normal, Kept, LineEnd, Plain;
    ScanLines(t, end, [], []);
    assert Lines(t, end) + [] == Lines(t, end) && [] + t == t;
    KeptNormal(t);
    ScanEnd(State(t, [], [], false, false));
    assert Blank([Trim([])]);
  }

  lemma PlainHasNoBom(t: Table, end: Text)
    requires Normal(t) && PlainTable(t) && LineEnd(end)
    ensures WithoutBom(Lines(t, end)) == Lines(t, end)
  {
    hide PlainRow, Plain, Trimmed;
    if t != [] {
      assert Trimmed(t[0][0]);
      PlainStartsTrimmed(t[0], end + Lines(t[1..], end));
      assert Lines(t, end) == PlainRow(t[0]) + (end + Lines(t[1..], end));
    }
  }

  lemma PlainStartsTrimmed(row: seq<Text>, more: Text)
    requires row != [] && Trimmed(row[0]) && more != [] && more[0] != BOM
    ensures (PlainRow(row) + more)[0] != BOM
  {
  }

  // ---- What is refused ----

  /** A quote inside an unquoted field, at the start of a line. */
  lemma StrayQuoteIsRefused(t: Table, end: Text, f: Text, rest: Text)
    requires PlainTable(t) && LineEnd(end) && Plain(f) && f != []
    ensures var text := Lines(t, end) + (f + [QUOTE] + rest);
            Small(text) && text[0] != BOM ==> Parsed(text) == InvalidQuotedField
  {
    hide Kept, Utf8Length, Trim, Blank, PlainRow;
    ScanLines(t, end, f + [QUOTE] + rest, []);
    var st := State([] + Kept(t), [], [], false, false);
    assert f + [QUOTE] + rest == f + ([QUOTE] + rest);
    ScanPlain(f, [QUOTE] + rest, st);
    StrayQuote(rest, st.(field := [] + f));
  }

  lemma StrayQuote(rest: Text, st: State)
    requires !st.quoted && !st.ended && st.field != []
    ensures Scan([QUOTE] + rest, st) == InvalidQuotedField
  {
  }

  /** White space other than line ends. */
  predicate Spaces(w: Text) { forall i :: 0 <= i < |w| ==> White(w[i]) && w[i] != CR && w[i] != LF }

  lemma {:induction false} ScanSpaces(w: Text, rest: Text, st: State)
    requires !st.quoted && st.ended && Spaces(w)
    ensures Scan(w + rest, st) == Scan(rest, st)
    decreases w
  {
    if w == [] {
      assert w + rest == rest;
    } else {
      assert (w + rest)[1..] == w[1..] + rest && White(w[0]);
      ScanSpaces(w[1..], rest, st);
    }
  }

  /** After a quoted field anything but white space, a comma and a line end is refused. */
  lemma TextAfterAQuotedFieldIsRefused(t: Table, end: Text, f: Text, w: Text, rest: Text)
    requires PlainTable(t) && LineEnd(end) && Spaces(w) && rest != [] && (w != [] || rest[0] != QUOTE)
    requires !White(rest[0]) && rest[0] != COMMA
    ensures var text := Lines(t, end) + (Quoted(f) + (w + rest));
            Small(text) && text[0] != BOM ==> Parsed(text) == InvalidQuotedField
  {
    hide Kept, Utf8Length, Trim, Blank, PlainRow, Scan;
    var st := State([] + Kept(t), [], [], false, false);
    ScanLines(t, end, Quoted(f) + (w + rest), []);
    SpacesAreNoQuotes(w, rest);
    ScanQuoted(f, w + rest, st);
    ScanSpaces(w, rest, st.(field := f, ended := true));
    Refused(rest, st.(field := f, ended := true));
  }

  /** White space is passed over, and the field is trimmed like any other. */
  lemma SpacesAfterAQuotedField(t: Table, end: Text, f: Text, w: Text, next: seq<Text>)
    requires PlainTable(t) && LineEnd(end) && Spaces(w) && PlainTable([next])
    ensures var text := Lines(t, end) + (Quoted(f) + (w + ([COMMA] + PlainRow([next][0]))));
            Small(text) && text[0] != BOM ==> Parsed(text) == Rows(Kept(t + [[f] + next]))
  {
    hide Kept, Utf8Length, Trim, Blank, PlainRow, Scan;
    assert [next][0] == next;
    var rest := [COMMA] + PlainRow(next);
    var st := State(Kept(t), [], [], false, false);
    assert [] + Kept(t) == Kept(t);
    ScanLines(t, end, Quoted(f) + (w + rest), []);
    SpacesAreNoQuotes(w, rest);
    ScanQuoted(f, w + rest, st);
    ScanSpaces(w, rest, st.(field := f, ended := true));
    ScanComma(PlainRow(next), st.(field := f, ended := true));
    var after := State(Kept(t), [Trim(f)], [], false, false);
    assert [] + [Trim(f)] == [Trim(f)];
    ScanPlainRow(next, [], after);
    assert PlainRow(next) + [] == PlainRow(next);
    var row := [f] + next;
    var last := State(Kept(t), TrimAll(row)[..|row| - 1], row[|row| - 1], false, false);
    assert [Trim(f)] + TrimAll(next)[..|next| - 1] == TrimAll(row)[..|row| - 1];
    ScanEnd(last);
    RowEnds(row, last);
    KeptLast(t, row);
  }

  lemma SpacesAreNoQuotes(w: Text, rest: Text)
    requires Spaces(w) && rest != [] && (w != [] || rest[0] != QUOTE)
    ensures (w + rest)[0] != QUOTE
  {
    if w != [] { assert White(w[0]); }
  }

  lemma Refused(rest: Text, st: State)
    requires rest != [] && !st.quoted && st.ended && rest[0] != COMMA && rest[0] != CR && rest[0] != LF && !White(rest[0])
    ensures Scan(rest, st) == InvalidQuotedField
  {
  }

  /** A quote that is never closed. */
  lemma OpenQuoteIsRefused(t: Table, end: Text, f: Text)
    requires PlainTable(t) && LineEnd(end)
    ensures var text := Lines(t, end) + ([QUOTE] + Escape(f));
            Small(text) && text[0] != BOM ==> Parsed(text) == UnfinishedQuotedField
  {
    hide Kept, Utf8Length, Trim, Blank, PlainRow;
    ScanLines(t, end, [QUOTE] + Escape(f), []);
    assert ([QUOTE] + Escape(f))[1..] == Escape(f);
    ScanOpen(f, State([] + Kept(t), [], [], true, false));
  }

  lemma {:induction false} ScanOpen(f: Text, st: State)
    requires st.quoted
    ensures Scan(Escape(f), st) == UnfinishedQuotedField
    decreases f
  {
    if f != [] {
      var tail := Escape(f[1..]);
      ScanOpen(f[1..], st.(field := st.field + [f[0]]));
      if f[0] == QUOTE {
        assert Escape(f) == [QUOTE, QUOTE] + tail;
        ScanTwoQuotes(tail, st);
      } else {
        assert Escape(f) == [f[0]] + tail;
        ScanOne(f[0], tail, st);
      }
    }
  }

  // ---- The size of a file ----

  /** The code points of UTF-16 text; half of a pair on its own becomes U+FFFD. */
  function CodePoints(s: Text): seq<int> {
    if s == [] then []
    else if 0xD800 <= s[0] < 0xDC00 && |s| > 1 && 0xDC00 <= s[1] < 0xE000
    then [0x10000 + 0x400 * (s[0] - 0xD800) + (s[1] - 0xDC00)] + CodePoints(s[2..])
    else if 0xD800 <= s[0] < 0xE000 then [0xFFFD] + CodePoints(s[1..])
    else [s[0]] + CodePoints(s[1..])
  }

  /** One code point in UTF-8 (section 3 of RFC 3629). */
  function Encoded(c: int): seq<int> {
    if c < 0x80 then [c]
    else if c < 0x800 then [0xC0 + c / 64, 0x80 + c % 64]
    else if c < 0x10000 then [0xE0 + c / 4096, 0x80 + c / 64 % 64, 0x80 + c % 64]
    else [0xF0 + c / 262144, 0x80 + c / 4096 % 64, 0x80 + c / 64 % 64, 0x80 + c % 64]
  }

  function Utf8(points: seq<int>): seq<int> {
    if points == [] then [] else Encoded(points[0]) + Utf8(points[1..])
  }

  /** The length that is checked is that of the text in UTF-8. */
  lemma {:induction false} LengthIsThatOfUtf8(s: Text)
    requires forall i :: 0 <= i < |s| ==> 0 <= s[i] < 0x10000
    ensures Utf8Length(s) == |Utf8(CodePoints(s))|
    decreases |s|
  {
    if s != [] {
      var pair := 0xD800 <= s[0] < 0xDC00 && |s| > 1 && 0xDC00 <= s[1] < 0xE000;
      var rest := if pair then s[2..] else s[1..];
      LengthIsThatOfUtf8(rest);
      assert CodePoints(s)[1..] == CodePoints(rest);
    }
  }
}
