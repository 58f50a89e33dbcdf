/** The cells of a visitor file. */
module VisitorCells {
  // How the code checks them, and what the checks come to in terms of the characters of a cell.

  import opened Options

  // ---- Cells ----

  type Digit = n: nat | n < 10

  /** What Python says of a character: a decimal digit, another digit ("²".isdigit() is true, int("²") is not
      defined), or no digit. */
  datatype DigitKind = Decimal(value: Digit) | OtherDigit | NoDigit

  /** The Unicode tables the code relies on. */
  datatype Unicode = Unicode(
    digit: char -> DigitKind, space: char -> bool, lower: string -> string, fold: string -> string)

  /** A row as read, its cells as stripped text; `Malformed` if it is no object or a cell is neither text nor a whole
      number. */
  datatype Raw =
    | Malformed
    | Raw(row: Option<int>, srNo: string, person: string, company: string, phone: string, email: string)

  datatype Code =
    | REQUIRED | TOO_LONG | INVALID_TEXT | INVALID_SR_NO | INVALID_PHONE | INVALID_EMAIL
    | DUPLICATE_SR_NO | DUPLICATE_PHONE | DUPLICATE_EMAIL

  datatype Column = COMPANY_NAME | EMAIL | PERSON_NAME | PHONE | SR_NO  // in the order of their titles

  datatype Problem = Problem(row: int, column: Column, code: Code)

  datatype Clean = Clean(
    row: int, srNo: Option<int>, person: Option<string>, company: Option<string>, phone: Option<string>,
    email: Option<string>)

  const MAX_ROWS := 200
  const MAX_INT_DIGITS := 4300  // int() refuses longer text

  datatype Outcome =
    | Checked(clean: seq<Clean>, problems: seq<Problem>)
    | VISITOR_FILE_EMPTY | VISITOR_FILE_TOO_MANY_ROWS | INVALID_VISITOR_ROWS
    | ValueError  // not caught

  datatype SrNo = Given(n: int) | Wrong | NoInt

  function DecimalValue(u: Unicode, s: string): int {
    if s == [] then 0
    else
      10 * DecimalValue(u, s[..|s| - 1]) + (if u.digit(s[|s| - 1]).Decimal? then u.digit(s[|s| - 1]).value else 0)
  }

  /** `isdigit()`, then `int()`, then the bounds */
  function ParseSrNo(u: Unicode, s: string): SrNo {
    if s == [] || exists i | 0 <= i < |s| :: u.digit(s[i]).NoDigit? then Wrong
    else if |s| > MAX_INT_DIGITS || exists i | 0 <= i < |s| :: u.digit(s[i]).OtherDigit? then NoInt
    else if DecimalValue(u, s) < 1 || |s| > 6 then Wrong
    else Given(DecimalValue(u, s))
  }

  predicate Control(c: char) { c as int < 32 }

  function TextProblem(s: string): Option<Code> {
    if s == [] then Some(REQUIRED)
    else if |s| > 150 then Some(TOO_LONG)
    else if exists i | 0 <= i < |s| :: Control(s[i]) || s[i] as int == 127 then Some(INVALID_TEXT)
    else None
  }

  predicate PhoneChar(c: char) { '0' <= c <= '9' || c in " ()-." }

  function PhoneDigits(s: string): string {
    if s == [] then []
    else PhoneDigits(s[..|s| - 1]) + if '0' <= s[|s| - 1] <= '9' then [s[|s| - 1]] else []
  }

  /** What `\+?` leaves of the text. */
  function AfterPlus(s: string): string { if s != [] && s[0] == '+' then s[1..] else s }

  predicate PhoneChars(s: string) { s != [] && forall i :: 0 <= i < |s| ==> PhoneChar(s[i]) }

  /** `normalize_phone` */
  predicate PhoneOk(s: string) {
    && 1 <= |s| <= 32
    && PhoneChars(AfterPlus(s))
    && 7 <= |PhoneDigits(s)| <= 15
  }

  /** `[^\s@]+@[^\s@]+\.[^\s@]+`: one at-sign with something before it, and a dot with something around it after it. */
  predicate EmailOk(u: Unicode, s: string) {
    && 1 <= |s| <= 254
    && (forall i :: 0 <= i < |s| ==> !Control(s[i]) && !u.space(s[i]))
    && exists at, dot | 0 < at < |s| && at < dot < |s| ::
         && s[at] == '@' && s[dot] == '.' && at + 1 < dot < |s| - 1
         && forall i :: 0 <= i < |s| && i != at ==> s[i] != '@'
  }

  // ---- One row ----

  function Number(raw: Raw, index: nat): int
    requires raw.Raw?
  {
    if raw.row.Some? && 1 <= raw.row.value <= 100_000 then raw.row.value else index + 2
  }

  function One(problem: Option<Code>, row: int, column: Column): seq<Problem> {
    if problem.Some? then [Problem(row, column, problem.value)] else []
  }

  function PhoneProblem(s: string): Option<Code> {
    if s == [] then Some(REQUIRED) else if !PhoneOk(s) then Some(INVALID_PHONE) else None
  }

  function EmailProblem(u: Unicode, s: string): Option<Code> {
    if s != [] && !EmailOk(u, s) then Some(INVALID_EMAIL) else None
  }

  /** What is wrong with a row by itself. */
  function Own(u: Unicode, raw: Raw, n: int): seq<Problem>
    requires raw.Raw?
  {
    One(if ParseSrNo(u, raw.srNo).Given? then None else Some(INVALID_SR_NO), n, SR_NO)
    + One(TextProblem(raw.person), n, PERSON_NAME) + One(TextProblem(raw.company), n, COMPANY_NAME)
    + One(PhoneProblem(raw.phone), n, PHONE) + One(EmailProblem(u, raw.email), n, EMAIL)
  }

  /** What is kept of it. */
  function Kept(u: Unicode, raw: Raw, n: int): Clean
    requires raw.Raw?
  {
    var sr := ParseSrNo(u, raw.srNo);
    Clean(n, if sr.Given? then Some(sr.n) else None,
          if TextProblem(raw.person).None? then Some(raw.person) else None,
          if TextProblem(raw.company).None? then Some(raw.company) else None,
          if PhoneProblem(raw.phone).None? then Some(raw.phone) else None,
          if raw.email != [] && EmailOk(u, raw.email) then Some(u.lower(raw.email)) else None)
  }

  predicate Readable(u: Unicode, raw: Raw) { raw.Raw? && !ParseSrNo(u, raw.srNo).NoInt? }

  predicate AllReadable(u: Unicode, rows: seq<Raw>) { forall i :: 0 <= i < |rows| ==> Readable(u, rows[i]) }

  // ---- Serial numbers, by their digits ----

  /** The decimal digit `k` places from the right; 0 to the left of the text. */
  function Place(u: Unicode, s: string, k: nat): nat {
    if k < |s| && u.digit(s[|s| - 1 - k]).Decimal? then u.digit(s[|s| - 1 - k]).value else 0
  }

  /** The texts are the same number: as many zeros may stand on the left as you like. */
  ghost predicate SameNumber(u: Unicode, s: string, t: string) { forall k: nat :: Place(u, s, k) == Place(u, t, k) }

  ghost predicate AllDecimal(u: Unicode, s: string) { forall i :: 0 <= i < |s| ==> u.digit(s[i]).Decimal? }

  /** One to six decimal digits, not all zero. */
  ghost predicate IsNumber(u: Unicode, s: string) {
    1 <= |s| <= 6 && AllDecimal(u, s) && exists k: nat :: Place(u, s, k) > 0
  }

  /** Reading the digits of `s` from the left, each making ten of what stood before it, comes to `n`. */
  ghost predicate ReadsAs(u: Unicode, s: string, n: int) {
    exists w: seq<int> ::
      && |w| == |s| + 1 && w[0] == 0 && w[|s|] == n
      && forall i :: 0 <= i < |s| ==> u.digit(s[i]).Decimal? && w[i + 1] == 10 * w[i] + u.digit(s[i]).value
  }

  lemma DecimalStep(u: Unicode, s: string)
    requires s != []
    ensures DecimalValue(u, s) == 10 * DecimalValue(u, s[..|s| - 1]) + Place(u, s, 0)
    ensures 0 <= Place(u, s, 0) < 10
  {
  }

  lemma PlaceShifts(u: Unicode, s: string, k: nat)
    ensures Place(u, s, k + 1) == Place(u, if s == [] then [] else s[..|s| - 1], k)
  {
  }

  lemma NoDigits(u: Unicode)
    ensures DecimalValue(u, []) == 0 && forall k: nat :: Place(u, [], k) == 0
  {
  }

  /** Two texts come to the same number exactly if they agree in every place. */
  lemma {:induction false} SameNumberIsSameValue(u: Unicode, s: string, t: string)
    ensures SameNumber(u, s, t) <==> DecimalValue(u, s) == DecimalValue(u, t)
    decreases |s| + |t|
  {
    hide DecimalValue, Place;
    NoDigits(u);
    if s != [] || t != [] {
      var a, b := if s == [] then [] else s[..|s| - 1], if t == [] then [] else t[..|t| - 1];
      if s != [] { DecimalStep(u, s); }
      if t != [] { DecimalStep(u, t); }
      SameNumberIsSameValue(u, a, b);
      assert Place(u, s, 0) < 10 && Place(u, t, 0) < 10;
      assert DecimalValue(u, s) == 10 * DecimalValue(u, a) + Place(u, s, 0);
      assert DecimalValue(u, t) == 10 * DecimalValue(u, b) + Place(u, t, 0);
      if SameNumber(u, s, t) {
        forall k: nat ensures Place(u, a, k) == Place(u, b, k) {
          PlaceShifts(u, s, k);
          PlaceShifts(u, t, k);
          assert Place(u, s, k + 1) == Place(u, t, k + 1);
        }
      } else if SameNumber(u, a, b) {
        var k: nat :| Place(u, s, k) != Place(u, t, k);
        if k > 0 {
          PlaceShifts(u, s, k - 1);
          PlaceShifts(u, t, k - 1);
          assert Place(u, a, k - 1) == Place(u, b, k - 1);
        }
      }
    }
  }

  lemma {:induction false} ValueIsRead(u: Unicode, s: string)
    requires AllDecimal(u, s)
    ensures ReadsAs(u, s, DecimalValue(u, s))
  {
    if s == [] {
      assert [0][0] == 0;
    } else {
      var n := |s| - 1;
      ValueIsRead(u, s[..n]);
      var w: seq<int> :|
        && |w| == n + 1 && w[0] == 0 && w[n] == DecimalValue(u, s[..n])
        && forall i :: 0 <= i < n ==> u.digit(s[..n][i]).Decimal? && w[i + 1] == 10 * w[i] + u.digit(s[..n][i]).value;
      var more := w + [DecimalValue(u, s)];
      forall i | 0 <= i < |s| ensures u.digit(s[i]).Decimal? && more[i + 1] == 10 * more[i] + u.digit(s[i]).value {
        if i < n { assert s[..n][i] == s[i]; }
      }
      assert |more| == |s| + 1 && more[0] == 0 && more[|s|] == DecimalValue(u, s);
    }
  }

  /** What becomes of a serial number: the call fails on digits that are no decimals, or on too many; otherwise a
      number of one to six digits, from 1 on, is read as it stands, and anything else is wrong. */
  lemma NumberMeans(u: Unicode, s: string)
    ensures var digits := s != [] && forall i :: 0 <= i < |s| ==> !u.digit(s[i]).NoDigit?;
            && (ParseSrNo(u, s).NoInt? <==> digits && (|s| > 4300 || !AllDecimal(u, s)))
            && (ParseSrNo(u, s).Given? <==> IsNumber(u, s))
            && (ParseSrNo(u, s).Given? ==> ReadsAs(u, s, ParseSrNo(u, s).n) && ParseSrNo(u, s).n == DecimalValue(u, s))
  {
    hide DecimalValue, Place;
    assert (exists i :: 0 <= i < |s| && u.digit(s[i]).OtherDigit?) || (exists i :: 0 <= i < |s| && u.digit(s[i]).NoDigit?)
        || AllDecimal(u, s);
    if AllDecimal(u, s) { ValueIsRead(u, s); }
    SameNumberIsSameValue(u, s, []);
    NoDigits(u);
    ValueNotNegative(u, s);
  }

  lemma {:induction false} ValueNotNegative(u: Unicode, s: string)
    ensures DecimalValue(u, s) >= 0
  {
    if s != [] { ValueNotNegative(u, s[..|s| - 1]); }
  }

  // ---- Phones, by where their digits stand ----

  /** The positions of all digits of the text, in order. */
  ghost predicate DigitsAt(s: string, p: seq<nat>) {
    && (forall k :: 0 <= k < |p| ==> p[k] < |s| && '0' <= s[p[k]] <= '9')
    && (forall j, k :: 0 <= j < k < |p| ==> p[j] < p[k])
    && (forall i :: 0 <= i < |s| && '0' <= s[i] <= '9' ==> i in p)
  }

  /** The texts have the same digits in the same order, whatever stands between them. */
  ghost predicate SameDigits(s: string, t: string) {
    exists p: seq<nat>, q: seq<nat> :: DigitsAt(s, p) && DigitsAt(t, q) && Agree(s, p, t, q)
  }

  ghost predicate Agree(s: string, p: seq<nat>, t: string, q: seq<nat>)
    requires DigitsAt(s, p) && DigitsAt(t, q)
  {
    |p| == |q| && forall k :: 0 <= k < |p| ==> s[p[k]] == t[q[k]]
  }

  /** Up to 32 characters, seven to fifteen of them digits, the others spaces, brackets, hyphens and dots, with a plus
      allowed in front. */
  ghost predicate IsPhone(s: string) {
    && |s| <= 32
    && (forall i :: 0 <= i < |s| ==> '0' <= s[i] <= '9' || s[i] in {' ', '(', ')', '-', '.'} || (i == 0 && s[i] == '+'))
    && exists p: seq<nat> :: DigitsAt(s, p) && 7 <= |p| <= 15
  }

  lemma {:induction false} DigitsFound(s: string) returns (p: seq<nat>)
    ensures DigitsAt(s, p)
  {
    if s == [] {
      p := [];
    } else {
      var n := |s| - 1;
      var rest := DigitsFound(s[..n]);
      p := rest + if '0' <= s[n] <= '9' then [n] else [];
      forall i | 0 <= i < |s| && '0' <= s[i] <= '9' ensures i in p {
        if i < n { assert s[..n][i] == s[i]; assert i in rest; } else { assert p[|rest|] == n; }
      }
    }
  }

  /** The digits kept of a phone are the characters at these positions. */
  lemma {:induction false} DigitsKept(s: string, p: seq<nat>)
    requires DigitsAt(s, p)
    ensures |PhoneDigits(s)| == |p| && forall k :: 0 <= k < |p| ==> PhoneDigits(s)[k] == s[p[k]]
  {
    if s == [] {
      PositionsNeedText(s, p);
    } else {
      var n := |s| - 1;
      if '0' <= s[n] <= '9' {
        DigitLast(s, p);
        DigitsKept(s[..n], p[..|p| - 1]);
      } else {
        DigitsBefore(s, p);
        DigitsKept(s[..n], p);
      }
    }
  }

  lemma PositionsNeedText(s: string, p: seq<nat>)
    requires DigitsAt(s, p)
    ensures p != [] ==> s != []
  {
    if p != [] { assert p[0] < |s|; }
  }

  lemma LastIsLargest(p: seq<nat>, k: nat)
    requires k < |p| && forall i, j :: 0 <= i < j < |p| ==> p[i] < p[j]
    ensures p[k] <= p[|p| - 1]
  {
  }

  lemma DigitLast(s: string, p: seq<nat>)
    requires DigitsAt(s, p) && s != [] && '0' <= s[|s| - 1] <= '9'
    ensures p != [] && p[|p| - 1] == |s| - 1 && DigitsAt(s[..|s| - 1], p[..|p| - 1])
  {
    var n := |s| - 1;
    assert n in p;
    var k :| 0 <= k < |p| && p[k] == n;
    LastIsLargest(p, k);
    assert p[|p| - 1] < |s|;
    var before := p[..|p| - 1];
    forall j | 0 <= j < |before| ensures before[j] < n { assert p[j] < p[|p| - 1]; }
    forall i | 0 <= i < n && '0' <= s[..n][i] <= '9' ensures i in before { assert i in p && i != n; }
  }

  lemma DigitsBefore(s: string, p: seq<nat>)
    requires DigitsAt(s, p) && s != [] && !('0' <= s[|s| - 1] <= '9')
    ensures DigitsAt(s[..|s| - 1], p)
  {
    var n := |s| - 1;
    forall k | 0 <= k < |p| ensures p[k] < n { assert p[k] != n; }
    forall i | 0 <= i < n && '0' <= s[..n][i] <= '9' ensures i in p { assert '0' <= s[i] <= '9'; }
  }

  lemma AgreeMeans(s: string, p: seq<nat>, t: string, q: seq<nat>)
    requires DigitsAt(s, p) && DigitsAt(t, q)
    ensures Agree(s, p, t, q) <==> PhoneDigits(s) == PhoneDigits(t)
  {
    DigitsKept(s, p);
    DigitsKept(t, q);
    hide DigitsAt, PhoneDigits;
  }

  lemma SameDigitsMeans(s: string, t: string)
    ensures SameDigits(s, t) <==> PhoneDigits(s) == PhoneDigits(t)
  {
    hide DigitsAt, Agree, PhoneDigits;
    var p := DigitsFound(s);
    var q := DigitsFound(t);
    AgreeMeans(s, p, t, q);
    if SameDigits(s, t) {
      var p', q' :| DigitsAt(s, p') && DigitsAt(t, q') && Agree(s, p', t, q');
      AgreeMeans(s, p', t, q');
    }
  }

  lemma PhoneMeans(s: string)
    ensures PhoneOk(s) <==> IsPhone(s)
  {
    DigitCountMeans(s);
    hide DigitsAt, PhoneDigits;
    if s == [] {
      NoPhoneDigits();
    } else if s == "+" {
      LonePlus();
    } else {
      PhoneCharacters(s);
    }
  }

  lemma LonePlus()
    ensures PhoneDigits("+") == []
  {
    assert "+"[..0] == [];
  }

  lemma NoPhoneDigits()
    ensures PhoneDigits([]) == []
  {
  }

  lemma DigitCountMeans(s: string)
    ensures 7 <= |PhoneDigits(s)| <= 15 <==> exists p: seq<nat> :: DigitsAt(s, p) && 7 <= |p| <= 15
  {
    var p := DigitsFound(s);
    DigitsKept(s, p);
    if p': seq<nat> :| DigitsAt(s, p') && 7 <= |p'| <= 15 { DigitsKept(s, p'); }
    hide DigitsAt, PhoneDigits;
  }

  lemma PhoneCharacters(s: string)
    requires |s| > 0 && s != "+"
    ensures PhoneChars(AfterPlus(s))
            <==> forall i :: 0 <= i < |s| ==>
                   '0' <= s[i] <= '9' || s[i] in {' ', '(', ')', '-', '.'} || (i == 0 && s[i] == '+')
  {
    var t := AfterPlus(s);
    assert " ()-." == [' ', '(', ')', '-', '.'];
    assert s[0] == '+' ==> t == s[1..] && t != [];
    if PhoneChars(t) {
      forall i | 0 <= i < |s|
        ensures '0' <= s[i] <= '9' || s[i] in {' ', '(', ')', '-', '.'} || (i == 0 && s[i] == '+')
      {
        if s[0] != '+' { assert PhoneChar(t[i]); } else if i > 0 { assert PhoneChar(t[i - 1]); }
      }
    }
  }

  // ---- Emails, by their parts ----

  /** A part of an address: not empty, without at-sign, white space and control characters. */
  ghost predicate Part(u: Unicode, s: string) {
    s != [] && forall i :: 0 <= i < |s| ==> s[i] != '@' && !u.space(s[i]) && s[i] as int >= 32
  }

  /** Two parts around an at-sign, the second followed by a dot and another part. */
  ghost predicate IsEmail(u: Unicode, s: string) {
    |s| <= 254 && !u.space('@') && !u.space('.')
    && exists a, b, c :: Part(u, a) && Part(u, b) && Part(u, c) && s == a + ['@'] + b + ['.'] + c
  }

  lemma EmailMeans(u: Unicode, s: string)
    ensures EmailOk(u, s) <==> IsEmail(u, s)
  {
    if EmailOk(u, s) {
      var at, dot :| 0 < at < |s| && at < dot < |s| && s[at] == '@' && s[dot] == '.' && at + 1 < dot < |s| - 1
        && forall i :: 0 <= i < |s| && i != at ==> s[i] != '@';
      var a, b, c := s[..at], s[at + 1..dot], s[dot + 1..];
      assert s == a + ['@'] + b + ['.'] + c;
      assert Part(u, a) && Part(u, b) && Part(u, c);
    }
    if IsEmail(u, s) {
      var a, b, c :| Part(u, a) && Part(u, b) && Part(u, c) && s == a + ['@'] + b + ['.'] + c;
      JoinedIsEmail(u, a, b, c);
    }
  }

  lemma JoinedIsEmail(u: Unicode, a: string, b: string, c: string)
    requires Part(u, a) && Part(u, b) && Part(u, c) && !u.space('@') && !u.space('.')
    requires |a| + |b| + |c| + 2 <= 254
    ensures EmailOk(u, a + ['@'] + b + ['.'] + c)
  {
    var s, at, dot := a + ['@'] + b + ['.'] + c, |a|, |a| + 1 + |b|;
    assert s[at] == '@' && s[dot] == '.';
    forall i | 0 <= i < |s| ensures !Control(s[i]) && !u.space(s[i]) && (i != at ==> s[i] != '@') {
      if i < at { assert s[i] == a[i]; }
      else if at < i < dot { assert s[i] == b[i - at - 1]; }
      else if dot < i { assert s[i] == c[i - dot - 1]; }
    }
  }

  /** Two addresses are the same if they are once both were put in lower case and case-folded. */
  ghost predicate SameEmail(u: Unicode, s: string, t: string) { u.fold(u.lower(s)) == u.fold(u.lower(t)) }

  // ---- A row, by its cells ----

  /** What is reported of a name or company: nothing there, too long, or a control character in it. */
  ghost predicate TextFault(s: string, code: Code) {
    || (code == REQUIRED && |s| == 0)
    || (code == TOO_LONG && |s| > 150)
    || (code == INVALID_TEXT && |s| <= 150 && exists i :: 0 <= i < |s| && (s[i] as int < 32 || s[i] as int == 127))
  }

  /** What is reported of a row for what its own cells hold. */
  ghost predicate Fault(u: Unicode, raw: Raw, column: Column, code: Code)
    requires raw.Raw?
  {
    match column
    case SR_NO => code == INVALID_SR_NO && !IsNumber(u, raw.srNo)
    case PERSON_NAME => TextFault(raw.person, code)
    case COMPANY_NAME => TextFault(raw.company, code)
    case PHONE => (code == REQUIRED && raw.phone == []) || (code == INVALID_PHONE && raw.phone != [] && !IsPhone(raw.phone))
    case EMAIL => code == INVALID_EMAIL && raw.email != [] && !IsEmail(u, raw.email)
  }

  /** The number a row is reported under: the one given, if it is from 1 to 100000, or else that of its line in a file
      with one line of headings. */
  ghost predicate IsRowNumber(raw: Raw, index: nat, n: int)
    requires raw.Raw?
  {
    if exists v :: raw.row == Some(v) && 1 <= v <= 100_000 then raw.row == Some(n) else n == index + 2
  }

  lemma RowNumberMeans(raw: Raw, index: nat, n: int)
    requires raw.Raw?
    ensures Number(raw, index) == n <==> IsRowNumber(raw, index, n)
  {
  }

  lemma TextMeans(s: string, code: Code)
    ensures TextProblem(s) == Some(code) <==> TextFault(s, code)
    ensures TextProblem(s).None? ==> !TextFault(s, code)
  {
  }

  lemma OneCount(problem: Option<Code>, n: int, column: Column, p: Problem)
    ensures multiset(One(problem, n, column))[p]
            == if p.row == n && p.column == column && problem == Some(p.code) then 1 else 0
  {
    if problem.Some? { assert One(problem, n, column) == [Problem(n, column, problem.value)]; }
  }

  /** Each fault of a row is reported once, under its number, and nothing else is. */
  lemma OwnMeans(u: Unicode, raw: Raw, n: int, p: Problem)
    requires raw.Raw?
    ensures multiset(Own(u, raw, n))[p] == if p.row == n && Fault(u, raw, p.column, p.code) then 1 else 0
  {
    hide ParseSrNo, TextProblem, PhoneOk, EmailOk, One, IsNumber, IsPhone, IsEmail, TextFault;
    NumberMeans(u, raw.srNo);
    TextMeans(raw.person, p.code);
    TextMeans(raw.company, p.code);
    PhoneMeans(raw.phone);
    EmailMeans(u, raw.email);
    var number := if ParseSrNo(u, raw.srNo).Given? then None else Some(INVALID_SR_NO);
    var a, b, c := One(number, n, SR_NO), One(TextProblem(raw.person), n, PERSON_NAME),
                   One(TextProblem(raw.company), n, COMPANY_NAME);
    var d, e := One(PhoneProblem(raw.phone), n, PHONE), One(EmailProblem(u, raw.email), n, EMAIL);
    OneCount(number, n, SR_NO, p);
    OneCount(TextProblem(raw.person), n, PERSON_NAME, p);
    OneCount(TextProblem(raw.company), n, COMPANY_NAME, p);
    OneCount(PhoneProblem(raw.phone), n, PHONE, p);
    OneCount(EmailProblem(u, raw.email), n, EMAIL, p);
    assert Own(u, raw, n) == a + b + c + d + e;
    assert multiset(a + b + c + d + e) == multiset(a) + multiset(b) + multiset(c) + multiset(d) + multiset(e);
  }

  /** What is kept of a row: exactly the cells without a fault, the number as it reads, an email in lower case. */
  lemma KeptMeans(u: Unicode, raw: Raw, n: int)
    requires raw.Raw?
    ensures var c := Kept(u, raw, n);
            && c.row == n
            && (c.srNo.Some? <==> IsNumber(u, raw.srNo)) && (c.srNo.Some? ==> ReadsAs(u, raw.srNo, c.srNo.value))
            && c.person == (if exists code :: TextFault(raw.person, code) then None else Some(raw.person))
            && c.company == (if exists code :: TextFault(raw.company, code) then None else Some(raw.company))
            && c.phone == (if IsPhone(raw.phone) then Some(raw.phone) else None)
            && c.email == if IsEmail(u, raw.email) then Some(u.lower(raw.email)) else None
  {
    hide ParseSrNo, TextProblem, PhoneOk, EmailOk, IsNumber, ReadsAs, IsPhone, IsEmail, TextFault;
    NumberMeans(u, raw.srNo);
    forall code ensures TextProblem(raw.person) == Some(code) <==> TextFault(raw.person, code) { TextMeans(raw.person, code); }
    forall code ensures TextProblem(raw.company) == Some(code) <==> TextFault(raw.company, code) { TextMeans(raw.company, code); }
    PhoneMeans(raw.phone);
    EmailMeans(u, raw.email);
    EmptyCells(u);
  }

  lemma EmptyCells(u: Unicode)
    ensures !PhoneOk([]) && !EmailOk(u, [])
  {
  }
}
