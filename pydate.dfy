/** Python's `datetime.date` / `datetime.datetime` values, the text forms the
    backend writes (`isoformat()`, `str()`, `strftime("%d.%m.%Y")`) and
    `datetime.strptime` for the formats it reads.

    `strptime` follows CPython's `_strptime`: each directive becomes a regular
    expression with alternatives tried in order, the whole format is matched
    case-insensitively from the start with backtracking, text left over after
    the match is an error ("unconverted data remains"), and the fields must
    then form a real date and time. */
module PyDate {
  import opened Wrappers
  import opened PyStr
  import opened PyNum

  datatype Date = Date(year: int, month: int, day: int)

  datatype DateTime = DateTime(date: Date, hour: int, minute: int, second: int)

  predicate IsLeap(y: int) {
    y % 4 == 0 && (y % 100 != 0 || y % 400 == 0)
  }

  function DaysInMonth(y: int, m: int): int {
    if m == 2 then (if IsLeap(y) then 29 else 28)
    else if m == 4 || m == 6 || m == 9 || m == 11 then 30
    else 31
  }

  /** The dates `datetime.date` accepts. */
  predicate ValidDate(d: Date) {
    1 <= d.year <= 9999 && 1 <= d.month <= 12 && 1 <= d.day <= DaysInMonth(d.year, d.month)
  }

  /** The date-times `datetime.datetime` accepts (microseconds are always 0
      here). */
  predicate ValidDateTime(t: DateTime) {
    ValidDate(t.date) && 0 <= t.hour <= 23 && 0 <= t.minute <= 59 && 0 <= t.second <= 59
  }

  /** `date < other` */
  predicate Before(a: Date, b: Date) {
    a.year < b.year
    || (a.year == b.year && (a.month < b.month || (a.month == b.month && a.day < b.day)))
  }

  function Two(n: int): string {
    ZeroPad(if n < 0 then 0 else n, 2)
  }

  function Four(n: int): string {
    ZeroPad(if n < 0 then 0 else n, 4)
  }

  /** `date.isoformat()`: "%04d-%02d-%02d". */
  function IsoFormat(d: Date): string {
    Four(d.year) + "-" + Two(d.month) + "-" + Two(d.day)
  }

  function ClockText(t: DateTime): string {
    Two(t.hour) + ":" + Two(t.minute) + ":" + Two(t.second)
  }

  /** `str(datetime)`: the date, a space, the time. */
  function DateTimeText(t: DateTime): string {
    IsoFormat(t.date) + " " + ClockText(t)
  }

  /** `datetime.isoformat()`: the date, a "T", the time. */
  function IsoDateTimeText(t: DateTime): string {
    IsoFormat(t.date) + "T" + ClockText(t)
  }

  /** `strftime("%d.%m.%Y")` */
  function DayMonthYearText(d: Date): string {
    Two(d.day) + "." + Two(d.month) + "." + Four(d.year)
  }

  /** `strftime("%d.%m.%y")` */
  function DayMonthShortYearText(d: Date): string {
    Two(d.day) + "." + Two(d.month) + "." + Two(d.year % 100)
  }

  // ---------------------------------------------------------------------
  // strptime

  datatype Directive = Lit(c: char) | Day | Month | ShortYear | Year | Hour | Minute | Second

  /** "%d.%m.%y", the format of the bank's statement dates. */
  const DayMonthShortYearFormat: seq<Directive> := [Day, Lit('.'), Month, Lit('.'), ShortYear]

  /** "%Y-%m-%dT%H:%M:%S" */
  const IsoDateTimeFormat: seq<Directive> :=
    [Year, Lit('-'), Month, Lit('-'), Day, Lit('T'), Hour, Lit(':'), Minute, Lit(':'), Second]

  /** "%Y-%m-%d" */
  const IsoDateFormat: seq<Directive> := [Year, Lit('-'), Month, Lit('-'), Day]

  datatype CharClass = Exactly(c: char) | Between(lo: char, hi: char)

  predicate Accepts(k: CharClass, c: char) {
    match k
    case Exactly(e) => c == e
    case Between(lo, hi) => lo <= c <= hi
  }

  const AnyDigit := Between('0', '9')

  /** The alternatives of each directive's regular expression in CPython's
      `_strptime`, in the order the regex engine tries them. */
  function Alternatives(d: Directive): seq<seq<CharClass>> {
    match d
    case Lit(c) => [[Exactly(c)]]
    case Day => [[Exactly('3'), Between('0', '1')], [Between('1', '2'), AnyDigit],
                 [Exactly('0'), Between('1', '9')], [Between('1', '9')],
                 [Exactly(' '), Between('1', '9')]]
    case Month => [[Exactly('1'), Between('0', '2')], [Exactly('0'), Between('1', '9')],
                   [Between('1', '9')]]
    case ShortYear => [[AnyDigit, AnyDigit]]
    case Year => [[AnyDigit, AnyDigit, AnyDigit, AnyDigit]]
    case Hour => [[Exactly('2'), Between('0', '3')], [Between('0', '1'), AnyDigit], [AnyDigit]]
    case Minute => [[Between('0', '5'), AnyDigit], [AnyDigit]]
    case Second => [[Exactly('6'), Between('0', '1')], [Between('0', '5'), AnyDigit], [AnyDigit]]
  }

  predicate MatchesAt(p: seq<CharClass>, s: string, pos: nat) {
    pos + |p| <= |s| && forall k :: 0 <= k < |p| ==> Accepts(p[k], s[pos + k])
  }

  /** The fields a match has filled in; `strptime` starts from 1900-01-01 00:00:00. */
  datatype Fields = Fields(year: int, month: int, day: int, hour: int, minute: int, second: int)

  const Defaults := Fields(1900, 1, 1, 0, 0, 0)

  /** `int()` of a matched piece: its digits, ignoring the leading space " [1-9]" allows. */
  function PieceValue(p: string): nat {
    if p == [] then 0
    else if IsDigit(p[|p| - 1]) then 10 * PieceValue(p[..|p| - 1]) + DigitValue(p[|p| - 1])
    else PieceValue(p[..|p| - 1])
  }

  /** Records a matched field; a two-digit year below 69 is in the 2000s,
      any other in the 1900s. */
  function Store(f: Fields, d: Directive, v: nat): Fields {
    match d
    case Lit(_) => f
    case Day => f.(day := v)
    case Month => f.(month := v)
    case ShortYear => f.(year := if v <= 68 then 2000 + v else 1900 + v)
    case Year => f.(year := v)
    case Hour => f.(hour := v)
    case Minute => f.(minute := v)
    case Second => f.(second := v)
  }

  /** Matches `fmt[k..]` against `s` from `pos`; the end of the match and the
      fields, for the first combination of alternatives that matches. */
  function Match(fmt: seq<Directive>, k: nat, s: string, pos: nat, f: Fields): Option<(nat, Fields)>
    decreases |fmt| - k, 1, 0
  {
    if k >= |fmt| then Some((pos, f))
    else if fmt[k].Lit? then
      if pos < |s| && LowerChar(s[pos]) == LowerChar(fmt[k].c) then Match(fmt, k + 1, s, pos + 1, f)
      else None
    else TryFrom(fmt, k, s, pos, f, 0)
  }

  /** Tries the alternatives of the field directive `fmt[k]` from the `i`-th on. */
  function TryFrom(fmt: seq<Directive>, k: nat, s: string, pos: nat, f: Fields, i: nat): Option<(nat, Fields)>
    requires k < |fmt|
    decreases |fmt| - k, 0, |Alternatives(fmt[k])| - i
  {
    var alts := Alternatives(fmt[k]);
    if i >= |alts| then None
    else if MatchesAt(alts[i], s, pos) then
      var end := pos + |alts[i]|;
      var r := Match(fmt, k + 1, s, end, Store(f, fmt[k], PieceValue(s[pos..end])));
      if r.Some? then r else TryFrom(fmt, k, s, pos, f, i + 1)
    else TryFrom(fmt, k, s, pos, f, i + 1)
  }

  /** `datetime.strptime(s, fmt)`; `None` is the `ValueError` it raises. */
  function Strptime(s: string, fmt: seq<Directive>): (r: Option<DateTime>)
    ensures r.Some? ==> ValidDateTime(r.value)
  {
    match Match(fmt, 0, s, 0, Defaults)
    case None => None
    case Some((end, f)) =>
      var t := DateTime(Date(f.year, f.month, f.day), f.hour, f.minute, f.second);
      if end == |s| && ValidDateTime(t) then Some(t) else None
  }

  // ---------------------------------------------------------------------
  // Proof steps for reading back what the formatting functions write

  lemma {:induction false} TwoDigitsOf(n: nat)
    requires n < 100
    ensures Two(n) == [DigitChar(n / 10), DigitChar(n % 10)]
  {
    if n >= 10 {
      assert NatToString(n / 10) == [DigitChar(n / 10)];
    }
  }

  lemma {:induction false} FourDigits(n: nat)
    requires n < 10000
    ensures |Four(n)| == 4 && AllDigits(Four(n)) && DigitsValue(Four(n)) == n
  {
    assert Pow10(4) == 10000 by {
      assert Pow10(1) == 10 && Pow10(2) == 100 && Pow10(3) == 1000;
    }
    ZeroPadExact(n, 4);
  }

  lemma {:induction false} PieceValueDigits(p: string)
    requires AllDigits(p)
    ensures PieceValue(p) == DigitsValue(p)
  {
    if p != [] {
      PieceValueDigits(p[..|p| - 1]);
    }
  }

  lemma {:induction false} PieceValueTwo(a: nat, b: nat)
    requires a < 10 && b < 10
    ensures PieceValue([DigitChar(a), DigitChar(b)]) == 10 * a + b
  {
    var p := [DigitChar(a), DigitChar(b)];
    var q := [DigitChar(a)];
    assert IsDigit(q[0]) && DigitValue(q[0]) == a;
    assert q[..0] == [];
    assert PieceValue(q) == a;
    assert IsDigit(p[1]) && DigitValue(p[1]) == b;
    assert p[..1] == q;
    assert PieceValue(p) == 10 * PieceValue(q) + b;
  }

  /** The field directive `fmt[k]` takes its `i`-th alternative when the
      earlier ones do not match here and the rest of the format matches after it. */
  lemma {:induction false} TakeAlternative(fmt: seq<Directive>, k: nat, s: string, pos: nat, f: Fields,
                                           i: nat, j: nat, r: (nat, Fields))
    requires k < |fmt| && !fmt[k].Lit? && j <= i < |Alternatives(fmt[k])|
    requires forall a :: j <= a < i ==> !MatchesAt(Alternatives(fmt[k])[a], s, pos)
    requires MatchesAt(Alternatives(fmt[k])[i], s, pos)
    requires Match(fmt, k + 1, s, pos + |Alternatives(fmt[k])[i]|,
                   Store(f, fmt[k], PieceValue(s[pos..pos + |Alternatives(fmt[k])[i]|]))) == Some(r)
    ensures TryFrom(fmt, k, s, pos, f, j) == Some(r)
    decreases i - j
  {
    if j < i {
      TakeAlternative(fmt, k, s, pos, f, i, j + 1, r);
    }
  }

  /** The alternative a two-digit value in its directive's range is read by:
      the earlier ones already refuse its first digit. */
  lemma {:induction false} FirstFittingAlternative(d: Directive, v: nat) returns (i: nat)
    requires d in {Day, Month, Hour, Minute, Second}
    requires d == Day ==> 1 <= v <= 31
    requires d == Month ==> 1 <= v <= 12
    requires d == Hour ==> v <= 23
    requires d == Minute || d == Second ==> v <= 59
    ensures i < |Alternatives(d)| && |Alternatives(d)[i]| == 2
    ensures Accepts(Alternatives(d)[i][0], DigitChar(v / 10)) && Accepts(Alternatives(d)[i][1], DigitChar(v % 10))
    ensures forall x :: 0 <= x < i ==> |Alternatives(d)[x]| > 0 && !Accepts(Alternatives(d)[x][0], DigitChar(v / 10))
  {
    var a := v / 10;
    i := match d
      case Day => if a == 3 then 0 else if a >= 1 then 1 else 2
      case Month => if a == 1 then 0 else 1
      case Hour => if a == 2 then 0 else 1
      case Minute => 0
      case Second => 1;
  }

  /** A two-digit field written with leading zero, in the range its directive
      admits, is read back by the first alternative that fits it. */
  lemma {:induction false} TwoDigitField(fmt: seq<Directive>, k: nat, s: string, pos: nat, f: Fields, v: nat, r: (nat, Fields))
    requires k < |fmt| && fmt[k] in {Day, Month, Hour, Minute, Second}
    requires fmt[k] == Day ==> 1 <= v <= 31
    requires fmt[k] == Month ==> 1 <= v <= 12
    requires fmt[k] == Hour ==> v <= 23
    requires fmt[k] == Minute || fmt[k] == Second ==> v <= 59
    requires pos + 2 <= |s| && s[pos..pos + 2] == Two(v)
    requires Match(fmt, k + 1, s, pos + 2, Store(f, fmt[k], v)) == Some(r)
    ensures Match(fmt, k, s, pos, f) == Some(r)
  {
    var a, b := v / 10, v % 10;
    TwoDigitsOf(v);
    assert s[pos] == DigitChar(a) && s[pos + 1] == DigitChar(b) by {
      assert s[pos..pos + 2][0] == s[pos] && s[pos..pos + 2][1] == s[pos + 1];
    }
    PieceValueTwo(a, b);
    assert PieceValue(s[pos..pos + 2]) == v;
    var alts := Alternatives(fmt[k]);
    var i := FirstFittingAlternative(fmt[k], v);
    assert MatchesAt(alts[i], s, pos);
    forall x | 0 <= x < i
      ensures !MatchesAt(alts[x], s, pos)
    {
      assert !Accepts(alts[x][0], s[pos]);
    }
    TakeAlternative(fmt, k, s, pos, f, i, 0, r);
  }

  lemma {:induction false} YearField(fmt: seq<Directive>, k: nat, s: string, pos: nat, f: Fields, v: nat, r: (nat, Fields))
    requires k < |fmt| && fmt[k] == Year && v < 10000
    requires pos + 4 <= |s| && s[pos..pos + 4] == Four(v)
    requires Match(fmt, k + 1, s, pos + 4, Store(f, Year, v)) == Some(r)
    ensures Match(fmt, k, s, pos, f) == Some(r)
  {
    FourDigits(v);
    PieceValueDigits(Four(v));
    assert forall x :: 0 <= x < 4 ==> s[pos + x] == Four(v)[x];
    assert MatchesAt(Alternatives(Year)[0], s, pos);
    TakeAlternative(fmt, k, s, pos, f, 0, 0, r);
  }

  lemma {:induction false} ShortYearField(fmt: seq<Directive>, k: nat, s: string, pos: nat, f: Fields, v: nat, r: (nat, Fields))
    requires k < |fmt| && fmt[k] == ShortYear && v < 100
    requires pos + 2 <= |s| && s[pos..pos + 2] == Two(v)
    requires Match(fmt, k + 1, s, pos + 2, Store(f, ShortYear, v)) == Some(r)
    ensures Match(fmt, k, s, pos, f) == Some(r)
  {
    TwoDigitsOf(v);
    assert s[pos] == DigitChar(v / 10) && s[pos + 1] == DigitChar(v % 10) by {
      assert s[pos..pos + 2][0] == s[pos] && s[pos..pos + 2][1] == s[pos + 1];
    }
    PieceValueTwo(v / 10, v % 10);
    assert MatchesAt(Alternatives(ShortYear)[0], s, pos);
    TakeAlternative(fmt, k, s, pos, f, 0, 0, r);
  }

  lemma {:induction false} LitField(fmt: seq<Directive>, k: nat, s: string, pos: nat, f: Fields)
    requires k < |fmt| && fmt[k].Lit? && pos < |s| && s[pos] == fmt[k].c
    ensures Match(fmt, k, s, pos, f) == Match(fmt, k + 1, s, pos + 1, f)
  {
  }

  // ---------------------------------------------------------------------
  // Round trips

  lemma {:induction false} IsoFormatLength(d: Date)
    requires ValidDate(d)
    ensures |IsoFormat(d)| == 10
  {
    FourDigits(d.year);
    TwoDigitsOf(d.month);
    TwoDigitsOf(d.day);
  }

  lemma {:induction false} ClockTextLength(t: DateTime)
    requires ValidDateTime(t)
    ensures |ClockText(t)| == 8
  {
    TwoDigitsOf(t.hour);
    TwoDigitsOf(t.minute);
    TwoDigitsOf(t.second);
  }

  /** Where each piece of an ISO date written at the start of `s` lies. */
  lemma {:induction false} IsoDateChars(s: string, d: Date)
    requires ValidDate(d) && |s| >= 10 && s[..10] == IsoFormat(d)
    ensures s[0..4] == Four(d.year) && s[4] == '-' && s[5..7] == Two(d.month)
    ensures s[7] == '-' && s[8..10] == Two(d.day)
  {
    var y, m, dd := Four(d.year), Two(d.month), Two(d.day);
    FourDigits(d.year);
    TwoDigitsOf(d.month);
    TwoDigitsOf(d.day);
    var t := y + "-";
    var r := t + m;
    var q := r + "-";
    assert s[..10] == q + dd;
    assert s[8..10] == (q + dd)[8..] == dd;
    assert s[..8] == q && q[..7] == r && r[..5] == t;
    assert s[7] == q[7] == '-' && s[4] == t[4] == '-';
    assert s[5..7] == r[5..] == m;
    assert s[0..4] == t[..4] == y;
  }

  /** "%m-%d" at positions 2 to 4 of `fmt` reads the month and the day of an
      ISO date written at the start of `s`. */
  lemma {:induction false} MonthDayPart(fmt: seq<Directive>, s: string, d: Date, f1: Fields, r: (nat, Fields))
    requires ValidDate(d) && |fmt| >= 5 && fmt[2] == Month && fmt[3] == Lit('-') && fmt[4] == Day
    requires |s| >= 10 && s[5..7] == Two(d.month) && s[7] == '-' && s[8..10] == Two(d.day)
    requires Match(fmt, 5, s, 10, f1.(month := d.month, day := d.day)) == Some(r)
    ensures Match(fmt, 2, s, 5, f1) == Some(r)
  {
    var f2 := Store(f1, Month, d.month);
    assert Store(f2, Day, d.day) == f1.(month := d.month, day := d.day);
    TwoDigitField(fmt, 4, s, 8, f2, d.day, r);
    LitField(fmt, 3, s, 7, f2);
    TwoDigitField(fmt, 2, s, 5, f1, d.month, r);
  }

  /** "%Y-" at the start of `fmt` reads a four-digit year and its dash
      written at the start of `s`. */
  lemma {:induction false} YearPart(fmt: seq<Directive>, s: string, year: nat, r: (nat, Fields))
    requires year < 10000 && |fmt| >= 2 && fmt[0] == Year && fmt[1] == Lit('-')
    requires |s| >= 5 && s[0..4] == Four(year) && s[4] == '-'
    requires Match(fmt, 2, s, 5, Store(Defaults, Year, year)) == Some(r)
    ensures Match(fmt, 0, s, 0, Defaults) == Some(r)
  {
    var f := Store(Defaults, Year, year);
    LitField(fmt, 1, s, 4, f);
    assert Match(fmt, 1, s, 4, f) == Some(r);
    YearField(fmt, 0, s, 0, Defaults, year, r);
  }

  /** A format starting "%Y-%m-%d" reads an ISO date written at the start of
      `s` and goes on after it with the date's fields stored. */
  lemma {:induction false} IsoDatePart(fmt: seq<Directive>, s: string, d: Date, r: (nat, Fields))
    requires ValidDate(d) && |fmt| >= 5 && fmt[..5] == IsoDateFormat
    requires |s| >= 10 && s[..10] == IsoFormat(d)
    requires Match(fmt, 5, s, 10, Defaults.(year := d.year, month := d.month, day := d.day)) == Some(r)
    ensures Match(fmt, 0, s, 0, Defaults) == Some(r)
  {
    IsoDateChars(s, d);
    assert fmt[0] == Year && fmt[1] == Lit('-') && fmt[2] == Month && fmt[3] == Lit('-') && fmt[4] == Day by {
      assert fmt[..5][0] == fmt[0] && fmt[..5][1] == fmt[1] && fmt[..5][2] == fmt[2];
      assert fmt[..5][3] == fmt[3] && fmt[..5][4] == fmt[4];
    }
    var f1 := Store(Defaults, Year, d.year);
    MonthDayPart(fmt, s, d, f1, r);
    YearPart(fmt, s, d.year, r);
  }

  /** `strptime(d.isoformat(), "%Y-%m-%d")` is `d` at midnight. */
  lemma {:induction false} IsoDateRoundTrip(d: Date)
    requires ValidDate(d)
    ensures Strptime(IsoFormat(d), IsoDateFormat) == Some(DateTime(d, 0, 0, 0))
  {
    var s := IsoFormat(d);
    IsoFormatLength(d);
    assert IsoDateFormat[..5] == IsoDateFormat;
    IsoDatePart(IsoDateFormat, s, d, (10, Defaults.(year := d.year, month := d.month, day := d.day)));
  }

  /** Where each piece of a clock text written at `s[11..19]` lies. */
  lemma {:induction false} ClockChars(s: string, t: DateTime)
    requires ValidDateTime(t) && |s| == 19 && s[11..] == ClockText(t)
    ensures s[11..13] == Two(t.hour) && s[13] == ':' && s[14..16] == Two(t.minute)
    ensures s[16] == ':' && s[17..19] == Two(t.second)
  {
    var hh, mi, ss := Two(t.hour), Two(t.minute), Two(t.second);
    TwoDigitsOf(t.hour);
    TwoDigitsOf(t.minute);
    TwoDigitsOf(t.second);
    var p := s[11..];
    assert p == hh + ":" + mi + ":" + ss;
    assert p[0..2] == hh && p[2] == ':' && p[3..5] == mi && p[5] == ':' && p[6..8] == ss;
    assert s[11..13] == p[0..2] && s[14..16] == p[3..5] && s[17..19] == p[6..8];
    assert s[13] == p[2] && s[16] == p[5];
  }

  /** ":%M:%S" at positions 7 to 10 of `fmt` reads the minutes and seconds of
      a clock text written at `s[11..19]`, ending the match. */
  lemma {:induction false} MinuteSecondPart(fmt: seq<Directive>, s: string, t: DateTime, f4: Fields)
    requires ValidDateTime(t) && |fmt| == 11
    requires fmt[7] == Lit(':') && fmt[8] == Minute && fmt[9] == Lit(':') && fmt[10] == Second
    requires |s| == 19 && s[13] == ':' && s[14..16] == Two(t.minute) && s[16] == ':' && s[17..19] == Two(t.second)
    ensures Match(fmt, 7, s, 13, f4) == Some((19, f4.(minute := t.minute, second := t.second)))
  {
    var f5 := Store(f4, Minute, t.minute);
    var r := (19, Store(f5, Second, t.second));
    TwoDigitField(fmt, 10, s, 17, f5, t.second, r);
    LitField(fmt, 9, s, 16, f5);
    TwoDigitField(fmt, 8, s, 14, f4, t.minute, r);
    LitField(fmt, 7, s, 13, f4);
  }

  /** "%H:%M:%S" at positions 6 to 10 of `fmt` reads a clock text written at
      `s[11..19]`, ending the match. */
  lemma {:induction false} ClockPart(fmt: seq<Directive>, s: string, t: DateTime, f: Fields)
    requires ValidDateTime(t) && |fmt| == 11 && fmt[6..] == [Hour, Lit(':'), Minute, Lit(':'), Second]
    requires |s| == 19 && s[11..] == ClockText(t)
    ensures Match(fmt, 6, s, 11, f) == Some((19, f.(hour := t.hour, minute := t.minute, second := t.second)))
  {
    ClockChars(s, t);
    assert fmt[6] == Hour && fmt[7] == Lit(':') && fmt[8] == Minute && fmt[9] == Lit(':') && fmt[10] == Second by {
      assert fmt[6..][0] == fmt[6] && fmt[6..][1] == fmt[7] && fmt[6..][2] == fmt[8];
      assert fmt[6..][3] == fmt[9] && fmt[6..][4] == fmt[10];
    }
    var f4 := Store(f, Hour, t.hour);
    MinuteSecondPart(fmt, s, t, f4);
    TwoDigitField(fmt, 6, s, 11, f, t.hour, (19, f4.(minute := t.minute, second := t.second)));
  }

  /** `strptime(t.isoformat(), "%Y-%m-%dT%H:%M:%S")` is `t`. */
  lemma {:induction false} IsoDateTimeRoundTrip(t: DateTime)
    requires ValidDateTime(t)
    ensures Strptime(IsoDateTimeText(t), IsoDateTimeFormat) == Some(t)
  {
    var fmt := IsoDateTimeFormat;
    var d := t.date;
    var s := IsoDateTimeText(t);
    var iso, clock := IsoFormat(d), ClockText(t);
    IsoFormatLength(d);
    ClockTextLength(t);
    assert s[..10] == iso && s[10] == 'T' && s[11..] == clock;
    assert fmt[..5] == IsoDateFormat && fmt[5] == Lit('T');
    assert fmt[6..] == [Hour, Lit(':'), Minute, Lit(':'), Second];
    var f3 := Defaults.(year := d.year, month := d.month, day := d.day);
    ClockPart(fmt, s, t, f3);
    LitField(fmt, 5, s, 10, f3);
    IsoDatePart(fmt, s, d, (19, f3.(hour := t.hour, minute := t.minute, second := t.second)));
  }

  /** Where each piece of a "%d.%m.%y" text lies. */
  lemma {:induction false} ShortYearChars(d: Date)
    requires ValidDate(d)
    ensures var s := DayMonthShortYearText(d);
      && |s| == 8 && s[0..2] == Two(d.day) && s[2] == '.' && s[3..5] == Two(d.month)
      && s[5] == '.' && s[6..8] == Two(d.year % 100)
  {
    var dd, m, y := Two(d.day), Two(d.month), Two(d.year % 100);
    TwoDigitsOf(d.month);
    TwoDigitsOf(d.day);
    TwoDigitsOf(d.year % 100);
    var s := dd + "." + m + "." + y;
    assert s[0..2] == dd && s[2] == '.' && s[3..5] == m && s[5] == '.' && s[6..8] == y;
  }

  /** "%d.%m.%y" reads a date written in that format to the end of the
      text, with the day, the month and the two-digit year stored. */
  lemma {:induction false} ShortYearMatch(d: Date)
    requires ValidDate(d)
    ensures var f := Store(Store(Store(Defaults, Day, d.day), Month, d.month), ShortYear, d.year % 100);
      Match(DayMonthShortYearFormat, 0, DayMonthShortYearText(d), 0, Defaults) == Some((8, f))
  {
    var fmt := DayMonthShortYearFormat;
    var s := DayMonthShortYearText(d);
    var yy := d.year % 100;
    ShortYearChars(d);
    var f1 := Store(Defaults, Day, d.day);
    var f2 := Store(f1, Month, d.month);
    var r := (8, Store(f2, ShortYear, yy));
    ShortYearField(fmt, 4, s, 6, f2, yy, r);
    LitField(fmt, 3, s, 5, f2);
    TwoDigitField(fmt, 2, s, 3, f1, d.month, r);
    LitField(fmt, 1, s, 2, f1);
    TwoDigitField(fmt, 0, s, 0, Defaults, d.day, r);
  }

  /** `strptime(d.strftime("%d.%m.%y"), "%d.%m.%y")` is `d` at midnight for
      the years 1969 to 2068 that a two-digit year denotes. */
  lemma {:induction false} ShortYearRoundTrip(d: Date)
    requires ValidDate(d) && 1969 <= d.year <= 2068
    ensures Strptime(DayMonthShortYearText(d), DayMonthShortYearFormat) == Some(DateTime(d, 0, 0, 0))
  {
    ShortYearMatch(d);
    ShortYearChars(d);
    ShortYearCentury(d.year);
    var f := Store(Store(Store(Defaults, Day, d.day), Month, d.month), ShortYear, d.year % 100);
    assert f == Fields(d.year, d.month, d.day, 0, 0, 0);
  }

  /** A year from 1969 to 2068 is what its last two digits denote. */
  lemma {:induction false} ShortYearCentury(y: int)
    requires 1969 <= y <= 2068
    ensures (if y % 100 <= 68 then 2000 + y % 100 else 1900 + y % 100) == y
  {
    if y >= 2000 {
      assert y % 100 == y - 2000;
    } else {
      assert y % 100 == y - 1900;
    }
  }
}
