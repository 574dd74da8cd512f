/** Normalisation of exported dates. */
module Dates {
  import opened Wrappers

  datatype Date = Date(year: nat, month: nat, day: nat) {
    predicate Valid() {
      1 <= year <= 9999 && 1 <= month <= 12 && 1 <= day <= DaysIn(year, month)
    }

    predicate Before(other: Date) {
      year < other.year || (year == other.year && (month < other.month || (month == other.month && day < other.day)))
    }
  }

  predicate IsLeap(year: nat) {
    year % 4 == 0 && (year % 100 != 0 || year % 400 == 0)
  }

  function DaysIn(year: nat, month: nat): nat {
    if month == 2 then (if IsLeap(year) then 29 else 28)
    else if month in {4, 6, 9, 11} then 30 else 31
  }

  // ----- numerals -----

  predicate IsDigit(c: char) {
    '0' <= c <= '9'
  }

  predicate AllDigits(s: string) {
    forall i :: 0 <= i < |s| ==> IsDigit(s[i])
  }

  function Value(s: string): nat
    requires AllDigits(s)
  {
    if s == "" then 0 else 10 * Value(s[..|s| - 1]) + (s[|s| - 1] - '0') as nat
  }

  function Numeral(n: nat, width: nat): (s: string)
    ensures |s| == width && AllDigits(s)
  {
    if width == 0 then "" else Numeral(n / 10, width - 1) + [(n % 10) as char + '0']
  }

  function Power10(n: nat): nat {
    if n == 0 then 1 else 10 * Power10(n - 1)
  }

  lemma {:induction false} NumeralValue(n: nat, width: nat)
    requires n < Power10(width)
    ensures Value(Numeral(n, width)) == n
  {
    if width > 0 {
      NumeralValue(n / 10, width - 1);
      assert Numeral(n, width)[..width - 1] == Numeral(n / 10, width - 1);
    }
  }

  // ----- the fields of a format -----

  datatype Format = DayNameShortYear | DayNameYear | DayMonthYear | YearMonthDay

  const FORMATS := [DayNameShortYear, DayNameYear, DayMonthYear, YearMonthDay]

  function MonthName(month: nat): (name: string)
    ensures |name| == 3 && 'A' <= name[0] <= 'Z'
  {
    match month
    case 1 => "Jan"
    case 2 => "Feb"
    case 3 => "Mar"
    case 4 => "Apr"
    case 5 => "May"
    case 6 => "Jun"
    case 7 => "Jul"
    case 8 => "Aug"
    case 9 => "Sep"
    case 10 => "Oct"
    case 11 => "Nov"
    case _ => "Dec"
  }

  function Lower(c: char): char {
    if 'A' <= c <= 'Z' then c - 'A' + 'a' else c
  }

  function Lowered(s: string): (t: string)
    ensures |t| == |s| && forall i :: 0 <= i < |s| ==> t[i] == Lower(s[i])
  {
    seq(|s|, i requires 0 <= i < |s| => Lower(s[i]))
  }

  /** The month of a name, in any case. */
  function MonthNamed(s: string): Option<nat> {
    MonthAmong(Lowered(s), 1)
  }

  function MonthAmong(name: string, from: nat): (m: Option<nat>)
    requires 1 <= from <= 13
    ensures m.Some? ==> from <= m.value <= 12 && name == Lowered(MonthName(m.value))
    decreases 13 - from
  {
    if from == 13 then None
    else if name == Lowered(MonthName(from)) then Some(from) else MonthAmong(name, from + 1)
  }

  /** One or two digits up to a bound; a day may be padded with a blank. */
  function UpTo(s: string, bound: nat, blank: bool): Option<nat> {
    var digits := if blank && |s| == 2 && s[0] == ' ' then s[1..] else s;
    if 1 <= |digits| <= 2 && AllDigits(digits) && 1 <= Value(digits) <= bound then Some(Value(digits)) else None
  }

  function YearOf(s: string): Option<nat> {
    if |s| == 4 && AllDigits(s) then Some(Value(s)) else None
  }

  /** Two digits, with the pivot at 69. */
  function ShortYearOf(s: string): Option<nat> {
    if |s| == 2 && AllDigits(s) then Some(Value(s) + if Value(s) <= 68 then 2000 else 1900) else None
  }

  function Split(s: string): (parts: seq<string>)
    ensures |parts| >= 1
  {
    if s == "" then [""]
    else
      var rest := Split(s[1..]);
      if s[0] == '-' then [""] + rest else [[s[0]] + rest[0]] + rest[1..]
  }

  /** strptime: the fields of the format, all of the text, and a date of the calendar. */
  function Parse(format: Format, raw: string): (date: Option<Date>)
    ensures date.Some? ==> date.value.Valid()
  {
    var parts := Split(raw);
    if |parts| != 3 then None
    else
      var fields := match format
        case DayNameShortYear => (ShortYearOf(parts[2]), MonthNamed(parts[1]), UpTo(parts[0], 31, true))
        case DayNameYear => (YearOf(parts[2]), MonthNamed(parts[1]), UpTo(parts[0], 31, true))
        case DayMonthYear => (YearOf(parts[2]), UpTo(parts[1], 12, false), UpTo(parts[0], 31, true))
        case YearMonthDay => (YearOf(parts[0]), UpTo(parts[1], 12, false), UpTo(parts[2], 31, true));
      if fields.0.Some? && fields.1.Some? && fields.2.Some? && Date(fields.0.value, fields.1.value, fields.2.value).Valid()
      then Some(Date(fields.0.value, fields.1.value, fields.2.value)) else None
  }

  /** Year, month and day without separators.  Whether a year below 1000 is padded depends on the platform. */
  function Compact(date: Date, pads: bool): string {
    (if pads || date.year >= 1000 then Numeral(date.year, 4)
     else if date.year >= 100 then Numeral(date.year, 3)
     else if date.year >= 10 then Numeral(date.year, 2) else Numeral(date.year, 1))
    + Numeral(date.month, 2) + Numeral(date.day, 2)
  }

  predicate IsCompact(s: string) {
    |s| == 8 && AllDigits(s)
  }

  function FirstParse(formats: seq<Format>, raw: string): Option<Date> {
    if formats == [] then None
    else if Parse(formats[0], raw).Some? then Parse(formats[0], raw) else FirstParse(formats[1..], raw)
  }

  function Normalised(raw: string, absent: string, pads: bool): string {
    if raw == "" then absent
    else if IsCompact(raw) then raw
    else match FirstParse(FORMATS, raw) case Some(date) => Compact(date, pads) case None => absent
  }

  /** The text of an element, stripped, as a compact date. */
  method TallyDate(raw: string, absent: string, pads: bool) returns (s: string)
    ensures s == Normalised(raw, absent, pads)
  {
    if raw == "" {
      return absent;
    }
    if |raw| == 8 && AllDigits(raw) {
      return raw;
    }
    for i := 0 to |FORMATS|
      invariant FirstParse(FORMATS, raw) == FirstParse(FORMATS[i..], raw)
    {
      var date := Parse(FORMATS[i], raw);
      if date.Some? {
        return Compact(date.value, pads);
      }
    }
    return absent;
  }

  // ----- the formats do not overlap -----

  lemma {:induction false} NamesAreNoNumbers(s: string)
    requires MonthNamed(s).Some?
    ensures |s| == 3 && !AllDigits(s)
  {
    var m := MonthNamed(s).value;
    assert Lowered(s)[0] == Lower(s[0]) && Lowered(MonthName(m))[0] == Lower(MonthName(m)[0]);
    assert !IsDigit(s[0]);
  }

  /** No text is accepted by two formats. */
  lemma {:induction false} FormatsAreDisjoint(raw: string, f: Format, g: Format)
    requires Parse(f, raw).Some? && Parse(g, raw).Some?
    ensures f == g
  {
    hide MonthNamed, AllDigits, Value, Split;
    var parts := Split(raw);
    if MonthNamed(parts[1]).Some? {
      NamesAreNoNumbers(parts[1]);
    }
  }

  /** So the order of the formats does not matter. */
  lemma {:induction false} OrderOfFormatsIsIrrelevant(formats: seq<Format>, raw: string)
    requires forall f: Format :: f in formats
    ensures FirstParse(formats, raw) == FirstParse(FORMATS, raw)
  {
    FirstParseFinds(formats, raw);
    FirstParseFinds(FORMATS, raw);
    AllFormats();
  }

  lemma {:induction false} AllFormats()
    ensures forall f: Format :: f in FORMATS
  {
    forall f: Format ensures f in FORMATS {
      match f
      case DayNameShortYear => assert FORMATS[0] == f;
      case DayNameYear => assert FORMATS[1] == f;
      case DayMonthYear => assert FORMATS[2] == f;
      case YearMonthDay => assert FORMATS[3] == f;
    }
  }

  lemma {:induction false} FirstParseFinds(formats: seq<Format>, raw: string)
    ensures forall f :: f in formats && Parse(f, raw).Some? ==> FirstParse(formats, raw) == Parse(f, raw)
    ensures FirstParse(formats, raw).Some? ==> exists f :: f in formats && Parse(f, raw) == FirstParse(formats, raw)
  {
    if formats != [] {
      FirstParseFinds(formats[1..], raw);
      forall f | f in formats && Parse(f, raw).Some? ensures FirstParse(formats, raw) == Parse(f, raw) {
        if Parse(formats[0], raw).Some? {
          FormatsAreDisjoint(raw, f, formats[0]);
        }
      }
    }
  }

  // ----- printing and reading back -----

  /** A date in one of the formats, its day and month without padding. */
  function Printed(format: Format, date: Date): string
    requires date.Valid()
  {
    var day, month := Short(date.day), Short(date.month);
    match format
    case DayNameShortYear => day + "-" + MonthName(date.month) + "-" + Numeral(date.year % 100, 2)
    case DayNameYear => day + "-" + MonthName(date.month) + "-" + Numeral(date.year, 4)
    case DayMonthYear => day + "-" + month + "-" + Numeral(date.year, 4)
    case YearMonthDay => Numeral(date.year, 4) + "-" + month + "-" + day
  }

  function Short(n: nat): string {
    if n < 10 then Numeral(n, 1) else Numeral(n, 2)
  }

  predicate NoDash(s: string) {
    '-' !in s
  }

  lemma {:induction false} SplitOne(s: string)
    requires NoDash(s)
    ensures Split(s) == [s]
  {
    if s != "" {
      SplitOne(s[1..]);
      assert s == [s[0]] + s[1..];
    }
  }

  lemma {:induction false} SplitFirst(a: string, rest: string)
    requires NoDash(a)
    ensures Split(a + "-" + rest) == [a] + Split(rest)
  {
    var s := a + "-" + rest;
    if a == "" {
      assert s[1..] == rest;
    } else {
      SplitFirst(a[1..], rest);
      assert s[1..] == a[1..] + "-" + rest;
      assert a == [a[0]] + a[1..];
    }
  }

  lemma {:induction false} SplitThree(a: string, b: string, c: string)
    requires NoDash(a) && NoDash(b) && NoDash(c)
    ensures Split(a + "-" + b + "-" + c) == [a, b, c]
  {
    hide NoDash, Split;
    assert a + "-" + b + "-" + c == a + "-" + (b + "-" + c);
    SplitFirst(a, b + "-" + c);
    SplitFirst(b, c);
    SplitOne(c);
  }

  lemma {:induction false} DigitsHaveNoDash(s: string)
    requires AllDigits(s)
    ensures NoDash(s)
  {
    assert !IsDigit('-');
  }

  lemma {:induction false} ShortReads(n: nat, bound: nat, blank: bool)
    requires 1 <= n <= bound < 100
    ensures UpTo(Short(n), bound, blank) == Some(n) && NoDash(Short(n))
  {
    NumeralValue(n, if n < 10 then 1 else 2);
    DigitsHaveNoDash(Short(n));
    assert IsDigit(Short(n)[0]);
  }

  lemma {:induction false} YearReads(year: nat)
    requires year <= 9999
    ensures YearOf(Numeral(year, 4)) == Some(year) && NoDash(Numeral(year, 4))
  {
    assert Power10(4) == 10000;
    NumeralValue(year, 4);
    DigitsHaveNoDash(Numeral(year, 4));
  }

  lemma {:induction false} ShortYearReads(year: nat)
    ensures NoDash(Numeral(year % 100, 2))
    ensures ShortYearOf(Numeral(year % 100, 2)).Some?
    ensures year <= 9999 ==> (ShortYearOf(Numeral(year % 100, 2)) == Some(year) <==> 1969 <= year <= 2068)
  {
    assert Power10(2) == 100;
    NumeralValue(year % 100, 2);
    DigitsHaveNoDash(Numeral(year % 100, 2));
  }

  lemma {:induction false} NameReads(month: nat)
    requires 1 <= month <= 12
    ensures MonthNamed(MonthName(month)) == Some(month) && NoDash(MonthName(month))
  {
    hide Lowered, MonthAmong, NoDash;
    NameFound(month, 1);
    NameHasNoDash(month);
  }

  lemma {:induction false} NameHasNoDash(month: nat)
    ensures NoDash(MonthName(month))
  {
    var name := MonthName(month);
    assert name[0] != '-' && name[1] != '-' && name[2] != '-';
  }

  lemma {:induction false} NameFound(month: nat, from: nat)
    requires 1 <= from <= month <= 12
    ensures MonthAmong(Lowered(MonthName(month)), from) == Some(month)
    decreases month - from
  {
    if from < month {
      NamesDiffer(from, month);
      hide Lowered, MonthName;
      NameFound(month, from + 1);
    }
  }

  lemma {:induction false} NamesDiffer(i: nat, j: nat)
    requires 1 <= i < j <= 12
    ensures Lowered(MonthName(i)) != Lowered(MonthName(j))
  {
    var a, b := MonthName(i), MonthName(j);
    var c, d := Lowered(a), Lowered(b);
    assert c[0] != d[0] || c[1] != d[1] || c[2] != d[2];
  }

  /** Every format reads back what it printed, except that two-digit years reach from 1969 to 2068 only. */
  lemma {:induction false} PrintedReadsBack(format: Format, date: Date)
    requires date.Valid()
    ensures Parse(format, Printed(format, date)) == Some(date) <==>
            (format == DayNameShortYear ==> 1969 <= date.year <= 2068)
  {
    hide MonthNamed, UpTo, YearOf, ShortYearOf, Split, NoDash, Numeral, Short;
    ShortReads(date.day, 31, true);
    ShortReads(date.month, 12, false);
    YearReads(date.year);
    ShortYearReads(date.year);
    NameReads(date.month);
    var day, month, name := Short(date.day), Short(date.month), MonthName(date.month);
    SplitThree(day, name, Numeral(date.year % 100, 2));
    SplitThree(day, name, Numeral(date.year, 4));
    SplitThree(day, month, Numeral(date.year, 4));
    SplitThree(Numeral(date.year, 4), month, day);
  }

  lemma {:induction false} ParsedHasDash(format: Format, raw: string)
    requires Parse(format, raw).Some?
    ensures raw != "" && !IsCompact(raw)
  {
    if AllDigits(raw) {
      DigitsHaveNoDash(raw);
      SplitOne(raw);
    }
  }

  /** A date shown as d-Mon-yy is stored as YYYYMMDD. */
  lemma {:induction false} DisplayDateIsNormalised(date: Date, format: Format, absent: string, pads: bool)
    requires date.Valid() && (format == DayNameShortYear ==> 1969 <= date.year <= 2068)
    ensures Normalised(Printed(format, date), absent, pads) == Compact(date, pads)
  {
    hide Parse, Printed, Compact;
    PrintedReadsBack(format, date);
    ParsedHasDash(format, Printed(format, date));
    FirstParseFinds(FORMATS, Printed(format, date));
    AllFormats();
  }

  // ----- the twelve names and lengths, written out -----

  /** The digits of a month by its name. */
  const DIGITS: map<string, string> := map[
    "Jan" := "01", "Feb" := "02", "Mar" := "03", "Apr" := "04", "May" := "05", "Jun" := "06",
    "Jul" := "07", "Aug" := "08", "Sep" := "09", "Oct" := "10", "Nov" := "11", "Dec" := "12"]

  /** The last day of a month by its name; February has one more in a leap year. */
  const LAST_DAY: map<string, nat> := map[
    "Jan" := 31, "Feb" := 28, "Mar" := 31, "Apr" := 30, "May" := 31, "Jun" := 30,
    "Jul" := 31, "Aug" := 31, "Sep" := 30, "Oct" := 31, "Nov" := 30, "Dec" := 31]

  lemma {:induction false} MonthDigits(month: nat)
    requires month <= 12
    ensures Numeral(month, 2) == [(month / 10) as char + '0', (month % 10) as char + '0']
  {
  }

  /** The month of a name, and what the two tables say of it. */
  ghost predicate Tabled(name: string, month: nat)
    requires name in DIGITS
  {
    && name in LAST_DAY && (name == "Feb" ==> LAST_DAY[name] == 28)
    && 1 <= month <= 12 && MonthName(month) == name && Numeral(month, 2) == DIGITS[name]
    && forall year :: DaysIn(year, month) == if name == "Feb" && IsLeap(year) then 29 else LAST_DAY[name]
  }

  lemma {:induction false} NamesOfMonths(name: string) returns (month: nat)
    requires name in DIGITS
    ensures Tabled(name, month)
  {
    hide Tabled;
    if name == "Jan" || name == "Feb" || name == "Mar" {
      month := FirstQuarter(name);
    } else if name == "Apr" || name == "May" || name == "Jun" {
      month := SecondQuarter(name);
    } else if name == "Jul" || name == "Aug" || name == "Sep" {
      month := ThirdQuarter(name);
    } else {
      month := LastQuarter(name);
    }
  }

  lemma {:induction false} FirstQuarter(name: string) returns (month: nat)
    requires name == "Jan" || name == "Feb" || name == "Mar"
    ensures name in DIGITS && Tabled(name, month)
  {
    month := if name == "Jan" then 1 else if name == "Feb" then 2 else 3;
    MonthDigits(month);
    hide Numeral;
  }

  lemma {:induction false} SecondQuarter(name: string) returns (month: nat)
    requires name == "Apr" || name == "May" || name == "Jun"
    ensures name in DIGITS && Tabled(name, month)
  {
    month := if name == "Apr" then 4 else if name == "May" then 5 else 6;
    MonthDigits(month);
    hide Numeral;
  }

  lemma {:induction false} ThirdQuarter(name: string) returns (month: nat)
    requires name == "Jul" || name == "Aug" || name == "Sep"
    ensures name in DIGITS && Tabled(name, month)
  {
    month := if name == "Jul" then 7 else if name == "Aug" then 8 else 9;
    MonthDigits(month);
    hide Numeral;
  }

  lemma {:induction false} LastQuarter(name: string) returns (month: nat)
    requires name == "Oct" || name == "Nov" || name == "Dec"
    ensures name in DIGITS && Tabled(name, month)
  {
    month := if name == "Oct" then 10 else if name == "Nov" then 11 else 12;
    MonthDigits(month);
    hide Numeral;
  }

  /** Every date shown as d-Mon-yy: its text is accepted exactly when the month has the day, and is stored
      as the century, the year, the month's digits and the day. */
  lemma {:induction false} NamedDateIsStored(name: string, day: nat, yy: nat, absent: string, pads: bool)
    requires name in DIGITS && 1 <= day <= 31 && yy <= 99
    ensures name in LAST_DAY
    ensures Normalised(Short(day) + "-" + name + "-" + Numeral(yy, 2), absent, pads) ==
            if day <= LAST_DAY[name] || (name == "Feb" && yy % 4 == 0 && day == 29)
            then (if yy <= 68 then "20" else "19") + Numeral(yy, 2) + DIGITS[name] + Numeral(day, 2)
            else absent
  {
    hide DIGITS, LAST_DAY, MonthName, Numeral, Parse, Compact, DaysIn, IsLeap;
    var month := NamesOfMonths(name);
    var year := yy + if yy <= 68 then 2000 else 1900;
    var raw := Short(day) + "-" + name + "-" + Numeral(yy, 2);
    LeapByFour(yy);
    if day <= DaysIn(year, month) {
      var date := Date(year, month, day);
      assert date.Valid() && year % 100 == yy;
      assert raw == Printed(DayNameShortYear, date);
      DisplayDateIsNormalised(date, DayNameShortYear, absent, pads);
      CompactParts(date, pads, yy);
    } else {
      NoSuchDay(day, month, yy);
      DashIsNotCompact(Short(day), name + "-" + Numeral(yy, 2));
      assert raw == Short(day) + "-" + (name + "-" + Numeral(yy, 2));
      TextOfDate(raw, absent, pads);
    }
  }

  lemma {:induction false} LeapByFour(yy: nat)
    requires yy <= 99
    ensures IsLeap(yy + if yy <= 68 then 2000 else 1900) <==> yy % 4 == 0
  {
  }

  lemma {:induction false} FourDigits(n: nat)
    ensures Numeral(n, 4) == Numeral(n / 100, 2) + Numeral(n % 100, 2)
  {
    DigitsOf(n / 100);
    DigitsOf(n % 100);
    assert n / 10 / 10 == n / 100 && n % 100 % 10 == n % 10 && n % 100 / 10 == n / 10 % 10;
    TwoMore(n, 2);
    hide Numeral;
  }

  lemma {:induction false} TwoMore(n: nat, width: nat)
    ensures Numeral(n, width + 2) == Numeral(n / 10 / 10, width) + [(n / 10 % 10) as char + '0', (n % 10) as char + '0']
  {
  }

  lemma {:induction false} CompactParts(date: Date, pads: bool, yy: nat)
    requires yy <= 99 && date.year == yy + if yy <= 68 then 2000 else 1900
    ensures Compact(date, pads) == (if yy <= 68 then "20" else "19") + Numeral(yy, 2) + Numeral(date.month, 2) + Numeral(date.day, 2)
  {
    hide Numeral;
    Century(yy);
    FourDigits(date.year);
    DigitsOf(if yy <= 68 then 20 else 19);
  }

  lemma {:induction false} Century(yy: nat)
    requires yy <= 99
    ensures (yy + 2000) / 100 == 20 && (yy + 2000) % 100 == yy && (yy + 1900) / 100 == 19 && (yy + 1900) % 100 == yy
  {
  }

  /** The text of a day that its month does not have is no date. */
  lemma {:induction false} NoSuchDay(day: nat, month: nat, yy: nat)
    requires 1 <= day <= 31 && 1 <= month <= 12 && yy <= 99
    requires day > DaysIn(yy + if yy <= 68 then 2000 else 1900, month)
    ensures forall f :: Parse(f, Short(day) + "-" + MonthName(month) + "-" + Numeral(yy, 2)).None?
  {
    hide MonthNamed, UpTo, Split, NoDash, Numeral, Short, DaysIn, YearOf, ShortYearOf;
    ShortReads(day, 31, true);
    NameReads(month);
    TwoDigitsRead(yy);
    ShortIsNoYear(day);
    SplitThree(Short(day), MonthName(month), Numeral(yy, 2));
  }

  lemma {:induction false} TwoDigitsRead(yy: nat)
    requires yy <= 99
    ensures NoDash(Numeral(yy, 2)) && YearOf(Numeral(yy, 2)).None?
    ensures ShortYearOf(Numeral(yy, 2)) == Some(yy + if yy <= 68 then 2000 else 1900)
  {
    assert Power10(2) == 100;
    NumeralValue(yy, 2);
    DigitsHaveNoDash(Numeral(yy, 2));
  }

  lemma {:induction false} ShortIsNoYear(n: nat)
    ensures YearOf(Short(n)).None?
  {
  }

  lemma {:induction false} DashIsNotCompact(a: string, b: string)
    ensures a + "-" + b != "" && !IsCompact(a + "-" + b)
  {
    assert (a + "-" + b)[|a|] == '-';
  }

  /** A text that no format accepts. */
  lemma {:induction false} TextOfDate(raw: string, absent: string, pads: bool)
    requires forall f :: Parse(f, raw).None?
    requires raw != "" && !IsCompact(raw)
    ensures Normalised(raw, absent, pads) == absent
  {
    hide Parse;
    FirstParseFinds(FORMATS, raw);
  }

  /** Letters count the same in either case. */
  ghost predicate SameLetters(a: string, b: string) {
    && |a| == |b|
    && forall i :: 0 <= i < |a| ==> a[i] == b[i] || ('A' <= a[i] <= 'Z' && b[i] == a[i] + 32 as char)
  }

  /** The name of a month is read in any case. */
  lemma {:induction false} CaseDoesNotMatter(a: string, b: string)
    requires SameLetters(a, b)
    ensures MonthNamed(a) == MonthNamed(b)
  {
    assert Lowered(a) == Lowered(b);
  }

  /** The 29th of February exists in every fourth year, but for centuries that 400 does not divide. */
  lemma {:induction false} LeapDays(year: nat)
    requires 1 <= year <= 9999
    ensures Parse(YearMonthDay, Numeral(year, 4) + "-2-29").Some? <==> year % 400 == 0 || (year % 100 != 0 && year % 4 == 0)
  {
    hide Split, Numeral, YearOf, UpTo, NoDash;
    YearReads(year);
    ShortReads(2, 12, false);
    ShortReads(29, 31, true);
    DigitsOf(2);
    DigitsOf(29);
    SplitThree(Numeral(year, 4), "2", "29");
    assert Numeral(year, 4) + "-" + "2" + "-" + "29" == Numeral(year, 4) + "-2-29";
  }

  /** A one-digit day may be padded with a blank or a zero, a month with a zero. */
  lemma {:induction false} PaddingIsRead(n: nat)
    requires 1 <= n <= 9
    ensures UpTo([' ', '0' + n as char], 31, true) == Some(n) && UpTo(['0', '0' + n as char], 31, true) == Some(n)
    ensures UpTo(['0', '0' + n as char], 12, false) == Some(n) && UpTo([' ', '0' + n as char], 12, false) == None
  {
    var digit := ['0' + n as char];
    assert [' ', '0' + n as char][1..] == digit;
    assert Value(digit) == n && Value(['0', '0' + n as char]) == n by {
      assert digit[..0] == "" && ['0', '0' + n as char][..1] == ['0'] && ['0'][..0] == "";
    }
    assert !IsDigit([' ', '0' + n as char][0]);
  }

  // ----- nothing else is accepted -----

  lemma {:induction false} NumeralOfValue(s: string)
    requires AllDigits(s)
    ensures Numeral(Value(s), |s|) == s
  {
    if s != "" {
      var n := |s| - 1;
      NumeralOfValue(s[..n]);
      assert s == s[..n] + [s[n]];
      assert Value(s) / 10 == Value(s[..n]) && Value(s) % 10 == (s[n] - '0') as nat;
    }
  }

  /** How a day or a month may be written. */
  ghost predicate Writes(s: string, n: nat, blank: bool) {
    (s == Numeral(n, 1) && n < 10) || s == Numeral(n, 2) || (blank && n < 10 && s == " " + Numeral(n, 1))
  }

  lemma {:induction false} UpToReads(s: string, bound: nat, blank: bool)
    requires UpTo(s, bound, blank).Some?
    ensures var n := UpTo(s, bound, blank).value; 1 <= n <= bound && n <= 99 && Writes(s, n, blank)
  {
    var digits := if blank && |s| == 2 && s[0] == ' ' then s[1..] else s;
    NumeralOfValue(digits);
    ValueBelow(digits);
    assert Power10(1) == 10 && Power10(2) == 100;
    if digits != s {
      assert s == " " + digits;
    }
  }

  lemma {:induction false} ValueBelow(s: string)
    requires AllDigits(s)
    ensures Value(s) < Power10(|s|)
  {
    if s != "" {
      ValueBelow(s[..|s| - 1]);
    }
  }

  ghost predicate Reads(format: Format, raw: string, date: Date) {
    exists a, b, c :: raw == a + "-" + b + "-" + c && NoDash(a) && NoDash(b) && NoDash(c) && ReadsParts(format, a, b, c, date)
  }

  ghost predicate ReadsParts(format: Format, a: string, b: string, c: string, date: Date) {
    match format
    case DayNameShortYear =>
      Writes(a, date.day, true) && Lowered(b) == Lowered(MonthName(date.month)) && c == Numeral(date.year % 100, 2) && 1969 <= date.year <= 2068
    case DayNameYear => Writes(a, date.day, true) && Lowered(b) == Lowered(MonthName(date.month)) && c == Numeral(date.year, 4)
    case DayMonthYear => Writes(a, date.day, true) && Writes(b, date.month, false) && c == Numeral(date.year, 4)
    case YearMonthDay => a == Numeral(date.year, 4) && Writes(b, date.month, false) && Writes(c, date.day, true)
  }

  /** The parts of a text, joined again. */
  function Joined(parts: seq<string>): string
    requires parts != []
  {
    if |parts| == 1 then parts[0] else parts[0] + "-" + Joined(parts[1..])
  }

  lemma {:induction false} SplitJoins(s: string)
    ensures Joined(Split(s)) == s && forall p :: p in Split(s) ==> NoDash(p)
  {
    if s != "" {
      SplitJoins(s[1..]);
      var rest := Split(s[1..]);
      assert s == [s[0]] + s[1..];
      if s[0] == '-' {
        assert ([""] + rest)[1..] == rest;
        assert "" + "-" + s[1..] == s;
      } else {
        FirstLonger(s[0], rest);
      }
    }
  }

  lemma {:induction false} FirstLonger(c: char, parts: seq<string>)
    requires parts != [] && c != '-' && NoDash(parts[0])
    ensures Joined([[c] + parts[0]] + parts[1..]) == [c] + Joined(parts) && NoDash([c] + parts[0])
  {
    var longer := [[c] + parts[0]] + parts[1..];
    assert longer[1..] == parts[1..];
    if |parts| > 1 {
      assert [c] + parts[0] + "-" + Joined(parts[1..]) == [c] + (parts[0] + "-" + Joined(parts[1..]));
    }
  }

  lemma {:induction false} JoinedThree(parts: seq<string>)
    requires |parts| == 3
    ensures Joined(parts) == parts[0] + "-" + parts[1] + "-" + parts[2]
  {
    assert parts[1..][1..] == [parts[2]];
    assert Joined(parts[1..][1..]) == parts[2];
    assert Joined(parts[1..]) == parts[1] + "-" + parts[2];
    assert parts[0] + "-" + (parts[1] + "-" + parts[2]) == parts[0] + "-" + parts[1] + "-" + parts[2];
  }

  /** A text is accepted only if it shows the date: the year in full or in two digits from 1969 to 2068, the
      month by its name in any case or by its number, the day by its number, and nothing else. */
  lemma {:induction false} OnlyDatesAreAccepted(format: Format, raw: string)
    requires Parse(format, raw).Some?
    ensures Reads(format, raw, Parse(format, raw).value)
  {
    hide Split, UpTo, MonthNamed, YearOf, ShortYearOf, ReadsParts, Joined, NoDash;
    SplitJoins(raw);
    var parts := Split(raw);
    JoinedThree(parts);
    assert parts[0] in parts && parts[1] in parts && parts[2] in parts;
    var a, b, c := parts[0], parts[1], parts[2];
    PartsRead(format, a, b, c, Parse(format, raw).value);
    assert raw == a + "-" + b + "-" + c && NoDash(a) && NoDash(b) && NoDash(c) && ReadsParts(format, a, b, c, Parse(format, raw).value);
  }

  lemma {:induction false} PartsRead(format: Format, a: string, b: string, c: string, date: Date)
    requires match format
             case DayNameShortYear =>
               ShortYearOf(c) == Some(date.year) && MonthNamed(b) == Some(date.month) && UpTo(a, 31, true) == Some(date.day)
             case DayNameYear => YearOf(c) == Some(date.year) && MonthNamed(b) == Some(date.month) && UpTo(a, 31, true) == Some(date.day)
             case DayMonthYear => YearOf(c) == Some(date.year) && UpTo(b, 12, false) == Some(date.month) && UpTo(a, 31, true) == Some(date.day)
             case YearMonthDay => YearOf(a) == Some(date.year) && UpTo(b, 12, false) == Some(date.month) && UpTo(c, 31, true) == Some(date.day)
    ensures ReadsParts(format, a, b, c, date)
  {
    hide Writes, Numeral, NoDash, Lowered, MonthName, UpTo;
    match format
    case DayNameShortYear =>
      UpToReads(a, 31, true);
      ShortYearShown(c);
    case DayNameYear =>
      UpToReads(a, 31, true);
      NumeralOfValue(c);
    case DayMonthYear =>
      UpToReads(a, 31, true);
      UpToReads(b, 12, false);
      NumeralOfValue(c);
    case YearMonthDay =>
      UpToReads(c, 31, true);
      UpToReads(b, 12, false);
      NumeralOfValue(a);
  }

  lemma {:induction false} ShortYearShown(c: string)
    requires ShortYearOf(c).Some?
    ensures var year := ShortYearOf(c).value; c == Numeral(year % 100, 2) && 1969 <= year <= 2068
  {
    NumeralOfValue(c);
    ValueBelow(c);
    assert Power10(2) == 100;
    hide Numeral, Value, AllDigits, Power10;
    Century(Value(c));
  }

  lemma {:induction false} DigitsOf(n: nat)
    ensures Numeral(n, 1) == [(n % 10) as char + '0']
    ensures Numeral(n, 2) == [(n / 10 % 10) as char + '0', (n % 10) as char + '0']
  {
  }

  /** The dates of the unit tests. */
  lemma {:induction false} KnownDates(pads: bool)
    ensures Normalised("30-Jun-26", "", pads) == "20260630"
    ensures Normalised("1-Apr-17", "", pads) == "20170401"
    ensures Normalised("20240401", "", pads) == "20240401"
    ensures Normalised("", "", pads) == "" && Normalised("not-a-date", "", pads) == ""
  {
    hide Numeral, Normalised, LAST_DAY;
    NamedDateIsStored("Jun", 30, 26, "", pads);
    NamedDateIsStored("Apr", 1, 17, "", pads);
    DigitsOf(30);
    DigitsOf(26);
    DigitsOf(1);
    DigitsOf(17);
    LastDays();
    assert "30" + "-" + "Jun" + "-" + "26" == "30-Jun-26";
    assert "1" + "-" + "Apr" + "-" + "17" == "1-Apr-17";
    OtherTexts(pads);
  }

  lemma {:induction false} LastDays()
    ensures "Jun" in LAST_DAY && LAST_DAY["Jun"] == 30 && "Apr" in LAST_DAY && LAST_DAY["Apr"] == 30
  {
  }

  lemma {:induction false} OtherTexts(pads: bool)
    ensures Normalised("20240401", "", pads) == "20240401"
    ensures Normalised("", "", pads) == "" && Normalised("not-a-date", "", pads) == ""
  {
    hide Split, MonthNamed, UpTo, FirstParse;
    assert IsCompact("20240401");
    assert "not-a-date" == "not" + "-" + "a" + "-" + "date";
    assert |"not-a-date"| != 8;
    NotADate();
    TextOfDate("not-a-date", "", pads);
  }

  lemma {:induction false} NotADate()
    ensures forall f :: Parse(f, "not-a-date").None?
  {
    hide Split, MonthNamed, Value;
    assert "not-a-date" == "not" + "-" + "a" + "-" + "date";
    SplitThree("not", "a", "date");
    assert !IsDigit("date"[0]);
    assert |"not"| == 3;
  }

  /** Normalising twice is normalising once, exactly when the platform pads years or the date read is
      not before the year 1000. */
  lemma {:induction false} NormalisingIsIdempotent(raw: string, pads: bool)
    ensures var once := Normalised(raw, "", pads);
            Normalised(once, "", pads) == once <==>
            (raw == "" || IsCompact(raw) || FirstParse(FORMATS, raw).None? || pads || FirstParse(FORMATS, raw).value.year >= 1000)
  {
    if raw != "" && !IsCompact(raw) && FirstParse(FORMATS, raw).Some? {
      var date := FirstParse(FORMATS, raw).value;
      var once := Compact(date, pads);
      CompactIsDigits(date, pads);
      if !pads && date.year < 1000 {
        DigitsHaveNoDash(once);
        SplitOne(once);
        FirstParseFinds(FORMATS, once);
        assert forall f :: Parse(f, once).None?;
      }
    }
  }

  lemma {:induction false} CompactIsDigits(date: Date, pads: bool)
    ensures AllDigits(Compact(date, pads))
    ensures |Compact(date, pads)| == 8 <==> pads || date.year >= 1000
  {
  }

  // ----- the order of compact dates -----

  /** The order of strings. */
  predicate Less(a: string, b: string) {
    b != "" && (a == "" || a[0] < b[0] || (a[0] == b[0] && Less(a[1..], b[1..])))
  }

  lemma {:induction false} ValueOfFirst(s: string)
    requires AllDigits(s) && s != ""
    ensures AllDigits(s[1..]) && Value(s) == (s[0] - '0') as nat * Power10(|s| - 1) + Value(s[1..])
    ensures Value(s[1..]) < Power10(|s| - 1)
  {
    var n := |s| - 1;
    if n == 0 {
      assert s[..0] == "" && s[1..] == "";
    } else {
      ValueOfFirst(s[..n]);
      var first, middle, last, p := (s[0] - '0') as nat, Value(s[..n][1..]), (s[n] - '0') as nat, Power10(n - 1);
      assert s[..n][1..] == s[1..][..n - 1] && s[1..][n - 1] == s[n];
      assert Value(s[1..]) == 10 * middle + last;
      assert Value(s) == 10 * (first * p + middle) + last;
      TenTimes(first, p, middle, last);
    }
  }

  lemma {:induction false} TenTimes(first: nat, p: nat, middle: nat, last: nat)
    ensures 10 * (first * p + middle) + last == first * (10 * p) + (10 * middle + last)
  {
  }

  lemma {:induction false} LessIsByValue(a: string, b: string)
    requires AllDigits(a) && AllDigits(b) && |a| == |b|
    ensures Less(a, b) <==> Value(a) < Value(b)
  {
    if a != "" {
      ValueOfFirst(a);
      ValueOfFirst(b);
      LessIsByValue(a[1..], b[1..]);
      DigitsCompare((a[0] - '0') as nat, (b[0] - '0') as nat, Power10(|a| - 1), Value(a[1..]), Value(b[1..]));
    }
  }

  lemma {:induction false} DigitsCompare(x: nat, y: nat, p: nat, r: nat, q: nat)
    requires r < p && q < p
    ensures x * p + r < y * p + q <==> x < y || (x == y && r < q)
  {
    if x < y {
      assert (x + 1) * p <= y * p;
    } else if y < x {
      assert (y + 1) * p <= x * p;
    }
  }

  lemma {:induction false} ValueOfConcat(a: string, b: string)
    requires AllDigits(a) && AllDigits(b)
    ensures AllDigits(a + b) && Value(a + b) == Value(a) * Power10(|b|) + Value(b)
    decreases |b|
  {
    if b == "" {
      assert a + b == a;
    } else {
      var n := |b| - 1;
      ValueOfConcat(a, b[..n]);
      assert (a + b)[..|a + b| - 1] == a + b[..n];
      TenTimes(Value(a), Power10(n), Value(b[..n]), (b[n] - '0') as nat);
    }
  }

  lemma {:induction false} CompactValue(date: Date)
    requires date.Valid() && date.year >= 1000
    ensures AllDigits(Compact(date, false)) && Value(Compact(date, false)) == date.year * 10000 + date.month * 100 + date.day
  {
    assert Power10(4) == 10000 && Power10(2) == 100;
    NumeralValue(date.year, 4);
    NumeralValue(date.month, 2);
    NumeralValue(date.day, 2);
    var year, month, day := Numeral(date.year, 4), Numeral(date.month, 2), Numeral(date.day, 2);
    hide Value, AllDigits, Numeral, Power10;
    ValueOfConcat(year, month);
    ValueOfConcat(year + month, day);
  }

  /** From the year 1000 on, stored dates sort as the calendar does. */
  lemma {:induction false} CompactDatesSort(a: Date, b: Date, pads: bool)
    requires a.Valid() && b.Valid() && a.year >= 1000 && b.year >= 1000
    ensures Less(Compact(a, pads), Compact(b, pads)) <==> a.Before(b)
    ensures Compact(a, pads) == Compact(b, pads) <==> a == b
  {
    assert Compact(a, pads) == Compact(a, false) && Compact(b, pads) == Compact(b, false);
    CompactIsDigits(a, false);
    CompactIsDigits(b, false);
    CompactValue(a);
    CompactValue(b);
    hide Compact, Less, Value;
    LessIsByValue(Compact(a, false), Compact(b, false));
  }
}
