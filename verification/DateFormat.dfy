/** Dates printed by a format and read back by the same format (date.js), for ASCII text. */
module DateFormat {
  import opened Common
  import opened Text

  /** A number with a leading zero if it has one digit. */
  function LZ(x: nat): string { (if x > 9 then "" else "0") + Dec(x) }

  lemma LZReads(n: nat)
    requires n < 100
    ensures IsInteger(LZ(n)) && ToNumber(LZ(n)) == n && |LZ(n)| == 2
  {
    DecReads(n);
    if n <= 9 {
      assert LZ(n)[..1] == "0" && "0"[..0] == "";
      assert ToNumber("0") == 0;
    } else {
      assert LZ(n) == Dec(n);
    }
  }

  // ---------- formats ----------

  datatype Unit = Month | Day | Hour12 | Hour24 | Hour11 | HourFrom1 | Minute | Second

  /** `wide` numbers have two digits, the others as many as they need. */
  datatype Token = Year4 | Year2 | Year | MonthName | MonthAbbr | DayName | DayAbbr | AmPm
    | Number(u: Unit, wide: bool) | Literal(text: string)

  function Classify(s: string): Token
  {
    match s
    case "yyyy" => Year4 case "yy" => Year2 case "y" => Year
    case "MMM" => MonthName case "NNN" => MonthAbbr
    case "EE" => DayName case "E" => DayAbbr
    case "a" => AmPm
    case "MM" => Number(Month, true) case "M" => Number(Month, false)
    case "dd" => Number(Day, true) case "d" => Number(Day, false)
    case "hh" => Number(Hour12, true) case "h" => Number(Hour12, false)
    case "HH" => Number(Hour24, true) case "H" => Number(Hour24, false)
    case "KK" => Number(Hour11, true) case "K" => Number(Hour11, false)
    case "kk" => Number(HourFrom1, true) case "k" => Number(HourFrom1, false)
    case "mm" => Number(Minute, true) case "m" => Number(Minute, false)
    case "ss" => Number(Second, true) case "s" => Number(Second, false)
    case _ => Literal(s)
  }

  /** How many characters at the start are the same. */
  function Run(f: string): (n: nat)
    requires f != ""
    ensures 1 <= n <= |f|
  {
    if |f| > 1 && f[1] == f[0] then 1 + Run(f[1..]) else 1
  }

  /** A format is split into its maximal runs of one character. */
  function Tokens(f: string): seq<Token>
    decreases |f|
  {
    if f == "" then [] else [Classify(f[..Run(f)])] + Tokens(f[Run(f)..])
  }

  lemma {:induction false} RunIsMaximal(f: string, n: nat)
    requires 1 <= n <= |f| && (forall i :: 0 <= i < n ==> f[i] == f[0]) && (n == |f| || f[n] != f[0])
    ensures Run(f) == n
    decreases n
  {
    if n > 1 {
      RunIsMaximal(f[1..], n - 1);
    }
  }

  // ---------- dates ----------

  /** The fields of a date; `weekday` is 0 for Sunday and months count from 1. */
  datatype Date = Date(year: int, month: int, day: int, weekday: int, hour: int, minute: int, second: int)

  /** The fields that parsing recovers. */
  datatype Fields = Fields(year: int, month: int, day: int, hour: int, minute: int, second: int)

  function FieldsOf(d: Date): Fields { Fields(d.year, d.month, d.day, d.hour, d.minute, d.second) }

  predicate LeapYear(year: int) { (year % 4 == 0 && year % 100 != 0) || year % 400 == 0 }

  function DaysIn(year: int, month: int): int
  {
    if month == 2 then (if LeapYear(year) then 29 else 28)
    else if month in [4, 6, 9, 11] then 30
    else 31
  }

  predicate Valid(d: Date)
  {
    && 1 <= d.month <= 12 && 1 <= d.day <= DaysIn(d.year, d.month) && 0 <= d.weekday <= 6
    && 0 <= d.hour <= 23 && 0 <= d.minute <= 59 && 0 <= d.second <= 59
  }

  const MONTH_NAMES: seq<string> := [
    "January", "February", "March", "April", "May", "June", "July", "August", "September", "October", "November",
    "December",
    "Jan", "Feb", "Mar", "Apr", "May", "Jun", "Jul", "Aug", "Sep", "Oct", "Nov", "Dec"]

  const DAY_NAMES: seq<string> := [
    "Sunday", "Monday", "Tuesday", "Wednesday", "Thursday", "Friday", "Saturday",
    "Sun", "Mon", "Tue", "Wed", "Thu", "Fri", "Sat"]

  // ---------- printing ----------

  /** `getYear()` counts from 1900; texts shorter than four characters get 1900 added back. */
  function YearText(year: int): string
  {
    var y := year - 1900;
    var text := if y < 0 then "-" + Dec(-y) else Dec(y);
    if |text| < 4 then (if year < 0 then "-" + Dec(-year) else Dec(year)) else text
  }

  function Shown(d: Date, u: Unit): int
  {
    match u
    case Month => d.month
    case Day => d.day
    case Hour12 => if d.hour == 0 then 12 else if d.hour > 12 then d.hour - 12 else d.hour
    case Hour24 => d.hour
    case Hour11 => if d.hour > 11 then d.hour - 12 else d.hour
    case HourFrom1 => d.hour + 1
    case Minute => d.minute
    case Second => d.second
  }

  function Show(d: Date, t: Token): string
    requires Valid(d)
  {
    match t
    case Year4 => YearText(d.year)
    case Year => YearText(d.year)
    case Year2 => Substring(YearText(d.year), 2, 4)
    case MonthName => MONTH_NAMES[d.month - 1]
    case MonthAbbr => MONTH_NAMES[d.month + 11]
    case DayName => DAY_NAMES[d.weekday]
    case DayAbbr => DAY_NAMES[d.weekday + 7]
    case AmPm => if d.hour > 11 then "PM" else "AM"
    case Number(u, wide) => if wide then LZ(Shown(d, u)) else Dec(Shown(d, u))
    case Literal(text) => text
  }

  function Print(d: Date, ts: seq<Token>): string
    requires Valid(d)
  {
    if ts == [] then "" else Show(d, ts[0]) + Print(d, ts[1..])
  }

  // ---------- parsing ----------

  /** The fields read so far; `pm` is what an AM/PM token said. */
  datatype Reading = Reading(year: int, month: int, day: int, hour: int, minute: int, second: int, pm: Option<bool>)

  function Prefix(s: string, n: nat): string { if n <= |s| then s[..n] else s }

  /** The longest prefix of at most max and at least min digits. */
  function GetInt(s: string, min: nat, max: int): Option<string>
    decreases max
  {
    if max < min then None
    else
      var token := Prefix(s, max);
      if |token| < min then None else if IsInteger(token) then Some(token) else GetInt(s, min, max - 1)
  }

  function Lower(c: char): char { if 'A' <= c <= 'Z' then (c as int + 32) as char else c }

  predicate SameText(a: string, b: string) { |a| == |b| && forall i :: 0 <= i < |a| ==> Lower(a[i]) == Lower(b[i]) }

  /** The first name from position i on that the text starts with, whatever the case of letters. */
  function FirstName(s: string, names: seq<string>, i: nat): Option<nat>
    decreases |names| - i
  {
    if i >= |names| then None
    else if SameText(Prefix(s, |names[i]|), names[i]) then Some(i)
    else FirstName(s, names, i + 1)
  }

  function Range(u: Unit): (int, int)
  {
    match u
    case Month => (1, 12) case Day => (1, 31)
    case Hour12 => (1, 12) case Hour24 => (0, 23) case Hour11 => (0, 11) case HourFrom1 => (1, 24)
    case Minute => (0, 59) case Second => (0, 59)
  }

  function With(r: Reading, u: Unit, n: int): Reading
  {
    match u
    case Month => r.(month := n)
    case Day => r.(day := n)
    case Hour12 => r.(hour := n)
    case Hour24 => r.(hour := n)
    case Hour11 => r.(hour := n)
    case HourFrom1 => r.(hour := n - 1)
    case Minute => r.(minute := n)
    case Second => r.(second := n)
  }

  function FullYear(digits: string): int
    requires IsInteger(digits)
  {
    if |digits| == 2 then (if ToNumber(digits) > 70 then 1900 else 2000) + ToNumber(digits) else ToNumber(digits)
  }

  lemma {:induction false} GetIntIsPrefix(s: string, min: nat, max: int)
    ensures var g := GetInt(s, min, max);
      g.Some? ==> IsInteger(g.value) && min <= |g.value| <= |s| && g.value == s[..|g.value|]
    decreases max
  {
    if max >= min { GetIntIsPrefix(s, min, max - 1); }
  }

  /** Reads one token off the text: the new fields and the number of characters read, unless it does not match. */
  function Read(s: string, t: Token, r: Reading): Option<(Reading, nat)>
  {
    match t
    case Literal(text) => if Prefix(s, |text|) == text then Some((r, |text|)) else None
    case AmPm =>
      if SameText(Prefix(s, 2), "am") then Some((r.(pm := Some(false)), 2))
      else if SameText(Prefix(s, 2), "pm") then Some((r.(pm := Some(true)), 2))
      else None
    case MonthName => ReadMonth(FirstName(s, MONTH_NAMES, 0), r)
    case MonthAbbr => ReadMonth(FirstName(s, MONTH_NAMES, 12), r)
    case DayName => Some((r, SkippedDay(FirstName(s, DAY_NAMES, 0))))
    case DayAbbr => Some((r, SkippedDay(FirstName(s, DAY_NAMES, 0))))
    case Number(u, wide) => ReadNumber(GetInt(s, if wide then 2 else 1, 2), u, r)
    case Year4 => ReadYear(GetInt(s, 4, 4), r)
    case Year2 => ReadYear(GetInt(s, 2, 2), r)
    case Year => ReadYear(GetInt(s, 2, 4), r)
  }

  function ReadMonth(i: Option<nat>, r: Reading): Option<(Reading, nat)>
  {
    if i.None? || i.value >= |MONTH_NAMES| then None
    else Some((r.(month := if i.value + 1 > 12 then i.value + 1 - 12 else i.value + 1), |MONTH_NAMES[i.value]|))
  }

  /** A day name is skipped if there is one. */
  function SkippedDay(i: Option<nat>): nat
  {
    if i.Some? && i.value < |DAY_NAMES| then |DAY_NAMES[i.value]| else 0
  }

  function ReadYear(digits: Option<string>, r: Reading): Option<(Reading, nat)>
  {
    if digits.Some? && IsInteger(digits.value) then Some((r.(year := FullYear(digits.value)), |digits.value|)) else None
  }

  function ReadNumber(digits: Option<string>, u: Unit, r: Reading): Option<(Reading, nat)>
  {
    if digits.Some? && IsInteger(digits.value) && Range(u).0 <= ToNumber(digits.value) <= Range(u).1 then
      Some((With(r, u, ToNumber(digits.value)), |digits.value|))
    else None
  }

  function ReadAll(s: string, ts: seq<Token>, r: Reading): Option<Reading>
    decreases |ts|
  {
    if ts == [] then (if s == "" then Some(r) else None)
    else
      match Read(s, ts[0], r)
      case None => None
      case Some(p) => if p.1 <= |s| then ReadAll(s[p.1..], ts[1..], p.0) else None
  }

  /** The final checks, and the date that is made of the fields: years 0 to 99 stand for 1900 to 1999. */
  function Finish(r: Reading): Option<Fields>
  {
    if r.day > DaysIn(r.year, r.month) then None
    else
      Some(Fields(if 0 <= r.year <= 99 then 1900 + r.year else r.year, r.month, r.day, Hour(r), r.minute, r.second))
  }

  function Hour(r: Reading): int
  {
    if r.hour < 12 && r.pm == Some(true) then r.hour + 12
    else if r.hour > 11 && r.pm == Some(false) then r.hour - 12
    else r.hour
  }

  /** What is assumed of the fields that the format does not mention. */
  function Start(now: Date): Reading
  {
    Reading(now.year - 1900, now.month, 1, now.hour, now.minute, now.second, None)
  }

  function Parse(s: string, ts: seq<Token>, now: Date): Option<Fields>
  {
    match ReadAll(s, ts, Start(now)) case None => None case Some(r) => Finish(r)
  }

  // ---------- what one token reads back ----------

  /** The number that is printed for a year: from 2900 on, the years since 1900 have four digits already. */
  function YearShown(year: int): int { if year >= 2900 then year - 1900 else year }

  /** The fields after reading what a token shows of d. */
  function Recall(d: Date, t: Token, r: Reading): Reading
  {
    match t
    case Year4 => r.(year := YearShown(d.year))
    case Year => r.(year := YearShown(d.year))
    case Year2 =>
      var yy := YearShown(d.year) % 100;
      r.(year := if yy > 70 then 1900 + yy else 2000 + yy)
    case MonthName => r.(month := d.month)
    case MonthAbbr => r.(month := d.month)
    case AmPm => r.(pm := Some(d.hour > 11))
    case Number(u, _) => With(r, u, Shown(d, u))
    case _ => r
  }

  /** The years that are printed with four digits. */
  predicate Printable(d: Date) { Valid(d) && 1801 <= d.year <= 11899 }

  /** What follows a token of variable width must not look like a part of it. */
  predicate Follows(t: Token, rest: string)
  {
    && (t.Number? && !t.wide ==> rest == "" || !IsDigit(rest[0]))
    && (t.DayAbbr? ==> rest == "" || !IsLetter(rest[0]))
  }

  lemma GetIntTakesAll(digits: string, rest: string, min: nat, max: int)
    requires IsInteger(digits) && min <= |digits| == max
    ensures GetInt(digits + rest, min, max) == Some(digits)
  {
    assert Prefix(digits + rest, max) == digits;
  }

  lemma GetIntTakesOne(digits: string, rest: string)
    requires IsInteger(digits) && |digits| == 1 && (rest == "" || !IsDigit(rest[0]))
    ensures GetInt(digits + rest, 1, 2) == Some(digits)
  {
    GetIntTakesAll(digits, rest, 1, 1);
    if rest == "" {
      assert Prefix(digits + rest, 2) == digits;
    } else {
      assert Prefix(digits + rest, 2)[1] == rest[0];
    }
  }

  lemma ReadNumberBack(d: Date, u: Unit, wide: bool, rest: string, r: Reading)
    requires Valid(d) && Follows(Number(u, wide), rest)
    ensures Read(Show(d, Number(u, wide)) + rest, Number(u, wide), r) ==
      Some((Recall(d, Number(u, wide), r), |Show(d, Number(u, wide))|))
  {
    var n := Shown(d, u);
    assert Range(u).0 <= n <= Range(u).1 < 100;
    hide Shown;
    DecReads(n);
    LZReads(n);
    if wide || n > 9 {
      GetIntTakesAll(Show(d, Number(u, wide)), rest, if wide then 2 else 1, 2);
    } else {
      GetIntTakesOne(Dec(n), rest);
    }
  }

  lemma YearTextIsDecimal(year: int)
    requires 1801 <= year <= 11899
    ensures var n := YearShown(year);
      YearText(year) == Dec(n) && |Dec(n)| == 4 && IsInteger(Dec(n)) && ToNumber(Dec(n)) == n
  {
    DecReads(YearShown(year));
    if year < 1900 { DecReads(1900 - year); } else { DecReads(year - 1900); }
  }

  lemma LastTwoDigits(year: int)
    requires 1000 <= year <= 9999
    ensures var yy := Substring(Dec(year), 2, 4); |yy| == 2 && IsInteger(yy) && ToNumber(yy) == year % 100
  {
    DecReads(year);
    DecReads(year / 100);
    var tens, ones := ('0' as int + year / 10 % 10) as char, ('0' as int + year % 10) as char;
    assert Dec(year) == Dec(year / 100) + [tens] + [ones];
    assert Substring(Dec(year), 2, 4) == [tens, ones];
    TwoDigits(year / 10 % 10, year % 10);
  }

  lemma TwoDigits(a: nat, b: nat)
    requires a < 10 && b < 10
    ensures var yy := [('0' as int + a) as char, ('0' as int + b) as char];
      IsInteger(yy) && ToNumber(yy) == 10 * a + b
  {
    var yy := [('0' as int + a) as char, ('0' as int + b) as char];
    assert yy[..1] == [yy[0]] && yy[..1][..0] == "";
    assert ToNumber(yy[..1]) == a;
  }

  lemma ReadYearBack(d: Date, t: Token, rest: string, r: Reading)
    requires Printable(d) && (t.Year4? || t.Year? || t.Year2?)
    ensures Read(Show(d, t) + rest, t, r) == Some((Recall(d, t, r), |Show(d, t)|))
  {
    YearTextIsDecimal(d.year);
    LastTwoDigits(YearShown(d.year));
    GetIntTakesAll(Show(d, t), rest, if t.Year4? then 4 else 2, if t.Year2? then 2 else 4);
  }

  // ---------- names ----------

  /** Two names that differ within their first three letters, whatever the case. */
  predicate DifferEarly(a: string, b: string)
  {
    |a| >= 3 && |b| >= 3 && (Lower(a[0]) != Lower(b[0]) || Lower(a[1]) != Lower(b[1]) || Lower(a[2]) != Lower(b[2]))
  }

  lemma MonthsDiffer(i: nat, j: nat)
    requires (i < j < 12) || (12 <= i < j < 24)
    ensures DifferEarly(MONTH_NAMES[i], MONTH_NAMES[j])
  {
    if j < 12 { FullMonthsDiffer(i, j); } else { ShortMonthsDiffer(i, j); }
  }

  lemma FullMonthsDiffer(i: nat, j: nat)
    requires i < j < 12
    ensures DifferEarly(MONTH_NAMES[i], MONTH_NAMES[j])
  {
  }

  lemma ShortMonthsDiffer(i: nat, j: nat)
    requires 12 <= i < j < 24
    ensures DifferEarly(MONTH_NAMES[i], MONTH_NAMES[j])
  {
  }

  lemma DaysDiffer(i: nat, j: nat)
    requires (i < j < 14) && j != i + 7
    ensures DifferEarly(DAY_NAMES[i], DAY_NAMES[j])
  {
  }

  lemma DifferentNamesDoNotMatch(a: string, b: string, rest: string)
    requires DifferEarly(a, b)
    ensures !SameText(Prefix(b + rest, |a|), a)
  {
    var p := Prefix(b + rest, |a|);
    if |p| == |a| {
      assert p[0] == b[0] && p[1] == b[1] && p[2] == b[2];
    }
  }

  lemma {:induction false} FirstNameIs(s: string, names: seq<string>, i: nat, j: nat)
    requires i <= j < |names| && SameText(Prefix(s, |names[j]|), names[j])
    requires forall k :: i <= k < j ==> !SameText(Prefix(s, |names[k]|), names[k])
    ensures FirstName(s, names, i) == Some(j)
    decreases j - i
  {
    if i < j { FirstNameIs(s, names, i + 1, j); }
  }

  lemma ReadMonthBack(d: Date, t: Token, rest: string, r: Reading)
    requires Valid(d) && (t.MonthName? || t.MonthAbbr?)
    ensures Read(Show(d, t) + rest, t, r) == Some((Recall(d, t, r), |Show(d, t)|))
  {
    hide Lower;
    var i := if t.MonthName? then 0 else 12;
    var j := i + d.month - 1;
    var s := MONTH_NAMES[j] + rest;
    assert Prefix(s, |MONTH_NAMES[j]|) == MONTH_NAMES[j];
    forall k | i <= k < j ensures !SameText(Prefix(s, |MONTH_NAMES[k]|), MONTH_NAMES[k]) {
      MonthsDiffer(k, j);
      DifferentNamesDoNotMatch(MONTH_NAMES[k], MONTH_NAMES[j], rest);
    }
    FirstNameIs(s, MONTH_NAMES, i, j);
  }

  lemma FullDayNameIsLonger(i: nat, rest: string)
    requires i < 7 && (rest == "" || !IsLetter(rest[0]))
    ensures !SameText(Prefix(DAY_NAMES[i + 7] + rest, |DAY_NAMES[i]|), DAY_NAMES[i])
  {
    var p := Prefix(DAY_NAMES[i + 7] + rest, |DAY_NAMES[i]|);
    assert |DAY_NAMES[i]| > 3 && |DAY_NAMES[i + 7]| == 3 && IsLetter(DAY_NAMES[i][3]);
    if |p| == |DAY_NAMES[i]| {
      assert p[3] == rest[0];
    }
  }

  lemma ReadDayBack(d: Date, t: Token, rest: string, r: Reading)
    requires Valid(d) && (t.DayName? || t.DayAbbr?) && Follows(t, rest)
    ensures Read(Show(d, t) + rest, t, r) == Some((Recall(d, t, r), |Show(d, t)|))
  {
    var j := if t.DayName? then d.weekday else d.weekday + 7;
    var s := DAY_NAMES[j] + rest;
    assert Prefix(s, |DAY_NAMES[j]|) == DAY_NAMES[j];
    forall k | 0 <= k < j ensures !SameText(Prefix(s, |DAY_NAMES[k]|), DAY_NAMES[k]) {
      if k + 7 == j {
        FullDayNameIsLonger(k, rest);
      } else {
        DaysDiffer(k, j);
        DifferentNamesDoNotMatch(DAY_NAMES[k], DAY_NAMES[j], rest);
      }
    }
    FirstNameIs(s, DAY_NAMES, 0, j);
  }

  /** Reading what a token has shown recalls it, whatever comes next. */
  lemma ReadBack(d: Date, t: Token, rest: string, r: Reading)
    requires Valid(d) && Follows(t, rest) && (PartOf(t) == YearPart ==> Printable(d))
    ensures Read(Show(d, t) + rest, t, r) == Some((Recall(d, t, r), |Show(d, t)|))
  {
    match t
    case Year4 => ReadYearBack(d, t, rest, r);
    case Year2 => ReadYearBack(d, t, rest, r);
    case Year => ReadYearBack(d, t, rest, r);
    case MonthName => ReadMonthBack(d, t, rest, r);
    case MonthAbbr => ReadMonthBack(d, t, rest, r);
    case DayName => ReadDayBack(d, t, rest, r);
    case DayAbbr => ReadDayBack(d, t, rest, r);
    case Number(u, wide) => ReadNumberBack(d, u, wide, rest, r);
    case AmPm =>
      assert Prefix(Show(d, t) + rest, 2) == Show(d, t);
      assert Lower("PM"[0]) == "pm"[0] != "am"[0];
      assert SameText("AM", "am") && SameText("PM", "pm") && !SameText("PM", "am");
    case Literal(text) => assert Prefix(text + rest, |text|) == text;
  }

  // ---------- whole formats ----------

  predicate StartsWithDigit(t: Token)
  {
    t.Year4? || t.Year2? || t.Year? || t.Number? || (t.Literal? && t.text != "" && IsDigit(t.text[0]))
  }

  predicate StartsWithLetter(t: Token)
  {
    t.MonthName? || t.MonthAbbr? || t.DayName? || t.DayAbbr? || t.AmPm? ||
      (t.Literal? && t.text != "" && IsLetter(t.text[0]))
  }

  /** A number of one or two digits is not followed by digits, nor an abbreviated day by letters. */
  predicate Separated(ts: seq<Token>)
  {
    forall i :: 0 <= i < |ts| - 1 ==>
      !(ts[i].Number? && !ts[i].wide && StartsWithDigit(ts[i + 1])) && !(ts[i].DayAbbr? && StartsWithLetter(ts[i + 1]))
  }

  /** Literals of a format are not empty. */
  predicate Proper(ts: seq<Token>) { forall i :: 0 <= i < |ts| ==> ts[i] != Literal("") }

  lemma {:induction false} TokensAreProper(f: string)
    ensures Proper(Tokens(f))
    decreases |f|
  {
    if f != "" { TokensAreProper(f[Run(f)..]); }
  }

  /** Before 1801 the years since 1900 are printed with their sign. */
  lemma SignedYear(year: int)
    requires 100 <= year <= 1800
    ensures YearText(year) == "-" + Dec(1900 - year) && |Dec(1900 - year)| >= 3
    ensures var yy := Substring(YearText(year), 2, 4); |yy| == 2 && IsInteger(yy)
  {
    DecReads(1900 - year);
    var text := Dec(1900 - year);
    assert Substring(YearText(year), 2, 4) == text[1..3];
    assert forall i :: 0 <= i < |text| ==> IsDigit(text[i]);
  }

  lemma YearStarts(year: int)
    requires 100 <= year <= 11899
    ensures YearText(year) != "" && !IsLetter(YearText(year)[0])
    ensures var yy := Substring(YearText(year), 2, 4); yy != "" && IsDigit(yy[0])
  {
    if year <= 1800 {
      SignedYear(year);
    } else {
      YearTextIsDecimal(year);
      LastTwoDigits(YearShown(year));
    }
  }

  lemma ShowStarts(d: Date, t: Token)
    requires Valid(d) && 100 <= d.year <= 11899 && t != Literal("")
    ensures Show(d, t) != "" && (IsDigit(Show(d, t)[0]) ==> StartsWithDigit(t))
    ensures IsLetter(Show(d, t)[0]) ==> StartsWithLetter(t)
  {
    hide YearText, Dec, LZ, Shown, DaysIn;
    match t {
      case Year4 => YearStarts(d.year);
      case Year2 => YearStarts(d.year);
      case Year => YearStarts(d.year);
      case Number(u, _) => NumbersAreDigits(d, u);
      case _ => NamesAreWords(d);
    }
  }

  lemma NumbersAreDigits(d: Date, u: Unit)
    requires Valid(d)
    ensures Shown(d, u) >= 0 && Dec(Shown(d, u)) != "" && LZ(Shown(d, u)) != ""
    ensures IsDigit(Dec(Shown(d, u))[0]) && IsDigit(LZ(Shown(d, u))[0])
  {
    DecReads(Shown(d, u));
    LZReads(Shown(d, u));
  }

  lemma NamesAreWords(d: Date)
    requires Valid(d)
    ensures |MONTH_NAMES[d.month - 1]| > 0 && IsLetter(MONTH_NAMES[d.month - 1][0])
    ensures |MONTH_NAMES[d.month + 11]| > 0 && IsLetter(MONTH_NAMES[d.month + 11][0])
    ensures |DAY_NAMES[d.weekday]| > 0 && IsLetter(DAY_NAMES[d.weekday][0])
    ensures |DAY_NAMES[d.weekday + 7]| > 0 && IsLetter(DAY_NAMES[d.weekday + 7][0])
  {
  }

  lemma PrintFollows(d: Date, t: Token, ts: seq<Token>)
    requires Valid(d) && 100 <= d.year <= 11899 && Proper(ts)
    requires ts != [] ==> !(t.Number? && !t.wide && StartsWithDigit(ts[0])) && !(t.DayAbbr? && StartsWithLetter(ts[0]))
    ensures Follows(t, Print(d, ts))
  {
    if ts != [] {
      hide StartsWithDigit, StartsWithLetter, Show;
      ShowStarts(d, ts[0]);
    }
  }

  function RecallAll(d: Date, ts: seq<Token>, r: Reading): Reading
  {
    if ts == [] then r else RecallAll(d, ts[1..], Recall(d, ts[0], r))
  }

  /** Reading a whole printed date recalls, token by token, what was shown. */
  lemma {:induction false} ReadAllBack(d: Date, ts: seq<Token>, r: Reading)
    requires Printable(d) && Proper(ts) && Separated(ts)
    ensures ReadAll(Print(d, ts), ts, r) == Some(RecallAll(d, ts, r))
    decreases |ts|
  {
    if ts != [] {
      hide Show, Read, Recall, Follows, StartsWithDigit, StartsWithLetter;
      var rest := Print(d, ts[1..]);
      assert Proper(ts[1..]) && Separated(ts[1..]);
      PrintFollows(d, ts[0], ts[1..]);
      ReadBack(d, ts[0], rest, r);
      assert (Show(d, ts[0]) + rest)[|Show(d, ts[0])|..] == rest;
      ReadAllBack(d, ts[1..], Recall(d, ts[0], r));
    }
  }

  // ---------- the round trip ----------

  datatype Part = YearPart | MonthPart | DayPart | HourPart | MinutePart | SecondPart | HalfPart | NoPart

  /** The part of a date that a token is about. */
  function PartOf(t: Token): Part
  {
    match t
    case Year4 => YearPart
    case Year2 => YearPart
    case Year => YearPart
    case MonthName => MonthPart
    case MonthAbbr => MonthPart
    case AmPm => HalfPart
    case Number(u, _) =>
      (match u
       case Month => MonthPart
       case Day => DayPart
       case Minute => MinutePart
       case Second => SecondPart
       case _ => HourPart)
    case _ => NoPart
  }

  /** The last token about a part. */
  function Last(ts: seq<Token>, p: Part): Option<Token>
  {
    if ts == [] then None
    else if Last(ts[1..], p).Some? then Last(ts[1..], p)
    else if PartOf(ts[0]) == p then Some(ts[0])
    else None
  }

  lemma {:induction false} LastIsAbout(ts: seq<Token>, p: Part)
    ensures Last(ts, p).Some? ==> PartOf(Last(ts, p).value) == p
  {
    if ts != [] { LastIsAbout(ts[1..], p); }
  }

  function RecallLast(d: Date, t: Option<Token>, r: Reading): Reading { if t.Some? then Recall(d, t.value, r) else r }

  predicate AgreeOn(p: Part, a: Reading, b: Reading)
  {
    match p
    case YearPart => a.year == b.year
    case MonthPart => a.month == b.month
    case DayPart => a.day == b.day
    case HourPart => a.hour == b.hour
    case MinutePart => a.minute == b.minute
    case SecondPart => a.second == b.second
    case HalfPart => a.pm == b.pm
    case NoPart => true
  }

  lemma RecallIsLocal(d: Date, t: Token, p: Part, a: Reading, b: Reading)
    ensures AgreeOn(p, Recall(d, t, a), if PartOf(t) == p then Recall(d, t, b) else a)
  {
  }

  /** The last token about a part decides what is recalled of it. */
  lemma {:induction false} LastDecides(d: Date, ts: seq<Token>, p: Part, r: Reading)
    ensures AgreeOn(p, RecallAll(d, ts, r), RecallLast(d, Last(ts, p), r))
    decreases |ts|
  {
    if ts != [] {
      hide PartOf, Recall;
      var q := Recall(d, ts[0], r);
      LastDecides(d, ts[1..], p, q);
      LastIsAbout(ts[1..], p);
      RecallIsLocal(d, ts[0], p, r, r);
      if Last(ts[1..], p).Some? {
        RecallIsLocal(d, Last(ts[1..], p).value, p, q, r);
      }
    }
  }

  /** The format shows every field. */
  predicate Complete(ts: seq<Token>)
  {
    && Last(ts, YearPart).Some? && Last(ts, MonthPart).Some? && Last(ts, DayPart).Some?
    && Last(ts, HourPart).Some? && Last(ts, MinutePart).Some? && Last(ts, SecondPart).Some?
  }

  /** Two digits stand for the years from 1971 to 2070; four are those of the years from 1801 to 2899. */
  predicate YearSurvives(ts: seq<Token>, year: int)
  {
    if Last(ts, YearPart) == Some(Year2) then 1971 <= year <= 2070 else 1801 <= year <= 2899
  }

  predicate TwelveHours(t: Token) { t.Number? && (t.u.Hour12? || t.u.Hour11?) }

  /** The last hour of the format is one of 24, or it says which half of the day is meant. */
  predicate HourIsClear(ts: seq<Token>)
  {
    Last(ts, HalfPart).Some? || (Last(ts, HourPart).Some? && !TwelveHours(Last(ts, HourPart).value))
  }

  /** Without that, the hours that are shown as they are: 1 to 12 or 0 to 11. */
  predicate HourSurvives(ts: seq<Token>, hour: int)
  {
    HourIsClear(ts) ||
    match Last(ts, HourPart)
    case None => false
    case Some(t) => if t.Number? && t.u.Hour12? then 1 <= hour <= 12 else hour <= 11
  }

  predicate RoundTrips(d: Date, f: string, now: Date)
    requires Valid(d)
  {
    Parse(Print(d, Tokens(f)), Tokens(f), now) == Some(FieldsOf(d))
  }

  lemma RecalledYear(d: Date, ts: seq<Token>, r: Reading)
    requires Printable(d) && Complete(ts)
    ensures RecallAll(d, ts, r).year == d.year <==> YearSurvives(ts, d.year)
    ensures 1000 <= RecallAll(d, ts, r).year
  {
    LastDecides(d, ts, YearPart, r);
    LastIsAbout(ts, YearPart);
  }

  lemma RecalledRest(d: Date, ts: seq<Token>, r: Reading)
    requires Printable(d) && Complete(ts)
    ensures var q := RecallAll(d, ts, r);
      q.month == d.month && q.day == d.day && q.minute == d.minute && q.second == d.second
  {
    LastDecides(d, ts, MonthPart, r);
    LastDecides(d, ts, DayPart, r);
    LastDecides(d, ts, MinutePart, r);
    LastDecides(d, ts, SecondPart, r);
    LastIsAbout(ts, MonthPart);
    LastIsAbout(ts, DayPart);
    LastIsAbout(ts, MinutePart);
    LastIsAbout(ts, SecondPart);
  }

  lemma RecalledHour(d: Date, ts: seq<Token>, r: Reading)
    requires Printable(d) && Complete(ts) && r.pm == None
    ensures var q := RecallAll(d, ts, r);
      Hour(q) == d.hour <==> HourSurvives(ts, d.hour)
  {
    LastDecides(d, ts, HourPart, r);
    LastDecides(d, ts, HalfPart, r);
    LastIsAbout(ts, HourPart);
    LastIsAbout(ts, HalfPart);
  }

  // ---------- years that are not printed with four digits ----------

  lemma ReadYearIsSmall(s: string, t: Token, r: Reading)
    requires PartOf(t) == YearPart && Read(s, t, r).Some?
    ensures var y := Read(s, t, r).value.0.year; 0 <= y <= 9999 && (t.Year2? ==> 1971 <= y <= 2070)
  {
    hide GetInt, FullYear;
    FewDigitsFound(s, if t.Year4? then 4 else 2, if t.Year2? then 2 else 4, r);
  }

  lemma FewDigitsFound(s: string, min: nat, max: int, r: Reading)
    requires max <= 4
    ensures ReadYear(GetInt(s, min, max), r).Some? ==>
      var y := ReadYear(GetInt(s, min, max), r).value.0.year;
      0 <= y <= 9999 && (min == max == 2 ==> 1971 <= y <= 2070)
  {
    GetIntIsPrefix(s, min, max);
    GetIntIsShort(s, min, max);
    hide GetInt;
    if GetInt(s, min, max).Some? { FewDigits(GetInt(s, min, max).value); }
  }

  lemma {:induction false} GetIntIsShort(s: string, min: nat, max: int)
    ensures GetInt(s, min, max).Some? ==> |GetInt(s, min, max).value| <= max
    decreases max
  {
    if max >= min { GetIntIsShort(s, min, max - 1); }
  }

  lemma {:induction false} FewDigits(digits: string)
    requires IsInteger(digits) && |digits| <= 4
    ensures var n := ToNumber(digits);
      && 0 <= n <= 9999 && (|digits| <= 3 ==> n <= 999)
      && (|digits| <= 2 ==> n <= 99) && (|digits| <= 1 ==> n <= 9) && (|digits| == 0 ==> n == 0)
  {
    if digits != "" {
      assert IsDigit(digits[|digits| - 1]);
      FewDigits(digits[..|digits| - 1]);
    }
  }

  lemma {:induction false} ReadKeepsYear(s: string, ts: seq<Token>, r: Reading)
    requires ReadAll(s, ts, r).Some? && Last(ts, YearPart).None?
    ensures ReadAll(s, ts, r).value.year == r.year
    decreases |ts|
  {
    if ts != [] {
      hide GetInt, FirstName, SameText;
      var p := Read(s, ts[0], r).value;
      ReadKeepsYear(s[p.1..], ts[1..], p.0);
    }
  }

  /** Whatever the text, a year that is read has at most four digits, and two digits stand for 1971 to 2070. */
  lemma {:induction false} YearReadIsSmall(s: string, ts: seq<Token>, r: Reading)
    requires ReadAll(s, ts, r).Some? && Last(ts, YearPart).Some?
    ensures var y := ReadAll(s, ts, r).value.year;
      0 <= y <= 9999 && (Last(ts, YearPart) == Some(Year2) ==> 1971 <= y <= 2070)
    decreases |ts|
  {
    hide Read, PartOf;
    var p := Read(s, ts[0], r).value;
    if Last(ts[1..], YearPart).Some? {
      YearReadIsSmall(s[p.1..], ts[1..], p.0);
    } else {
      ReadYearIsSmall(s, ts[0], r);
      ReadKeepsYear(s[p.1..], ts[1..], p.0);
    }
  }

  /** The sign of a year before 1801 cannot be read. */
  lemma SignedYearFails(d: Date, t: Token, rest: string, r: Reading)
    requires Valid(d) && 100 <= d.year <= 1800 && (t.Year4? || t.Year?)
    ensures Read(Show(d, t) + rest, t, r) == None
  {
    SignedYear(d.year);
    SignFails(Show(d, t) + rest, if t.Year4? then 4 else 2, 4);
  }

  lemma {:induction false} SignFails(s: string, min: nat, max: int)
    requires s != "" && s[0] == '-' && min > 0
    ensures GetInt(s, min, max) == None
    decreases max
  {
    if max >= min {
      SignFails(s, min, max - 1);
      assert !IsDigit('-');
    }
  }

  /** Before such a year everything is read back, if a year is in two digits only not as it was. */
  lemma ReadUpToYear(d: Date, t: Token, rest: string, r: Reading) returns (q: Reading)
    requires Valid(d) && 100 <= d.year <= 1800 && Follows(t, rest) && !t.Year4? && !t.Year?
    ensures Read(Show(d, t) + rest, t, r) == Some((q, |Show(d, t)|))
  {
    if t.Year2? {
      SignedYear(d.year);
      GetIntTakesAll(Show(d, t), rest, 2, 2);
      q := r.(year := FullYear(Show(d, t)));
    } else {
      ReadBack(d, t, rest, r);
      q := Recall(d, t, r);
    }
  }

  lemma {:induction false} SignedYearsFail(d: Date, ts: seq<Token>, r: Reading)
    requires Valid(d) && 100 <= d.year <= 1800 && Proper(ts) && Separated(ts)
    requires exists t :: t in ts && (t.Year4? || t.Year?)
    ensures ReadAll(Print(d, ts), ts, r) == None
    decreases |ts|
  {
    hide Show, Read, Recall, Follows, StartsWithDigit, StartsWithLetter;
    var rest := Print(d, ts[1..]);
    assert Proper(ts[1..]) && Separated(ts[1..]);
    if ts[0].Year4? || ts[0].Year? {
      SignedYearFails(d, ts[0], rest, r);
    } else {
      PrintFollows(d, ts[0], ts[1..]);
      var q := ReadUpToYear(d, ts[0], rest, r);
      assert (Show(d, ts[0]) + rest)[|Show(d, ts[0])|..] == rest;
      SignedYearsFail(d, ts[1..], q);
    }
  }

  lemma {:induction false} LastIsThere(ts: seq<Token>, p: Part)
    ensures Last(ts, p).Some? ==> Last(ts, p).value in ts
  {
    if ts != [] { LastIsThere(ts[1..], p); }
  }

  /** A date whose year is not printed with four digits never reads back as it was. */
  lemma UnprintableYearIsLost(d: Date, f: string, now: Date)
    requires Valid(d) && !Printable(d) && Separated(Tokens(f)) && Complete(Tokens(f))
    ensures !RoundTrips(d, f, now)
  {
    var ts := Tokens(f);
    var text := Print(d, ts);
    hide Print, ReadAll, Tokens, DaysIn;
    TokensAreProper(f);
    LastIsThere(ts, YearPart);
    LastIsAbout(ts, YearPart);
    if ReadAll(text, ts, Start(now)).Some? {
      YearReadIsSmall(text, ts, Start(now));
      if 100 <= d.year <= 1800 && Last(ts, YearPart) != Some(Year2) { SignedYearsFail(d, ts, Start(now)); }
    }
  }

  /** A printed date reads back as it was exactly if its year and its hour survive the format. */
  lemma RoundTripExactly(d: Date, f: string, now: Date)
    requires Valid(d) && Separated(Tokens(f)) && Complete(Tokens(f))
    ensures RoundTrips(d, f, now) <==> YearSurvives(Tokens(f), d.year) && HourSurvives(Tokens(f), d.hour)
  {
    if Printable(d) { PrintableRoundTrip(d, f, now); } else { UnprintableYearIsLost(d, f, now); }
  }

  lemma PrintableRoundTrip(d: Date, f: string, now: Date)
    requires Printable(d) && Separated(Tokens(f)) && Complete(Tokens(f))
    ensures RoundTrips(d, f, now) <==> YearSurvives(Tokens(f), d.year) && HourSurvives(Tokens(f), d.hour)
  {
    hide Print, ReadAll, Tokens, RecallAll, Complete, YearSurvives, HourSurvives;
    var ts := Tokens(f);
    TokensAreProper(f);
    ReadAllBack(d, ts, Start(now));
    RecalledYear(d, ts, Start(now));
    RecalledRest(d, ts, Start(now));
    RecalledHour(d, ts, Start(now));
  }

  /**
   A format is safe for every date whose year survives it exactly if its hour is clear.
   */
  lemma FormatRoundTripsExactly(f: string, now: Date)
    requires Separated(Tokens(f)) && Complete(Tokens(f))
    ensures HourIsClear(Tokens(f)) <==> forall d :: Valid(d) && YearSurvives(Tokens(f), d.year) ==>
      RoundTrips(d, f, now)
  {
    hide Tokens, Separated, Complete, RoundTrips, HourIsClear;
    forall d | Valid(d)
      ensures RoundTrips(d, f, now) <==> YearSurvives(Tokens(f), d.year) && HourSurvives(Tokens(f), d.hour)
    {
      RoundTripExactly(d, f, now);
    }
    var midnight, evening := Date(2000, 1, 1, 6, 0, 0, 0), Date(2000, 1, 1, 6, 13, 0, 0);
    assert Valid(midnight) && Valid(evening);
    assert YearSurvives(Tokens(f), midnight.year) && YearSurvives(Tokens(f), evening.year);
  }

  // ---------- only dates are accepted ----------

  predicate InRange(r: Reading)
  {
    1 <= r.month <= 12 && 1 <= r.day <= 31 && 0 <= r.hour <= 23 && 0 <= r.minute <= 59 && 0 <= r.second <= 59
  }

  lemma ReadStaysInRange(s: string, t: Token, r: Reading)
    requires InRange(r) && Read(s, t, r).Some?
    ensures InRange(Read(s, t, r).value.0)
  {
    hide GetInt, FirstName, SameText, ToNumber;
  }

  lemma {:induction false} ReadAllStaysInRange(s: string, ts: seq<Token>, r: Reading)
    requires InRange(r) && ReadAll(s, ts, r).Some?
    ensures InRange(ReadAll(s, ts, r).value)
    decreases |ts|
  {
    if ts != [] {
      hide Read, InRange;
      ReadStaysInRange(s, ts[0], r);
      var p := Read(s, ts[0], r).value;
      ReadAllStaysInRange(s[p.1..], ts[1..], p.0);
    }
  }

  /** The one reading that is accepted without being a date: 0 counts as a leap year, but stands for 1900. */
  predicate IsYearZeroLeapDay(r: Reading) { r.year == 0 && r.month == 2 && r.day == 29 }

  /** Whatever text and format: what is accepted is a date, exactly unless 29 February of the year 0 was read. */
  lemma OnlyDatesAreAccepted(s: string, f: string, now: Date)
    requires Valid(now) && Parse(s, Tokens(f), now).Some?
    ensures var q := Parse(s, Tokens(f), now).value;
      && 1 <= q.month <= 12 && 1 <= q.day && 0 <= q.hour <= 23 && 0 <= q.minute <= 59 && 0 <= q.second <= 59
      && (q.day <= DaysIn(q.year, q.month) <==> !IsYearZeroLeapDay(ReadAll(s, Tokens(f), Start(now)).value))
  {
    ReadAllStaysInRange(s, Tokens(f), Start(now));
    hide ReadAll, Tokens, InRange, DaysIn;
    FinishedDates(ReadAll(s, Tokens(f), Start(now)).value);
  }

  lemma FinishedDates(r: Reading)
    requires InRange(r) && Finish(r).Some?
    ensures var q := Finish(r).value;
      && 1 <= q.month <= 12 && 1 <= q.day && 0 <= q.hour <= 23 && 0 <= q.minute <= 59 && 0 <= q.second <= 59
      && (q.day <= DaysIn(q.year, q.month) <==> !IsYearZeroLeapDay(r))
  {
    if 0 < r.year <= 99 || (r.year == 0 && r.month != 2) { TwoDigitYears(r.year, r.month); }
    hide LeapYear;
    assert LeapYear(0) && !LeapYear(1900) by { YearZeroLeaps(); }
  }

  lemma YearZeroLeaps()
    ensures LeapYear(0) && !LeapYear(1900)
  {
  }

  /** It does happen: this text is accepted, and is no date. */
  lemma YearZeroLeapDayIsAccepted(now: Date)
    requires Valid(now)
    ensures Parse("0000-02-29", Tokens("yyyy-MM-dd"), now) ==
      Some(Fields(1900, 2, 29, now.hour, now.minute, now.second))
    ensures DaysIn(1900, 2) == 28
  {
    TokensOfIsoFormat();
    YearZeroLeaps();
    hide Tokens, ReadAll, LeapYear;
    ReadIsoText(Start(now));
    assert Finish(Start(now).(year := 0, month := 2, day := 29)).Some?;
  }

  lemma ReadIsoText(r: Reading)
    ensures ReadAll("0000-02-29", [Year4, Literal("-"), Number(Month, true), Literal("-"), Number(Day, true)], r) ==
      Some(r.(year := 0, month := 2, day := 29))
  {
    SmallNumbers();
    assert "0000" + "-02-29" == "0000-02-29" && "-" + "02-29" == "-02-29" && "02" + "-29" == "02-29" &&
      "-" + "29" == "-29";
    var q := r.(year := 0, month := 2);
    var read := q.(day := 29);
    assert "29" + "" == "29" && ReadAll("", [], read) == Some(read);
    ReadTwoDigits("29", "", Day, q);
    ReadTwoDigits("02", "-29", Month, r.(year := 0));
    ReadFourDigits("0000", "-02-29", r);
    ReadDash("29", q);
    ReadDash("02-29", r.(year := 0));
    hide ToNumber, IsInteger, Read, ReadAll;
    ReadFirst("29", "", Number(Day, true), [], q, read);
    ReadFirst("-", "29", Literal("-"), [Number(Day, true)], q, q);
    ReadFirst("02", "-29", Number(Month, true), [Literal("-"), Number(Day, true)], r.(year := 0), q);
    ReadFirst("-", "02-29", Literal("-"), [Number(Month, true), Literal("-"), Number(Day, true)], r.(year := 0),
      r.(year := 0));
    ReadFirst("0000", "-02-29", Year4, [Literal("-"), Number(Month, true), Literal("-"), Number(Day, true)], r,
      r.(year := 0));
  }

  lemma ReadTwoDigits(text: string, rest: string, u: Unit, r: Reading)
    requires |text| == 2 && IsInteger(text) && Range(u).0 <= ToNumber(text) <= Range(u).1
    ensures Read(text + rest, Number(u, true), r) == Some((With(r, u, ToNumber(text)), 2))
  {
    GetIntTakesAll(text, rest, 2, 2);
    hide ToNumber, GetInt, IsInteger;
  }

  lemma ReadFourDigits(text: string, rest: string, r: Reading)
    requires |text| == 4 && IsInteger(text)
    ensures Read(text + rest, Year4, r) == Some((r.(year := ToNumber(text)), 4))
  {
    GetIntTakesAll(text, rest, 4, 4);
    hide ToNumber, GetInt, IsInteger;
  }

  lemma ReadDash(rest: string, r: Reading)
    ensures Read("-" + rest, Literal("-"), r) == Some((r, 1))
  {
    assert Prefix("-" + rest, 1) == "-";
  }

  lemma ReadFirst(text: string, rest: string, t: Token, ts: seq<Token>, r: Reading, after: Reading)
    requires Read(text + rest, t, r) == Some((after, |text|))
    ensures ReadAll(text + rest, [t] + ts, r) == ReadAll(rest, ts, after)
  {
    hide Read;
    assert (text + rest)[|text|..] == rest && ([t] + ts)[1..] == ts;
  }

  lemma SmallNumbers()
    ensures IsInteger("0000") && ToNumber("0000") == 0
    ensures IsInteger("02") && ToNumber("02") == 2
    ensures IsInteger("29") && ToNumber("29") == 29
  {
    assert "0000"[..3] == "000" && "000"[..2] == "00" && "00"[..1] == "0" && "0"[..0] == "";
    assert ToNumber("0") == 0 && ToNumber("00") == 0 && ToNumber("000") == 0;
    assert "02"[..1] == "0" && "29"[..1] == "2" && "2"[..0] == "";
    assert ToNumber("2") == 2;
  }

  lemma TokensOfIsoFormat()
    ensures Tokens("yyyy-MM-dd") == [Year4, Literal("-"), Number(Month, true), Literal("-"), Number(Day, true)]
  {
    hide Tokens, Run;
    TokenThen("dd", "");
    TokenThen("-", "dd");
    TokenThen("MM", "-dd");
    TokenThen("-", "MM-dd");
    TokenThen("yyyy", "-MM-dd");
    NoTokens("");
    assert "dd" + "" == "dd" && "-" + "dd" == "-dd" && "MM" + "-dd" == "MM-dd";
    assert "-" + "MM-dd" == "-MM-dd" && "yyyy" + "-MM-dd" == "yyyy-MM-dd";
  }

  lemma TokenThen(token: string, rest: string)
    requires token != "" && (forall i :: 0 <= i < |token| ==> token[i] == token[0])
    requires rest == "" || rest[0] != token[0]
    ensures Tokens(token + rest) == [Classify(token)] + Tokens(rest)
  {
    hide Classify;
    RunIsMaximal(token + rest, |token|);
    assert (token + rest)[..|token|] == token && (token + rest)[|token|..] == rest;
  }

  lemma TwoDigitYears(year: int, month: int)
    requires 0 < year <= 99 || (year == 0 && month != 2)
    ensures DaysIn(1900 + year, month) == DaysIn(year, month)
  {
    assert (1900 + year) % 4 == year % 4;
    assert (1900 + year) % 100 == year % 100;
  }

  // ---------- the loops of date.js ----------

  /** Takes the next run of equal characters off the format. */
  method NextToken(format: string, start: nat) returns (token: string, i_format: nat)
    requires start < |format|
    ensures i_format == start + Run(format[start..]) && token == format[start..i_format]
  {
    var c := format[start];
    token, i_format := "", start;
    while i_format < |format| && format[i_format] == c
      invariant start <= i_format <= |format| && token == format[start..i_format]
      invariant forall k :: start <= k < i_format ==> format[k] == c
    {
      token := token + [format[i_format]];
      i_format := i_format + 1;
    }
    RunIsMaximal(format[start..], i_format - start);
  }

  lemma NextTokens(format: string, start: nat)
    requires start < |format|
    ensures var end := start + Run(format[start..]);
      end <= |format| && Tokens(format[start..]) == [Classify(format[start..end])] + Tokens(format[end..])
  {
    var n := Run(format[start..]);
    assert format[start..][..n] == format[start..start + n];
    assert format[start..][n..] == format[start + n..];
  }

  method FormatDate(date: Date, format: string) returns (result: string)
    requires Valid(date)
    ensures result == Print(date, Tokens(format))
  {
    hide Show, Classify, Tokens;
    result := "";
    var i_format := 0;
    assert format[0..] == format;
    while i_format < |format|
      invariant i_format <= |format|
      invariant result + Print(date, Tokens(format[i_format..])) == Print(date, Tokens(format))
    {
      NextTokens(format, i_format);
      var token;
      ghost var rest := format[i_format..];
      token, i_format := NextToken(format, i_format);
      assert Print(date, Tokens(rest)) == Show(date, Classify(token)) + Print(date, Tokens(format[i_format..]));
      result := result + Show(date, Classify(token));
    }
    NoTokens(format[i_format..]);
  }

  lemma NoTokens(f: string)
    requires f == ""
    ensures Tokens(f) == []
  {
  }

  method IsIntegerText(val: string) returns (r: bool)
    ensures r <==> IsInteger(val)
  {
    for i := 0 to |val|
      invariant IsInteger(val[..i])
    {
      if !IsDigit(val[i]) { return false; }
      assert val[..i + 1] == val[..i] + [val[i]];
    }
    assert val[..|val|] == val;
    return true;
  }

  /** `_getInt`: tries the longest text first. */
  method GetIntAt(s: string, i: nat, minlength: nat, maxlength: nat) returns (r: Option<string>)
    requires i <= |s| && minlength <= maxlength
    ensures r == GetInt(s[i..], minlength, maxlength)
  {
    var x: int := maxlength;
    while x >= minlength
      invariant minlength - 1 <= x <= maxlength
      invariant GetInt(s[i..], minlength, maxlength) == GetInt(s[i..], minlength, x)
    {
      var token := Prefix(s[i..], x);
      if |token| < minlength { return None; }
      var integer := IsIntegerText(token);
      if integer { return Some(token); }
      x := x - 1;
    }
    return None;
  }

  /** The loop over the names: the first one from `start` on that the text starts with. */
  method FindName(s: string, names: seq<string>, start: nat) returns (r: Option<nat>)
    requires start <= |names|
    ensures r == FirstName(s, names, start)
  {
    for i := start to |names|
      invariant FirstName(s, names, start) == FirstName(s, names, i)
    {
      if SameText(Prefix(s, |names[i]|), names[i]) { return Some(i); }
    }
    return None;
  }

  /** One token of `getDateFromFormat` at position i of the text. */
  method ReadToken(val: string, i: nat, token: Token, r: Reading) returns (p: Option<(Reading, nat)>)
    requires i <= |val|
    ensures p == Read(val[i..], token, r)
  {
    hide GetInt, FirstName, With, ToNumber, FullYear;
    match token {
      case Year4 => var digits := GetIntAt(val, i, 4, 4); return ReadYear(digits, r);
      case Year2 => var digits := GetIntAt(val, i, 2, 2); return ReadYear(digits, r);
      case Year => var digits := GetIntAt(val, i, 2, 4); return ReadYear(digits, r);
      case MonthName => var k := FindName(val[i..], MONTH_NAMES, 0); return ReadMonth(k, r);
      case MonthAbbr => var k := FindName(val[i..], MONTH_NAMES, 12); return ReadMonth(k, r);
      case DayName => var k := FindName(val[i..], DAY_NAMES, 0); return Some((r, SkippedDay(k)));
      case DayAbbr => var k := FindName(val[i..], DAY_NAMES, 0); return Some((r, SkippedDay(k)));
      case Number(u, wide) => var digits := GetIntAt(val, i, if wide then 2 else 1, 2); return ReadNumber(digits, u, r);
      case AmPm =>
        if SameText(Prefix(val[i..], 2), "am") { return Some((r.(pm := Some(false)), 2)); }
        if SameText(Prefix(val[i..], 2), "pm") { return Some((r.(pm := Some(true)), 2)); }
        return None;
      case Literal(text) =>
        if Prefix(val[i..], |text|) != text { return None; }
        return Some((r, |text|));
    }
  }

  /** `getDateFromFormat`; None where it returns 0. */
  method GetDateFromFormat(val: string, format: string, now: Date) returns (result: Option<Fields>)
    ensures result == Parse(val, Tokens(format), now)
  {
    hide Read, Classify, Tokens, Finish;
    var i_val, i_format := 0, 0;
    var r := Start(now);
    assert format[0..] == format && val[0..] == val;
    while i_format < |format|
      invariant i_format <= |format| && i_val <= |val|
      invariant ReadAll(val, Tokens(format), Start(now)) == ReadAll(val[i_val..], Tokens(format[i_format..]), r)
    {
      NextTokens(format, i_format);
      var token;
      token, i_format := NextToken(format, i_format);
      var p := ReadToken(val, i_val, Classify(token), r);
      if p.None? { return None; }
      var length: nat := p.value.1;
      if i_val + length > |val| { return None; }
      assert val[i_val..][length..] == val[i_val + length..];
      r, i_val := p.value.0, i_val + length;
    }
    NoTokens(format[i_format..]);
    if i_val != |val| { return None; }
    return Finish(r);
  }
}
