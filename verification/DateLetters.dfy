/** What the letters of a date format show and read, in plain terms. */
module DateLetters {
  import opened Common
  import opened Text
  import opened DateFormat

  // ---------- numbers ----------

  /** The number that a token shows. */
  function Value(d: Date, token: string): int
    requires Valid(d)
  {
    var text := Show(d, Classify(token));
    if text != "" && IsInteger(text) then ToNumber(text) else -1
  }

  lemma NumberShown(d: Date, u: Unit, wide: bool)
    requires Valid(d)
    ensures var text := Show(d, Number(u, wide)); text != "" && IsInteger(text) && ToNumber(text) == Shown(d, u)
    ensures wide ==> |Show(d, Number(u, wide))| == 2
  {
    DecReads(Shown(d, u));
    LZReads(Shown(d, u));
  }

  /** Single letters and double ones show the same number; doubled it has two digits. */
  lemma NumbersShown(d: Date)
    requires Valid(d)
    ensures Value(d, "M") == Value(d, "MM") == d.month && Value(d, "d") == Value(d, "dd") == d.day
    ensures Value(d, "H") == Value(d, "HH") == d.hour && Value(d, "k") == Value(d, "kk") == d.hour + 1
    ensures Value(d, "m") == Value(d, "mm") == d.minute && Value(d, "s") == Value(d, "ss") == d.second
    ensures Value(d, "h") == Value(d, "hh") && 1 <= Value(d, "h") <= 12 && (Value(d, "h") - d.hour) % 12 == 0
    ensures Value(d, "K") == Value(d, "KK") && 0 <= Value(d, "K") <= 11 && (Value(d, "K") - d.hour) % 12 == 0
  {
    LettersOfNumbers();
    hide Value, Classify, DaysIn;
    ValueIs(d, "M", "MM", Month);
    ValueIs(d, "d", "dd", Day);
    ValueIs(d, "H", "HH", Hour24);
    ValueIs(d, "h", "hh", Hour12);
    ValueIs(d, "K", "KK", Hour11);
    ValueIs(d, "k", "kk", HourFrom1);
    ValueIs(d, "m", "mm", Minute);
    ValueIs(d, "s", "ss", Second);
  }

  lemma ValueIs(d: Date, narrow: string, wide: string, u: Unit)
    requires Valid(d) && Classify(narrow) == Number(u, false) && Classify(wide) == Number(u, true)
    ensures Value(d, narrow) == Value(d, wide) == Shown(d, u)
  {
    hide Classify, Show, ToNumber, IsInteger;
    NumberShown(d, u, false);
    NumberShown(d, u, true);
  }

  lemma LettersOfNumbers()
    ensures Classify("M") == Number(Month, false) && Classify("MM") == Number(Month, true)
    ensures Classify("d") == Number(Day, false) && Classify("dd") == Number(Day, true)
    ensures Classify("H") == Number(Hour24, false) && Classify("HH") == Number(Hour24, true)
    ensures Classify("h") == Number(Hour12, false) && Classify("hh") == Number(Hour12, true)
    ensures Classify("K") == Number(Hour11, false) && Classify("KK") == Number(Hour11, true)
    ensures Classify("k") == Number(HourFrom1, false) && Classify("kk") == Number(HourFrom1, true)
    ensures Classify("m") == Number(Minute, false) && Classify("mm") == Number(Minute, true)
    ensures Classify("s") == Number(Second, false) && Classify("ss") == Number(Second, true)
  {
    SingleLetters();
    DoubleLetters();
    hide Classify;
  }

  lemma SingleLetters()
    ensures Classify("M") == Number(Month, false) && Classify("d") == Number(Day, false)
    ensures Classify("H") == Number(Hour24, false) && Classify("h") == Number(Hour12, false)
    ensures Classify("K") == Number(Hour11, false) && Classify("k") == Number(HourFrom1, false)
    ensures Classify("m") == Number(Minute, false) && Classify("s") == Number(Second, false)
  {
  }

  lemma DoubleLetters()
    ensures Classify("MM") == Number(Month, true) && Classify("dd") == Number(Day, true)
    ensures Classify("HH") == Number(Hour24, true) && Classify("hh") == Number(Hour12, true)
    ensures Classify("KK") == Number(Hour11, true) && Classify("kk") == Number(HourFrom1, true)
    ensures Classify("mm") == Number(Minute, true) && Classify("ss") == Number(Second, true)
  {
  }

  /** Years of four digits are shown in full, or by their last two digits. */
  lemma YearsShown(d: Date)
    requires Valid(d) && 1801 <= d.year <= 2899
    ensures Value(d, "yyyy") == Value(d, "y") == d.year && Value(d, "yy") == d.year % 100
    ensures |Show(d, Classify("yyyy"))| == 4 && |Show(d, Classify("yy"))| == 2
  {
    YearTextIsDecimal(d.year);
    LastTwoDigits(d.year);
    DecReads(d.year);
    assert Classify("yyyy") == Year4 && Classify("yy") == Year2 && Classify("y") == Year;
    hide YearText, ToNumber, IsInteger, Dec, Substring, Classify;
  }

  /** Before noon is AM. */
  lemma HalfShown(d: Date)
    requires Valid(d)
    ensures Show(d, Classify("a")) == if d.hour < 12 then "AM" else "PM"
  {
  }

  // ---------- names ----------

  const MONTHS := "JanFebMarAprMayJunJulAugSepOctNovDec"
  const DAYS := "SunMonTueWedThuFriSat"
  const MONTH_ENDINGS: seq<string> :=
    ["uary", "ruary", "ch", "il", "", "e", "y", "ust", "tember", "ober", "ember", "ember"]
  const DAY_ENDINGS: seq<string> := ["day", "day", "sday", "nesday", "rsday", "day", "urday"]

  /** A month is shown by its first three letters, or with the rest of its name after them. */
  lemma MonthsShown(d: Date)
    requires Valid(d)
    ensures var short := MONTHS[3 * (d.month - 1)..3 * d.month];
      Show(d, Classify("NNN")) == short && Show(d, Classify("MMM")) == short + MONTH_ENDINGS[d.month - 1]
  {
    assert Classify("NNN") == MonthAbbr && Classify("MMM") == MonthName;
    hide Classify;
    MonthIs(d.month - 1);
  }

  lemma MonthIs(m: nat)
    requires m < 12
    ensures MONTHS[3 * m..3 * m + 3] == MONTH_NAMES[m + 12]
    ensures MONTH_NAMES[m + 12] + MONTH_ENDINGS[m] == MONTH_NAMES[m]
  {
    if m < 6 { EarlyMonth(m); } else { LateMonth(m); }
    ThreeLetters(MONTHS, 3 * m, MONTH_NAMES[m + 12]);
    MonthEnding(m);
  }

  predicate Letters(s: string, i: nat, t: string)
  {
    |t| == 3 && i + 3 <= |s| && s[i] == t[0] && s[i + 1] == t[1] && s[i + 2] == t[2]
  }

  lemma ThreeLetters(s: string, i: nat, t: string)
    requires Letters(s, i, t)
    ensures s[i..i + 3] == t
  {
  }

  lemma EarlyMonth(m: nat)
    requires m < 6
    ensures Letters(MONTHS, 3 * m, MONTH_NAMES[m + 12])
  {
  }

  lemma LateMonth(m: nat)
    requires 6 <= m < 12
    ensures Letters(MONTHS, 3 * m, MONTH_NAMES[m + 12])
  {
  }

  lemma MonthEnding(m: nat)
    requires m < 12
    ensures |MONTH_NAMES| == 24 && |MONTH_ENDINGS| == 12 && MONTH_NAMES[m + 12] + MONTH_ENDINGS[m] == MONTH_NAMES[m]
  {
    if m < 6 { EarlyMonthEnding(m); } else { LateMonthEnding(m); }
  }

  lemma EarlyMonthEnding(m: nat)
    requires m < 6
    ensures MONTH_NAMES[m + 12] + MONTH_ENDINGS[m] == MONTH_NAMES[m]
  {
  }

  lemma LateMonthEnding(m: nat)
    requires 6 <= m < 12
    ensures MONTH_NAMES[m + 12] + MONTH_ENDINGS[m] == MONTH_NAMES[m]
  {
  }

  /** The days are named from Sunday on. */
  lemma DaysShown(d: Date)
    requires Valid(d)
    ensures var short := DAYS[3 * d.weekday..3 * d.weekday + 3];
      Show(d, Classify("E")) == short && Show(d, Classify("EE")) == short + DAY_ENDINGS[d.weekday]
  {
    assert Classify("E") == DayAbbr && Classify("EE") == DayName;
    hide Classify;
    DayIs(d.weekday);
  }

  lemma DayIs(n: nat)
    requires n < 7
    ensures DAYS[3 * n..3 * n + 3] == DAY_NAMES[n + 7]
    ensures DAY_NAMES[n + 7] + DAY_ENDINGS[n] == DAY_NAMES[n]
  {
    DayLetters(n);
    ThreeLetters(DAYS, 3 * n, DAY_NAMES[n + 7]);
    DayEnding(n);
  }

  lemma DayLetters(n: nat)
    requires n < 7
    ensures Letters(DAYS, 3 * n, DAY_NAMES[n + 7])
  {
  }

  lemma DayEnding(n: nat)
    requires n < 7
    ensures DAY_NAMES[n + 7] + DAY_ENDINGS[n] == DAY_NAMES[n]
  {
  }

  /** Everything else is shown as it is. */
  lemma OthersShown(d: Date, run: string)
    requires Valid(d) && run != "" && run[0] !in "yMNEadHhKkms"
    ensures Show(d, Classify(run)) == run
  {
  }

  // ---------- reading ----------

  /** A number that is read is one that is shown of some date. */
  lemma ReadIsShown(s: string, u: Unit, wide: bool, r: Reading) returns (d: Date)
    requires Read(s, Number(u, wide), r).Some?
    ensures Valid(d) && Read(s, Number(u, wide), r).value.0 == Recall(d, Number(u, wide), r)
  {
    hide GetInt, ToNumber, IsInteger, LeapYear;
    var n := ToNumber(GetInt(s, if wide then 2 else 1, 2).value);
    d := Date(2000, 1, 1, 0, 0, 0, 0);
    match u
    case Month => d := d.(month := n);
    case Day => d := d.(day := n);
    case Hour12 => d := d.(hour := n % 24);
    case Hour24 => d := d.(hour := n);
    case Hour11 => d := d.(hour := n);
    case HourFrom1 => d := d.(hour := n - 1);
    case Minute => d := d.(minute := n);
    case Second => d := d.(second := n);
  }

  /** Where no day name stands, none is skipped, and reading goes on. */
  lemma {:induction false} NoDayIsSkipped(s: string, t: Token, r: Reading)
    requires t.DayName? || t.DayAbbr?
    requires forall k :: 0 <= k < |DAY_NAMES| ==> !SameText(Prefix(s, |DAY_NAMES[k]|), DAY_NAMES[k])
    ensures Read(s, t, r) == Some((r, 0))
  {
    NoName(s, DAY_NAMES, 0);
    hide SameText;
  }

  lemma {:induction false} NoName(s: string, names: seq<string>, i: nat)
    requires forall k :: i <= k < |names| ==> !SameText(Prefix(s, |names[k]|), names[k])
    ensures FirstName(s, names, i) == None
    decreases |names| - i
  {
    if i < |names| { NoName(s, names, i + 1); }
  }

  // ---------- case ----------

  const UPPER := "ABCDEFGHIJKLMNOPQRSTUVWXYZ"
  const LOWER := "abcdefghijklmnopqrstuvwxyz"

  /** Two texts are the same if they are so up to the case of letters. */
  predicate SameLetter(a: char, b: char)
  {
    a == b || exists k :: 0 <= k < 26 && ((a == UPPER[k] && b == LOWER[k]) || (a == LOWER[k] && b == UPPER[k]))
  }

  lemma SameTextExactly(a: string, b: string)
    ensures SameText(a, b) <==> (|a| == |b| && forall i :: 0 <= i < |a| ==> SameLetter(a[i], b[i]))
  {
    forall c, e ensures Lower(c) == Lower(e) <==> SameLetter(c, e) {
      SameLetterExactly(c, e);
    }
    hide Lower, SameLetter;
  }

  lemma SameLetterExactly(a: char, b: char)
    ensures Lower(a) == Lower(b) <==> SameLetter(a, b)
  {
    forall k | 0 <= k < 26 ensures UPPER[k] == ('A' as int + k) as char && LOWER[k] == ('a' as int + k) as char {
      LetterAt(k);
    }
    hide UPPER, LOWER;
    if Lower(a) == Lower(b) && a != b {
      var k := Lower(a) as int - 'a' as int;
      assert 0 <= k < 26 && ((a == UPPER[k] && b == LOWER[k]) || (a == LOWER[k] && b == UPPER[k]));
    }
  }

  lemma LetterAt(k: nat)
    requires k < 26
    ensures UPPER[k] == ('A' as int + k) as char && LOWER[k] == ('a' as int + k) as char
  {
  }

  // ---------- fields that the format does not mention ----------

  lemma ReadIsLocal(s: string, t: Token, r: Reading, p: Part)
    requires Read(s, t, r).Some? && PartOf(t) != p
    ensures AgreeOn(p, Read(s, t, r).value.0, r)
  {
    hide GetInt, FirstName, SameText, FullYear;
  }

  lemma {:induction false} UnmentionedStays(s: string, ts: seq<Token>, r: Reading, p: Part)
    requires ReadAll(s, ts, r).Some? && Last(ts, p).None?
    ensures AgreeOn(p, ReadAll(s, ts, r).value, r)
    decreases |ts|
  {
    if ts != [] {
      hide Read, PartOf;
      ReadIsLocal(s, ts[0], r, p);
      var q := Read(s, ts[0], r).value;
      UnmentionedStays(s[q.1..], ts[1..], q.0, p);
    }
  }

  /**
   What the format does not mention is taken from today, but for the day, which is the first of
   the month. The year is today's only in the twentieth century: it is counted from 1900, and only
   the years 0 to 99 are taken for the years from 1900 on.
   */
  lemma UnmentionedIsToday(s: string, f: string, now: Date)
    requires Parse(s, Tokens(f), now).Some?
    ensures var q, ts := Parse(s, Tokens(f), now).value, Tokens(f);
      && (Last(ts, MonthPart).None? ==> q.month == now.month)
      && (Last(ts, DayPart).None? ==> q.day == 1)
      && (Last(ts, HourPart).None? && Last(ts, HalfPart).None? ==> q.hour == now.hour)
      && (Last(ts, MinutePart).None? ==> q.minute == now.minute)
      && (Last(ts, SecondPart).None? ==> q.second == now.second)
      && (Last(ts, YearPart).None? ==> (q.year == now.year <==> 1900 <= now.year <= 1999))
  {
    var ts, r := Tokens(f), Start(now);
    hide Tokens, Last, ReadAll, DaysIn;
    if Last(ts, MonthPart).None? { UnmentionedStays(s, ts, r, MonthPart); }
    if Last(ts, DayPart).None? { UnmentionedStays(s, ts, r, DayPart); }
    if Last(ts, HourPart).None? { UnmentionedStays(s, ts, r, HourPart); }
    if Last(ts, HalfPart).None? { UnmentionedStays(s, ts, r, HalfPart); }
    if Last(ts, MinutePart).None? { UnmentionedStays(s, ts, r, MinutePart); }
    if Last(ts, SecondPart).None? { UnmentionedStays(s, ts, r, SecondPart); }
    if Last(ts, YearPart).None? { UnmentionedStays(s, ts, r, YearPart); }
  }
}
