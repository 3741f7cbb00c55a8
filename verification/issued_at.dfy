/**
 Finding a document's date in text (backend/src/workers/issued_at.rs and
 backend/src/issued_at.rs). Each of the five patterns supplies its matches as
 captures with spans; the calendar, the window, the month table and the
 resolution of overlapping spans are modelled on top. The instant of a local
 midnight, which a time zone may lack, is a parameter.

 A candidate longer than the first entry it overlaps takes that entry's place and
 is compared with no other, so the spans that are kept may overlap after all.
*/
module IssuedAt {
  import opened Common
  import opened Text
  import StoragePaths

  // ---------- Calendar and window ----------

  datatype Date = Date(year: int, month: nat, day: nat)

  predicate IsLeap(year: int) {
    year % 4 == 0 && (year % 100 != 0 || year % 400 == 0)
  }

  function DaysIn(year: int, month: nat): nat {
    if month == 2 then (if IsLeap(year) then 29 else 28)
    else if month == 4 || month == 6 || month == 9 || month == 11 then 30
    else 31
  }

  predicate IsCalendarDate(d: Date) {
    1 <= d.month <= 12 && 1 <= d.day <= DaysIn(d.year, d.month)
  }

  predicate Before(a: Date, b: Date) {
    a.year < b.year || (a.year == b.year && (a.month < b.month || (a.month == b.month && a.day < b.day)))
  }

  // ---------- The calendar, counted ----------

  /** How many leap years there were up to the start of the year. */
  function LeapsBefore(year: int): int {
    (year - 1) / 4 - (year - 1) / 100 + (year - 1) / 400
  }

  function DaysInYear(year: int): nat {
    DaysIn(year, 1) + DaysIn(year, 2) + DaysIn(year, 3) + DaysIn(year, 4) + DaysIn(year, 5) + DaysIn(year, 6)
    + DaysIn(year, 7) + DaysIn(year, 8) + DaysIn(year, 9) + DaysIn(year, 10) + DaysIn(year, 11) + DaysIn(year, 12)
  }

  /** Long and short months take turns from January and again from August, February apart. */
  lemma MonthLengths(year: int, month: nat)
    requires 1 <= month <= 12
    ensures month != 2 ==> DaysIn(year, month) == 30 + (month + (if month < 8 then 0 else 1)) % 2
    ensures month == 2 ==> DaysIn(year, month) == 28 + (LeapsBefore(year + 1) - LeapsBefore(year))
  {
    LeapCounted(year);
  }

  lemma LeapCounted(year: int)
    ensures LeapsBefore(year + 1) - LeapsBefore(year) == if IsLeap(year) then 1 else 0
  {
    FourthsPassed(year);
    HundredthsPassed(year);
    FourHundredthsPassed(year);
    MultiplesNest(year);
  }

  /** The days of a year are 365 and one for each leap year the Gregorian count passes in it. */
  lemma YearLength(year: int)
    ensures DaysInYear(year) == 365 + LeapsBefore(year + 1) - LeapsBefore(year)
  {
    LeapCounted(year);
  }

  lemma MultiplesNest(year: int)
    ensures year % 400 == 0 ==> year % 100 == 0
    ensures year % 100 == 0 ==> year % 4 == 0
  {
  }

  lemma FourthsPassed(year: int)
    ensures year / 4 - (year - 1) / 4 == if year % 4 == 0 then 1 else 0
  {
  }

  lemma HundredthsPassed(year: int)
    ensures year / 100 - (year - 1) / 100 == if year % 100 == 0 then 1 else 0
  {
  }

  lemma FourHundredthsPassed(year: int)
    ensures year / 400 - (year - 1) / 400 == if year % 400 == 0 then 1 else 0
  {
  }

  /** A number by which calendar dates are ordered. */
  function DayKey(d: Date): int {
    d.year * 10000 + d.month * 100 + d.day
  }

  lemma BeforeIsKeyOrder(a: Date, b: Date)
    requires a.month <= 12 && a.day <= 31 && b.month <= 12 && b.day <= 31
    ensures Before(a, b) <==> DayKey(a) < DayKey(b)
  {
  }

  datatype MonthVariant = MonthVariant(name: string, month: nat, locales: seq<string>)

  datatype DateOrder = Dmy | Mdy | Ymd

  datatype Settings = Settings(
    minDate: Date, ignored: set<Date>, locales: set<string>, months: seq<MonthVariant>, midnight: Date -> Option<int>)

  predicate InWindow(settings: Settings, today: Date, d: Date) {
    !Before(d, settings.minDate) && !Before(today, d) && d !in settings.ignored
  }

  function NormalizeNaive(settings: Settings, today: Date, d: Date): Option<int> {
    if InWindow(settings, today, d) then settings.midnight(d) else None
  }

  /** A date is taken exactly when it lies from the first date allowed to today, is not ignored and has a midnight. */
  lemma TakenExactly(settings: Settings, today: Date, d: Date)
    requires IsCalendarDate(d) && IsCalendarDate(settings.minDate) && IsCalendarDate(today)
    ensures NormalizeNaive(settings, today, d) ==
              if DayKey(settings.minDate) <= DayKey(d) <= DayKey(today) && d !in settings.ignored then settings.midnight(d) else None
  {
    BeforeIsKeyOrder(d, settings.minDate);
    BeforeIsKeyOrder(today, d);
  }

  // ---------- Reading the captured groups ----------

  predicate IsDigit(c: char) {
    '0' <= c <= '9'
  }

  function Number(s: string): nat
    requires forall c :: c in s ==> IsDigit(c)
  {
    if s == "" then 0
    else
      assert s[|s| - 1] in s && IsDigit(s[|s| - 1]);
      Number(s[..|s| - 1]) * 10 + (s[|s| - 1] as int - '0' as int)
  }

  /** The groups hold Unicode digits; only ASCII digits make a number. */
  function ParseNumber(s: string): Option<nat> {
    if s == "" || exists c :: c in s && !IsDigit(c) then None else Some(Number(s))
  }

  function TrimToDigits(s: string): string {
    if s == "" then ""
    else if !IsDigit(s[0]) then TrimToDigits(s[1..])
    else if !IsDigit(s[|s| - 1]) then TrimToDigits(s[..|s| - 1])
    else s
  }

  function Century(year: nat): int {
    if year >= 70 then year + 1900 else year + 2000
  }

  function NormalizeYear(raw: string): Option<int> {
    match ParseNumber(raw)
    case None => None
    case Some(year) => Some(if ByteLen(raw) == 2 then Century(year) else year)
  }

  function FindVariant(months: seq<MonthVariant>, name: string): Option<MonthVariant> {
    if months == [] then None
    else if months[0].name == name then Some(months[0])
    else FindVariant(months[1..], name)
  }

  /** Only the first variant of that name is looked at, whatever its locales. */
  function MonthNameToNumber(settings: Settings, value: string): Option<nat> {
    match FindVariant(settings.months, Trim(value))
    case None => None
    case Some(variant) =>
      if settings.locales == {} || variant.locales == [] || exists l :: l in variant.locales && l in settings.locales
      then Some(variant.month)
      else None
  }

  lemma {:induction false} FindVariantExactly(months: seq<MonthVariant>, name: string)
    ensures FindVariant(months, name).None? <==> forall v :: v in months ==> v.name != name
    ensures FindVariant(months, name).Some? ==>
              exists i :: 0 <= i < |months| && months[i] == FindVariant(months, name).value && months[i].name == name
                          && forall k :: 0 <= k < i ==> months[k].name != name
    decreases |months|
  {
    if months != [] && months[0].name != name {
      FindVariantExactly(months[1..], name);
      assert forall k :: 1 <= k < |months| ==> months[k] == months[1..][k - 1];
      if FindVariant(months, name).Some? {
        var i :| 0 <= i < |months[1..]| && months[1..][i] == FindVariant(months, name).value && months[1..][i].name == name
                 && forall k :: 0 <= k < i ==> months[1..][k].name != name;
        assert months[i + 1] == FindVariant(months, name).value;
      }
    } else if months != [] {
      assert months[0] in months;
    }
  }

  predicate LocaleAllows(settings: Settings, v: MonthVariant) {
    settings.locales == {} || v.locales == [] || exists l :: l in v.locales && l in settings.locales
  }

  /** A name is read as a month exactly when the first variant of that name is of a locale asked for. */
  lemma MonthReadExactly(settings: Settings, value: string, month: nat)
    ensures MonthNameToNumber(settings, value) == Some(month) <==>
              exists i :: 0 <= i < |settings.months| && settings.months[i].name == Trim(value) && settings.months[i].month == month
                          && LocaleAllows(settings, settings.months[i])
                          && forall k :: 0 <= k < i ==> settings.months[k].name != Trim(value)
  {
    FindVariantExactly(settings.months, Trim(value));
    if i :| 0 <= i < |settings.months| && settings.months[i].name == Trim(value) && settings.months[i].month == month
            && LocaleAllows(settings, settings.months[i]) && forall k :: 0 <= k < i ==> settings.months[k].name != Trim(value) {
      assert settings.months[i] in settings.months;
    }
  }

  datatype Pattern = YearMonthDay | Numeric | DayMonth | MonthDay | MonthYear

  /** One match of a pattern: its span and its groups; MonthYear has two. */
  datatype Capture = Capture(start: nat, end: nat, g1: string, g2: string, g3: string)

  function Combine(year: Option<int>, month: Option<nat>, day: Option<nat>): Option<Date> {
    if year.None? || month.None? || day.None? then None
    else
      var d := Date(year.value, month.value, day.value);
      if IsCalendarDate(d) then Some(d) else None
  }

  /** The calendar date a capture spells, if it spells one. */
  function DateOf(pattern: Pattern, c: Capture, order: DateOrder, settings: Settings): Option<Date> {
    match pattern
    case YearMonthDay => Combine(ParseNumber(c.g1), ParseNumber(c.g2), ParseNumber(c.g3))
    case Numeric =>
      var (day, month) := if order.Mdy? then (c.g2, c.g1) else (c.g1, c.g2);
      Combine(NormalizeYear(c.g3), ParseNumber(month), ParseNumber(day))
    case DayMonth =>
      if ByteLen(c.g3) < 3 then None
      else Combine(NormalizeYear(c.g3), MonthNameToNumber(settings, c.g2), ParseNumber(TrimToDigits(c.g1)))
    case MonthDay =>
      Combine(NormalizeYear(c.g3), MonthNameToNumber(settings, c.g1), ParseNumber(TrimToDigits(c.g2)))
    case MonthYear => Combine(ParseNumber(c.g2), MonthNameToNumber(settings, c.g1), Some(1))
  }

  // ---------- Spelling a date ----------

  predicate AllDigits(s: string) {
    forall c :: c in s ==> IsDigit(c)
  }

  lemma {:induction false} NumberOfDigits(n: nat)
    ensures ParseNumber(StoragePaths.Digits(n)) == Some(n)
  {
    var s := StoragePaths.Digits(n);
    assert AllDigits(s);
    if n < 10 {
      assert s[..0] == "" && Number(s[..0]) == 0;
    } else {
      NumberOfDigits(n / 10);
      assert s[..|s| - 1] == StoragePaths.Digits(n / 10);
    }
  }

  lemma {:induction false} DigitsByteLen(s: string)
    requires AllDigits(s)
    ensures ByteLen(s) == |s|
  {
    if s != "" {
      assert s[0] in s;
      DigitsByteLen(s[1..]);
    }
  }

  lemma {:induction false} TrimDropsSuffix(digits: string, suffix: string)
    requires digits != "" && AllDigits(digits) && forall c :: c in suffix ==> !IsDigit(c)
    ensures TrimToDigits(digits + suffix) == digits
    decreases |suffix|
  {
    var s := digits + suffix;
    assert s[0] == digits[0] && digits[0] in digits;
    if suffix == "" {
      assert s == digits && digits[|digits| - 1] in digits;
    } else {
      assert s[|s| - 1] == suffix[|suffix| - 1] && suffix[|suffix| - 1] in suffix;
      assert s[..|s| - 1] == digits + suffix[..|suffix| - 1];
      TrimDropsSuffix(digits, suffix[..|suffix| - 1]);
    }
  }

  function Decimal(n: nat, zeros: nat): (s: string)
    ensures s != "" && AllDigits(s) && |s| == zeros + |StoragePaths.Digits(n)|
    decreases zeros
  {
    if zeros == 0 then StoragePaths.Digits(n) else "0" + Decimal(n, zeros - 1)
  }

  lemma {:induction false} LeadingZero(s: string)
    requires AllDigits(s)
    ensures AllDigits("0" + s) && Number("0" + s) == Number(s)
  {
    var t := "0" + s;
    if s == "" {
      assert t[..0] == "" && Number(t[..0]) == 0;
    } else {
      assert s[|s| - 1] in s && t[..|t| - 1] == "0" + s[..|s| - 1];
      LeadingZero(s[..|s| - 1]);
    }
  }

  lemma {:induction false} NumberOfDecimal(n: nat, zeros: nat)
    ensures ParseNumber(Decimal(n, zeros)) == Some(n)
    decreases zeros
  {
    if zeros == 0 {
      NumberOfDigits(n);
    } else {
      NumberOfDecimal(n, zeros - 1);
      LeadingZero(Decimal(n, zeros - 1));
    }
  }

  /** How many zeros are written in front of each number. */
  datatype Padding = Padding(year: nat, month: nat, day: nat)

  /** A date as the groups of a pattern: numbers in decimal, a month name, an ordinal suffix behind the day. */
  function Spell(pattern: Pattern, d: Date, pad: Padding, order: DateOrder, name: string, suffix: string): (string, string, string)
    requires d.year >= 0
  {
    var year, month, day := Decimal(d.year, pad.year), Decimal(d.month, pad.month), Decimal(d.day, pad.day);
    match pattern
    case YearMonthDay => (year, month, day)
    case Numeric => if order.Mdy? then (month, day, year) else (day, month, year)
    case DayMonth => (day + suffix, name, year)
    case MonthDay => (name, day + suffix, year)
    case MonthYear => (name, year, "")
  }

  predicate NamesMonth(pattern: Pattern) {
    pattern.DayMonth? || pattern.MonthDay? || pattern.MonthYear?
  }

  /** The year a pattern takes a written year for: two digits mean a year near 2000, or none in a day-first text. */
  function YearMeant(pattern: Pattern, year: nat, width: nat): Option<int> {
    match pattern
    case DayMonth => if width < 3 then None else Some(year)
    case YearMonthDay => Some(year)
    case MonthYear => Some(year)
    case _ => Some(if width == 2 then Century(year) else year)
  }

  /**
   Reading what a pattern spells gives the date meant, if there is such a date:
   for a year written with three digits or more, the date itself; for a month
   and a year, the first day.
   */
  lemma SpelledDateIsRead(
    pattern: Pattern, d: Date, pad: Padding, order: DateOrder, settings: Settings, name: string, suffix: string, start: nat, end: nat)
    requires d.year >= 0 && (NamesMonth(pattern) ==> MonthNameToNumber(settings, name) == Some(d.month))
    requires forall c :: c in suffix ==> !IsDigit(c)
    ensures var groups := Spell(pattern, d, pad, order, name, suffix);
            var read := DateOf(pattern, Capture(start, end, groups.0, groups.1, groups.2), order, settings);
            var year := YearMeant(pattern, d.year, |Decimal(d.year, pad.year)|);
            var meant := Date(if year.Some? then year.value else d.year, d.month, if pattern.MonthYear? then 1 else d.day);
            && read == (if year.Some? && IsCalendarDate(meant) then Some(meant) else None)
            && (IsCalendarDate(d) && |Decimal(d.year, pad.year)| >= 3 ==>
                  read == Some(if pattern.MonthYear? then d.(day := 1) else d))
  {
    NumberOfDecimal(d.year, pad.year);
    NumberOfDecimal(d.month, pad.month);
    NumberOfDecimal(d.day, pad.day);
    DigitsByteLen(Decimal(d.year, pad.year));
    TrimDropsSuffix(Decimal(d.day, pad.day), suffix);
  }

  /** Two-digit years stand for 1970 to 2069. */
  lemma TwoDigitYears(raw: string)
    requires |raw| == 2 && ParseNumber(raw).Some?
    ensures NormalizeYear(raw).Some? && 1970 <= NormalizeYear(raw).value <= 2069
    ensures NormalizeYear(raw).value % 100 == ParseNumber(raw).value
  {
    assert raw == [raw[0], raw[1]];
    assert raw[0] in raw && raw[1] in raw;
    assert ByteLen(raw[1..][1..]) == 0 && ByteLen(raw[1..]) == 1;
    assert raw[..1][..0] == "" && Number(raw[..1]) == raw[0] as int - '0' as int;
  }

  // ---------- Overlapping spans ----------

  datatype Match = Match(start: nat, end: nat, instant: int)

  function Length(m: Match): nat {
    if m.start < m.end then m.end - m.start else 0
  }

  predicate Overlap(a: Match, b: Match) {
    a.start < b.end && b.start < a.end
  }

  /** Two spans that hold something overlap exactly when they have a place in common. */
  lemma OverlapExactly(a: Match, b: Match)
    requires a.start < a.end && b.start < b.end
    ensures Overlap(a, b) <==> exists p: nat :: IsAt(a, p) && IsAt(b, p)
    ensures Overlap(a, b) <==> Overlap(b, a)
  {
    if Overlap(a, b) {
      var p := if a.start < b.start then b.start else a.start;
      assert IsAt(a, p) && IsAt(b, p);
    }
  }

  predicate IsAt(m: Match, p: nat) {
    m.start <= p < m.end
  }

  /** The first retained entry the candidate overlaps, or the length of the list. */
  function FirstOverlap(ms: seq<Match>, c: Match): (i: nat)
    ensures i <= |ms| && (i < |ms| ==> Overlap(ms[i], c)) && forall k :: 0 <= k < i ==> !Overlap(ms[k], c)
  {
    if ms == [] then 0
    else if Overlap(ms[0], c) then 0
    else
      var i := 1 + FirstOverlap(ms[1..], c);
      assert forall k :: 1 <= k < |ms| ==> ms[k] == ms[1..][k - 1];
      i
  }

  /** A longer candidate takes the place of the first entry it overlaps; only that one is looked at. */
  function Push(ms: seq<Match>, c: Match): seq<Match> {
    var i := FirstOverlap(ms, c);
    if i == |ms| then ms + [c]
    else if Length(c) > Length(ms[i]) then ms[i := c]
    else ms
  }

  function Resolve(ms: seq<Match>, candidates: seq<Match>): seq<Match>
    decreases |candidates|
  {
    if candidates == [] then ms else Resolve(Push(ms, candidates[0]), candidates[1..])
  }

  /** The match a capture contributes, when it spells an accepted date. */
  function MatchOf(pattern: Pattern, c: Capture, order: DateOrder, settings: Settings, today: Date): Option<Match> {
    match DateOf(pattern, c, order, settings)
    case None => None
    case Some(d) =>
      match NormalizeNaive(settings, today, d)
      case None => None
      case Some(t) => Some(Match(c.start, c.end, t))
  }

  function Accepted(pattern: Pattern, captures: seq<Capture>, order: DateOrder, settings: Settings, today: Date): seq<Match> {
    if captures == [] then []
    else
      var rest := Accepted(pattern, captures[1..], order, settings, today);
      match MatchOf(pattern, captures[0], order, settings, today)
      case None => rest
      case Some(m) => [m] + rest
  }

  datatype Captures = Captures(ymd: seq<Capture>, numeric: seq<Capture>, dayMonth: seq<Capture>, monthDay: seq<Capture>, monthYear: seq<Capture>)

  function Of(all: Captures, pattern: Pattern): seq<Capture> {
    match pattern
    case YearMonthDay => all.ymd
    case Numeric => all.numeric
    case DayMonth => all.dayMonth
    case MonthDay => all.monthDay
    case MonthYear => all.monthYear
  }

  function Candidates(all: Captures, order: DateOrder, settings: Settings, today: Date): seq<Match> {
    Accepted(YearMonthDay, all.ymd, order, settings, today) + Accepted(Numeric, all.numeric, order, settings, today)
    + Accepted(DayMonth, all.dayMonth, order, settings, today) + Accepted(MonthDay, all.monthDay, order, settings, today)
    + Accepted(MonthYear, all.monthYear, order, settings, today)
  }

  lemma {:induction false} ResolveConcat(ms: seq<Match>, a: seq<Match>, b: seq<Match>)
    ensures Resolve(ms, a + b) == Resolve(Resolve(ms, a), b)
    decreases |a|
  {
    if a == [] {
      assert a + b == b;
    } else {
      assert (a + b)[1..] == a[1..] + b;
      ResolveConcat(Push(ms, a[0]), a[1..], b);
    }
  }

  method PushDate(ms: seq<Match>, c: Match) returns (r: seq<Match>)
    ensures r == Push(ms, c)
  {
    var i := 0;
    while i < |ms| && !Overlap(ms[i], c)
      invariant 0 <= i <= |ms| && forall k :: 0 <= k < i ==> !Overlap(ms[k], c)
    {
      i := i + 1;
    }
    if i < |ms| {
      return if Length(c) > Length(ms[i]) then ms[i := c] else ms;
    }
    return ms + [c];
  }

  method RunPass(pattern: Pattern, captures: seq<Capture>, order: DateOrder, settings: Settings, today: Date, before: seq<Match>)
    returns (matches: seq<Match>)
    ensures matches == Resolve(before, Accepted(pattern, captures, order, settings, today))
  {
    matches := before;
    for i := 0 to |captures|
      invariant Resolve(before, Accepted(pattern, captures, order, settings, today))
             == Resolve(matches, Accepted(pattern, captures[i..], order, settings, today))
    {
      PassStep(pattern, captures[i..], order, settings, today, matches);
      assert captures[i..][1..] == captures[i + 1..];
      var date := DateOf(pattern, captures[i], order, settings);
      if date.Some? {
        var instant := NormalizeNaive(settings, today, date.value);
        if instant.Some? {
          matches := PushDate(matches, Match(captures[i].start, captures[i].end, instant.value));
        }
      }
    }
  }

  lemma PassStep(pattern: Pattern, captures: seq<Capture>, order: DateOrder, settings: Settings, today: Date, ms: seq<Match>)
    requires captures != []
    ensures var rest := Accepted(pattern, captures[1..], order, settings, today);
            Resolve(ms, Accepted(pattern, captures, order, settings, today)) ==
              match MatchOf(pattern, captures[0], order, settings, today)
              case None => Resolve(ms, rest)
              case Some(m) => Resolve(Push(ms, m), rest)
  {
    var rest := Accepted(pattern, captures[1..], order, settings, today);
    match MatchOf(pattern, captures[0], order, settings, today)
    case None =>
    case Some(m) => assert ([m] + rest)[1..] == rest;
  }

  method CollectMatches(all: Captures, order: DateOrder, settings: Settings, today: Date) returns (matches: seq<Match>)
    ensures matches == SortByStart(Resolve([], Candidates(all, order, settings, today)))
  {
    var a, b := Accepted(YearMonthDay, all.ymd, order, settings, today), Accepted(Numeric, all.numeric, order, settings, today);
    var c, d := Accepted(DayMonth, all.dayMonth, order, settings, today), Accepted(MonthDay, all.monthDay, order, settings, today);
    ResolveConcat([], a, b);
    ResolveConcat([], a + b, c);
    ResolveConcat([], a + b + c, d);
    ResolveConcat([], a + b + c + d, Accepted(MonthYear, all.monthYear, order, settings, today));
    matches := RunPass(YearMonthDay, all.ymd, order, settings, today, []);
    matches := RunPass(Numeric, all.numeric, order, settings, today, matches);
    matches := RunPass(DayMonth, all.dayMonth, order, settings, today, matches);
    matches := RunPass(MonthDay, all.monthDay, order, settings, today, matches);
    matches := RunPass(MonthYear, all.monthYear, order, settings, today, matches);
    matches := SortByStart(matches);
  }

  // ---------- The earliest match ----------

  function InsertByStart(m: Match, ms: seq<Match>): seq<Match> {
    if ms == [] || m.start <= ms[0].start then [m] + ms else [ms[0]] + InsertByStart(m, ms[1..])
  }

  /** A stable sort by start. */
  function SortByStart(ms: seq<Match>): seq<Match> {
    if ms == [] then [] else InsertByStart(ms[0], SortByStart(ms[1..]))
  }

  predicate Sorted(ms: seq<Match>) {
    forall i, j :: 0 <= i < j < |ms| ==> ms[i].start <= ms[j].start
  }

  lemma {:induction false} InsertSorted(m: Match, ms: seq<Match>)
    requires Sorted(ms)
    ensures Sorted(InsertByStart(m, ms)) && |InsertByStart(m, ms)| == |ms| + 1
    ensures forall x :: x in InsertByStart(m, ms) <==> x == m || x in ms
  {
    if ms != [] && m.start > ms[0].start {
      InsertSorted(m, ms[1..]);
      var tail := InsertByStart(m, ms[1..]);
      forall i | 0 <= i < |tail|
        ensures ms[0].start <= tail[i].start
      {
        assert tail[i] in tail;
      }
    }
  }

  lemma {:induction false} SortSorts(ms: seq<Match>)
    ensures Sorted(SortByStart(ms)) && |SortByStart(ms)| == |ms|
    ensures forall x :: x in SortByStart(ms) <==> x in ms
  {
    if ms != [] {
      SortSorts(ms[1..]);
      InsertSorted(ms[0], SortByStart(ms[1..]));
    }
  }

  function FindDate(all: Captures, order: DateOrder, settings: Settings, today: Date): Option<int> {
    var matches := SortByStart(Resolve([], Candidates(all, order, settings, today)));
    if matches == [] then None else Some(matches[0].instant)
  }

  method FindDateInText(all: Captures, order: DateOrder, settings: Settings, today: Date) returns (r: Option<int>)
    ensures r == FindDate(all, order, settings, today)
  {
    var matches := CollectMatches(all, order, settings, today);
    r := if matches == [] then None else Some(matches[0].instant);
  }

  // ---------- What is retained ----------

  /**
   A candidate takes a new place exactly when it overlaps no retained entry. In
   any case it is retained, or an entry it overlaps is that is at least as long.
   */
  lemma PushKeeps(ms: seq<Match>, c: Match)
    ensures |Push(ms, c)| == if exists m :: m in ms && Overlap(m, c) then |ms| else |ms| + 1
    ensures c in Push(ms, c) || exists m :: m in ms && m in Push(ms, c) && Overlap(m, c) && Length(m) >= Length(c)
    ensures forall i :: 0 <= i < |ms| ==> Length(ms[i]) <= Length(Push(ms, c)[i])
    ensures forall m :: m in Push(ms, c) ==> m == c || m in ms
  {
    var i := FirstOverlap(ms, c);
    if i < |ms| {
      assert ms[i] in ms;
      if Length(c) > Length(ms[i]) {
        assert Push(ms, c)[i] == c;
      }
    } else {
      assert Push(ms, c)[|ms|] == c;
    }
  }

  /** The retained list never shrinks, no entry's span gets shorter, and every entry is a candidate. */
  lemma {:induction false} ResolveKeeps(ms: seq<Match>, candidates: seq<Match>)
    ensures |ms| <= |Resolve(ms, candidates)|
    ensures ms != [] || candidates != [] ==> Resolve(ms, candidates) != []
    ensures forall i :: 0 <= i < |ms| ==> Length(ms[i]) <= Length(Resolve(ms, candidates)[i])
    ensures forall m :: m in Resolve(ms, candidates) ==> m in ms || m in candidates
    decreases |candidates|
  {
    if candidates != [] {
      PushKeeps(ms, candidates[0]);
      ResolveKeeps(Push(ms, candidates[0]), candidates[1..]);
    }
  }

  predicate Disjoint(ms: seq<Match>) {
    forall i, j :: 0 <= i < j < |ms| ==> !Overlap(ms[i], ms[j])
  }

  /** The candidate replaces an entry although it overlaps a second one. */
  predicate Clashes(ms: seq<Match>, c: Match) {
    var i := FirstOverlap(ms, c);
    i < |ms| && Length(c) > Length(ms[i]) && exists j :: i < j < |ms| && Overlap(ms[j], c)
  }

  /** One more candidate keeps the spans pairwise disjoint exactly when it does not clash. */
  lemma PushDisjointExactly(ms: seq<Match>, c: Match)
    requires Disjoint(ms)
    ensures Disjoint(Push(ms, c)) <==> !Clashes(ms, c)
  {
    var i := FirstOverlap(ms, c);
    var ms' := Push(ms, c);
    if Clashes(ms, c) {
      var j :| i < j < |ms| && Overlap(ms[j], c);
      assert Overlap(ms'[i], ms'[j]);
    } else {
      forall a, b | 0 <= a < b < |ms'|
        ensures !Overlap(ms'[a], ms'[b])
      {
        assert b < |ms| ==> !Overlap(ms[a], ms[b]);
      }
    }
  }

  predicate AlwaysDisjoint(ms: seq<Match>, candidates: seq<Match>)
    decreases |candidates|
  {
    Disjoint(ms) && (candidates != [] ==> AlwaysDisjoint(Push(ms, candidates[0]), candidates[1..]))
  }

  predicate NeverClashes(ms: seq<Match>, candidates: seq<Match>)
    decreases |candidates|
  {
    candidates != [] ==> !Clashes(ms, candidates[0]) && NeverClashes(Push(ms, candidates[0]), candidates[1..])
  }

  /** Over all candidates: the retained spans stay pairwise disjoint exactly when none clashes. */
  lemma {:induction false} DisjointExactly(ms: seq<Match>, candidates: seq<Match>)
    requires Disjoint(ms)
    ensures AlwaysDisjoint(ms, candidates) <==> NeverClashes(ms, candidates)
    decreases |candidates|
  {
    if candidates != [] {
      PushDisjointExactly(ms, candidates[0]);
      if !Clashes(ms, candidates[0]) {
        DisjointExactly(Push(ms, candidates[0]), candidates[1..]);
      }
    }
  }

  function DigitOf(c: char): nat
    requires IsDigit(c)
  {
    c as int - '0' as int
  }

  lemma ParseSnoc(s: string, c: char)
    requires IsDigit(c) && (s == "" || ParseNumber(s).Some?)
    ensures ParseNumber(s + [c]) == Some((if s == "" then 0 else ParseNumber(s).value) * 10 + DigitOf(c))
  {
    var t := s + [c];
    assert AllDigits(t) by {
      assert s != "" ==> AllDigits(s);
    }
    assert t[..|t| - 1] == s;
    assert Number(t) == (if s == "" then 0 else Number(s)) * 10 + DigitOf(c);
  }

  lemma ParseTwo(a: char, b: char)
    requires IsDigit(a) && IsDigit(b)
    ensures ParseNumber([a, b]) == Some(10 * DigitOf(a) + DigitOf(b)) && ByteLen([a, b]) == 2 && TrimToDigits([a, b]) == [a, b]
  {
    ParseSnoc("", a);
    assert "" + [a] == [a] && [a] + [b] == [a, b];
    ParseSnoc([a], b);
    DigitsByteLen([a, b]);
    TrimDropsSuffix([a, b], "");
    assert [a, b] + "" == [a, b];
  }

  lemma ParseFour(a: char, b: char, c: char, d: char)
    requires IsDigit(a) && IsDigit(b) && IsDigit(c) && IsDigit(d)
    ensures ParseNumber([a, b, c, d]) == Some(1000 * DigitOf(a) + 100 * DigitOf(b) + 10 * DigitOf(c) + DigitOf(d))
    ensures ByteLen([a, b, c, d]) == 4
  {
    ParseTwo(a, b);
    assert [a, b] + [c] == [a, b, c] && [a, b, c] + [d] == [a, b, c, d];
    ParseSnoc([a, b], c);
    ParseSnoc([a, b, c], d);
    DigitsByteLen([a, b, c, d]);
  }

  /** What the five patterns match in the text "01.02.20 jan 2021-03-04". */
  const CLASHING_CAPTURES := Captures(
    [Capture(13, 23, "2021", "03", "04")], [Capture(0, 8, "01", "02", "20")], [Capture(6, 17, "20", "jan", "2021")],
    [], [Capture(9, 17, "jan", "2021", "")])

  predicate Usable(settings: Settings, today: Date, d: Date) {
    InWindow(settings, today, d) && settings.midnight(d).Some?
  }

  lemma ClashingYmd(settings: Settings)
    ensures DateOf(YearMonthDay, CLASHING_CAPTURES.ymd[0], Dmy, settings) == Some(Date(2021, 3, 4))
  {
    ParseFour('2', '0', '2', '1');
    ParseTwo('0', '3');
    ParseTwo('0', '4');
  }

  lemma ClashingNumeric(settings: Settings)
    ensures DateOf(Numeric, CLASHING_CAPTURES.numeric[0], Dmy, settings) == Some(Date(2020, 2, 1))
  {
    ParseTwo('0', '1');
    ParseTwo('0', '2');
    ParseTwo('2', '0');
  }

  lemma ClashingDayMonth(settings: Settings)
    requires MonthNameToNumber(settings, "jan") == Some(1)
    ensures DateOf(DayMonth, CLASHING_CAPTURES.dayMonth[0], Dmy, settings) == Some(Date(2021, 1, 20))
  {
    ParseFour('2', '0', '2', '1');
    ParseTwo('2', '0');
  }

  /** A capture alone contributes its date, or nothing. */
  lemma AcceptedOne(pattern: Pattern, c: Capture, order: DateOrder, settings: Settings, today: Date)
    ensures Accepted(pattern, [c], order, settings, today) ==
              match MatchOf(pattern, c, order, settings, today) case None => [] case Some(m) => [m]
  {
    assert [c][1..] == [];
  }

  /** Three retained candidates and one that overlaps the first: the third takes the first place, over the second. */
  lemma ClashResolves(a: Match, b: Match, c: Match, rest: seq<Match>)
    requires a.start == 13 && a.end == 23 && b.start == 0 && b.end == 8 && c.start == 6 && c.end == 17
    requires rest == [] || (|rest| == 1 && rest[0].start == 9 && rest[0].end == 17)
    ensures Resolve([], [a, b, c] + rest) == [c, b]
  {
    assert Push([], a) == [a] && Push([a], b) == [a, b] && Push([a, b], c) == [c, b];
    ResolveConcat([], [a, b, c], rest);
    assert [a, b, c][1..] == [b, c] && [b, c][1..] == [c] && [c][1..] == [];
    assert Resolve([c, b], []) == [c, b];
    assert Resolve([a, b], [c]) == [c, b];
    assert Resolve([a], [b, c]) == [c, b];
    if rest != [] {
      assert rest[1..] == [] && Push([c, b], rest[0]) == [c, b];
    }
  }

  /**
   A clash exists: in "01.02.20 jan 2021-03-04" the match "20 jan 2021" takes the
   place of "2021-03-04" and overlaps "01.02.20", which stays.
   */
  lemma ClashLeavesOverlap(settings: Settings, today: Date)
    requires MonthNameToNumber(settings, "jan") == Some(1)
    requires Usable(settings, today, Date(2021, 3, 4)) && Usable(settings, today, Date(2020, 2, 1)) && Usable(settings, today, Date(2021, 1, 20))
    ensures !Disjoint(Resolve([], Candidates(CLASHING_CAPTURES, Dmy, settings, today)))
  {
    var a, b, c, rest := ClashingCandidates(settings, today);
    ClashResolves(a, b, c, rest);
    assert Overlap([c, b][0], [c, b][1]);
  }

  lemma ClashingCandidates(settings: Settings, today: Date) returns (a: Match, b: Match, c: Match, rest: seq<Match>)
    requires MonthNameToNumber(settings, "jan") == Some(1)
    requires Usable(settings, today, Date(2021, 3, 4)) && Usable(settings, today, Date(2020, 2, 1)) && Usable(settings, today, Date(2021, 1, 20))
    ensures a.start == 13 && a.end == 23 && b.start == 0 && b.end == 8 && c.start == 6 && c.end == 17
    ensures rest == [] || (|rest| == 1 && rest[0].start == 9 && rest[0].end == 17)
    ensures Candidates(CLASHING_CAPTURES, Dmy, settings, today) == [a, b, c] + rest
  {
    var all := CLASHING_CAPTURES;
    ClashingYmd(settings);
    ClashingNumeric(settings);
    ClashingDayMonth(settings);
    a := AcceptedDate(YearMonthDay, all.ymd[0], settings, today, Date(2021, 3, 4));
    b := AcceptedDate(Numeric, all.numeric[0], settings, today, Date(2020, 2, 1));
    c := AcceptedDate(DayMonth, all.dayMonth[0], settings, today, Date(2021, 1, 20));
    rest := ClashingRest(settings, today);
    assert [a] + [b] + [c] + [] + rest == [a, b, c] + rest;
  }

  lemma ClashingRest(settings: Settings, today: Date) returns (rest: seq<Match>)
    ensures rest == Accepted(MonthYear, CLASHING_CAPTURES.monthYear, Dmy, settings, today)
    ensures rest == [] || (|rest| == 1 && rest[0].start == 9 && rest[0].end == 17)
  {
    AcceptedOne(MonthYear, CLASHING_CAPTURES.monthYear[0], Dmy, settings, today);
    rest := Accepted(MonthYear, CLASHING_CAPTURES.monthYear, Dmy, settings, today);
  }

  lemma AcceptedDate(pattern: Pattern, c: Capture, settings: Settings, today: Date, d: Date) returns (m: Match)
    requires DateOf(pattern, c, Dmy, settings) == Some(d) && Usable(settings, today, d)
    ensures m.start == c.start && m.end == c.end && Accepted(pattern, [c], Dmy, settings, today) == [m]
  {
    AcceptedOne(pattern, c, Dmy, settings, today);
    m := MatchOf(pattern, c, Dmy, settings, today).value;
  }

  // ---------- What is found ----------

  /** A date some capture spells, that lies in the window, is not ignored and has a local midnight. */
  ghost predicate Acceptable(all: Captures, order: DateOrder, settings: Settings, today: Date, d: Date, t: int) {
    && (exists p, c :: c in Of(all, p) && DateOf(p, c, order, settings) == Some(d))
    && InWindow(settings, today, d) && settings.midnight(d) == Some(t)
  }

  lemma {:induction false} AcceptedExactly(
    pattern: Pattern, captures: seq<Capture>, order: DateOrder, settings: Settings, today: Date, m: Match)
    ensures m in Accepted(pattern, captures, order, settings, today) <==>
              exists c :: c in captures && MatchOf(pattern, c, order, settings, today) == Some(m)
    decreases |captures|
  {
    if captures != [] {
      AcceptedExactly(pattern, captures[1..], order, settings, today, m);
      assert forall c :: c in captures <==> c == captures[0] || c in captures[1..];
    }
  }

  lemma CandidatesExactly(all: Captures, order: DateOrder, settings: Settings, today: Date, m: Match)
    ensures m in Candidates(all, order, settings, today) <==>
              exists p: Pattern :: m in Accepted(p, Of(all, p), order, settings, today)
  {
    forall p: Pattern
      ensures m in Accepted(p, Of(all, p), order, settings, today) ==> m in Candidates(all, order, settings, today)
    {
      match p
      case YearMonthDay =>
      case Numeric =>
      case DayMonth =>
      case MonthDay =>
      case MonthYear =>
    }
    if m in Candidates(all, order, settings, today) {
      var p := if m in Accepted(YearMonthDay, all.ymd, order, settings, today) then YearMonthDay
               else if m in Accepted(Numeric, all.numeric, order, settings, today) then Numeric
               else if m in Accepted(DayMonth, all.dayMonth, order, settings, today) then DayMonth
               else if m in Accepted(MonthDay, all.monthDay, order, settings, today) then MonthDay
               else MonthYear;
      assert m in Accepted(p, Of(all, p), order, settings, today);
    }
  }

  lemma CandidateIsAcceptable(all: Captures, order: DateOrder, settings: Settings, today: Date, m: Match)
    ensures m in Candidates(all, order, settings, today) ==> exists d :: Acceptable(all, order, settings, today, d, m.instant)
  {
    if m in Candidates(all, order, settings, today) {
      CandidatesExactly(all, order, settings, today, m);
      var p: Pattern :| m in Accepted(p, Of(all, p), order, settings, today);
      AcceptedExactly(p, Of(all, p), order, settings, today, m);
      var c :| c in Of(all, p) && MatchOf(p, c, order, settings, today) == Some(m);
      assert Acceptable(all, order, settings, today, DateOf(p, c, order, settings).value, m.instant);
    }
  }

  /** Nothing is found exactly when no capture spells an acceptable date. */
  lemma NothingFoundExactly(all: Captures, order: DateOrder, settings: Settings, today: Date)
    ensures FindDate(all, order, settings, today).None? <==>
              forall d, t :: !Acceptable(all, order, settings, today, d, t)
  {
    var candidates := Candidates(all, order, settings, today);
    var retained := Resolve([], candidates);
    ResolveKeeps([], candidates);
    SortSorts(retained);
    if candidates != [] {
      CandidateIsAcceptable(all, order, settings, today, candidates[0]);
    }
    if d, t :| Acceptable(all, order, settings, today, d, t) {
      var p, c :| c in Of(all, p) && DateOf(p, c, order, settings) == Some(d);
      var m := Match(c.start, c.end, t);
      assert MatchOf(p, c, order, settings, today) == Some(m);
      AcceptedExactly(p, Of(all, p), order, settings, today, m);
      CandidatesExactly(all, order, settings, today, m);
    }
  }

  /** What is found is the date of a retained match no other retained match starts before, and it is acceptable. */
  lemma FoundIsEarliest(all: Captures, order: DateOrder, settings: Settings, today: Date)
    requires FindDate(all, order, settings, today).Some?
    ensures exists m :: m in Resolve([], Candidates(all, order, settings, today))
              && m.instant == FindDate(all, order, settings, today).value
              && (forall n :: n in Resolve([], Candidates(all, order, settings, today)) ==> m.start <= n.start)
    ensures exists d :: Acceptable(all, order, settings, today, d, FindDate(all, order, settings, today).value)
  {
    var candidates := Candidates(all, order, settings, today);
    var retained := Resolve([], candidates);
    var sorted := SortByStart(retained);
    SortSorts(retained);
    var m := sorted[0];
    assert m in sorted;
    forall n | n in retained
      ensures m.start <= n.start
    {
      var i :| 0 <= i < |sorted| && sorted[i] == n;
    }
    ResolveKeeps([], candidates);
    CandidateIsAcceptable(all, order, settings, today, m);
  }
}
