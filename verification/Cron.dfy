/**
  The cron scheduler: five fields of a small language, a validator and a matcher that each read the
  text for themselves, and what both make of it.
 */
module Cron {
  import opened Common
  import opened Text

  // ---------------------------------------------------------------- Validator and matcher

  predicate Has(s: string, c: char) {
    exists i :: 0 <= i < |s| && s[i] == c
  }

  /** `validateField`, true for no error. */
  predicate ValidField(field: string, min: int, max: int) {
    if field == "*" then true
    else if Has(field, '-') then
      var parts := Split(field, '-');
      && |parts| == 2
      && Atoi(parts[0]).Some? && Atoi(parts[1]).Some?
      && var (start, end) := (Atoi(parts[0]).value, Atoi(parts[1]).value);
         !(start < min || start > max || end < min || end > max || start > end)
    else if Has(field, '/') then
      var parts := Split(field, '/');
      |parts| == 2 && parts[0] == "*" && Atoi(parts[1]).Some? && Atoi(parts[1]).value > 0
    else if Has(field, ',') then
      var values := Split(field, ',');
      forall i :: 0 <= i < |values| ==>
        var v := Atoi(TrimSpace(values[i]));
        v.Some? && !(v.value < min || v.value > max)
    else
      var v := Atoi(field);
      v.Some? && !(v.value < min || v.value > max)
  }

  /** `matchesField`; the bounds it is given play no part in it. */
  predicate MatchesField(field: string, value: int) {
    if field == "*" then true
    else if Has(field, '-') then
      var parts := Split(field, '-');
      && |parts| == 2
      && Atoi(parts[0]).Some? && Atoi(parts[1]).Some?
      && Atoi(parts[0]).value <= value <= Atoi(parts[1]).value
    else if Has(field, '/') then
      var parts := Split(field, '/');
      && |parts| == 2 && parts[0] == "*"
      && Atoi(parts[1]).Some? && Atoi(parts[1]).value > 0
      && value % Atoi(parts[1]).value == 0
    else if Has(field, ',') then
      var values := Split(field, ',');
      exists i :: 0 <= i < |values| && Atoi(TrimSpace(values[i])) == Some(value)
    else Atoi(field) == Some(value)
  }

  // ---------------------------------------------------------------- Fields as they are meant

  datatype Field =
    | Star
    | Range(lo: nat, hi: nat)
    | Step(every: nat)
    | List(values: seq<nat>)
    | Value(v: nat)

  /** Lists have at least two entries; a shorter one is a single value. */
  predicate Proper(f: Field) {
    f.List? ==> |f.values| >= 2
  }

  function Write(f: Field): string
    requires Proper(f)
  {
    match f
    case Star => "*"
    case Range(lo, hi) => Decimal(lo) + "-" + Decimal(hi)
    case Step(every) => "*/" + Decimal(every)
    case List(values) => Join(Numerals(values), ',')
    case Value(v) => Decimal(v)
  }

  function Numerals(values: seq<nat>): (s: seq<string>)
    ensures |s| == |values|
    ensures forall i :: 0 <= i < |s| ==> s[i] == Decimal(values[i])
  {
    seq(|values|, i requires 0 <= i < |values| => Decimal(values[i]))
  }

  /** Within the bounds of its position; steps are only asked to be positive machine integers. */
  predicate InBounds(f: Field, min: int, max: int) {
    match f
    case Star => true
    case Range(lo, hi) => min <= lo <= hi <= max
    case Step(every) => 0 < every <= MAX_INT64
    case List(values) => forall i :: 0 <= i < |values| ==> min <= values[i] <= max
    case Value(v) => min <= v <= max
  }

  predicate Denotes(f: Field, value: int) {
    match f
    case Star => true
    case Range(lo, hi) => lo <= value <= hi
    case Step(every) => every > 0 && value % every == 0
    case List(values) => value >= 0 && value in values
    case Value(v) => value == v
  }

  lemma HasNot(s: string, c: char)
    ensures Has(s, c) <==> !Free(s, c)
  {
  }

  lemma WrittenRange(lo: nat, hi: nat)
    ensures var s := Decimal(lo) + "-" + Decimal(hi);
      s != "*" && Has(s, '-') && Split(s, '-') == [Decimal(lo), Decimal(hi)]
  {
    var s := Decimal(lo) + "-" + Decimal(hi);
    assert s[|Decimal(lo)|] == '-';
    DecimalFree(lo, '-');
    DecimalFree(hi, '-');
    SplitOfPrefix(Decimal(lo), Decimal(hi), '-');
    SplitOfFree(Decimal(hi), '-');
    assert Decimal(lo) + ['-'] + Decimal(hi) == s;
  }

  lemma WrittenStep(every: nat)
    ensures var s := "*/" + Decimal(every);
      s != "*" && !Has(s, '-') && Has(s, '/') && Split(s, '/') == ["*", Decimal(every)]
  {
    var s := "*/" + Decimal(every);
    assert s[1] == '/';
    DecimalFree(every, '/');
    DecimalFree(every, '-');
    assert Free(s, '-');
    assert Free("*", '/');
    SplitOfPrefix("*", Decimal(every), '/');
    SplitOfFree(Decimal(every), '/');
    assert "*" + ['/'] + Decimal(every) == s;
  }

  lemma {:induction false} JoinFree(parts: seq<string>, sep: char, c: char)
    requires |parts| >= 1 && c != sep
    requires forall i :: 0 <= i < |parts| ==> Free(parts[i], c)
    ensures Free(Join(parts, sep), c)
  {
    if |parts| > 1 {
      JoinFree(parts[1..], sep, c);
      assert Free(parts[0], c);
    }
  }

  lemma WrittenList(values: seq<nat>)
    requires |values| >= 2
    ensures
      var s := Join(Numerals(values), ',');
      && s != "*" && !Has(s, '-') && !Has(s, '/') && Has(s, ',')
      && Split(s, ',') == Numerals(values)
      && forall i :: 0 <= i < |values| ==> TrimSpace(Numerals(values)[i]) == Decimal(values[i])
  {
    var parts := Numerals(values);
    var s := Join(parts, ',');
    forall i | 0 <= i < |parts|
      ensures Free(parts[i], ',') && Free(parts[i], '-') && Free(parts[i], '/')
      ensures TrimSpace(parts[i]) == Decimal(values[i])
    {
      DecimalFree(values[i], ',');
      DecimalFree(values[i], '-');
      DecimalFree(values[i], '/');
      DecimalNoSpace(values[i]);
    }
    JoinThenSplit(parts, ',');
    JoinFree(parts, ',', '-');
    JoinFree(parts, ',', '/');
    assert s == parts[0] + [','] + Join(parts[1..], ',');
    assert s[|parts[0]|] == ',';
  }

  lemma WrittenValue(v: nat)
    ensures var s := Decimal(v);
      s != "*" && !Has(s, '-') && !Has(s, '/') && !Has(s, ',')
  {
    DecimalFree(v, '-');
    DecimalFree(v, '/');
    DecimalFree(v, ',');
    assert IsDigit(Decimal(v)[0]);
  }

  /** What the list branches of the validator and of the matcher see. */
  lemma ListIsRead(values: seq<nat>)
    requires |values| >= 2
    ensures
      var parts := Split(Join(Numerals(values), ','), ',');
      && |parts| == |values|
      && forall i :: 0 <= i < |parts| ==>
           Atoi(TrimSpace(parts[i])) == if values[i] <= MAX_INT64 then Some(values[i]) else None
  {
    WrittenList(values);
    var parts := Split(Join(Numerals(values), ','), ',');
    forall i | 0 <= i < |parts|
      ensures Atoi(TrimSpace(parts[i])) == if values[i] <= MAX_INT64 then Some(values[i]) else None
    {
      assert TrimSpace(parts[i]) == Decimal(values[i]);
      AtoiOfDecimal(values[i]);
    }
  }

  lemma ValidatedRange(lo: nat, hi: nat, min: int, max: int)
    requires max <= MAX_INT64
    ensures ValidField(Decimal(lo) + "-" + Decimal(hi), min, max) <==> min <= lo <= hi <= max
  {
    WrittenRange(lo, hi);
    AtoiOfDecimal(lo);
    AtoiOfDecimal(hi);
  }

  lemma ValidatedList(values: seq<nat>, min: int, max: int)
    requires |values| >= 2 && max <= MAX_INT64
    ensures ValidField(Join(Numerals(values), ','), min, max)
            <==> forall i :: 0 <= i < |values| ==> min <= values[i] <= max
  {
    WrittenList(values);
    ListIsRead(values);
  }

  /** The canonical text of a field is accepted exactly when the field is within bounds. */
  lemma ValidatorMeansInBounds(f: Field, min: int, max: int)
    requires Proper(f) && max <= MAX_INT64
    ensures ValidField(Write(f), min, max) <==> InBounds(f, min, max)
  {
    match f
    case Star =>
    case Range(lo, hi) => ValidatedRange(lo, hi, min, max);
    case Step(every) =>
      WrittenStep(every);
      AtoiOfDecimal(every);
    case List(values) => ValidatedList(values, min, max);
    case Value(v) =>
      WrittenValue(v);
      AtoiOfDecimal(v);
  }

  /** The matcher on canonical text is membership in what the field denotes. */
  lemma MatcherMeansMembership(f: Field, value: int)
    requires Proper(f) && value <= MAX_INT64
    requires f.Range? ==> f.hi <= MAX_INT64
    requires f.Step? ==> f.every <= MAX_INT64
    ensures MatchesField(Write(f), value) <==> Denotes(f, value)
  {
    match f
    case Star =>
    case Range(lo, hi) =>
      WrittenRange(lo, hi);
      AtoiOfDecimal(lo);
      AtoiOfDecimal(hi);
    case Step(every) =>
      WrittenStep(every);
      AtoiOfDecimal(every);
    case List(values) =>
      WrittenList(values);
      ListIsRead(values);
      var parts := Split(Write(f), ',');
      if Denotes(f, value) {
        var i :| 0 <= i < |values| && values[i] == value;
        assert Atoi(TrimSpace(parts[i])) == Some(value);
      }
    case Value(v) =>
      WrittenValue(v);
      AtoiOfDecimal(v);
  }

  // ---------------------------------------------------------------- Any accepted text

  /** The meaning of a text the validator accepts, canonical or not ("+5", " 07", "1-1" and so on). */
  function Read(field: string, min: int, max: int): (f: Field)
    requires ValidField(field, min, max) && 0 <= min
    ensures Proper(f) && InBounds(f, min, max)
  {
    if field == "*" then Star
    else if Has(field, '-') then
      var parts := Split(field, '-');
      Range(Atoi(parts[0]).value, Atoi(parts[1]).value)
    else if Has(field, '/') then Step(Atoi(Split(field, '/')[1]).value)
    else if Has(field, ',') then
      SeveralValues(field);
      var values := Split(field, ',');
      List(seq(|values|, i requires 0 <= i < |values| => Atoi(TrimSpace(values[i])).value))
    else Value(Atoi(field).value)
  }

  lemma SeveralValues(field: string)
    requires Has(field, ',')
    ensures |Split(field, ',')| >= 2
  {
    SplitThenJoin(field, ',');
    var parts := Split(field, ',');
    if |parts| == 1 {
      assert Join(parts, ',') == parts[0];
      HasNot(parts[0], ',');
    }
  }

  /** On every accepted text, canonical or not, matching is membership in its meaning. */
  lemma AcceptedTextMeansItsField(field: string, min: int, max: int, value: int)
    requires ValidField(field, min, max) && 0 <= min
    ensures MatchesField(field, value) <==> Denotes(Read(field, min, max), value)
  {
    if field != "*" && !Has(field, '-') && !Has(field, '/') && Has(field, ',') {
      var parts, f := Split(field, ','), Read(field, min, max);
      assert forall i :: 0 <= i < |parts| ==> f.values[i] == Atoi(TrimSpace(parts[i])).value;
      if MatchesField(field, value) {
        var i :| 0 <= i < |parts| && Atoi(TrimSpace(parts[i])) == Some(value);
        assert f.values[i] == value;
      }
      if Denotes(f, value) {
        var i :| 0 <= i < |f.values| && f.values[i] == value;
        assert Atoi(TrimSpace(parts[i])) == Some(value);
      }
    }
  }

  /** Some value of the position matches. */
  ghost predicate CanMatch(field: string, min: int, max: int) {
    exists v :: min <= v <= max && MatchesField(field, v)
  }

  /**
    An accepted field can always match, with one exception: counting starts at 1 and the step is
    larger than the last value.
   */
  lemma AcceptedFieldCanMatchUnless(field: string, min: int, max: int)
    requires ValidField(field, min, max) && 0 <= min <= 1 && min <= max
    ensures CanMatch(field, min, max)
            <==> !(min == 1 && Read(field, min, max).Step? && Read(field, min, max).every > max)
  {
    var f := Read(field, min, max);
    if f.Step? && min == 1 && f.every > max {
      forall v | min <= v <= max ensures !MatchesField(field, v) {
        AcceptedTextMeansItsField(field, min, max, v);
        SmallRemainder(v, f.every);
      }
    } else {
      var v := FirstDenoted(f, min, max);
      AcceptedTextMeansItsField(field, min, max, v);
      assert MatchesField(field, v);
    }
  }

  lemma SmallRemainder(v: int, every: int)
    requires 0 <= v < every
    ensures v % every == v
  {
  }

  /** A value the field denotes within its position. */
  function FirstDenoted(f: Field, min: int, max: int): (v: int)
    requires Proper(f) && InBounds(f, min, max) && 0 <= min <= 1 && min <= max
    requires !(min == 1 && f.Step? && f.every > max)
    ensures min <= v <= max && Denotes(f, v)
  {
    match f
    case Star => min
    case Range(lo, hi) => lo
    case Step(every) => if min == 0 then 0 else every
    case List(values) => values[0]
    case Value(v) => v
  }

  // ---------------------------------------------------------------- Whole schedules

  /** A reading of the clock, field by field. */
  datatype Clock = Clock(minute: int, hour: int, day: int, month: int, weekday: int)

  function Positions(c: Clock): (p: seq<int>)
    ensures |p| == 5
  {
    [c.minute, c.hour, c.day, c.month, c.weekday]
  }

  const MIN: seq<int> := [0, 0, 1, 1, 0]
  const MAX: seq<int> := [59, 23, 31, 12, 6]

  /** Each field within the range of its own position; not every such reading is a date. */
  predicate OnClock(c: Clock) {
    forall i :: 0 <= i < 5 ==> MIN[i] <= Positions(c)[i] <= MAX[i]
  }

  /** `ValidateSchedule`, true for no error. */
  predicate ValidSchedule(schedule: string) {
    var parts := Fields(schedule);
    schedule != "" && |parts| == 5 && forall i :: 0 <= i < 5 ==> ValidField(parts[i], MIN[i], MAX[i])
  }

  /** `IsTimeToRun`: an error only for a wrong number of fields; all five fields must match. */
  function IsTimeToRun(schedule: string, now: Clock): Option<bool> {
    var parts := Fields(schedule);
    if schedule == "" || |parts| != 5 then None
    else Some(
      && MatchesField(parts[0], now.minute)
      && MatchesField(parts[1], now.hour)
      && MatchesField(parts[2], now.day)
      && MatchesField(parts[3], now.month)
      && MatchesField(parts[4], now.weekday))
  }

  lemma WrittenHasNoSpace(f: Field)
    requires Proper(f)
    ensures NoSpace(Write(f)) && Write(f) != []
  {
    match f
    case Star =>
    case Range(lo, hi) => DecimalNoSpace(lo); DecimalNoSpace(hi);
    case Step(every) => DecimalNoSpace(every);
    case List(values) =>
      forall i | 0 <= i < |values| ensures NoSpace(Decimal(values[i])) {
        DecimalNoSpace(values[i]);
      }
      JoinNoSpace(Numerals(values));
      WrittenList(values);
    case Value(v) => DecimalNoSpace(v);
  }

  lemma {:induction false} JoinNoSpace(parts: seq<string>)
    requires |parts| >= 1
    requires forall i :: 0 <= i < |parts| ==> NoSpace(parts[i])
    ensures NoSpace(Join(parts, ','))
  {
    if |parts| > 1 {
      JoinNoSpace(parts[1..]);
      assert NoSpace(parts[0]);
    }
  }

  function WriteSchedule(fs: seq<Field>): string
    requires |fs| == 5 && forall i :: 0 <= i < 5 ==> Proper(fs[i])
  {
    Join([Write(fs[0]), Write(fs[1]), Write(fs[2]), Write(fs[3]), Write(fs[4])], ' ')
  }

  /**
    A schedule written from five fields is accepted exactly when all five are within bounds, and then
    it is time to run exactly when the clock is in all five sets at once: day of month and weekday
    restrict each other.
   */
  lemma ScheduleMeansItsFields(fs: seq<Field>, now: Clock)
    requires |fs| == 5 && forall i :: 0 <= i < 5 ==> Proper(fs[i])
    requires OnClock(now)
    ensures ValidSchedule(WriteSchedule(fs)) <==> forall i :: 0 <= i < 5 ==> InBounds(fs[i], MIN[i], MAX[i])
    ensures ValidSchedule(WriteSchedule(fs)) ==>
            IsTimeToRun(WriteSchedule(fs), now) == Some(forall i :: 0 <= i < 5 ==> Denotes(fs[i], Positions(now)[i]))
  {
    var words := [Write(fs[0]), Write(fs[1]), Write(fs[2]), Write(fs[3]), Write(fs[4])];
    forall i | 0 <= i < 5
      ensures NoSpace(words[i]) && words[i] != []
      ensures ValidField(words[i], MIN[i], MAX[i]) <==> InBounds(fs[i], MIN[i], MAX[i])
      ensures InBounds(fs[i], MIN[i], MAX[i])
              ==> (MatchesField(words[i], Positions(now)[i]) <==> Denotes(fs[i], Positions(now)[i]))
    {
      assert words[i] == Write(fs[i]);
      WrittenHasNoSpace(fs[i]);
      ValidatorMeansInBounds(fs[i], MIN[i], MAX[i]);
      if InBounds(fs[i], MIN[i], MAX[i]) {
        MatcherMeansMembership(fs[i], Positions(now)[i]);
      }
    }
    FieldsOfJoin(words);
    assert Join(words, ' ') == words[0] + [' '] + Join(words[1..], ' ');
    assert Positions(now)[0] == now.minute && Positions(now)[4] == now.weekday;
  }

  /** A schedule the validator accepts never makes the matcher report an error. */
  lemma AcceptedScheduleNeverFails(schedule: string, now: Clock)
    requires ValidSchedule(schedule)
    ensures IsTimeToRun(schedule, now).Some?
  {
  }

  // ---------------------------------------------------------------- The calendar

  predicate Leap(year: nat) {
    year % 4 == 0 && (year % 100 != 0 || year % 400 == 0)
  }

  function DaysIn(month: int, year: nat): int {
    if month == 2 then (if Leap(year) then 29 else 28)
    else if month in {4, 6, 9, 11} then 30
    else 31
  }

  /** The length of a month in the years when it is longest. */
  function LongestDaysIn(month: int): int {
    DaysIn(month, 2000)
  }

  const SHIFT: seq<int> := [0, 3, 2, 5, 0, 3, 5, 1, 4, 6, 2, 4]

  /** Weekdays that years push a date forward by. */
  function YearShift(year: nat): int {
    year + year / 4 - year / 100 + year / 400
  }

  /** January and February still belong to the year before, because the leap day comes after them. */
  function ShiftYear(year: nat, month: int): nat
    requires year >= 1
  {
    if month < 3 then year - 1 else year
  }

  function DaySum(year: nat, month: int, day: int): int
    requires year >= 1 && 1 <= month <= 12
  {
    YearShift(ShiftYear(year, month)) + SHIFT[month - 1] + day
  }

  /** The weekday of a date in the Gregorian calendar, counted from Sunday as 0. */
  function WeekdayOf(year: nat, month: int, day: int): int
    requires year >= 1 && 1 <= month <= 12
  {
    DaySum(year, month, day) % 7
  }

  lemma FourthStep(year: nat)
    requires year >= 1
    ensures year / 4 == (year - 1) / 4 + if year % 4 == 0 then 1 else 0
  {
  }

  lemma HundredthStep(year: nat)
    requires year >= 1
    ensures year / 100 == (year - 1) / 100 + if year % 100 == 0 then 1 else 0
  {
  }

  lemma FourHundredthStep(year: nat)
    requires year >= 1
    ensures year / 400 == (year - 1) / 400 + if year % 400 == 0 then 1 else 0
  {
  }

  lemma Fourfold(n: nat)
    ensures (4 * n) % 4 == 0
  {
  }

  lemma Hundredfold(n: nat)
    ensures (100 * n) % 100 == 0
  {
  }

  lemma WholeCenturies(year: nat)
    ensures year % 100 == 0 ==> year == 100 * (year / 100)
  {
  }

  lemma WholeEras(year: nat)
    ensures year % 400 == 0 ==> year == 400 * (year / 400)
  {
  }

  lemma MultiplesNest(year: nat)
    ensures year % 400 == 0 ==> year % 100 == 0
    ensures year % 100 == 0 ==> year % 4 == 0
  {
    WholeEras(year);
    WholeCenturies(year);
    Hundredfold(4 * (year / 400));
    Fourfold(25 * (year / 100));
  }

  lemma YearShiftStep(year: nat)
    requires year >= 1
    ensures YearShift(year) == YearShift(year - 1) + if Leap(year) then 2 else 1
  {
    FourthStep(year);
    HundredthStep(year);
    FourHundredthStep(year);
    MultiplesNest(year);
  }

  function Tomorrow(year: nat, month: int, day: int): (nat, int, int) {
    if day < DaysIn(month, year) then (year, month, day + 1)
    else if month < 12 then (year, month + 1, 1)
    else (year + 1, 1, 1)
  }

  lemma NextDaySum(year: nat, month: int, day: int)
    requires year >= 1 && 1 <= month <= 12 && 1 <= day <= DaysIn(month, year)
    ensures var (y, m, d) := Tomorrow(year, month, day);
      var step := DaySum(y, m, d) - DaySum(year, month, day);
      step == 1 || step == 1 - 28 || step == 1 - 35
  {
    YearShiftStep(year);
    assert SHIFT[0] == 0 && SHIFT[1] == 3 && SHIFT[2] == 2 && SHIFT[3] == 5 && SHIFT[4] == 0 && SHIFT[5] == 3;
    assert SHIFT[6] == 5 && SHIFT[7] == 1 && SHIFT[8] == 4 && SHIFT[9] == 6 && SHIFT[10] == 2 && SHIFT[11] == 4;
  }

  lemma OneMoreDay(a: int, b: int)
    requires b - a == 1 || b - a == 1 - 28 || b - a == 1 - 35
    ensures b % 7 == (a % 7 + 1) % 7
  {
  }

  /** The weekday formula is the calendar's: each day follows the one before, from one known date on. */
  lemma WeekdaysFollow(year: nat, month: int, day: int)
    requires year >= 1 && 1 <= month <= 12 && 1 <= day <= DaysIn(month, year)
    ensures var (y, m, d) := Tomorrow(year, month, day);
      WeekdayOf(y, m, d) == (WeekdayOf(year, month, day) + 1) % 7
    ensures WeekdayOf(1970, 1, 1) == 4
  {
    NextDaySum(year, month, day);
    var (y, m, d) := Tomorrow(year, month, day);
    OneMoreDay(DaySum(year, month, day), DaySum(y, m, d));
  }

  /** A reading that some moment really shows: an existing date with its own weekday. */
  ghost predicate Occurs(c: Clock) {
    && OnClock(c) && 1 <= c.month <= 12
    && exists year: nat :: year >= 1 && c.day <= DaysIn(c.month, year) && c.weekday == WeekdayOf(year, c.month, c.day)
  }

  const YEARS: seq<nat> := [2000, 2001, 2002, 2003, 2009, 2004, 2005]
  const LEAP_YEARS: seq<nat> := [2024, 2008, 2020, 2004, 2016, 2028, 2012]

  lemma YearTable(r: int)
    requires 0 <= r < 7
    ensures YEARS[r] >= 1 && YearShift(YEARS[r]) % 7 == r
  {
  }

  lemma LeapYearTable(r: int)
    requires 0 <= r < 7
    ensures LEAP_YEARS[r] >= 1 && Leap(LEAP_YEARS[r]) && YearShift(LEAP_YEARS[r] - 1) % 7 == r
  {
  }

  /** The year in which this day and month fall on this weekday. */
  function YearFor(month: int, day: int, weekday: int): nat
    requires 1 <= month <= 12
  {
    var r := (weekday - SHIFT[month - 1] - day) % 7;
    if month == 2 && day == 29 then LEAP_YEARS[r]
    else if month < 3 then YEARS[r] + 1
    else YEARS[r]
  }

  lemma SumOfRemainders(a: int, b: int, w: int)
    requires 0 <= w < 7 && a % 7 == (w - b) % 7
    ensures (a + b) % 7 == w
  {
  }

  lemma YearForIsRight(month: int, day: int, weekday: int)
    requires 1 <= month <= 12 && 1 <= day <= LongestDaysIn(month) && 0 <= weekday < 7
    ensures
      var year := YearFor(month, day, weekday);
      year >= 1 && day <= DaysIn(month, year) && weekday == WeekdayOf(year, month, day)
  {
    var year := YearFor(month, day, weekday);
    var r := (weekday - SHIFT[month - 1] - day) % 7;
    if month == 2 && day == 29 {
      LeapYearTable(r);
    } else {
      YearTable(r);
    }
    SumOfRemainders(YearShift(ShiftYear(year, month)), SHIFT[month - 1] + day, weekday);
  }

  /** Every day of every month, 29 February included, falls on every weekday in some year. */
  lemma EveryDateHasEveryWeekday(c: Clock)
    ensures Occurs(c) <==> OnClock(c) && c.day <= LongestDaysIn(c.month)
  {
    if OnClock(c) {
      var p := Positions(c);
      assert MIN[2] <= p[2] <= MAX[2] && MIN[3] <= p[3] <= MAX[3] && MIN[4] <= p[4] <= MAX[4];
      if c.day <= LongestDaysIn(c.month) {
        YearForIsRight(c.month, c.day, c.weekday);
      }
    }
  }

  // ---------------------------------------------------------------- When an accepted schedule comes up

  /** The meanings of the five fields of an accepted schedule. */
  function FieldsOf(schedule: string): (fs: seq<Field>)
    requires ValidSchedule(schedule)
    ensures |fs| == 5
    ensures forall i :: 0 <= i < 5 ==> Proper(fs[i]) && InBounds(fs[i], MIN[i], MAX[i])
  {
    var parts := Fields(schedule);
    seq(5, i requires 0 <= i < 5 => Read(parts[i], MIN[i], MAX[i]))
  }

  /** A schedule, canonical or not, runs exactly when the clock is in all five meanings. */
  lemma RunsWhenAllDenote(schedule: string, now: Clock)
    requires ValidSchedule(schedule)
    ensures IsTimeToRun(schedule, now)
            == Some(forall i :: 0 <= i < 5 ==> Denotes(FieldsOf(schedule)[i], Positions(now)[i]))
  {
    var parts, fs := Fields(schedule), FieldsOf(schedule);
    forall i | 0 <= i < 5 ensures MatchesField(parts[i], Positions(now)[i]) <==> Denotes(fs[i], Positions(now)[i]) {
      AcceptedTextMeansItsField(parts[i], MIN[i], MAX[i], Positions(now)[i]);
    }
    AllFive(parts, fs, now);
  }

  lemma AllFive(parts: seq<string>, fs: seq<Field>, now: Clock)
    requires |parts| == |fs| == 5
    requires forall i :: 0 <= i < 5 ==>
               (MatchesField(parts[i], Positions(now)[i]) <==> Denotes(fs[i], Positions(now)[i]))
    ensures (&& MatchesField(parts[0], now.minute) && MatchesField(parts[1], now.hour)
             && MatchesField(parts[2], now.day) && MatchesField(parts[3], now.month)
             && MatchesField(parts[4], now.weekday))
        <==> forall i :: 0 <= i < 5 ==> Denotes(fs[i], Positions(now)[i])
  {
    var p := Positions(now);
    assert p[0] == now.minute && p[1] == now.hour && p[2] == now.day && p[3] == now.month && p[4] == now.weekday;
  }

  function Least(values: seq<nat>): (v: nat)
    requires values != []
    ensures v in values && forall u :: u in values ==> v <= u
  {
    if |values| == 1 then values[0]
    else
      var rest := Least(values[1..]);
      assert forall u :: u in values ==> u == values[0] || u in values[1..];
      if values[0] < rest then values[0] else rest
  }

  /** The first day of the month a day field names. */
  function FirstDay(f: Field): (v: nat)
    requires Proper(f) && InBounds(f, 1, 31)
    ensures 1 <= v && Denotes(f, v)
    ensures forall u :: 1 <= u && Denotes(f, u) ==> v <= u
  {
    match f
    case Star => 1
    case Range(lo, hi) => lo
    case Step(every) =>
      assert forall u {:trigger u % every} :: 1 <= u && u % every == 0 ==> every <= u by {
        forall u {:trigger u % every} | 1 <= u && u % every == 0 ensures every <= u {
          MultiplesAreLarge(u, every);
        }
      }
      every
    case List(values) => Least(values)
    case Value(v) => v
  }

  lemma MultiplesAreLarge(u: int, every: nat)
    requires u >= 1 && every > 0 && u % every == 0
    ensures every <= u
  {
    if u < every {
      SmallRemainder(u, every);
    }
  }

  /** Some month the month field names is long enough for the first day the day field names. */
  predicate MeetsTheCalendar(day: Field, month: Field)
    requires Proper(day) && InBounds(day, 1, 31)
  {
    exists m :: 1 <= m <= 12 && Denotes(month, m) && FirstDay(day) <= LongestDaysIn(m)
  }

  /**
    An accepted schedule comes up at some real moment exactly when the first day its day field names
    exists in some month its month field names. What fails is a step beyond the last day or month,
    31 in short months only, and 30 or 31 in February only.
   */
  lemma AcceptedScheduleComesUpIff(schedule: string)
    requires ValidSchedule(schedule)
    ensures (exists now: Clock :: Occurs(now) && IsTimeToRun(schedule, now) == Some(true))
        <==> MeetsTheCalendar(FieldsOf(schedule)[2], FieldsOf(schedule)[3])
  {
    var fs := FieldsOf(schedule);
    FieldBounds(fs);
    forall now: Clock | Occurs(now) && IsTimeToRun(schedule, now) == Some(true)
      ensures MeetsTheCalendar(fs[2], fs[3])
    {
      RunsWhenAllDenote(schedule, now);
      EveryDateHasEveryWeekday(now);
      DateInFields(fs, now);
    }
    if MeetsTheCalendar(fs[2], fs[3]) {
      var month :| 1 <= month <= 12 && Denotes(fs[3], month) && FirstDay(fs[2]) <= LongestDaysIn(month);
      var now := Clock(FirstDenoted(fs[0], 0, 59), FirstDenoted(fs[1], 0, 23), FirstDay(fs[2]), month,
        FirstDenoted(fs[4], 0, 6));
      DenotedEverywhere(fs, now);
      EveryDateHasEveryWeekday(now);
      RunsWhenAllDenote(schedule, now);
      assert Occurs(now);
    }
  }

  lemma FieldBounds(fs: seq<Field>)
    requires |fs| == 5 && forall i :: 0 <= i < 5 ==> Proper(fs[i]) && InBounds(fs[i], MIN[i], MAX[i])
    ensures InBounds(fs[0], 0, 59) && InBounds(fs[1], 0, 23) && InBounds(fs[2], 1, 31)
    ensures InBounds(fs[3], 1, 12) && InBounds(fs[4], 0, 6)
  {
    assert MIN[0] == 0 && MIN[1] == 0 && MIN[2] == 1 && MIN[3] == 1 && MIN[4] == 0;
    assert MAX[0] == 59 && MAX[1] == 23 && MAX[2] == 31 && MAX[3] == 12 && MAX[4] == 6;
  }

  lemma DateInFields(fs: seq<Field>, now: Clock)
    requires |fs| == 5 && Proper(fs[2]) && InBounds(fs[2], 1, 31)
    requires OnClock(now) && now.day <= LongestDaysIn(now.month)
    requires forall i :: 0 <= i < 5 ==> Denotes(fs[i], Positions(now)[i])
    ensures MeetsTheCalendar(fs[2], fs[3])
  {
    var p := Positions(now);
    assert MIN[2] <= p[2] <= MAX[2] && MIN[3] <= p[3] <= MAX[3];
    assert Denotes(fs[2], p[2]) && Denotes(fs[3], p[3]);
    assert FirstDay(fs[2]) <= LongestDaysIn(now.month);
  }

  lemma DenotedEverywhere(fs: seq<Field>, now: Clock)
    requires |fs| == 5
    requires 0 <= now.minute <= 59 && 0 <= now.hour <= 23 && 1 <= now.day && 1 <= now.month <= 12
            && 0 <= now.weekday <= 6
    requires now.day <= LongestDaysIn(now.month)
    requires Denotes(fs[0], now.minute) && Denotes(fs[1], now.hour) && Denotes(fs[2], now.day)
    requires Denotes(fs[3], now.month) && Denotes(fs[4], now.weekday)
    ensures OnClock(now) && forall i :: 0 <= i < 5 ==> Denotes(fs[i], Positions(now)[i])
  {
  }

  const FEBRUARY_31: seq<Field> := [Value(0), Value(0), Value(31), Value(2), Star]

  /** 31 February is accepted and never comes up. */
  lemma ThirtyFirstOfFebruary(schedule: string)
    requires schedule == "0 0 31 2 *"
    ensures ValidSchedule(schedule)
    ensures forall now: Clock :: Occurs(now) ==> IsTimeToRun(schedule, now) == Some(false)
  {
    WrittenThirtyFirst();
    ScheduleMeansItsFields(FEBRUARY_31, Clock(0, 0, 1, 1, 0));
    forall now: Clock | Occurs(now) ensures IsTimeToRun(schedule, now) == Some(false) {
      ScheduleMeansItsFields(FEBRUARY_31, now);
      EveryDateHasEveryWeekday(now);
      var p := Positions(now);
      assert p[2] == now.day && p[3] == now.month;
      assert !(Denotes(FEBRUARY_31[2], p[2]) && Denotes(FEBRUARY_31[3], p[3]));
    }
  }

  lemma WrittenThirtyFirst()
    ensures WriteSchedule(FEBRUARY_31) == "0 0 31 2 *"
  {
    assert Decimal(31) == Decimal(3) + [Digit(1)] == "31";
    assert Decimal(0) == "0" && Decimal(2) == "2";
    assert Join(["2", "*"], ' ') == "2 *";
    assert Join(["31", "2", "*"], ' ') == "31 2 *";
    assert Join(["0", "31", "2", "*"], ' ') == "0 31 2 *";
    assert Join(["0", "0", "31", "2", "*"], ' ') == "0 0 31 2 *";
  }
}
