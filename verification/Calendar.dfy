/** Elapsed time in calendar units: the civil calendar, adding months with the day clamped, and the
    decomposition of the time since an event. Instants count ticks from the start of year 0, UTC. */
module Calendar {
  import opened Basics

  /** A month counted from January of year 0. */
  type Month = nat

  predicate LeapYear(year: nat) {
    year % 4 == 0 && (year % 100 != 0 || year % 400 == 0)
  }

  function DaysIn(month: Month): (days: nat)
    ensures 28 <= days <= 31
  {
    match month % 12
    case 1 => if LeapYear(month / 12) then 29 else 28
    case 3 => 30
    case 5 => 30
    case 8 => 30
    case 10 => 30
    case _ => 31
  }

  function DaysBefore(month: Month): nat {
    if month == 0 then 0 else DaysBefore(month - 1) + DaysIn(month - 1)
  }

  datatype Civil = Civil(month: Month, day: nat, clock: nat)

  predicate Valid(c: Civil) {
    1 <= c.day <= DaysIn(c.month) && c.clock < DAY
  }

  function Ticks(c: Civil): int {
    (DaysBefore(c.month) + c.day - 1) * DAY + c.clock
  }

  /** The month and day that lie some days after the start of a month. */
  function MonthFrom(month: Month, days: nat): (r: (Month, nat))
    ensures r.1 < DaysIn(r.0) && DaysBefore(r.0) + r.1 == DaysBefore(month) + days
    decreases days
  {
    if days < DaysIn(month) then (month, days) else MonthFrom(month + 1, days - DaysIn(month))
  }

  function CivilAt(ticks: nat): (c: Civil)
    ensures Valid(c) && Ticks(c) == ticks
  {
    var (month, days) := MonthFrom(0, ticks / DAY);
    Civil(month, days + 1, ticks % DAY)
  }

  // ----- the order of civil times -----

  lemma {:induction false} LaterMonth(a: Month, b: Month)
    requires a < b
    ensures DaysBefore(a) + DaysIn(a) <= DaysBefore(b)
    decreases b
  {
    if a < b - 1 {
      LaterMonth(a, b - 1);
    }
  }

  lemma MonthDecides(a: Civil, b: Civil)
    requires Valid(a) && Valid(b) && a.month < b.month
    ensures Ticks(a) < Ticks(b)
  {
    LaterMonth(a.month, b.month);
    hide DaysBefore, DaysIn;
    DayDecides(DaysBefore(a.month) + a.day - 1, a.clock, DaysBefore(b.month) + b.day - 1, b.clock);
  }

  lemma DayDecides(a: int, x: int, b: int, y: int)
    requires a < b && 0 <= x < DAY && 0 <= y
    ensures a * DAY + x < b * DAY + y
  {
  }

  /** Every instant has one civil time. */
  lemma CivilUnique(a: Civil, b: Civil)
    requires Valid(a) && Valid(b) && Ticks(a) == Ticks(b)
    ensures a == b
  {
    if a.month < b.month { MonthDecides(a, b); }
    if b.month < a.month { MonthDecides(b, a); }
    if a.day < b.day { DayDecides(DaysBefore(a.month) + a.day - 1, a.clock, DaysBefore(b.month) + b.day - 1, b.clock); }
    if b.day < a.day { DayDecides(DaysBefore(b.month) + b.day - 1, b.clock, DaysBefore(a.month) + a.day - 1, a.clock); }
  }

  // ----- the Gregorian calendar -----

  /** Every fourth year is a leap year, but of the full centuries only every fourth. */
  ghost predicate HasLeapDay(year: nat) {
    if exists c: nat :: year == 100 * c then exists c: nat :: year == 400 * c else exists q: nat :: year == 4 * q
  }

  lemma MultipleOf4(q: nat)
    ensures 4 * q % 4 == 0 && 4 * (25 * q) == 100 * q && 4 * (100 * q) == 400 * q && 100 * (4 * q) == 400 * q
  {
  }

  lemma MultipleOf100(q: nat)
    ensures 100 * q % 100 == 0
  {
  }

  lemma MultipleOf400(q: nat)
    ensures 400 * q % 400 == 0
  {
  }

  lemma Fours(n: nat)
    ensures n % 4 == 0 <==> exists q: nat :: n == 4 * q
  {
    if n % 4 == 0 { assert n == 4 * (n / 4); }
    forall q: nat { MultipleOf4(q); }
  }

  lemma Hundreds(n: nat)
    ensures n % 100 == 0 <==> exists q: nat :: n == 100 * q
    ensures n % 100 == 0 ==> n % 4 == 0
  {
    forall q: nat { MultipleOf100(q); }
    if n % 100 == 0 {
      var q := n / 100;
      assert n == 100 * q;
      MultipleOf4(q);
      MultipleOf4(25 * q);
    }
  }

  lemma FourHundreds(n: nat)
    ensures n % 400 == 0 <==> exists q: nat :: n == 400 * q
    ensures n % 400 == 0 ==> n % 100 == 0
  {
    forall q: nat { MultipleOf400(q); }
    if n % 400 == 0 {
      var q := n / 400;
      assert n == 400 * q;
      MultipleOf4(q);
      MultipleOf100(4 * q);
    }
  }

  lemma LeapDays(year: nat)
    ensures LeapYear(year) <==> HasLeapDay(year)
  {
    Fours(year);
    Hundreds(year);
    FourHundreds(year);
  }

  lemma MonthOf(year: nat, k: nat)
    requires k < 12
    ensures (12 * year + k) % 12 == k && (12 * year + k) / 12 == year
  {
  }

  lemma TableLengths(year: nat, k: nat)
    requires k < 12
    ensures DaysIn(12 * year + k)
            == [31, if LeapYear(year) then 29 else 28, 31, 30, 31, 30, 31, 31, 30, 31, 30, 31][k]
  {
    MonthOf(year, k);
    hide LeapYear;
  }

  /** The lengths of the twelve months, from January on. */
  lemma MonthLengths(year: nat, month: nat)
    requires 1 <= month <= 12
    ensures DaysIn(12 * year + month - 1)
            == [31, if HasLeapDay(year) then 29 else 28, 31, 30, 31, 30, 31, 31, 30, 31, 30, 31][month - 1]
  {
    LeapDays(year);
    TableLengths(year, month - 1);
    hide LeapYear, HasLeapDay, DaysIn;
  }

  /** The leap years before a year. */
  function LeapYearsBefore(year: nat): nat {
    (year + 3) / 4 - (year + 99) / 100 + (year + 399) / 400
  }

  lemma OneMoreFour(n: nat)
    ensures (n + 4) / 4 == (n + 3) / 4 + if n % 4 == 0 then 1 else 0
  {
  }

  lemma OneMoreHundred(n: nat)
    ensures (n + 100) / 100 == (n + 99) / 100 + if n % 100 == 0 then 1 else 0
  {
  }

  lemma OneMoreFourHundred(n: nat)
    ensures (n + 400) / 400 == (n + 399) / 400 + if n % 400 == 0 then 1 else 0
  {
  }

  lemma OneMoreLeap(year: nat)
    ensures LeapYearsBefore(year + 1) == LeapYearsBefore(year) + if LeapYear(year) then 1 else 0
  {
    OneMoreFour(year);
    OneMoreHundred(year);
    OneMoreFourHundred(year);
    Hundreds(year);
    FourHundreds(year);
  }

  lemma NextMonth(month: Month)
    ensures DaysBefore(month + 1) == DaysBefore(month) + DaysIn(month)
  {
  }

  lemma {:induction false} MonthStarts(year: nat, months: nat)
    requires months <= 12
    ensures DaysBefore(12 * year + months) == DaysBefore(12 * year)
      + [0, 31, 59, 90, 120, 151, 181, 212, 243, 273, 304, 334, 365][months]
      + if months >= 2 && LeapYear(year) then 1 else 0
  {
    hide *;
    if months > 0 {
      MonthStarts(year, months - 1);
      TableLengths(year, months - 1);
      NextMonth(12 * year + months - 1);
    }
  }

  lemma YearZero()
    ensures DaysBefore(0) == 0 && LeapYearsBefore(0) == 0
  {
  }

  /** Where every year starts: after 365 days for each year before it and one for each leap year. */
  lemma {:induction false} YearStarts(year: nat)
    ensures DaysBefore(12 * year) == 365 * year + LeapYearsBefore(year)
  {
    hide *;
    if year > 0 {
      YearStarts(year - 1);
      MonthStarts(year - 1, 12);
      OneMoreLeap(year - 1);
    } else {
      YearZero();
    }
  }

  lemma Centuries(n: nat)
    ensures (n + 403) / 4 == (n + 3) / 4 + 100 && (n + 499) / 100 == (n + 99) / 100 + 4
    ensures (n + 799) / 400 == (n + 399) / 400 + 1
    ensures (n + 400) % 4 == n % 4 && (n + 400) % 100 == n % 100 && (n + 400) % 400 == n % 400
  {
  }

  lemma LeapsRepeat(year: nat)
    ensures LeapYearsBefore(year + 400) == LeapYearsBefore(year) + 97 && LeapYear(year + 400) == LeapYear(year)
  {
    Centuries(year);
  }

  lemma LeapsBefore1970()
    ensures LeapYearsBefore(1970) == 478
  {
  }

  /** The calendar repeats after 400 years, or 146097 days, and 1 January 1970 is day 719528. */
  lemma CalendarRepeats(year: nat, months: nat)
    requires months <= 12
    ensures DaysBefore(12 * (year + 400) + months) == DaysBefore(12 * year + months) + 146097
    ensures DaysBefore(12 * 1970) == 719528
  {
    hide *;
    YearStarts(year);
    YearStarts(year + 400);
    YearStarts(1970);
    LeapsBefore1970();
    MonthStarts(year, months);
    MonthStarts(year + 400, months);
    LeapsRepeat(year);
  }

  // ----- adding months -----

  function AddCalendarMonthsClamped(value: Civil, months: nat): (r: Civil)
    requires Valid(value)
    ensures Valid(r) && r.clock == value.clock && r.day <= value.day && r.month == value.month + months
    ensures r.day == value.day || r.day == DaysIn(r.month)
  {
    var month := value.month + months;
    var lastDay := DaysIn(month);
    Civil(month, if value.day > lastDay then lastDay else value.day, value.clock)
  }

  /** The instant some months after an event. */
  function MonthsAfter(event: Civil, months: nat): int
    requires Valid(event)
  {
    Ticks(AddCalendarMonthsClamped(event, months))
  }

  lemma MonthsAfterIncreases(event: Civil, j: nat, k: nat)
    requires Valid(event) && j < k
    ensures MonthsAfter(event, j) < MonthsAfter(event, k)
  {
    MonthDecides(AddCalendarMonthsClamped(event, j), AddCalendarMonthsClamped(event, k));
  }

  lemma OneMonthMore(event: Civil, k: nat)
    requires Valid(event)
    ensures MonthsAfter(event, k + 1) <= MonthsAfter(event, k) + 31 * DAY
  {
    var a, b := AddCalendarMonthsClamped(event, k), AddCalendarMonthsClamped(event, k + 1);
    assert DaysBefore(b.month) == DaysBefore(a.month) + DaysIn(a.month);
    hide DaysBefore, DaysIn, Ticks;
    DaysApart(a, b);
  }

  lemma DaysApart(a: Civil, b: Civil)
    requires DaysBefore(b.month) + b.day <= DaysBefore(a.month) + a.day + 31 && b.clock == a.clock
    ensures Ticks(b) <= Ticks(a) + 31 * DAY
  {
    hide DaysBefore;
    MonthLength(DaysBefore(a.month) + a.day - 1, DaysBefore(b.month) + b.day - 1);
  }

  lemma MonthLength(a: int, b: int)
    requires b <= a + 31
    ensures b * DAY <= a * DAY + 31 * DAY
  {
  }

  /** The whole months elapsed: the most that do not pass now. */
  ghost predicate WholeMonths(event: Civil, now: int, k: nat)
    requires Valid(event)
  {
    MonthsAfter(event, k) <= now && forall j: nat :: j > k ==> now < MonthsAfter(event, j)
  }

  lemma WholeMonthsUnique(event: Civil, now: int, j: nat, k: nat)
    requires Valid(event) && WholeMonths(event, now, j) && WholeMonths(event, now, k)
    ensures j == k
  {
  }

  lemma NoMonths(event: Civil)
    requires Valid(event)
    ensures AddCalendarMonthsClamped(event, 0) == event
  {
  }

  /** The distance between the two months, or one less. */
  lemma MonthsBetween(event: Civil, now: Civil)
    requires Valid(event) && Valid(now) && Ticks(event) <= Ticks(now)
    ensures event.month <= now.month
    ensures var k := now.month - event.month;
      && now.month < event.month + k + 1
      && (MonthsAfter(event, k) <= Ticks(now) ==> WholeMonths(event, Ticks(now), k))
      && (MonthsAfter(event, k) > Ticks(now) ==> k > 0 && WholeMonths(event, Ticks(now), k - 1))
  {
    if now.month < event.month { MonthDecides(now, event); }
    var k: nat := now.month - event.month;
    NoMonths(event);
    forall j: nat | j > k ensures Ticks(now) < MonthsAfter(event, j) {
      MonthDecides(now, AddCalendarMonthsClamped(event, j));
    }
    if MonthsAfter(event, k) > Ticks(now) {
      assert k > 0;
      MonthDecides(AddCalendarMonthsClamped(event, k - 1), now);
      forall j: nat | j > k - 1 ensures Ticks(now) < MonthsAfter(event, j) {
        if j > k { MonthDecides(now, AddCalendarMonthsClamped(event, j)); }
      }
    }
  }

  // ----- the decomposition -----

  datatype Elapsed = Elapsed(years: nat, months: nat, days: nat, hours: nat, minutes: nat)

  function ElapsedTicks(event: Civil, e: Elapsed): int
    requires Valid(event)
  {
    MonthsAfter(event, 12 * e.years + e.months) + e.days * DAY + e.hours * HOUR + e.minutes * MINUTE
  }

  /** Each unit stays within the next larger one, and together they reach now to less than a minute. */
  ghost predicate Decomposes(event: Civil, now: int, e: Elapsed)
    requires Valid(event)
  {
    && WholeMonths(event, now, 12 * e.years + e.months)
    && e.months < 12 && e.days <= 30 && e.hours < 24 && e.minutes < 60
    && ElapsedTicks(event, e) <= now < ElapsedTicks(event, e) + MINUTE
  }

  /** Days, hours and minutes as minutes. */
  function MinutesOf(e: Elapsed): nat {
    (e.days * 24 + e.hours) * 60 + e.minutes
  }

  lemma InMinutes(event: Civil, e: Elapsed)
    requires Valid(event)
    ensures ElapsedTicks(event, e) == MonthsAfter(event, 12 * e.years + e.months) + MinutesOf(e) * MINUTE
  {
    hide MonthsAfter;
  }

  lemma MinuteUnique(a: int, b: int, r: int)
    requires a * MINUTE <= r < a * MINUTE + MINUTE && b * MINUTE <= r < b * MINUTE + MINUTE
    ensures a == b
  {
  }

  lemma UnitsUnique(e: Elapsed, f: Elapsed)
    requires e.months < 12 && e.hours < 24 && e.minutes < 60 && f.months < 12 && f.hours < 24 && f.minutes < 60
    requires 12 * e.years + e.months == 12 * f.years + f.months && MinutesOf(e) == MinutesOf(f)
    ensures e == f
  {
  }

  /** There is only one such decomposition. */
  lemma DecompositionUnique(event: Civil, now: int, e: Elapsed, f: Elapsed)
    requires Valid(event) && Decomposes(event, now, e) && Decomposes(event, now, f)
    ensures e == f
  {
    WholeMonthsUnique(event, now, 12 * e.years + e.months, 12 * f.years + f.months);
    InMinutes(event, e);
    InMinutes(event, f);
    hide ElapsedTicks, MinutesOf, MonthsAfter, WholeMonths;
    MinuteUnique(MinutesOf(e), MinutesOf(f), now - MonthsAfter(event, 12 * e.years + e.months));
    UnitsUnique(e, f);
  }

  // ----- the text -----

  function Digits(n: nat): string {
    if n < 10 then [(n as char) + '0'] else Digits(n / 10) + [((n % 10) as char) + '0']
  }

  /** Reading decimal digits. */
  function Value(text: string): int {
    if text == "" then 0 else 10 * Value(text[..|text| - 1]) + (text[|text| - 1] as int - '0' as int)
  }

  lemma {:induction false} DigitsRead(n: nat)
    ensures Value(Digits(n)) == n && |Digits(n)| > 0 && (n > 0 ==> Digits(n)[0] != '0')
  {
    if n >= 10 {
      DigitsRead(n / 10);
      assert Digits(n)[..|Digits(n)| - 1] == Digits(n / 10);
    } else {
      assert Digits(n)[..0] == "";
    }
  }

  function Part(value: nat, suffix: char): string {
    if value > 0 then Digits(value) + [suffix] else ""
  }

  function Units(e: Elapsed): seq<(nat, char)> {
    [(e.years, 'y'), (e.months, 'M'), (e.days, 'd'), (e.hours, 'h'), (e.minutes, 'm')]
  }

  function Joined(units: seq<(nat, char)>): string {
    if units == [] then ""
    else Joined(units[..|units| - 1]) + Part(units[|units| - 1].0, units[|units| - 1].1)
  }

  /** The non-zero units, largest first. */
  function Text(e: Elapsed): string {
    Joined(Units(e))
  }

  /** Where the digits before position n begin. */
  function DigitsFrom(text: string, n: nat): (start: nat)
    requires n <= |text|
    ensures start <= n
  {
    if n > 0 && '0' <= text[n - 1] <= '9' then DigitsFrom(text, n - 1) else n
  }

  /** Reading a text as numbers, each followed by its unit. */
  function Read(text: string): seq<(int, char)> {
    if text == "" then []
    else
      var n := |text| - 1;
      var start := DigitsFrom(text, n);
      Read(text[..start]) + [(Value(text[start..n]), text[n])]
  }

  /** The text ends in a unit, not in a digit. */
  ghost predicate EndsInUnit(text: string) {
    text != "" ==> !('0' <= text[|text| - 1] <= '9')
  }

  lemma {:induction false} OnlyDigits(n: nat)
    ensures forall k :: 0 <= k < |Digits(n)| ==> '0' <= Digits(n)[k] <= '9'
  {
    if n >= 10 { OnlyDigits(n / 10); }
  }

  lemma {:induction false} DigitsStop(front: string, digits: string, rest: string, n: nat)
    requires EndsInUnit(front) && n <= |digits|
    requires forall k :: 0 <= k < |digits| ==> '0' <= digits[k] <= '9'
    ensures DigitsFrom(front + digits + rest, |front| + n) == |front|
  {
    var text := front + digits + rest;
    if n > 0 {
      assert text[|front| + n - 1] == digits[n - 1];
      DigitsStop(front, digits, rest, n - 1);
    } else if front != "" {
      assert text[|front| - 1] == front[|front| - 1];
    }
  }

  function One(value: nat, suffix: char): seq<(int, char)> {
    if value > 0 then [(value, suffix)] else []
  }

  lemma ReadPart(front: string, value: nat, suffix: char)
    requires EndsInUnit(front) && !('0' <= suffix <= '9')
    ensures EndsInUnit(front + Part(value, suffix))
    ensures Read(front + Part(value, suffix)) == Read(front) + One(value, suffix)
  {
    if value > 0 {
      var digits := Digits(value);
      hide Digits, Value, DigitsFrom;
      OnlyDigits(value);
      DigitsRead(value);
      DigitsStop(front, digits, [suffix], |digits|);
      ReadDigits(front, digits, suffix);
      assert front + Part(value, suffix) == front + digits + [suffix];
    } else {
      assert front + "" == front;
    }
  }

  lemma ReadDigits(front: string, digits: string, suffix: char)
    requires DigitsFrom(front + digits + [suffix], |front| + |digits|) == |front|
    ensures Read(front + digits + [suffix]) == Read(front) + [(Value(digits), suffix)]
  {
    hide DigitsFrom, Value, Read;
    var text := front + digits + [suffix];
    assert text[..|front|] == front && text[|front|..|text| - 1] == digits;
    ReadLast(text, |front|);
  }

  lemma ReadLast(text: string, start: nat)
    requires text != "" && DigitsFrom(text, |text| - 1) == start
    ensures start < |text|
    ensures Read(text) == Read(text[..start]) + [(Value(text[start..|text| - 1]), text[|text| - 1])]
  {
  }

  /** Reading the text gives back the non-zero units, each with its own letter. */
  lemma TextRead(e: Elapsed)
    ensures Read(Text(e))
            == One(e.years, 'y') + One(e.months, 'M') + One(e.days, 'd') + One(e.hours, 'h') + One(e.minutes, 'm')
  {
    hide Read, Part;
    JoinedFive(Units(e));
    ReadPart("", e.years, 'y');
    assert Read("") == [] by { NothingToRead(); }
    var y := "" + Part(e.years, 'y');
    ReadPart(y, e.months, 'M');
    ReadPart(y + Part(e.months, 'M'), e.days, 'd');
    ReadPart(y + Part(e.months, 'M') + Part(e.days, 'd'), e.hours, 'h');
    ReadPart(y + Part(e.months, 'M') + Part(e.days, 'd') + Part(e.hours, 'h'), e.minutes, 'm');
  }

  lemma NothingToRead()
    ensures Read("") == []
  {
  }

  lemma {:induction false} JoinedFive(u: seq<(nat, char)>)
    requires |u| == 5
    ensures Joined(u) == "" + Part(u[0].0, u[0].1) + Part(u[1].0, u[1].1) + Part(u[2].0, u[2].1)
                         + Part(u[3].0, u[3].1) + Part(u[4].0, u[4].1)
  {
    hide Part;
    assert u[..4][..3] == u[..3] && u[..3][..2] == u[..2] && u[..2][..1] == u[..1] && u[..1][..0] == [];
    assert Joined(u[..1]) == "" + Part(u[0].0, u[0].1);
    assert Joined(u[..2]) == Joined(u[..1]) + Part(u[1].0, u[1].1);
    assert Joined(u[..3]) == Joined(u[..2]) + Part(u[2].0, u[2].1);
    assert Joined(u[..4]) == Joined(u[..3]) + Part(u[3].0, u[3].1);
  }

  /** The value given for a unit, zero if it is left out. */
  ghost function Given(parts: seq<(int, char)>, unit: char): int {
    if parts == [] then 0
    else if parts[|parts| - 1].1 == unit then parts[|parts| - 1].0 else Given(parts[..|parts| - 1], unit)
  }

  lemma GivenPush(parts: seq<(int, char)>, value: nat, suffix: char, unit: char)
    requires Given(parts, suffix) == 0
    ensures Given(parts + One(value, suffix), unit) == if unit == suffix then value else Given(parts, unit)
  {
    if value == 0 {
      assert parts + [] == parts;
    } else {
      assert (parts + [(value, suffix)])[..|parts|] == parts;
    }
  }

  lemma AllGiven(e: Elapsed, unit: char)
    ensures Given(Read(Text(e)), unit)
            == match unit case 'y' => e.years case 'M' => e.months case 'd' => e.days case 'h' => e.hours
               case 'm' => e.minutes case _ => 0
  {
    TextRead(e);
    hide Read, Text, Given, One;
    var y := [] + One(e.years, 'y');
    var yM := y + One(e.months, 'M');
    var yMd := yM + One(e.days, 'd');
    var yMdh := yMd + One(e.hours, 'h');
    forall u: char ensures Given([], u) == 0 { NoneGiven(u); }
    forall u: char { GivenPush([], e.years, 'y', u); }
    forall u: char { GivenPush(y, e.months, 'M', u); }
    forall u: char { GivenPush(yM, e.days, 'd', u); }
    forall u: char { GivenPush(yMd, e.hours, 'h', u); }
    GivenPush(yMdh, e.minutes, 'm', unit);
    assert y == One(e.years, 'y');
  }

  lemma NoneGiven(unit: char)
    ensures Given([], unit) == 0
  {
  }

  /** So different elapsed times have different texts. */
  lemma TextTellsApart(e: Elapsed, f: Elapsed)
    requires Text(e) == Text(f)
    ensures e == f
  {
    hide Text, Read, Given;
    AllGiven(e, 'y'); AllGiven(e, 'M'); AllGiven(e, 'd'); AllGiven(e, 'h'); AllGiven(e, 'm');
    AllGiven(f, 'y'); AllGiven(f, 'M'); AllGiven(f, 'd'); AllGiven(f, 'h'); AllGiven(f, 'm');
  }

  /** Splitting what is left after the whole months. */
  lemma Peeled(r: int)
    requires 0 <= r < 31 * DAY
    ensures var days, rest := r / DAY, r % DAY;
      && 0 <= days <= 30 && r - days * DAY == rest
      && 0 <= rest / HOUR < 24 && rest - rest / HOUR * HOUR == rest % HOUR
      && 0 <= rest % HOUR / MINUTE < 60
      && days * DAY + rest / HOUR * HOUR + rest % HOUR / MINUTE * MINUTE <= r
      && r < days * DAY + rest / HOUR * HOUR + rest % HOUR / MINUTE * MINUTE + MINUTE
  {
  }

  /** Stepping back from the distance between the months, at most once. */
  method CountMonths(event: Civil, now: Civil) returns (totalMonths: nat, ghost steps: nat)
    requires Valid(event) && Valid(now) && Ticks(event) <= Ticks(now)
    ensures WholeMonths(event, Ticks(now), totalMonths) && steps <= 1
    ensures totalMonths + steps == now.month - event.month
  {
    hide Ticks, AddCalendarMonthsClamped, WholeMonths;
    MonthsBetween(event, now);
    totalMonths, steps := now.month - event.month, 0;
    while totalMonths > 0 && Ticks(AddCalendarMonthsClamped(event, totalMonths)) > Ticks(now)
      invariant totalMonths + steps == now.month - event.month && steps <= 1
      invariant steps == 1 ==> WholeMonths(event, Ticks(now), totalMonths)
    {
      WholeWithin(event, Ticks(now), totalMonths);
      totalMonths, steps := totalMonths - 1, steps + 1;
    }
  }

  lemma WholeWithin(event: Civil, now: int, k: nat)
    requires Valid(event)
    ensures WholeMonths(event, now, k) ==> MonthsAfter(event, k) <= now
  {
  }

  method JoinParts(units: seq<(nat, char)>) returns (text: string)
    ensures text == Joined(units)
  {
    text := "";
    for k := 0 to |units|
      invariant text == Joined(units[..k])
    {
      assert units[..k + 1][..k] == units[..k];
      if units[k].0 > 0 {
        text := text + (Digits(units[k].0) + [units[k].1]);
      }
    }
    assert units[..|units|] == units;
  }

  /** Years and months are the whole months, and the rest is peeled from what they leave. */
  lemma Decomposed(event: Civil, now: int, total: nat, e: Elapsed)
    requires Valid(event) && WholeMonths(event, now, total)
    requires e.years == total / 12 && e.months == total % 12
    requires var r := now - MonthsAfter(event, total);
      && e.days == r / DAY && e.hours == (r - e.days * DAY) / HOUR
      && e.minutes == (r - e.days * DAY - e.hours * HOUR) / MINUTE
    ensures Decomposes(event, now, e)
  {
    OneMonthMore(event, total);
    hide MonthsAfter;
    assert now < MonthsAfter(event, total + 1);
    Peeled(now - MonthsAfter(event, total));
    assert 12 * e.years + e.months == total;
  }

  method Peel(rest: nat) returns (days: nat, hours: nat, minutes: nat)
    ensures days == rest / DAY && hours == (rest - days * DAY) / HOUR
    ensures minutes == (rest - days * DAY - hours * HOUR) / MINUTE
  {
    var remainder := rest;
    days := remainder / DAY;
    remainder := remainder - days * DAY;
    hours := remainder / HOUR;
    remainder := remainder - hours * HOUR;
    minutes := remainder / MINUTE;
  }

  /** An unknown or future event has no elapsed time; anything else is its unique decomposition, its
      zero units left out, with a text of its own when all are zero. */
  method FormatElapsedSince(event: Option<nat>, now: nat) returns (text: string, ghost e: Elapsed)
    ensures event.None? || event.value > now ==> text == "-"
    ensures event.Some? && event.value <= now ==>
      && Decomposes(CivilAt(event.value), now, e)
      && text == if Text(e) != "" then Text(e) else if event.value == now then "0m" else "<1m"
  {
    e := Elapsed(0, 0, 0, 0, 0);
    if event.None? || event.value > now {
      return "-", e;
    }
    hide Ticks, Joined, Decomposes, AddCalendarMonthsClamped, WholeMonths;
    var start, finish := CivilAt(event.value), CivilAt(now);
    var totalMonths, steps := CountMonths(start, finish);
    WholeWithin(start, now, totalMonths);
    var days, hours, minutes := Peel(now - Ticks(AddCalendarMonthsClamped(start, totalMonths)));
    var parts := Elapsed(totalMonths / 12, totalMonths % 12, days, hours, minutes);
    Decomposed(start, now, totalMonths, parts);
    e := parts;
    text := JoinParts(Units(parts));
    if text == "" {
      text := if now == event.value then "0m" else "<1m";
    }
  }
}
