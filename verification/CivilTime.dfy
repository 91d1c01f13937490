/** The run stamp: civil date arithmetic against a calendar that counts days,
    and stamps that sort as their times do. */
module CivilTime {

  const U64: nat := 0x1_0000_0000_0000_0000
  const I64_MAX: nat := 0x7FFF_FFFF_FFFF_FFFF
  const DAY_SECS: nat := 86_400
  const ERA_DAYS: nat := 146_097
  const EPOCH_SHIFT: nat := 719_468

  datatype Date = Date(y: nat, m: nat, d: nat)

  // ---- What the code computes ----

  /** `i64::try_from`, with the fallback the code gives it. */
  function TryI64(days: nat): nat { if days <= I64_MAX then days else 0 }

  /** The date a number of days after 1970-01-01. */
  function Civil(days: nat): Date {
    var z := TryI64(days) + EPOCH_SHIFT;
    var era := z / ERA_DAYS;
    var doe := z - era * ERA_DAYS;
    var yoe := YearOfEra(doe);
    var doy := doe - (365 * yoe + yoe / 4 - yoe / 100);
    var mp := (5 * doy + 2) / 153;
    var d := doy - (153 * mp + 2) / 5 + 1;
    var m := if mp < 10 then mp + 3 else mp - 9;
    CivilFits(z);
    Date(yoe + era * 400 + (if m <= 2 then 1 else 0), m, d)
  }

  function YearOfEra(doe: int): int {
    (doe - doe / 1460 + doe / 36_524 - doe / 146_096) / 365
  }

  // ---- The calendar ----

  predicate IsLeap(y: nat) {
    y % 4 == 0 && (y % 100 != 0 || y % 400 == 0)
  }

  function DaysInMonth(y: nat, m: nat): nat {
    if m == 2 then (if IsLeap(y) then 29 else 28)
    else if m == 4 || m == 6 || m == 9 || m == 11 then 30
    else 31
  }

  predicate ValidDate(date: Date) {
    1 <= date.m <= 12 && 1 <= date.d <= DaysInMonth(date.y, date.m)
  }

  function NextDay(date: Date): Date {
    if date.d < DaysInMonth(date.y, date.m) then date.(d := date.d + 1)
    else if date.m < 12 then Date(date.y, date.m + 1, 1)
    else Date(date.y + 1, 1, 1)
  }

  // ---- Years that start in March ----

  /** A day as its 400-year era, the year in it and the day in the year, years
      starting on the first of March. */
  datatype MarchDay = MarchDay(era: nat, yoe: nat, doy: nat)

  function YearLength(yoe: nat): nat { if IsLeap(yoe + 1) then 366 else 365 }

  predicate ValidMarch(x: MarchDay) { x.yoe < 400 && x.doy < YearLength(x.yoe) }

  function DayOfEra(yoe: nat, doy: nat): int { 365 * yoe + yoe / 4 - yoe / 100 + doy }

  function NextMarch(x: MarchDay): MarchDay {
    if x.doy + 1 < YearLength(x.yoe) then x.(doy := x.doy + 1)
    else if x.yoe < 399 then MarchDay(x.era, x.yoe + 1, 0)
    else MarchDay(x.era + 1, 0, 0)
  }

  function Number(x: MarchDay): int { x.era * ERA_DAYS + DayOfEra(x.yoe, x.doy) }

  /** The day with number `z`. */
  function Split(z: nat): (x: MarchDay)
    ensures ValidMarch(x) && Number(x) == z
  {
    var era, doe := z / ERA_DAYS, z % ERA_DAYS;
    var c := if doe == ERA_DAYS - 1 then 3 else doe / 36_524;
    var d1 := doe - 36_524 * c;
    var q := d1 / 1461;
    var d2 := d1 - 1461 * q;
    var r := if d2 == 1460 then 3 else d2 / 365;
    SplitFits(doe, c, q, r);
    MarchDay(era, 100 * c + 4 * q + r, d2 - 365 * r)
  }

  lemma SplitFits(doe: nat, c: nat, q: nat, r: nat)
    requires doe < ERA_DAYS
    requires c == if doe == ERA_DAYS - 1 then 3 else doe / 36_524
    requires q == (doe - 36_524 * c) / 1461
    requires var d2 := doe - 36_524 * c - 1461 * q; r == if d2 == 1460 then 3 else d2 / 365
    ensures c <= 3 && q <= 24 && r <= 3
    ensures var yoe, doy := 100 * c + 4 * q + r, doe - 36_524 * c - 1461 * q - 365 * r;
      yoe < 400 && 0 <= doy < YearLength(yoe) && DayOfEra(yoe, doy) == doe
  {
    var yoe := 100 * c + 4 * q + r;
    assert yoe / 4 == 25 * c + q && yoe / 100 == c;
    LeapOfEra(c, q, r);
  }

  lemma LeapOfEra(c: nat, q: nat, r: nat)
    requires c <= 3 && q <= 24 && r <= 3
    ensures IsLeap(100 * c + 4 * q + r + 1) <==> r == 3 && (q < 24 || c == 3)
  {
    var y := 100 * c + 4 * q + r + 1;
    assert y % 4 == (r + 1) % 4;
    if q < 24 || r < 3 {
      assert y % 100 == 4 * q + r + 1;
    } else {
      assert y == 100 * (c + 1);
    }
  }

  /** The century and the four-century corrections leave the century. */
  lemma CenturyOf(doe: nat, c: nat, rest: nat)
    requires c <= 3 && doe == 36_524 * c + rest && (rest < 36_524 || (c == 3 && rest == 36_524))
    ensures doe / 36_524 - doe / 146_096 == c
  {}

  lemma FoursOf(doe: nat, k: nat, over: nat)
    requires doe == 1460 * k + over && over < 2920
    ensures doe / 1460 == k + if over >= 1460 then 1 else 0
  {}

  lemma YearFrom(n: int, yoe: nat, rest: int)
    requires n == 365 * yoe + rest && 0 <= rest < 365
    ensures n / 365 == yoe
  {}

  /** The year formula finds the year of every day of every year of an era. */
  lemma YearOfEraIsRight(yoe: nat, doy: nat)
    requires yoe < 400 && doy < YearLength(yoe)
    ensures YearOfEra(DayOfEra(yoe, doy)) == yoe
    ensures 0 <= DayOfEra(yoe, doy) < ERA_DAYS
  {
    hide IsLeap;
    var c, q, r := yoe / 100, yoe % 100 / 4, yoe % 4;
    var doe := DayOfEra(yoe, doy);
    assert yoe == 100 * c + 4 * q + r && yoe / 4 == 25 * c + q;
    LeapOfEra(c, q, r);
    var over := 24 * c + q + 365 * r + doy;
    CenturyOf(doe, c, 1461 * q + 365 * r + doy);
    FoursOf(doe, 25 * c + q, over);
    YearFrom(365 * yoe + doy - (if over >= 1460 then 1 else 0), yoe, doy - if over >= 1460 then 1 else 0);
  }

  // ---- The code against the calendar ----

  function MonthOf(doy: nat): nat {
    var mp := (5 * doy + 2) / 153;
    if mp < 10 then mp + 3 else mp - 9
  }

  function DayOf(doy: nat): int { doy - (153 * ((5 * doy + 2) / 153) + 2) / 5 + 1 }

  function YearOf(x: MarchDay): nat {
    x.yoe + x.era * 400 + if MonthOf(x.doy) <= 2 then 1 else 0
  }

  lemma CivilFits(z: nat)
    ensures var x := Split(z);
      && x.era == z / ERA_DAYS && DayOfEra(x.yoe, x.doy) == z - z / ERA_DAYS * ERA_DAYS
      && YearOfEra(z - z / ERA_DAYS * ERA_DAYS) == x.yoe
      && 1 <= MonthOf(x.doy) <= 12 && 1 <= DayOf(x.doy) <= 31
  {
    hide YearOfEra;
    var x := Split(z);
    YearOfEraIsRight(x.yoe, x.doy);
    EraIsRight(z, x);
    MonthsOfMarchYear(x.doy);
  }

  lemma EraIsRight(z: nat, x: MarchDay)
    requires Number(x) == z && 0 <= DayOfEra(x.yoe, x.doy) < ERA_DAYS
    ensures x.era == z / ERA_DAYS && DayOfEra(x.yoe, x.doy) == z % ERA_DAYS
  {}

  /** The first day of each month of a year that starts in March, and the end. */
  const MONTH_STARTS: seq<nat> := [0, 31, 61, 92, 122, 153, 184, 214, 245, 275, 306, 337, 366]

  lemma MonthsOfMarchYear(doy: nat)
    requires doy < 366
    ensures var mp := (5 * doy + 2) / 153;
      mp < 12 && MONTH_STARTS[mp] <= doy < MONTH_STARTS[mp + 1] && DayOf(doy) == doy - MONTH_STARTS[mp] + 1
  {
    var mp := (5 * doy + 2) / 153;
    assert 153 * mp <= 5 * doy + 2 < 153 * mp + 153;
    assert mp < 12;
  }

  lemma LeapRepeats(era: nat, k: nat)
    ensures IsLeap(400 * era + k) <==> IsLeap(k)
  {
    Mod4(100 * era, k);
    Mod100(4 * era, k);
    Mod400(era, k);
  }

  lemma Mod4(t: nat, k: nat)
    ensures (4 * t + k) % 4 == k % 4
  {}

  lemma Mod100(t: nat, k: nat)
    ensures (100 * t + k) % 100 == k % 100
  {}

  lemma Mod400(t: nat, k: nat)
    ensures (400 * t + k) % 400 == k % 400
  {}

  function DateOf(x: MarchDay): Date
    requires ValidMarch(x)
  {
    MonthsOfMarchYear(x.doy);
    Date(YearOf(x), MonthOf(x.doy), DayOf(x.doy))
  }

  function MonthIndex(doy: nat): nat { (5 * doy + 2) / 153 }

  lemma MonthOfDay(doy: nat, mp: nat)
    requires mp < 12 && doy < 366 && MONTH_STARTS[mp] <= doy < MONTH_STARTS[mp + 1]
    ensures MonthIndex(doy) == mp && MonthOf(doy) == (if mp < 10 then mp + 3 else mp - 9)
      && DayOf(doy) == doy - MONTH_STARTS[mp] + 1
  {
    MonthsOfMarchYear(doy);
  }

  lemma MonthIndexFits(doy: nat)
    requires doy < 366
    ensures MonthIndex(doy) < 12 && MONTH_STARTS[MonthIndex(doy)] <= doy < MONTH_STARTS[MonthIndex(doy) + 1]
  {
    MonthsOfMarchYear(doy);
  }

  lemma MonthLengths(y: nat, mp: nat)
    requires mp < 12
    ensures DaysInMonth(y, if mp < 10 then mp + 3 else mp - 9)
         == if mp == 11 then (if IsLeap(y) then 29 else 28) else MONTH_STARTS[mp + 1] - MONTH_STARTS[mp]
  {}

  /** The next day of the March calendar is the next day of the usual one. */
  lemma NextMarchIsNextDay(x: MarchDay)
    requires ValidMarch(x)
    ensures ValidMarch(NextMarch(x)) && ValidDate(DateOf(x)) && DateOf(NextMarch(x)) == NextDay(DateOf(x))
  {
    hide IsLeap, DaysInMonth, MonthIndex, MonthOf, DayOf;
    var mp, y := MonthIndex(x.doy), YearOf(x);
    MonthIndexFits(x.doy);
    MonthOfDay(x.doy, mp);
    LeapRepeats(x.era, x.yoe + 1);
    MonthLengths(y, mp);
    if x.doy + 1 == YearLength(x.yoe) {
      assert mp == 11;
      MonthOfDay(0, 0);
    } else if x.doy + 1 == MONTH_STARTS[mp + 1] {
      MonthOfDay(x.doy + 1, mp + 1);
    } else {
      MonthOfDay(x.doy + 1, mp);
    }
  }

  lemma NextMarchIsNextNumber(x: MarchDay)
    requires ValidMarch(x)
    ensures Number(NextMarch(x)) == Number(x) + 1
  {
    hide IsLeap;
    if x.doy + 1 == YearLength(x.yoe) {
      YearsAreBackToBack(x.yoe);
    }
  }

  lemma YearsAreBackToBack(yoe: nat)
    requires yoe < 400
    ensures DayOfEra(yoe, YearLength(yoe)) == if yoe < 399 then DayOfEra(yoe + 1, 0) else ERA_DAYS
  {
    hide IsLeap;
    var c, q, r := yoe / 100, yoe % 100 / 4, yoe % 4;
    assert yoe == 100 * c + 4 * q + r && yoe / 4 == 25 * c + q;
    LeapOfEra(c, q, r);
  }

  /** One day has one number. */
  lemma NumbersAreUnique(x: MarchDay, y: MarchDay)
    requires ValidMarch(x) && ValidMarch(y) && Number(x) == Number(y)
    ensures x == y
  {
    hide YearOfEra;
    YearOfEraIsRight(x.yoe, x.doy);
    YearOfEraIsRight(y.yoe, y.doy);
    EraIsRight(Number(x), x);
    EraIsRight(Number(y), y);
  }

  /** No time's days are past the range of the code's integers. */
  lemma DaysNeverFallBack(secs: nat)
    requires secs < U64
    ensures TryI64(secs / DAY_SECS) == secs / DAY_SECS
  {}

  lemma CivilIsDateOf(days: nat)
    requires days <= I64_MAX
    ensures Civil(days) == DateOf(Split(days + EPOCH_SHIFT))
  {
    hide YearOfEra, Split, ValidMarch, Number, IsLeap, YearLength;
    CivilFits(days + EPOCH_SHIFT);
  }

  /** The first day is 1970-01-01. */
  lemma CivilStarts()
    ensures Civil(0) == Date(1970, 1, 1)
  {
    assert EPOCH_SHIFT / ERA_DAYS == 4 && EPOCH_SHIFT - 4 * ERA_DAYS == 135_080;
    assert YearOfEra(135_080) == 369;
  }

  /** Each day is a valid date, and the next day the next date. */
  lemma CivilCounts(days: nat)
    requires days < I64_MAX
    ensures ValidDate(Civil(days)) && Civil(days + 1) == NextDay(Civil(days))
  {
    hide DateOf, NextMarch, Civil, NextDay, ValidDate;
    var x := Split(days + EPOCH_SHIFT);
    CivilIsDateOf(days);
    CivilIsDateOf(days + 1);
    NextMarchIsNextDay(x);
    NextMarchIsNextNumber(x);
    NumbersAreUnique(NextMarch(x), Split(days + 1 + EPOCH_SHIFT));
  }

  // ---- Counting back ----

  function DaysBeforeMonth(y: nat, m: nat): nat {
    if m <= 1 then 0 else DaysBeforeMonth(y, m - 1) + DaysInMonth(y, m - 1)
  }

  function DaysBeforeYear(y: nat): nat {
    if y <= 1970 then 0 else DaysBeforeYear(y - 1) + DaysBeforeMonth(y - 1, 13)
  }

  /** The days from 1970-01-01 to a date, counted year by year and month by month. */
  function DayNumber(date: Date): int {
    DaysBeforeYear(date.y) + DaysBeforeMonth(date.y, date.m) + date.d - 1
  }

  lemma NextDayCountsOne(date: Date)
    requires ValidDate(date) && date.y >= 1970
    ensures DayNumber(NextDay(date)) == DayNumber(date) + 1
  {
    hide DaysInMonth;
    if date.d == DaysInMonth(date.y, date.m) && date.m == 12 {
      assert DaysBeforeMonth(date.y, 13) == DaysBeforeMonth(date.y, 12) + DaysInMonth(date.y, 12);
      assert DaysBeforeMonth(date.y + 1, 1) == 0;
    }
  }

  /** Counting the days to a date gives back the number it came from. */
  lemma {:induction false} CountingInverts(days: nat)
    requires days <= I64_MAX
    ensures DayNumber(Civil(days)) == days && ValidDate(Civil(days)) && Civil(days).y >= 1970
  {
    hide Civil, DayNumber;
    if days == 0 {
      CivilStarts();
      FirstDayIsZero();
    } else {
      CountingInverts(days - 1);
      CivilCounts(days - 1);
      NextDayCountsOne(Civil(days - 1));
      NextDayIsValid(Civil(days - 1));
    }
  }

  lemma FirstDayIsZero()
    ensures DayNumber(Date(1970, 1, 1)) == 0
  {}

  lemma NextDayIsValid(date: Date)
    requires ValidDate(date)
    ensures ValidDate(NextDay(date)) && NextDay(date).y >= date.y
  {}

  lemma {:induction false} MonthsAddUp(y: nat, m: nat, n: nat)
    requires 1 <= m < n <= 13
    ensures DaysBeforeMonth(y, m) + DaysInMonth(y, m) <= DaysBeforeMonth(y, n)
    decreases n
  {
    hide DaysInMonth;
    if m + 1 < n {
      MonthsAddUp(y, m, n - 1);
    }
  }

  lemma {:induction false} YearsAddUp(y: nat, n: nat)
    requires 1970 <= y < n
    ensures DaysBeforeYear(y) + DaysBeforeMonth(y, 13) <= DaysBeforeYear(n)
    decreases n
  {
    hide DaysBeforeMonth;
    if y + 1 < n {
      YearsAddUp(y, n - 1);
    }
  }

  lemma EarlierYearIsBelow(a: Date, b: Date)
    requires ValidDate(a) && ValidDate(b) && 1970 <= a.y < b.y
    ensures DayNumber(a) < DayNumber(b)
  {
    hide DaysInMonth, DaysBeforeMonth, DaysBeforeYear;
    MonthsAddUp(a.y, a.m, 13);
    YearsAddUp(a.y, b.y);
  }

  /** Different dates have different numbers. */
  lemma DayNumberIsInjective(a: Date, b: Date)
    requires ValidDate(a) && ValidDate(b) && a.y >= 1970 && b.y >= 1970 && DayNumber(a) == DayNumber(b)
    ensures a == b
  {
    hide DaysInMonth, DaysBeforeMonth, DaysBeforeYear;
    if a.y < b.y {
      EarlierYearIsBelow(a, b);
    } else if b.y < a.y {
      EarlierYearIsBelow(b, a);
    } else if a.m < b.m {
      MonthsAddUp(a.y, a.m, b.m);
    } else if b.m < a.m {
      MonthsAddUp(a.y, b.m, a.m);
    }
  }

  /** Every date from 1970 on is the civil date of its number. */
  lemma CivilInverts(date: Date)
    requires ValidDate(date) && date.y >= 1970 && 0 <= DayNumber(date) <= I64_MAX
    ensures Civil(DayNumber(date)) == date
  {
    hide Civil, DayNumber;
    CountingInverts(DayNumber(date));
    DayNumberIsInjective(Civil(DayNumber(date)), date);
  }

  // ---- Stamps ----

  function Digit(n: nat): char
    requires n < 10
  {
    "0123456789"[n]
  }

  /** The low `width` decimal digits. */
  function Fixed(n: nat, width: nat): (r: string)
    ensures |r| == width
  {
    if width == 0 then "" else Fixed(n / 10, width - 1) + [Digit(n % 10)]
  }

  function Width(n: nat): nat { if n < 10 then 1 else 1 + Width(n / 10) }

  /** A number padded with zeros to a width, and longer when it needs to be. */
  function Padded(n: nat, width: nat): string {
    Fixed(n, if Width(n) > width then Width(n) else width)
  }

  /** `YYYYMMDDTHHMMSSZ` for Unix seconds. */
  function UtcStamp(secs: nat): string {
    var date, rem := Civil(secs / DAY_SECS), secs % DAY_SECS;
    Padded(date.y, 4) + Padded(date.m, 2) + Padded(date.d, 2) + "T"
    + Padded(rem / 3600, 2) + Padded(rem % 3600 / 60, 2) + Padded(rem % 60, 2) + "Z"
  }

  /** Text order: by the first difference, a prefix first. */
  predicate TextLess(a: string, b: string)
    decreases |a|
  {
    b != [] && (a == [] || a[0] < b[0] || (a[0] == b[0] && TextLess(a[1..], b[1..])))
  }

  lemma {:induction false} LessStays(a: string, b: string, x: string, y: string)
    requires TextLess(a, b) && |a| == |b|
    ensures TextLess(a + x, b + y)
    decreases |a|
  {
    assert (a + x)[1..] == a[1..] + x && (b + y)[1..] == b[1..] + y;
    if a[0] == b[0] {
      LessStays(a[1..], b[1..], x, y);
    }
  }

  lemma {:induction false} SamePrefix(p: string, a: string, b: string)
    requires TextLess(a, b)
    ensures TextLess(p + a, p + b)
    decreases |p|
  {
    if p == [] {
      assert p + a == a && p + b == b;
    } else {
      assert (p + a)[1..] == p[1..] + a && (p + b)[1..] == p[1..] + b;
      SamePrefix(p[1..], a, b);
    }
  }

  function Power(w: nat): nat { if w == 0 then 1 else 10 * Power(w - 1) }

  lemma {:induction false} FixedKeepsOrder(a: nat, b: nat, w: nat)
    requires a < b < Power(w)
    ensures TextLess(Fixed(a, w), Fixed(b, w))
    decreases w
  {
    if w > 0 {
      if a / 10 < b / 10 {
        FixedKeepsOrder(a / 10, b / 10, w - 1);
        LessStays(Fixed(a / 10, w - 1), Fixed(b / 10, w - 1), [Digit(a % 10)], [Digit(b % 10)]);
      } else {
        assert a % 10 < b % 10;
        DigitsKeepOrder(a % 10, b % 10);
        SamePrefix(Fixed(a / 10, w - 1), [Digit(a % 10)], [Digit(b % 10)]);
      }
    }
  }

  lemma DigitsKeepOrder(a: nat, b: nat)
    requires a < b < 10
    ensures Digit(a) < Digit(b) && TextLess([Digit(a)], [Digit(b)])
  {}

  lemma FixedTwo(a: nat, b: nat, w: nat)
    requires b < 100
    ensures Fixed(a * 100 + b, w + 2) == Fixed(a, w) + Fixed(b, 2)
  {
    var n := a * 100 + b;
    assert n / 10 == a * 10 + b / 10 && n % 10 == b % 10;
    assert n / 10 / 10 == a && n / 10 % 10 == b / 10;
    assert Fixed(b / 10, 1) == Fixed(b / 10 / 10, 0) + [Digit(b / 10 % 10)];
    assert Fixed(n / 10, w + 1) == Fixed(a, w) + [Digit(b / 10)];
    assert Fixed(b, 2) == [Digit(b / 10)] + [Digit(b % 10)];
  }

  function DateKey(date: Date): nat { (date.y * 100 + date.m) * 100 + date.d }

  function TimeKey(rem: nat): nat { (rem / 3600 * 100 + rem % 3600 / 60) * 100 + rem % 60 }

  lemma PaddedFits(n: nat)
    ensures n < 100 ==> Padded(n, 2) == Fixed(n, 2)
    ensures n < 10_000 ==> Padded(n, 4) == Fixed(n, 4)
  {
    assert Power(1) == 10 && Power(2) == 100 && Power(3) == 1000 && Power(4) == 10_000;
    if n < 100 { WidthBound(n, 2); }
    if n < 10_000 { WidthBound(n, 4); }
  }

  lemma {:induction false} WidthBound(n: nat, w: nat)
    requires w > 0 && n < Power(w)
    ensures Width(n) <= w
    decreases w
  {
    if w > 1 && n >= 10 {
      WidthBound(n / 10, w - 1);
    }
  }

  /** Up to the year 9999 a stamp is sixteen characters: two numbers in fixed
      width. */
  lemma StampIsTwoNumbers(secs: nat)
    requires secs < U64 && Civil(secs / DAY_SECS).y <= 9999
    ensures UtcStamp(secs) == Fixed(DateKey(Civil(secs / DAY_SECS)), 8) + "T" + Fixed(TimeKey(secs % DAY_SECS), 6) + "Z"
  {
    hide Fixed, Padded, Civil;
    var date, rem := Civil(secs / DAY_SECS), secs % DAY_SECS;
    var h, mi, s := rem / 3600, rem % 3600 / 60, rem % 60;
    CountingInverts(secs / DAY_SECS);
    assert date.m < 100 && date.d < 100 && h < 100 && mi < 100 && s < 100;
    PaddedFits(date.y);
    PaddedFits(date.m);
    PaddedFits(date.d);
    PaddedFits(h);
    PaddedFits(mi);
    PaddedFits(s);
    FixedTwo(date.y, date.m, 4);
    FixedTwo(date.y * 100 + date.m, date.d, 6);
    FixedTwo(h, mi, 2);
    FixedTwo(h * 100 + mi, s, 4);
    var a, b := Fixed(DateKey(date), 8), Fixed(TimeKey(rem), 6);
    assert UtcStamp(secs) == a + "T" + Fixed(h, 2) + Fixed(mi, 2) + Fixed(s, 2) + "Z";
    assert a + "T" + Fixed(h, 2) + Fixed(mi, 2) + Fixed(s, 2) + "Z"
        == a + "T" + (Fixed(h, 2) + Fixed(mi, 2) + Fixed(s, 2)) + "Z";
  }

  lemma NextDayIsLater(date: Date)
    requires ValidDate(date)
    ensures DateKey(date) < DateKey(NextDay(date)) && date.y <= NextDay(date).y
  {}

  lemma {:induction false} LaterDaysHaveLaterDates(a: nat, b: nat)
    requires a < b <= I64_MAX
    ensures DateKey(Civil(a)) < DateKey(Civil(b)) && Civil(a).y <= Civil(b).y
    decreases b
  {
    hide Civil, DateKey;
    CivilCounts(b - 1);
    NextDayIsLater(Civil(b - 1));
    if a < b - 1 {
      LaterDaysHaveLaterDates(a, b - 1);
    }
  }

  /** The last second of the year 9999. */
  const LAST: nat := 253_402_300_799

  lemma LastDay()
    ensures Civil(LAST / DAY_SECS) == Date(9999, 12, 31) && LAST % DAY_SECS == DAY_SECS - 1
  {
    hide Split, DateOf, Civil;
    var x := MarchDay(24, 399, 305);
    assert LAST / DAY_SECS == 2_932_896;
    NumbersAreUnique(x, Split(2_932_896 + EPOCH_SHIFT)) by { LastMarchDay(); }
    CivilIsDateOf(2_932_896);
    LastMarchDay();
  }

  lemma LastMarchDay()
    ensures var x := MarchDay(24, 399, 305);
      ValidMarch(x) && Number(x) == 2_932_896 + EPOCH_SHIFT && DateOf(x) == Date(9999, 12, 31)
  {
    MonthOfDay(305, 9);
  }

  lemma StampsKeepOrder(s: nat, t: nat)
    requires s < t <= LAST
    ensures TextLess(UtcStamp(s), UtcStamp(t))
  {
    hide UtcStamp, Civil, DateKey, Fixed, TextLess;
    var a, b := Civil(s / DAY_SECS), Civil(t / DAY_SECS);
    YearsFit(s);
    YearsFit(t);
    StampIsTwoNumbers(s);
    StampIsTwoNumbers(t);
    var ds, dt, hs, ht := Fixed(DateKey(a), 8), Fixed(DateKey(b), 8), Fixed(TimeKey(s % DAY_SECS),
        6), Fixed(TimeKey(t % DAY_SECS), 6);
    Concat4(ds, "T", hs, "Z");
    Concat4(dt, "T", ht, "Z");
    if s / DAY_SECS < t / DAY_SECS {
      LaterDaysHaveLaterDates(s / DAY_SECS, t / DAY_SECS);
      DateKeyFits(b);
      FixedKeepsOrder(DateKey(a), DateKey(b), 8);
      LessStays(ds, dt, "T" + hs + "Z", "T" + ht + "Z");
    } else {
      TimeKeysKeepOrder(s % DAY_SECS, t % DAY_SECS);
      FixedKeepsOrder(TimeKey(s % DAY_SECS), TimeKey(t % DAY_SECS), 6);
      LessStays(hs, ht, "Z", "Z");
      SamePrefix("T", hs + "Z", ht + "Z");
      SamePrefix(ds, "T" + (hs + "Z"), "T" + (ht + "Z"));
      assert "T" + (hs + "Z") == "T" + hs + "Z" && "T" + (ht + "Z") == "T" + ht + "Z";
    }
  }

  lemma Concat4(a: string, b: string, c: string, d: string)
    ensures a + b + c + d == a + (b + c + d)
  {}

  lemma TimeParts(rem: nat) returns (h: nat, mi: nat, sec: nat)
    ensures rem == 3600 * h + 60 * mi + sec && mi < 60 && sec < 60
    ensures TimeKey(rem) == (h * 100 + mi) * 100 + sec
  {
    h := rem / 3600;
    var r := rem - 3600 * h;
    assert r == rem % 3600;
    mi := r / 60;
    sec := r - 60 * mi;
    Mod60(60 * h + mi, sec);
  }

  lemma Mod60(t: nat, k: nat)
    requires k < 60
    ensures (60 * t + k) % 60 == k
  {}

  lemma TimeKeysKeepOrder(a: nat, b: nat)
    requires a < b < DAY_SECS
    ensures TimeKey(a) < TimeKey(b) < Power(6)
  {
    hide TimeKey;
    var ha, ma, sa := TimeParts(a);
    var hb, mb, sb := TimeParts(b);
    assert hb < 24;
    MillionIsPower();
  }

  lemma MillionIsPower()
    ensures Power(6) == 1_000_000
  {
    assert Power(2) == 100 && Power(4) == 10_000;
  }

  lemma DateKeyFits(date: Date)
    requires ValidDate(date) && date.y <= 9999
    ensures DateKey(date) < Power(8)
  {
    assert Power(2) == 100 && Power(4) == 10_000 && Power(6) == 1_000_000;
  }

  lemma YearsFit(t: nat)
    requires t <= LAST
    ensures Civil(t / DAY_SECS).y <= 9999 && ValidDate(Civil(t / DAY_SECS)) && t < U64
  {
    hide Civil;
    LastDay();
    CountingInverts(t / DAY_SECS);
    if t / DAY_SECS < LAST / DAY_SECS {
      LaterDaysHaveLaterDates(t / DAY_SECS, LAST / DAY_SECS);
    }
  }

  ghost predicate OrderedUpTo(last: nat) {
    forall s, t :: 0 <= s < t <= last ==> TextLess(UtcStamp(s), UtcStamp(t))
  }

  /** Stamps sort as their times do exactly up to the year 9999: the first
      stamp with a five-digit year sorts before the last with four. */
  lemma StampsSortUpToYear9999(last: nat)
    requires last < U64
    ensures OrderedUpTo(last) <==> last <= LAST
  {
    hide UtcStamp, TextLess;
    if last <= LAST {
      forall s, t | 0 <= s < t <= last ensures TextLess(UtcStamp(s), UtcStamp(t)) {
        StampsKeepOrder(s, t);
      }
    } else {
      FiveDigitsSortFirst();
    }
  }

  lemma FiveDigitsSortFirst()
    ensures !TextLess(UtcStamp(LAST), UtcStamp(LAST + 1))
  {
    hide Civil, Fixed;
    LastDay();
    CivilCounts(LAST / DAY_SECS);
    assert (LAST + 1) / DAY_SECS == LAST / DAY_SECS + 1;
    assert Civil((LAST + 1) / DAY_SECS) == Date(10_000, 1, 1);
    WidthOfYears();
    FirstDigits();
    FirstOfStamp(LAST);
    FirstOfStamp(LAST + 1);
  }

  lemma WidthOfYears()
    ensures Padded(9999, 4) == Fixed(9999, 4) && Padded(10_000, 4) == Fixed(10_000, 5)
  {
    assert Width(9) == 1 && Width(99) == 2 && Width(999) == 3 && Width(9999) == 4;
    assert Width(1) == 1 && Width(10) == 2 && Width(100) == 3 && Width(1000) == 4 && Width(10_000) == 5;
  }

  lemma FirstDigits()
    ensures Fixed(9999, 4)[0] == '9' && Fixed(10_000, 5)[0] == '1'
  {
    assert Fixed(9, 1) == "9" && Fixed(99, 2)[0] == '9' && Fixed(999, 3)[0] == '9';
    assert Fixed(1, 1) == "1" && Fixed(10, 2)[0] == '1' && Fixed(100, 3)[0] == '1' && Fixed(1000, 4)[0] == '1';
  }

  lemma FirstOfStamp(secs: nat)
    requires Padded(Civil(secs / DAY_SECS).y, 4) != ""
    ensures UtcStamp(secs) != "" && UtcStamp(secs)[0] == Padded(Civil(secs / DAY_SECS).y, 4)[0]
  {
    hide Padded, Civil;
  }
}
