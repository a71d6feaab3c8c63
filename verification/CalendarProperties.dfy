/** Dates and day numbers correspond one to one (the proleptic Gregorian calendar of ISO 8601:2004,
    section 3.2.1), in the same order. */
module CalendarProperties {
  import opened Types
  import opened Sessions
  import opened Calendar
  import opened Words

  datatype Civil = Civil(year: int, month: int, day: int)

  predicate Leap(y: int) { y % 4 == 0 && (y % 100 != 0 || y % 400 == 0) }

  function MonthDays(y: int, m: int): int {
    if m == 2 then (if Leap(y) then 29 else 28)
    else if m == 4 || m == 6 || m == 9 || m == 11 then 30
    else 31
  }

  predicate IsDate(c: Civil) {
    1 <= c.month <= 12 && 1 <= c.day <= MonthDays(c.year, c.month)
  }

  function DaysOf(c: Civil): int { DaysFromCivil(c.year, c.month, c.day) }

  // ----- from days to a date ------------------------------------------------------------------

  function YearOfEra(doe: int): int { (doe - doe / 1460 + doe / 36524 - doe / 146096) / 365 }

  /** The inverse: the same arithmetic, run backwards. */
  function CivilFromDays(days: int): Civil {
    var z := days + 719468;
    var era := TruncDiv(if z >= 0 then z else z - 146096, 146097);
    var doe := z - era * 146097;
    var yoe := YearOfEra(doe);
    var doy := doe - (365 * yoe + yoe / 4 - yoe / 100);
    CivilAt(era, yoe, doy)
  }

  /** The date on day `doy` of the year that starts in March of year `yoe` of an era. */
  function CivilAt(era: int, yoe: int, doy: int): Civil {
    var mp := (5 * doy + 2) / 153;
    var d := doy - (153 * mp + 2) / 5 + 1;
    var m := if mp < 10 then mp + 3 else mp - 9;
    Civil(yoe + era * 400 + (if m <= 2 then 1 else 0), m, d)
  }

  function Encoded(c: Civil): int { c.year * 10000 + c.month * 100 + c.day }

  function DateFromDays(days: int): int { Encoded(CivilFromDays(days)) }

  function DaysOfDate(date: int): int { DaysFromCivil(Year(date), Month(date), Day(date)) }

  function AddDays(date: int, n: int): int { DateFromDays(DaysOfDate(date) + n) }

  function WeekdayOf(date: int): int {
    TruncMod(TruncMod(DaysOfDate(date) + 4, 7) + 7, 7)
  }

  // ----- eras ---------------------------------------------------------------------------------

  /** Truncating division of the shifted operand rounds down. */
  lemma EraOfYear(y: int)
    ensures TruncDiv(if y >= 0 then y else y - 399, 400) == y / 400
  {
  }

  lemma EraOfDay(z: int)
    ensures TruncDiv(if z >= 0 then z else z - 146096, 146097) == z / 146097
  {
  }

  /** A place in the 400-year era: `r` years into a four-year cycle, `q` cycles into a century, `c`
      centuries in, and a day of a year that starts in March. */
  predicate EraDay(c: int, q: int, r: int, doy: int) {
    && 0 <= c <= 3 && 0 <= q <= 24 && 0 <= r <= 3 && 0 <= doy
    && doy <= (if r == 3 && (q < 24 || c == 3) then 365 else 364)
  }

  function DayOfEra(c: int, q: int, r: int, doy: int): int { 36524 * c + 1461 * q + 365 * r + doy }

  function YearIn(c: int, q: int, r: int): int { 100 * c + 4 * q + r }

  lemma YearParts(c: int, q: int, r: int)
    requires 0 <= c <= 3 && 0 <= q <= 24 && 0 <= r <= 3
    ensures YearIn(c, q, r) / 4 == 25 * c + q && YearIn(c, q, r) / 100 == c
    ensures (YearIn(c, q, r) + 1) % 4 == 0 <==> r == 3
    ensures (YearIn(c, q, r) + 1) % 100 == 0 <==> r == 3 && q == 24
    ensures (YearIn(c, q, r) + 1) % 400 == 0 <==> r == 3 && q == 24 && c == 3
  {
    var y := YearIn(c, q, r);
    DivModUnique(y, 4, 25 * c + q, r);
    DivModUnique(y, 100, c, 4 * q + r);
    NextMultiple(y, 4, 25 * c + q, r);
    NextMultiple(y, 100, c, 4 * q + r);
    NextMultiple(y, 400, 0, y);
  }

  lemma NextMultiple(y: int, d: int, k: int, rest: int)
    requires d > 0 && 0 <= rest < d && y == k * d + rest
    ensures (y + 1) % d == 0 <==> rest == d - 1
  {
    if rest == d - 1 {
      assert y + 1 == (k + 1) * d;
      DivModUnique(y + 1, d, k + 1, 0);
    } else {
      DivModUnique(y + 1, d, k, rest + 1);
    }
  }

  lemma EraDayBounds(c: int, q: int, r: int, doy: int)
    requires EraDay(c, q, r, doy)
    ensures 0 <= DayOfEra(c, q, r, doy) <= 146096
    ensures DayOfEra(c, q, r, doy) / 146096 == if c == 3 && q == 24 && r == 3 && doy == 365 then 1 else 0
    ensures DayOfEra(c, q, r, doy) / 36524 == c + if c == 3 && q == 24 && r == 3 && doy == 365 then 1 else 0
  {
  }

  lemma LeapCycles(c: int, q: int, r: int, doy: int)
    requires EraDay(c, q, r, doy)
    ensures var e := 24 * c + q + 365 * r + doy;
            0 <= e < 2920 && DayOfEra(c, q, r, doy) / 1460 == 25 * c + q + (if e >= 1460 then 1 else 0)
            && (doy == 365 ==> e >= 1460) && (doy == 0 ==> e < 1460)
  {
  }

  /** The correction terms recover the year exactly, on all 146097 days of the era. */
  lemma YearRecovered(c: int, q: int, r: int, doy: int)
    requires EraDay(c, q, r, doy)
    ensures YearOfEra(DayOfEra(c, q, r, doy)) == YearIn(c, q, r)
  {
    EraDayBounds(c, q, r, doy);
    LeapCycles(c, q, r, doy);
  }

  lemma EraDaySplit(doe: int) returns (c: int, q: int, r: int, doy: int)
    requires 0 <= doe <= 146096
    ensures EraDay(c, q, r, doy) && DayOfEra(c, q, r, doy) == doe
  {
    c := if doe / 36524 == 4 then 3 else doe / 36524;
    var t := doe - 36524 * c;
    q := t / 1461;
    var u := t - 1461 * q;
    r := if u / 365 == 4 then 3 else u / 365;
    doy := u - 365 * r;
  }

  lemma YearSplit(yoe: int) returns (c: int, q: int, r: int)
    requires 0 <= yoe <= 399
    ensures 0 <= c <= 3 && 0 <= q <= 24 && 0 <= r <= 3 && YearIn(c, q, r) == yoe
  {
    c, q, r := yoe / 100, yoe % 100 / 4, yoe % 4;
  }

  // ----- months -------------------------------------------------------------------------------

  function MonthStart(mp: int): int { (153 * mp + 2) / 5 }

  /** Months counted from March: a day of the year names one month and day of the month. */
  lemma MonthRecovered(y: int, m: int, d: int)
    requires IsDate(Civil(y, m, d))
    ensures var mp := (m + 9) % 12; var doy := MonthStart(mp) + d - 1;
            && 0 <= mp <= 11 && (5 * doy + 2) / 153 == mp
            && 0 <= doy <= (if m == 2 && Leap(y) then 365 else 364)
            && m == (if mp < 10 then mp + 3 else mp - 9)
  {
    var mp := (m + 9) % 12;
    MonthTable(mp);
  }

  lemma MonthTable(mp: int)
    requires 0 <= mp <= 11
    ensures MonthStart(mp) == [0, 31, 61, 92, 122, 153, 184, 214, 245, 275, 306, 337][mp]
  {
  }

  lemma MonthOfDay(doy: int)
    requires 0 <= doy <= 365
    ensures var mp := (5 * doy + 2) / 153;
            && 0 <= mp <= 11 && MonthStart(mp) <= doy && (mp < 11 ==> doy < MonthStart(mp + 1))
  {
    var mp := (5 * doy + 2) / 153;
    MonthTable(mp);
    if mp < 11 { MonthTable(mp + 1); }
  }

  // ----- the bijection ------------------------------------------------------------------------

  /** The year that starts in March, and the day within it. */
  function MarchYear(c: Civil): int { if c.month <= 2 then c.year - 1 else c.year }

  function MarchDay(c: Civil): int { MonthStart((c.month + 9) % 12) + c.day - 1 }

  /** Days from the epoch to the first of March of a year. */
  function YearStart(y: int): int { 365 * y + y / 4 - y / 100 + y / 400 - 719468 }

  lemma DaysByMarch(c: Civil)
    ensures DaysOf(c) == YearStart(MarchYear(c)) + MarchDay(c)
    ensures var y := MarchYear(c); DaysOf(c) + 719468 == (y / 400) * 146097 + (365 * (y % 400) + y % 400 / 4 - y % 400 / 100) + MarchDay(c)
  {
    var y := MarchYear(c);
    EraOfYear(y);
    var era, yoe := y / 400, y % 400;
    DivModUnique(y, 4, 100 * era + yoe / 4, yoe % 4);
    DivModUnique(y, 100, 4 * era + yoe / 100, yoe % 100);
  }

  lemma MarchLeap(c: Civil)
    requires IsDate(c)
    ensures 0 <= MarchDay(c) <= (if Leap(MarchYear(c) + 1) then 365 else 364)
  {
    MonthRecovered(c.year, c.month, c.day);
  }

  lemma EraRemainders(y: int)
    ensures (y + 1) % 4 == (y % 400 + 1) % 4
    ensures (y + 1) % 100 == (y % 400 + 1) % 100
    ensures (y + 1) % 400 == (y % 400 + 1) % 400
  {
    var era, x := y / 400, y % 400 + 1;
    DivModUnique(y + 1, 4, 100 * era + x / 4, x % 4);
    DivModUnique(y + 1, 100, 4 * era + x / 100, x % 100);
    DivModUnique(y + 1, 400, era + x / 400, x % 400);
  }

  lemma LeapInEra(y: int, c: int, q: int, r: int)
    requires 0 <= c <= 3 && 0 <= q <= 24 && 0 <= r <= 3 && y % 400 == YearIn(c, q, r)
    ensures Leap(y + 1) <==> r == 3 && (q < 24 || c == 3)
  {
    YearParts(c, q, r);
    EraRemainders(y);
  }

  /** The era arithmetic finds the parts of a day number. */
  lemma CivilFromParts(days: int, era: int, c: int, q: int, r: int, doy: int)
    requires EraDay(c, q, r, doy) && days + 719468 == era * 146097 + DayOfEra(c, q, r, doy)
    ensures CivilFromDays(days) == CivilAt(era, YearIn(c, q, r), doy)
  {
    hide YearOfEra, CivilAt, TruncDiv, DayOfEra, YearIn, CivilFromDays;
    EraDayBounds(c, q, r, doy);
    YearRecovered(c, q, r, doy);
    DayOfYear(c, q, r, doy);
    EraOfDay(days + 719468);
    EraQuotient(days + 719468, era, DayOfEra(c, q, r, doy));
    CivilFromEra(days, era, DayOfEra(c, q, r, doy), YearIn(c, q, r), doy);
  }

  lemma DayOfYear(c: int, q: int, r: int, doy: int)
    requires EraDay(c, q, r, doy)
    ensures doy == DayOfEra(c, q, r, doy) - (365 * YearIn(c, q, r) + YearIn(c, q, r) / 4 - YearIn(c, q, r) / 100)
  {
    YearParts(c, q, r);
  }

  lemma CivilFromEra(days: int, era: int, doe: int, yoe: int, doy: int)
    requires var z := days + 719468; TruncDiv(if z >= 0 then z else z - 146096, 146097) == era && z == era * 146097 + doe
    requires YearOfEra(doe) == yoe && doy == doe - (365 * yoe + yoe / 4 - yoe / 100)
    ensures CivilFromDays(days) == CivilAt(era, yoe, doy)
  {
    hide YearOfEra, CivilAt, TruncDiv;
  }

  lemma EraQuotient(z: int, era: int, doe: int)
    requires z == era * 146097 + doe && 0 <= doe <= 146096
    ensures z / 146097 == era
  {
  }

  /** Days to civil undoes civil to days, for every valid date of every year. */
  lemma CivilRoundTrip(c: Civil)
    requires IsDate(c)
    ensures CivilFromDays(DaysOf(c)) == c
  {
    hide CivilFromDays, DaysOf, MonthStart, MonthDays, Leap, EraDay, MarchDay, YearIn, DayOfEra;
    var y, doy := MarchYear(c), MarchDay(c);
    DaysByMarch(c);
    MarchLeap(c);
    var cc, q, r := YearSplit(y % 400);
    LeapInEra(y, cc, q, r);
    EraDayFrom(y, cc, q, r, doy);
    CivilFromParts(DaysOf(c), y / 400, cc, q, r, doy);
    CivilAtMarch(c);
  }

  lemma EraDayFrom(y: int, c: int, q: int, r: int, doy: int)
    requires 0 <= c <= 3 && 0 <= q <= 24 && 0 <= r <= 3 && y % 400 == YearIn(c, q, r)
    requires 0 <= doy <= (if Leap(y + 1) then 365 else 364)
    ensures EraDay(c, q, r, doy)
    ensures DayOfEra(c, q, r, doy) == 365 * (y % 400) + y % 400 / 4 - y % 400 / 100 + doy
  {
    LeapInEra(y, c, q, r);
    YearParts(c, q, r);
  }

  lemma CivilAtMarch(c: Civil)
    requires IsDate(c)
    ensures CivilAt(MarchYear(c) / 400, MarchYear(c) % 400, MarchDay(c)) == c
  {
    MonthRecovered(c.year, c.month, c.day);
  }

  /** And the other way round: every day number is the number of the date it yields, which is valid. */
  lemma DaysRoundTrip(days: int)
    ensures IsDate(CivilFromDays(days)) && DaysOf(CivilFromDays(days)) == days
  {
    hide CivilFromDays, DaysOf, IsDate, YearIn, DayOfEra;
    var z := days + 719468;
    var era, doe := z / 146097, z % 146097;
    var cc, q, r, doy := EraDaySplit(doe);
    YearBounds(cc, q, r);
    YearParts(cc, q, r);
    CivilFromParts(days, era, cc, q, r, doy);
    var yoe := YearIn(cc, q, r);
    var c := CivilAt(era, yoe, doy);
    MarchOfCivilAt(era, yoe, doy, cc, q, r);
    DaysByMarch(c);
    EraDayFrom(MarchYear(c), cc, q, r, doy);
  }

  lemma YearBounds(c: int, q: int, r: int)
    requires 0 <= c <= 3 && 0 <= q <= 24 && 0 <= r <= 3
    ensures 0 <= YearIn(c, q, r) <= 399
  {
  }

  lemma MarchOfCivilAt(era: int, yoe: int, doy: int, cc: int, q: int, r: int)
    requires EraDay(cc, q, r, doy) && yoe == YearIn(cc, q, r) && 0 <= yoe <= 399
    ensures var c := CivilAt(era, yoe, doy);
            && IsDate(c) && MarchYear(c) == 400 * era + yoe && MarchDay(c) == doy && MarchYear(c) / 400 == era && MarchYear(c) % 400 == yoe
            && doy <= (if Leap(MarchYear(c) + 1) then 365 else 364)
  {
    hide IsDate, Leap, CivilAt, MarchYear, MarchDay, YearIn, MonthStart;
    var c := CivilAt(era, yoe, doy);
    MonthOfDay(doy);
    DivModUnique(400 * era + yoe, 400, era, yoe);
    LeapInEra(400 * era + yoe, cc, q, r);
    MarchParts(era, yoe, doy);
    MonthLengths(c, (5 * doy + 2) / 153, doy);
  }

  lemma MarchParts(era: int, yoe: int, doy: int)
    requires 0 <= doy <= 365
    ensures var c, mp := CivilAt(era, yoe, doy), (5 * doy + 2) / 153;
            && MarchYear(c) == 400 * era + yoe && MarchDay(c) == doy
            && c.month == (if mp < 10 then mp + 3 else mp - 9) && c.day == doy - MonthStart(mp) + 1
  {
    MonthOfDay(doy);
  }

  /** A day of the March year falls within its month. */
  lemma MonthLengths(c: Civil, mp: int, doy: int)
    requires 0 <= mp <= 11 && MonthStart(mp) <= doy && (mp < 11 ==> doy < MonthStart(mp + 1))
    requires doy <= (if Leap(MarchYear(c) + 1) then 365 else 364)
    requires c.month == (if mp < 10 then mp + 3 else mp - 9) && c.day == doy - MonthStart(mp) + 1
    ensures IsDate(c)
  {
    MonthTable(mp);
    if mp < 11 { MonthTable(mp + 1); }
  }

  // ----- order --------------------------------------------------------------------------------

  predicate Earlier(a: Civil, b: Civil) {
    a.year < b.year || (a.year == b.year && (a.month < b.month || (a.month == b.month && a.day < b.day)))
  }

  lemma YearStartStep(y: int)
    ensures YearStart(y + 1) == YearStart(y) + (if Leap(y + 1) then 366 else 365)
  {
    hide Leap;
    QuotientSteps(y);
    LeapRule(y + 1);
  }

  lemma QuotientSteps(y: int)
    ensures (y + 1) / 4 == y / 4 + if (y + 1) % 4 == 0 then 1 else 0
    ensures (y + 1) / 100 == y / 100 + if (y + 1) % 100 == 0 then 1 else 0
    ensures (y + 1) / 400 == y / 400 + if (y + 1) % 400 == 0 then 1 else 0
  {
  }

  lemma LeapRule(y: int)
    ensures (if Leap(y) then 1 else 0) == (if y % 4 == 0 then 1 else 0) - (if y % 100 == 0 then 1 else 0) + (if y % 400 == 0 then 1 else 0)
  {
    if y % 400 == 0 { DivModUnique(y, 100, 4 * (y / 400), 0); }
    if y % 100 == 0 { DivModUnique(y, 4, 25 * (y / 100), 0); }
  }

  lemma {:induction false} YearStartGrows(y: int, z: int)
    requires y <= z
    ensures YearStart(y) <= YearStart(z)
    decreases z - y
  {
    hide YearStart;
    if y < z {
      YearStartGrows(y, z - 1);
      YearStartStep(z - 1);
    }
  }

  lemma EarlierIsSooner(a: Civil, b: Civil)
    requires IsDate(a) && IsDate(b) && Earlier(a, b)
    ensures DaysOf(a) < DaysOf(b)
  {
    hide YearStart, DaysOf;
    DaysByMarch(a);
    DaysByMarch(b);
    MarchLeap(a);
    MarchLeap(b);
    var ya, yb := MarchYear(a), MarchYear(b);
    if ya < yb {
      YearStartStep(ya);
      YearStartGrows(ya + 1, yb);
    } else {
      MonthsInOrder(a, b);
    }
  }

  lemma MonthsInOrder(a: Civil, b: Civil)
    requires IsDate(a) && IsDate(b) && Earlier(a, b) && MarchYear(a) >= MarchYear(b)
    ensures MarchYear(a) == MarchYear(b) && MarchDay(a) < MarchDay(b)
  {
    hide MonthStart, Leap;
    MonthTable((a.month + 9) % 12);
    MonthTable((b.month + 9) % 12);
  }

  /** Dates order as their day numbers do. */
  lemma OrderIsDayOrder(a: Civil, b: Civil)
    requires IsDate(a) && IsDate(b)
    ensures Earlier(a, b) <==> DaysOf(a) < DaysOf(b)
  {
    if Earlier(a, b) {
      EarlierIsSooner(a, b);
    } else if Earlier(b, a) {
      EarlierIsSooner(b, a);
    }
  }

  // ----- encoded dates ------------------------------------------------------------------------

  function Decoded(date: int): Civil { Civil(Year(date), Month(date), Day(date)) }

  /** A date that the encoding can hold: valid, in year zero or later. */
  predicate IsEncoded(date: int) {
    date >= 0 && IsDate(Decoded(date))
  }

  lemma EncodedFields(c: Civil)
    requires IsDate(c) && c.year >= 0
    ensures Decoded(Encoded(c)) == c && IsEncoded(Encoded(c))
  {
    FieldsOf(c.year, c.month, c.day);
  }

  lemma FieldsOf(y: int, m: int, d: int)
    requires y >= 0 && 1 <= m <= 12 && 1 <= d <= 31
    ensures var date := y * 10000 + m * 100 + d;
            date >= 0 && Year(date) == y && Month(date) == m && Day(date) == d
  {
    var date := y * 10000 + m * 100 + d;
    assert date / 10000 == y && date / 100 == y * 100 + m;
    assert (y * 100 + m) / 100 == y;
  }

  lemma DecodedBack(date: int)
    requires IsEncoded(date)
    ensures Encoded(Decoded(date)) == date && Year(date) >= 0
  {
  }

  lemma EncodedOrder(a: Civil, b: Civil)
    requires IsDate(a) && IsDate(b)
    ensures Encoded(a) < Encoded(b) <==> Earlier(a, b)
  {
  }

  /** On dates of year zero or later the two conversions are mutually inverse, and the encoding orders
      dates as days. */
  lemma CalendarBijection(date: int, other: int, days: int)
    ensures IsEncoded(date) ==> DateFromDays(DaysOfDate(date)) == date
    ensures CivilFromDays(days).year >= 0 ==> IsEncoded(DateFromDays(days)) && DaysOfDate(DateFromDays(days)) == days
    ensures IsEncoded(date) && IsEncoded(other) ==> (date < other <==> DaysOfDate(date) < DaysOfDate(other))
  {
    hide DaysFromCivil, CivilFromDays, Encoded, Earlier;
    DaysRoundTrip(days);
    if CivilFromDays(days).year >= 0 {
      EncodedFields(CivilFromDays(days));
    }
    if IsEncoded(date) {
      DecodedBack(date);
      CivilRoundTrip(Decoded(date));
    }
    if IsEncoded(date) && IsEncoded(other) {
      DecodedBack(other);
      OrderIsDayOrder(Decoded(date), Decoded(other));
      EncodedOrder(Decoded(date), Decoded(other));
    }
  }

  /** Adding days composes, as long as the date in between can be encoded. */
  lemma AddDaysComposes(date: int, a: int, b: int)
    requires IsEncoded(date) && CivilFromDays(DaysOfDate(date) + a).year >= 0
    ensures AddDays(AddDays(date, a), b) == AddDays(date, a + b) && AddDays(date, 0) == date
  {
    hide DaysFromCivil, CivilFromDays, DateFromDays;
    CalendarBijection(date, date, DaysOfDate(date) + a);
  }

  /** The weekday advances by one a day. */
  lemma WeekdayAdvances(date: int)
    requires IsEncoded(date)
    ensures 0 <= WeekdayOf(date) <= 6 && WeekdayOf(AddDays(date, 1)) == (WeekdayOf(date) + 1) % 7
  {
    hide DaysOfDate, CivilFromDays, DateFromDays, TruncMod, IsEncoded;
    NextYearNonNegative(date);
    CalendarBijection(date, date, DaysOfDate(date) + 1);
    WeekdayStep(DaysOfDate(date));
  }

  lemma WeekdayStep(days: int)
    ensures var w := TruncMod(TruncMod(days + 4, 7) + 7, 7); w == (days + 4) % 7 && 0 <= w <= 6
    ensures TruncMod(TruncMod(days + 1 + 4, 7) + 7, 7) == ((days + 4) % 7 + 1) % 7
  {
    hide TruncMod;
    SignedRemainder(days + 4);
    SignedRemainder(days + 5);
    NextRemainder(days + 4);
  }

  lemma NextRemainder(x: int)
    ensures (x + 1) % 7 == (x % 7 + 1) % 7
  {
  }

  /** The two-step remainder is the mathematical one, whatever the sign. */
  lemma SignedRemainder(x: int)
    ensures TruncMod(TruncMod(x, 7) + 7, 7) == x % 7
  {
    var q, r := x / 7, x % 7;
    assert TruncMod(x, 7) == if x >= 0 || r == 0 then r else r - 7;
  }

  lemma NextYearNonNegative(date: int)
    requires IsEncoded(date)
    ensures CivilFromDays(DaysOfDate(date) + 1).year >= 0
  {
    hide DaysFromCivil, CivilFromDays, IsDate;
    var c := CivilFromDays(DaysOfDate(date) + 1);
    DaysRoundTrip(DaysOfDate(date) + 1);
    DecodedBack(date);
    OrderIsDayOrder(Decoded(date), c);
  }

  /** 1 January 1970 was a Thursday. */
  lemma EpochIsThursday()
    ensures DaysOfDate(19700101) == 0 && WeekdayOf(19700101) == 4
  {
    hide DaysFromCivil, Year, Month, Day, TruncMod;
    FieldsOf(1970, 1, 1);
    DaysByMarch(Civil(1970, 1, 1));
    WeekdayStep(0);
  }

  /** Wall-clock time is seconds since the epoch's midnight, less the distance from UTC: in India the epoch
      came at half past five in the morning. */
  lemma EpochWallClock(second: int, offset: int)
    ensures TimestampOf(19700101, second, offset) == (second - offset) * 1_000_000_000
    ensures TimestampOf(19700101, 5 * 3600 + 30 * 60, IST_OFFSET_SECONDS) == 0
  {
    hide DaysFromCivil, Year, Month, Day;
    EpochIsThursday();
  }

  /** And the same wall-clock time comes a day later the next day. */
  lemma NextDaySameTime(date: int, second: int, offset: int)
    requires IsEncoded(date) && CivilFromDays(DaysOfDate(date) + 1).year >= 0
    ensures TimestampOf(AddDays(date, 1), second, offset) == TimestampOf(date, second, offset) + 86400 * 1_000_000_000
  {
    hide DaysFromCivil, Year, Month, Day, CivilFromDays, Encoded;
    CalendarBijection(date, date, DaysOfDate(date) + 1);
  }

  // ----- waiting for a time of day ------------------------------------------------------------

  /** What waiting for a wall-clock time resolves to. */
  datatype Alarm = AtOrAfter(t: int) | Never

  predicate Rings(a: Alarm, now: int) {
    a.AtOrAfter? && now >= a.t
  }

  /** The first calendar date after `date`. */
  function NextSession(calendar: seq<int>, date: int): Option<int> {
    if calendar == [] then None
    else if calendar[0] > date then Some(calendar[0])
    else NextSession(calendar[1..], date)
  }

  /** Today if the time is still to come, else the same time at the next trading session, else never;
      without a calendar a time already past stays in the past. */
  function AlarmAt(now: int, date: int, secondOfDay: int, offset: int, calendar: Option<seq<int>>): Alarm {
    var today := TimestampOf(date, secondOfDay, offset);
    if now < today then AtOrAfter(today)
    else match calendar
      case None => AtOrAfter(today)
      case Some(dates) =>
        match NextSession(dates, date)
        case None => Never
        case Some(d) => AtOrAfter(TimestampOf(d, secondOfDay, offset))
  }

  /** Within the session's civil day. */
  predicate OnDay(now: int, date: int, offset: int) {
    TimestampOf(date, 0, offset) <= now < TimestampOf(date, 86400, offset)
  }

  lemma {:induction false} NextSessionMeaning(calendar: seq<int>, date: int)
    requires forall i, j :: 0 <= i < j < |calendar| ==> calendar[i] <= calendar[j]
    ensures match NextSession(calendar, date)
            case None => forall d :: d in calendar ==> d <= date
            case Some(d) => d in calendar && d > date && forall e :: e in calendar && e > date ==> d <= e
  {
    if calendar != [] {
      assert calendar == [calendar[0]] + calendar[1..];
      if calendar[0] <= date {
        NextSessionMeaning(calendar[1..], date);
      } else {
        forall e | e in calendar ensures calendar[0] <= e {
          var i :| 0 <= i < |calendar| && calendar[i] == e;
        }
      }
    }
  }

  /** A later valid date starts at least a day later. */
  lemma LaterDateLaterTime(date: int, later: int, secondOfDay: int, offset: int)
    requires IsEncoded(date) && IsEncoded(later) && date < later && 0 <= secondOfDay
    ensures TimestampOf(later, secondOfDay, offset) >= TimestampOf(date, 86400, offset)
  {
    hide DaysFromCivil;
    CalendarBijection(date, later, 0);
    assert DaysOfDate(later) >= DaysOfDate(date) + 1;
  }

  /** Waiting for a time of day returns a condition that already holds exactly when the time is past and
      there is no calendar to resolve it against; with one, it never fires at the instant it was made,
      and it resolves to the nearest later session. */
  lemma AlarmNeverSpins(now: int, date: int, secondOfDay: int, offset: int, calendar: Option<seq<int>>)
    requires IsEncoded(date) && OnDay(now, date, offset) && 0 <= secondOfDay < 86400
    requires calendar.Some? ==> forall i :: 0 <= i < |calendar.value| ==> IsEncoded(calendar.value[i])
    requires calendar.Some? ==> forall i, j :: 0 <= i < j < |calendar.value| ==> calendar.value[i] <= calendar.value[j]
    ensures Rings(AlarmAt(now, date, secondOfDay, offset, calendar), now) <==>
              calendar.None? && now >= TimestampOf(date, secondOfDay, offset)
    ensures calendar.None? || now < TimestampOf(date, secondOfDay, offset) ==>
              forall later :: Rings(AlarmAt(now, date, secondOfDay, offset, calendar), later) <==> later >= TimestampOf(date, secondOfDay, offset)
    ensures calendar.Some? && now >= TimestampOf(date, secondOfDay, offset) ==>
              match AlarmAt(now, date, secondOfDay, offset, calendar)
              case Never => forall d :: d in calendar.value ==> d <= date
              case AtOrAfter(t) => exists d :: d in calendar.value && d > date && t == TimestampOf(d, secondOfDay, offset)
                                               && forall e :: e in calendar.value && e > date ==> d <= e
  {
    hide TimestampOf, IsEncoded;
    if calendar.Some? {
      NextSessionMeaning(calendar.value, date);
      var next := NextSession(calendar.value, date);
      if next.Some? {
        LaterDateLaterTime(date, next.value, secondOfDay, offset);
      }
    }
  }
}
