/**
 `days_to_ymd` (crates/lasterm-agent/src/handler.rs): days since 1970-01-01 to a
 Gregorian date, in 64-bit unsigned arithmetic. The algorithm counts in years
 that start on March 1st, so that a leap day is the last day of its year.
 */
module CivilDate {
  datatype Date = Date(year: nat, month: nat, day: nat)

  // ----- the calendar

  predicate IsLeap(year: nat) {
    year % 4 == 0 && (year % 100 != 0 || year % 400 == 0)
  }

  function DaysInMonth(year: nat, month: nat): nat {
    if month == 2 then (if IsLeap(year) then 29 else 28)
    else if month == 4 || month == 6 || month == 9 || month == 11 then 30 else 31
  }

  predicate IsDate(d: Date) {
    1 <= d.month <= 12 && 1 <= d.day <= DaysInMonth(d.year, d.month)
  }

  function NextDay(d: Date): Date {
    if d.day < DaysInMonth(d.year, d.month) then Date(d.year, d.month, d.day + 1)
    else if d.month < 12 then Date(d.year, d.month + 1, 1)
    else Date(d.year + 1, 1, 1)
  }

  // ----- March years

  /** Days from March 1st of year 0 to March 1st of year `y`. */
  function YearStart(y: nat): int { 365 * y + y / 4 - y / 100 + y / 400 }

  /** The same inside one 400-year era. */
  function EraStart(yoe: int): int { 365 * yoe + yoe / 4 - yoe / 100 }

  function YearLength(y: nat): nat { if IsLeap(y + 1) then 366 else 365 }

  /** Days from March 1st to the first day of the month `mp` months later. */
  function MonthStart(mp: nat): nat { (153 * mp + 2) / 5 }

  /** The day `day` of the month `mp` months after March of year `y`. */
  function MonthDay(y: nat, mp: nat, day: nat): Date
    requires mp <= 11
  {
    Date(if mp < 10 then y else y + 1, if mp < 10 then mp + 3 else mp - 9, day)
  }

  function MonthLength(y: nat, mp: nat): int {
    (if mp < 11 then MonthStart(mp + 1) else YearLength(y)) - MonthStart(mp)
  }

  function DateOf(y: nat, doy: nat): Date
    requires doy < 366
  {
    MonthBounds(doy);
    var mp := (5 * doy + 2) / 153;
    MonthDay(y, mp, doy - MonthStart(mp) + 1)
  }

  lemma MonthBounds(doy: nat)
    requires doy < 366
    ensures var mp := (5 * doy + 2) / 153; mp <= 11 && MonthStart(mp) <= doy < MonthStart(mp + 1)
  {
  }

  lemma MonthIsUnique(doy: nat, mp: nat)
    requires doy < 366 && mp <= 11 && MonthStart(mp) <= doy < MonthStart(mp + 1)
    ensures (5 * doy + 2) / 153 == mp
  {
  }

  /** The month table is the calendar's, with February last. */
  lemma MonthsAreRight(y: nat, mp: nat)
    requires mp <= 11
    ensures var d := MonthDay(y, mp, 1); 1 <= d.month <= 12 && MonthLength(y, mp) == DaysInMonth(d.year, d.month)
    ensures MonthLength(y, mp) <= MonthStart(mp + 1) - MonthStart(mp)
  {
  }

  lemma DateOfMonthDay(y: nat, mp: nat, day: nat)
    requires mp <= 11 && 1 <= day <= MonthLength(y, mp)
    ensures MonthStart(mp) + day - 1 < YearLength(y)
    ensures DateOf(y, MonthStart(mp) + day - 1) == MonthDay(y, mp, day)
  {
    MonthsAreRight(y, mp);
    MonthFitsYear(y, mp);
    MonthIsUnique(MonthStart(mp) + day - 1, mp);
  }

  lemma MonthFitsYear(y: nat, mp: nat)
    requires mp <= 11
    ensures MonthStart(mp) + MonthLength(y, mp) <= YearLength(y)
  {
  }

  /** Every day of a March year is a day of one of its months. */
  lemma MonthDayOf(y: nat, doy: nat) returns (mp: nat, day: nat)
    requires doy < YearLength(y)
    ensures mp <= 11 && 1 <= day <= MonthLength(y, mp) && doy == MonthStart(mp) + day - 1
    ensures DateOf(y, doy) == MonthDay(y, mp, day)
  {
    MonthBounds(doy);
    mp := (5 * doy + 2) / 153;
    day := doy - MonthStart(mp) + 1;
  }

  lemma By4(n: nat, q: nat, r: nat)
    requires n == 4 * q + r && r < 4
    ensures n / 4 == q && n % 4 == r
  {
  }

  lemma By100(n: nat, q: nat, r: nat)
    requires n == 100 * q + r && r < 100
    ensures n / 100 == q && n % 100 == r
  {
  }

  lemma By400(n: nat, q: nat, r: nat)
    requires n == 400 * q + r && r < 400
    ensures n / 400 == q && n % 400 == r
  {
  }

  lemma Quotients(y: nat)
    ensures (y + 1) / 4 == y / 4 + if (y + 1) % 4 == 0 then 1 else 0
    ensures (y + 1) / 100 == y / 100 + if (y + 1) % 100 == 0 then 1 else 0
    ensures (y + 1) / 400 == y / 400 + if (y + 1) % 400 == 0 then 1 else 0
  {
    if y % 4 < 3 { By4(y + 1, y / 4, y % 4 + 1); } else { By4(y + 1, y / 4 + 1, 0); }
    if y % 100 < 99 { By100(y + 1, y / 100, y % 100 + 1); } else { By100(y + 1, y / 100 + 1, 0); }
    if y % 400 < 399 { By400(y + 1, y / 400, y % 400 + 1); } else { By400(y + 1, y / 400 + 1, 0); }
  }

  lemma YearStartStep(y: nat)
    ensures YearStart(y + 1) == YearStart(y) + YearLength(y)
  {
    Quotients(y);
    LeapRules(y + 1);
  }

  lemma LeapRules(n: nat)
    ensures n % 400 == 0 ==> n % 100 == 0
    ensures n % 100 == 0 ==> n % 4 == 0
  {
    if n % 400 == 0 { By100(n, 4 * (n / 400), 0); }
    if n % 100 == 0 { By4(n, 25 * (n / 100), 0); }
  }

  lemma {:induction false} YearStartGrows(y: nat, z: nat)
    requires y < z
    ensures YearStart(y) + YearLength(y) <= YearStart(z)
    decreases z
  {
    YearStartStep(z - 1);
    if y < z - 1 { YearStartGrows(y, z - 1); }
  }

  /** A day number determines its March year and the day in it. */
  lemma MarchYearIsUnique(y: nat, doy: nat, y': nat, doy': nat)
    requires doy < YearLength(y) && doy' < YearLength(y') && YearStart(y) + doy == YearStart(y') + doy'
    ensures y == y' && doy == doy'
  {
    if y < y' { YearStartGrows(y, y'); } else if y' < y { YearStartGrows(y', y); }
  }

  // ----- the algorithm

  function YearOfEra(doe: nat): int { (doe - doe / 1460 + doe / 36524 - doe / 146096) / 365 }

  /** Day `r` of century `b`: the last century has one day more. */
  lemma CenturyOf(b: nat, r: nat)
    requires b <= 3 && r <= 36524 && (r == 36524 ==> b == 3)
    ensures (36524 * b + r) / 36524 - (36524 * b + r) / 146096 == b
  {
    if b == 3 && r == 36524 {
      assert (36524 * b + r) / 36524 == 4 && (36524 * b + r) / 146096 == 1;
    } else {
      assert (36524 * b + r) / 36524 == b && (36524 * b + r) / 146096 == 0;
    }
  }

  /** A day of the era by century, four-year cycle, year and day. */
  lemma YearOfEraAt(b: nat, k: nat, j: nat, doy: nat)
    requires b <= 3 && k <= 24 && j <= 3 && doy <= 365
    requires doy == 365 ==> j == 3 && (k < 24 || b == 3)
    ensures YearOfEra(36524 * b + 1461 * k + 365 * j + doy) == 100 * b + 4 * k + j
  {
    var doe := 36524 * b + 1461 * k + 365 * j + doy;
    var s := 24 * b + k + 365 * j + doy;
    var e := if s >= 1460 then 1 else 0;
    assert doe == 1460 * (25 * b + k) + s;
    assert doe / 1460 == 25 * b + k + e;
    CenturyOf(b, 1461 * k + 365 * j + doy);
    assert doe == 36524 * b + (1461 * k + 365 * j + doy);
    assert doe - doe / 1460 + doe / 36524 - doe / 146096 == 365 * (100 * b + 4 * k + j) + (doy - e);
  }

  lemma YearStartInEra(era: nat, b: nat, k: nat, j: nat)
    requires b <= 3 && k <= 24 && j <= 3
    ensures YearStart(400 * era + (100 * b + 4 * k + j)) == 146097 * era + 36524 * b + 1461 * k + 365 * j
    ensures EraStart(100 * b + 4 * k + j) == 36524 * b + 1461 * k + 365 * j
    ensures IsLeap(400 * era + (100 * b + 4 * k + j) + 1) <==> j == 3 && (k < 24 || b == 3)
  {
    var yoe := 100 * b + 4 * k + j;
    var y := 400 * era + yoe;
    By4(yoe, 25 * b + k, j);
    By100(yoe, b, 4 * k + j);
    By4(y, 100 * era + 25 * b + k, j);
    By100(y, 4 * era + b, 4 * k + j);
    By400(y, era, yoe);
    LeapInEra(era, b, k, j);
  }

  lemma LeapInEra(era: nat, b: nat, k: nat, j: nat)
    requires b <= 3 && k <= 24 && j <= 3
    ensures IsLeap(400 * era + (100 * b + 4 * k + j) + 1) <==> j == 3 && (k < 24 || b == 3)
  {
    var n := 400 * era + (100 * b + 4 * k + j) + 1;
    if j < 3 {
      By4(n, 100 * era + 25 * b + k, j + 1);
    } else {
      By4(n, 100 * era + 25 * b + k + 1, 0);
      if k < 24 {
        By100(n, 4 * era + b, 4 * k + 4);
      } else {
        By100(n, 4 * era + b + 1, 0);
        if b < 3 { By400(n, era, 100 * b + 100); } else { By400(n, era + 1, 0); }
      }
    }
  }

  lemma DayOfEraSplits(doe: nat) returns (b: nat, k: nat, j: nat, doy: nat)
    requires doe < 146097
    ensures b <= 3 && k <= 24 && j <= 3 && doy <= 365
    ensures doe == 36524 * b + 1461 * k + 365 * j + doy
    ensures doy == 365 ==> j == 3 && (k < 24 || b == 3)
  {
    b := if doe < 146096 then doe / 36524 else 3;
    var r := doe - 36524 * b;
    k := r / 1461;
    var t := r - 1461 * k;
    j := if t < 1460 then t / 365 else 3;
    doy := t - 365 * j;
  }

  const EPOCH: nat := 719468

  function MarchYear(days: nat): int {
    var z := days + EPOCH;
    YearOfEra(z % 146097) + z / 146097 * 400
  }

  function DayOfMarchYear(days: nat): int {
    var doe := (days + EPOCH) % 146097;
    var yoe := YearOfEra(doe);
    doe - EraStart(yoe)
  }

  /** The closed formulas find the March year of a day and its place in it. */
  lemma {:induction false} FormulasAreRight(days: nat)
    ensures MarchYear(days) >= 0 && 0 <= DayOfMarchYear(days) < YearLength(MarchYear(days))
    ensures YearStart(MarchYear(days)) + DayOfMarchYear(days) == days + EPOCH
  {
    var era, doe := (days + EPOCH) / 146097, (days + EPOCH) % 146097;
    assert days + EPOCH == 146097 * era + doe;
    var b, k, j, doy := DayOfEraSplits(doe);
    YearOfEraAt(b, k, j, doy);
    YearStartInEra(era, b, k, j);
    assert MarchYear(days) == 400 * era + (100 * b + 4 * k + j);
    assert DayOfMarchYear(days) == doy;
  }

  function DaysToYmd(days: nat): Date {
    FormulasAreRight(days);
    DateOf(MarchYear(days), DayOfMarchYear(days))
  }

  /** The standard inverse: days since 1970-01-01 of a date. */
  function CivilToDays(d: Date): int
    requires IsDate(d) && d.year > 0
  {
    YearStart(if d.month <= 2 then d.year - 1 else d.year)
    + MonthStart(if d.month > 2 then d.month - 3 else d.month + 9) + d.day - 1 - EPOCH
  }

  lemma DateOfIsDate(y: nat, doy: nat)
    requires doy < YearLength(y)
    ensures IsDate(DateOf(y, doy))
  {
    var mp, day := MonthDayOf(y, doy);
    MonthsAreRight(y, mp);
  }

  lemma NextDayInYear(y: nat, doy: nat)
    requires doy + 1 < YearLength(y)
    ensures DateOf(y, doy + 1) == NextDay(DateOf(y, doy))
  {
    var mp, day := MonthDayOf(y, doy);
    MonthsAreRight(y, mp);
    if day < MonthLength(y, mp) {
      DateOfMonthDay(y, mp, day + 1);
    } else {
      MonthsAreRight(y, mp + 1);
      DateOfMonthDay(y, mp + 1, 1);
    }
  }

  lemma NextDayAcrossYears(y: nat)
    ensures DateOf(y + 1, 0) == NextDay(DateOf(y, YearLength(y) - 1))
  {
    MonthsAreRight(y, 11);
    DateOfMonthDay(y, 11, MonthLength(y, 11));
    DateOfMonthDay(y + 1, 0, 1);
  }

  lemma InverseOfDateOf(y: nat, doy: nat)
    requires doy < YearLength(y)
    ensures IsDate(DateOf(y, doy)) && (DateOf(y, doy).year > 0 ==> CivilToDays(DateOf(y, doy)) == YearStart(y) + doy - EPOCH)
  {
    DateOfIsDate(y, doy);
    var mp, day := MonthDayOf(y, doy);
  }

  /** Day number `days` is day `doy` of March year `y`. */
  predicate Located(days: nat, y: nat, doy: nat) {
    doy < YearLength(y) && YearStart(y) + doy == days + EPOCH
  }

  lemma Locate(days: nat) returns (y: nat, doy: nat)
    ensures Located(days, y, doy) && DaysToYmd(days) == DateOf(y, doy)
  {
    FormulasAreRight(days);
    y, doy := MarchYear(days), DayOfMarchYear(days);
  }

  lemma LocationGivesDate(days: nat, y: nat, doy: nat)
    requires Located(days, y, doy)
    ensures DaysToYmd(days) == DateOf(y, doy)
  {
    var y', doy' := Locate(days);
    MarchYearIsUnique(y, doy, y', doy');
  }

  lemma NextLocation(y: nat, doy: nat) returns (y': nat, doy': nat)
    requires doy < YearLength(y)
    ensures doy' < YearLength(y') && YearStart(y') + doy' == YearStart(y) + doy + 1
    ensures DateOf(y', doy') == NextDay(DateOf(y, doy))
  {
    if doy + 1 < YearLength(y) {
      NextDayInYear(y, doy);
      y', doy' := y, doy + 1;
    } else {
      NextDayAcrossYears(y);
      YearStartStep(y);
      y', doy' := y + 1, 0;
    }
  }

  lemma {:induction false} EpochDate()
    ensures DaysToYmd(0) == Date(1970, 1, 1)
  {
    assert MonthStart(10) == 306;
    DateOfMonthDay(1969, 10, 1);
    LocationGivesDate(0, 1969, 306);
  }

  /** Every further day is the next calendar day, which together with the epoch
      determines the function on all day counts. */
  lemma {:induction false} CountsCalendarDays(days: nat)
    ensures IsDate(DaysToYmd(days)) && DaysToYmd(days + 1) == NextDay(DaysToYmd(days))
  {
    var y, doy := Locate(days);
    DateOfIsDate(y, doy);
    var y', doy' := NextLocation(y, doy);
    LocationGivesDate(days + 1, y', doy');
  }

  /** `CivilToDays` undoes the conversion, and the conversion undoes it on every date from the epoch on. */
  lemma InverseOnDays()
    ensures forall days: nat ::
      IsDate(DaysToYmd(days)) && DaysToYmd(days).year > 0 && CivilToDays(DaysToYmd(days)) == days
  {
    forall days: nat
      ensures IsDate(DaysToYmd(days)) && DaysToYmd(days).year > 0 && CivilToDays(DaysToYmd(days)) == days
    {
      var y, doy := Locate(days);
      InverseOfDateOf(y, doy);
    }
  }

  lemma DateHasLocation(d: Date) returns (y: nat, doy: nat)
    requires IsDate(d) && d.year > 0
    ensures doy < YearLength(y) && DateOf(y, doy) == d && CivilToDays(d) == YearStart(y) + doy - EPOCH
  {
    y := if d.month <= 2 then d.year - 1 else d.year;
    var mp := if d.month > 2 then d.month - 3 else d.month + 9;
    MonthsAreRight(y, mp);
    DateOfMonthDay(y, mp, d.day);
    doy := MonthStart(mp) + d.day - 1;
  }

  lemma InverseOnDates()
    ensures forall d: Date :: IsDate(d) && d.year > 0 && CivilToDays(d) >= 0 ==> DaysToYmd(CivilToDays(d)) == d
  {
    forall d: Date | IsDate(d) && d.year > 0 && CivilToDays(d) >= 0
      ensures DaysToYmd(CivilToDays(d)) == d
    {
      var y, doy := DateHasLocation(d);
      LocationGivesDate(CivilToDays(d), y, doy);
    }
  }

  // ----- machine arithmetic

  newtype u64 = x: int | 0 <= x < 0x1_0000_0000_0000_0000

  lemma DayOf400Years(days: nat)
    requires days + EPOCH < 0x1_0000_0000_0000_0000
    ensures var era, doe := (days + EPOCH) / 146097, (days + EPOCH) % 146097;
            && era < 0x1_0000_0000_0000 && doe < 146097
            && doe / 1460 <= 100 && doe / 36524 <= 4 && doe / 146096 <= 1
    ensures 0 <= DayOfMarchYear(days) < 366 && Located(days, MarchYear(days), DayOfMarchYear(days))
  {
    FormulasAreRight(days);
  }

  method YearPart64(days: u64) returns (y: u64, doy: u64)
    requires days as int + EPOCH < 0x1_0000_0000_0000_0000
    ensures Located(days as nat, y as nat, doy as nat) && doy < 366
    ensures y < 0x1000_0000_0000_0000
  {
    hide Located, YearStart, YearLength;
    DayOf400Years(days as nat);
    var z := days + 719468;
    var era := z / 146097;
    var doe := z % 146097;
    YearOfEraInRange(doe as nat);
    var yoe := (doe - doe / 1460 + doe / 36524 - doe / 146096) / 365;
    y := yoe + era * 400;
    doy := doe - (365 * yoe + yoe / 4 - yoe / 100);
  }

  /** Every intermediate value fits 64 unsigned bits for every day count whose shift to
      the year-0 epoch fits; seconds since the epoch divided by 86400 always do. */
  method DaysToYmd64(days: u64) returns (y: u64, m: u64, d: u64)
    requires days as int + EPOCH < 0x1_0000_0000_0000_0000
    ensures Date(y as nat, m as nat, d as nat) == DaysToYmd(days as nat)
  {
    var marchYear, doy := YearPart64(days);
    LocationGivesDate(days as nat, marchYear as nat, doy as nat);
    MonthBounds(doy as nat);
    var mp := (5 * doy + 2) / 153;
    d := doy - (153 * mp + 2) / 5 + 1;
    m := if mp < 10 then mp + 3 else mp - 9;
    y := if m <= 2 then marchYear + 1 else marchYear;
  }

  lemma YearOfEraInRange(doe: nat)
    requires doe < 146097
    ensures 0 <= YearOfEra(doe) <= 399 && YearOfEra(doe) == (doe - doe / 1460 + doe / 36524 - doe / 146096) / 365
  {
    var b, k, j, doy := DayOfEraSplits(doe);
    YearOfEraAt(b, k, j, doy);
  }

  lemma PartOfHour(secs: nat, hours: nat, rest: nat)
    requires secs == 3600 * hours + rest && rest < 3600
    ensures secs % 3600 == rest
  {
  }

  lemma PartOfMinute(secs: nat, minutes: nat, rest: nat)
    requires secs == 60 * minutes + rest && rest < 60
    ensures secs % 60 == rest
  {
  }

  lemma ClockFields(secs: nat)
    ensures secs % 86400 / 3600 < 24 && secs % 3600 / 60 < 60 && secs % 60 < 60
    ensures secs / 86400 * 86400 + secs % 86400 / 3600 * 3600 + secs % 3600 / 60 * 60 + secs % 60 == secs
  {
    var q, r := secs / 86400, secs % 86400;
    var h, t := r / 3600, r % 3600;
    PartOfHour(secs, 24 * q + h, t);
    PartOfMinute(secs, 1440 * q + 60 * h + t / 60, t % 60);
  }

  /** The clock fields of `iso_now`: together with the date they determine the second. */
  method IsoFields(secs: u64) returns (date: Date, hours: u64, minutes: u64, seconds: u64)
    ensures IsDate(date) && date.year > 0 && hours < 24 && minutes < 60 && seconds < 60
    ensures CivilToDays(date) * 86400 + hours as int * 3600 + minutes as int * 60 + seconds as int == secs as int
  {
    ClockFields(secs as nat);
    hours := (secs % 86400) / 3600;
    minutes := (secs % 3600) / 60;
    seconds := secs % 60;
    var y, m, d := DaysToYmd64(secs / 86400);
    date := Date(y as nat, m as nat, d as nat);
    InverseOnDays();
  }
}
