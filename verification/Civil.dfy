/** Seconds since 1970 to a calendar date and time, against a calendar counted out year by year. */
module Civil {
  datatype DateTime = DateTime(year: int, month: nat, day: nat, hour: nat, minute: nat, second: nat)

  // ---- `civil_from_unix` ----

  function EraOf(z: nat): nat {
    z / 146097
  }

  function YearOfEra(doe: nat): int {
    (doe - doe / 1460 + doe / 36524 - doe / 146096) / 365
  }

  /** The first day of a March-based year within its era. */
  function YearOffset(yoe: int): int {
    365 * yoe + yoe / 4 - yoe / 100
  }

  function MonthIndex(doy: int): int {
    (5 * doy + 2) / 153
  }

  function DayOfMonth(doy: int): int {
    doy - (153 * MonthIndex(doy) + 2) / 5 + 1
  }

  function FromUnix(secs: nat): DateTime {
    var days, rem := secs / 86400, secs % 86400;
    var z := days + 719468;
    var doe := z - EraOf(z) * 146097;
    var yoe := YearOfEra(doe);
    YearOfEraIsRight(doe);
    var doy := doe - YearOffset(yoe);
    MonthIsRight(doy);
    var mp := MonthIndex(doy);
    var month := if mp < 10 then mp + 3 else mp - 9;
    var y := yoe + EraOf(z) * 400;
    DateTime(if month <= 2 then y + 1 else y, month, DayOfMonth(doy), rem / 3600, rem % 3600 / 60, rem % 60)
  }

  // ---- the reference calendar ----

  predicate Leap(year: int) {
    year % 4 == 0 && (year % 100 != 0 || year % 400 == 0)
  }

  function MonthLength(year: int, month: nat): nat {
    if month == 2 then (if Leap(year) then 29 else 28)
    else if month == 4 || month == 6 || month == 9 || month == 11 then 30
    else 31
  }

  /** Days from 1970 to the start of a year. */
  function YearStart(year: int): nat
    requires year >= 1970
    decreases year
  {
    if year == 1970 then 0 else YearStart(year - 1) + if Leap(year - 1) then 366 else 365
  }

  /** Days from the start of the year to the start of a month. */
  function MonthStart(year: int, month: nat): nat
    requires 1 <= month
    decreases month
  {
    if month == 1 then 0 else MonthStart(year, month - 1) + MonthLength(year, month - 1)
  }

  ghost predicate Valid(t: DateTime) {
    && t.year >= 1970 && 1 <= t.month <= 12 && 1 <= t.day <= MonthLength(t.year, t.month)
    && t.hour < 24 && t.minute < 60 && t.second < 60
  }

  function DayNumber(year: int, month: nat, day: nat): int
    requires year >= 1970 && 1 <= month
  {
    YearStart(year) + MonthStart(year, month) + day - 1
  }

  /** The seconds a date and time stand for. */
  function ToUnix(t: DateTime): int
    requires t.year >= 1970 && 1 <= t.month
  {
    DayNumber(t.year, t.month, t.day) * 86400 + t.hour * 3600 + t.minute * 60 + t.second
  }

  // ---- the arithmetic ----

  /** The day lies within the year found, whose 366th day exists only before a leap February. */
  lemma YearOfEraIsRight(doe: nat)
    requires doe < 146097
    ensures var yoe := YearOfEra(doe); var doy := doe - YearOffset(yoe);
            0 <= yoe < 400 && 0 <= doy <= 365 && (doy == 365 ==> Leap(yoe + 1))
  {
    var c := doe / 36524;
    if c < 4 {
      var r := doe - 36524 * c;
      var q := r / 1461;
      var s := r - 1461 * q;
      YearInCentury(doe, c, q, s);
    } else {
      assert doe == 146096;
      assert YearOfEra(146096) == 399;
    }
  }

  lemma YearInCentury(doe: nat, c: nat, q: nat, s: nat)
    requires c <= 3 && q <= 24 && s <= 1460 && (q == 24 ==> s < 1460) && doe == 36524 * c + 1461 * q + s
    ensures var yoe := YearOfEra(doe); var doy := doe - YearOffset(yoe);
            0 <= yoe < 400 && 0 <= doy <= 365 && (doy == 365 ==> Leap(yoe + 1))
  {
    var e := if 24 * c + q + s >= 1460 then 1 else 0;
    Quotients(doe, c, q, s, e);
    var t := (s - e) / 365;
    assert t <= 3;
    var yoe := 100 * c + 4 * q + t;
    YearParts(doe, c, q, s, e, t);
    OffsetParts(c, q, t);
  }

  lemma Quotients(doe: nat, c: nat, q: nat, s: nat, e: nat)
    requires c <= 3 && q <= 24 && s <= 1460 && (q == 24 ==> s < 1460) && doe == 36524 * c + 1461 * q + s
    requires e == if 24 * c + q + s >= 1460 then 1 else 0
    ensures doe / 1460 == 25 * c + q + e && doe / 36524 == c && doe / 146096 == 0
  {}

  lemma YearParts(doe: nat, c: nat, q: nat, s: nat, e: nat, t: nat)
    requires doe / 1460 == 25 * c + q + e && doe / 36524 == c && doe / 146096 == 0
    requires doe == 36524 * c + 1461 * q + s && e <= s && t == (s - e) / 365
    ensures YearOfEra(doe) == 100 * c + 4 * q + t
  {}

  lemma OffsetParts(c: nat, q: nat, t: nat)
    requires q <= 24 && t <= 3
    ensures YearOffset(100 * c + 4 * q + t) == 36524 * c + 1461 * q + 365 * t
  {}

  /** Months counted from March: the five-month rhythm of 31, 30, 31, 30, 31 days. */
  lemma MonthIsRight(doy: int)
    requires 0 <= doy <= 365
    ensures 0 <= MonthIndex(doy) <= 11 && 1 <= DayOfMonth(doy) <= 31
  {}

  lemma MonthFits(doy: int, year: int)
    requires 0 <= doy <= 365
    ensures
      var mp := MonthIndex(doy);
      var month := if mp < 10 then mp + 3 else mp - 9;
      DayOfMonth(doy) <= if month == 2 then doy - 336 else MonthLength(year, month)
  {}

  /** Days from 1970 to the first of March, in closed form. */
  function MarchDay(year: int): int {
    365 * year + year / 4 - year / 100 + year / 400 - 719468
  }

  lemma StepBy4(y: int)
    ensures y / 4 - (y - 1) / 4 == if y % 4 == 0 then 1 else 0
  {}

  lemma StepBy100(y: int)
    ensures y / 100 - (y - 1) / 100 == if y % 100 == 0 then 1 else 0
  {}

  lemma StepBy400(y: int)
    ensures y / 400 - (y - 1) / 400 == if y % 400 == 0 then 1 else 0
  {}

  lemma Nested(y: int)
    ensures y % 400 == 0 ==> y % 100 == 0
    ensures y % 100 == 0 ==> y % 4 == 0
  {}

  /** A year is 366 days long from March to March when it ends on a leap February. */
  lemma MarchStep(year: int)
    ensures MarchDay(year) == MarchDay(year - 1) + if Leap(year) then 366 else 365
  {
    StepBy4(year);
    StepBy100(year);
    StepBy400(year);
    Nested(year);
    var a, b, c := year / 4, year / 100, year / 400;
    var d, e, f := (year - 1) / 4, (year - 1) / 100, (year - 1) / 400;
    MarchStepSum(year, a, b, c, d, e, f);
  }

  lemma MarchStepSum(year: int, a: int, b: int, c: int, d: int, e: int, f: int)
    requires a == year / 4 && b == year / 100 && c == year / 400
    requires d == (year - 1) / 4 && e == (year - 1) / 100 && f == (year - 1) / 400
    ensures MarchDay(year) - MarchDay(year - 1) == 365 + (a - d) - (b - e) + (c - f)
  {}

  /** The closed form agrees with counting the years out. */
  lemma {:induction false} YearStartIs(year: int)
    requires year >= 1970
    ensures YearStart(year) == MarchDay(year - 1) + 306
    decreases year
  {
    if year > 1970 {
      YearStartIs(year - 1);
      MarchStep(year - 1);
    }
  }

  lemma MonthStartIs(year: int, mp: nat)
    requires mp <= 11
    ensures mp < 10 ==> MonthStart(year, mp + 3) == (153 * mp + 2) / 5 + if Leap(year) then 60 else 59
    ensures mp >= 10 ==> MonthStart(year, mp - 9) == (153 * mp + 2) / 5 - 306
  {
    assert MonthStart(year, 2) == 31;
    assert MonthStart(year, 3) == if Leap(year) then 60 else 59;
    assert MonthStart(year, 4) == MonthStart(year, 3) + 31;
    assert MonthStart(year, 5) == MonthStart(year, 3) + 61;
    assert MonthStart(year, 6) == MonthStart(year, 3) + 92;
    assert MonthStart(year, 7) == MonthStart(year, 3) + 122;
    assert MonthStart(year, 8) == MonthStart(year, 3) + 153;
    assert MonthStart(year, 9) == MonthStart(year, 3) + 184;
    assert MonthStart(year, 10) == MonthStart(year, 3) + 214;
    assert MonthStart(year, 11) == MonthStart(year, 3) + 245;
    assert MonthStart(year, 12) == MonthStart(year, 3) + 275;
  }

  /** A day of the March-based year y is the calendar day read off from it. */
  lemma DayReadOff(y: int, doy: int, year: int, month: nat)
    requires 0 <= doy <= 365
    requires month == if MonthIndex(doy) < 10 then MonthIndex(doy) + 3 else MonthIndex(doy) - 9
    requires year == (if month <= 2 then y + 1 else y) && year >= 1970
    ensures 1 <= month && DayNumber(year, month, DayOfMonth(doy)) == MarchDay(y) + doy
  {
    var mp := MonthIndex(doy);
    MonthIsRight(doy);
    MonthStartIs(year, mp);
    YearStartIs(year);
    MarchStep(year);
  }

  lemma EraSplits(yoe: nat, era: nat)
    requires yoe < 400
    ensures MarchDay(yoe + era * 400) == 146097 * era + YearOffset(yoe) - 719468
    ensures Leap(yoe + 1 + era * 400) == Leap(yoe + 1)
  {
    Shift4(yoe, era);
    Shift100(yoe, era);
    Shift400(yoe, era);
    Shift4(yoe + 1, era);
    Shift100(yoe + 1, era);
    Shift400(yoe + 1, era);
  }

  lemma Shift4(y: nat, era: nat)
    ensures (y + era * 400) / 4 == y / 4 + 100 * era && (y + era * 400) % 4 == y % 4
  {}

  lemma Shift100(y: nat, era: nat)
    ensures (y + era * 400) / 100 == y / 100 + 4 * era && (y + era * 400) % 100 == y % 100
  {}

  lemma Shift400(y: nat, era: nat)
    ensures (y + era * 400) / 400 == y / 400 + era && (y + era * 400) % 400 == y % 400
  {}

  // ---- the main results ----

  lemma DateIsRight(days: nat)
    ensures
      var z := days + 719468;
      var doe := z - EraOf(z) * 146097;
      var doy := doe - YearOffset(YearOfEra(doe));
      var y := YearOfEra(doe) + EraOf(z) * 400;
      && doe < 146097 && y >= 1969 && (MonthIndex(doy) < 10 ==> y >= 1970)
      && MarchDay(y) + doy == days && 0 <= doy <= 365 && (doy == 365 ==> Leap(y + 1))
  {
    var z := days + 719468;
    var doe := z - EraOf(z) * 146097;
    var yoe := YearOfEra(doe);
    YearOfEraIsRight(doe);
    hide YearOfEra, YearOffset, MarchDay, Leap, MonthIndex;
    EraSplits(yoe, EraOf(z));
    var doy := doe - YearOffset(yoe);
    var y := yoe + EraOf(z) * 400;
    assert MarchDay(y) + doy == days;
    NotBefore1970(y, doy);
  }

  lemma NotBefore1970(y: int, doy: int)
    requires MarchDay(y) + doy >= 0 && 0 <= doy <= 365
    ensures y >= 1969 && (MonthIndex(doy) < 10 ==> y >= 1970)
  {
    assert MarchDay(1969) == -306 && MarchDay(1968) == -671;
    if y < 1968 { MarchGrows(y, 1968); }
  }

  lemma {:induction false} MarchGrows(y: int, z: int)
    requires y <= z
    ensures MarchDay(y) <= MarchDay(z)
    decreases z - y
  {
    if y < z {
      MarchGrows(y, z - 1);
      MarchStep(z);
    }
  }

  /** Every second count gives a valid date and time, and that date and time stand for it. */
  lemma FromUnixIsRight(secs: nat)
    ensures Valid(FromUnix(secs)) && ToUnix(FromUnix(secs)) == secs
  {
    hide YearOfEra, YearOffset, MarchDay, MonthIndex, DayOfMonth, DayNumber, Leap, MonthLength;
    var days, rem := secs / 86400, secs % 86400;
    var z := days + 719468;
    var doe := z - EraOf(z) * 146097;
    var doy := doe - YearOffset(YearOfEra(doe));
    var y := YearOfEra(doe) + EraOf(z) * 400;
    var t := FromUnix(secs);
    DateIsRight(days);
    MonthIsRight(doy);
    DayReadOff(y, doy, t.year, t.month);
    assert t.day == DayOfMonth(doy);
    DayFits(y, doy, t.year, t.month);
    TimeOfDay(secs);
  }

  lemma DayFits(y: int, doy: int, year: int, month: nat)
    requires 0 <= doy <= 365 && (doy == 365 ==> Leap(y + 1))
    requires month == if MonthIndex(doy) < 10 then MonthIndex(doy) + 3 else MonthIndex(doy) - 9
    requires year == (if month <= 2 then y + 1 else y)
    ensures 1 <= DayOfMonth(doy) <= MonthLength(year, month)
  {
    MonthIsRight(doy);
    MonthFits(doy, year);
  }

  lemma TimeOfDay(secs: nat)
    ensures var rem := secs % 86400;
            rem / 3600 < 24 && rem % 3600 / 60 < 60 && rem % 60 < 60
            && secs == secs / 86400 * 86400 + rem / 3600 * 3600 + rem % 3600 / 60 * 60 + rem % 60
  {
    var rem := secs % 86400;
    MinutesOf(rem);
  }

  lemma MinutesOf(rem: nat)
    requires rem < 86400
    ensures rem / 3600 < 24 && rem % 3600 / 60 < 60 && rem == rem / 3600 * 3600 + rem % 3600 / 60 * 60 + rem % 60
  {
    var r := rem % 3600;
    assert r % 60 == rem % 60;
  }

  /** Earlier in the calendar. */
  predicate Before(t: DateTime, u: DateTime) {
    if t.year != u.year then t.year < u.year
    else if t.month != u.month then t.month < u.month
    else if t.day != u.day then t.day < u.day
    else t.hour * 3600 + t.minute * 60 + t.second < u.hour * 3600 + u.minute * 60 + u.second
  }

  lemma {:induction false} YearsGrow(y: int, z: int)
    requires 1970 <= y <= z
    ensures YearStart(y) <= YearStart(z)
    decreases z - y
  {
    if y < z { YearsGrow(y, z - 1); }
  }

  lemma {:induction false} MonthsGrow(year: int, m: nat, n: nat)
    requires 1 <= m <= n
    ensures MonthStart(year, m) <= MonthStart(year, n)
    decreases n - m
  {
    if m < n { MonthsGrow(year, m, n - 1); }
  }

  lemma YearHasItsDays(year: int)
    requires year >= 1970
    ensures YearStart(year) + MonthStart(year, 13) == YearStart(year + 1)
  {
    MonthStartIs(year, 9);
  }

  lemma LaterDayLaterNumber(t: DateTime, u: DateTime)
    requires Valid(t) && Valid(u) && (t.year, t.month, t.day) != (u.year, u.month, u.day) && Before(t, u)
    ensures DayNumber(t.year, t.month, t.day) < DayNumber(u.year, u.month, u.day)
  {
    hide MonthLength;
    MonthsGrow(t.year, t.month + 1, 13);
    if t.year < u.year {
      YearHasItsDays(t.year);
      YearsGrow(t.year + 1, u.year);
      MonthsGrow(u.year, 1, u.month);
    } else if t.month < u.month {
      MonthsGrow(t.year, t.month + 1, u.month);
    }
  }

  /** The count follows the calendar, so no two valid dates and times share a count. */
  lemma LaterDateLaterCount(t: DateTime, u: DateTime)
    requires Valid(t) && Valid(u) && Before(t, u)
    ensures ToUnix(t) < ToUnix(u)
  {
    hide DayNumber, MonthLength;
    if (t.year, t.month, t.day) != (u.year, u.month, u.day) { LaterDayLaterNumber(t, u); }
  }

  /** Later seconds give later dates and times. */
  lemma LaterSecondsLaterDate(s: nat, t: nat)
    ensures s < t <==> Before(FromUnix(s), FromUnix(t))
  {
    hide FromUnix, ToUnix, Valid;
    FromUnixIsRight(s);
    FromUnixIsRight(t);
    var a, b := FromUnix(s), FromUnix(t);
    if Before(a, b) { LaterDateLaterCount(a, b); }
    if Before(b, a) { LaterDateLaterCount(b, a); }
    if !Before(a, b) && !Before(b, a) { SameDate(a, b); }
  }

  lemma SameDate(t: DateTime, u: DateTime)
    requires Valid(t) && Valid(u) && !Before(t, u) && !Before(u, t)
    ensures t == u
  {}

  /** The date found is the only valid one standing for the count. */
  lemma OnlyDate(secs: nat, t: DateTime)
    requires Valid(t) && ToUnix(t) == secs
    ensures t == FromUnix(secs)
  {
    hide FromUnix, ToUnix, Valid;
    FromUnixIsRight(secs);
    var u := FromUnix(secs);
    if Before(t, u) { LaterDateLaterCount(t, u); }
    if Before(u, t) { LaterDateLaterCount(u, t); }
    SameDate(t, u);
  }
}
