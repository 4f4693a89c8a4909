/** Day numbers as civil dates, and the timestamps a listing shows. */
module Calendar {
  import opened Bytes

  // ---- the proleptic Gregorian calendar (section 3.2.1 of ISO 8601:2004) -----

  datatype Date = Date(year: int, month: int, day: int)

  predicate IsLeap(y: int) {
    y % 4 == 0 && (y % 100 != 0 || y % 400 == 0)
  }

  function DaysInMonth(y: int, m: int): int {
    if m == 2 then (if IsLeap(y) then 29 else 28)
    else if m == 4 || m == 6 || m == 9 || m == 11 then 30
    else 31
  }

  predicate IsDate(d: Date) {
    1 <= d.month <= 12 && 1 <= d.day <= DaysInMonth(d.year, d.month)
  }

  function NextDay(d: Date): Date {
    if d.day < DaysInMonth(d.year, d.month) then Date(d.year, d.month, d.day + 1)
    else if d.month < 12 then Date(d.year, d.month + 1, 1)
    else Date(d.year + 1, 1, 1)
  }

  /** Days from 0001-01-01 to the first of January of `y`. */
  function DaysBeforeYear(y: int): int {
    365 * (y - 1) + (y - 1) / 4 - (y - 1) / 100 + (y - 1) / 400
  }

  function DaysBeforeMonth(y: int, m: int): int {
    if m <= 1 then 0 else DaysBeforeMonth(y, m - 1) + DaysInMonth(y, m - 1)
  }

  /** Days since 1970-01-01. */
  function DaysFromCivil(d: Date): int {
    DaysBeforeYear(d.year) + DaysBeforeMonth(d.year, d.month) + d.day - 1 - 719_162
  }

  // ---- civil_from_days ---------------------------------------------------------

  /** The source's `/`, which truncates toward zero. */
  function Quot(a: int, b: int): int
    requires b > 0
  {
    if a >= 0 then a / b else -(-a / b)
  }

  /** Years of 365 days and a bit, counted from a first of March. */
  function YearOfEra(doe: int): int {
    (doe - doe / 1460 + doe / 36_524 - doe / 146_096) / 365
  }

  function MonthFromMarch(doy: int): int { (5 * doy + 2) / 153 }

  function MonthStart(mp: int): int { (153 * mp + 2) / 5 }

  function CivilFromDays(day: int): Date {
    var z := day + 719_468;
    CivilInEra(EraOf(z), z - EraOf(z) * 146_097)
  }

  /** The era a day falls in: 400 years, 146,097 days. */
  function EraOf(z: int): int {
    Quot(if z >= 0 then z else z - 146_096, 146_097)
  }

  function CivilInEra(era: int, doe: int): Date {
    var yoe := YearOfEra(doe);
    var doy := doe - (365 * yoe + yoe / 4 - yoe / 100);
    var mp := MonthFromMarch(doy);
    var month := if mp < 10 then mp + 3 else mp - 9;
    Date(yoe + era * 400 + (if month <= 2 then 1 else 0), month, doy - MonthStart(mp) + 1)
  }

  // ---- it is the calendar --------------------------------------------------------

  lemma EraIsFloor(z: int)
    ensures 0 <= z - EraOf(z) * 146_097 < 146_097
  {}

  /** Days from the first of March of year 0 to that of year `y`. */
  function MarchStart(y: int): int {
    365 * y + y / 4 - y / 100 + y / 400
  }

  /** Of `y`, `d`, the day is in the year that starts in March of `y`. */
  predicate InMarchYear(y: int, doy: int) {
    0 <= doy <= 365 && (doy == 365 ==> IsLeap(y + 1))
  }

  lemma YearOfEraSplit(c: int, q: int, r: int, doy: int)
    requires 0 <= c <= 3 && 0 <= q <= 24 && 0 <= r <= 3 && 0 <= doy <= 365
    requires doy == 365 ==> r == 3 && (q < 24 || c == 3)
    ensures YearOfEra(36_524 * c + 1461 * q + 365 * r + doy) == 100 * c + 4 * q + r
  {
    var doe := 36_524 * c + 1461 * q + 365 * r + doy;
    var over := 24 * c + q + 365 * r + doy;
    assert doe == 1460 * (25 * c + q) + over && 0 <= over < 2920;
    var e := if over >= 1460 then 1 else 0;
    assert doe / 1460 == 25 * c + q + e;
    var last := if doe == 146_096 then 1 else 0;
    assert doe / 36_524 == c + last && doe / 146_096 == last;
    assert doe - doe / 1460 + doe / 36_524 - doe / 146_096 == 365 * (100 * c + 4 * q + r) + doy - e;
    assert 0 <= doy - e < 365;
  }

  /** Centuries, four-year cycles, years and days of an era. */
  lemma SplitEra(doe: int) returns (c: int, q: int, r: int, doy: int)
    requires 0 <= doe < 146_097
    ensures 0 <= c <= 3 && 0 <= q <= 24 && 0 <= r <= 3 && 0 <= doy <= 365
    ensures doy == 365 ==> r == 3 && (q < 24 || c == 3)
    ensures doe == 36_524 * c + 1461 * q + 365 * r + doy
  {
    c := if doe / 36_524 > 3 then 3 else doe / 36_524;
    var rest := doe - 36_524 * c;
    q := rest / 1461;
    var left := rest - 1461 * q;
    r := if left / 365 > 3 then 3 else left / 365;
    doy := left - 365 * r;
  }

  lemma YearParts(c: int, q: int, r: int)
    requires 0 <= c <= 3 && 0 <= q <= 24 && 0 <= r <= 3
    ensures var y := 100 * c + 4 * q + r;
            && 0 <= y <= 399 && y / 4 == 25 * c + q && y / 100 == c
            && (r == 3 && (q < 24 || c == 3) ==> IsLeap(y + 1))
  {}

  /** The year found is the one the day is in. */
  lemma YearOfEraIsTheYear(doe: int)
    requires 0 <= doe < 146_097
    ensures var y := YearOfEra(doe);
            0 <= y <= 399 && InMarchYear(y, doe - (365 * y + y / 4 - y / 100))
  {
    var c, q, r, doy := SplitEra(doe);
    YearOfEraSplit(c, q, r, doy);
    YearParts(c, q, r);
  }

  lemma By4(n: int, q: int, r: int)
    requires n == 4 * q + r && 0 <= r < 4
    ensures n / 4 == q && n % 4 == r
  {}

  lemma By100(n: int, q: int, r: int)
    requires n == 100 * q + r && 0 <= r < 100
    ensures n / 100 == q && n % 100 == r
  {}

  lemma By400(n: int, q: int, r: int)
    requires n == 400 * q + r && 0 <= r < 400
    ensures n / 400 == q && n % 400 == r
  {}

  /** Adding whole eras adds whole quotients and leaves the remainders. */
  lemma EraQuotients(y: int, era: int)
    ensures (y + era * 400) / 4 == y / 4 + era * 100 && (y + era * 400) % 4 == y % 4
    ensures (y + era * 400) / 100 == y / 100 + era * 4 && (y + era * 400) % 100 == y % 100
    ensures (y + era * 400) / 400 == y / 400 + era && (y + era * 400) % 400 == y % 400
  {
    By4(y + era * 400, y / 4 + era * 100, y % 4);
    By100(y + era * 400, y / 100 + era * 4, y % 100);
    By400(y + era * 400, y / 400 + era, y % 400);
  }

  lemma EraShift(yoe: int, era: int)
    requires 0 <= yoe <= 399
    ensures MarchStart(yoe + era * 400) == era * 146_097 + 365 * yoe + yoe / 4 - yoe / 100
    ensures IsLeap(yoe + era * 400 + 1) <==> IsLeap(yoe + 1)
  {
    EraQuotients(yoe, era);
    EraQuotients(yoe + 1, era);
  }

  lemma MonthIsTheMonth(doy: int)
    requires 0 <= doy <= 365
    ensures var mp := MonthFromMarch(doy);
            0 <= mp <= 11 && MonthStart(mp) <= doy && (mp < 11 ==> doy < MonthStart(mp + 1))
  {}

  lemma MarchStartIs(y: int)
    ensures MarchStart(y) == DaysBeforeYear(y + 1)
    ensures MarchStart(y) == DaysBeforeYear(y) + 365 + if IsLeap(y) then 1 else 0
  {
    EveryFour(y);
    EveryHundred(y);
    EveryFourHundred(y);
    LeapByCounts(y);
  }

  lemma EveryFour(y: int)
    ensures y / 4 == (y - 1) / 4 + if y % 4 == 0 then 1 else 0
  {}

  lemma EveryHundred(y: int)
    ensures y / 100 == (y - 1) / 100 + if y % 100 == 0 then 1 else 0
  {}

  lemma EveryFourHundred(y: int)
    ensures y / 400 == (y - 1) / 400 + if y % 400 == 0 then 1 else 0
  {}

  lemma HundredthIsFourth(y: int)
    ensures y % 100 == 0 ==> y % 4 == 0
  {
    if y % 100 == 0 {
      assert y == 4 * (25 * (y / 100));
    }
  }

  lemma FourHundredthIsHundredth(y: int)
    ensures y % 400 == 0 ==> y % 100 == 0
  {
    if y % 400 == 0 {
      assert y == 100 * (4 * (y / 400));
    }
  }

  lemma LeapByCounts(y: int)
    ensures (if IsLeap(y) then 1 else 0)
         == (if y % 4 == 0 then 1 else 0) - (if y % 100 == 0 then 1 else 0) + (if y % 400 == 0 then 1 else 0)
  {
    HundredthIsFourth(y);
    FourHundredthIsHundredth(y);
  }

  lemma MonthTable(y: int)
    ensures DaysBeforeMonth(y, 1) == 0 && DaysBeforeMonth(y, 2) == 31
    ensures forall mp | 0 <= mp <= 9 ::
              DaysBeforeMonth(y, mp + 3) == 59 + MonthStart(mp) + if IsLeap(y) then 1 else 0
  {
    assert DaysBeforeMonth(y, 2) == DaysBeforeMonth(y, 1) + 31;
    var mp := 0;
    while mp < 9
      invariant 0 <= mp <= 9
      invariant forall k | 0 <= k <= mp ::
                  DaysBeforeMonth(y, k + 3) == 59 + MonthStart(k) + if IsLeap(y) then 1 else 0
    {
      assert DaysInMonth(y, mp + 3) == MonthStart(mp + 1) - MonthStart(mp);
      mp := mp + 1;
    }
  }

  /** The civil year and month of month `mp` of the year that starts in March
      of `y`. */
  function MarchDate(y: int, mp: int, d: int): Date {
    if mp < 10 then Date(y, mp + 3, d) else Date(y + 1, mp - 9, d)
  }

  /** The March-based and the January-based count of a date agree. */
  lemma CountsAgree(y: int, mp: int, d: int)
    requires 0 <= mp <= 11
    ensures DaysFromCivil(MarchDate(y, mp, d)) == MarchStart(y) + MonthStart(mp) + d - 1 - 719_468
  {
    MarchStartIs(y);
    if mp < 10 {
      MonthTable(y);
      assert DaysBeforeMonth(y, mp + 3) == 59 + MonthStart(mp) + if IsLeap(y) then 1 else 0;
    } else {
      MonthTable(y + 1);
    }
  }

  lemma MonthLength(y: int, mp: int)
    requires 0 <= mp < 11
    ensures var d := MarchDate(y, mp, 1); DaysInMonth(d.year, d.month) == MonthStart(mp + 1) - MonthStart(mp)
  {}

  lemma CivilInEraIsTheDate(era: int, doe: int)
    requires 0 <= doe < 146_097
    ensures IsDate(CivilInEra(era, doe)) && DaysFromCivil(CivilInEra(era, doe)) == era * 146_097 + doe - 719_468
  {
    YearOfEraIsTheYear(doe);
    var yoe := YearOfEra(doe);
    var doy := doe - (365 * yoe + yoe / 4 - yoe / 100);
    EraShift(yoe, era);
    MonthIsTheMonth(doy);
    var mp := MonthFromMarch(doy);
    var y, d := yoe + era * 400, doy - MonthStart(mp) + 1;
    assert CivilInEra(era, doe) == MarchDate(y, mp, d);
    CountsAgree(y, mp, d);
    if mp < 11 {
      MonthLength(y, mp);
    }
  }

  lemma EraOfDay(day: int) returns (era: int, doe: int)
    ensures 0 <= doe < 146_097 && era * 146_097 + doe == day + 719_468
    ensures CivilFromDays(day) == CivilInEra(era, doe)
  {
    era, doe := EraOf(day + 719_468), day + 719_468 - EraOf(day + 719_468) * 146_097;
    EraIsFloor(day + 719_468);
  }

  /** Every day number is the number of the date it is turned into, which is a
      date of the calendar. */
  lemma CivilIsTheDate(day: int)
    ensures IsDate(CivilFromDays(day)) && DaysFromCivil(CivilFromDays(day)) == day
  {
    var era, doe := EraOfDay(day);
    CivilInEraIsTheDate(era, doe);
  }

  /** Later years start later, and a year's days all fall before the next. */
  lemma YearsAscend(a: Date, b: Date)
    requires IsDate(a) && IsDate(b) && a.year < b.year
    ensures DaysFromCivil(a) < DaysFromCivil(b)
  {
    YearHasItsDays(a);
    MonthsAscend(b.year, 1, b.month);
    var x, y := a.year, b.year - 1;
    assert y / 4 >= x / 4 && y / 400 >= x / 400 && y / 100 - x / 100 <= y - x;
  }

  lemma {:induction false} MonthsAscend(y: int, m: int, m': int)
    requires 1 <= m <= m'
    ensures DaysBeforeMonth(y, m) <= DaysBeforeMonth(y, m')
    ensures m < m' ==> DaysBeforeMonth(y, m) + DaysInMonth(y, m) <= DaysBeforeMonth(y, m')
    decreases m'
  {
    if m < m' {
      MonthsAscend(y, m, m' - 1);
    }
  }

  lemma YearHasItsDays(d: Date)
    requires IsDate(d)
    ensures DaysFromCivil(d) < DaysBeforeYear(d.year + 1) - 719_162
  {
    MarchStartIs(d.year);
    MonthTable(d.year);
    assert DaysBeforeMonth(d.year, 9 + 3) == 59 + MonthStart(9) + if IsLeap(d.year) then 1 else 0;
    MonthsAscend(d.year, d.month, 12);
  }

  /** No two dates have one number. */
  lemma DaysInjective(a: Date, b: Date)
    requires IsDate(a) && IsDate(b) && DaysFromCivil(a) == DaysFromCivil(b)
    ensures a == b
  {
    if a.year != b.year {
      if a.year < b.year { YearsAscend(a, b); } else { YearsAscend(b, a); }
    } else if a.month != b.month {
      MonthsAscend(a.year, if a.month < b.month then a.month else b.month, if a.month < b.month then b.month else a.month);
    }
  }

  /** Turning a date into its number and back gives the date. */
  lemma CivilOfDays(d: Date)
    requires IsDate(d)
    ensures CivilFromDays(DaysFromCivil(d)) == d
  {
    CivilIsTheDate(DaysFromCivil(d));
    DaysInjective(CivilFromDays(DaysFromCivil(d)), d);
  }

  lemma NextDayIsNext(d: Date)
    requires IsDate(d)
    ensures IsDate(NextDay(d)) && DaysFromCivil(NextDay(d)) == DaysFromCivil(d) + 1
  {
    if d.day == DaysInMonth(d.year, d.month) && d.month == 12 {
      MarchStartIs(d.year);
      MonthTable(d.year);
      assert DaysBeforeMonth(d.year, 9 + 3) == 59 + MonthStart(9) + if IsLeap(d.year) then 1 else 0;
    }
  }

  lemma NextIsNext(a: Date, b: Date)
    requires IsDate(a) && IsDate(b) && DaysFromCivil(b) == DaysFromCivil(a) + 1
    ensures b == NextDay(a)
  {
    NextDayIsNext(a);
    DaysInjective(b, NextDay(a));
  }

  lemma EpochIsDayZero()
    ensures CivilFromDays(0) == Date(1970, 1, 1)
  {
    CivilOfDays(Date(1970, 1, 1));
    assert DaysFromCivil(Date(1970, 1, 1)) == 0;
  }

  /** Day 0 is 1970-01-01, and each day is followed by the next date. */
  lemma CivilFollowsTheCalendar(day: int)
    ensures CivilFromDays(0) == Date(1970, 1, 1)
    ensures CivilFromDays(day + 1) == NextDay(CivilFromDays(day))
  {
    EpochIsDayZero();
    CivilIsTheDate(day);
    CivilIsTheDate(day + 1);
    NextIsNext(CivilFromDays(day), CivilFromDays(day + 1));
  }

  // ---- format_utc_ms -------------------------------------------------------------

  function Digit(n: nat): char
    requires n < 10
  {
    '0' + n as char
  }

  function DigitOf(c: char): nat {
    if '0' <= c <= '9' then (c - '0') as nat else 0
  }

  function Decimal(n: nat): (s: string)
    ensures s != ""
  {
    if n < 10 then [Digit(n)] else Decimal(n / 10) + [Digit(n % 10)]
  }

  function FromDecimal(s: string): nat {
    if s == "" then 0 else 10 * FromDecimal(s[..|s| - 1]) + DigitOf(s[|s| - 1])
  }

  /** Decimal, with zeros in front up to `width` digits. */
  function Padded(n: nat, width: nat): (s: string)
    ensures |s| >= width
    decreases width
  {
    if width == 0 || |Decimal(n)| >= width then Decimal(n) else
      seq(width - |Decimal(n)|, _ => '0') + Decimal(n)
  }

  lemma {:induction false} DecimalRoundTrip(n: nat)
    ensures FromDecimal(Decimal(n)) == n
  {
    if n >= 10 {
      DecimalRoundTrip(n / 10);
      assert Decimal(n)[..|Decimal(n)| - 1] == Decimal(n / 10);
    } else {
      assert Decimal(n)[..0] == "";
    }
  }

  lemma {:induction false} LeadingZeros(k: nat, s: string)
    ensures FromDecimal(seq(k, _ => '0') + s) == FromDecimal(s)
    decreases k + |s|
  {
    var padded := seq(k, _ => '0') + s;
    if s != "" {
      LeadingZeros(k, s[..|s| - 1]);
      assert padded[..|padded| - 1] == seq(k, _ => '0') + s[..|s| - 1];
    } else if k > 0 {
      LeadingZeros(k - 1, "");
      assert padded[..k - 1] == seq(k - 1, _ => '0') + "";
    }
  }

  lemma PaddedRoundTrip(n: nat, width: nat)
    ensures FromDecimal(Padded(n, width)) == n
    ensures width == 2 && n < 100 ==> |Padded(n, width)| == 2
  {
    DecimalRoundTrip(n);
    if |Decimal(n)| < width {
      LeadingZeros(width - |Decimal(n)|, Decimal(n));
    }
  }

  datatype Stamp = Stamp(date: Date, hour: nat, minute: nat, second: nat)

  function StampOf(ms: u64): Stamp {
    var secs := ms / 1000;
    var rem := secs % 86_400;
    Stamp(CivilFromDays(secs / 86_400), rem / 3600, rem % 3600 / 60, rem % 60)
  }

  /** The fields of a timestamp are those of a clock and of the calendar, and
      count up to the whole seconds of the input. */
  lemma StampRecomposes(ms: u64)
    ensures var t := StampOf(ms);
            && IsDate(t.date) && t.date.year >= 1970 && t.hour < 24 && t.minute < 60 && t.second < 60
            && DaysFromCivil(t.date) * 86_400 + t.hour * 3600 + t.minute * 60 + t.second == ms / 1000
  {
    SinceTheEpoch(ms / 1000 / 86_400);
    ClockParts(ms / 1000 % 86_400);
  }

  lemma SinceTheEpoch(day: nat)
    ensures var d := CivilFromDays(day); IsDate(d) && d.year >= 1970 && DaysFromCivil(d) == day
  {
    CivilIsTheDate(day);
    NotBeforeTheEpoch(CivilFromDays(day));
  }

  lemma NotBeforeTheEpoch(d: Date)
    requires IsDate(d) && DaysFromCivil(d) >= 0
    ensures d.year >= 1970
  {
    if d.year < 1970 {
      YearsAscend(d, Date(1970, 1, 1));
    }
  }

  lemma ClockParts(rem: nat)
    requires rem < 86_400
    ensures rem / 3600 < 24 && rem % 3600 / 60 < 60 && rem / 3600 * 3600 + rem % 3600 / 60 * 60 + rem % 60 == rem
  {
    assert rem % 3600 % 60 == rem % 60;
  }

  function Columns(year: string, month: string, day: string, hour: string, minute: string, second: string): string {
    year + "-" + month + "-" + day + " " + hour + ":" + minute + ":" + second + " UTC"
  }

  function FormatUtcMs(ms: u64): string {
    StampRecomposes(ms);
    var t := StampOf(ms);
    Columns(Padded(t.date.year, 4), Padded(t.date.month, 2), Padded(t.date.day, 2),
            Padded(t.hour, 2), Padded(t.minute, 2), Padded(t.second, 2))
  }

  lemma ColumnsAreFixed(year: string, month: string, day: string, hour: string, minute: string, second: string)
    requires |month| == |day| == |hour| == |minute| == |second| == 2
    ensures var s, n := Columns(year, month, day, hour, minute, second), |year|;
            && |s| == n + 19 && s[..n] == year && s[n + 1..n + 3] == month && s[n + 4..n + 6] == day
            && s[n + 7..n + 9] == hour && s[n + 10..n + 12] == minute && s[n + 13..n + 15] == second
  {}

  /** Reads such a string back: fixed columns from the right, and the rest is
      the year. */
  function ParseUtc(s: string): Stamp
    requires |s| >= 19
  {
    var n := |s| - 19;
    Stamp(Date(FromDecimal(s[..n]), FromDecimal(s[n + 1..n + 3]), FromDecimal(s[n + 4..n + 6])),
          FromDecimal(s[n + 7..n + 9]), FromDecimal(s[n + 10..n + 12]), FromDecimal(s[n + 13..n + 15]))
  }

  /** What a listing shows determines the second: the text reads back as the
      calendar date and clock time of the timestamp. */
  lemma FormatReadsBack(ms: u64)
    ensures |FormatUtcMs(ms)| >= 19 && ParseUtc(FormatUtcMs(ms)) == StampOf(ms)
  {
    StampRecomposes(ms);
    var t := StampOf(ms);
    PaddedRoundTrip(t.date.year, 4);
    PaddedRoundTrip(t.date.month, 2);
    PaddedRoundTrip(t.date.day, 2);
    PaddedRoundTrip(t.hour, 2);
    PaddedRoundTrip(t.minute, 2);
    PaddedRoundTrip(t.second, 2);
    ColumnsAreFixed(Padded(t.date.year, 4), Padded(t.date.month, 2), Padded(t.date.day, 2),
                    Padded(t.hour, 2), Padded(t.minute, 2), Padded(t.second, 2));
  }
}
