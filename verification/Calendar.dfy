/**
 Instants as Python's `datetime` counts and writes them: days of the proleptic
 Gregorian calendar from 1 January of year 1, and the ISO text of a UTC instant.
 */
module Calendar {
  import opened Wrappers
  import opened Text

  const DAY := 86_400_000_000
  const LAST_DAY := 3_652_059
  const MAX_YEAR := 9999

  predicate IsLeap(y: int) {
    y % 4 == 0 && (y % 100 != 0 || y % 400 == 0)
  }

  function DaysInYear(y: int): int {
    if IsLeap(y) then 366 else 365
  }

  function DaysInMonth(y: int, m: int): int
    requires 1 <= m <= 12
  {
    if m == 2 then (if IsLeap(y) then 29 else 28)
    else if m == 4 || m == 6 || m == 9 || m == 11 then 30
    else 31
  }

  function DaysBeforeYear(y: int): int {
    (y - 1) * 365 + (y - 1) / 4 - (y - 1) / 100 + (y - 1) / 400
  }

  function DaysBeforeMonth(y: int, m: int): int
    requires 1 <= m <= 13
  {
    if m == 1 then 0 else DaysBeforeMonth(y, m - 1) + DaysInMonth(y, m - 1)
  }

  datatype Date = Date(year: int, month: int, day: int)

  predicate IsDate(d: Date) {
    1 <= d.year <= MAX_YEAR && 1 <= d.month <= 12 && 1 <= d.day <= DaysInMonth(d.year, d.month)
  }

  /** `date.toordinal` */
  function Ordinal(d: Date): int
    requires 1 <= d.month <= 12
  {
    DaysBeforeYear(d.year) + DaysBeforeMonth(d.year, d.month) + d.day
  }

  lemma YearStep(y: int)
    requires y >= 1
    ensures DaysBeforeYear(y + 1) == DaysBeforeYear(y) + DaysInYear(y)
  {
    DivStep(y, 4);
    DivStep(y, 100);
    DivStep(y, 400);
    CenturiesAreFourths(y);
    LeapSum(y % 4 == 0, y % 100 == 0, y % 400 == 0);
  }

  lemma CenturiesAreFourths(y: int)
    ensures (y % 100 == 0 ==> y % 4 == 0) && (y % 400 == 0 ==> y % 100 == 0)
  {
  }

  lemma LeapSum(fourth: bool, hundredth: bool, fourHundredth: bool)
    requires (hundredth ==> fourth) && (fourHundredth ==> hundredth)
    ensures (if fourth then 1 else 0) - (if hundredth then 1 else 0) + (if fourHundredth then 1 else 0) ==
            if fourth && (!hundredth || fourHundredth) then 1 else 0
  {
  }

  lemma DivStep(y: int, n: int)
    requires y >= 1 && (n == 4 || n == 100 || n == 400)
    ensures y / n == (y - 1) / n + if y % n == 0 then 1 else 0
  {
  }

  lemma {:induction false} YearTotal(y: int)
    requires 1 <= y
    ensures DaysBeforeMonth(y, 13) == DaysInYear(y)
  {
    var m12 := DaysBeforeMonth(y, 12);
    var m9 := DaysBeforeMonth(y, 9);
    var m6 := DaysBeforeMonth(y, 6);
    var m3 := DaysBeforeMonth(y, 3);
    assert m3 == 31 + DaysInMonth(y, 2) by { assert DaysBeforeMonth(y, 2) == 31; }
    assert m6 == m3 + 31 + 30 + 31 by { assert DaysBeforeMonth(y, 5) == DaysBeforeMonth(y, 4) + 30; }
    assert m9 == m6 + 30 + 31 + 31 by { assert DaysBeforeMonth(y, 8) == DaysBeforeMonth(y, 7) + 31; }
    assert m12 == m9 + 30 + 31 + 30 by { assert DaysBeforeMonth(y, 11) == DaysBeforeMonth(y, 10) + 31; }
  }

  /** The year that day `n`, counted from 1 January of year `y`, falls in. */
  function YearOf(n: int, y: int): (r: (int, int))
    requires 1 <= n && 1 <= y
    ensures y <= r.0 && 1 <= r.1 <= DaysInYear(r.0)
    decreases n
  {
    if n <= DaysInYear(y) then (y, n) else YearOf(n - DaysInYear(y), y + 1)
  }

  lemma {:induction false} YearOfAdds(n: int, y: int)
    requires 1 <= n && 1 <= y
    ensures DaysBeforeYear(YearOf(n, y).0) + YearOf(n, y).1 == DaysBeforeYear(y) + n
    decreases n
  {
    if n > DaysInYear(y) {
      YearStep(y);
      YearOfAdds(n - DaysInYear(y), y + 1);
    }
  }

  function MonthOf(y: int, n: int, m: int): (r: (int, int))
    requires 1 <= m <= 12 && 1 <= y && 1 <= n <= DaysBeforeMonth(y, 13) - DaysBeforeMonth(y, m)
    ensures 1 <= r.0 <= 12 && 1 <= r.1 <= DaysInMonth(y, r.0)
    ensures DaysBeforeMonth(y, r.0) + r.1 == DaysBeforeMonth(y, m) + n
    decreases 12 - m
  {
    if n <= DaysInMonth(y, m) then (m, n) else MonthOf(y, n - DaysInMonth(y, m), m + 1)
  }

  /** `date.fromordinal` */
  function FromOrdinal(n: int): (d: Date)
    requires 1 <= n <= LAST_DAY
    ensures IsDate(d) && Ordinal(d) == n
  {
    var (y, k) := YearOf(n, 1);
    YearOfAdds(n, 1);
    YearTotal(y);
    var (m, d) := MonthOf(y, k, 1);
    Date(y, m, d)
  }

  lemma {:induction false} YearsAscend(y: int, z: int)
    requires 1 <= y < z
    ensures DaysBeforeYear(y) + DaysInYear(y) <= DaysBeforeYear(z)
    decreases z - y
  {
    YearStep(y);
    if y + 1 < z {
      YearsAscend(y + 1, z);
    }
  }

  lemma {:induction false} MonthsAscend(y: int, m: int, k: int)
    requires 1 <= m < k <= 13
    ensures DaysBeforeMonth(y, m) + DaysInMonth(y, m) <= DaysBeforeMonth(y, k)
    decreases k - m
  {
    if m + 1 < k {
      MonthsAscend(y, m + 1, k);
    }
  }

  lemma DayOfYear(d: Date)
    requires IsDate(d)
    ensures 1 <= DaysBeforeMonth(d.year, d.month) + d.day <= DaysInYear(d.year)
  {
    YearTotal(d.year);
    MonthsAscend(d.year, d.month, 13);
    if d.month > 1 {
      MonthsAscend(d.year, 1, d.month);
    }
  }

  /** Later dates have greater numbers, so a number is that of one date only. */
  lemma OrdinalAscends(d: Date, e: Date)
    requires IsDate(d) && IsDate(e)
    requires d.year < e.year || (d.year == e.year && (d.month < e.month || (d.month == e.month && d.day < e.day)))
    ensures Ordinal(d) < Ordinal(e)
  {
    DayOfYear(d);
    DayOfYear(e);
    if d.year < e.year {
      YearsAscend(d.year, e.year);
    } else if d.month < e.month {
      MonthsAscend(d.year, d.month, e.month);
    }
  }

  lemma OrdinalIsInRange(d: Date)
    requires IsDate(d)
    ensures 1 <= Ordinal(d) <= LAST_DAY
  {
    DayOfYear(d);
    YearStep(d.year);
    if d.year > 1 {
      YearsAscend(1, d.year);
    }
    if d.year < MAX_YEAR {
      YearsAscend(d.year, MAX_YEAR);
    }
  }

  /** Every date of the years 1 to 9999 is the one its number stands for. */
  lemma DateReads(d: Date)
    requires IsDate(d)
    ensures 1 <= Ordinal(d) <= LAST_DAY && FromOrdinal(Ordinal(d)) == d
  {
    OrdinalIsInRange(d);
    var e := FromOrdinal(Ordinal(d));
    if e != d {
      if e.year < d.year || (e.year == d.year && (e.month < d.month || (e.month == d.month && e.day < d.day))) {
        OrdinalAscends(e, d);
      } else {
        OrdinalAscends(d, e);
      }
      assert false;
    }
  }

  lemma {:induction false} MonthStarts(y: int, m: int)
    requires 1 <= m <= 13
    ensures DaysBeforeMonth(y, m) ==
            [0, 31, 59, 90, 120, 151, 181, 212, 243, 273, 304, 334, 365][m-1] + if m > 2 && IsLeap(y) then 1 else 0
    decreases m
  {
    if m > 1 {
      MonthStarts(y, m - 1);
    }
  }

  /** Where the calendar starts and ends, the first year of Unix time, and which centuries leap. */
  lemma KnownYears()
    ensures DaysBeforeYear(1) == 0 && DaysBeforeYear(1970) == 719_162 && DaysBeforeYear(10_000) == 3_652_059 == LAST_DAY
    ensures IsLeap(2000) && !IsLeap(1900) && IsLeap(2024) && !IsLeap(2023)
  {
  }

  // ----- instants -----------------------------------------------------------------------

  /** Day and microsecond of the day as shown by a clock with this UTC offset, or with none at all. */
  datatype DateTime = DateTime(day: int, micros: int, offset: Option<int>)

  predicate IsDateTime(t: DateTime) {
    1 <= t.day <= LAST_DAY && 0 <= t.micros < DAY && (t.offset.Some? ==> -DAY < t.offset.value < DAY)
  }

  /** Microseconds from the first representable midnight, in UTC; a clock without offset counts as UTC. */
  function Instant(t: DateTime): int {
    (t.day - 1) * DAY + t.micros - if t.offset.Some? then t.offset.value else 0
  }

  function AtInstant(n: int): DateTime {
    DateTime(n / DAY + 1, n % DAY, Some(0))
  }

  /** The same instant on a UTC clock; it may fall outside the years 1 to 9999. */
  function ToUtc(t: DateTime): Option<DateTime> {
    if 0 <= Instant(t) < LAST_DAY * DAY then Some(AtInstant(Instant(t))) else None
  }

  lemma ToUtcKeepsInstant(t: DateTime)
    requires ToUtc(t).Some?
    ensures IsDateTime(ToUtc(t).value) && Instant(ToUtc(t).value) == Instant(t) && ToUtc(t).value.offset == Some(0)
    ensures ToUtc(ToUtc(t).value) == ToUtc(t)
  {
    var n := Instant(t);
    assert n == n / DAY * DAY + n % DAY;
  }

  // ----- ISO text -----------------------------------------------------------------------

  function Pow10(k: nat): nat {
    if k == 0 then 1 else 10 * Pow10(k - 1)
  }

  /** `n` in exactly `k` digits, in front of `rest`. */
  function FixedOnto(n: nat, k: nat, rest: string): string
    requires n < Pow10(k)
  {
    if k == 0 then rest
    else
      var p := Pow10(k - 1);
      PowPositive(k - 1);
      DigitBound(n, p);
      [Digit(n / p)] + FixedOnto(n % p, k - 1, rest)
  }

  lemma FixedStep(n: nat, k: nat, rest: string) returns (d: nat, m: nat)
    requires k > 0 && n < Pow10(k)
    ensures d < 10 && m < Pow10(k - 1) && n == d * Pow10(k - 1) + m
    ensures FixedOnto(n, k, rest) == [Digit(d)] + FixedOnto(m, k - 1, rest)
  {
    var p := Pow10(k - 1);
    PowPositive(k - 1);
    DigitBound(n, p);
    d, m := n / p, n % p;
  }

  lemma PowPositive(k: nat)
    ensures Pow10(k) > 0
  {
  }

  lemma DigitBound(n: nat, p: nat)
    requires p > 0 && n < 10 * p
    ensures n / p < 10
  {
  }

  function ReadFixed(s: string, k: nat, acc: nat): Option<(nat, string)> {
    if k == 0 then Some((acc, s))
    else if s == "" || !IsDigit(s[0]) then None
    else ReadFixed(s[1..], k - 1, 10 * acc + DigitValue(s[0]))
  }

  lemma {:induction false} FixedReads(n: nat, k: nat, acc: nat, rest: string)
    requires n < Pow10(k)
    ensures ReadFixed(FixedOnto(n, k, rest), k, acc) == Some((acc * Pow10(k) + n, rest))
  {
    if k > 0 {
      var d, m := FixedStep(n, k, rest);
      ReadsDigit(d, FixedOnto(m, k - 1, rest), k, acc);
      FixedReads(m, k - 1, 10 * acc + d, rest);
      ShiftDigits(acc, d, m, n, k);
    }
  }

  lemma ReadsDigit(d: nat, tail: string, k: nat, acc: nat)
    requires d < 10 && k > 0
    ensures ReadFixed([Digit(d)] + tail, k, acc) == ReadFixed(tail, k - 1, 10 * acc + d)
  {
    assert ([Digit(d)] + tail)[1..] == tail;
  }

  lemma ShiftDigits(acc: nat, d: nat, m: nat, n: nat, k: nat)
    requires k > 0 && n == d * Pow10(k - 1) + m
    ensures (10 * acc + d) * Pow10(k - 1) + m == acc * Pow10(k) + n
  {
    Shift(acc, d, Pow10(k - 1));
  }

  lemma Shift(acc: nat, d: nat, p: nat)
    ensures (10 * acc + d) * p == acc * (10 * p) + d * p
  {
  }

  function Expect(s: string, c: char): Option<string> {
    if s != "" && s[0] == c then Some(s[1..]) else None
  }

  /** `k` digits and then `c` */
  function ReadUpTo(s: string, k: nat, c: char): Option<(nat, string)> {
    match ReadFixed(s, k, 0)
    case None => None
    case Some((n, rest)) =>
      match Expect(rest, c)
      case None => None
      case Some(rest') => Some((n, rest'))
  }

  lemma ReadsUpTo(n: nat, k: nat, c: char, rest: string)
    requires n < Pow10(k)
    ensures ReadUpTo(FixedOnto(n, k, [c] + rest), k, c) == Some((n, rest))
  {
    FixedReads(n, k, 0, [c] + rest);
    NothingCarried(n, Pow10(k));
    ExpectsFirst(c, rest);
  }

  lemma NothingCarried(n: nat, p: nat)
    ensures 0 * p + n == n
  {
  }

  lemma ExpectsFirst(c: char, rest: string)
    ensures Expect([c] + rest, c) == Some(rest)
  {
    assert ([c] + rest)[1..] == rest;
  }

  /** An optional fraction of six digits. */
  function ReadFraction(s: string): Option<(nat, string)> {
    match Expect(s, '.')
    case None => Some((0, s))
    case Some(rest) => ReadFixed(rest, 6, 0)
  }

  /** A UTC offset in hours and minutes, or none. */
  function ReadZone(s: string): Option<Option<int>> {
    if s == "" then Some(None)
    else if s[0] != '+' && s[0] != '-' then None
    else
      match ReadUpTo(s[1..], 2, ':')
      case None => None
      case Some((h, rest)) =>
        match ReadFixed(rest, 2, 0)
        case None => None
        case Some((m, end)) =>
          if end != "" || h >= 24 || m >= 60 then None
          else
            var size := (h * 60 + m) * 60_000_000;
            Some(Some(if s[0] == '-' then -size else size))
  }

  function ReadTime(s: string): Option<(int, Option<int>)> {
    match ReadUpTo(s, 2, ':')
    case None => None
    case Some((h, s1)) =>
      match ReadUpTo(s1, 2, ':')
      case None => None
      case Some((m, s2)) =>
        match ReadFixed(s2, 2, 0)
        case None => None
        case Some((sec, s3)) =>
          match ReadFraction(s3)
          case None => None
          case Some((us, s4)) =>
            match ReadZone(s4)
            case None => None
            case Some(zone) =>
              if h >= 24 || m >= 60 || sec >= 60 then None
              else Some((((h * 60 + m) * 60 + sec) * 1_000_000 + us, zone))
  }

  /** `fromisoformat`, for a full date and a time down to seconds. */
  function ReadIso(s: string): Option<DateTime> {
    match ReadUpTo(s, 4, '-')
    case None => None
    case Some((y, s1)) =>
      match ReadUpTo(s1, 2, '-')
      case None => None
      case Some((m, s2)) =>
        match ReadUpTo(s2, 2, 'T')
        case None => None
        case Some((d, s3)) =>
          match ReadTime(s3)
          case None => None
          case Some((micros, zone)) =>
            if !IsDate(Date(y, m, d)) then None
            else Some(DateTime(Ordinal(Date(y, m, d)), micros, zone))
  }

  // ----- writing a UTC instant, and reading it back -----------------------------------------

  /** Microseconds are left out when there are none. */
  function FractionText(fraction: nat): string
    requires fraction < 1_000_000
  {
    if fraction == 0 then "+00:00" else ['.'] + FixedOnto(fraction, 6, "+00:00")
  }

  function TimeText(micros: int): string
    requires 0 <= micros < DAY
  {
    var seconds, fraction := micros / 1_000_000, micros % 1_000_000;
    ClockText(seconds / 3600, seconds / 60 % 60, seconds % 60, fraction)
  }

  function ClockText(h: nat, m: nat, s: nat, fraction: nat): string
    requires h < 24 && m < 60 && s < 60 && fraction < 1_000_000
  {
    FixedOnto(h, 2, [':'] + FixedOnto(m, 2, [':'] + FixedOnto(s, 2, FractionText(fraction))))
  }

  lemma TimeSteps(s: string, h: nat, s1: string, m: nat, s2: string, sec: nat, s3: string, us: nat, s4: string, zone: Option<int>)
    requires ReadUpTo(s, 2, ':') == Some((h, s1)) && ReadUpTo(s1, 2, ':') == Some((m, s2))
    requires ReadFixed(s2, 2, 0) == Some((sec, s3)) && ReadFraction(s3) == Some((us, s4)) && ReadZone(s4) == Some(zone)
    requires h < 24 && m < 60 && sec < 60
    ensures ReadTime(s) == Some((((h * 60 + m) * 60 + sec) * 1_000_000 + us, zone))
  {
  }

  lemma ClockReads(h: nat, m: nat, s: nat, fraction: nat)
    requires h < 24 && m < 60 && s < 60 && fraction < 1_000_000
    ensures ReadTime(ClockText(h, m, s, fraction)) == Some((((h * 60 + m) * 60 + s) * 1_000_000 + fraction, Some(0)))
  {
    Powers();
    var s3 := FractionText(fraction);
    var s2 := FixedOnto(s, 2, s3);
    var s1 := FixedOnto(m, 2, [':'] + s2);
    ReadsUpTo(h, 2, ':', s1);
    ReadsUpTo(m, 2, ':', s2);
    FixedReads(s, 2, 0, s3);
    NothingCarried(s, Pow10(2));
    FractionReads(fraction);
    TimeSteps(ClockText(h, m, s, fraction), h, s1, m, s2, s, s3, fraction, "+00:00", Some(0));
  }

  /** `isoformat` of a datetime on a UTC clock */
  function IsoText(t: DateTime): string
    requires IsDateTime(t)
  {
    var d := FromOrdinal(t.day);
    FixedOnto(d.year, 4, ['-'] + FixedOnto(d.month, 2, ['-'] + FixedOnto(d.day, 2, ['T'] + TimeText(t.micros))))
  }

  lemma FractionReads(fraction: nat)
    requires fraction < 1_000_000
    ensures ReadFraction(FractionText(fraction)) == Some((fraction, "+00:00"))
  {
    if fraction > 0 {
      FixedReads(fraction, 6, 0, "+00:00");
      assert (['.'] + FixedOnto(fraction, 6, "+00:00"))[1..] == FixedOnto(fraction, 6, "+00:00");
    }
  }

  lemma SplitTime(micros: int)
    requires 0 <= micros < DAY
    ensures var s := micros / 1_000_000;
            && 0 <= s / 3600 < 24 && 0 <= s / 60 % 60 < 60
            && (((s / 3600 * 60) + s / 60 % 60) * 60 + s % 60) * 1_000_000 + micros % 1_000_000 == micros
  {
    var s := micros / 1_000_000;
    assert s / 60 / 60 == s / 3600;
  }

  lemma TimeReads(micros: int)
    requires 0 <= micros < DAY
    ensures ReadTime(TimeText(micros)) == Some((micros, Some(0)))
  {
    var seconds, fraction := micros / 1_000_000, micros % 1_000_000;
    SplitTime(micros);
    ClockReads(seconds / 3600, seconds / 60 % 60, seconds % 60, fraction);
  }

  /** The text of a UTC instant reads back as that instant, for every representable one. */
  lemma IsoReads(t: DateTime)
    requires IsDateTime(t) && t.offset == Some(0)
    ensures ReadIso(IsoText(t)) == Some(t)
  {
    var d := FromOrdinal(t.day);
    var s3 := TimeText(t.micros);
    var s2 := FixedOnto(d.day, 2, ['T'] + s3);
    var s1 := FixedOnto(d.month, 2, ['-'] + s2);
    ReadsUpTo(d.year, 4, '-', s1);
    ReadsUpTo(d.month, 2, '-', s2);
    ReadsUpTo(d.day, 2, 'T', s3);
    TimeReads(t.micros);
  }

  // ----- what the text looks like -----------------------------------------------------------

  function Two(n: nat): string
    requires n < 100
  {
    [Digit(n / 10), Digit(n % 10)]
  }

  lemma Powers()
    ensures Pow10(0) == 1 && Pow10(1) == 10 && Pow10(2) == 100 && Pow10(4) == 10_000 && Pow10(6) == 1_000_000
  {
    assert Pow10(3) == 1000;
    assert Pow10(5) == 100_000;
  }

  lemma OneDigit(n: nat, k: nat, p: nat, rest: string)
    requires n < Pow10(k + 1) && p == Pow10(k) > 0
    ensures n / p < 10 && n % p < Pow10(k) && FixedOnto(n, k + 1, rest) == [Digit(n / p)] + FixedOnto(n % p, k, rest)
  {
    DigitBound(n, p);
  }

  lemma TwoOnto(n: nat, rest: string)
    requires n < 100
    ensures n < Pow10(2) && FixedOnto(n, 2, rest) == Two(n) + rest
  {
    Powers();
    OneDigit(n, 1, 10, rest);
    OneDigit(n % 10, 0, 1, rest);
    assert [Digit(n / 10)] + ([Digit(n % 10)] + rest) == Two(n) + rest;
  }

  lemma FourDigits(n: nat)
    requires n < 10_000
    ensures n % 1000 / 100 == n / 100 % 10 && n % 1000 % 100 == n % 100 && n / 100 / 10 == n / 1000
  {
  }

  lemma FourOnto(n: nat, rest: string)
    requires n < 10_000
    ensures n < Pow10(4) && FixedOnto(n, 4, rest) == Two(n / 100) + Two(n % 100) + rest
  {
    Powers();
    assert Pow10(3) == 1000;
    OneDigit(n, 3, 1000, rest);
    OneDigit(n % 1000, 2, 100, rest);
    TwoOnto(n % 100, rest);
    FourDigits(n);
    Digits(Digit(n / 1000), Digit(n / 100 % 10), Two(n % 100), rest);
  }

  lemma Digits(a: char, b: char, text: string, rest: string)
    ensures [a] + ([b] + (text + rest)) == [a, b] + text + rest
  {
  }

  lemma UpperDigits(n: nat)
    ensures n % 100_000 / 10_000 == n / 10_000 % 10 && n % 100_000 % 10_000 == n % 10_000 && n / 10_000 / 10 == n / 100_000
  {
    var q, r := n / 100_000, n % 100_000;
    assert n / 10_000 == 10 * q + r / 10_000;
  }

  lemma LowerDigits(n: nat)
    ensures n % 10_000 / 100 == n / 100 % 100 && n % 10_000 % 100 == n % 100
  {
    var q, r := n / 10_000, n % 10_000;
    assert n / 100 == 100 * q + r / 100;
  }

  lemma SixOnto(n: nat, rest: string)
    requires n < 1_000_000
    ensures n < Pow10(6) && FixedOnto(n, 6, rest) == Two(n / 10_000) + (Two(n / 100 % 100) + Two(n % 100)) + rest
  {
    Powers();
    assert Pow10(5) == 100_000;
    OneDigit(n, 5, 100_000, rest);
    OneDigit(n % 100_000, 4, 10_000, rest);
    FourOnto(n % 10_000, rest);
    UpperDigits(n);
    LowerDigits(n);
    Digits(Digit(n / 100_000), Digit(n / 10_000 % 10), Two(n / 100 % 100) + Two(n % 100), rest);
  }

  /** The text of an instant: its date and its time of day, two digits each but for the year's four, and six more for
      microseconds if there are any. */
  lemma IsoTextReads(t: DateTime)
    requires IsDateTime(t)
    ensures var d, seconds, fraction := FromOrdinal(t.day), t.micros / 1_000_000, t.micros % 1_000_000;
            IsoText(t) ==
            Two(d.year / 100) + Two(d.year % 100) + ("-" + (Two(d.month) + ("-" + (Two(d.day) + ("T" +
            (Two(seconds / 3600) + (":" + (Two(seconds / 60 % 60) + (":" + (Two(seconds % 60) +
            (if fraction == 0 then "+00:00"
             else "." + (Two(fraction / 10_000) + (Two(fraction / 100 % 100) + Two(fraction % 100)) + "+00:00"))))))))))))
  {
    var d, seconds, fraction := FromOrdinal(t.day), t.micros / 1_000_000, t.micros % 1_000_000;
    SixOnto(fraction, "+00:00");
    var s5 := FractionText(fraction);
    TwoOnto(seconds % 60, s5);
    var s4 := [':'] + FixedOnto(seconds % 60, 2, s5);
    TwoOnto(seconds / 60 % 60, s4);
    var s3 := [':'] + FixedOnto(seconds / 60 % 60, 2, s4);
    TwoOnto(seconds / 3600, s3);
    var s2 := ['T'] + TimeText(t.micros);
    TwoOnto(d.day, s2);
    var s1 := ['-'] + FixedOnto(d.day, 2, s2);
    TwoOnto(d.month, s1);
    FourOnto(d.year, ['-'] + FixedOnto(d.month, 2, s1));
  }

  /** An offset is read in hours and minutes, with its sign. */
  lemma ZoneReads(h: nat, m: nat)
    requires h < 24 && m < 60
    ensures ReadZone("+" + (Two(h) + (":" + Two(m)))) == Some(Some((h * 60 + m) * 60_000_000))
    ensures ReadZone("-" + (Two(h) + (":" + Two(m)))) == Some(Some(-(h * 60 + m) * 60_000_000))
  {
    var minutes := FixedOnto(m, 2, "");
    TwoOnto(m, "");
    assert Two(m) + "" == Two(m);
    TwoOnto(h, [':'] + minutes);
    var text := FixedOnto(h, 2, [':'] + minutes);
    assert ("+" + text)[1..] == text && ("-" + text)[1..] == text;
    ReadsUpTo(h, 2, ':', minutes);
    FixedReads(m, 2, 0, "");
    NothingCarried(m, Pow10(2));
  }

  /** A clock with a positive offset is ahead of UTC. */
  lemma OffsetIsAhead(t: DateTime, o: int)
    requires IsDateTime(t) && t.offset == Some(o) && 0 <= t.micros - o < DAY
    ensures ToUtc(t) == Some(DateTime(t.day, t.micros - o, Some(0)))
  {
    var n := Instant(t);
    assert n == (t.day - 1) * DAY + (t.micros - o);
    assert n / DAY == t.day - 1 && n % DAY == t.micros - o;
  }
}
