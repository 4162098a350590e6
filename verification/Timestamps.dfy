/**
 Timestamps in microseconds as the database prints them, YYYY-MM-DD hh:mm:ss.ffffff, and as its best-effort parser
 reads them at millisecond precision; and UUIDs as they are printed and read.
 */
module Timestamps {
  import opened JsonValues

  // ----- Numbers with a fixed number of digits

  function Pow(base: nat, n: nat): nat {
    if n == 0 then 1 else base * Pow(base, n - 1)
  }

  predicate IsBase(base: nat) {
    2 <= base <= 16
  }

  function DigitChar(d: nat): Byte
    requires d < 16
  {
    (if d < 10 then '0' as int + d else 'a' as int + d - 10) as char
  }

  function DigitValue(c: Byte): int {
    if c <= '9' then c as int - '0' as int else c as int - 'a' as int + 10
  }

  function Digits(n: nat, width: nat, base: nat): (r: Utf8)
    requires IsBase(base)
    ensures |r| == width
    decreases width
  {
    if width == 0 then [] else Digits(n / base, width - 1, base) + [DigitChar(n % base)]
  }

  function ReadDigits(s: Utf8, base: nat): int {
    if s == [] then 0 else ReadDigits(s[..|s| - 1], base) * base + DigitValue(s[|s| - 1])
  }

  lemma DigitStep(n: nat, width: nat, base: nat)
    requires IsBase(base) && width > 0
    ensures ReadDigits(Digits(n, width, base), base)
         == ReadDigits(Digits(n / base, width - 1, base), base) * base + n % base
  {
    var r := Digits(n, width, base);
    assert r[..|r| - 1] == Digits(n / base, width - 1, base);
  }

  lemma ProductsGrow(q: nat, p: nat, base: nat)
    ensures q >= p ==> q * base >= p * base
  {
  }

  lemma QuotientBelow(n: nat, base: nat, p: nat)
    requires base > 0 && n < base * p
    ensures n / base < p && n / base * base + n % base == n
  {
    ProductsGrow(n / base, p, base);
  }

  lemma NoDigits(n: nat, base: nat)
    requires IsBase(base) && n < Pow(base, 0)
    ensures ReadDigits(Digits(n, 0, base), base) == n
  {
    assert Digits(n, 0, base) == [];
  }

  lemma PowStep(base: nat, width: nat)
    requires width > 0
    ensures Pow(base, width) == base * Pow(base, width - 1)
  {
  }

  lemma {:induction false} DigitsRead(n: nat, width: nat, base: nat)
    requires IsBase(base) && n < Pow(base, width)
    ensures ReadDigits(Digits(n, width, base), base) == n
    decreases width
  {
    hide *;
    if width == 0 {
      NoDigits(n, base);
    } else {
      BasePositive(base);
      PowStep(base, width);
      QuotientBelow(n, base, Pow(base, width - 1));
      DigitStep(n, width, base);
      DigitsRead(n / base, width - 1, base);
    }
  }

  lemma BasePositive(base: nat)
    requires IsBase(base)
    ensures base > 0
  {
  }

  lemma TenPowers()
    ensures Pow(10, 2) == 100 && Pow(10, 3) == 1000 && Pow(10, 4) == 10000
  {
    assert Pow(10, 0) == 1;
    assert Pow(10, 1) == 10;
    assert Pow(10, 2) == 100;
    assert Pow(10, 3) == 1000;
  }

  // The first three of six digits are those of the thousands.
  lemma FirstDigits(n: nat)
    ensures Digits(n, 6, 10)[..3] == Digits(n / 1000, 3, 10)
  {
    assert Digits(n, 6, 10)[..5] == Digits(n / 10, 5, 10);
    assert Digits(n / 10, 5, 10)[..4] == Digits(n / 10 / 10, 4, 10);
    assert Digits(n / 10 / 10, 4, 10)[..3] == Digits(n / 10 / 10 / 10, 3, 10);
    assert n / 10 / 10 / 10 == n / 1000;
    assert Digits(n, 6, 10)[..3] == Digits(n, 6, 10)[..5][..4][..3];
  }

  // ----- The calendar, in days from 1900-01-01

  datatype Date = Date(year: int, month: int, day: int)

  predicate IsLeap(year: int) {
    year % 4 == 0 && (year % 100 != 0 || year % 400 == 0)
  }

  function DaysInYear(year: int): nat {
    if IsLeap(year) then 366 else 365
  }

  function DaysInMonth(year: int, month: int): nat {
    if month == 2 then (if IsLeap(year) then 29 else 28)
    else if month == 4 || month == 6 || month == 9 || month == 11 then 30
    else 31
  }

  predicate IsDate(d: Date) {
    d.year >= 1900 && 1 <= d.month <= 12 && 1 <= d.day <= DaysInMonth(d.year, d.month)
  }

  function DaysBeforeYear(year: int): nat
    decreases if year <= 1900 then 0 else year - 1900
  {
    if year <= 1900 then 0 else DaysBeforeYear(year - 1) + DaysInYear(year - 1)
  }

  function DaysBeforeMonth(year: int, month: int): nat
    decreases if month <= 1 then 0 else month
  {
    if month <= 1 then 0 else DaysBeforeMonth(year, month - 1) + DaysInMonth(year, month - 1)
  }

  function DayNumber(d: Date): int {
    DaysBeforeYear(d.year) + DaysBeforeMonth(d.year, d.month) + d.day - 1
  }

  // The year of a day, counted from the first of January of a year, and the days left in it.
  function SplitYear(n: nat, year: nat): (r: (nat, nat))
    ensures r.0 >= year && r.1 < DaysInYear(r.0)
    decreases n
  {
    if n < DaysInYear(year) then (year, n) else SplitYear(n - DaysInYear(year), year + 1)
  }

  function SplitMonth(n: nat, year: nat, month: nat): (r: (nat, nat))
    requires 1 <= month <= 12
    ensures month <= r.0 <= 12
    decreases 12 - month
  {
    if month == 12 || n < DaysInMonth(year, month) then (month, n)
    else SplitMonth(n - DaysInMonth(year, month), year, month + 1)
  }

  function DateOf(n: nat): (d: Date)
    ensures d.year >= 1900 && d.month >= 1 && d.day >= 1
  {
    var (year, dayOfYear) := SplitYear(n, 1900);
    var (month, day) := SplitMonth(dayOfYear, year, 1);
    Date(year, month, day + 1)
  }

  lemma {:induction false} SplitYearAdds(n: nat, year: nat)
    requires year >= 1900
    ensures var r := SplitYear(n, year); DaysBeforeYear(r.0) + r.1 == DaysBeforeYear(year) + n
    decreases n
  {
    hide IsLeap;
    if n >= DaysInYear(year) {
      assert DaysBeforeYear(year + 1) == DaysBeforeYear(year) + DaysInYear(year);
      SplitYearAdds(n - DaysInYear(year), year + 1);
    }
  }

  lemma MonthsFill(year: int)
    ensures DaysBeforeMonth(year, 12) + 31 == DaysInYear(year)
  {
    assert DaysBeforeMonth(year, 1) == 0;
    assert DaysBeforeMonth(year, 3) == 31 + DaysInMonth(year, 2);
    assert DaysBeforeMonth(year, 5) == DaysBeforeMonth(year, 3) + 61;
    assert DaysBeforeMonth(year, 7) == DaysBeforeMonth(year, 5) + 61;
    assert DaysBeforeMonth(year, 9) == DaysBeforeMonth(year, 7) + 62;
    assert DaysBeforeMonth(year, 11) == DaysBeforeMonth(year, 9) + 61;
  }

  lemma {:induction false} SplitMonthAdds(n: nat, year: nat, month: nat)
    requires 1 <= month <= 12 && DaysBeforeMonth(year, month) + n < DaysInYear(year)
    ensures var r := SplitMonth(n, year, month);
      && DaysBeforeMonth(year, r.0) + r.1 == DaysBeforeMonth(year, month) + n
      && r.1 < DaysInMonth(year, r.0)
    decreases 12 - month
  {
    hide IsLeap;
    if month == 12 {
      MonthsFill(year);
      assert DaysInMonth(year, 12) == 31;
    } else if n >= DaysInMonth(year, month) {
      assert DaysBeforeMonth(year, month + 1) == DaysBeforeMonth(year, month) + DaysInMonth(year, month);
      SplitMonthAdds(n - DaysInMonth(year, month), year, month + 1);
    }
  }

  // A day's date is the valid date of that day.
  lemma DateOfDay(n: nat)
    ensures IsDate(DateOf(n)) && DayNumber(DateOf(n)) == n
  {
    var (year, dayOfYear) := SplitYear(n, 1900);
    SplitYearAdds(n, 1900);
    assert DaysBeforeYear(1900) == 0 && DaysBeforeMonth(year, 1) == 0;
    hide DaysBeforeYear, DaysBeforeMonth, DaysInMonth, SplitYear;
    SplitMonthAdds(dayOfYear, year, 1);
  }

  lemma {:induction false} LeapDays(year: nat)
    requires year >= 1900
    ensures DaysBeforeYear(year) == 365 * (year - 1900) + (year - 1) / 4 - (year - 1) / 100 + (year - 1) / 400 - 460
  {
    if year > 1900 {
      LeapDays(year - 1);
      hide DaysBeforeYear;
      LeapDay(year - 1);
    }
  }

  function Carry(y: nat, k: nat): nat
    requires k > 0
  {
    if y % k == 0 then 1 else 0
  }

  lemma Quarters(y: nat)
    requires y > 0
    ensures y / 4 == (y - 1) / 4 + Carry(y, 4)
  {
  }

  lemma Centuries(y: nat)
    requires y > 0
    ensures y / 100 == (y - 1) / 100 + Carry(y, 100)
  {
  }

  lemma FourCenturies(y: nat)
    requires y > 0
    ensures y / 400 == (y - 1) / 400 + Carry(y, 400)
  {
  }

  lemma Multiples(q: nat)
    ensures 4 * q % 4 == 0 && 100 * q % 100 == 0
  {
  }

  lemma FourHundreds(y: nat)
    ensures y % 400 == 0 ==> y % 100 == 0
  {
    Multiples(4 * (y / 400));
    assert y % 400 == 0 ==> y == 100 * (4 * (y / 400));
  }

  lemma Hundreds(y: nat)
    ensures y % 100 == 0 ==> y % 4 == 0
  {
    Multiples(25 * (y / 100));
    assert y % 100 == 0 ==> y == 4 * (25 * (y / 100));
  }

  lemma CarriesCount(y: nat)
    ensures Carry(y, 4) - Carry(y, 100) + Carry(y, 400) == if IsLeap(y) then 1 else 0
  {
    Hundreds(y);
    FourHundreds(y);
  }

  lemma LeapDay(y: nat)
    requires y > 0
    ensures y / 4 - y / 100 + y / 400 == (y - 1) / 4 - (y - 1) / 100 + (y - 1) / 400 + if IsLeap(y) then 1 else 0
  {
    hide *;
    Quarters(y);
    Centuries(y);
    FourCenturies(y);
    CarriesCount(y);
  }

  lemma {:induction false} YearsGrow(a: nat, b: nat)
    requires 1900 <= a <= b
    ensures DaysBeforeYear(a) <= DaysBeforeYear(b)
    decreases b - a
  {
    if a < b {
      YearsGrow(a, b - 1);
    }
  }

  // The database stores timestamps of the years 1900 to 2299, which are 400 years.
  const DAYS: nat := 146097

  lemma StoredYears(n: nat)
    requires n < DAYS
    ensures 1900 <= DateOf(n).year < 2300
  {
    var year := DateOf(n).year;
    assert DaysBeforeYear(1900) == 0;
    hide DaysBeforeYear, SplitYear;
    SplitYearAdds(n, 1900);
    FourHundredYears();
    if year >= 2300 {
      YearsGrow(2300, year);
    }
  }

  // ----- Printing and reading

  const SECOND: nat := 1_000_000
  const DAY: nat := 86400
  // 1900-01-01 and 2300-01-01 in microseconds from 1970-01-01
  const FIRST: int := -2_208_988_800_000_000
  const END: int := 10_413_792_000_000_000

  predicate IsStored(ts: int) {
    FIRST <= ts < END
  }

  lemma EpochDay()
    ensures DayNumber(Date(1970, 1, 1)) == 25567
  {
    assert DaysBeforeMonth(1970, 1) == 0;
    hide DaysBeforeYear, DaysBeforeMonth;
    LeapDays(1970);
  }

  lemma FourHundredYears()
    ensures DaysBeforeYear(2300) == DAYS
  {
    hide DaysBeforeYear;
    LeapDays(2300);
  }

  // The range begins as many days before 1970-01-01 as this is from 1900-01-01, and is 400 years long.
  lemma RangeIsYears()
    ensures FIRST == -DayNumber(Date(1970, 1, 1)) * DAY * SECOND && END == FIRST + DAYS * DAY * SECOND
    ensures DaysBeforeYear(2300) == DAYS
  {
    hide DayNumber, DaysBeforeYear, DaysBeforeMonth;
    EpochDay();
    FourHundredYears();
  }

  function DateText(d: Date): (r: Utf8)
    requires d.year >= 0 && d.month >= 0 && d.day >= 0
    ensures |r| == 10
  {
    Digits(d.year, 4, 10) + "-" + Digits(d.month, 2, 10) + "-" + Digits(d.day, 2, 10)
  }

  function ReadDate(s: Utf8): int
    requires |s| == 10
  {
    DayNumber(Date(ReadDigits(s[..4], 10), ReadDigits(s[5..7], 10), ReadDigits(s[8..], 10)))
  }

  function ClockText(seconds: nat): (r: Utf8)
    ensures |r| == 8
  {
    Digits(seconds / 3600, 2, 10) + ":" + Digits(seconds / 60 % 60, 2, 10) + ":" + Digits(seconds % 60, 2, 10)
  }

  function ReadClock(s: Utf8): int
    requires |s| == 8
  {
    ReadDigits(s[..2], 10) * 3600 + ReadDigits(s[3..5], 10) * 60 + ReadDigits(s[6..], 10)
  }

  // Seconds from 1900-01-01.
  function SecondsOf(ts: int): (r: nat)
    requires IsStored(ts)
    ensures r < DAYS * DAY
  {
    (ts - FIRST) / SECOND
  }

  function DayOf(ts: int): (r: nat)
    requires IsStored(ts)
    ensures r < DAYS
  {
    SecondsOf(ts) / DAY
  }

  function TimestampText(ts: int): (r: Utf8)
    requires IsStored(ts)
    ensures |r| == 26
  {
    DateText(DateOf(DayOf(ts))) + " " + ClockText(SecondsOf(ts) % DAY) + "." + Digits((ts - FIRST) % SECOND, 6, 10)
  }

  // What the query reads keeps whole milliseconds: digits behind the third are dropped.
  function ReadTimestamp(text: Utf8): int
    requires |text| >= 23
  {
    FIRST + (ReadDate(text[..10]) * DAY + ReadClock(text[11..19])) * SECOND + ReadDigits(text[20..23], 10) * 1000
  }

  lemma DateReads(n: nat)
    requires n < DAYS
    ensures IsDate(DateOf(n)) && ReadDate(DateText(DateOf(n))) == n
  {
    var d := DateOf(n);
    DateOfDay(n);
    StoredYears(n);
    TenPowers();
    hide Pow, DateOf, DayNumber, Digits, ReadDigits, IsLeap;
    DigitsRead(d.year, 4, 10);
    DigitsRead(d.month, 2, 10);
    DigitsRead(d.day, 2, 10);
    var s := DateText(d);
    assert s[..4] == Digits(d.year, 4, 10) && s[5..7] == Digits(d.month, 2, 10) && s[8..] == Digits(d.day, 2, 10);
  }

  lemma HoursAndMinutes(seconds: nat)
    ensures seconds / 3600 * 3600 + seconds / 60 % 60 * 60 + seconds % 60 == seconds
  {
    assert seconds / 60 / 60 == seconds / 3600;
  }

  lemma ClockReads(seconds: nat)
    requires seconds < DAY
    ensures ReadClock(ClockText(seconds)) == seconds
  {
    TenPowers();
    HoursAndMinutes(seconds);
    hide Pow, Digits, ReadDigits;
    var hours, minutes := seconds / 3600, seconds / 60 % 60;
    DigitsRead(hours, 2, 10);
    DigitsRead(minutes, 2, 10);
    DigitsRead(seconds % 60, 2, 10);
    var s := ClockText(seconds);
    assert s[..2] == Digits(hours, 2, 10) && s[3..5] == Digits(minutes, 2, 10) && s[6..] == Digits(seconds % 60, 2, 10);
  }

  lemma MillisecondDigits(n: nat)
    requires n < SECOND
    ensures ReadDigits(Digits(n, 6, 10)[..3], 10) == n / 1000
  {
    FirstDigits(n);
    TenPowers();
    hide Digits, ReadDigits, Pow;
    DigitsRead(n / 1000, 3, 10);
  }

  lemma PartsAddUp(ts: int)
    requires IsStored(ts)
    ensures var n := ts - FIRST;
      FIRST + (DayOf(ts) * DAY + SecondsOf(ts) % DAY) * SECOND + n % SECOND / 1000 * 1000 == ts - ts % 1000
  {
    var n, seconds := ts - FIRST, SecondsOf(ts);
    assert DayOf(ts) * DAY + seconds % DAY == seconds;
    Thousands(n);
    assert n % 1000 == ts % 1000;
  }

  lemma Thousands(n: nat)
    ensures n / SECOND * SECOND + n % SECOND / 1000 * 1000 == n - n % 1000
  {
    var micros := n % SECOND;
    assert n / SECOND * SECOND + micros == n;
    assert micros % 1000 == n % 1000;
    assert micros / 1000 * 1000 + micros % 1000 == micros;
  }

  lemma TextParts(date: Utf8, clock: Utf8, digits: Utf8)
    requires |date| == 10 && |clock| == 8 && |digits| == 6
    ensures var text := date + " " + clock + "." + digits;
      text[..10] == date && text[11..19] == clock && text[20..23] == digits[..3]
  {
  }

  // A printed timestamp is read as the timestamp in whole milliseconds.
  lemma TimestampIsCut(ts: int)
    requires IsStored(ts)
    ensures ReadTimestamp(TimestampText(ts)) == ts - ts % 1000
  {
    var day, seconds, micros := DayOf(ts), SecondsOf(ts) % DAY, (ts - FIRST) % SECOND;
    hide Digits, ReadDigits, DateText, ReadDate, ClockText, ReadClock, DateOf, IsDate, DayOf, SecondsOf;
    DateReads(day);
    ClockReads(seconds);
    MillisecondDigits(micros);
    PartsAddUp(ts);
    TextParts(DateText(DateOf(day)), ClockText(seconds), Digits(micros, 6, 10));
  }

  // ----- UUIDs

  // How the database prints the id of a row, and reads it again. Which number an id has in the order of the table is
  // left open.
  datatype IdText = IdText(show: nat -> Utf8, read: Utf8 -> nat)

  const UUIDS: nat := Pow(16, 32)

  ghost predicate IsIdText(ids: IdText) {
    forall id: nat | id < UUIDS :: |ids.show(id)| == 36 && ids.read(ids.show(id)) == id
  }

  function Dashed(a: Utf8, b: Utf8, c: Utf8, d: Utf8, e: Utf8): (r: Utf8)
    ensures |r| == |a| + |b| + |c| + |d| + |e| + 4
  {
    a + "-" + b + "-" + c + "-" + d + "-" + e
  }

  // 32 hexadecimal digits in groups of 8, 4, 4, 4 and 12.
  function UuidText(id: nat): (r: Utf8)
    ensures |r| == 36
  {
    var hex := Digits(id, 32, 16);
    Dashed(hex[..8], hex[8..12], hex[12..16], hex[16..20], hex[20..])
  }

  function Undashed(text: Utf8): Utf8
    requires |text| == 36
  {
    text[..8] + text[9..13] + text[14..18] + text[19..23] + text[24..]
  }

  function ReadUuid(text: Utf8): nat {
    if |text| != 36 || ReadDigits(Undashed(text), 16) < 0 then 0 else ReadDigits(Undashed(text), 16)
  }

  lemma DashesDrop(a: Utf8, b: Utf8, c: Utf8, d: Utf8, e: Utf8)
    requires |a| == 8 && |b| == |c| == |d| == 4 && |e| == 12
    ensures Undashed(Dashed(a, b, c, d, e)) == a + b + c + d + e
  {
    var text := Dashed(a, b, c, d, e);
    assert text[..8] == a;
    assert text[9..13] == b;
    assert text[14..18] == c;
    assert text[19..23] == d;
    assert text[24..] == e;
  }

  lemma GroupsJoin(hex: Utf8)
    requires |hex| == 32
    ensures hex[..8] + hex[8..12] + hex[12..16] + hex[16..20] + hex[20..] == hex
  {
  }

  lemma UuidReads(id: nat)
    requires id < UUIDS
    ensures ReadUuid(UuidText(id)) == id
  {
    var hex := Digits(id, 32, 16);
    hide Digits, ReadDigits, Dashed, Undashed, Pow;
    DigitsRead(id, 32, 16);
    DashesDrop(hex[..8], hex[8..12], hex[12..16], hex[16..20], hex[20..]);
    GroupsJoin(hex);
  }

  // There is such a way to print ids: UUIDs in hexadecimal digits.
  lemma UuidsAreIdText()
    ensures IsIdText(IdText(UuidText, ReadUuid))
  {
    hide UuidText, ReadUuid;
    forall id: nat | id < UUIDS ensures ReadUuid(UuidText(id)) == id {
      UuidReads(id);
    }
  }
}
