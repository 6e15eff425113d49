/**
 The civil-day arithmetic of the clock chip's driver against a calendar that is simply counted through, and the
 registers that carry a time to the chip and back.
 */
module Calendar {
  import opened Bytes
  import opened Options
  import Numbers

  datatype Date = Date(y: int, m: nat, d: nat)

  // ----------------------------------------------------------------- the calendar, day by day

  predicate Leap(y: int) {
    y % 4 == 0 && (y % 100 != 0 || y % 400 == 0)
  }

  function MonthDays(y: int, m: int): nat {
    if m == 2 then (if Leap(y) then 29 else 28)
    else if m == 4 || m == 6 || m == 9 || m == 11 then 30
    else 31
  }

  predicate Valid(c: Date) {
    1 <= c.m <= 12 && 1 <= c.d <= MonthDays(c.y, c.m)
  }

  function NextDay(c: Date): Date {
    if c.d < MonthDays(c.y, c.m) then c.(d := c.d + 1)
    else if c.m < 12 then Date(c.y, c.m + 1, 1)
    else Date(c.y + 1, 1, 1)
  }

  function PrevDay(c: Date): Date {
    if c.d > 1 then c.(d := c.d - 1)
    else if c.m > 1 then Date(c.y, c.m - 1, MonthDays(c.y, c.m - 1))
    else Date(c.y - 1, 12, 31)
  }

  const EPOCH := Date(1970, 1, 1)

  /** The date `n` days after 1970-01-01, or before it. */
  function DateOf(n: int): Date
    decreases if n < 0 then -n else n
  {
    if n == 0 then EPOCH
    else if n > 0 then NextDay(DateOf(n - 1))
    else PrevDay(DateOf(n + 1))
  }

  lemma {:induction false} NextAndPrev(c: Date)
    requires Valid(c)
    ensures Valid(NextDay(c)) && Valid(PrevDay(c)) && PrevDay(NextDay(c)) == c && NextDay(PrevDay(c)) == c
  {
  }

  lemma {:induction false} DateOfSteps(n: int)
    ensures Valid(DateOf(n)) && DateOf(n + 1) == NextDay(DateOf(n))
    decreases if n < 0 then -n else n
  {
    if n > 0 {
      DateOfSteps(n - 1);
      NextAndPrev(DateOf(n - 1));
    } else if n < 0 {
      DateOfSteps(n + 1);
      NextAndPrev(DateOf(n + 1));
    }
  }

  // ----------------------------------------------------------------- the closed formula

  /** C's division, which truncates toward zero. */
  function CDiv(a: int, b: int): int
    requires b > 0
  {
    if a >= 0 then a / b else -((-a) / b)
  }

  /** Days before month `m` in a year that starts on March 1. */
  function MonthStart(m: int): int {
    (153 * (if m > 2 then m - 3 else m + 9) + 2) / 5
  }

  function DaysFromCivil(y: int, m: int, d: int): int {
    var y1 := if m <= 2 then y - 1 else y;
    var era := CDiv(if y1 >= 0 then y1 else y1 - 399, 400);
    var yoe := y1 - era * 400;
    var doy := MonthStart(m) + d - 1;
    var doe := yoe * 365 + yoe / 4 - yoe / 100 + doy;
    era * 146097 + doe - 719468
  }

  function Days(c: Date): int {
    DaysFromCivil(c.y, c.m, c.d)
  }

  /** Days before March 1 of year `y`, counted from March 1 of year 0. */
  function YearStart(y: int): int {
    365 * y + y / 4 - y / 100 + y / 400
  }

  lemma {:induction false} EraIsFloor(y1: int)
    ensures CDiv(if y1 >= 0 then y1 else y1 - 399, 400) == y1 / 400
  {
  }

  lemma {:induction false} WholeEras(e: int, r: int)
    requires 0 <= r < 400
    ensures (400 * e + r) / 4 == 100 * e + r / 4 && (400 * e + r) / 100 == 4 * e + r / 100 && (400 * e + r) / 400 == e
  {
  }

  /** The formula without the eras. */
  lemma {:induction false} DaysByYear(y: int, m: int, d: int)
    ensures DaysFromCivil(y, m, d) == YearStart(if m <= 2 then y - 1 else y) + MonthStart(m) + d - 1 - 719468
  {
    var y1 := if m <= 2 then y - 1 else y;
    EraIsFloor(y1);
    WholeEras(y1 / 400, y1 % 400);
  }

  lemma {:induction false} YearLength(y: int)
    ensures YearStart(y) - YearStart(y - 1) == if Leap(y) then 366 else 365
  {
    Quotient(y, 4);
    Quotient(y, 100);
    Quotient(y, 400);
    LeapDays(y);
    hide Leap;
  }

  lemma {:induction false} LeapDays(y: int)
    ensures (if Leap(y) then 1 else 0)
      == (if y % 4 == 0 then 1 else 0) - (if y % 100 == 0 then 1 else 0) + (if y % 400 == 0 then 1 else 0)
  {
    Multiples(y, 25, 4);
    Multiples(y, 4, 100);
  }

  lemma {:induction false} Multiples(y: int, a: int, b: int)
    requires (a == 25 && b == 4) || (a == 4 && b == 100)
    ensures y % (a * b) == 0 ==> y % b == 0
  {
    if y % (a * b) == 0 {
      var q := y / (a * b);
      assert y == b * (a * q);
    }
  }

  lemma {:induction false} Quotient(y: int, k: int)
    requires k == 4 || k == 100 || k == 400
    ensures y / k - (y - 1) / k == if y % k == 0 then 1 else 0
  {
  }

  /** The month lengths are in the formula, the last day of February aside. */
  lemma {:induction false} MonthLength(m: int, y: int)
    requires 1 <= m <= 12 && m != 2
    ensures m < 12 ==> MonthStart(m + 1) - MonthStart(m) == MonthDays(y, m)
    ensures m == 12 ==> MonthStart(1) - MonthStart(12) == MonthDays(y, 12)
  {
    MonthTable();
  }

  lemma {:induction false} MonthTable()
    ensures MonthStart(3) == 0 && MonthStart(4) == 31 && MonthStart(5) == 61
    ensures MonthStart(6) == 92 && MonthStart(7) == 122
    ensures MonthStart(8) == 153 && MonthStart(9) == 184 && MonthStart(10) == 214 && MonthStart(11) == 245
    ensures MonthStart(12) == 275 && MonthStart(1) == 306 && MonthStart(2) == 337
  {
  }

  /** Each next civil day adds exactly one, across month ends, leap years and centuries, and 1970-01-01 is day 0. */
  lemma {:induction false} NextDayAddsOne(c: Date)
    requires Valid(c)
    ensures Days(NextDay(c)) == Days(c) + 1 && Days(EPOCH) == 0
  {
    hide DaysFromCivil, MonthStart, YearStart, Leap;
    MonthTable();
    var n := NextDay(c);
    DaysByYear(c.y, c.m, c.d);
    DaysByYear(n.y, n.m, n.d);
    DaysByYear(1970, 1, 1);
    YearStart1969();
    if c.m == 2 {
      YearLength(c.y);
    } else {
      MonthLength(c.m, c.y);
    }
  }

  lemma {:induction false} YearStart1969()
    ensures YearStart(1969) == 719162
  {
  }

  /** The formula counts the calendar: the two agree on every day there is. */
  lemma {:induction false} DaysCountCalendar(n: int)
    ensures Valid(DateOf(n)) && Days(DateOf(n)) == n
    decreases if n < 0 then -n else n
  {
    hide DaysFromCivil;
    if n == 0 {
      NextDayAddsOne(EPOCH);
    } else if n > 0 {
      DaysCountCalendar(n - 1);
      DateOfSteps(n - 1);
      DateOfSteps(n);
      NextDayAddsOne(DateOf(n - 1));
    } else {
      DaysCountCalendar(n + 1);
      DateOfSteps(n);
      NextDayAddsOne(DateOf(n));
    }
  }

  function Rank(c: Date): int {
    400 * c.y + 32 * c.m + c.d
  }

  lemma {:induction false} MonthIsShort(y: int, m: int)
    ensures 28 <= MonthDays(y, m) <= 31
  {
  }

  lemma {:induction false} RankOfNext(c: Date)
    requires Valid(c)
    ensures Rank(c) < Rank(NextDay(c))
    ensures Rank(c) < Rank(EPOCH) ==> Rank(NextDay(c)) <= Rank(EPOCH)
  {
    MonthIsShort(c.y, c.m);
    hide MonthDays;
  }

  lemma {:induction false} RankOfPrev(c: Date)
    requires Valid(c)
    ensures Rank(PrevDay(c)) < Rank(c)
    ensures c != EPOCH && Rank(c) > Rank(EPOCH) ==> Rank(PrevDay(c)) >= Rank(EPOCH)
    ensures Rank(c) == Rank(EPOCH) ==> c == EPOCH
  {
    MonthIsShort(c.y, c.m);
    MonthIsShort(c.y, c.m - 1);
    hide MonthDays;
  }

  lemma {:induction false} RankMoves(c: Date)
    requires Valid(c)
    ensures Rank(PrevDay(c)) < Rank(c) < Rank(NextDay(c))
    ensures c != EPOCH && Rank(c) > Rank(EPOCH) ==> Rank(PrevDay(c)) >= Rank(EPOCH)
    ensures Rank(c) < Rank(EPOCH) ==> Rank(NextDay(c)) <= Rank(EPOCH)
    ensures Rank(c) == Rank(EPOCH) ==> c == EPOCH
  {
    hide *;
    RankOfNext(c);
    RankOfPrev(c);
  }

  /** What holds of a day's number holds of its neighbours'. */
  lemma {:induction false} InvertNext(c: Date)
    requires Valid(c) && DateOf(Days(c)) == c
    ensures DateOf(Days(NextDay(c))) == NextDay(c)
  {
    hide *;
    NextDayAddsOne(c);
    DateOfSteps(Days(c));
  }

  lemma {:induction false} InvertPrev(c: Date)
    requires Valid(c) && DateOf(Days(c)) == c
    ensures DateOf(Days(PrevDay(c))) == PrevDay(c)
  {
    hide *;
    NextAndPrev(c);
    NextDayAddsOne(PrevDay(c));
    var n := Days(PrevDay(c));
    DateOfSteps(n);
    NextAndPrev(DateOf(n));
  }

  lemma {:induction false} EpochInverts()
    ensures DateOf(Days(EPOCH)) == EPOCH
  {
    NextDayAddsOne(EPOCH);
  }

  /** And every date there is gets counted: the day number gives the date back. */
  lemma {:induction false} CalendarInvertsDays(c: Date)
    requires Valid(c)
    ensures DateOf(Days(c)) == c
    decreases if Rank(c) < Rank(EPOCH) then Rank(EPOCH) - Rank(c) else Rank(c) - Rank(EPOCH)
  {
    hide Days, NextDay, PrevDay, Valid, DateOf, Rank;
    RankMoves(c);
    NextAndPrev(c);
    if Rank(c) > Rank(EPOCH) {
      CalendarInvertsDays(PrevDay(c));
      InvertNext(PrevDay(c));
    } else if Rank(c) < Rank(EPOCH) {
      CalendarInvertsDays(NextDay(c));
      InvertPrev(NextDay(c));
    } else {
      EpochInverts();
    }
  }

  lemma {:induction false} LaterDateLaterRank(n: int, k: nat)
    ensures Rank(DateOf(n)) + k <= Rank(DateOf(n + k))
  {
    if k > 0 {
      LaterDateLaterRank(n, k - 1);
      DateOfSteps(n + k - 1);
      RankMoves(DateOf(n + k - 1));
    }
  }

  // ----------------------------------------------------------------- the registers

  /** Two decimal digits, one in each half of a byte. */
  function ToBcd(v: nat): byte {
    (16 * (v / 10) + v % 10) % 256
  }

  function FromBcd(v: byte): byte {
    (10 * (v / 16) + v % 16) % 256
  }

  lemma {:induction false} Digits(t: nat, u: nat)
    requires t < 10 && u < 10
    ensures (16 * t + u) % 256 == 16 * t + u && (16 * t + u) / 16 == t && (16 * t + u) % 16 == u
  {
  }

  lemma {:induction false} BcdReadBack(v: nat)
    requires v < 100
    ensures FromBcd(ToBcd(v)) == v
    ensures v < 80 ==> ToBcd(v) % 128 == ToBcd(v)
    ensures v < 40 ==> ToBcd(v) % 64 == ToBcd(v)
    ensures v < 20 ==> ToBcd(v) % 32 == ToBcd(v)
  {
    Digits(v / 10, v % 10);
    BelowMask(v / 10, v % 10);
  }

  lemma {:induction false} BelowMask(t: nat, u: nat)
    requires t < 10 && u < 10
    ensures t < 8 ==> (16 * t + u) % 128 == 16 * t + u
    ensures t < 4 ==> (16 * t + u) % 64 == 16 * t + u
    ensures t < 2 ==> (16 * t + u) % 32 == 16 * t + u
  {
  }

  /** A UTC second as calendar date and time of day. */
  datatype Broken = Broken(date: Date, hour: nat, minute: nat, second: nat, weekday: nat)

  function Break(utc: int): Broken {
    var n, s := utc / 86400, utc % 86400;
    Broken(DateOf(n), s / 3600, s / 60 % 60, s % 60, (n + 4) % 7)
  }

  /** The seven registers from the seconds on, as the driver writes them; the year must be 2000 to 2099. */
  function Registers(utc: int): Option<seq<byte>> {
    var t := Break(utc);
    if !(2000 <= t.date.y < 2100) then None
    else
      Some([ToBcd(t.second) % 128, ToBcd(t.minute), ToBcd(t.hour), ToBcd(t.date.d), ToBcd(t.weekday), ToBcd(t.date.m),
            ToBcd(t.date.y - 2000)])
  }

  /** What the driver reads out of them: nothing if the oscillator stopped or the date is out of range. */
  function Decode(r: seq<byte>): Option<int>
    requires |r| == 7
  {
    var year, month, day := 2000 + FromBcd(r[6]), FromBcd(r[5] % 32), FromBcd(r[3] % 64);
    if r[0] >= 128 || month < 1 || month > 12 || day < 1 || day > 31 then None
    else
      Some(DaysFromCivil(year, month, day) * 86400 + FromBcd(r[2] % 64) * 3600 + FromBcd(r[1] % 128) * 60
          + FromBcd(r[0] % 128))
  }

  lemma {:induction false} TimeOfDay(s: int)
    requires 0 <= s < 86400
    ensures 0 <= s / 3600 < 24 && 0 <= s / 60 % 60 < 60 && 0 <= s % 60 < 60
    ensures s / 3600 * 3600 + s / 60 % 60 * 60 + s % 60 == s
  {
    var m := s / 60;
    assert s == 60 * m + s % 60;
    assert m == 60 * (m / 60) + m % 60;
    assert m / 60 == s / 3600;
  }

  /** Every second of the years 2000 to 2099 comes back from the chip as it was written. */
  lemma {:induction false} WrittenIsRead(utc: int)
    requires Registers(utc).Some?
    ensures |Registers(utc).value| == 7 && Decode(Registers(utc).value) == Some(utc)
  {
    hide DaysFromCivil, ToBcd, FromBcd, DateOf;
    var t := Break(utc);
    DaysCountCalendar(utc / 86400);
    TimeOfDay(utc % 86400);
    BcdReadBack(t.second);
    BcdReadBack(t.minute);
    BcdReadBack(t.hour);
    BcdReadBack(t.date.d);
    BcdReadBack(t.date.m);
    BcdReadBack(t.date.y - 2000);
  }

  /** 1970-01-01 was a Thursday, and each midnight begins the next weekday. */
  lemma {:induction false} WeekdaysRun(utc: int)
    ensures Break(0).weekday == 4 && Break(utc).weekday < 7
    ensures Break(utc + 1).weekday ==
      if (utc + 1) % 86400 != 0 then Break(utc).weekday
      else if Break(utc).weekday == 6 then 0
      else Break(utc).weekday + 1
  {
    hide DateOf;
    var n, s := utc / 86400, utc % 86400;
    assert utc == n * 86400 + s;
    if s == 86399 {
      Numbers.Divided(n + 1, 0, 86400);
    } else {
      Numbers.Divided(n, s + 1, 86400);
    }
    NextOfSeven(n + 4);
  }

  lemma {:induction false} NextOfSeven(n: int)
    ensures (n + 1) % 7 == if n % 7 == 6 then 0 else n % 7 + 1
  {
  }

  /** Two decimal digits in one byte. */
  function TwoDigits(v: nat): byte
    requires v < 100
  {
    16 * (v / 10) + v % 10
  }

  /** A date and time of the years 2000 to 2099 as the chip holds it. */
  function Held(c: Date, hour: nat, minute: nat, second: nat, weekday: byte): seq<byte>
    requires Valid(c) && 2000 <= c.y < 2100 && hour < 24 && minute < 60 && second < 60
  {
    [TwoDigits(second), TwoDigits(minute), TwoDigits(hour), TwoDigits(c.d), weekday, TwoDigits(c.m),
     TwoDigits(c.y - 2000)]
  }

  lemma {:induction false} BcdIsDigits(v: nat)
    requires v < 100
    ensures ToBcd(v) == TwoDigits(v)
  {
    Digits(v / 10, v % 10);
  }

  lemma {:induction false} OneDigit(v: nat)
    requires v < 10
    ensures TwoDigits(v) == v
  {
  }

  function SecondOf(c: Date, hour: nat, minute: nat, second: nat): int {
    Days(c) * 86400 + hour * 3600 + minute * 60 + second
  }

  lemma {:induction false} TimeParts(hour: nat, minute: nat, second: nat)
    requires hour < 24 && minute < 60 && second < 60
    ensures var s := hour * 3600 + minute * 60 + second;
      s < 86400 && s / 3600 == hour && s / 60 % 60 == minute && s % 60 == second
  {
    var s := hour * 3600 + minute * 60 + second;
    Numbers.Divided(hour, minute * 60 + second, 3600);
    Numbers.Divided(hour * 60 + minute, second, 60);
    Numbers.Divided(hour, minute, 60);
  }

  lemma {:induction false} BrokenDown(c: Date, hour: nat, minute: nat, second: nat)
    requires Valid(c) && hour < 24 && minute < 60 && second < 60
    ensures var t := Break(SecondOf(c, hour, minute, second));
      t == Broken(c, hour, minute, second, t.weekday)
  {
    var s := hour * 3600 + minute * 60 + second;
    TimeParts(hour, minute, second);
    Numbers.Divided(Days(c), s, 86400);
    CalendarInvertsDays(c);
    hide Days, DateOf, Valid;
  }

  /** What is sent to the chip: every part of date and time as two decimal digits, Sunday as 0. */
  lemma {:induction false} RegistersHold(c: Date, hour: nat, minute: nat, second: nat)
    requires Valid(c) && 2000 <= c.y < 2100 && hour < 24 && minute < 60 && second < 60
    ensures var utc := SecondOf(c, hour, minute, second);
      Registers(utc) == Some(Held(c, hour, minute, second, Break(utc).weekday))
  {
    var utc := SecondOf(c, hour, minute, second);
    hide Days, DaysFromCivil, MonthDays, DateOf, ToBcd, Break, SecondOf, FromBcd, TwoDigits;
    MonthIsShort(c.y, c.m);
    BrokenDown(c, hour, minute, second);
    WeekdaysRun(utc);
    BcdIsDigits(second);
    BcdIsDigits(minute);
    BcdIsDigits(hour);
    BcdIsDigits(c.d);
    BcdIsDigits(c.m);
    BcdIsDigits(c.y - 2000);
    BcdIsDigits(Break(utc).weekday);
    OneDigit(Break(utc).weekday);
    BcdReadBack(second);
  }

  lemma {:induction false} DigitsRead(v: nat)
    requires v < 100
    ensures FromBcd(TwoDigits(v)) == v
    ensures v < 80 ==> FromBcd(TwoDigits(v) % 128) == v && TwoDigits(v) < 128
    ensures v < 40 ==> FromBcd(TwoDigits(v) % 64) == v
    ensures v < 20 ==> FromBcd(TwoDigits(v) % 32) == v
  {
    BcdIsDigits(v);
    BcdReadBack(v);
    hide FromBcd, ToBcd;
  }

  /** Whatever wrote the registers: what they hold is read, and nothing once the oscillator stopped. */
  lemma {:induction false} HeldIsRead(c: Date, hour: nat, minute: nat, second: nat, weekday: byte)
    requires Valid(c) && 2000 <= c.y < 2100 && hour < 24 && minute < 60 && second < 60
    ensures var r := Held(c, hour, minute, second, weekday);
      && Decode(r) == Some(SecondOf(c, hour, minute, second))
      && r[0] < 128 && Decode(r[0 := r[0] + 128]) == None
  {
    hide ToBcd, FromBcd, TwoDigits, DaysFromCivil, MonthDays;
    MonthIsShort(c.y, c.m);
    DigitsRead(second);
    DigitsRead(minute);
    DigitsRead(hour);
    DigitsRead(c.d);
    DigitsRead(c.m);
    DigitsRead(c.y - 2000);
  }

  lemma {:induction false} HalfByte(q: nat, r: nat)
    ensures (32 * q + r) % 16 == r % 16 && (64 * q + r) % 16 == r % 16
  {
    Numbers.Divided(2 * q + r / 16, r % 16, 16);
    Numbers.Divided(4 * q + r / 16, r % 16, 16);
  }

  lemma {:induction false} FromHalves(v: nat)
    requires v < 64
    ensures FromBcd(v) == 10 * (v / 16) + v % 16
  {
  }

  lemma {:induction false} LowDigit(b: byte)
    ensures FromBcd(b % 32) == 10 * (b % 32 / 16) + b % 16 && FromBcd(b % 64) == 10 * (b % 64 / 16) + b % 16
  {
    hide FromBcd;
    HalfByte(b / 32, b % 32);
    HalfByte(b / 64, b % 64);
    FromHalves(b % 32);
    FromHalves(b % 64);
  }

  /** Nothing is read exactly if the oscillator stopped, or month or day are none. */
  lemma {:induction false} ReadRefuses(r: seq<byte>)
    requires |r| == 7
    ensures var month, day := 10 * (r[5] % 32 / 16) + r[5] % 16, 10 * (r[3] % 64 / 16) + r[3] % 16;
      Decode(r).None? <==> r[0] >= 128 || !(1 <= month <= 12) || !(1 <= day <= 31)
  {
    LowDigit(r[3]);
    LowDigit(r[5]);
    hide DaysFromCivil, FromBcd;
  }

  const FROM_2000 := 946684800
  const TO_2100 := 4102444800

  /** The days of a year come from its first day on. */
  lemma {:induction false} YearByDay(n: int, y: int)
    ensures DateOf(n).y >= y <==> n >= Days(Date(y, 1, 1))
  {
    var first := Days(Date(y, 1, 1));
    CalendarInvertsDays(Date(y, 1, 1));
    DateOfSteps(n);
    YearByRank(DateOf(n), y);
    hide Days, DateOf;
    if n >= first {
      LaterDateLaterRank(first, n - first);
    } else {
      LaterDateLaterRank(n, first - n);
    }
  }

  lemma {:induction false} TwoYears()
    ensures Days(Date(2000, 1, 1)) == 10957 && Days(Date(2100, 1, 1)) == 47482
  {
  }

  /** Those are the seconds from 2000-01-01 up to 2100-01-01, and no others can be written. */
  lemma {:induction false} WritableYears(utc: int)
    ensures Registers(utc).Some? <==> FROM_2000 <= utc < TO_2100
  {
    TwoYears();
    YearByDay(utc / 86400, 2000);
    YearByDay(utc / 86400, 2100);
    hide Days, DateOf, ToBcd;
  }

  lemma {:induction false} YearByRank(c: Date, y: int)
    requires Valid(c)
    ensures c.y >= y <==> Rank(c) >= Rank(Date(y, 1, 1))
  {
  }

  // ----------------------------------------------------------------- the driver

  /** The chip's time registers. */
  class Rtc {
    const regs: array<byte>

    constructor ()
      ensures regs.Length == 7 && fresh(regs)
    {
      regs := new byte[7](i => 0);
    }

    method Write(utc: int) returns (ok: bool)
      requires regs.Length == 7
      modifies regs
      ensures ok == Registers(utc).Some?
      ensures regs[..] == if ok then Registers(utc).value else old(regs[..])
    {
      hide DateOf;
      var t := Break(utc);
      DateOfSteps(utc / 86400);
      ok := 2000 <= t.date.y < 2100;
      if ok {
        regs[0], regs[1], regs[2] := ToBcd(t.second) % 128, ToBcd(t.minute), ToBcd(t.hour);
        regs[3], regs[4] := ToBcd(t.date.d), ToBcd(t.weekday);
        regs[5], regs[6] := ToBcd(t.date.m), ToBcd(t.date.y - 2000);
      }
    }

    method Read() returns (utc: Option<int>)
      requires regs.Length == 7
      ensures utc == Decode(regs[..])
    {
      hide DaysFromCivil;
      if regs[0] >= 128 {
        return None;
      }
      var year, month, day := 2000 + FromBcd(regs[6]), FromBcd(regs[5] % 32), FromBcd(regs[3] % 64);
      if month < 1 || month > 12 || day < 1 || day > 31 {
        return None;
      }
      var days := DaysFromCivil(year, month, day);
      utc := Some(days * 86400 + FromBcd(regs[2] % 64) * 3600 + FromBcd(regs[1] % 128) * 60 + FromBcd(regs[0] % 128));
    }
  }
}
