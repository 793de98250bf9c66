/**
 The archive's date arithmetic: a day number turned into a civil date by one closed formula,
 against the proleptic Gregorian calendar counted one day at a time from 1 January 1970.
 */
module Calendar {
  datatype Date = Date(year: int, month: int, day: int)

  // ---------------------------------------------------------------- the simple calendar

  predicate Leap(year: int) {
    year % 4 == 0 && (year % 100 != 0 || year % 400 == 0)
  }

  function MonthLength(year: int, month: int): int {
    if month == 2 then (if Leap(year) then 29 else 28)
    else if month in {4, 6, 9, 11} then 30 else 31
  }

  predicate Valid(d: Date) {
    1 <= d.month <= 12 && 1 <= d.day <= MonthLength(d.year, d.month)
  }

  function NextDay(d: Date): Date {
    if d.day < MonthLength(d.year, d.month) then d.(day := d.day + 1)
    else if d.month < 12 then Date(d.year, d.month + 1, 1)
    else Date(d.year + 1, 1, 1)
  }

  function PreviousDay(d: Date): Date {
    if d.day > 1 then d.(day := d.day - 1)
    else if d.month > 1 then Date(d.year, d.month - 1, MonthLength(d.year, d.month - 1))
    else Date(d.year - 1, 12, 31)
  }

  /** The date `n` days after (or before) 1 January 1970. */
  function DateOf(n: int): Date
    decreases if n < 0 then -n else n
  {
    if n == 0 then Date(1970, 1, 1)
    else if n > 0 then NextDay(DateOf(n - 1))
    else PreviousDay(DateOf(n + 1))
  }

  lemma PreviousUndoesNext(d: Date)
    requires Valid(d)
    ensures PreviousDay(NextDay(d)) == d && Valid(NextDay(d))
  {}

  // ---------------------------------------------------------------- the formula

  /** Division of machine integers: the quotient is rounded toward zero. */
  function Truncated(a: int, b: int): int
    requires b > 0
  {
    if a >= 0 then a / b else -((-a) / b)
  }

  function Era(z: int): int {
    Truncated(if z >= 0 then z else z - 146_096, 146_097)
  }

  function YearOfEra(doe: int): int {
    Truncated(doe - Truncated(doe, 1460) + Truncated(doe, 36_524) - Truncated(doe, 146_096), 365)
  }

  /** Month and day of the `doy`-th day of a year that begins on 1 March. */
  function MonthOf(doy: int): int {
    var mp := Truncated(5 * doy + 2, 153);
    if mp < 10 then mp + 3 else mp - 9
  }

  function DayOf(doy: int): int {
    var mp := Truncated(5 * doy + 2, 153);
    doy - Truncated(153 * mp + 2, 5) + 1
  }

  function DayOfYear(doe: int, yoe: int): int {
    doe - (365 * yoe + Truncated(yoe, 4) - Truncated(yoe, 100))
  }

  function CivilFromDays(days: int): Date {
    var z := days + 719_468;
    var era := Era(z);
    var doe := z - era * 146_097;
    var yoe := YearOfEra(doe);
    var year := yoe + era * 400;
    var doy := DayOfYear(doe, yoe);
    Date(if MonthOf(doy) <= 2 then year + 1 else year, MonthOf(doy), DayOf(doy))
  }

  // ---------------------------------------------------------------- positions within an era

  /** The day `doy` of the year `100 c + 4 q + a` of an era, years beginning on 1 March. */
  datatype Position = Position(c: int, q: int, a: int, doy: int)

  predicate HasLeapDay(p: Position) {
    p.a == 3 && (p.q < 24 || p.c == 3)
  }

  predicate Proper(p: Position) {
    && 0 <= p.c <= 3 && 0 <= p.q <= 24 && 0 <= p.a <= 3
    && 0 <= p.doy <= if HasLeapDay(p) then 365 else 364
  }

  function YearAt(p: Position): int {
    100 * p.c + 4 * p.q + p.a
  }

  function DayAt(p: Position): int {
    36_524 * p.c + 1461 * p.q + 365 * p.a + p.doy
  }

  function PositionOf(doe: int): Position {
    var c := if doe >= 3 * 36_524 then 3 else doe / 36_524;
    var r := doe - 36_524 * c;
    var q := r / 1461;
    var t := r - 1461 * q;
    var a := if t >= 3 * 365 then 3 else t / 365;
    Position(c, q, a, t - 365 * a)
  }

  lemma PositionFound(doe: int)
    requires 0 <= doe < 146_097
    ensures Proper(PositionOf(doe)) && DayAt(PositionOf(doe)) == doe
  {
    var p := PositionOf(doe);
    assert 0 <= p.c <= 3;
    var r := doe - 36_524 * p.c;
    assert 0 <= r <= 36_524;
    assert r == 36_524 ==> p.c == 3;
    assert 0 <= p.q <= 24;
  }

  lemma DayInEra(p: Position)
    requires Proper(p)
    ensures 0 <= DayAt(p) < 146_097
    ensures DayAt(p) == 146_096 <==> p == Position(3, 24, 3, 365)
  {}

  /** The divisions of the closed formula, at a position that is not an era's last day. */
  lemma Quotients(p: Position)
    requires Proper(p) && DayAt(p) < 146_096
    ensures DayAt(p) / 146_096 == 0 && DayAt(p) / 36_524 == p.c
    ensures DayAt(p) / 1460 ==
            25 * p.c + p.q + if 24 * p.c + p.q + 365 * p.a + p.doy >= 1460 then 1 else 0
  {
    var (d, r) := (DayAt(p), 1461 * p.q + 365 * p.a + p.doy);
    assert 0 <= r < 36_524;
    assert d == 36_524 * p.c + r;
    var rest := 24 * p.c + p.q + 365 * p.a + p.doy;
    assert d == 1460 * (25 * p.c + p.q) + rest;
  }

  /** The closed formula finds the year of every day of an era. */
  lemma YearFound(p: Position)
    requires Proper(p)
    ensures YearOfEra(DayAt(p)) == YearAt(p) && DayOfYear(DayAt(p), YearAt(p)) == p.doy
  {
    var (d, y) := (DayAt(p), YearAt(p));
    DayInEra(p);
    YearQuotients(p);
    if d < 146_096 {
      Quotients(p);
      var e := if 24 * p.c + p.q + 365 * p.a + p.doy >= 1460 then 1 else 0;
      assert d - d / 1460 + d / 36_524 - d / 146_096 == 365 * y + p.doy - e;
      assert 0 <= p.doy - e < 365;
    }
  }

  lemma YearQuotients(p: Position)
    requires Proper(p)
    ensures YearAt(p) / 4 == 25 * p.c + p.q && YearAt(p) / 100 == p.c
  {
    assert YearAt(p) == 4 * (25 * p.c + p.q) + p.a;
    assert YearAt(p) == 100 * p.c + (4 * p.q + p.a);
  }

  // ---------------------------------------------------------------- months

  /** Within a year from March to February, the month formula moves on exactly at the ends of months. */
  lemma MonthStep(doy: int)
    requires 0 <= doy < 364
    ensures var (m, d) := (MonthOf(doy), DayOf(doy));
            var last := if m == 2 then 28 else MonthLength(1, m);
            && 1 <= m <= 12 && 1 <= d <= last
            && (d < last ==> MonthOf(doy + 1) == m && DayOf(doy + 1) == d + 1)
            && (d == last ==> MonthOf(doy + 1) == (if m == 12 then 1 else m + 1) && DayOf(doy + 1) == 1)
  {
    MonthTable(doy);
    MonthTable(doy + 1);
  }

  /** The first day of each month, counted from 1 March. */
  function MonthStart(mp: int): int {
    [0, 31, 61, 92, 122, 153, 184, 214, 245, 275, 306, 337, 366][if 0 <= mp <= 12 then mp else 0]
  }

  function MonthIndex(doy: int): int {
    if doy < 31 then 0 else if doy < 61 then 1 else if doy < 92 then 2 else if doy < 122 then 3
    else if doy < 153 then 4 else if doy < 184 then 5 else if doy < 214 then 6 else if doy < 245 then 7
    else if doy < 275 then 8 else if doy < 306 then 9 else if doy < 337 then 10 else 11
  }

  lemma MonthTable(doy: int)
    requires 0 <= doy <= 365
    ensures var mp := MonthIndex(doy);
            && MonthOf(doy) == (if mp < 10 then mp + 3 else mp - 9)
            && DayOf(doy) == doy - MonthStart(mp) + 1
            && MonthStart(mp) <= doy < MonthStart(mp + 1)
  {
    var mp := MonthIndex(doy);
    assert (5 * doy + 2) / 153 == mp;
    assert (153 * mp + 2) / 5 == MonthStart(mp);
  }

  // ---------------------------------------------------------------- one day further

  function DateAt(era: int, p: Position): Date {
    var year := YearAt(p) + era * 400;
    Date(if MonthOf(p.doy) <= 2 then year + 1 else year, MonthOf(p.doy), DayOf(p.doy))
  }

  function Advance(p: Position): Position {
    if p.doy < (if HasLeapDay(p) then 365 else 364) then p.(doy := p.doy + 1)
    else if p.a < 3 then Position(p.c, p.q, p.a + 1, 0)
    else if p.q < 24 then Position(p.c, p.q + 1, 0, 0)
    else Position(p.c + 1, 0, 0, 0)
  }

  lemma LeapYears(era: int, p: Position)
    requires Proper(p)
    ensures Leap(YearAt(p) + era * 400 + 1) <==> HasLeapDay(p)
  {
    var y := YearAt(p) + era * 400 + 1;
    assert y == 4 * (100 * era + 25 * p.c + p.q) + (p.a + 1);
    assert y == 100 * (4 * era + p.c) + (4 * p.q + p.a + 1);
    assert y == 400 * era + (100 * p.c + 4 * p.q + p.a + 1);
  }

  lemma AdvanceIsNext(p: Position)
    requires Proper(p) && p != Position(3, 24, 3, 365)
    ensures Proper(Advance(p)) && DayAt(Advance(p)) == DayAt(p) + 1
  {}

  lemma NextWithinYear(era: int, p: Position)
    requires Proper(p) && p.doy < 364
    ensures Valid(DateAt(era, p)) && NextDay(DateAt(era, p)) == DateAt(era, p.(doy := p.doy + 1))
  {
    MonthStep(p.doy);
    hide MonthOf, DayOf, Leap;
  }

  lemma NextAtYearEnd(era: int, p: Position)
    requires Proper(p) && p.doy >= 364
    ensures Valid(DateAt(era, p))
    ensures NextDay(DateAt(era, p)) ==
            if p.doy == 364 && HasLeapDay(p) then DateAt(era, p.(doy := 365))
            else Date(YearAt(p) + era * 400 + 1, 3, 1)
  {
    LeapYears(era, p);
    MonthTable(p.doy);
    MonthTable(365);
    hide MonthOf, DayOf, Leap, YearAt, HasLeapDay;
  }

  lemma AdvanceWithinYear(p: Position)
    requires p.doy < 364
    ensures Advance(p) == p.(doy := p.doy + 1)
  {}

  lemma AdvanceAtYearEnd(p: Position)
    requires Proper(p) && p.doy >= 364 && p != Position(3, 24, 3, 365)
    ensures if p.doy == 364 && HasLeapDay(p) then Advance(p) == p.(doy := 365)
            else Advance(p).doy == 0 && YearAt(Advance(p)) == YearAt(p) + 1
  {}

  lemma LastYear()
    ensures YearAt(Position(3, 24, 3, 365)) == 399 && YearAt(Position(0, 0, 0, 0)) == 0
  {}

  lemma FirstOfMarch(era: int, p: Position)
    requires p.doy == 0
    ensures DateAt(era, p) == Date(YearAt(p) + era * 400, 3, 1)
  {
    MonthTable(0);
  }

  /** The date after a position is the date at the next position, also across eras. */
  lemma DateAdvances(era: int, p: Position)
    requires Proper(p)
    ensures Valid(DateAt(era, p))
    ensures NextDay(DateAt(era, p)) ==
            if p == Position(3, 24, 3, 365) then DateAt(era + 1, Position(0, 0, 0, 0)) else DateAt(era, Advance(p))
  {
    hide DateAt, NextDay, Valid, Proper, YearAt, Advance, HasLeapDay;
    if p.doy < 364 {
      NextWithinYear(era, p);
      AdvanceWithinYear(p);
    } else {
      NextAtYearEnd(era, p);
      if p == Position(3, 24, 3, 365) {
        LastYear();
        FirstOfMarch(era + 1, Position(0, 0, 0, 0));
      } else {
        AdvanceAtYearEnd(p);
        if Advance(p).doy == 0 { FirstOfMarch(era, Advance(p)); }
      }
    }
  }

  lemma CivilAt(days: int, era: int, p: Position)
    requires Proper(p) && days + 719_468 == era * 146_097 + DayAt(p)
    ensures CivilFromDays(days) == DateAt(era, p)
  {
    DayInEra(p);
    EraFound(days + 719_468, era, DayAt(p));
    YearFound(p);
    hide YearOfEra, DayOfYear, MonthOf, DayOf, Era, Proper, DayAt, YearAt;
  }

  lemma EraFound(z: int, era: int, doe: int)
    requires z == era * 146_097 + doe && 0 <= doe < 146_097
    ensures Era(z) == era
  {
    if z < 0 {
      var n := 146_096 - z;
      assert n == (-era) * 146_097 + (146_096 - doe);
      assert n / 146_097 == -era;
    }
  }

  lemma Locate(z: int) returns (era: int, p: Position)
    ensures Proper(p) && z == era * 146_097 + DayAt(p)
  {
    era, p := z / 146_097, PositionOf(z % 146_097);
    PositionFound(z % 146_097);
  }

  /** One day later, the formula gives the next day: for every day number. */
  lemma CivilAdvances(days: int)
    ensures Valid(CivilFromDays(days))
    ensures CivilFromDays(days + 1) == NextDay(CivilFromDays(days))
  {
    hide CivilFromDays, DateAt, NextDay, Valid, Advance, Proper, DayAt;
    var era, p := Locate(days + 719_468);
    CivilAt(days, era, p);
    DateAdvances(era, p);
    if p == Position(3, 24, 3, 365) {
      EraTurns();
      CivilAt(days + 1, era + 1, Position(0, 0, 0, 0));
    } else {
      AdvanceIsNext(p);
      CivilAt(days + 1, era, Advance(p));
    }
  }

  lemma EraTurns()
    ensures DayAt(Position(3, 24, 3, 365)) == 146_096
    ensures Proper(Position(0, 0, 0, 0)) && DayAt(Position(0, 0, 0, 0)) == 0
  {}

  /** Day 0 is the 307th day of the March year 1969, the 70th of its century. */
  lemma Epoch()
    ensures CivilFromDays(0) == Date(1970, 1, 1)
  {
    var p := Position(3, 17, 1, 306);
    CivilAt(0, 4, p);
    MonthTable(306);
    hide MonthOf, DayOf;
  }

  /** The formula is the proleptic Gregorian calendar, for every integer day. */
  lemma {:induction false} CivilIsGregorian(days: int)
    ensures CivilFromDays(days) == DateOf(days)
    decreases if days < 0 then -days else days
  {
    hide CivilFromDays, NextDay, PreviousDay, Valid;
    if days == 0 {
      Epoch();
    } else if days > 0 {
      CivilIsGregorian(days - 1);
      CivilAdvances(days - 1);
    } else {
      CivilIsGregorian(days + 1);
      CivilAdvances(days);
      PreviousUndoesNext(CivilFromDays(days));
    }
  }
}
