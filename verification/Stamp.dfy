/**
 The names of archived runs. A run is archived under its UTC second, so sorting the names must
 sort the runs by time: the newest run that is not the candidate is then the last name left.
 */
module Stamp {
  import opened Options
  import opened Calendar

  // ---------------------------------------------------------------- text

  /** Byte-wise order of names. */
  predicate Less(a: string, b: string) {
    if b == "" then false
    else if a == "" then true
    else if a[0] != b[0] then a[0] < b[0]
    else Less(a[1..], b[1..])
  }

  function Digit(d: nat): char {
    "0123456789"[if d < 10 then d else 0]
  }

  function Decimal(n: nat): string {
    if n < 10 then [Digit(n)] else Decimal(n / 10) + [Digit(n % 10)]
  }

  function Fill(k: nat): string {
    seq(k, i => '0')
  }

  /** Decimal, filled up with zeros on the left to `width` digits; a longer number keeps its digits. */
  function Format(n: nat, width: nat): string {
    var digits := Decimal(n);
    if |digits| < width then Fill(width - |digits|) + digits else digits
  }

  /** The last `width` decimal digits of `n`. */
  function Fixed(n: nat, width: nat): (r: string)
    ensures |r| == width
  {
    if width == 0 then "" else Fixed(n / 10, width - 1) + [Digit(n % 10)]
  }

  function Pow10(w: nat): nat {
    if w == 0 then 1 else 10 * Pow10(w - 1)
  }

  lemma {:induction false} FixedZero(w: nat)
    ensures Fixed(0, w) == Fill(w)
  {
    if w > 0 {
      FixedZero(w - 1);
      assert Fill(w) == Fill(w - 1) + ['0'];
    }
  }

  /** Zeros before the digits of a number that fits make up its fixed-width form. */
  lemma {:induction false} FilledIsFixed(n: nat, w: nat)
    requires w > 0 && n < Pow10(w)
    ensures |Decimal(n)| <= w && Fill(w - |Decimal(n)|) + Decimal(n) == Fixed(n, w)
  {
    if n < 10 {
      FixedZero(w - 1);
      assert n / 10 == 0 && n % 10 == n;
    } else {
      assert w > 1 && n / 10 < Pow10(w - 1);
      FilledIsFixed(n / 10, w - 1);
      hide Fill, Fixed;
      Associate(Fill(w - |Decimal(n)|), Decimal(n / 10), [Digit(n % 10)]);
      FixedStep(n, w);
    }
  }

  lemma FixedStep(n: nat, w: nat)
    requires w > 0
    ensures Fixed(n, w) == Fixed(n / 10, w - 1) + [Digit(n % 10)]
  {}

  lemma Associate(a: string, b: string, c: string)
    ensures a + (b + c) == a + b + c
  {}

  /** A number that fits is formatted to exactly its width. */
  lemma FormatIsFixed(n: nat, w: nat)
    requires w > 0 && n < Pow10(w)
    ensures Format(n, w) == Fixed(n, w)
  {
    FilledIsFixed(n, w);
    assert Fill(0) + Decimal(n) == Decimal(n);
  }

  lemma {:induction false} PrefixDecides(a: string, b: string, x: string, y: string)
    requires |a| == |b| && Less(a, b)
    ensures Less(a + x, b + y)
  {
    assert (a + x)[0] == a[0] && (b + y)[0] == b[0];
    if a[0] == b[0] {
      PrefixDecides(a[1..], b[1..], x, y);
      assert (a + x)[1..] == a[1..] + x && (b + y)[1..] == b[1..] + y;
    }
  }

  lemma {:induction false} PrefixCancels(a: string, x: string, y: string)
    ensures Less(a + x, a + y) <==> Less(x, y)
  {
    if a == "" {
      assert a + x == x && a + y == y;
    } else {
      PrefixCancels(a[1..], x, y);
      assert (a + x)[1..] == a[1..] + x && (a + y)[1..] == a[1..] + y;
    }
  }

  lemma {:induction false} LessIsStrict(a: string, b: string)
    requires Less(a, b)
    ensures !Less(b, a)
  {
    if a != "" && a[0] == b[0] { LessIsStrict(a[1..], b[1..]); }
  }

  /** Fixed-width numbers order as texts the way they order as numbers. */
  lemma {:induction false} FixedOrder(m: nat, n: nat, w: nat)
    requires m < n < Pow10(w)
    ensures Less(Fixed(m, w), Fixed(n, w))
    decreases w
  {
    if m / 10 < n / 10 {
      FixedOrder(m / 10, n / 10, w - 1);
      PrefixDecides(Fixed(m / 10, w - 1), Fixed(n / 10, w - 1), [Digit(m % 10)], [Digit(n % 10)]);
    } else {
      assert m / 10 == n / 10 && m % 10 < n % 10;
      PrefixCancels(Fixed(m / 10, w - 1), [Digit(m % 10)], [Digit(n % 10)]);
    }
  }

  // ---------------------------------------------------------------- stamps

  /** Three numbers in a row, the first `width` digits wide and the others two, then `rest`. */
  function Triple(width: nat, a: nat, b: nat, c: nat, rest: string): string {
    Format(a, width) + (Format(b, 2) + (Format(c, 2) + rest))
  }

  function Day(second: nat): Date {
    CivilFromDays(second / 86_400)
  }

  lemma DayIsLate(second: nat)
    ensures Day(second).year >= 1970 && 1 <= Day(second).month <= 12 && 1 <= Day(second).day <= 31
  {
    hide CivilFromDays;
    CivilAdvances(second / 86_400);
    Epoch();
    if second / 86_400 > 0 { DaysOrder(0, second / 86_400); }
  }

  function TimeText(second: nat): string {
    Triple(2, second / 3600, second % 3600 / 60, second % 60, "Z")
  }

  /** The stamp of `second`, counted from 1970: date, a T, time, a Z. */
  function StampOf(second: nat): string {
    DayIsLate(second);
    Triple(4, Day(second).year, Day(second).month, Day(second).day, "T" + TimeText(second % 86_400))
  }

  predicate DateLess(d: Date, e: Date) {
    d.year < e.year || (d.year == e.year && (d.month < e.month || (d.month == e.month && d.day < e.day)))
  }

  lemma NextIsLater(d: Date)
    requires Valid(d)
    ensures DateLess(d, NextDay(d))
  {}

  /** Later days have later dates. */
  lemma {:induction false} DaysOrder(m: int, n: int)
    requires m < n
    ensures DateLess(CivilFromDays(m), CivilFromDays(n))
    decreases n - m
  {
    hide CivilFromDays, NextDay, Valid;
    CivilAdvances(n - 1);
    NextIsLater(CivilFromDays(n - 1));
    if m < n - 1 { DaysOrder(m, n - 1); }
  }

  lemma TripleOrder(w: nat, a: nat, b: nat, c: nat, x: string, d: nat, e: nat, f: nat, y: string)
    requires a < d || (a == d && (b < e || (b == e && c < f)))
    requires w > 0 && d < Pow10(w) && b < 100 && e < 100 && c < 100 && f < 100
    ensures Less(Triple(w, a, b, c, x), Triple(w, d, e, f, y))
  {
    assert Pow10(2) == 100 by { assert Pow10(1) == 10; }
    FormatIsFixed(a, w);
    FormatIsFixed(d, w);
    FormatIsFixed(b, 2);
    FormatIsFixed(e, 2);
    FormatIsFixed(c, 2);
    FormatIsFixed(f, 2);
    hide Format, Fixed, Pow10;
    var (cx, fy) := (Format(c, 2) + x, Format(f, 2) + y);
    var (bx, ey) := (Format(b, 2) + cx, Format(e, 2) + fy);
    if a < d {
      FixedOrder(a, d, w);
      PrefixDecides(Format(a, w), Format(d, w), bx, ey);
    } else {
      PrefixCancels(Format(a, w), bx, ey);
      if b < e {
        FixedOrder(b, e, 2);
        PrefixDecides(Format(b, 2), Format(e, 2), cx, fy);
      } else {
        PrefixCancels(Format(b, 2), cx, fy);
        FixedOrder(c, f, 2);
        PrefixDecides(Format(c, 2), Format(f, 2), x, y);
      }
    }
  }

  lemma TripleLength(w: nat, a: nat, b: nat, c: nat, x: string)
    requires w > 0 && a < Pow10(w) && b < 100 && c < 100
    ensures |Triple(w, a, b, c, x)| == w + 4 + |x|
  {
    assert Pow10(2) == 100 by { assert Pow10(1) == 10; }
    FormatIsFixed(a, w);
    FormatIsFixed(b, 2);
    FormatIsFixed(c, 2);
  }

  lemma Powers()
    ensures Pow10(4) == 10_000 && Pow10(2) == 100
  {
    assert Pow10(1) == 10;
    assert Pow10(3) == 1000;
  }

  lemma ClockOrder(s: nat, t: nat)
    requires s < t < 86_400
    ensures var (h, i, m, n) := (s / 3600, t / 3600, s % 3600 / 60, t % 3600 / 60);
            h < i < 24 || (h == i < 24 && (m < n || (m == n && s % 60 < t % 60)))
    ensures s % 3600 / 60 < 60 && t % 3600 / 60 < 60
  {}

  lemma TimeTextOrder(s: nat, t: nat)
    requires s < t < 86_400
    ensures Less(TimeText(s), TimeText(t))
  {
    ClockOrder(s, t);
    Powers();
    TripleOrder(2, s / 3600, s % 3600 / 60, s % 60, "Z", t / 3600, t % 3600 / 60, t % 60, "Z");
  }

  /** Before the year 10000, every stamp has sixteen characters. */
  lemma StampLength(second: nat)
    requires Day(second).year < 10_000
    ensures |StampOf(second)| == 16
  {
    hide Day;
    DayIsLate(second);
    Powers();
    var t := second % 86_400;
    assert t / 3600 < 24 && t % 3600 / 60 < 60;
    TripleLength(2, t / 3600, t % 3600 / 60, t % 60, "Z");
    TripleLength(4, Day(second).year, Day(second).month, Day(second).day, "T" + TimeText(t));
  }

  /** Before the year 10000, stamps order as texts the way their seconds order in time. */
  lemma StampOrder(s: nat, t: nat)
    requires s < t && Day(t).year < 10_000
    ensures Less(StampOf(s), StampOf(t))
  {
    hide CivilFromDays;
    DayIsLate(s);
    DayIsLate(t);
    Powers();
    var (x, y) := ("T" + TimeText(s % 86_400), "T" + TimeText(t % 86_400));
    var (d, e) := (Day(s), Day(t));
    if s / 86_400 < t / 86_400 {
      DaysOrder(s / 86_400, t / 86_400);
      TripleOrder(4, d.year, d.month, d.day, x, e.year, e.month, e.day, y);
    } else {
      assert s / 86_400 == t / 86_400 && s % 86_400 < t % 86_400;
      TimeTextOrder(s % 86_400, t % 86_400);
      PrefixCancels("T", TimeText(s % 86_400), TimeText(t % 86_400));
      PrefixCancels(Format(d.day, 2), x, y);
      PrefixCancels(Format(d.month, 2), Format(d.day, 2) + x, Format(d.day, 2) + y);
      PrefixCancels(Format(d.year, 4), Format(d.month, 2) + (Format(d.day, 2) + x),
                    Format(d.month, 2) + (Format(d.day, 2) + y));
    }
  }

  // ---------------------------------------------------------------- reading a stamp

  /** The number that decimal digits spell. */
  function ValueOf(text: string): nat {
    if text == "" then 0
    else
      var c := text[|text| - 1];
      10 * ValueOf(text[..|text| - 1]) + if '0' <= c <= '9' then c as int - '0' as int else 0
  }

  lemma {:induction false} FixedReads(n: nat, w: nat)
    requires n < Pow10(w)
    ensures ValueOf(Fixed(n, w)) == n
  {
    if w > 0 {
      var (all, init) := (Fixed(n, w), Fixed(n / 10, w - 1));
      FixedReads(n / 10, w - 1);
      assert all[..|all| - 1] == init && all[|all| - 1] == Digit(n % 10);
      DigitReads(n % 10);
    }
  }

  lemma DigitReads(d: nat)
    requires d < 10
    ensures '0' <= Digit(d) <= '9' && Digit(d) as int - '0' as int == d
  {}

  lemma TripleReads(w: nat, a: nat, b: nat, c: nat, x: string)
    requires w > 0 && a < Pow10(w) && b < 100 && c < 100
    ensures var text := Triple(w, a, b, c, x);
            && |text| == w + 4 + |x| && ValueOf(text[..w]) == a
            && ValueOf(text[w..w + 2]) == b && ValueOf(text[w + 2..w + 4]) == c && text[w + 4..] == x
  {
    assert Pow10(2) == 100 by { assert Pow10(1) == 10; }
    FormatIsFixed(a, w);
    FormatIsFixed(b, 2);
    FormatIsFixed(c, 2);
    FixedReads(a, w);
    FixedReads(b, 2);
    FixedReads(c, 2);
    hide Format, Fixed, ValueOf, Pow10;
    Slices(Format(a, w), Format(b, 2), Format(c, 2), x);
  }

  lemma Slices(a: string, b: string, c: string, x: string)
    ensures var text := a + (b + (c + x));
            && text[..|a|] == a && text[|a|..|a| + |b|] == b && text[|a| + |b|..|a| + |b| + |c|] == c
            && text[|a| + |b| + |c|..] == x
  {}

  /** A stamp before the year 10000 spells its date and its time of day: year, month, day, hour, minute, second. */
  lemma StampReads(second: nat)
    requires Day(second).year < 10_000
    ensures var (text, d) := (StampOf(second), Day(second));
            && |text| == 16 && text[8] == 'T' && text[15] == 'Z'
            && ValueOf(text[..4]) == d.year && ValueOf(text[4..6]) == d.month && ValueOf(text[6..8]) == d.day
            && var (h, m, s) := (ValueOf(text[9..11]), ValueOf(text[11..13]), ValueOf(text[13..15]));
               h < 24 && m < 60 && s < 60 && 3600 * h + 60 * m + s == second % 86_400
  {
    hide CivilFromDays;
    DayIsLate(second);
    Powers();
    var (d, clock) := (Day(second), TimeText(second % 86_400));
    TripleReads(4, d.year, d.month, d.day, "T" + clock);
    ClockReads(second % 86_400);
    hide ValueOf, Triple, Day, TimeText;
    Shifted(StampOf(second), clock);
  }

  lemma ClockReads(t: nat)
    requires t < 86_400
    ensures var clock := TimeText(t);
            && |clock| == 7 && clock[6] == 'Z'
            && var (h, m, s) := (ValueOf(clock[..2]), ValueOf(clock[2..4]), ValueOf(clock[4..6]));
               h < 24 && m < 60 && s < 60 && 3600 * h + 60 * m + s == t
  {
    Powers();
    ClockAdds(t);
    TripleReads(2, t / 3600, t % 3600 / 60, t % 60, "Z");
    hide ValueOf, Triple;
    Last(TimeText(t));
  }

  lemma ClockAdds(t: nat)
    requires t < 86_400
    ensures t / 3600 < 24 && t % 3600 / 60 < 60 && 3600 * (t / 3600) + 60 * (t % 3600 / 60) + t % 60 == t
  {
    var r := t % 3600;
    assert t == 3600 * (t / 3600) + r && r == 60 * (r / 60) + r % 60 && r % 60 == t % 60;
  }

  lemma Last(clock: string)
    requires |clock| == 7 && clock[6..] == "Z"
    ensures clock[6] == 'Z'
  {
    assert clock[6..][0] == clock[6];
  }

  lemma Shifted(text: string, clock: string)
    requires |text| == 16 && |clock| == 7 && text[8..] == "T" + clock
    ensures text[8] == 'T' && text[15] == clock[6]
    ensures text[9..11] == clock[..2] && text[11..13] == clock[2..4] && text[13..15] == clock[4..6]
  {
    assert forall i :: 8 <= i < 16 ==> text[i] == text[8..][i - 8];
    assert forall i :: 0 <= i < 7 ==> clock[i] == ("T" + clock)[i + 1];
  }

  /** The first second of the year 10000 is stamped before the last second of the year 9999. */
  lemma YearTenThousandSortsFirst()
    ensures var s := 253_402_300_799;
            Day(s) == Date(9999, 12, 31) && Day(s + 1) == Date(10_000, 1, 1) && Less(StampOf(s + 1), StampOf(s))
  {
    LastDay();
    hide CivilFromDays;
    var s := 253_402_300_799;
    assert s / 86_400 == 2_932_896 && (s + 1) / 86_400 == 2_932_897;
    TenThousand();
    StampBegins(s, '9');
    StampBegins(s + 1, '1');
  }

  /** Later seconds do not have earlier years. */
  lemma YearsOrder(s: nat, t: nat)
    requires s <= t
    ensures Day(s).year <= Day(t).year
  {
    hide CivilFromDays;
    if s / 86_400 < t / 86_400 { DaysOrder(s / 86_400, t / 86_400); }
  }

  /** Stamps sort by time up to `last` exactly when `last` is before the year 10000. */
  lemma StampsSortExactly(last: nat)
    ensures (forall s: nat, t: nat :: s < t <= last ==> Less(StampOf(s), StampOf(t))) <==> Day(last).year < 10_000
  {
    hide Day, StampOf, Less;
    if Day(last).year < 10_000 {
      forall s: nat, t: nat | s < t <= last ensures Less(StampOf(s), StampOf(t)) {
        YearsOrder(t, last);
        StampOrder(s, t);
      }
    } else {
      var s := 253_402_300_799;
      YearTenThousandSortsFirst();
      if last <= s { YearsOrder(last, s); }
      LessIsStrict(StampOf(s + 1), StampOf(s));
      assert s < s + 1 <= last && !Less(StampOf(s), StampOf(s + 1));
    }
  }

  lemma LastDay()
    ensures CivilFromDays(2_932_896) == Date(9999, 12, 31) && CivilFromDays(2_932_897) == Date(10_000, 1, 1)
  {
    var p := Position(3, 24, 3, 305);
    CivilAt(2_932_896, 24, p);
    CivilAt(2_932_897, 24, p.(doy := 306));
    MonthTable(305);
    MonthTable(306);
    hide CivilFromDays, MonthOf, DayOf;
  }

  lemma StampBegins(second: nat, c: char)
    requires |Decimal(Day(second).year)| >= 4 && Decimal(Day(second).year)[0] == c
    ensures |StampOf(second)| > 0 && StampOf(second)[0] == c
  {
    hide Day, TimeText, Decimal;
  }

  lemma TenThousand()
    ensures Decimal(9999) == "9999" && Decimal(10_000) == "10000"
  {
    assert Decimal(99) == "99" && Decimal(999) == "999";
    assert Decimal(10) == "10" && Decimal(100) == "100" && Decimal(1000) == "1000";
  }

  // ---------------------------------------------------------------- archived runs

  /** A run archived in `second`, under its stamp and a suffix (nothing, a revision or a counter). */
  datatype Run = Run(second: nat, suffix: string)

  function Name(r: Run): string {
    StampOf(r.second) + r.suffix
  }

  /** Names of runs archived in different seconds order as the runs do. */
  lemma NameOrder(r: Run, q: Run)
    requires r.second != q.second && Day(r.second).year < 10_000 && Day(q.second).year < 10_000
    ensures Less(Name(r), Name(q)) <==> r.second < q.second
  {
    hide Day, StampOf, Less;
    StampLength(r.second);
    StampLength(q.second);
    if r.second < q.second {
      StampOrder(r.second, q.second);
      PrefixDecides(StampOf(r.second), StampOf(q.second), r.suffix, q.suffix);
    } else {
      StampOrder(q.second, r.second);
      PrefixDecides(StampOf(q.second), StampOf(r.second), q.suffix, r.suffix);
      LessIsStrict(Name(q), Name(r));
    }
  }
}
