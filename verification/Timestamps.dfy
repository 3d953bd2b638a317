/**
 Stored timestamps (internal/database/database.go, `formatTime`): RFC 3339 text in UTC with trailing
 zeros of the fraction trimmed, compared by SQLite byte by byte.
 */
module Timestamps {

  import opened Text

  // ----- Fixed-width decimals -----

  function Pow10(w: nat): nat {
    if w == 0 then 1 else 10 * Pow10(w - 1)
  }

  function Digit(d: nat): char
    requires d < 10
  {
    ('0' as int + d) as char
  }

  predicate AllDigits(s: string) {
    forall i :: 0 <= i < |s| ==> '0' <= s[i] <= '9'
  }

  /** `n` in exactly `w` decimal digits. */
  function Pad(n: nat, w: nat): (s: string)
    ensures |s| == w && AllDigits(s)
  {
    if w == 0 then "" else Pad(n / 10, w - 1) + [Digit(n % 10)]
  }

  lemma {:induction false} PadOrder(m: nat, n: nat, w: nat)
    requires m < Pow10(w) && n < Pow10(w)
    ensures Less(Pad(m, w), Pad(n, w)) <==> m < n
    ensures Pad(m, w) == Pad(n, w) <==> m == n
  {
    if w > 0 {
      PadOrder(m / 10, n / 10, w - 1);
      var a, b := [Digit(m % 10)], [Digit(n % 10)];
      LessConcat(Pad(m / 10, w - 1), a, Pad(n / 10, w - 1), b);
      assert Less(a, b) <==> m % 10 < n % 10;
      if Pad(m, w) == Pad(n, w) {
        assert Pad(m, w)[..w - 1] == Pad(m / 10, w - 1) && Pad(n, w)[..w - 1] == Pad(n / 10, w - 1);
        assert Pad(m, w)[w - 1] == a[0] && Pad(n, w)[w - 1] == b[0];
      }
    }
  }

  // ----- Civil time -----

  datatype Civil = Civil(year: nat, month: nat, day: nat, hour: nat, minute: nat, second: nat, nanos: nat)

  predicate IsLeap(year: nat) {
    year % 4 == 0 && (year % 100 != 0 || year % 400 == 0)
  }

  function DaysIn(year: nat, month: nat): nat {
    if month == 2 then if IsLeap(year) then 29 else 28
    else if month == 4 || month == 6 || month == 9 || month == 11 then 30
    else 31
  }

  predicate Valid(t: Civil) {
    && t.year <= 9999 && 1 <= t.month <= 12 && 1 <= t.day <= DaysIn(t.year, t.month)
    && t.hour < 24 && t.minute < 60 && t.second < 60 && t.nanos < 1_000_000_000
  }

  /** Days from the start of the year to the start of `month`; month 13 is the next year. */
  function DaysBeforeMonth(year: nat, month: nat): nat
    requires month >= 1
  {
    if month == 1 then 0 else DaysBeforeMonth(year, month - 1) + DaysIn(year, month - 1)
  }

  /** Days from the start of year 0 to the start of `year`. */
  function DaysBeforeYear(year: nat): nat {
    if year == 0 then 0 else DaysBeforeYear(year - 1) + DaysBeforeMonth(year - 1, 13)
  }

  /** A leap day every fourth year, but not every hundredth, but every four hundredth. */
  function LeapDaysBefore(year: nat): int {
    (year + 3) / 4 - (year + 99) / 100 + (year + 399) / 400
  }

  /** The calendar in closed form. */
  lemma {:induction false} YearsClosed(year: nat)
    ensures DaysBeforeYear(year) == 365 * year + LeapDaysBefore(year)
  {
    if year > 0 {
      YearsClosed(year - 1);
      MonthsClosed(year - 1, 13);
      LeapDay(year - 1);
      hide DaysBeforeMonth, LeapDaysBefore;
    }
  }

  /** How many leap days the next year has behind it. */
  lemma LeapDay(y: nat)
    ensures LeapDaysBefore(y + 1) ==
            LeapDaysBefore(y) + if y % 4 == 0 && (y % 100 != 0 || y % 400 == 0) then 1 else 0
  {
    EveryFourth(y);
    EveryHundredth(y);
    EveryFourHundredth(y);
  }

  lemma EveryFourth(y: nat)
    ensures (y + 4) / 4 - (y + 3) / 4 == if y % 4 == 0 then 1 else 0
  {
    assert y == 4 * (y / 4) + y % 4;
  }

  lemma EveryHundredth(y: nat)
    ensures (y + 100) / 100 - (y + 99) / 100 == if y % 100 == 0 then 1 else 0
    ensures y % 100 == 0 ==> y % 4 == 0
  {
    var q := y / 100;
    assert y == 100 * q + y % 100;
    if y % 100 == 0 {
      assert y == 4 * (25 * q);
    }
  }

  lemma EveryFourHundredth(y: nat)
    ensures (y + 400) / 400 - (y + 399) / 400 == if y % 400 == 0 then 1 else 0
    ensures y % 400 == 0 ==> y % 100 == 0
  {
    var q := y / 400;
    assert y == 400 * q + y % 400;
    if y % 400 == 0 {
      assert y == 100 * (4 * q);
    }
  }

  const BEFORE_MONTH := [0, 31, 59, 90, 120, 151, 181, 212, 243, 273, 304, 334, 365]

  lemma {:induction false} MonthsClosed(year: nat, month: nat)
    requires 1 <= month <= 13
    ensures DaysBeforeMonth(year, month) ==
            BEFORE_MONTH[month - 1]
            + if month > 2 && year % 4 == 0 && (year % 100 != 0 || year % 400 == 0) then 1 else 0
  {
    if month > 1 {
      MonthsClosed(year, month - 1);
    }
  }

  function Day(t: Civil): nat
    requires t.month >= 1
  {
    DaysBeforeYear(t.year) + DaysBeforeMonth(t.year, t.month) + t.day
  }

  /** Whole seconds, counted from a fixed instant. */
  function Seconds(t: Civil): nat
    requires t.month >= 1
  {
    ((Day(t) * 24 + t.hour) * 60 + t.minute) * 60 + t.second
  }

  function Nanoseconds(t: Civil): nat
    requires t.month >= 1
  {
    Seconds(t) * 1_000_000_000 + t.nanos
  }

  lemma {:induction false} MonthsGrow(year: nat, m: nat, n: nat)
    requires 1 <= m <= n
    ensures DaysBeforeMonth(year, m) <= DaysBeforeMonth(year, n)
    ensures m < n ==> DaysBeforeMonth(year, m) + DaysIn(year, m) <= DaysBeforeMonth(year, n)
  {
    if m < n {
      MonthsGrow(year, m, n - 1);
    }
  }

  lemma {:induction false} YearsGrow(y: nat, z: nat)
    requires y < z
    ensures DaysBeforeYear(y) + DaysBeforeMonth(y, 13) <= DaysBeforeYear(z)
  {
    if y < z - 1 {
      YearsGrow(y, z - 1);
    }
  }

  /** Earlier in the calendar, field by field. */
  predicate DateBefore(a: Civil, b: Civil) {
    a.year < b.year || (a.year == b.year && (a.month < b.month || (a.month == b.month && a.day < b.day)))
  }

  lemma DateBeforeIsEarlier(a: Civil, b: Civil)
    requires Valid(a) && Valid(b) && DateBefore(a, b)
    ensures Day(a) < Day(b)
  {
    hide DaysBeforeMonth, DaysBeforeYear, DaysIn;
    MonthsGrow(a.year, a.month, 13);
    if a.year < b.year {
      YearsGrow(a.year, b.year);
    } else if a.month < b.month {
      MonthsGrow(a.year, a.month, b.month);
    }
  }

  lemma DayOrder(a: Civil, b: Civil)
    requires Valid(a) && Valid(b)
    ensures Day(a) < Day(b) <==> DateBefore(a, b)
    ensures Day(a) == Day(b) <==> a.year == b.year && a.month == b.month && a.day == b.day
  {
    hide DaysBeforeMonth, DaysBeforeYear, DaysIn;
    if DateBefore(a, b) {
      DateBeforeIsEarlier(a, b);
    } else if DateBefore(b, a) {
      DateBeforeIsEarlier(b, a);
    }
  }

  // ----- The stored text -----

  function Join(a: string, sep: string, b: string): string {
    a + sep + b
  }

  function Date(t: Civil): string {
    Join(Join(Pad(t.year, 4), "-", Pad(t.month, 2)), "-", Pad(t.day, 2))
  }

  function Clock(t: Civil): string {
    Join(Join(Pad(t.hour, 2), ":", Pad(t.minute, 2)), ":", Pad(t.second, 2))
  }

  function TrimZeros(s: string): (r: string)
    ensures r <= s && (r != "" ==> r[|r| - 1] != '0')
    ensures forall i :: |r| <= i < |s| ==> s[i] == '0'
  {
    if s == "" || s[|s| - 1] != '0' then s else TrimZeros(s[..|s| - 1])
  }

  function Fraction(nanos: nat): string {
    if nanos == 0 then "" else "." + TrimZeros(Pad(nanos, 9))
  }

  /** `value.UTC().Format(time.RFC3339Nano)`. */
  function Stored(t: Civil): string {
    Join(Date(t), "T", Clock(t)) + (Fraction(t.nanos) + "Z")
  }

  lemma JoinOrder(a: string, b: string, x: string, y: string, sep: string)
    requires |a| == |x|
    ensures Less(Join(a, sep, b), Join(x, sep, y)) <==> Less(a, x) || (a == x && Less(b, y))
    ensures Join(a, sep, b) == Join(x, sep, y) <==> a == x && b == y
    ensures |b| == |y| ==> |Join(a, sep, b)| == |Join(x, sep, y)|
  {
    hide Less;
    LessIrreflexive(sep);
    LessConcat(a + sep, b, x + sep, y);
    LessConcat(a, sep, x, sep);
    ConcatEqual(a + sep, b, x + sep, y);
    ConcatEqual(a, sep, x, sep);
  }

  lemma ConcatEqual(a: string, b: string, x: string, y: string)
    requires |a| == |x|
    ensures a + b == x + y <==> a == x && b == y
  {
    if a + b == x + y {
      assert (a + b)[..|a|] == a && (x + y)[..|a|] == x;
      assert (a + b)[|a|..] == b && (x + y)[|a|..] == y;
    }
  }

  lemma DateOrder(a: Civil, b: Civil)
    requires Valid(a) && Valid(b)
    ensures Less(Date(a), Date(b)) <==> Day(a) < Day(b)
    ensures Date(a) == Date(b) <==> Day(a) == Day(b)
    ensures |Date(a)| == |Date(b)|
  {
    DayOrder(a, b);
    hide Day, Less, Pad, Join;
    assert Pow10(4) == 10000 && Pow10(2) == 100;
    assert a.day < 100 && b.day < 100;
    PadOrder(a.year, b.year, 4);
    PadOrder(a.month, b.month, 2);
    PadOrder(a.day, b.day, 2);
    JoinOrder(Pad(a.year, 4), Pad(a.month, 2), Pad(b.year, 4), Pad(b.month, 2), "-");
    JoinOrder(Join(Pad(a.year, 4), "-", Pad(a.month, 2)), Pad(a.day, 2),
              Join(Pad(b.year, 4), "-", Pad(b.month, 2)), Pad(b.day, 2), "-");
  }

  function SecondOfDay(t: Civil): nat {
    (t.hour * 60 + t.minute) * 60 + t.second
  }

  lemma ClockOrder(a: Civil, b: Civil)
    requires Valid(a) && Valid(b)
    ensures Less(Clock(a), Clock(b)) <==> SecondOfDay(a) < SecondOfDay(b)
    ensures Clock(a) == Clock(b) <==> SecondOfDay(a) == SecondOfDay(b)
    ensures |Clock(a)| == |Clock(b)|
  {
    hide Less, Pad, DaysIn, Join;
    assert Pow10(2) == 100;
    PadOrder(a.hour, b.hour, 2);
    PadOrder(a.minute, b.minute, 2);
    PadOrder(a.second, b.second, 2);
    JoinOrder(Pad(a.hour, 2), Pad(a.minute, 2), Pad(b.hour, 2), Pad(b.minute, 2), ":");
    JoinOrder(Join(Pad(a.hour, 2), ":", Pad(a.minute, 2)), Pad(a.second, 2),
              Join(Pad(b.hour, 2), ":", Pad(b.minute, 2)), Pad(b.second, 2), ":");
  }

  /** The part of the text before the fraction orders by whole seconds. */
  lemma SecondsOrder(a: Civil, b: Civil)
    requires Valid(a) && Valid(b)
    ensures
      var p, q := Join(Date(a), "T", Clock(a)), Join(Date(b), "T", Clock(b));
      && |p| == |q| && (Less(p, q) <==> Seconds(a) < Seconds(b)) && (p == q <==> Seconds(a) == Seconds(b))
  {
    DateOrder(a, b);
    ClockOrder(a, b);
    SecondsSplit(a);
    SecondsSplit(b);
    hide Less, Date, Clock, Day, Seconds, SecondOfDay, Join;
    JoinOrder(Date(a), Clock(a), Date(b), Clock(b), "T");
  }

  lemma SecondsSplit(t: Civil)
    requires Valid(t)
    ensures Seconds(t) == Day(t) * 86400 + SecondOfDay(t) && SecondOfDay(t) < 86400
  {
    hide Day, DaysIn;
  }

  /** Whenever the whole seconds differ, byte order of the stored texts is time order. */
  lemma StoredOrder(a: Civil, b: Civil)
    requires Valid(a) && Valid(b) && Seconds(a) != Seconds(b)
    ensures Less(Stored(a), Stored(b)) <==> Nanoseconds(a) < Nanoseconds(b)
  {
    SecondsOrder(a, b);
    hide Less, Date, Clock, Fraction, Seconds, DaysIn;
    LessConcat(Join(Date(a), "T", Clock(a)), Fraction(a.nanos) + "Z",
               Join(Date(b), "T", Clock(b)), Fraction(b.nanos) + "Z");
  }

  // ----- Within one second -----

  /** Texts that differ before either ends keep their order whatever follows them. */
  lemma {:induction false} LessBeforeEnd(x: string, u: string, y: string, v: string)
    requires !(x <= y) && !(y <= x)
    ensures Less(x + u, y + v) <==> Less(x, y)
  {
    assert x != "" && y != "";
    assert (x + u)[1..] == x[1..] + u && (y + v)[1..] == y[1..] + v;
    if x[0] == y[0] {
      assert x[1..] <= y[1..] ==> x <= y by {
        assert x == [x[0]] + x[1..] && y == [y[0]] + y[1..];
      }
      assert y[1..] <= x[1..] ==> y <= x by {
        assert x == [x[0]] + x[1..] && y == [y[0]] + y[1..];
      }
      LessBeforeEnd(x[1..], u, y[1..], v);
    }
  }

  /** A proper prefix ending in `Z` sorts after its extension, because `Z` sorts after '.' and the digits. */
  lemma PrefixSortsAfter(x: string, y: string)
    requires x < y && y[|x|] < 'Z'
    ensures !Less(x + "Z", y + "Z")
  {
    var rest := y[|x|..] + "Z";
    assert y + "Z" == x + rest;
    LessConcat(x, "Z", x, rest);
    LessIrreflexive(x);
  }

  lemma {:induction false} NothingBelowZeros(x: string, y: string)
    requires |x| == |y| && AllDigits(x) && forall i :: 0 <= i < |y| ==> y[i] == '0'
    ensures !Less(x, y)
  {
    if x != "" {
      assert '0' <= x[0];
      NothingBelowZeros(x[1..], y[1..]);
    }
  }

  lemma PadPositive(n: nat)
    requires 0 < n < 1_000_000_000
    ensures TrimZeros(Pad(n, 9)) != ""
  {
    var s := Pad(n, 9);
    if TrimZeros(s) == "" {
      hide Pad;
      assert Pow10(9) == 1_000_000_000 by { Billion(); }
      PadOrder(0, n, 9);
      NothingBelowZeros(Pad(0, 9), s);
    }
  }

  lemma Billion()
    ensures Pow10(9) == 1_000_000_000
  {
    assert Pow10(3) == 1000;
    assert Pow10(6) == 1_000_000;
  }

  /** Of two fractions of one second, the smaller one's text sorts first unless it is a prefix of the other's. */
  lemma TrimmedOrder(m: nat, n: nat)
    requires 0 < m < n < 1_000_000_000
    ensures
      var x, y := TrimZeros(Pad(m, 9)), TrimZeros(Pad(n, 9));
      && !(y <= x) && (!(x <= y) ==> Less(x, y)) && (x <= y ==> x < y && y[|x|] < 'Z')
  {
    var p, q := Pad(m, 9), Pad(n, 9);
    Billion();
    PadOrder(m, n, 9);
    hide Pad, Pow10;
    TrimmedTexts(p, q);
  }

  lemma TrimmedTexts(p: string, q: string)
    requires |p| == |q| && AllDigits(p) && AllDigits(q) && Less(p, q)
    ensures
      var x, y := TrimZeros(p), TrimZeros(q);
      && !(y <= x) && (!(x <= y) ==> Less(x, y)) && (x <= y ==> x < y && y[|x|] < 'Z')
  {
    var x, y := TrimZeros(p), TrimZeros(q);
    hide Less, TrimZeros;
    if y <= x {
      LaterIsNoPrefix(p, q, y);
    } else if !(x <= y) {
      SlicesKeepOrder(p, q, x, y);
    } else {
      assert '0' <= q[|x|] <= '9';
    }
  }

  lemma SlicesKeepOrder(p: string, q: string, x: string, y: string)
    requires x <= p && y <= q && !(x <= y) && !(y <= x) && Less(p, q)
    ensures Less(x, y)
  {
    hide Less;
    var u, v := p[|x|..], q[|y|..];
    assert p == x + u && q == y + v;
    LessBeforeEnd(x, u, y, v);
  }

  lemma LaterIsNoPrefix(p: string, q: string, y: string)
    requires |p| == |q| && AllDigits(p) && y <= p && y <= q && forall i :: |y| <= i < |q| ==> q[i] == '0'
    ensures !Less(p, q)
  {
    hide Less;
    var u, v := p[|y|..], q[|y|..];
    assert p == y + u && q == y + v;
    LessConcat(y, u, y, v);
    LessIrreflexive(y);
    NothingBelowZeros(u, v);
  }

  /** Within one second, byte order is time order exactly when the earlier fraction is not a prefix of the later. */
  lemma SameSecondOrder(a: Civil, b: Civil)
    requires Valid(a) && Valid(b) && Seconds(a) == Seconds(b) && a.nanos < b.nanos
    ensures Less(Stored(a), Stored(b)) <==> !(Fraction(a.nanos) <= Fraction(b.nanos))
  {
    SecondsOrder(a, b);
    FractionOrder(a.nanos, b.nanos);
    hide Less, Date, Clock, Join, Fraction, Seconds, DaysIn;
    var p := Join(Date(a), "T", Clock(a));
    LessConcat(p, Fraction(a.nanos) + "Z", p, Fraction(b.nanos) + "Z");
    LessIrreflexive(p);
  }

  lemma FractionOrder(m: nat, n: nat)
    requires m < n < 1_000_000_000
    ensures Less(Fraction(m) + "Z", Fraction(n) + "Z") <==> !(Fraction(m) <= Fraction(n))
  {
    var f, g := Fraction(m), Fraction(n);
    if m == 0 {
      hide Less, Pad, TrimZeros;
      assert g[0] == '.';
      PrefixSortsAfter(f, g);
    } else {
      TrimmedOrder(m, n);
      var x, y := TrimZeros(Pad(m, 9)), TrimZeros(Pad(n, 9));
      hide Less, Pad, TrimZeros;
      DotPrefix(x, y);
      if x <= y {
        PrefixSortsAfter(f, g);
      } else {
        LessConcat(".", x, ".", y);
        LessIrreflexive(".");
        LessBeforeEnd(f, "Z", g, "Z");
      }
    }
  }

  lemma DotPrefix(x: string, y: string)
    ensures "." + x <= "." + y <==> x <= y
    ensures x < y ==> ("." + y)[|"." + x|] == y[|x|]
  {
    assert ("." + x)[1..] == x && ("." + y)[1..] == y;
  }

  // ----- When one fraction's text is a prefix of another's -----

  /** The weight of the last digit that trimming leaves of `n` in `w` digits; 10^w if it leaves none. */
  function Unit(n: nat, w: nat): (u: nat)
    ensures u >= 1
  {
    if w == 0 || n % 10 != 0 then 1 else 10 * Unit(n / 10, w - 1)
  }

  lemma TrimLast(s: string, c: char)
    ensures TrimZeros(s + [c]) == if c == '0' then TrimZeros(s) else s + [c]
  {
    assert (s + [c])[..|s + [c]| - 1] == s;
  }

  /** A trimmed text does not reach into another text's trailing zeros. */
  lemma TrimmedPrefix(x: string, y: string)
    ensures TrimZeros(x) <= y <==> TrimZeros(x) <= TrimZeros(y)
  {
    var t := TrimZeros(x);
    hide TrimZeros;
    if t <= y && t != "" {
      assert t[|t| - 1] == y[|t| - 1];
    }
  }

  lemma AppendedPrefix(x: string, y: string, c: char)
    requires |x| == |y|
    ensures TrimZeros(x) <= TrimZeros(y + [c]) <==> TrimZeros(x) <= TrimZeros(y)
  {
    TrimLast(y, c);
    TrimmedPrefix(x, y);
    hide TrimZeros;
  }

  lemma WholeIsNoPrefix(p: string, q: string)
    requires |p| == |q| && p != q
    ensures !(p <= TrimZeros(q))
  {
    hide TrimZeros;
  }

  lemma UnitStep(m: nat, n: nat, u: nat)
    requires m % 10 == 0
    ensures n - m < 10 * u <==> n / 10 - m / 10 < u
  {
  }

  /** The earlier number's trimmed text is a prefix of the later one's exactly within one unit of the earlier. */
  lemma {:induction false} TrimmedPrefixIsUnit(m: nat, n: nat, w: nat)
    requires m < n < Pow10(w)
    ensures TrimZeros(Pad(m, w)) <= TrimZeros(Pad(n, w)) <==> n - m < Unit(m, w)
    decreases w
  {
    hide *;
    LastDigit(m, w);
    LastDigit(n, w);
    var x, y := Pad(m / 10, w - 1), Pad(n / 10, w - 1);
    var c, d := Digit(m % 10), Digit(n % 10);
    PadOrder(m, n, w);
    TrimLast(x, c);
    if m % 10 != 0 {
      WholeIsNoPrefix(x + [c], y + [d]);
    } else {
      AppendedPrefix(x, y, d);
      UnitStep(m, n, Unit(m / 10, w - 1));
      if m / 10 < n / 10 {
        TrimmedPrefixIsUnit(m / 10, n / 10, w - 1);
      } else {
        PrefixOfItself(x);
      }
    }
  }

  lemma PrefixOfItself(x: string)
    ensures TrimZeros(x) <= TrimZeros(x)
  {
  }

  lemma LastDigit(n: nat, w: nat)
    requires n < Pow10(w)
    ensures n > 0 ==> w > 0
    ensures w > 0 ==>
              && Pad(n, w) == Pad(n / 10, w - 1) + [Digit(n % 10)] && n / 10 < Pow10(w - 1)
              && (Digit(n % 10) == '0' <==> n % 10 == 0)
              && Unit(n, w) == if n % 10 != 0 then 1 else 10 * Unit(n / 10, w - 1)
  {
  }

  lemma FractionPrefix(m: nat, n: nat)
    requires m < n < 1_000_000_000
    ensures Fraction(m) <= Fraction(n) <==> n - m < Unit(m, 9)
  {
    Billion();
    TrimmedPrefixIsUnit(m, n, 9);
    DotPrefix(TrimZeros(Pad(m, 9)), TrimZeros(Pad(n, 9)));
    if m == 0 {
      UnitOfZero(9);
    }
    hide Pad, TrimZeros, Pow10;
  }

  lemma {:induction false} UnitOfZero(w: nat)
    ensures Unit(0, w) == Pow10(w)
  {
    if w > 0 {
      UnitOfZero(w - 1);
    }
  }

  // ----- Expiry -----

  /** The database's test for an unexpired session or share: `expires_at > now`. */
  predicate Unexpired(expires: Civil, now: Civil) {
    Less(Stored(now), Stored(expires))
  }

  /** A later text sorts first exactly when the earlier one does not: the stored texts differ. */
  lemma StoredDiffer(a: Civil, b: Civil)
    requires Valid(a) && Valid(b) && Seconds(a) == Seconds(b) && a.nanos < b.nanos
    ensures Less(Stored(b), Stored(a)) <==> !Less(Stored(a), Stored(b))
  {
    FractionsDiffer(a.nanos, b.nanos);
    SecondsOrder(a, b);
    hide Less, Date, Clock, Join, Fraction, Seconds, DaysIn;
    var p := Join(Date(a), "T", Clock(a));
    ConcatEqual(p, Fraction(a.nanos) + "Z", p, Fraction(b.nanos) + "Z");
    LessTotal(Stored(a), Stored(b));
    if Less(Stored(a), Stored(b)) && Less(Stored(b), Stored(a)) {
      LessTransitive(Stored(a), Stored(b), Stored(a));
      LessIrreflexive(Stored(a));
    }
  }

  lemma FractionsDiffer(m: nat, n: nat)
    requires m < n < 1_000_000_000
    ensures Fraction(m) + "Z" != Fraction(n) + "Z"
  {
    var f, g := Fraction(m), Fraction(n);
    if m > 0 {
      TrimmedOrder(m, n);
      DotPrefix(TrimZeros(Pad(n, 9)), TrimZeros(Pad(m, 9)));
    }
    hide Less, Pad, TrimZeros;
    assert f != g;
    hide Fraction;
    assert (f + "Z")[..|f + "Z"| - 1] == f && (g + "Z")[..|g + "Z"| - 1] == g;
  }

  /**
   Exactly when a session or share counts as unexpired.  Before the expiry's second always, after it
   never.  Within it, an instant before the expiry is accepted unless it is less than one unit of its
   own last shown digit early, and an instant after the expiry is accepted, wrongly, as long as it is
   less than one unit of the expiry's last shown digit late.
   */
  lemma ExpiryExactly(expires: Civil, now: Civil)
    requires Valid(expires) && Valid(now)
    ensures Unexpired(expires, now) <==>
            if Seconds(now) != Seconds(expires) then Seconds(now) < Seconds(expires)
            else if now.nanos < expires.nanos then expires.nanos - now.nanos >= Unit(now.nanos, 9)
            else 0 < now.nanos - expires.nanos < Unit(expires.nanos, 9)
  {
    hide Less, Stored, Seconds, DaysIn, Fraction, Unit;
    if Seconds(now) != Seconds(expires) {
      StoredOrder(now, expires);
      SecondsDecide(now, expires);
    } else if now.nanos < expires.nanos {
      SameSecondOrder(now, expires);
      FractionPrefix(now.nanos, expires.nanos);
    } else if expires.nanos < now.nanos {
      SameSecondOrder(expires, now);
      StoredDiffer(expires, now);
      FractionPrefix(expires.nanos, now.nanos);
    } else {
      SameText(expires, now);
      LessIrreflexive(Stored(now));
    }
  }

  lemma SecondsDecide(a: Civil, b: Civil)
    requires Valid(a) && Valid(b) && Seconds(a) != Seconds(b)
    ensures Nanoseconds(a) < Nanoseconds(b) <==> Seconds(a) < Seconds(b)
  {
    hide Seconds, DaysIn;
  }

  lemma SameText(a: Civil, b: Civil)
    requires Valid(a) && Valid(b) && Seconds(a) == Seconds(b) && a.nanos == b.nanos
    ensures Stored(a) == Stored(b)
  {
    SecondsOrder(a, b);
    hide Less, Date, Clock, Join, Fraction, Seconds, DaysIn;
  }

  lemma SecondApart(a: Civil, b: Civil)
    requires Valid(a) && Valid(b) && Nanoseconds(a) + 1_000_000_000 <= Nanoseconds(b)
    ensures Seconds(a) < Seconds(b)
  {
    hide Seconds, DaysIn;
  }

  /** Never accepted a full second or more after expiry, never refused for expiry a full second or more before it. */
  lemma ExpiryIsSharpToOneSecond(expires: Civil, now: Civil)
    requires Valid(expires) && Valid(now)
    ensures Nanoseconds(now) >= Nanoseconds(expires) + 1_000_000_000 ==> !Unexpired(expires, now)
    ensures Nanoseconds(now) + 1_000_000_000 <= Nanoseconds(expires) ==> Unexpired(expires, now)
  {
    hide Less, Stored, Seconds, DaysIn;
    if Nanoseconds(now) >= Nanoseconds(expires) + 1_000_000_000 {
      SecondApart(expires, now);
      StoredOrder(now, expires);
    } else if Nanoseconds(now) + 1_000_000_000 <= Nanoseconds(expires) {
      SecondApart(now, expires);
      StoredOrder(now, expires);
    }
  }

  /** No sharper bound holds: an expiry on a whole second is honoured for the rest of that second. */
  lemma WholeSecondExpiryOverruns(expires: Civil, now: Civil)
    requires Valid(expires) && Valid(now) && Seconds(now) == Seconds(expires) && expires.nanos == 0 < now.nanos
    ensures Nanoseconds(expires) < Nanoseconds(now) && Unexpired(expires, now)
  {
    SecondsOrder(now, expires);
    var p := Join(Date(now), "T", Clock(now));
    var g := Fraction(now.nanos);
    PadPositive(now.nanos);
    hide Date, Clock, Pad, Seconds, DaysIn;
    LessConcat(p, g + "Z", p, "" + "Z");
    assert (g + "Z")[0] == '.';
    assert Less(g + "Z", "" + "Z");
  }
}
