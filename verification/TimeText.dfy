/** UTC instants and their RFC 3339 text as the scheduler stores and compares it: byte order is time order. */
module TimeText {
  import opened Decimal

  // ---------- instants ----------

  datatype Instant = Instant(year: nat, month: nat, day: nat, hour: nat, minute: nat, second: nat, nano: nat)

  predicate IsLeap(y: nat) { y % 4 == 0 && (y % 100 != 0 || y % 400 == 0) }

  function MonthLength(y: nat, m: nat): nat {
    if m == 2 then (if IsLeap(y) then 29 else 28)
    else if m == 4 || m == 6 || m == 9 || m == 11 then 30
    else 31
  }

  /** Years 0 to 9999, no leap seconds. */
  predicate Valid(t: Instant) {
    && t.year <= 9999 && 1 <= t.month <= 12 && 1 <= t.day <= MonthLength(t.year, t.month)
    && t.hour < 24 && t.minute < 60 && t.second < 60 && t.nano < 1_000_000_000
  }

  function DaysBeforeMonth(y: nat, m: nat): nat {
    if m <= 1 then 0 else DaysBeforeMonth(y, m - 1) + MonthLength(y, m - 1)
  }

  function DaysBeforeYear(y: nat): nat {
    if y == 0 then 0 else DaysBeforeYear(y - 1) + DaysBeforeMonth(y - 1, 13)
  }

  function DayNumber(t: Instant): nat
    requires Valid(t)
  {
    DaysBeforeYear(t.year) + DaysBeforeMonth(t.year, t.month) + (t.day - 1)
  }

  function SecondOfDay(t: Instant): nat { t.hour * 3600 + t.minute * 60 + t.second }

  /** Nanoseconds since the beginning of year 0. */
  function Nanos(t: Instant): nat
    requires Valid(t)
  {
    (DayNumber(t) * 86_400 + SecondOfDay(t)) * 1_000_000_000 + t.nano
  }

  // ---------- the calendar is ordered ----------

  lemma {:induction false} MonthsGrow(y: nat, m: nat, n: nat)
    requires 1 <= m < n
    ensures DaysBeforeMonth(y, m) + MonthLength(y, m) <= DaysBeforeMonth(y, n)
  {
    if m < n - 1 {
      MonthsGrow(y, m, n - 1);
    }
  }

  lemma {:induction false} YearsGrow(y: nat, z: nat)
    requires y < z
    ensures DaysBeforeYear(y) + DaysBeforeMonth(y, 13) <= DaysBeforeYear(z)
  {
    if y < z - 1 {
      YearsGrow(y, z - 1);
    }
  }

  /** Lexicographic order of calendar fields. */
  predicate DateBefore(a: Instant, b: Instant) {
    a.year < b.year || (a.year == b.year && (a.month < b.month || (a.month == b.month && a.day < b.day)))
  }

  predicate SameDate(a: Instant, b: Instant) { a.year == b.year && a.month == b.month && a.day == b.day }

  lemma EarlierDateIsEarlierDay(a: Instant, b: Instant)
    requires Valid(a) && Valid(b) && DateBefore(a, b)
    ensures DayNumber(a) < DayNumber(b)
  {
    if a.year < b.year {
      YearsGrow(a.year, b.year);
      MonthsGrow(a.year, a.month, 13);
    } else if a.month < b.month {
      MonthsGrow(a.year, a.month, b.month);
    }
  }

  predicate TimeBefore(a: Instant, b: Instant) {
    a.hour < b.hour || (a.hour == b.hour && (a.minute < b.minute
        || (a.minute == b.minute && (a.second < b.second || (a.second == b.second && a.nano < b.nano)))))
  }

  predicate FieldsBefore(a: Instant, b: Instant) { DateBefore(a, b) || (SameDate(a, b) && TimeBefore(a, b)) }

  lemma EarlierFieldsAreEarlier(a: Instant, b: Instant)
    requires Valid(a) && Valid(b) && FieldsBefore(a, b)
    ensures Nanos(a) < Nanos(b)
  {
    hide DayNumber;
    if DateBefore(a, b) {
      EarlierDateIsEarlierDay(a, b);
    } else {
      assert DayNumber(a) == DayNumber(b) by {
        SameDateSameDay(a, b);
      }
    }
  }

  lemma SameDateSameDay(a: Instant, b: Instant)
    requires Valid(a) && Valid(b) && SameDate(a, b)
    ensures DayNumber(a) == DayNumber(b)
  {
  }

  /** Chronological order is the lexicographic order of the fields. */
  lemma FieldsOrderIsTimeOrder(a: Instant, b: Instant)
    requires Valid(a) && Valid(b)
    ensures FieldsBefore(a, b) <==> Nanos(a) < Nanos(b)
    ensures a == b <==> Nanos(a) == Nanos(b)
  {
    hide Nanos;
    if FieldsBefore(a, b) {
      EarlierFieldsAreEarlier(a, b);
    } else if FieldsBefore(b, a) {
      EarlierFieldsAreEarlier(b, a);
    } else {
      assert a == b;
    }
  }

  // ---------- text ----------

  const ZONE := "+00:00"

  /** No fraction, or 3, 6 or 9 digits, whichever is the shortest exact form. */
  function Fraction(nano: nat): string {
    if nano == 0 then ""
    else if nano % 1_000_000 == 0 then "." + Fixed(nano / 1_000_000, 3)
    else if nano % 1_000 == 0 then "." + Fixed(nano / 1_000, 6)
    else "." + Fixed(nano, 9)
  }

  function Text(t: Instant): string {
    Fixed(t.year, 4) + "-" + Fixed(t.month, 2) + "-" + Fixed(t.day, 2) + "T"
    + Fixed(t.hour, 2) + ":" + Fixed(t.minute, 2) + ":" + Fixed(t.second, 2) + Fraction(t.nano) + ZONE
  }

  // ---------- byte order ----------

  predicate TextLess(a: string, b: string) {
    b != "" && (a == "" || a[0] < b[0] || (a[0] == b[0] && TextLess(a[1..], b[1..])))
  }

  lemma {:induction false} LessAfter(p: string, q: string, x: string, y: string)
    requires |p| == |q|
    ensures TextLess(p + x, q + y) <==> TextLess(p, q) || (p == q && TextLess(x, y))
  {
    if p == "" {
      assert p + x == x && q + y == y;
    } else {
      assert (p + x)[1..] == p[1..] + x && (q + y)[1..] == q[1..] + y;
      LessAfter(p[1..], q[1..], x, y);
      assert p == [p[0]] + p[1..] && q == [q[0]] + q[1..];
    }
  }

  lemma {:induction false} NotLessSelf(s: string)
    ensures !TextLess(s, s)
  {
    if s != "" {
      NotLessSelf(s[1..]);
    }
  }

  lemma {:induction false} FixedOrder(a: nat, b: nat, width: nat)
    requires a < Pow10(width) && b < Pow10(width)
    ensures TextLess(Fixed(a, width), Fixed(b, width)) <==> a < b
    ensures Fixed(a, width) == Fixed(b, width) <==> a == b
  {
    if width > 0 {
      FixedOrder(a / 10, b / 10, width - 1);
      var p, q, x, y := Fixed(a / 10, width - 1), Fixed(b / 10, width - 1), [Digit(a % 10)], [Digit(b % 10)];
      LessAfter(p, q, x, y);
      assert x[1..] == "" && y[1..] == "";
      assert TextLess(x, y) <==> a % 10 < b % 10;
      assert (p + x)[..width - 1] == p && (q + y)[..width - 1] == q;
      assert p + x == q + y ==> x[0] == (p + x)[width - 1] == (q + y)[width - 1] == y[0];
    }
  }

  /** A numeric field decides the order, or leaves it to what follows. */
  lemma FieldFirst(a: nat, b: nat, width: nat, x: string, y: string)
    requires a < Pow10(width) && b < Pow10(width)
    ensures TextLess(Fixed(a, width) + x, Fixed(b, width) + y) <==> a < b || (a == b && TextLess(x, y))
  {
    hide Fixed;
    FixedOrder(a, b, width);
    LessAfter(Fixed(a, width), Fixed(b, width), x, y);
  }

  lemma SameStart(c: char, x: string, y: string)
    ensures TextLess([c] + x, [c] + y) <==> TextLess(x, y)
  {
    NotLessSelf([c]);
    LessAfter([c], [c], x, y);
  }

  // ---------- the fraction ----------

  lemma Unfold(n: nat, width: nat)
    requires width >= 3
    ensures Fixed(n, width) == Fixed(n / 10 / 10 / 10, width - 3)
        + [Digit(n / 10 / 10 % 10), Digit(n / 10 % 10), Digit(n % 10)]
  {
    var m := n / 10;
    assert Fixed(n, width) == Fixed(m, width - 1) + [Digit(n % 10)];
    assert Fixed(m, width - 1) == Fixed(m / 10, width - 2) + [Digit(m % 10)];
    assert Fixed(m / 10, width - 2) == Fixed(m / 10 / 10, width - 3) + [Digit(m / 10 % 10)];
  }

  /** The last three digits are a group of their own. */
  lemma SplitThree(n: nat, front: nat)
    ensures Fixed(n, front + 3) == Fixed(n / 1_000, front) + Fixed(n % 1_000, 3)
  {
    hide Fixed;
    var r := n % 1_000;
    Unfold(n, front + 3);
    Unfold(r, 3);
    LastThreeDigits(n);
    assert Fixed(r / 10 / 10 / 10, 0) == "";
  }

  lemma LastThreeDigits(n: nat)
    ensures n / 10 / 10 / 10 == n / 1_000
    ensures n % 1_000 % 10 == n % 10 && n % 1_000 / 10 % 10 == n / 10 % 10
        && n % 1_000 / 10 / 10 % 10 == n / 10 / 10 % 10
  {
    var q := n / 1_000;
    assert n == 1_000 * q + n % 1_000;
    assert n / 10 == 100 * q + n % 1_000 / 10;
    assert n / 10 / 10 == 10 * q + n % 1_000 / 10 / 10;
  }

  /** What follows the seconds, by groups of three digits; a group and all after it are left out when they are zero. */
  function NanoTail(ns: nat): string { if ns == 0 then ZONE else Fixed(ns, 3) + ZONE }

  function MicroTail(us: nat, ns: nat): string { if us == 0 && ns == 0 then ZONE else Fixed(us, 3) + NanoTail(ns) }

  function Tail(ms: nat, us: nat, ns: nat): string {
    if ms == 0 && us == 0 && ns == 0 then ZONE else "." + (Fixed(ms, 3) + MicroTail(us, ns))
  }

  lemma Groups(nano: nat)
    requires nano < 1_000_000_000
    ensures nano / 1_000 / 1_000 == nano / 1_000_000 < 1_000
    ensures nano % 1_000_000 == 0 <==> nano / 1_000 % 1_000 == 0 && nano % 1_000 == 0
    ensures nano == 0 <==> nano / 1_000_000 == 0 && nano / 1_000 % 1_000 == 0 && nano % 1_000 == 0
  {
    assert nano % 1_000_000 == nano / 1_000 % 1_000 * 1_000 + nano % 1_000;
  }

  lemma Concats(a: string, b: string, c: string)
    ensures "." + a + ZONE == "." + (a + ZONE)
    ensures "." + (a + b) + ZONE == "." + (a + (b + ZONE))
    ensures "." + (a + b + c) + ZONE == "." + (a + (b + (c + ZONE)))
  {
  }

  lemma FractionIsTail(nano: nat)
    requires nano < 1_000_000_000
    ensures Fraction(nano) + ZONE == Tail(nano / 1_000_000, nano / 1_000 % 1_000, nano % 1_000)
  {
    hide Fixed;
    Groups(nano);
    SplitThree(nano / 1_000, 3);
    SplitThree(nano, 6);
    Concats(Fixed(nano / 1_000_000, 3), Fixed(nano / 1_000 % 1_000, 3), Fixed(nano % 1_000, 3));
    assert "" + ZONE == ZONE;
  }

  lemma Powers()
    ensures Pow10(2) == 100 && Pow10(3) == 1_000 && Pow10(4) == 10_000
  {
    assert Pow10(1) == 10;
  }

  lemma DigitsFirst(n: nat, rest: string)
    ensures var s := Fixed(n, 3) + rest; s != "" && '0' <= s[0] <= '9'
  {
  }

  lemma NanoTailOrder(a: nat, b: nat)
    requires a < 1_000 && b < 1_000
    ensures TextLess(NanoTail(a), NanoTail(b)) <==> a < b
  {
    hide Fixed;
    Powers();
    FieldFirst(a, b, 3, ZONE, ZONE);
    NotLessSelf(ZONE);
    DigitsFirst(a, ZONE);
    DigitsFirst(b, ZONE);
  }

  lemma MicroTailOrder(a: nat, b: nat, a0: nat, b0: nat)
    requires a < 1_000 && b < 1_000 && a0 < 1_000 && b0 < 1_000
    ensures TextLess(MicroTail(a, a0), MicroTail(b, b0)) <==> a < b || (a == b && a0 < b0)
  {
    hide Fixed, NanoTail;
    Powers();
    NanoTailOrder(a0, b0);
    FieldFirst(a, b, 3, NanoTail(a0), NanoTail(b0));
    NotLessSelf(ZONE);
    DigitsFirst(a, NanoTail(a0));
    DigitsFirst(b, NanoTail(b0));
  }

  lemma TailOrder(a: nat, b: nat, a1: nat, b1: nat, a0: nat, b0: nat)
    requires a < 1_000 && b < 1_000 && a1 < 1_000 && b1 < 1_000 && a0 < 1_000 && b0 < 1_000
    ensures TextLess(Tail(a, a1, a0), Tail(b, b1, b0)) <==> a < b || (a == b && (a1 < b1 || (a1 == b1 && a0 < b0)))
  {
    hide Fixed, MicroTail;
    Powers();
    MicroTailOrder(a1, b1, a0, b0);
    FieldFirst(a, b, 3, MicroTail(a1, a0), MicroTail(b1, b0));
    SameStart('.', Fixed(a, 3) + MicroTail(a1, a0), Fixed(b, 3) + MicroTail(b1, b0));
    NotLessSelf(ZONE);
    assert Tail(0, 0, 0)[0] == '+' && ("." + (Fixed(a, 3) + MicroTail(a1, a0)))[0] == '.'
        && ("." + (Fixed(b, 3) + MicroTail(b1, b0)))[0] == '.';
  }

  lemma GroupOrder(a: nat, b: nat)
    ensures a < b <==> a / 1_000_000 < b / 1_000_000
                       || (a / 1_000_000 == b / 1_000_000
                           && (a / 1_000 % 1_000 < b / 1_000 % 1_000
                                 || (a / 1_000 % 1_000 == b / 1_000 % 1_000 && a % 1_000 < b % 1_000)))
  {
    assert a == a / 1_000_000 * 1_000_000 + a / 1_000 % 1_000 * 1_000 + a % 1_000;
    assert b == b / 1_000_000 * 1_000_000 + b / 1_000 % 1_000 * 1_000 + b % 1_000;
  }

  lemma FractionOrder(a: nat, b: nat)
    requires a < 1_000_000_000 && b < 1_000_000_000
    ensures TextLess(Fraction(a) + ZONE, Fraction(b) + ZONE) <==> a < b
  {
    hide Tail, Fraction, TextLess;
    GroupOrder(a, b);
    Groups(a);
    Groups(b);
    FractionIsTail(a);
    FractionIsTail(b);
    TailOrder(a / 1_000_000, b / 1_000_000, a / 1_000 % 1_000, b / 1_000 % 1_000, a % 1_000, b % 1_000);
  }

  // ---------- the theorem ----------

  /** The text, field by field from the front. */
  function TimePart(t: Instant): string {
    Fixed(t.hour, 2) + (":" + (Fixed(t.minute, 2) + (":" + (Fixed(t.second, 2) + (Fraction(t.nano) + ZONE)))))
  }

  function Nested(t: Instant): string {
    Fixed(t.year, 4) + ("-" + (Fixed(t.month, 2) + ("-" + (Fixed(t.day, 2) + ("T" + TimePart(t))))))
  }

  lemma TextIsNested(t: Instant)
    ensures Text(t) == Nested(t)
  {
    hide Fixed, Fraction;
  }

  lemma TimePartOrder(a: Instant, b: Instant)
    requires Valid(a) && Valid(b)
    ensures TextLess(TimePart(a), TimePart(b)) <==> TimeBefore(a, b)
  {
    hide Fixed, Fraction, TextLess;
    Powers();
    FractionOrder(a.nano, b.nano);
    var a4, b4 := Fraction(a.nano) + ZONE, Fraction(b.nano) + ZONE;
    var a3, b3 := Fixed(a.second, 2) + a4, Fixed(b.second, 2) + b4;
    FieldFirst(a.second, b.second, 2, a4, b4);
    SameStart(':', a3, b3);
    var a2, b2 := Fixed(a.minute, 2) + (":" + a3), Fixed(b.minute, 2) + (":" + b3);
    FieldFirst(a.minute, b.minute, 2, ":" + a3, ":" + b3);
    SameStart(':', a2, b2);
    FieldFirst(a.hour, b.hour, 2, ":" + a2, ":" + b2);
  }

  /** Text order is time order: byte-wise comparison of two printed instants agrees with chronological order, although
    * their fractions may have different widths, and printing is injective. */
  lemma TextOrderIsTimeOrder(a: Instant, b: Instant)
    requires Valid(a) && Valid(b)
    ensures TextLess(Text(a), Text(b)) <==> Nanos(a) < Nanos(b)
    ensures Text(a) == Text(b) <==> Nanos(a) == Nanos(b)
  {
    hide Nanos;
    NestedOrder(a, b);
    NestedOrder(b, a);
    FieldsOrderIsTimeOrder(a, b);
    FieldsOrderIsTimeOrder(b, a);
    TextIsNested(a);
    TextIsNested(b);
    NotLessSelf(Text(a));
  }

  lemma NestedOrder(a: Instant, b: Instant)
    requires Valid(a) && Valid(b)
    ensures TextLess(Nested(a), Nested(b)) <==> FieldsBefore(a, b)
  {
    hide Fixed, TimePart, TextLess, TimeBefore;
    Powers();
    TimePartOrder(a, b);
    var a4, b4 := "T" + TimePart(a), "T" + TimePart(b);
    SameStart('T', TimePart(a), TimePart(b));
    var a3, b3 := Fixed(a.day, 2) + a4, Fixed(b.day, 2) + b4;
    FieldFirst(a.day, b.day, 2, a4, b4);
    SameStart('-', a3, b3);
    var a2, b2 := Fixed(a.month, 2) + ("-" + a3), Fixed(b.month, 2) + ("-" + b3);
    FieldFirst(a.month, b.month, 2, "-" + a3, "-" + b3);
    SameStart('-', a2, b2);
    FieldFirst(a.year, b.year, 4, "-" + a2, "-" + b2);
  }
}
