/** What the stored text of an instant denotes, read by position, and the calendar behind it in numbers. */
module TimeReading {
  import opened Wrappers
  import opened Decimal
  import opened TimeText

  // ---------- the calendar ----------

  /** A year is a leap year if it is divisible by 4, but of the centuries only every fourth. */
  lemma LeapYears(y: nat)
    ensures y % 400 == 0 ==> IsLeap(y)
    ensures y % 100 == 0 && y % 400 != 0 ==> !IsLeap(y)
    ensures y % 4 == 0 && y % 100 != 0 ==> IsLeap(y)
    ensures y % 4 != 0 ==> !IsLeap(y)
  {
    HundredsAndFours(y);
  }

  lemma MonthLengths(y: nat)
    ensures MonthLength(y, 1) == MonthLength(y, 3) == MonthLength(y, 5) == MonthLength(y, 7) == 31
    ensures MonthLength(y, 8) == MonthLength(y, 10) == MonthLength(y, 12) == 31
    ensures MonthLength(y, 4) == MonthLength(y, 6) == MonthLength(y, 9) == MonthLength(y, 11) == 30
    ensures MonthLength(y, 2) == if IsLeap(y) then 29 else 28
  {
  }

  lemma YearLength(y: nat)
    ensures DaysBeforeMonth(y, 13) == if IsLeap(y) then 366 else 365
  {
    MonthLengths(y);
    assert DaysBeforeMonth(y, 3) == 31 + MonthLength(y, 2) by {
      assert DaysBeforeMonth(y, 2) == 31 + DaysBeforeMonth(y, 1);
    }
    var d := DaysBeforeMonth(y, 3);
    assert DaysBeforeMonth(y, 6) == d + 92 by {
      assert DaysBeforeMonth(y, 4) == d + 31;
      assert DaysBeforeMonth(y, 5) == d + 61;
    }
    assert DaysBeforeMonth(y, 9) == d + 184 by {
      assert DaysBeforeMonth(y, 7) == d + 122;
      assert DaysBeforeMonth(y, 8) == d + 153;
    }
    assert DaysBeforeMonth(y, 12) == d + 275 by {
      assert DaysBeforeMonth(y, 10) == d + 214;
      assert DaysBeforeMonth(y, 11) == d + 245;
    }
  }

  /** The leap years before y. */
  function LeapsBefore(y: nat): nat { (y + 3) / 4 - (y + 99) / 100 + (y + 399) / 400 }

  lemma LeapsGrow(y: nat)
    ensures LeapsBefore(y + 1) == LeapsBefore(y) + if IsLeap(y) then 1 else 0
  {
    CeilGrows(y, 4);
    CeilGrows(y, 100);
    CeilGrows(y, 400);
    HundredsAndFours(y);
  }

  /** Rounded up, y / d grows after a multiple of d. */
  lemma CeilGrows(y: nat, d: nat)
    requires d == 4 || d == 100 || d == 400
    ensures (y + d) / d == (y + d - 1) / d + if y % d == 0 then 1 else 0
  {
    var q, r := y / d, y % d;
    assert y == d * q + r;
    if d == 4 {
      assert (y + 4) / 4 == q + 1;
    } else if d == 100 {
      assert (y + 100) / 100 == q + 1;
    } else {
      assert (y + 400) / 400 == q + 1;
    }
  }

  lemma HundredsAndFours(y: nat)
    ensures y % 400 == 0 ==> y % 100 == 0
    ensures y % 100 == 0 ==> y % 4 == 0
  {
    if y % 400 == 0 {
      assert y == 100 * (4 * (y / 400));
    }
    if y % 100 == 0 {
      assert y == 4 * (25 * (y / 100));
    }
  }

  /** The days before a year, in closed form. */
  lemma {:induction false} DaysOfYears(y: nat)
    ensures DaysBeforeYear(y) == 365 * y + LeapsBefore(y)
  {
    hide LeapsBefore, DaysBeforeMonth, IsLeap;
    if y == 0 {
      assert LeapsBefore(0) == 0 by {
        NoLeaps();
      }
    } else {
      DaysOfYears(y - 1);
      YearLength(y - 1);
      LeapsGrow(y - 1);
    }
  }

  lemma NoLeaps()
    ensures LeapsBefore(0) == 0 && LeapsBefore(1970) == 478
  {
  }

  /** An instant in numbers: its day, its time of day and its fraction. */
  lemma NanosInNumbers(t: Instant)
    requires Valid(t)
    ensures Nanos(t) == (((365 * t.year + LeapsBefore(t.year) + DaysBeforeMonth(t.year, t.month) + t.day - 1) * 24
        + t.hour) * 3600
                         + t.minute * 60 + t.second) * 1_000_000_000 + t.nano
  {
    hide LeapsBefore, DaysBeforeYear, DaysBeforeMonth;
    DaysOfYears(t.year);
  }

  /** The count of nanoseconds agrees with the clock that begins in 1970. */
  lemma EpochNanos(t: Instant)
    requires t.year == 1970 && t.month == t.day == 1 && t.hour == t.minute == t.second == t.nano == 0
    ensures Valid(t) && Nanos(t) == 62_167_219_200_000_000_000
  {
    hide LeapsBefore, DaysBeforeYear, Nanos, IsLeap;
    NoLeaps();
    NanosInNumbers(t);
    assert DaysBeforeMonth(t.year, t.month) == 0;
  }

  /** The instants are exactly those of the years 0 to 9999 with a time of day. */
  lemma ValidExactly(t: Instant)
    ensures Valid(t) <==>
            && 0 <= t.year < 10_000 && t.month in {1, 2, 3, 4, 5, 6, 7, 8, 9, 10, 11, 12}
            && 0 < t.day < 1 + MonthLength(t.year, t.month)
            && SecondOfDay(t) < 86_400 && t.minute <= 59 && t.second <= 59 && t.nano <= 999_999_999
  {
  }

  // ---------- reading ----------

  /** The fields as written, and the offset from UTC in minutes. */
  datatype Reading = Reading(year: nat, month: nat, day: nat, hour: nat, minute: nat, second: nat, nano: nat,
      offset: int)

  /** Nothing, or a point and up to nine digits of a second. */
  function ReadFraction(s: string): Option<nat> {
    if s == "" then Some(0)
    else if s[0] == '.' && 2 <= |s| <= 10 && AllDigits(s[1..]) then Some(ValueOf(s[1..]) * Pow10(10 - |s|))
    else None
  }

  /** A sign, hours and minutes. */
  function ReadOffset(s: string): Option<int> {
    if |s| == 6 && (s[0] == '+' || s[0] == '-') && AllDigits(s[1..3]) && s[3] == ':' && AllDigits(s[4..6]) then
      var minutes := ValueOf(s[1..3]) * 60 + ValueOf(s[4..6]);
      Some(if s[0] == '+' then minutes else 0 - minutes)
    else None
  }

  /** An instant in the form of section 5.6 of RFC 3339. */
  function ReadText(s: string): Option<Reading> {
    if |s| < 25 || s[4] != '-' || s[7] != '-' || s[10] != 'T' || s[13] != ':' || s[16] != ':' then None
    else
      var y, mo, d := ParseNat(s[..4]), ParseNat(s[5..7]), ParseNat(s[8..10]);
      var h, mi, sec := ParseNat(s[11..13]), ParseNat(s[14..16]), ParseNat(s[17..19]);
      var f, o := ReadFraction(s[19..|s| - 6]), ReadOffset(s[|s| - 6..]);
      if y.None? || mo.None? || d.None? || h.None? || mi.None? || sec.None? || f.None? || o.None? then None
      else Some(Reading(y.value, mo.value, d.value, h.value, mi.value, sec.value, f.value, o.value))
  }

  // ---------- reading what is printed ----------

  lemma Layout(y: string, mo: string, d: string, h: string, mi: string, s: string, f: string)
    requires |y| == 4 && |mo| == |d| == |h| == |mi| == |s| == 2
    ensures var x := y + "-" + mo + "-" + d + "T" + h + ":" + mi + ":" + s + f + ZONE;
            && |x| == 25 + |f| && x[4] == '-' && x[7] == '-' && x[10] == 'T' && x[13] == ':' && x[16] == ':'
            && x[..4] == y && x[5..7] == mo && x[8..10] == d && x[11..13] == h && x[14..16] == mi && x[17..19] == s
            && x[19..|x| - 6] == f && x[|x| - 6..] == ZONE
  {
    var x := y + "-" + mo + "-" + d + "T" + h + ":" + mi + ":" + s + f + ZONE;
    var date, time := y + "-" + mo + "-" + d, h + ":" + mi + ":" + s;
    Triple(y, mo, d, "-");
    Triple(h, mi, s, ":");
    assert x == date + "T" + time + f + ZONE;
    assert x[..|date|] == date && x[|date| + 1..19] == time;
    assert x[5..7] == date[5..7] && x[8..10] == date[8..10] && x[..4] == date[..4];
    assert x[11..13] == time[..2] && x[14..16] == time[3..5] && x[17..19] == time[6..8];
  }

  lemma Triple(a: string, b: string, c: string, sep: string)
    requires |sep| == 1 && |b| == |c| == 2
    ensures var x := a + sep + b + sep + c;
            && |x| == |a| + 6 && x[|a|] == sep[0] && x[|a| + 3] == sep[0]
            && x[..|a|] == a && x[|a| + 1..|a| + 3] == b && x[|a| + 4..|a| + 6] == c
  {
  }

  lemma ZoneReads()
    ensures ReadOffset(ZONE) == Some(0)
  {
    assert ZONE[1..3] == "00" && ZONE[4..6] == "00";
    assert "00"[..1] == "0" && "0"[..0] == "";
    assert ValueOf("0") == 0;
    assert ValueOf("00") == 0;
  }

  lemma FixedReads(n: nat, width: nat)
    requires n < Pow10(width) && width > 0
    ensures ParseNat(Fixed(n, width)) == Some(n)
  {
    ValueOfFixed(n, width);
  }

  lemma PowersOfTen()
    ensures Pow10(0) == 1 && Pow10(2) == 100 && Pow10(3) == 1_000 && Pow10(4) == 10_000
    ensures Pow10(6) == 1_000_000 && Pow10(9) == 1_000_000_000
  {
    assert Pow10(1) == 10;
    assert Pow10(5) == 100_000;
    assert Pow10(7) == 10_000_000;
    assert Pow10(8) == 100_000_000;
  }

  /** The fraction is the shortest of 0, 3, 6 or 9 digits that denotes the nanoseconds. */
  lemma FractionReads(nano: nat)
    requires nano < 1_000_000_000
    ensures ReadFraction(Fraction(nano)) == Some(nano)
    ensures |Fraction(nano)| == if nano == 0 then 0 else if nano % 1_000_000 == 0 then 4
        else if nano % 1_000 == 0 then 7 else 10
  {
    hide Fixed, ValueOf, Pow10;
    PowersOfTen();
    if nano == 0 {
    } else if nano % 1_000_000 == 0 {
      DigitsRead(nano / 1_000_000, 3);
    } else if nano % 1_000 == 0 {
      DigitsRead(nano / 1_000, 6);
    } else {
      DigitsRead(nano, 9);
    }
  }

  lemma DigitsRead(n: nat, width: nat)
    requires n < Pow10(width) && 0 < width <= 9
    ensures ReadFraction("." + Fixed(n, width)) == Some(n * Pow10(9 - width))
  {
    hide Fixed, Pow10, ValueOf;
    ValueOfFixed(n, width);
    assert ("." + Fixed(n, width))[1..] == Fixed(n, width);
  }

  /** The text of an instant, read back, gives all its fields and no offset from UTC. */
  lemma TextReadsBack(t: Instant)
    requires Valid(t)
    ensures ReadText(Text(t)) == Some(Reading(t.year, t.month, t.day, t.hour, t.minute, t.second, t.nano, 0))
  {
    hide Fixed, Fraction, ReadFraction, ReadOffset, ZONE, Pow10, ParseNat;
    PowersOfTen();
    Layout(Fixed(t.year, 4), Fixed(t.month, 2), Fixed(t.day, 2), Fixed(t.hour, 2), Fixed(t.minute, 2),
        Fixed(t.second, 2),
           Fraction(t.nano));
    FixedReads(t.year, 4);
    FixedReads(t.month, 2);
    FixedReads(t.day, 2);
    FixedReads(t.hour, 2);
    FixedReads(t.minute, 2);
    FixedReads(t.second, 2);
    FractionReads(t.nano);
    ZoneReads();
  }
}
