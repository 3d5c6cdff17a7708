/**
 IRIG times as text: the printer of the library, and the comparison that the programs around it
 make by taking the printed text apart again.
 */
module IrigText {

  datatype Time = Time(days: nat, hours: nat, minutes: nat, seconds: nat, microsecs: nat)

  predicate InDay(t: Time) { t.hours < 24 && t.minutes < 60 && t.seconds < 60 && t.microsecs < 1000000 }

  /** The month table; the printer shortens February outside leap years. */
  function DaysInMonth(leap: bool): seq<nat>
  {
    [31, if leap then 29 else 28, 31, 30, 31, 30, 31, 31, 30, 31, 30, 31]
  }

  const MONTH_NAMES: seq<string> :=
    ["Jan", "Feb", "Mar", "Apr", "May", "Jun", "Jul", "Aug", "Sep", "Oct", "Nov", "Dec"]

  function YearLength(leap: bool): nat { if leap then 366 else 365 }

  function DaysBefore(leap: bool, month: nat): nat
    requires month <= 12
  {
    if month == 0 then 0 else DaysBefore(leap, month - 1) + DaysInMonth(leap)[month - 1]
  }

  lemma {:induction false} MonthsAscend(leap: bool, m: nat, n: nat)
    requires m < n <= 12
    ensures DaysBefore(leap, m) + DaysInMonth(leap)[m] <= DaysBefore(leap, n)
  {
    if m + 1 < n { MonthsAscend(leap, m, n - 1); }
  }

  lemma WholeYear(leap: bool)
    ensures DaysBefore(leap, 12) == YearLength(leap)
  {
    MonthsUpTo3(leap);
    assert DaysBefore(leap, 4) == DaysBefore(leap, 3) + 30 && DaysBefore(leap, 5) == DaysBefore(leap, 4) + 31;
    assert DaysBefore(leap, 6) == DaysBefore(leap, 5) + 30 && DaysBefore(leap, 7) == DaysBefore(leap, 6) + 31;
    assert DaysBefore(leap, 8) == DaysBefore(leap, 7) + 31 && DaysBefore(leap, 9) == DaysBefore(leap, 8) + 30;
    assert DaysBefore(leap, 10) == DaysBefore(leap, 9) + 31 && DaysBefore(leap, 11) == DaysBefore(leap, 10) + 30;
  }

  lemma MonthsUpTo3(leap: bool)
    ensures DaysBefore(leap, 3) == 62 + DaysInMonth(leap)[1]
  {
    assert DaysBefore(leap, 1) == 31;
    assert DaysBefore(leap, 2) == 31 + DaysInMonth(leap)[1];
  }

  /** `rest` days into `month`, counting from 0, is day `day` of the year; only day 0 has no rest. */
  predicate IsDate(leap: bool, day: nat, month: nat, rest: nat)
  {
    && month < 12 && DaysBefore(leap, month) + rest == day && rest <= DaysInMonth(leap)[month]
    && (rest == 0 ==> month == 0)
  }

  /** The printer's loop.  Beyond the end of the year it runs off the table of month names. */
  method SplitDay(days: nat, leap: bool) returns (month: nat, day: nat)
    ensures month <= 12 && (month == 12 <==> days > YearLength(leap))
    ensures days <= YearLength(leap) ==> IsDate(leap, days, month, day)
  {
    var daysInMonth := DaysInMonth(leap);
    WholeYear(leap);
    month, day := 0, days;
    while month < 12
      invariant month <= 12 && DaysBefore(leap, month) + day == days
      invariant month == 0 || day > 0
    {
      if day > daysInMonth[month] {
        day := day - daysInMonth[month];
      } else {
        MonthsAscend(leap, month, 12);
        break;
      }
      month := month + 1;
    }
  }

  /** The split is one to one and keeps the order. */
  lemma DatesKeepOrder(leap: bool, day1: nat, m1: nat, r1: nat, day2: nat, m2: nat, r2: nat)
    requires IsDate(leap, day1, m1, r1) && IsDate(leap, day2, m2, r2)
    ensures day1 < day2 <==> m1 < m2 || (m1 == m2 && r1 < r2)
    ensures day1 == day2 <==> m1 == m2 && r1 == r2
  {
    if m1 < m2 { MonthsAscend(leap, m1, m2); }
    if m2 < m1 { MonthsAscend(leap, m2, m1); }
  }

  // ---- Printing ----

  function Digit(d: nat): char
    requires d < 10
  {
    '0' + d as char
  }

  /** %u */
  function Decimal(n: nat): string
  {
    if n < 10 then [Digit(n)] else Decimal(n / 10) + [Digit(n % 10)]
  }

  /** %0wu: at least w digits. */
  function Padded(n: nat, w: nat): string
    decreases w
  {
    if w <= 1 then Decimal(n) else Padded(n / 10, w - 1) + [Digit(n % 10)]
  }

  function Printed(month: nat, day: nat, t: Time): string
    requires month < 12
  {
    Decimal(day) + " " + MONTH_NAMES[month] + " " + Decimal(t.hours) + ":" + Padded(t.minutes, 2) + ":"
    + Padded(t.seconds, 2) + "." + Padded(t.microsecs, 6)
  }

  /** PrintIRIGtime_Px, for days that the table of month names covers. */
  method PrintIrigTime(t: Time, leap: bool) returns (text: string, ghost month: nat, ghost day: nat)
    requires t.days <= YearLength(leap)
    ensures IsDate(leap, t.days, month, day) && text == Printed(month, day, t)
  {
    var m, d := SplitDay(t.days, leap);
    month, day := m, d;
    text := Printed(m, d, t);
  }

  /** For one, seven microseconds past 4:05:06 on 5 February. */
  lemma PrintedExample()
    ensures IsDate(false, 36, 1, 5)
    ensures Printed(1, 5, Time(36, 4, 5, 6, 7)) == "5 Feb 4:05:06.000007"
  {
    SmallNumbers();
    hide Padded;
  }

  lemma SmallNumbers()
    ensures Padded(5, 2) == "05" && Padded(6, 2) == "06" && Padded(7, 6) == "000007"
  {
    assert Padded(0, 3) == "000" by { assert Padded(0, 2) == "00"; }
    assert Padded(0, 5) == "00000" by { assert Padded(0, 4) == "0000"; }
  }

  // ---- Taking the text apart ----

  predicate IsDigit(c: char) { '0' <= c <= '9' }

  /** atoi, on text that begins with its digits. */
  function Atoi(s: string): nat { AtoiFrom(s, 0) }

  function AtoiFrom(s: string, sofar: nat): nat
    decreases |s|
  {
    if s == [] || !IsDigit(s[0]) then sofar else AtoiFrom(s[1..], 10 * sofar + (s[0] as nat - '0' as nat))
  }

  /** monToInt: a month that starts with J but does not go on as one falls through to February. */
  function MonToInt(mon: string): nat
    requires |mon| == 3
  {
    if mon[0] in "Jj" then
      if mon[2] in "Nn" then (if mon[1] in "Aa" then 1 else if mon[1] in "Uu" then 6 else 2)
      else if mon[2] in "Ll" then 7
      else 2
    else if mon[0] in "Ff" then 2
    else if mon[0] in "Mm" then (if mon[2] in "Rr" then 3 else if mon[2] in "Yy" then 5 else 0)
    else if mon[0] in "Aa" then (if mon[1] in "Pp" then 4 else if mon[1] in "Uu" then 8 else 0)
    else if mon[0] in "Ss" then 9
    else if mon[0] in "Oo" then 10
    else if mon[0] in "Nn" then 11
    else if mon[0] in "Dd" then 12
    else 0
  }

  lemma MonthNumbers(month: nat)
    requires month < 12
    ensures |MONTH_NAMES[month]| == 3 && MonToInt(MONTH_NAMES[month]) == month + 1
  {
  }

  datatype Fields = Fields(month: nat, day: nat, hour: nat, minute: nat, seconds: nat, microseconds: nat)

  /** How many characters the parser takes for the day, and then for the hour. */
  function DayWidth(date: string): nat
    requires |date| >= 2
  {
    if date[1] != ' ' then 2 else 1
  }

  function HourWidth(date: string): nat
    requires |date| >= 8 + 1
  {
    if date[DayWidth(date) + 6] != ':' then 2 else 1
  }

  /** Long enough for all that the parser reads. */
  predicate Readable(date: string) { |date| >= 9 && |date| >= DayWidth(date) + HourWidth(date) + 18 }

  /** The fields at their places in the text, with the terminating bytes that the parser's arrays hold. */
  function FieldsOf(date: string, junk: char): Fields
    requires Readable(date)
  {
    var d, h := DayWidth(date), HourWidth(date);
    var k := d + h;
    Fields(MonToInt(date[d + 1..d + 4]), Atoi(date[..d] + ['\0']), Atoi(date[d + 5..k + 5] + ['\0']),
           Atoi(date[k + 6..k + 8] + ['\0']), Atoi(date[k + 9..k + 11] + ['\0']), Atoi(date[k + 12..k + 18] + [junk]))
  }

  /** Steps through the text; `junk` is the byte after the microseconds, which is never set. */
  method Parse(date: string, junk: char) returns (f: Fields)
    requires Readable(date)
    ensures f == FieldsOf(date, junk)
  {
    var index := 0;
    var dayArr := [date[index]];
    index := index + 1;
    if date[index] != ' ' {
      dayArr := dayArr + [date[index]];
      index := index + 1;
    }
    assert dayArr == date[..index] && index == DayWidth(date);
    index := index + 1;
    var monArr := date[index..index + 3];
    index := index + 3;
    index := index + 1;
    var hourArr := [date[index]];
    index := index + 1;
    if date[index] != ':' {
      hourArr := hourArr + [date[index]];
      index := index + 1;
    }
    assert hourArr == date[DayWidth(date) + 5..index] && index == DayWidth(date) + HourWidth(date) + 5;
    index := index + 1;
    var minuteArr := date[index..index + 2];
    index := index + 2;
    index := index + 1;
    var secondsArr := date[index..index + 2];
    index := index + 2;
    index := index + 1;
    var microsecondsArr := date[index..index + 6];
    f := Fields(MonToInt(monArr), Atoi(dayArr + ['\0']), Atoi(hourArr + ['\0']), Atoi(minuteArr + ['\0']),
                Atoi(secondsArr + ['\0']), Atoi(microsecondsArr + [junk]));
  }

  predicate FieldsBefore(a: Fields, b: Fields)
  {
    if a.month != b.month then a.month < b.month
    else if a.day != b.day then a.day < b.day
    else if a.hour != b.hour then a.hour < b.hour
    else if a.minute != b.minute then a.minute < b.minute
    else if a.seconds != b.seconds then a.seconds < b.seconds
    else a.microseconds < b.microseconds
  }

  predicate Before(s: Time, t: Time)
  {
    if s.days != t.days then s.days < t.days
    else if s.hours != t.hours then s.hours < t.hours
    else if s.minutes != t.minutes then s.minutes < t.minutes
    else if s.seconds != t.seconds then s.seconds < t.seconds
    else s.microsecs < t.microsecs
  }

  // ---- The text read back ----

  /** Digits in front are digits already read. */
  lemma {:induction false} AtoiAppend(s: string, d: nat, end: char, sofar: nat)
    requires d < 10 && !IsDigit(end) && forall i :: 0 <= i < |s| ==> IsDigit(s[i])
    ensures AtoiFrom(s + [Digit(d), end], sofar) == 10 * AtoiFrom(s + [end], sofar) + d
    decreases |s|
  {
    if s == [] {
      var u := s + [Digit(d), end];
      assert u == [Digit(d), end] && u[1..] == [end] && s + [end] == [end];
      assert AtoiFrom(u, sofar) == AtoiFrom(u[1..], 10 * sofar + d);
    } else {
      assert (s + [Digit(d), end])[1..] == s[1..] + [Digit(d), end];
      assert (s + [end])[1..] == s[1..] + [end];
      AtoiAppend(s[1..], d, end, 10 * sofar + (s[0] as nat - '0' as nat));
    }
  }

  function Ten(w: nat): nat { if w == 0 then 1 else 10 * Ten(w - 1) }

  /** A padded number has just its width, is made of digits, and reads back. */
  lemma {:induction false} PaddedReadsBack(n: nat, w: nat, end: char)
    requires 1 <= w && n < Ten(w) && !IsDigit(end)
    ensures |Padded(n, w)| == w && (forall i :: 0 <= i < w ==> IsDigit(Padded(n, w)[i]))
    ensures Atoi(Padded(n, w) + [end]) == n
    decreases w
  {
    if w == 1 {
      var u := [Digit(n), end];
      assert Padded(n, w) + [end] == u && u[1..] == [end];
      assert AtoiFrom(u, 0) == AtoiFrom(u[1..], n);
    } else {
      PaddedReadsBack(n / 10, w - 1, end);
      var front := Padded(n / 10, w - 1);
      AtoiAppend(front, n % 10, end, 0);
      assert front + [Digit(n % 10)] + [end] == front + [Digit(n % 10), end];
    }
  }

  lemma DecimalIsPadded(n: nat)
    requires n < 100
    ensures Decimal(n) == if n < 10 then Padded(n, 1) else Padded(n, 2)
  {
  }

  function Joined(day: string, mon: string, hour: string, minute: string, second: string, micro: string): string
  {
    day + " " + mon + " " + hour + ":" + minute + ":" + second + "." + micro
  }

  predicate Digits(s: string) { forall i :: 0 <= i < |s| ==> IsDigit(s[i]) }

  /** Each piece is where the others' lengths put it. */
  lemma PiecesOfJoined(day: string, mon: string, hour: string, minute: string, second: string, micro: string)
    requires |mon| == 3 && |minute| == 2 && |second| == 2 && |micro| == 6
    ensures var date, k := Joined(day, mon, hour, minute, second, micro), |day| + |hour|;
      && |date| == k + 18
      && date[..|day|] == day && date[|day| + 1..|day| + 4] == mon && date[|day| + 5..k + 5] == hour
      && date[k + 6..k + 8] == minute && date[k + 9..k + 11] == second && date[k + 12..k + 18] == micro
  {
    var date := Joined(day, mon, hour, minute, second, micro);
    var front := day + " " + mon + " " + hour;
    assert date[..|front|] == front;
    Middle(front + ":", minute, ":" + second + "." + micro);
    Middle(front + ":" + minute + ":", second, "." + micro);
    assert date == front + ":" + minute + (":" + second + "." + micro);
    assert date == front + ":" + minute + ":" + second + ("." + micro);
  }

  lemma Middle(before: string, part: string, after: string)
    ensures (before + part + after)[|before|..|before| + |part|] == part
  {
  }

  lemma MarksOfJoined(day: string, mon: string, hour: string, minute: string, second: string, micro: string)
    requires |mon| == 3
    ensures var date := Joined(day, mon, hour, minute, second, micro);
      |date| > |day| + |hour| + 5 && date[|day|] == ' ' && date[|day| + 5 + |hour|] == ':'
  {
  }

  /** The parser finds the pieces again. */
  lemma PiecesAreFound(day: string, mon: string, hour: string, minute: string, second: string, micro: string)
    requires 1 <= |day| <= 2 && 1 <= |hour| <= 2 && |mon| == 3 && |minute| == 2 && |second| == 2 && |micro| == 6
    requires Digits(day) && Digits(hour)
    ensures var date := Joined(day, mon, hour, minute, second, micro);
      && Readable(date) && DayWidth(date) == |day| && HourWidth(date) == |hour|
      && var k := |day| + |hour|;
      && date[..|day|] == day && date[|day| + 1..|day| + 4] == mon && date[|day| + 5..k + 5] == hour
      && date[k + 6..k + 8] == minute && date[k + 9..k + 11] == second && date[k + 12..k + 18] == micro
  {
    PiecesOfJoined(day, mon, hour, minute, second, micro);
    MarksOfJoined(day, mon, hour, minute, second, micro);
    hide Joined;
    var date := Joined(day, mon, hour, minute, second, micro);
    assert date[..|day|][|day| - 1] == day[|day| - 1];
    assert date[|day| + 5..|day| + |hour| + 5][|hour| - 1] == hour[|hour| - 1];
  }

  /** What the microseconds read as: a digit in the byte that is never set counts as one more digit. */
  function ReadMicros(micros: nat, junk: char): nat
  {
    if IsDigit(junk) then 10 * micros + (junk as nat - '0' as nat) else micros
  }

  lemma MicrosRead(micros: nat, junk: char)
    requires micros < 1000000
    ensures |Padded(micros, 6)| == 6 && Atoi(Padded(micros, 6) + [junk]) == ReadMicros(micros, junk)
  {
    assert Ten(3) == 1000 && Ten(6) == 1000 * Ten(3);
    hide Padded;
    var digits := Padded(micros, 6);
    if IsDigit(junk) {
      var d := junk as nat - '0' as nat;
      PaddedReadsBack(micros, 6, '\0');
      AtoiAppend(digits, d, '\0', 0);
      assert Digit(d) == junk;
      AtoiStops(digits + [junk], 0);
      assert digits + [junk] + ['\0'] == digits + [Digit(d), '\0'];
    } else {
      PaddedReadsBack(micros, 6, junk);
    }
  }

  /** The end of the text ends a number like any other character that is no digit. */
  lemma {:induction false} AtoiStops(s: string, sofar: nat)
    requires Digits(s)
    ensures AtoiFrom(s + ['\0'], sofar) == AtoiFrom(s, sofar)
    decreases |s|
  {
    if s == [] {
      assert s + ['\0'] == ['\0'];
    } else {
      assert (s + ['\0'])[1..] == s[1..] + ['\0'];
      AtoiStops(s[1..], 10 * sofar + (s[0] as nat - '0' as nat));
    }
  }

  /** Every printed time reads back as itself, but for what the unset byte does to its microseconds. */
  lemma PrintedReadsBack(leap: bool, t: Time, month: nat, day: nat, junk: char)
    requires IsDate(leap, t.days, month, day) && InDay(t)
    ensures Readable(Printed(month, day, t))
    ensures FieldsOf(Printed(month, day, t), junk) ==
            Fields(month + 1, day, t.hours, t.minutes, t.seconds, ReadMicros(t.microsecs, junk))
  {
    hide Padded, Decimal, Atoi, MonToInt, ReadMicros;
    MonthNumbers(month);
    DecimalIsPadded(day);
    DecimalIsPadded(t.hours);
    PaddedReadsBack(day, if day < 10 then 1 else 2, '\0');
    PaddedReadsBack(t.hours, if t.hours < 10 then 1 else 2, '\0');
    PaddedReadsBack(t.minutes, 2, '\0');
    PaddedReadsBack(t.seconds, 2, '\0');
    MicrosRead(t.microsecs, junk);
    PiecesAreFound(Decimal(day), MONTH_NAMES[month], Decimal(t.hours), Padded(t.minutes, 2), Padded(t.seconds, 2),
                   Padded(t.microsecs, 6));
  }

  predicate SameSecond(s: Time, t: Time)
  {
    s.days == t.days && s.hours == t.hours && s.minutes == t.minutes && s.seconds == t.seconds
  }

  /**
   When the two unset bytes turn the order of the microseconds `a` and `b` around: both digits, equal
   times and the second byte the larger; or one a digit, and its number grows to reach or pass the other.
   */
  predicate Misled(a: nat, junk1: char, b: nat, junk2: char)
  {
    if IsDigit(junk1) && IsDigit(junk2) then a == b && junk1 < junk2
    else if IsDigit(junk1) then a < b <= ReadMicros(a, junk1)
    else IsDigit(junk2) && b <= a < ReadMicros(b, junk2)
  }

  /** The printed texts compare as the times do, just if the unset bytes do not mislead within a second. */
  lemma PrintedOrder(leap: bool, s: Time, m1: nat, d1: nat, t: Time, m2: nat, d2: nat, junk1: char, junk2: char)
    requires IsDate(leap, s.days, m1, d1) && InDay(s) && IsDate(leap, t.days, m2, d2) && InDay(t)
    ensures Readable(Printed(m1, d1, s)) && Readable(Printed(m2, d2, t))
    ensures (FieldsBefore(FieldsOf(Printed(m1, d1, s), junk1), FieldsOf(Printed(m2, d2, t), junk2)) <==> Before(s, t))
            <==> !(SameSecond(s, t) && Misled(s.microsecs, junk1, t.microsecs, junk2))
  {
    hide FieldsOf, Printed, Readable, IsDate;
    PrintedReadsBack(leap, s, m1, d1, junk1);
    PrintedReadsBack(leap, t, m2, d2, junk2);
    DatesKeepOrder(leap, s.days, m1, d1, t.days, m2, d2);
  }

  /** isBigger: 1 unless the first text's time comes before the second's. */
  method IsBigger(date1: string, date2: string, junk1: char, junk2: char) returns (r: int)
    requires Readable(date1) && Readable(date2)
    ensures r == if FieldsBefore(FieldsOf(date1, junk1), FieldsOf(date2, junk2)) then 0 else 1
  {
    var f1 := Parse(date1, junk1);
    var f2 := Parse(date2, junk2);
    if f1.month < f2.month { return 0; }
    else if f1.month == f2.month {
      if f1.day < f2.day { return 0; }
      else if f1.day == f2.day {
        if f1.hour < f2.hour { return 0; }
        else if f1.hour == f2.hour {
          if f1.minute < f2.minute { return 0; }
          else if f1.minute == f2.minute {
            if f1.seconds < f2.seconds { return 0; }
            else if f1.seconds == f2.seconds {
              if f1.microseconds < f2.microseconds { return 0; }
            }
          }
        }
      }
    }
    return 1;
  }

  /**
   For any two times of a year, comparing what was printed says whether the first is the later or the
   same, unless the unset bytes mislead; they do not if neither is a digit.
   */
  method ComparePrinted(s: Time, t: Time, leap: bool, junk1: char, junk2: char) returns (r: int)
    requires s.days <= YearLength(leap) && InDay(s) && t.days <= YearLength(leap) && InDay(t)
    ensures r == 0 || r == 1
    ensures (r == 1 <==> !Before(s, t)) <==> !(SameSecond(s, t) && Misled(s.microsecs, junk1, t.microsecs, junk2))
  {
    var text1, m1, d1 := PrintIrigTime(s, leap);
    var text2, m2, d2 := PrintIrigTime(t, leap);
    PrintedOrder(leap, s, m1, d1, t, m2, d2, junk1, junk2);
    r := IsBigger(text1, text2, junk1, junk2);
  }

  /** A time read a microsecond and more later than the other is taken for the earlier one, and so is the same time. */
  lemma JunkDigitMatters()
    ensures var early, late := Time(0, 0, 0, 0, 1), Time(0, 0, 0, 0, 9);
      && Readable(Printed(0, 0, early)) && Readable(Printed(0, 0, late))
      && FieldsBefore(FieldsOf(Printed(0, 0, late), '\0'), FieldsOf(Printed(0, 0, early), '0'))
      && FieldsBefore(FieldsOf(Printed(0, 0, late), '\0'), FieldsOf(Printed(0, 0, late), '0'))
  {
    var early, late := Time(0, 0, 0, 0, 1), Time(0, 0, 0, 0, 9);
    hide FieldsOf, Printed, Readable;
    PrintedOrder(false, late, 0, 0, early, 0, 0, '\0', '0');
    PrintedOrder(false, late, 0, 0, late, 0, 0, '\0', '0');
  }
}
