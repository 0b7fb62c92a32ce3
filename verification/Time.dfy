/** Timestamps, and when a leap second is in its place. */
module Time {
  import opened Records

  // ---------- The calendar ----------

  predicate IsLeap(year: int) { year % 4 == 0 && (year % 100 != 0 || year % 400 == 0) }

  function MonthLength(year: int, month: int): int {
    if month == 2 then (if IsLeap(year) then 29 else 28)
    else if month in {4, 6, 9, 11} then 30 else 31
  }

  /** Days from the first of January of year 0 to the first of January of `year`. */
  function DaysBeforeYear(year: int): int {
    365 * year + (year + 3) / 4 - (year + 99) / 100 + (year + 399) / 400
  }

  /** Days of the year before the first of `month`. */
  function DaysBeforeMonth(year: int, month: int): int
    requires 1 <= month <= 12
  {
    var common := [0, 31, 59, 90, 120, 151, 181, 212, 243, 273, 304, 334][month - 1];
    if month > 2 && IsLeap(year) then common + 1 else common
  }

  function DayNumber(year: int, month: int, day: int): int
    requires 1 <= month <= 12
  {
    DaysBeforeYear(year) + DaysBeforeMonth(year, month) + day - 1
  }

  /** A date and time with the parts as they are written. The offset is that of local time from UTC. */
  datatype Stamp = Stamp(year: nat, month: nat, day: nat, hour: nat, minute: nat, second: nat, offset: Offset)

  datatype Offset = Utc | Ahead(hours: nat, minutes: nat) | Behind(hours: nat, minutes: nat) {
    predicate Ok() { Utc? || (hours <= 23 && minutes <= 59) }

    function Minutes(): int {
      match this
      case Utc => 0
      case Ahead(h, m) => h * 60 + m
      case Behind(h, m) => -(h * 60 + m)
    }
  }

  predicate DateAndTimeOk(t: Stamp) {
    && 1 <= t.month <= 12 && 1 <= t.day <= MonthLength(t.year, t.month)
    && t.hour <= 23 && t.minute <= 59 && t.second <= 60 && t.offset.Ok()
  }

  /** The minute of the timestamp, counted in UTC. */
  function UtcMinute(t: Stamp): int
    requires DateAndTimeOk(t)
  {
    DayNumber(t.year, t.month, t.day) * 1440 + t.hour * 60 + t.minute - t.offset.Minutes()
  }

  /** The next minute is the first of a month. */
  ghost predicate LastMinuteOfMonth(minute: int) {
    exists year, month | 1 <= month <= 12 :: minute + 1 == DayNumber(year, month, 1) * 1440
  }

  // ---------- Months follow one another ----------

  lemma FourthYears(year: int)
    ensures (year + 4) / 4 == (year + 3) / 4 + if year % 4 == 0 then 1 else 0
  {
  }

  lemma HundredthYears(year: int)
    ensures (year + 100) / 100 == (year + 99) / 100 + if year % 100 == 0 then 1 else 0
  {
  }

  lemma FourHundredthYears(year: int)
    ensures (year + 400) / 400 == (year + 399) / 400 + if year % 400 == 0 then 1 else 0
  {
  }

  lemma CenturiesAreFourths(year: int)
    ensures year % 400 == 0 ==> year % 100 == 0
    ensures year % 100 == 0 ==> year % 4 == 0
  {
  }

  lemma YearsFollow(year: int)
    ensures DaysBeforeYear(year + 1) == DaysBeforeYear(year) + if IsLeap(year) then 366 else 365
  {
    FourthYears(year);
    HundredthYears(year);
    FourHundredthYears(year);
    CenturiesAreFourths(year);
  }

  /** The month with a given index, counted in months from year 0. */
  function MonthStart(index: int): int { DayNumber(index / 12, index % 12 + 1, 1) }

  lemma MonthsFollow(index: int)
    ensures MonthStart(index + 1) == MonthStart(index) + MonthLength(index / 12, index % 12 + 1)
  {
    YearsFollow(index / 12);
    if index % 12 == 11 {
      assert (index + 1) / 12 == index / 12 + 1 && (index + 1) % 12 == 0;
    } else {
      assert (index + 1) / 12 == index / 12 && (index + 1) % 12 == index % 12 + 1;
    }
  }

  lemma {:induction false} MonthsAscend(i: int, j: int)
    requires i < j
    ensures MonthStart(i) < MonthStart(j)
    decreases j - i
  {
    hide MonthStart;
    MonthsFollow(j - 1);
    if i < j - 1 {
      MonthsAscend(i, j - 1);
    }
  }

  lemma IndexOf(year: int, month: int)
    requires 1 <= month <= 12
    ensures (12 * year + month - 1) / 12 == year && (12 * year + month - 1) % 12 == month - 1
    ensures MonthStart(12 * year + month - 1) == DayNumber(year, month, 1)
  {
  }

  /** The day after a date begins a month exactly if the date is the last of its month. */
  lemma NextDayBeginsMonth(year: int, month: int, day: int)
    requires 1 <= month <= 12 && 1 <= day <= MonthLength(year, month)
    ensures day == MonthLength(year, month) <==>
            exists y, m | 1 <= m <= 12 :: DayNumber(year, month, day) + 1 == DayNumber(y, m, 1)
  {
    hide DaysBeforeYear, DaysBeforeMonth;
    var index := 12 * year + month - 1;
    IndexOf(year, month);
    MonthsFollow(index);
    assert MonthStart(index + 1) == DayNumber((index + 1) / 12, (index + 1) % 12 + 1, 1);
    forall y, m | 1 <= m <= 12 && DayNumber(year, month, day) + 1 == DayNumber(y, m, 1)
      ensures day == MonthLength(year, month)
    {
      var other := 12 * y + m - 1;
      IndexOf(y, m);
      if other <= index {
        if other < index {
          MonthsAscend(other, index);
        }
      } else if index + 1 < other {
        MonthsAscend(index + 1, other);
      }
    }
  }

  lemma LastMinuteIs(year: int, month: int, day: int, minute: int)
    requires 1 <= month <= 12 && 1 <= day <= MonthLength(year, month) && 0 <= minute < 1440
    ensures LastMinuteOfMonth(DayNumber(year, month, day) * 1440 + minute) <==>
            minute == 1439 && day == MonthLength(year, month)
  {
    hide DayNumber, MonthLength;
    NextDayBeginsMonth(year, month, day);
    var n := DayNumber(year, month, day);
    forall y, m | 1 <= m <= 12
      ensures n * 1440 + minute + 1 == DayNumber(y, m, 1) * 1440 <==> minute == 1439 && n + 1 == DayNumber(y, m, 1)
    {
    }
  }

  // ---------- The check ----------

  /** RFC 3339, sections 5.6 and 5.7: a date and time that exist, and a second 60 only at the end of a UTC month. */
  ghost predicate StampOk(t: Stamp) {
    DateAndTimeOk(t) && (t.second == 60 ==> LastMinuteOfMonth(UtcMinute(t)))
  }

  /** The shift to UTC, which moves the date by at most a day, decides about a second 60. */
  lemma ShiftDecides(t: Stamp, dayShift: int, utcMinute: int, year: int, month: int, day: int)
    requires DateAndTimeOk(t) && t.second == 60 && 0 <= utcMinute < 1440
    requires dayShift * 1440 + utcMinute == t.hour * 60 + t.minute - t.offset.Minutes()
    requires if t.day + dayShift < 1 then
               && (year, month) == (if t.month == 1 then (t.year - 1, 12) else (t.year, t.month - 1))
               && day == MonthLength(year, month)
             else if t.day + dayShift > MonthLength(t.year, t.month) then
               (year, month) == (if t.month == 12 then (t.year + 1, 1) else (t.year, t.month + 1)) && day == 1
             else year == t.year && month == t.month && day == t.day + dayShift
    ensures StampOk(t) <==> utcMinute == 1439 && day == MonthLength(year, month)
  {
    UtcMinuteIs(t);
    hide *;
    ShiftedDay(t.year, t.month, t.day, dayShift, year, month, day);
    LastMinuteIs(year, month, day, utcMinute);
  }

  lemma UtcMinuteIs(t: Stamp)
    requires DateAndTimeOk(t) && t.second == 60
    ensures 1 <= t.month <= 12 && 1 <= t.day <= MonthLength(t.year, t.month)
    ensures -1440 < t.hour * 60 + t.minute - t.offset.Minutes() < 2879
    ensures StampOk(t) <==>
            LastMinuteOfMonth(DayNumber(t.year, t.month, t.day) * 1440 + (t.hour * 60 + t.minute - t.offset.Minutes()))
  {
    hide DayNumber, MonthLength, LastMinuteOfMonth;
    assert UtcMinute(t) == DayNumber(t.year, t.month, t.day) * 1440 + (t.hour * 60 + t.minute - t.offset.Minutes());
  }

  /** `_time`, after the text has been matched. */
  method CheckTime(t: Stamp) returns (ok: bool)
    ensures ok <==> StampOk(t)
  {
    hide DayNumber, LastMinuteOfMonth, MonthLength, IsLeap;
    if !(1 <= t.month <= 12 && 1 <= t.day <= MonthLength(t.year, t.month)
         && t.hour <= 23 && t.minute <= 59 && t.second <= 60) {
      return false;
    }
    var offset := 0;
    if !t.offset.Utc? {
      if t.offset.hours > 23 || t.offset.minutes > 59 {
        return false;
      }
      offset := (t.offset.hours * 60 + t.offset.minutes) * (if t.offset.Ahead? then 1 else -1);
    }
    if t.second == 60 {
      var local := t.hour * 60 + t.minute - offset;
      var dayShift, utcMinute := local / 1440, local % 1440;
      var utcDay, utcMonth, utcYear := t.day + dayShift, t.month, t.year as int;
      if utcDay < 1 {
        utcMonth := utcMonth - 1;
        if utcMonth < 1 {
          utcMonth, utcYear := 12, utcYear - 1;
        }
        utcDay := MonthLength(utcYear, utcMonth);
      } else if utcDay > MonthLength(t.year, t.month) {
        utcDay, utcMonth := 1, utcMonth + 1;
        if utcMonth > 12 {
          utcMonth, utcYear := 1, utcYear + 1;
        }
      }
      ShiftDecides(t, dayShift, utcMinute, utcYear, utcMonth, utcDay);
      if utcMinute != 1439 || utcDay != MonthLength(utcYear, utcMonth) {
        return false;
      }
    }
    return true;
  }

  /** One day before or after a date, with month and year borders. */
  lemma ShiftedDay(year: int, month: int, day: int, shift: int, year': int, month': int, day': int)
    requires 1 <= month <= 12 && 1 <= day <= MonthLength(year, month) && -1 <= shift <= 1
    requires if day + shift < 1 then
               && (year', month') == (if month == 1 then (year - 1, 12) else (year, month - 1))
               && day' == MonthLength(year', month')
             else if day + shift > MonthLength(year, month) then
               (year', month') == (if month == 12 then (year + 1, 1) else (year, month + 1)) && day' == 1
             else year' == year && month' == month && day' == day + shift
    ensures 1 <= month' <= 12 && 1 <= day' <= MonthLength(year', month')
    ensures DayNumber(year', month', day') == DayNumber(year, month, day) + shift
  {
    hide DaysBeforeYear, DaysBeforeMonth;
    var index := 12 * year + month - 1;
    IndexOf(year, month);
    IndexOf(year', month');
    MonthsFollow(index);
    MonthsFollow(index - 1);
  }

  // ---------- In terms of local time ----------

  /** The lengths of the months, with the rule for leap years of appendix C of RFC 3339. */
  lemma MonthTable(year: int, month: int)
    requires 1 <= month <= 12
    ensures MonthLength(year, month) ==
            [31, if year % 4 != 0 || (year % 100 == 0 && year % 400 != 0) then 28 else 29, 31, 30, 31, 30,
             31, 31, 30, 31, 30, 31][month - 1]
  {
  }

  /** The calendar repeats after 400 years, which are a whole number of weeks. */
  lemma GregorianCycle(year: int)
    ensures DaysBeforeYear(year + 400) == DaysBeforeYear(year) + 146097 && 146097 % 7 == 0
  {
    assert (year + 400 + 3) / 4 == (year + 3) / 4 + 100;
    assert (year + 400 + 99) / 100 == (year + 99) / 100 + 4;
    assert (year + 400 + 399) / 400 == (year + 399) / 400 + 1;
  }

  /** Where a second 60 may stand in local time. Ahead of UTC, on the first of a month, in the minute
      before the one that the offset names; behind UTC, on the last of a month, as long before midnight
      as the offset says; otherwise in the last minute of the last day. */
  predicate LeapPlace(t: Stamp) {
    match t.offset
    case Utc => t.hour == 23 && t.minute == 59 && t.day == MonthLength(t.year, t.month)
    case Ahead(h, m) =>
      if h == m == 0 then t.hour == 23 && t.minute == 59 && t.day == MonthLength(t.year, t.month)
      else t.hour * 60 + t.minute + 1 == h * 60 + m && t.day == 1
    case Behind(h, m) => t.hour * 60 + t.minute + h * 60 + m == 1439 && t.day == MonthLength(t.year, t.month)
  }

  lemma LeapInLocalTime(t: Stamp)
    requires DateAndTimeOk(t) && t.second == 60
    ensures StampOk(t) <==> LeapPlace(t)
  {
    LeapAtUtc(t);
    LocalTimes(t);
    hide StampOk, MonthLength, LeapPlace, DateAndTimeOk;
  }

  /** The two minutes in question, by the kind of offset. */
  lemma LocalTimes(t: Stamp)
    requires DateAndTimeOk(t)
    ensures var local := t.hour * 60 + t.minute - t.offset.Minutes();
            LeapPlace(t) <==> (local == -1 && t.day == 1) || (local == 1439 && t.day == MonthLength(t.year, t.month))
  {
    assert t.hour <= 23 && t.minute <= 59 && t.offset.Ok();
    hide MonthLength, DateAndTimeOk;
  }

  /** One minute before the first of a month, or in the last minute of its last day, counted without the offset. */
  lemma LeapAtUtc(t: Stamp)
    requires DateAndTimeOk(t) && t.second == 60
    ensures var local := t.hour * 60 + t.minute - t.offset.Minutes();
            StampOk(t) <==> (local == -1 && t.day == 1) || (local == 1439 && t.day == MonthLength(t.year, t.month))
  {
    hide DayNumber, MonthLength, LastMinuteOfMonth;
    var local := t.hour * 60 + t.minute - t.offset.Minutes();
    assert -1440 < local < 2879;
    var shift := local / 1440;
    MonthLengths(t.year, t.month);
    var year, month, day := t.year as int, t.month as int, t.day + shift;
    if day < 1 {
      year, month := if t.month == 1 then year - 1 else year, if t.month == 1 then 12 else month - 1;
      day := MonthLength(year, month);
    } else if day > MonthLength(t.year, t.month) {
      year, month, day := if t.month == 12 then year + 1 else year, if t.month == 12 then 1 else month + 1, 1;
    }
    MonthLengths(year, month);
    ShiftDecides(t, shift, local % 1440, year, month, day);
    hide StampOk, UtcMinute, DateAndTimeOk;
    if local < 0 {
      assert shift == -1 && local % 1440 == local + 1440;
    } else if local < 1440 {
      assert shift == 0 && local % 1440 == local;
    } else {
      assert shift == 1 && local % 1440 == local - 1440;
    }
  }

  lemma MonthLengths(year: int, month: int)
    ensures 28 <= MonthLength(year, month) <= 31
  {
  }

  // ---------- The text ----------

  predicate DigitsAt(text: string, i: nat, n: nat) {
    i + n <= |text| && forall k :: i <= k < i + n ==> '0' <= text[k] <= '9'
  }

  function Number(digits: string): nat
    requires DigitsAt(digits, 0, |digits|)
  {
    if digits == "" then 0
    else Number(digits[..|digits| - 1]) * 10 + (digits[|digits| - 1] as int - '0' as int)
  }

  function DigitRun(text: string): (n: nat)
    ensures n <= |text| && DigitsAt(text, 0, n)
    ensures n < |text| ==> !('0' <= text[n] <= '9')
  {
    if text == "" || !('0' <= text[0] <= '9') then 0 else 1 + DigitRun(text[1..])
  }

  /** The zone begins behind an optional fraction of seconds. */
  function ZoneStart(text: string): (n: nat)
    requires |text| >= 20
    ensures 19 <= n <= |text|
  {
    if text[19] == '.' && DigitRun(text[20..]) > 0 then 20 + DigitRun(text[20..]) else 19
  }

  predicate ZoneAt(text: string, i: nat) {
    || (i + 1 == |text| && text[i] in "Zz")
    || (i + 6 == |text| && text[i] in "+-" && DigitsAt(text, i + 1, 2) && text[i + 3] == ':' && DigitsAt(text, i + 4, 2))
  }

  /** The pattern of a timestamp. */
  predicate Matched(text: string) {
    && |text| >= 20
    && DigitsAt(text, 0, 4) && text[4] == '-' && DigitsAt(text, 5, 2) && text[7] == '-' && DigitsAt(text, 8, 2)
    && text[10] in "Tt"
    && DigitsAt(text, 11, 2) && text[13] == ':' && DigitsAt(text, 14, 2) && text[16] == ':' && DigitsAt(text, 17, 2)
    && ZoneAt(text, ZoneStart(text))
  }

  function ReadOffset(text: string, i: nat): Offset
    requires ZoneAt(text, i)
  {
    if text[i] in "Zz" then Utc
    else
      var hours, minutes := Number(text[i + 1..i + 3]), Number(text[i + 4..i + 6]);
      if text[i] == '+' then Ahead(hours, minutes) else Behind(hours, minutes)
  }

  /** The parts of a timestamp as they are written; a fraction of a second is left aside. */
  function ReadStamp(text: string): Option<Stamp> {
    if !Matched(text) then None
    else Some(Stamp(Number(text[0..4]), Number(text[5..7]), Number(text[8..10]),
                    Number(text[11..13]), Number(text[14..16]), Number(text[17..19]), ReadOffset(text, ZoneStart(text))))
  }

  // ---------- Writing a timestamp ----------

  function TwoDigits(n: nat): (s: string)
    requires n < 100
    ensures |s| == 2 && DigitsAt(s, 0, 2) && Number(s) == n
  {
    var s := [('0' as int + n / 10) as char, ('0' as int + n % 10) as char];
    NumberOfTwo(s);
    s
  }

  function FourDigits(n: nat): (s: string)
    requires n < 10000
    ensures |s| == 4 && DigitsAt(s, 0, 4) && Number(s) == n
  {
    var high, low := TwoDigits(n / 100), TwoDigits(n % 100);
    var s := high + low;
    NumberOfFour(high, low);
    s
  }

  lemma NumberMore(digits: string, c: char)
    requires DigitsAt(digits, 0, |digits|) && '0' <= c <= '9'
    ensures DigitsAt(digits + [c], 0, |digits| + 1)
    ensures Number(digits + [c]) == Number(digits) * 10 + (c as int - '0' as int)
  {
    assert (digits + [c])[..|digits|] == digits;
  }

  lemma NumberOfTwo(s: string)
    requires |s| == 2 && DigitsAt(s, 0, 2)
    ensures Number(s) == (s[0] as int - '0' as int) * 10 + (s[1] as int - '0' as int)
  {
    NumberMore("", s[0]);
    assert "" + [s[0]] == [s[0]] && [s[0]] + [s[1]] == s;
    NumberMore([s[0]], s[1]);
  }

  lemma NumberOfFour(high: string, low: string)
    requires |high| == 2 && |low| == 2 && DigitsAt(high, 0, 2) && DigitsAt(low, 0, 2)
    ensures DigitsAt(high + low, 0, 4) && Number(high + low) == Number(high) * 100 + Number(low)
  {
    NumberOfTwo(low);
    NumberMore(high, low[0]);
    NumberMore(high + [low[0]], low[1]);
    assert high + [low[0]] + [low[1]] == high + low;
  }

  /** Which of the permitted spellings is used. */
  datatype Spelling = Spelling(upperT: bool, upperZ: bool, fraction: string)

  predicate Writable(t: Stamp) {
    && t.year <= 9999 && t.month <= 99 && t.day <= 99 && t.hour <= 99 && t.minute <= 99 && t.second <= 99
    && (t.offset.Utc? || (t.offset.hours <= 99 && t.offset.minutes <= 99))
  }

  function WriteOffset(offset: Offset, upper: bool): (s: string)
    requires offset.Utc? || (offset.hours <= 99 && offset.minutes <= 99)
    ensures |s| == if offset.Utc? then 1 else 6
  {
    if offset.Utc? then (if upper then "Z" else "z")
    else (if offset.Ahead? then "+" else "-") + TwoDigits(offset.hours) + ":" + TwoDigits(offset.minutes)
  }

  function WriteDay(t: Stamp, upper: bool): (s: string)
    requires Writable(t)
    ensures |s| == 19
  {
    FourDigits(t.year) + "-" + TwoDigits(t.month) + "-" + TwoDigits(t.day) + (if upper then "T" else "t")
    + TwoDigits(t.hour) + ":" + TwoDigits(t.minute) + ":" + TwoDigits(t.second)
  }

  function WriteStamp(t: Stamp, how: Spelling): string
    requires Writable(t) && DigitsAt(how.fraction, 0, |how.fraction|)
  {
    WriteDay(t, how.upperT) + (if how.fraction == "" then "" else "." + how.fraction) + WriteOffset(t.offset, how.upperZ)
  }

  lemma {:induction false} RunOf(digits: string, rest: string)
    requires DigitsAt(digits, 0, |digits|) && rest != "" && !('0' <= rest[0] <= '9')
    ensures DigitRun(digits + rest) == |digits|
  {
    if digits == "" {
      assert digits + rest == rest;
    } else {
      assert (digits + rest)[1..] == digits[1..] + rest;
      RunOf(digits[1..], rest);
    }
  }

  lemma SliceOfPrefix(text: string, n: nat, i: nat, j: nat)
    requires i <= j <= n <= |text|
    ensures text[i..j] == text[..n][i..j]
  {
  }

  lemma DayMatches(text: string, t: Stamp, upper: bool)
    requires Writable(t) && |text| >= 19 && text[..19] == WriteDay(t, upper)
    ensures DigitsAt(text, 0, 4) && text[4] == '-' && DigitsAt(text, 5, 2) && text[7] == '-' && DigitsAt(text, 8, 2)
    ensures text[10] in "Tt"
    ensures DigitsAt(text, 11, 2) && text[13] == ':' && DigitsAt(text, 14, 2) && text[16] == ':' && DigitsAt(text, 17, 2)
    ensures Number(text[0..4]) == t.year && Number(text[5..7]) == t.month && Number(text[8..10]) == t.day
    ensures Number(text[11..13]) == t.hour && Number(text[14..16]) == t.minute && Number(text[17..19]) == t.second
  {
    hide Number;
    var day := WriteDay(t, upper);
    assert forall k :: 0 <= k < 19 ==> text[k] == day[k];
    SliceOfPrefix(text, 19, 0, 4);
    SliceOfPrefix(text, 19, 5, 7);
    SliceOfPrefix(text, 19, 8, 10);
    SliceOfPrefix(text, 19, 11, 13);
    SliceOfPrefix(text, 19, 14, 16);
    SliceOfPrefix(text, 19, 17, 19);
    assert day[0..4] == FourDigits(t.year);
    assert day[5..7] == TwoDigits(t.month);
    assert day[8..10] == TwoDigits(t.day);
    assert day[11..13] == TwoDigits(t.hour);
    assert day[14..16] == TwoDigits(t.minute);
    assert day[17..19] == TwoDigits(t.second);
  }

  lemma OffsetMatches(text: string, i: nat, offset: Offset, upper: bool)
    requires offset.Utc? || (offset.hours <= 99 && offset.minutes <= 99)
    requires i <= |text| && text[i..] == WriteOffset(offset, upper)
    ensures ZoneAt(text, i) && ReadOffset(text, i) == offset
  {
    hide Number;
    var zone := text[i..];
    assert forall k :: 0 <= k < |zone| ==> zone[k] == text[i + k];
    if !offset.Utc? {
      assert text[i + 1..i + 3] == zone[1..3] == TwoDigits(offset.hours);
      assert text[i + 4..i + 6] == zone[4..6] == TwoDigits(offset.minutes);
    }
  }

  /** Every spelling of a timestamp is read as the parts that were written. */
  lemma ReadWritten(t: Stamp, how: Spelling)
    requires Writable(t) && DigitsAt(how.fraction, 0, |how.fraction|)
    ensures ReadStamp(WriteStamp(t, how)) == Some(t)
  {
    hide Number, DigitRun, WriteDay, WriteOffset;
    var text := WriteStamp(t, how);
    var day, zone := WriteDay(t, how.upperT), WriteOffset(t.offset, how.upperZ);
    assert text[..19] == day;
    DayMatches(text, t, how.upperT);
    ZoneBegins(t.offset, how.upperZ);
    if how.fraction == "" {
      assert text[19..] == zone;
      assert ZoneStart(text) == 19;
    } else {
      assert text[20..] == how.fraction + zone;
      RunOf(how.fraction, zone);
      assert text[20 + |how.fraction|..] == zone;
    }
    OffsetMatches(text, ZoneStart(text), t.offset, how.upperZ);
  }

  lemma ZoneBegins(offset: Offset, upper: bool)
    requires offset.Utc? || (offset.hours <= 99 && offset.minutes <= 99)
    ensures var s := WriteOffset(offset, upper); s != "" && s[0] != '.' && !('0' <= s[0] <= '9')
  {
  }

  lemma TwoDigitsBack(s: string)
    requires |s| == 2 && DigitsAt(s, 0, 2)
    ensures Number(s) < 100 && TwoDigits(Number(s)) == s
  {
    NumberOfTwo(s);
    hide Number;
  }

  lemma FourDigitsBack(s: string)
    requires |s| == 4 && DigitsAt(s, 0, 4)
    ensures Number(s) < 10000 && FourDigits(Number(s)) == s
  {
    var high, low := s[..2], s[2..];
    assert DigitsAt(high, 0, 2) && DigitsAt(low, 0, 2) && high + low == s;
    hide Number, TwoDigits, DigitsAt;
    NumberOfFour(high, low);
    TwoDigitsBack(high);
    TwoDigitsBack(low);
    assert Number(s) / 100 == Number(high) && Number(s) % 100 == Number(low);
  }

  lemma DayIsWritten(text: string, t: Stamp)
    requires Matched(text) && ReadStamp(text) == Some(t)
    ensures Writable(t) && text[..19] == WriteDay(t, text[10] == 'T')
  {
    FourDigitsBack(text[0..4]);
    TwoDigitsBack(text[5..7]);
    TwoDigitsBack(text[8..10]);
    TwoDigitsBack(text[11..13]);
    TwoDigitsBack(text[14..16]);
    TwoDigitsBack(text[17..19]);
    OffsetIsWritten(text, ZoneStart(text));
    hide Number, TwoDigits, FourDigits, ZoneStart, ReadOffset, ZoneAt;
    assert text[..19] == text[0..4] + [text[4]] + text[5..7] + [text[7]] + text[8..10] + [text[10]] + text[11..13] + [text[13]]
                         + text[14..16] + [text[16]] + text[17..19];
  }

  lemma OffsetIsWritten(text: string, i: nat)
    requires ZoneAt(text, i)
    ensures var offset := ReadOffset(text, i);
            && (offset.Utc? || (offset.hours <= 99 && offset.minutes <= 99))
            && text[i..] == WriteOffset(offset, text[i] == 'Z')
  {
    if text[i] in "Zz" {
      assert text[i..] == [text[i]];
    } else {
      TwoDigitsBack(text[i + 1..i + 3]);
      TwoDigitsBack(text[i + 4..i + 6]);
      hide Number, TwoDigits;
      assert text[i..] == [text[i]] + text[i + 1..i + 3] + [text[i + 3]] + text[i + 4..i + 6];
    }
  }

  /** And nothing else is read: a text that is read as these parts is one of their spellings. */
  lemma ReadOnlyWritten(text: string, t: Stamp)
    requires ReadStamp(text) == Some(t)
    ensures Writable(t)
    ensures exists how: Spelling :: DigitsAt(how.fraction, 0, |how.fraction|) && text == WriteStamp(t, how)
  {
    assert Matched(text);
    hide *;
    var z := ZoneStart(text);
    LongEnough(text);
    DayIsWritten(text, t);
    OffsetIsWritten(text, z);
    FractionIs(text);
    OffsetIsRead(text, t);
    Assembled(text, t, z);
  }

  lemma LongEnough(text: string)
    requires Matched(text)
    ensures |text| >= 20 && ZoneAt(text, ZoneStart(text)) && ZoneStart(text) < |text|
  {
    hide DigitsAt, ZoneStart;
  }

  lemma OffsetIsRead(text: string, t: Stamp)
    requires ReadStamp(text) == Some(t)
    ensures Matched(text) && t.offset == ReadOffset(text, ZoneStart(text))
  {
    hide Matched, Number, ZoneStart, ReadOffset;
  }

  lemma Assembled(text: string, t: Stamp, z: nat)
    requires Writable(t) && 19 <= z < |text| && text[..19] == WriteDay(t, text[10] == 'T')
    requires text[z..] == WriteOffset(t.offset, text[z] == 'Z')
    requires var fraction := if z <= 20 then "" else text[20..z];
             DigitsAt(fraction, 0, |fraction|) && text[19..z] == if fraction == "" then "" else "." + fraction
    ensures exists how: Spelling :: DigitsAt(how.fraction, 0, |how.fraction|) && text == WriteStamp(t, how)
  {
    hide WriteDay, WriteOffset, DigitsAt, Writable;
    var how := Spelling(text[10] == 'T', text[z] == 'Z', if z <= 20 then "" else text[20..z]);
    assert text == text[..19] + text[19..z] + text[z..];
    assert text == WriteStamp(t, how);
  }

  lemma FractionIs(text: string)
    requires |text| >= 20
    ensures var z := ZoneStart(text);
            var fraction := if z <= 20 then "" else text[20..z];
            DigitsAt(fraction, 0, |fraction|) && text[19..z] == if fraction == "" then "" else "." + fraction
  {
    hide DigitRun;
  }

  // ---------- Timestamps ----------

  /** What `_time` has to accept. */
  ghost predicate TimeOk(text: string) { ReadStamp(text).Some? && StampOk(ReadStamp(text).value) }

  /** `_time`. */
  method CheckTimestamp(text: string) returns (ok: bool)
    ensures ok <==> TimeOk(text)
  {
    hide StampOk, Matched;
    var stamp := ReadStamp(text);
    if stamp.None? {
      return false;
    }
    ok := CheckTime(stamp.value);
  }

  // ---------- Implementation B ----------

  /** What a library calendar that begins with year 1 and has no leap seconds can represent. */
  predicate PlainStamp(t: Stamp) { t.second <= 59 && t.year >= 1 }

  predicate Plain(text: string) { ReadStamp(text).Some? ==> PlainStamp(ReadStamp(text).value) }

  /** `fromisoformat`: a date and time of that calendar, and an offset of less than a day. */
  predicate LibraryReads(t: Stamp) {
    && 1 <= t.year && 1 <= t.month <= 12 && 1 <= t.day <= MonthLength(t.year, t.month)
    && t.hour <= 23 && t.minute <= 59 && t.second <= 59
    && -1440 < t.offset.Minutes() < 1440
  }

  /** B's `timestamp`: what `_time` accepts, without second 60 and without year 0. */
  method CheckTimeB(t: Stamp) returns (ok: bool)
    ensures ok <==> StampOk(t) && PlainStamp(t)
  {
    hide LastMinuteOfMonth;
    if !LibraryReads(t) {
      return false;
    }
    return t.offset.Utc? || (t.offset.hours < 24 && t.offset.minutes < 60);
  }

  method CheckTimestampB(text: string) returns (ok: bool)
    ensures ok <==> TimeOk(text) && Plain(text)
  {
    hide StampOk, Matched, PlainStamp;
    var stamp := ReadStamp(text);
    if stamp.None? {
      return false;
    }
    ok := CheckTimeB(stamp.value);
  }

  const LEAP_SECOND := Stamp(2016, 12, 31, 23, 59, 60, Utc)
  const YEAR_ZERO := Stamp(0, 2, 29, 0, 0, 0, Utc)

  /** A timestamp that A accepts and B refuses: the leap second at the end of 2016. */
  lemma LeapSecond()
    ensures TimeOk(WriteStamp(LEAP_SECOND, Spelling(true, true, ""))) && !Plain(WriteStamp(LEAP_SECOND, Spelling(true, true, "")))
  {
    hide ReadStamp, WriteStamp, DayNumber, LastMinuteOfMonth;
    ReadWritten(LEAP_SECOND, Spelling(true, true, ""));
    LastMinuteIs(2016, 12, 31, 1439);
  }

  lemma TwoDigitsAre(n: nat, s: string)
    requires n < 100 && |s| == 2 && s[0] as int == '0' as int + n / 10 && s[1] as int == '0' as int + n % 10
    ensures TwoDigits(n) == s
  {
  }

  lemma LeapSecondText()
    ensures WriteStamp(LEAP_SECOND, Spelling(true, true, "")) == "2016-12-31T23:59:60Z"
  {
    hide TwoDigits, Number;
    TwoDigitsAre(20, "20");
    TwoDigitsAre(16, "16");
    TwoDigitsAre(12, "12");
    TwoDigitsAre(31, "31");
    TwoDigitsAre(23, "23");
    TwoDigitsAre(59, "59");
    TwoDigitsAre(60, "60");
    assert WriteDay(LEAP_SECOND, true) == "2016-12-31T23:59:60";
  }

  /** The example of section 5.8 of RFC 3339, and the same with the other sign. */
  function Pacific(offset: Offset): Stamp { Stamp(1990, 12, 31, 15, 59, 60, offset) }

  lemma PacificDay()
    ensures WriteDay(Pacific(Utc), true) == "1990-12-31T15:59:60"
  {
    hide TwoDigits, Number;
    TwoDigitsAre(19, "19");
    TwoDigitsAre(90, "90");
    TwoDigitsAre(12, "12");
    TwoDigitsAre(31, "31");
    TwoDigitsAre(15, "15");
    TwoDigitsAre(59, "59");
    TwoDigitsAre(60, "60");
  }

  lemma PacificZone()
    ensures WriteOffset(Behind(8, 0), true) == "-08:00" && WriteOffset(Ahead(8, 0), true) == "+08:00"
  {
    hide TwoDigits, Number;
    TwoDigitsAre(8, "08");
    TwoDigitsAre(0, "00");
  }

  lemma SameDay(t: Stamp, offset: Offset)
    requires Writable(t) && Writable(t.(offset := offset))
    ensures WriteDay(t.(offset := offset), true) == WriteDay(t, true)
  {
    hide TwoDigits, FourDigits;
  }

  lemma PacificText()
    ensures WriteStamp(Pacific(Behind(8, 0)), Spelling(true, true, "")) == "1990-12-31T15:59:60-08:00"
    ensures WriteStamp(Pacific(Ahead(8, 0)), Spelling(true, true, "")) == "1990-12-31T15:59:60+08:00"
  {
    PacificDay();
    PacificZone();
    SameDay(Pacific(Utc), Behind(8, 0));
    SameDay(Pacific(Utc), Ahead(8, 0));
    hide WriteDay, WriteOffset;
  }

  lemma PacificLeapSecond()
    ensures TimeOk("1990-12-31T15:59:60-08:00") && !TimeOk("1990-12-31T15:59:60+08:00")
  {
    PacificText();
    LeapInLocalTime(Pacific(Behind(8, 0)));
    LeapInLocalTime(Pacific(Ahead(8, 0)));
    hide ReadStamp, WriteStamp, StampOk;
    ReadWritten(Pacific(Behind(8, 0)), Spelling(true, true, ""));
    ReadWritten(Pacific(Ahead(8, 0)), Spelling(true, true, ""));
  }

  /** Another: a day of the year 0. */
  lemma YearZero()
    ensures TimeOk(WriteStamp(YEAR_ZERO, Spelling(true, true, ""))) && !Plain(WriteStamp(YEAR_ZERO, Spelling(true, true, "")))
  {
    hide ReadStamp, WriteStamp;
    ReadWritten(YEAR_ZERO, Spelling(true, true, ""));
  }

  lemma YearZeroText()
    ensures WriteStamp(YEAR_ZERO, Spelling(true, true, "")) == "0000-02-29T00:00:00Z"
  {
    hide TwoDigits, Number;
    TwoDigitsAre(0, "00");
    TwoDigitsAre(2, "02");
    TwoDigitsAre(29, "29");
    assert WriteDay(YEAR_ZERO, true) == "0000-02-29T00:00:00";
  }

  function Epoch(): (s: string)
    ensures TimeOk(s) && Plain(s)
  {
    var t := Stamp(1970, 1, 1, 0, 0, 0, Utc);
    ReadWritten(t, Spelling(true, true, ""));
    WriteStamp(t, Spelling(true, true, ""))
  }

  /** What the clock of a ledger gives. */
  type Moment = s: string | TimeOk(s) && Plain(s) witness Epoch()
}
