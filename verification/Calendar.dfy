// The UTC timestamp arithmetic of src/credit.c, against an independent calendar:
// the day count from 1970-01-01 by stepping one day at a time.
module Calendar {
  import opened Common
  import opened Timestamps

  datatype Date = Date(y: int, m: int, d: int)

  predicate Leap(y: int) {
    y % 4 == 0 && (y % 100 != 0 || y % 400 == 0)
  }

  function DaysIn(y: int, m: int): int
    requires 1 <= m <= 12
  {
    if m == 2 then (if Leap(y) then 29 else 28)
    else if m == 4 || m == 6 || m == 9 || m == 11 then 30
    else 31
  }

  predicate Valid(t: Date) {
    1970 <= t.y && 1 <= t.m <= 12 && 1 <= t.d <= DaysIn(t.y, t.m)
  }

  const EPOCH := Date(1970, 1, 1)

  function Tomorrow(t: Date): (n: Date)
    requires Valid(t)
    ensures Valid(n)
  {
    if t.d < DaysIn(t.y, t.m) then Date(t.y, t.m, t.d + 1)
    else if t.m < 12 then Date(t.y, t.m + 1, 1)
    else Date(t.y + 1, 1, 1)
  }

  // The date n days after the epoch, one day at a time.
  function DayAfter(n: nat): (t: Date)
    ensures Valid(t)
  {
    if n == 0 then EPOCH else Tomorrow(DayAfter(n - 1))
  }

  // ---- the program's computation -------------------------------------------

  function DaysBeforeMonth(m: int): int
    requires 1 <= m <= 12
  {
    match m
    case 1 => 0 case 2 => 31 case 3 => 59 case 4 => 90 case 5 => 120 case 6 => 151
    case 7 => 181 case 8 => 212 case 9 => 243 case 10 => 273 case 11 => 304 case 12 => 334
  }

  // Leap days in 1970..y-1, by inclusion and exclusion on y - 1.
  function LeapsBefore(y: int): int {
    ((y - 1) / 4 - (y - 1) / 100 + (y - 1) / 400) - (1969 / 4 - 1969 / 100 + 1969 / 400)
  }

  function Days(y: int, m: int, d: int): int
    requires 1 <= m <= 12
  {
    (y - 1970) * 365 + LeapsBefore(y) + DaysBeforeMonth(m) + (if Leap(y) && m > 2 then 1 else 0) + (d - 1)
  }

  predicate Accepted(y: int, m: int, d: int, h: int, min: int, sec: int) {
    y >= 1970 && 1 <= m <= 12 && 1 <= d <= 31 && 0 <= h <= 23 && 0 <= min <= 59 && 0 <= sec <= 60
  }

  function Stamp(y: int, m: int, d: int, h: int, min: int, sec: int): int
    requires 1 <= m <= 12
  {
    Days(y, m, d) * 86400 + h * 3600 + min * 60 + sec
  }

  const INT_MAX: int := 0x7FFF_FFFF
  const LONG64: int := 0x7FFF_FFFF_FFFF_FFFF

  // Every product and sum of the computation fits its type: the first is of int, the
  // others of long, which ends at longMax.
  predicate Computes(longMax: int, f: Fields)
    requires 1 <= f.m <= 12
  {
    var days := Days(f.y, f.m, f.d);
    && (f.y - 1970) * 365 <= INT_MAX && days <= longMax && days * 86400 <= longMax
    && days * 86400 + f.h * 3600 <= longMax && days * 86400 + f.h * 3600 + f.min * 60 <= longMax
    && days * 86400 + f.h * 3600 + f.min * 60 + f.sec <= longMax
  }

  // What the parser gives where the language defines it; None where a product or a
  // sum overflows.
  function Parsed(longMax: int, iso: string): Option<int> {
    match ScanFields(iso)
    case None => Some(0)
    case Some(f) =>
      if !Accepted(f.y, f.m, f.d, f.h, f.min, f.sec) then Some(0)
      else if Computes(longMax, f) then Some(Stamp(f.y, f.m, f.d, f.h, f.min, f.sec))
      else None
  }

  // nm_credit_parse_iso8601.
  method ParseIso8601(iso: string, longMax: int) returns (t: Option<int>)
    requires longMax >= INT_MAX
    ensures t == Parsed(longMax, iso)
  {
    hide ScanFields, Days;
    var fields := ScanFields(iso);
    if iso == "" || fields.None? {
      NothingScanned();
      return Some(0);
    }
    var Fields(y, m, d, h, min, sec) := fields.value;
    if y < 1970 || m < 1 || m > 12 || d < 1 || d > 31 || h < 0 || h > 23 ||
       min < 0 || min > 59 || sec < 0 || sec > 60 {
      return Some(0);
    }
    if (y - 1970) * 365 > INT_MAX {
      return None;
    }
    var days := CountDays(y, m, d);
    var stamp := days * 86400;
    if days > longMax || stamp > longMax || stamp + h * 3600 > longMax || stamp + h * 3600 + min * 60 > longMax ||
       stamp + h * 3600 + min * 60 + sec > longMax {
      return None;
    }
    return Some(stamp + h * 3600 + min * 60 + sec);
  }

  lemma NothingScanned()
    ensures ScanFields("").None?
  {
  }

  // The days from the epoch, as the parser adds them up.
  method CountDays(y: int, m: int, d: int) returns (days: int)
    requires 1 <= m <= 12
    ensures days == Days(y, m, d)
  {
    days := (y - 1970) * 365;
    var prev := y - 1;
    days := days + ((prev / 4 - prev / 100 + prev / 400) - (1969 / 4 - 1969 / 100 + 1969 / 400));
    days := days + DaysBeforeMonth(m);
    if Leap(y) && m > 2 {
      days := days + 1;
    }
    days := days + (d - 1);
  }

  // ---- what it means -------------------------------------------------------

  // Division steps exactly at the multiples.
  lemma DivStep(x: int, k: int)
    requires x >= 1 && k >= 2
    ensures x / k == (x - 1) / k + if x % k == 0 then 1 else 0
  {
    var q, r := x / k, x % k;
    assert x == k * q + r;
    if r == 0 {
      assert x - 1 == k * (q - 1) + (k - 1);
      DivUnique(x - 1, k, q - 1, k - 1);
    } else {
      assert x - 1 == k * q + (r - 1);
      DivUnique(x - 1, k, q, r - 1);
    }
  }

  lemma DivUnique(x: int, k: int, q: int, r: int)
    requires k > 0 && 0 <= r < k && x == k * q + r
    ensures x / k == q
  {
    var p := x / k;
    assert x == k * p + x % k;
    assert k * (p - q) == r - x % k;
    assert k * (q - p) == -(k * (p - q));
    if p > q {
      MulGrows(k, p - q);
    } else if p < q {
      MulGrows(k, q - p);
    }
  }

  lemma MulGrows(k: int, n: int)
    requires k > 0 && n >= 1
    ensures k * n >= k
  {
  }

  // A year has 365 days, and one more exactly in a leap year.
  lemma YearLength(y: int)
    requires y >= 1970
    ensures LeapsBefore(y + 1) == LeapsBefore(y) + if Leap(y) then 1 else 0
  {
    DivStep(y, 4);
    DivStep(y, 100);
    DivStep(y, 400);
    MultiplesNest(y);
    LeapsStep(y, y % 4 == 0, y % 100 == 0, y % 400 == 0);
  }

  lemma MultiplesNest(y: int)
    ensures (y % 100 == 0 ==> y % 4 == 0) && (y % 400 == 0 ==> y % 100 == 0)
  {
    if y % 400 == 0 {
      DivUnique(y, 100, 4 * (y / 400), 0);
    }
    if y % 100 == 0 {
      DivUnique(y, 4, 25 * (y / 100), 0);
    }
  }

  lemma LeapsStep(y: int, by4: bool, by100: bool, by400: bool)
    requires y / 4 == (y - 1) / 4 + if by4 then 1 else 0
    requires y / 100 == (y - 1) / 100 + if by100 then 1 else 0
    requires y / 400 == (y - 1) / 400 + if by400 then 1 else 0
    requires (by100 ==> by4) && (by400 ==> by100)
    ensures LeapsBefore(y + 1) == LeapsBefore(y) + if by4 && (!by100 || by400) then 1 else 0
  {
  }

  // Every date's successor is exactly one day later.
  lemma TomorrowIsOneDay(t: Date)
    requires Valid(t)
    ensures var n := Tomorrow(t); Days(n.y, n.m, n.d) == Days(t.y, t.m, t.d) + 1
  {
    YearLength(t.y);
  }

  // The computation is the iterated day count from the epoch ...
  lemma {:induction false} DaysCountsDays(n: nat)
    ensures var t := DayAfter(n); Days(t.y, t.m, t.d) == n
  {
    if n > 0 {
      DaysCountsDays(n - 1);
      TomorrowIsOneDay(DayAfter(n - 1));
    }
  }

  function Yesterday(t: Date): (p: Date)
    requires Valid(t) && t != EPOCH
    ensures Valid(p) && Tomorrow(p) == t
  {
    if t.d > 1 then Date(t.y, t.m, t.d - 1)
    else if t.m > 1 then Date(t.y, t.m - 1, DaysIn(t.y, t.m - 1))
    else Date(t.y - 1, 12, 31)
  }

  // ... and every valid date is reached by it: the count has an inverse.
  lemma {:induction false} EveryDateIsCounted(t: Date)
    requires Valid(t)
    ensures Days(t.y, t.m, t.d) >= 0 && DayAfter(Days(t.y, t.m, t.d)) == t
    decreases t.y, t.m, t.d
  {
    if t != EPOCH {
      var p := Yesterday(t);
      EveryDateIsCounted(p);
      TomorrowIsOneDay(p);
    }
  }

  predicate Before(a: Date, b: Date) {
    a.y < b.y || (a.y == b.y && (a.m < b.m || (a.m == b.m && a.d < b.d)))
  }

  lemma {:induction false} LaterCountsAreLater(i: nat, j: nat)
    requires i < j
    ensures Before(DayAfter(i), DayAfter(j))
    decreases j
  {
    if i < j - 1 {
      LaterCountsAreLater(i, j - 1);
    }
  }

  // Strictly monotone, both ways, down to the second within a valid date.
  lemma OrderIsKept(a: Date, b: Date, s: int, t: int)
    requires Valid(a) && Valid(b) && 0 <= s < 86400 && 0 <= t < 86400
    ensures Before(a, b) || (a == b && s < t)
      <==> Days(a.y, a.m, a.d) * 86400 + s < Days(b.y, b.m, b.d) * 86400 + t
  {
    hide Days;
    EveryDateIsCounted(a);
    EveryDateIsCounted(b);
    var i, j := Days(a.y, a.m, a.d), Days(b.y, b.m, b.d);
    if i < j {
      LaterCountsAreLater(i, j);
    } else if j < i {
      LaterCountsAreLater(j, i);
    }
  }

  // The parser takes any day up to 31. One past its month's end rolls over into
  // the next month, so the stamp is the date's own if and only if the day is in
  // the month.
  function RolledOver(y: int, m: int, d: int): Date
    requires 1 <= m <= 12
  {
    if d <= DaysIn(y, m) then Date(y, m, d) else Date(y, m + 1, d - DaysIn(y, m))
  }

  lemma AcceptedDayRollsOver(y: int, m: int, d: int)
    requires Accepted(y, m, d, 0, 0, 0)
    ensures Days(y, m, d) >= 0 && DayAfter(Days(y, m, d)) == RolledOver(y, m, d)
    ensures DayAfter(Days(y, m, d)) == Date(y, m, d) <==> d <= DaysIn(y, m)
  {
    var t := RolledOver(y, m, d);
    EveryDateIsCounted(t);
    assert Days(t.y, t.m, t.d) == Days(y, m, d);
  }

  // ---- how far it reaches --------------------------------------------------

  // A 32-bit long holds the stamps of every date up to 2038-01-19 03:14:07.
  lemma LastInstant32()
    ensures Days(2038, 1, 19) * 86400 + 3 * 3600 + 14 * 60 + 7 == INT_MAX
  {
  }

  lemma DaysAreFew(f: Fields)
    requires Accepted(f.y, f.m, f.d, f.h, f.min, f.sec)
    ensures (f.y - 1970) * 365 <= Days(f.y, f.m, f.d) <= (f.y - 1970) * 366 + 800
  {
    LeapsAreFew(f.y);
  }

  lemma {:induction false} LeapsAreFew(y: int)
    requires y >= 1970
    ensures 0 <= LeapsBefore(y) <= y - 1970
  {
    if y > 1970 {
      LeapsAreFew(y - 1);
      YearLength(y - 1);
    }
  }

  lemma Fits32Iff(f: Fields)
    requires Accepted(f.y, f.m, f.d, f.h, f.min, f.sec)
    ensures Computes(INT_MAX, f) <==> Stamp(f.y, f.m, f.d, f.h, f.min, f.sec) <= INT_MAX
  {
    DaysAreFew(f);
    hide Days;
  }

  // With a 32-bit long the parser is defined for a calendar time if and only if it is
  // not later than 2038-01-19 03:14:07.
  lemma Defined32Iff(f: Fields)
    requires Accepted(f.y, f.m, f.d, f.h, f.min, f.sec) && f.d <= DaysIn(f.y, f.m) && f.sec < 60
    ensures var s := f.h * 3600 + f.min * 60 + f.sec;
      Computes(INT_MAX, f) <==> !(Before(Date(2038, 1, 19), Date(f.y, f.m, f.d)) || (Date(f.y, f.m, f.d) == Date(2038, 1, 19) && 11647 < s))
  {
    Fits32Iff(f);
    LastInstant32();
    hide Computes, Days, Before;
    OrderIsKept(Date(2038, 1, 19), Date(f.y, f.m, f.d), 11647, f.h * 3600 + f.min * 60 + f.sec);
  }

  // With a 64-bit long it is the years of an int that end it, after 5885486.
  lemma Defined64Iff(f: Fields)
    requires Accepted(f.y, f.m, f.d, f.h, f.min, f.sec)
    ensures Computes(LONG64, f) <==> f.y <= 5885486
  {
    DaysAreFew(f);
    hide Days;
  }

  lemma InstantOf(n: nat, f: Fields)
    requires DayAfter(n) == Date(f.y, f.m, f.d) && 0 <= f.h <= 23 && 0 <= f.min <= 59 && 0 <= f.sec <= 60
    ensures Accepted(f.y, f.m, f.d, f.h, f.min, f.sec)
    ensures Stamp(f.y, f.m, f.d, f.h, f.min, f.sec) == n * 86400 + f.h * 3600 + f.min * 60 + f.sec
  {
    DaysCountsDays(n);
    hide Days;
  }

  // From the text to the calendar: the printed time h:min:sec of the n-th day after
  // the epoch, with anything but a digit after it, stamps as that instant, where the
  // computation is defined.
  lemma TextIsItsInstant(longMax: int, n: nat, t: Texts, tail: string)
    requires AllDigits(t) && (tail != "" ==> !IsDigit(tail[0]))
    requires var f := Values(t);
      DayAfter(n) == Date(f.y, f.m, f.d) && 0 <= f.h <= 23 && 0 <= f.min <= 59 && 0 <= f.sec <= 60
    ensures var f := Values(t);
      Parsed(longMax, Printed(t, tail)) == if Computes(longMax, f) then Some(n * 86400 + f.h * 3600 + f.min * 60 + f.sec) else None
  {
    hide Printed, Values, ScanFields, DayAfter, AllDigits, Computes, Parsed;
    PrintedIsRead(t, tail);
    FieldsParse(longMax, Printed(t, tail), Values(t), n);
  }

  lemma FieldsParse(longMax: int, iso: string, f: Fields, n: nat)
    requires ScanFields(iso) == Some(f) && DayAfter(n) == Date(f.y, f.m, f.d)
    requires 0 <= f.h <= 23 && 0 <= f.min <= 59 && 0 <= f.sec <= 60
    ensures Accepted(f.y, f.m, f.d, f.h, f.min, f.sec)
    ensures Parsed(longMax, iso) == if Computes(longMax, f) then Some(n * 86400 + f.h * 3600 + f.min * 60 + f.sec) else None
  {
    InstantOf(n, f);
    hide ScanFields, DayAfter, Accepted, Stamp, Computes;
  }
}
