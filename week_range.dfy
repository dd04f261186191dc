/**
 * `get_week_range(date)`: the Monday and the Sunday of the week a date falls
 * in. Dates are proleptic Gregorian ordinals, as `date.toordinal()` numbers
 * them: 0001-01-01 is day 1 (a Monday) and 9999-12-31 is the last day.
 */
module WeekRange {
  import opened Wrappers

  /** `date.max.toordinal()` */
  const MaxOrdinal := 3652059

  type Date = d: int | 1 <= d <= MaxOrdinal witness 1

  /** `date.weekday()`: 0 for Monday through 6 for Sunday. */
  function Weekday(d: Date): (r: int)
    ensures 0 <= r < 7
  {
    (d + 6) % 7
  }

  /** Adding or subtracting days outside the calendar raises OverflowError. */
  const OverflowMessage := "date value out of range"

  /** `date + timedelta(days=n)` */
  function AddDays(d: Date, n: int): (r: Result<Date, string>)
    ensures r.Success? <==> 1 <= d + n <= MaxOrdinal
    ensures r.Success? ==> r.value == d + n
  {
    if 1 <= d + n <= MaxOrdinal then Success(d + n) else Failure(OverflowMessage)
  }

  /** `get_week_range(date)`: `(monday, sunday)`, or the overflow raised in the calendar's last, partial week. */
  function GetWeekRange(d: Date): (r: Result<(Date, Date), string>)
    ensures r.Success? ==> Weekday(r.value.0) == 0 && r.value.1 == r.value.0 + 6 && r.value.0 <= d <= r.value.1
  {
    match AddDays(d, -Weekday(d))
    case Failure(e) => Failure(e)
    case Success(monday) =>
      match AddDays(monday, 6)
      case Failure(e) => Failure(e)
      case Success(sunday) => Success((monday, sunday))
  }

  /** The independent reference: the number of whole weeks since 0001-01-01. */
  function WeekIndex(d: Date): nat {
    (d - 1) / 7
  }

  /** The first day of the last whole week the calendar holds. */
  const LastMonday := 3652055

  /** A number split as 7q + r with 0 <= r < 7 has quotient q and remainder r. */
  lemma DivModSeven(x: int, q: int, r: int)
    requires x == 7 * q + r && 0 <= r < 7
    ensures x / 7 == q && x % 7 == r
  {
  }

  /** Stepping back by the weekday lands on the first day of the date's week. */
  lemma MondayOfWeek(d: Date)
    ensures Weekday(d) == (d - 1) % 7
    ensures d - Weekday(d) == 7 * WeekIndex(d) + 1
  {
    var q, r := (d - 1) / 7, (d - 1) % 7;
    DivModSeven(d - 1, q, r);
    DivModSeven(d + 6, q + 1, r);
  }

  /** The range exists exactly for dates before the final partial week, and it is that week's Monday to Sunday. */
  lemma WeekRangeShape(d: Date)
    ensures GetWeekRange(d).Success? <==> d < LastMonday
    ensures GetWeekRange(d).Success? ==>
              var (monday, sunday) := GetWeekRange(d).value;
              && Weekday(monday) == 0 && sunday == monday + 6
              && monday <= d <= sunday
              && monday == 7 * WeekIndex(d) + 1
  {
    MondayOfWeek(d);
    var k := WeekIndex(d);
    DivModSeven(d - 1, k, (d - 1) % 7);
    assert d < LastMonday <==> k < 521722;
    if k < 521722 {
      var monday := 7 * k + 1;
      DivModSeven(monday + 6, k + 1, 0);
      assert Weekday(monday) == 0;
    }
  }

  /** Two dates get the same pair exactly when they are in the same Monday-to-Sunday week. */
  lemma SameWeekSameRange(a: Date, b: Date)
    requires GetWeekRange(a).Success? && GetWeekRange(b).Success?
    ensures GetWeekRange(a) == GetWeekRange(b) <==> WeekIndex(a) == WeekIndex(b)
  {
    WeekRangeShape(a);
    WeekRangeShape(b);
  }

  /** Asking again with the returned Monday, or with any day up to the returned Sunday, gives the same pair. */
  lemma WeekRangeIdempotent(d: Date)
    requires GetWeekRange(d).Success?
    ensures var (monday, sunday) := GetWeekRange(d).value;
            && GetWeekRange(monday) == GetWeekRange(d)
            && GetWeekRange(sunday) == GetWeekRange(d)
  {
    WeekRangeShape(d);
    var (monday, sunday) := GetWeekRange(d).value;
    WeekRangeShape(monday);
    WeekRangeShape(sunday);
    assert WeekIndex(monday) == WeekIndex(d) == WeekIndex(sunday);
  }
}
