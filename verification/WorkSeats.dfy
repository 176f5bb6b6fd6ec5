/** Days, calendars and the hours one person has for one project tree. */
module WorkSeats {
  import opened Basics

  // A calendar day as its ordinal number; day 1 is a Monday.
  type Day = int

  // The last representable day, which stands in for "no due date" and "no planned start" when tasks are ordered.
  const LAST_DATE: Day := 3652059

  // 0 is Monday, 6 is Sunday.
  function WeekdayOf(day: Day): int {
    (day + 6) % 7
  }

  datatype TeamCalendar = TeamCalendar(workdays: set<int>, daysOff: set<Day>, extraWorkdays: set<Day>)
  {
    predicate IsWorkingDay(day: Day) {
      day in extraWorkdays || (WeekdayOf(day) in workdays && day !in daysOff)
    }
  }

  datatype SeatKey = SeatKey(user: int, root: Option<int>)

  // A person's time in one project tree: `leave` is the share of a day taken off in percent, `dayHours`
  // the hours the person fixed for a day.
  datatype WorkSeat = WorkSeat(dailyHours: real, engagementPercent: int, calendar: TeamCalendar,
                               leave: map<Day, int>, dayHours: map<Day, real>)
  {
    function Engagement(): (r: real)
      ensures 0.0 <= r <= 1.0
    {
      (if engagementPercent < 0 then 0 else if engagementPercent > 100 then 100 else engagementPercent) as real / 100.0
    }

    function HoursPerDay(): (r: real)
      ensures r >= 0.0
    {
      Max(dailyHours, 0.0) * Engagement()
    }

    predicate HasCapacity(eps: real) {
      && Engagement() > eps
      && ((HoursPerDay() > eps && calendar.workdays != {}) || exists d :: d in dayHours && dayHours[d] > eps)
    }

    // The hours of the day, whether or not anyone works on it. They are never negative, whatever was entered.
    function PersonHours(day: Day): (r: real)
      ensures r >= 0.0
    {
      if day in dayHours then Max(dayHours[day], 0.0) * Engagement()
      else
        var entered := if day in leave then leave[day] else 0;
        var off := if entered < 0 then 0 else if entered > 100 then 100 else entered;
        var present := (100 - off) as real / 100.0;
        ScaledIsBounded(HoursPerDay(), present);
        HoursPerDay() * present
    }

    predicate WorksOn(eps: real, day: Day, cal: TeamCalendar) {
      (day in dayHours && dayHours[day] > eps) || cal.IsWorkingDay(day)
    }
  }
}
