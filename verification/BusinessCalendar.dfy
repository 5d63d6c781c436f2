/** Court-day arithmetic: which days count, and the deadline that counting reaches.

    A date is its day number, counted from 1970-01-01, which was a Thursday. */
module BusinessCalendar {

  datatype Counting = CalendarDays | BusinessDays

  datatype CureDeadlineRule = CureDeadlineRule(days: nat, counting: Counting, rollForward: bool)

  type Holidays = seq<int>

  // Sunday is 0 and Saturday is 6.
  function Weekday(day: int): int {
    (day + 4) % 7
  }

  predicate IsWeekend(day: int) {
    Weekday(day) == 6 || Weekday(day) == 0
  }

  predicate IsBusinessDay(holidays: Holidays, day: int) {
    !IsWeekend(day) && day !in holidays
  }

  predicate Counts(holidays: Holidays, counting: Counting, day: int) {
    counting.CalendarDays? || IsBusinessDay(holidays, day)
  }

  // ---------------------------------------------------------------------------------------
  // Termination: past the last holiday only a weekend can delay the search.
  // ---------------------------------------------------------------------------------------

  function Horizon(holidays: Holidays): (last: int)
    ensures forall day :: day in holidays ==> day <= last
  {
    if holidays == [] then 0
    else
      var rest := Horizon(holidays[1..]);
      assert forall day :: day in holidays ==> day == holidays[0] || day in holidays[1..];
      if holidays[0] > rest then holidays[0] else rest
  }

  // An upper bound on how many non-business days lie ahead, `day` included.
  function Wait(holidays: Holidays, day: int): nat {
    if day <= Horizon(holidays) then Horizon(holidays) - day + 3
    else if Weekday(day) == 6 then 2
    else if Weekday(day) == 0 then 1
    else 0
  }

  lemma WaitShrinks(holidays: Holidays, day: int)
    requires !IsBusinessDay(holidays, day)
    ensures Wait(holidays, day + 1) < Wait(holidays, day)
  {
    assert day in holidays ==> day <= Horizon(holidays);
  }

  // ---------------------------------------------------------------------------------------
  // What the two loops compute
  // ---------------------------------------------------------------------------------------

  // The least business day at or after `day`.
  function NextBusinessDay(holidays: Holidays, day: int): (next: int)
    ensures day <= next && IsBusinessDay(holidays, next)
    ensures forall d :: day <= d < next ==> !IsBusinessDay(holidays, d)
    decreases Wait(holidays, day)
  {
    if IsBusinessDay(holidays, day) then day
    else
      WaitShrinks(holidays, day);
      NextBusinessDay(holidays, day + 1)
  }

  function NextCounted(holidays: Holidays, counting: Counting, day: int): int {
    if Counts(holidays, counting, day) then day else NextBusinessDay(holidays, day)
  }

  // The day on which the `n`-th counting day after `start` falls.
  function CountedDay(holidays: Holidays, counting: Counting, start: int, n: nat): int
    decreases n
  {
    if n == 0 then start
    else CountedDay(holidays, counting, NextCounted(holidays, counting, start + 1), n - 1)
  }

  function Deadline(holidays: Holidays, start: int, rule: CureDeadlineRule): int {
    var counted := CountedDay(holidays, rule.counting, start, rule.days);
    if rule.rollForward then NextBusinessDay(holidays, counted) else counted
  }

  method CalculateDeadline(holidays: Holidays, start: int, rule: CureDeadlineRule) returns (due: int)
    ensures due == Deadline(holidays, start, rule)
  {
    var cursor := start;
    var remaining := rule.days;
    while remaining > 0
      invariant CountedDay(holidays, rule.counting, cursor, remaining)
             == CountedDay(holidays, rule.counting, start, rule.days)
      decreases remaining, Wait(holidays, cursor + 1)
    {
      cursor := cursor + 1;
      if rule.counting == CalendarDays || IsBusinessDay(holidays, cursor) {
        remaining := remaining - 1;
      } else {
        WaitShrinks(holidays, cursor);
      }
    }
    if rule.rollForward {
      while !IsBusinessDay(holidays, cursor)
        invariant NextBusinessDay(holidays, cursor) == Deadline(holidays, start, rule)
        decreases Wait(holidays, cursor)
      {
        WaitShrinks(holidays, cursor);
        cursor := cursor + 1;
      }
    }
    due := cursor;
  }

  // ---------------------------------------------------------------------------------------
  // What a deadline means: counting days one by one
  // ---------------------------------------------------------------------------------------

  // How many counting days there are after `start`, up to and including `end`.
  ghost function Counted(holidays: Holidays, counting: Counting, start: int, end: int): nat
    requires start <= end
    decreases end - start
  {
    if start == end then 0
    else Counted(holidays, counting, start, end - 1) + if Counts(holidays, counting, end) then 1 else 0
  }

  lemma {:induction false} CountedSplits(holidays: Holidays, counting: Counting, start: int, mid: int, end: int)
    requires start <= mid <= end
    ensures Counted(holidays, counting, start, end)
         == Counted(holidays, counting, start, mid) + Counted(holidays, counting, mid, end)
    decreases end - mid
  {
    if mid < end {
      CountedSplits(holidays, counting, start, mid, end - 1);
    }
  }

  lemma {:induction false} NothingCounted(holidays: Holidays, counting: Counting, start: int, end: int)
    requires start <= end
    requires forall d :: start < d <= end ==> !Counts(holidays, counting, d)
    ensures Counted(holidays, counting, start, end) == 0
    decreases end - start
  {
    if start < end {
      NothingCounted(holidays, counting, start, end - 1);
    }
  }

  lemma {:induction false} CountedDayCounts(holidays: Holidays, counting: Counting, start: int, n: nat)
    ensures var due := CountedDay(holidays, counting, start, n);
            start <= due && Counted(holidays, counting, start, due) == n
            && (due == start || Counts(holidays, counting, due))
    decreases n
  {
    if n > 0 {
      var first := NextCounted(holidays, counting, start + 1);
      var due := CountedDay(holidays, counting, start, n);
      CountedDayCounts(holidays, counting, first, n - 1);
      NothingCounted(holidays, counting, start, first - 1);
      CountedSplits(holidays, counting, start, first, due);
    }
  }

  // The counted day is the least day by which `n` counting days have passed.
  lemma {:induction false} CountedDayAtMost(holidays: Holidays, counting: Counting, start: int, n: nat, day: int)
    requires start <= day && Counted(holidays, counting, start, day) >= n
    ensures CountedDay(holidays, counting, start, n) <= day
  {
    var due := CountedDay(holidays, counting, start, n);
    CountedDayCounts(holidays, counting, start, n);
    if day < due {
      CountedSplits(holidays, counting, start, day, due - 1);
    }
  }

  // The deadline calculator's meaning, in both directions: `day` is the counted day exactly when
  // the wanted number of counting days has passed on it and it is itself one of them.
  lemma {:induction false} CountedDayExactly(holidays: Holidays, counting: Counting, start: int, n: nat, day: int)
    ensures day == CountedDay(holidays, counting, start, n) <==>
            start <= day && Counted(holidays, counting, start, day) == n
            && (day == start || Counts(holidays, counting, day))
  {
    var due := CountedDay(holidays, counting, start, n);
    CountedDayCounts(holidays, counting, start, n);
    if start <= day && Counted(holidays, counting, start, day) == n
       && (day == start || Counts(holidays, counting, day)) {
      CountedDayAtMost(holidays, counting, start, n, day);
      if due < day {
        CountedSplits(holidays, counting, start, due, day);
        CountedSplits(holidays, counting, start, due, day - 1);
      }
    }
  }

  // With rolling, a deadline is a business day and no business day lies between the counted day
  // and it; without rolling it is the counted day itself.
  lemma {:induction false} DeadlineExactly(holidays: Holidays, start: int, rule: CureDeadlineRule, day: int)
    ensures var counted := CountedDay(holidays, rule.counting, start, rule.days);
            day == Deadline(holidays, start, rule) <==>
            if rule.rollForward
            then counted <= day && IsBusinessDay(holidays, day)
                 && forall d :: counted <= d < day ==> !IsBusinessDay(holidays, d)
            else day == counted
  {
    var counted := CountedDay(holidays, rule.counting, start, rule.days);
    var next := NextBusinessDay(holidays, counted);
    if rule.rollForward && counted <= day && IsBusinessDay(holidays, day)
       && (forall d :: counted <= d < day ==> !IsBusinessDay(holidays, d)) {
      assert !(next < day) && !(day < next);
    }
  }

  // ---------------------------------------------------------------------------------------
  // Bound, monotonicity and composition
  // ---------------------------------------------------------------------------------------

  // Saturdays and Sundays are every seventh day, so floor division counts them.
  lemma {:induction false} WeekdaysByDivision(start: int, end: int)
    requires start <= end
    ensures Counted([], BusinessDays, start, end)
         == end - start - ((end + 5) / 7 - (start + 5) / 7) - ((end + 4) / 7 - (start + 4) / 7)
    decreases end - start
  {
    if start < end {
      WeekdaysByDivision(start, end - 1);
      assert Weekday(end) == 6 <==> (end + 5) / 7 == (end + 4) / 7 + 1;
    }
  }

  // One more holiday takes away at most one counting day.
  lemma {:induction false} HolidayCostsOneDay(holidays: Holidays, start: int, end: int)
    requires holidays != [] && start <= end
    ensures var cost := Counted(holidays[1..], BusinessDays, start, end) - Counted(holidays, BusinessDays, start, end);
            cost == if start < holidays[0] <= end && !IsWeekend(holidays[0]) && holidays[0] !in holidays[1..] then 1
                    else 0
    decreases end - start
  {
    if start < end {
      HolidayCostsOneDay(holidays, start, end - 1);
      assert end in holidays <==> end == holidays[0] || end in holidays[1..];
    }
  }

  lemma {:induction false} HolidaysCostAtMostTheirNumber(holidays: Holidays, start: int, end: int)
    requires start <= end
    ensures Counted(holidays, BusinessDays, start, end) >= Counted([], BusinessDays, start, end) - |holidays|
    decreases |holidays|
  {
    if holidays != [] {
      HolidayCostsOneDay(holidays, start, end);
      HolidaysCostAtMostTheirNumber(holidays[1..], start, end);
    }
  }

  lemma {:induction false} EveryCalendarDayCounts(holidays: Holidays, start: int, end: int)
    requires start <= end
    ensures Counted(holidays, CalendarDays, start, end) == end - start
    decreases end - start
  {
    if start < end {
      EveryCalendarDayCounts(holidays, start, end - 1);
    }
  }

  // Before rolling, a deadline is no later than the week count that covers every counted day and
  // every holiday at five days a week.
  lemma {:induction false} DeadlineBound(holidays: Holidays, start: int, rule: CureDeadlineRule)
    ensures CountedDay(holidays, rule.counting, start, rule.days)
         <= start + 7 * ((rule.days + |holidays| + 4) / 5)
  {
    var weeks := (rule.days + |holidays| + 4) / 5;
    var end := start + 7 * weeks;
    assert 5 * weeks >= rule.days + |holidays|;
    match rule.counting {
      case CalendarDays =>
        EveryCalendarDayCounts(holidays, start, end);
      case BusinessDays =>
        WeekdaysByDivision(start, end);
        HolidaysCostAtMostTheirNumber(holidays, start, end);
    }
    CountedDayAtMost(holidays, rule.counting, start, rule.days, end);
  }

  lemma {:induction false} FewerHolidaysCountMore(fewer: Holidays, more: Holidays, counting: Counting, start: int,
                                                  end: int)
    requires start <= end
    requires forall day :: day in fewer ==> day in more
    ensures Counted(more, counting, start, end) <= Counted(fewer, counting, start, end)
    decreases end - start
  {
    if start < end {
      FewerHolidaysCountMore(fewer, more, counting, start, end - 1);
    }
  }

  // A later start, more days or more holidays never bring a deadline forward, rolled or not.
  lemma {:induction false} DeadlineIsMonotone(fewer: Holidays, more: Holidays, start: int, later: int,
                                              rule: CureDeadlineRule, longer: CureDeadlineRule)
    requires forall day :: day in fewer ==> day in more
    requires start <= later
    requires rule.days <= longer.days && longer == rule.(days := longer.days)
    ensures Deadline(fewer, start, rule) <= Deadline(more, later, longer)
  {
    var late := CountedDay(more, rule.counting, later, longer.days);
    CountedDayCounts(more, rule.counting, later, longer.days);
    FewerHolidaysCountMore(fewer, more, rule.counting, later, late);
    CountedSplits(fewer, rule.counting, start, later, late);
    CountedDayAtMost(fewer, rule.counting, start, rule.days, late);
    var rolled := NextBusinessDay(more, late);
    assert IsBusinessDay(fewer, rolled);
  }

  // Without rolling, counting a + b days is counting b days from the end of the first a.
  lemma {:induction false} DeadlinesCompose(holidays: Holidays, counting: Counting, start: int, a: nat, b: nat)
    ensures CountedDay(holidays, counting, start, a + b)
         == CountedDay(holidays, counting, CountedDay(holidays, counting, start, a), b)
    decreases a
  {
    if a > 0 {
      DeadlinesCompose(holidays, counting, NextCounted(holidays, counting, start + 1), a - 1, b);
    }
  }
}
