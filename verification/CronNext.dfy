// The next time a schedule fires: the day-by-day search for a cron expression, and the daily and
// weekly calculations of the job list and of the launchd scheduler.
//
// An instant is a number of nanoseconds since the start of year 1 in UTC, and a zone is a fixed
// offset. Day numbers count local dates from the same origin, which was a Monday.
module CronNext {
  import opened CronParse
  import opened Durations

  // The part of the calendar that cron reads off a date.
  datatype Calendar = Calendar(month: int -> int, dom: int -> int)

  ghost predicate ValidCalendar(cal: Calendar) {
    forall d :: 1 <= cal.month(d) <= 12 && 1 <= cal.dom(d) <= 31
  }

  // Sunday is 0.
  function Weekday(day: int): int {
    (day + 1) % 7
  }

  // 1 January of year 1 was a Monday, 1 January 1970 a Thursday, and every date is a weekday on.
  lemma WeekdaysAreAnchored(day: int)
    ensures Weekday(0) == 1 && Weekday(719162) == 4
    ensures Weekday(day + 1) == if Weekday(day) == 6 then 0 else Weekday(day) + 1
  {
  }

  // The days from a date to the next date, from that date on, with the weekday.
  function DaysTo(day: int, weekday: int): (n: int)
    requires 0 <= weekday <= 6
    ensures 0 <= n <= 6 && Weekday(day + n) == weekday
  {
    (weekday - Weekday(day)) % 7
  }

  function LocalDay(t: int, offset: int): int {
    (t + offset) / DAY
  }

  // The instant at which the local clock shows `hour`:`minute` on a date; like the library, it
  // normalises hours and minutes that are out of range.
  function ClockTime(day: int, hour: int, minute: int, offset: int): int {
    day * DAY + hour * HOUR + minute * MINUTE - offset
  }

  function Truncate(t: int, unit: int): int
    requires unit > 0
  {
    t - t % unit
  }

  // ----- What an expression means -----

  // A local minute matches when its minute, hour and month are denoted by their fields and its day
  // matches: when both day fields are restricted, either of them suffices.
  predicate Matches(expr: string, cal: Calendar, day: int, hour: int, minute: int)
    requires |Fields(expr)| == 5
  {
    var f := Fields(expr);
    && 0 <= hour <= 23 && 0 <= minute <= 59
    && Denotes(f[0], 0, 59, minute) && Denotes(f[1], 0, 23, hour)
    && Denotes(f[3], 1, 12, cal.month(day)) && DayMatches(f[2], f[4], cal, day)
  }

  predicate Unrestricted(field: string, lo: int, hi: int) {
    forall v | lo <= v <= hi :: Denotes(field, lo, hi, v)
  }

  predicate DayMatches(dom: string, dow: string, cal: Calendar, day: int) {
    var domMatches := Denotes(dom, 1, 31, cal.dom(day));
    var dowMatches := Denotes(dow, 0, 6, Weekday(day));
    if Unrestricted(dom, 1, 31) then dowMatches
    else if Unrestricted(dow, 0, 6) then domMatches
    else domMatches || dowMatches
  }

  // `t` is the first matching minute after `now`.
  ghost predicate IsNextRun(expr: string, cal: Calendar, offset: int, now: int, t: int)
    requires |Fields(expr)| == 5
  {
    && t > now
    && (exists day, hour, minute | t == ClockTime(day, hour, minute, offset) :: Matches(expr, cal, day, hour, minute))
    && forall day, hour, minute | now < ClockTime(day, hour, minute, offset) < t ::
         !Matches(expr, cal, day, hour, minute)
  }

  lemma NextRunIsUnique(expr: string, cal: Calendar, offset: int, now: int, t: int, u: int)
    requires |Fields(expr)| == 5 && IsNextRun(expr, cal, offset, now, t) && IsNextRun(expr, cal, offset, now, u)
    ensures t == u
  {
  }

  // ----- The search -----

  const MAX_LOOKAHEAD := 366

  datatype NextRun = At(time: int) | Unparsable(why: Why) | NoMatch

  function FirstDate(now: int, offset: int): int {
    LocalDay(Truncate(now, MINUTE) + MINUTE, offset)
  }

  // No minute still to come matches on the dates that the search covers.
  ghost predicate NoMatchInReach(expr: string, cal: Calendar, offset: int, now: int)
    requires |Fields(expr)| == 5
  {
    forall day, hour, minute |
      && FirstDate(now, offset) <= day < FirstDate(now, offset) + MAX_LOOKAHEAD
      && ClockTime(day, hour, minute, offset) > now ::
      !Matches(expr, cal, day, hour, minute)
  }

  // The date of the next minute boundary is not too late a date to start from, whatever the offset.
  lemma NothingBeforeFirstDate(now: int, offset: int, day: int, hour: int, minute: int)
    requires 0 <= hour <= 23 && 0 <= minute <= 59 && ClockTime(day, hour, minute, offset) > now
    ensures day >= FirstDate(now, offset)
  {
  }

  lemma ClockOrder(day: int, hour: int, minute: int, day': int, hour': int, minute': int, offset: int)
    requires 0 <= hour <= 23 && 0 <= minute <= 59 && 0 <= hour' <= 23 && 0 <= minute' <= 59
    ensures ClockTime(day, hour, minute, offset) < ClockTime(day', hour', minute', offset)
       <==> day < day' || (day == day' && (hour < hour' || (hour == hour' && minute < minute')))
  {
  }

  // The day test of the search, on parsed fields.
  predicate DayTest(f: CronFields, cal: Calendar, day: int) {
    var domWildcard := IsWildcard(f.dom, 1, 31);
    var dowWildcard := IsWildcard(f.dow, 0, 6);
    && cal.month(day) in f.month
    && (if domWildcard && dowWildcard then true
        else if domWildcard then Weekday(day) in f.dow
        else if dowWildcard then cal.dom(day) in f.dom
        else cal.dom(day) in f.dom || Weekday(day) in f.dow)
  }

  lemma DayTestIsDayMatch(expr: string, cal: Calendar, day: int)
    requires ValidCalendar(cal) && ParsedCron(expr).Ok?
    ensures |Fields(expr)| == 5
    ensures var f := Fields(expr);
            DayTest(ParsedCron(expr).value, cal, day) ==
            (Denotes(f[3], 1, 12, cal.month(day)) && DayMatches(f[2], f[4], cal, day))
  {
    hide ParsedField;
    var f := Fields(expr);
    hide Fields;
    hide Denotes;
    var dom, dow, month := f[2], f[4], f[3];
    assert ParsedCron(expr).value.dom == ParsedField(dom, 1, 31).value;
    assert ParsedCron(expr).value.dow == ParsedField(dow, 0, 6).value;
    MembersAreDenoted(month, 1, 12, cal.month(day));
    MembersAreDenoted(dom, 1, 31, cal.dom(day));
    MembersAreDenoted(dow, 0, 6, Weekday(day));
    WildcardIsUnrestricted(dom, 1, 31);
    WildcardIsUnrestricted(dow, 0, 6);
  }

  lemma WildcardIsUnrestricted(field: string, lo: int, hi: int)
    requires 0 <= lo <= 1 && lo + 3 <= hi <= 59 && ParsedField(field, lo, hi).Ok?
    ensures IsWildcard(ParsedField(field, lo, hi).value, lo, hi) <==> Unrestricted(field, lo, hi)
  {
    hide ParsedField;
    hide Denotes;
    WildcardIsWholeRange(field, lo, hi);
    forall v | lo <= v <= hi
      ensures v in ParsedField(field, lo, hi).value <==> Denotes(field, lo, hi, v)
    {
      MembersAreDenoted(field, lo, hi, v);
    }
  }

  // A matching minute is one whose date passes the day test and whose hour and minute are listed.
  lemma MatchesOnFields(expr: string, cal: Calendar, day: int, hour: int, minute: int)
    requires ValidCalendar(cal) && ParsedCron(expr).Ok?
    ensures |Fields(expr)| == 5
    ensures var f := ParsedCron(expr).value;
            Matches(expr, cal, day, hour, minute) <==> DayTest(f, cal, day) && hour in f.hour && minute in f.minute
  {
    DayTestIsDayMatch(expr, cal, day);
    ParsedIsSearchable(expr);
    hide ParsedField;
    hide DayTest;
    hide DayMatches;
    hide Denotes;
    var f := Fields(expr);
    assert ParsedCron(expr).value.hour == ParsedField(f[1], 0, 23).value;
    assert ParsedCron(expr).value.minute == ParsedField(f[0], 0, 59).value;
    if 0 <= hour <= 23 && 0 <= minute <= 59 {
      MembersAreDenoted(f[1], 0, 23, hour);
      MembersAreDenoted(f[0], 0, 59, minute);
    }
  }

  // Everything on the dates from `first` to before `end` that lies after `now` has been ruled out.
  ghost predicate NothingOn(f: CronFields, cal: Calendar, offset: int, now: int, first: int, end: int) {
    forall day, hour, minute |
      first <= day < end && hour in f.hour && minute in f.minute && ClockTime(day, hour, minute, offset) > now ::
      !DayTest(f, cal, day)
  }

  // The first slot of a date that is still to come.
  method FirstSlot(f: CronFields, day: int, offset: int, now: int) returns (r: NextRun)
    requires Searchable(f)
    ensures !r.Unparsable?
    ensures r.At? ==>
      && r.time > now
      && (exists hour, minute | hour in f.hour && minute in f.minute :: r.time == ClockTime(day, hour, minute, offset))
      && (forall hour, minute | hour in f.hour && minute in f.minute && ClockTime(day, hour, minute, offset) > now ::
            ClockTime(day, hour, minute, offset) >= r.time)
    ensures r.NoMatch? ==>
      forall hour, minute | hour in f.hour && minute in f.minute :: ClockTime(day, hour, minute, offset) <= now
  {
    var i := 0;
    while i < |f.hour|
      invariant 0 <= i <= |f.hour|
      invariant forall k, minute | 0 <= k < i && minute in f.minute :: ClockTime(day, f.hour[k], minute, offset) <= now
    {
      var j := 0;
      while j < |f.minute|
        invariant 0 <= j <= |f.minute|
        invariant forall k | 0 <= k < j :: ClockTime(day, f.hour[i], f.minute[k], offset) <= now
      {
        var candidateTime := ClockTime(day, f.hour[i], f.minute[j], offset);
        if candidateTime > now {
          assert f.hour[i] in f.hour && f.minute[j] in f.minute;
          SlotIsFirst(f, i, j, day, offset, now);
          return At(candidateTime);
        }
        j := j + 1;
      }
      i := i + 1;
    }
    return NoMatch;
  }

  lemma SlotIsFirst(f: CronFields, i: nat, j: nat, day: int, offset: int, now: int)
    requires Searchable(f) && i < |f.hour| && j < |f.minute|
    requires forall k, minute | 0 <= k < i && minute in f.minute :: ClockTime(day, f.hour[k], minute, offset) <= now
    requires forall k | 0 <= k < j :: ClockTime(day, f.hour[i], f.minute[k], offset) <= now
    ensures forall hour, minute | hour in f.hour && minute in f.minute && ClockTime(day, hour, minute, offset) > now ::
              ClockTime(day, hour, minute, offset) >= ClockTime(day, f.hour[i], f.minute[j], offset)
  {
    forall hour, minute | hour in f.hour && minute in f.minute && ClockTime(day, hour, minute, offset) > now
      ensures ClockTime(day, hour, minute, offset) >= ClockTime(day, f.hour[i], f.minute[j], offset)
    {
      var a :| 0 <= a < |f.hour| && f.hour[a] == hour;
      var b :| 0 <= b < |f.minute| && f.minute[b] == minute;
      assert f.hour[i] in f.hour && f.minute[j] in f.minute;
      ClockOrder(day, hour, minute, day, f.hour[i], f.minute[j], offset);
    }
  }

  method NextCronRun(expr: string, cal: Calendar, offset: int, now: int) returns (r: NextRun)
    requires ValidCalendar(cal)
    ensures r.Unparsable? <==> ParsedCron(expr).Failed?
    ensures r.Unparsable? ==> r.why == ParsedCron(expr).why
    ensures !r.Unparsable? ==> |Fields(expr)| == 5
    ensures r.At? ==> IsNextRun(expr, cal, offset, now, r.time)
    ensures r.NoMatch? <==> ParsedCron(expr).Ok? && NoMatchInReach(expr, cal, offset, now)
  {
    hide ParsedField;
    hide ParsedCron;
    hide Fields;
    hide Matches;
    var parsed := ParseCron(expr);
    if parsed.Failed? {
      return Unparsable(parsed.why);
    }
    var f := parsed.value;
    ParsedIsSearchable(expr);
    assert |Fields(expr)| == 5 by { MatchesOnFields(expr, cal, 0, 0, 0); }
    var domWildcard := IsWildcard(f.dom, 1, 31);
    var dowWildcard := IsWildcard(f.dow, 0, 6);
    var candidate := Truncate(now, MINUTE) + MINUTE;
    for n := 0 to MAX_LOOKAHEAD
      invariant NothingOn(f, cal, offset, now, FirstDate(now, offset), FirstDate(now, offset) + n)
    {
      var checkDate := LocalDay(candidate, offset) + n;
      if cal.month(checkDate) !in f.month {
        continue;
      }
      var dayMatch := false;
      if domWildcard && dowWildcard {
        dayMatch := true;
      } else if domWildcard && !dowWildcard {
        dayMatch := Weekday(checkDate) in f.dow;
      } else if !domWildcard && dowWildcard {
        dayMatch := cal.dom(checkDate) in f.dom;
      } else {
        dayMatch := cal.dom(checkDate) in f.dom || Weekday(checkDate) in f.dow;
      }
      if !dayMatch {
        continue;
      }
      r := FirstSlot(f, checkDate, offset, now);
      if r.At? {
        FoundIsNext(expr, cal, offset, now, checkDate, r.time);
        return;
      }
    }
    NothingFound(expr, cal, offset, now);
    return NoMatch;
  }

  lemma FoundIsNext(expr: string, cal: Calendar, offset: int, now: int, date: int, t: int)
    requires ValidCalendar(cal) && ParsedCron(expr).Ok? && Searchable(ParsedCron(expr).value)
    requires var f := ParsedCron(expr).value;
             && DayTest(f, cal, date) && t > now
             && FirstDate(now, offset) <= date < FirstDate(now, offset) + MAX_LOOKAHEAD
             && NothingOn(f, cal, offset, now, FirstDate(now, offset), date)
             && (exists hour, minute | hour in f.hour && minute in f.minute :: t == ClockTime(date, hour, minute, offset))
             && (forall hour, minute | hour in f.hour && minute in f.minute && ClockTime(date, hour, minute, offset) > now ::
                   ClockTime(date, hour, minute, offset) >= t)
    ensures |Fields(expr)| == 5 && IsNextRun(expr, cal, offset, now, t) && !NoMatchInReach(expr, cal, offset, now)
  {
    hide DayTest;
    hide ParsedCron;
    hide Fields;
    hide Matches;
    var f := ParsedCron(expr).value;
    var h, m :| h in f.hour && m in f.minute && t == ClockTime(date, h, m, offset);
    MatchesOnFields(expr, cal, date, h, m);
    forall day, hour, minute | now < ClockTime(day, hour, minute, offset) < t
      ensures !Matches(expr, cal, day, hour, minute)
    {
      MatchesOnFields(expr, cal, day, hour, minute);
      if DayTest(f, cal, day) && hour in f.hour && minute in f.minute {
        NothingBeforeFirstDate(now, offset, day, hour, minute);
        ClockOrder(day, hour, minute, date, h, m, offset);
        assert false;
      }
    }
  }

  lemma NothingFound(expr: string, cal: Calendar, offset: int, now: int)
    requires ValidCalendar(cal) && ParsedCron(expr).Ok?
    requires NothingOn(ParsedCron(expr).value, cal, offset, now, FirstDate(now, offset), FirstDate(now, offset) + MAX_LOOKAHEAD)
    ensures |Fields(expr)| == 5 && NoMatchInReach(expr, cal, offset, now)
  {
    hide DayTest;
    hide ParsedCron;
    hide Fields;
    hide Matches;
    MatchesOnFields(expr, cal, 0, 0, 0);
    forall day, hour, minute |
      && FirstDate(now, offset) <= day < FirstDate(now, offset) + MAX_LOOKAHEAD
      && ClockTime(day, hour, minute, offset) > now
      ensures !Matches(expr, cal, day, hour, minute)
    {
      MatchesOnFields(expr, cal, day, hour, minute);
    }
  }

  // ----- When the search cannot fail -----

  // Without a restriction on the date there is a match within eight dates: one of the next seven
  // dates has a denoted weekday, and today's slots may all have passed.
  lemma EightDatesSuffice(expr: string, cal: Calendar, offset: int, now: int)
    requires ValidCalendar(cal) && ParsedCron(expr).Ok?
    requires |Fields(expr)| == 5 && Unrestricted(Fields(expr)[2], 1, 31) && Unrestricted(Fields(expr)[3], 1, 12)
    ensures !NoMatchInReach(expr, cal, offset, now)
    ensures forall t | IsNextRun(expr, cal, offset, now, t) :: LocalDay(t, offset) < FirstDate(now, offset) + 8
  {
    var day, h, m := MatchInEightDates(expr, cal, offset, now);
    hide Matches;
    hide Fields;
    hide Unrestricted;
    hide ParsedCron;
    assert !NoMatchInReach(expr, cal, offset, now);
    forall t | IsNextRun(expr, cal, offset, now, t)
      ensures LocalDay(t, offset) < FirstDate(now, offset) + 8
    {
      NextRunIsEarliest(expr, cal, offset, now, t, day, h, m);
    }
  }

  lemma NextRunIsEarliest(expr: string, cal: Calendar, offset: int, now: int, t: int, day: int, h: int, m: int)
    requires |Fields(expr)| == 5 && IsNextRun(expr, cal, offset, now, t)
    requires Matches(expr, cal, day, h, m) && ClockTime(day, h, m, offset) > now
    ensures t <= ClockTime(day, h, m, offset) && LocalDay(t, offset) <= day
  {
    hide Fields;
    hide Denotes;
    assert t <= ClockTime(day, h, m, offset);
  }

  lemma MatchInEightDates(expr: string, cal: Calendar, offset: int, now: int) returns (day: int, h: int, m: int)
    requires ValidCalendar(cal) && ParsedCron(expr).Ok?
    requires |Fields(expr)| == 5 && Unrestricted(Fields(expr)[2], 1, 31) && Unrestricted(Fields(expr)[3], 1, 12)
    ensures FirstDate(now, offset) <= day < FirstDate(now, offset) + 8 && 0 <= h <= 23 && 0 <= m <= 59
    ensures ClockTime(day, h, m, offset) > now
    ensures Matches(expr, cal, day, h, m)
  {
    hide ParsedField;
    hide Denotes;
    ParsedIsSearchable(expr);
    var f := ParsedCron(expr).value;
    var fields := Fields(expr);
    hide Fields;
    assert f.dow == ParsedField(fields[4], 0, 6).value;
    hide ParsedCron;
    hide ClockTime;
    hide Matches;
    var first := FirstDate(now, offset);
    var d := f.dow[0];
    h, m := f.hour[0], f.minute[0];
    assert d in f.dow && h in f.hour && m in f.minute;
    day := first + 1 + DaysTo(first + 1, d);
    StartOfTomorrow(now, offset, day, h, m);
    MembersAreDenoted(fields[4], 0, 6, d);
    assert DayMatches(fields[2], fields[4], cal, day);
    DayTestIsDayMatch(expr, cal, day);
    MatchesOnFields(expr, cal, day, h, m);
  }

  lemma StartOfTomorrow(now: int, offset: int, day: int, hour: int, minute: int)
    requires day > FirstDate(now, offset) && 0 <= hour && 0 <= minute
    ensures ClockTime(day, hour, minute, offset) > now
  {
  }

  // The proleptic Gregorian calendar, counted from 1 March of year 0, which is day -306.
  // The number of days since the last 1 March: centuries, cycles of four years and years are taken
  // off one after another.
  function GregorianYearDay(day: int): (yearDay: int)
    ensures 0 <= yearDay <= 365
  {
    var n := (day + 306) % 146097;
    var century := if n / 36524 == 4 then 3 else n / 36524;
    var inCycle := (n - century * 36524) % 1461;
    var year := if inCycle / 365 == 4 then 3 else inCycle / 365;
    inCycle - year * 365
  }

  function GregorianMonth(day: int): int {
    var shifted := (5 * GregorianYearDay(day) + 2) / 153;
    if shifted < 10 then shifted + 3 else shifted - 9
  }

  function GregorianDom(day: int): int {
    var yearDay := GregorianYearDay(day);
    yearDay - (153 * ((5 * yearDay + 2) / 153) + 2) / 5 + 1
  }

  const GREGORIAN := Calendar(GregorianMonth, GregorianDom)

  lemma GregorianIsValid()
    ensures ValidCalendar(GREGORIAN)
  {
    forall day
      ensures 1 <= GregorianMonth(day) <= 12 && 1 <= GregorianDom(day) <= 31
    {
      hide GregorianYearDay;
    }
  }

  predicate IsDate(day: int, month: int, dom: int, weekday: int) {
    GREGORIAN.month(day) == month && GREGORIAN.dom(day) == dom && Weekday(day) == weekday
  }

  lemma YearDayOf(day: int, cycles: int, century: int, four: int, year: int, yearDay: int)
    requires 0 <= century <= 3 && 0 <= four <= 24 && 0 <= year <= 3 && 0 <= yearDay <= 365
    requires yearDay == 365 ==> year == 3 && (four < 24 || century == 3)
    requires day == 146097 * cycles + 36524 * century + 1461 * four + 365 * year + yearDay - 306
    ensures GregorianYearDay(day) == yearDay
  {
    var n := 36524 * century + 1461 * four + 365 * year + yearDay;
    assert 0 <= n < 146097;
    assert (day + 306) % 146097 == n;
    assert (if n / 36524 == 4 then 3 else n / 36524) == century;
    assert (n - century * 36524) % 1461 == 365 * year + yearDay;
  }

  // Known dates: the first day of 1970, the leap days of 2000 and 2024 and the days around them, the end
  // of 1999, and the end of the February of 2100, which is no leap year.
  lemma KnownDates()
    ensures IsDate(719162, 1, 1, 4)
    ensures IsDate(730118, 12, 31, 5)
    ensures IsDate(730119, 1, 1, 6)
    ensures IsDate(730177, 2, 28, 1)
    ensures IsDate(730178, 2, 29, 2)
    ensures IsDate(730179, 3, 1, 3)
    ensures IsDate(738944, 2, 29, 4)
    ensures IsDate(738945, 3, 1, 5)
    ensures IsDate(766702, 2, 28, 0)
    ensures IsDate(766703, 3, 1, 1)
  {
    hide GregorianYearDay;
    YearDayOf(719162, 4, 3, 17, 1, 306);
    YearDayOf(730118, 4, 3, 24, 3, 305);
    YearDayOf(730119, 4, 3, 24, 3, 306);
    YearDayOf(730177, 4, 3, 24, 3, 364);
    YearDayOf(730178, 4, 3, 24, 3, 365);
    YearDayOf(730179, 5, 0, 0, 0, 0);
    YearDayOf(738944, 5, 0, 5, 3, 365);
    YearDayOf(738945, 5, 0, 6, 0, 0);
    YearDayOf(766702, 5, 0, 24, 3, 364);
    YearDayOf(766703, 5, 1, 0, 0, 0);
  }

  const MARCH_1_2023 := 738579

  // 366 dates are one too few for a yearly expression: once the run of 1 March 2023 has passed,
  // every later date in reach fails to match, although the run of 1 March 2024 is 366 days away.
  lemma YearlyPatternIsMissed(expr: string, now: int)
    requires |Fields(expr)| == 5 && Denotes(Fields(expr)[0], 0, 59, 0) && Denotes(Fields(expr)[1], 0, 23, 0)
    requires forall v | 1 <= v <= 31 :: Denotes(Fields(expr)[2], 1, 31, v) == (v == 1)
    requires forall v | 1 <= v <= 12 :: Denotes(Fields(expr)[3], 1, 12, v) == (v == 3)
    requires Unrestricted(Fields(expr)[4], 0, 6)
    requires forall v | 1 <= v <= 23 :: !Denotes(Fields(expr)[1], 0, 23, v)
    requires forall v | 1 <= v <= 59 :: !Denotes(Fields(expr)[0], 0, 59, v)
    requires ClockTime(MARCH_1_2023, 0, 0, 0) <= now < ClockTime(MARCH_1_2023, 0, 1, 0)
    ensures NoMatchInReach(expr, GREGORIAN, 0, now)
    ensures IsNextRun(expr, GREGORIAN, 0, now, ClockTime(MARCH_1_2023 + 366, 0, 0, 0))
  {
    hide Denotes;
    hide Fields;
    var f := Fields(expr);
    assert !Unrestricted(f[2], 1, 31) by { assert !Denotes(f[2], 1, 31, 2); }
    forall day, hour, minute | MARCH_1_2023 <= day < MARCH_1_2023 + 366 && ClockTime(day, hour, minute, 0) > now
      ensures !Matches(expr, GREGORIAN, day, hour, minute)
    {
      MarchFirst(day);
    }
    MarchFirst(MARCH_1_2023 + 366);
    assert Matches(expr, GREGORIAN, MARCH_1_2023 + 366, 0, 0);
    assert FirstDate(now, 0) == MARCH_1_2023;
    forall day, hour, minute | now < ClockTime(day, hour, minute, 0) < ClockTime(MARCH_1_2023 + 366, 0, 0, 0)
      ensures !Matches(expr, GREGORIAN, day, hour, minute)
    {
      if 0 <= hour <= 23 && 0 <= minute <= 59 {
        NothingBeforeFirstDate(now, 0, day, hour, minute);
      }
    }
  }

  lemma MarchFirst(day: int)
    requires MARCH_1_2023 <= day <= MARCH_1_2023 + 366
    ensures 1 <= GREGORIAN.month(day) <= 12 && 1 <= GREGORIAN.dom(day) <= 31
    ensures GREGORIAN.month(day) == 3 && GREGORIAN.dom(day) == 1
       <==> (day == MARCH_1_2023 || day == MARCH_1_2023 + 366)
  {
    assert (day + 306) % 146097 == day + 306 - 5 * 146097;
    var n := day + 306 - 5 * 146097;
    assert n / 36524 == 0 && n % 1461 == n - (if n < 8766 then 5 else 6) * 1461;
    assert GregorianYearDay(day) == if day == MARCH_1_2023 + 366 then 0 else day - MARCH_1_2023;
  }

  // ----- Daily and weekly schedules -----

  // NextRun for a daily schedule.
  method NextDailyRun(now: int, offset: int, hour: int, minute: int) returns (next: int)
    requires 0 <= hour <= 23 && 0 <= minute <= 59
    ensures next > now && next - now <= DAY && exists day :: next == ClockTime(day, hour, minute, offset)
  {
    var today := LocalDay(now, offset);
    next := ClockTime(today, hour, minute, offset);
    if !(next > now) {
      next := ClockTime(today + 1, hour, minute, offset);
    }
  }

  // The first time after `now` at which the clock shows the given time on the given weekday.
  ghost predicate IsNextWeekly(now: int, offset: int, weekday: int, hour: int, minute: int, next: int) {
    && now < next <= now + 7 * DAY
    && exists day :: next == ClockTime(day, hour, minute, offset) && Weekday(day) == weekday
  }

  lemma NextWeeklyIsUnique(now: int, offset: int, weekday: int, hour: int, minute: int, t: int, u: int)
    requires IsNextWeekly(now, offset, weekday, hour, minute, t) && IsNextWeekly(now, offset, weekday, hour, minute, u)
    ensures t == u
  {
    var d :| t == ClockTime(d, hour, minute, offset) && Weekday(d) == weekday;
    var e :| u == ClockTime(e, hour, minute, offset) && Weekday(e) == weekday;
    hide IsNextWeekly;
    if d < e {
      SameWeekday(d, e);
    } else if e < d {
      SameWeekday(e, d);
    }
  }

  lemma SameWeekday(d: int, e: int)
    requires Weekday(d) == Weekday(e) && d < e
    ensures d + 7 <= e
  {
  }

  // NextRun for a weekly schedule, by modular arithmetic.
  method NextWeeklyRun(now: int, offset: int, targetDay: int, hour: int, minute: int) returns (next: int)
    requires 0 <= targetDay <= 6 && 0 <= hour <= 23 && 0 <= minute <= 59
    ensures IsNextWeekly(now, offset, targetDay, hour, minute, next)
  {
    var today := LocalDay(now, offset);
    next := ClockTime(today, hour, minute, offset);
    var daysAhead := targetDay - Weekday(today);
    if daysAhead < 0 || (daysAhead == 0 && !(next > now)) {
      daysAhead := daysAhead + 7;
    }
    next := ClockTime(today + daysAhead, hour, minute, offset);
    assert Weekday(today + daysAhead) == targetDay;
  }

  lemma AWeekLater(day: int)
    ensures Weekday(day + 7) == Weekday(day)
  {
  }

  // The launchd scheduler's calculation, which tries one date after another. A weekday above 6 would
  // never be met.
  method ComputeNextCalendarRun(now: int, offset: int, hour: int, minute: int, weekday: int) returns (candidate: int)
    requires weekday <= 6 && hour <= 23 && 0 <= minute <= 59
    ensures hour < 0 ==> candidate % HOUR == 0 && now < candidate <= now + HOUR
    ensures hour >= 0 && weekday >= 0 ==> IsNextWeekly(now, offset, weekday, hour, minute, candidate)
    ensures hour >= 0 && weekday < 0 ==>
      now < candidate <= now + DAY && exists day :: candidate == ClockTime(day, hour, minute, offset)
  {
    if hour < 0 {
      return Truncate(now, HOUR) + HOUR;
    }
    var day := LocalDay(now, offset);
    candidate := ClockTime(day, hour, minute, offset);
    hide Weekday;
    hide DaysTo;
    if weekday >= 0 {
      ghost var today := day;
      ghost var steps := 0;
      while Weekday(day) != weekday || !(candidate > now)
        invariant day == today + steps && candidate == ClockTime(day, hour, minute, offset)
        invariant 0 <= steps <= 7
        invariant steps > 0 ==> steps <= DaysTo(today, weekday) || DaysTo(today, weekday) == 0
        invariant steps == 0 || candidate > now
        invariant steps > 0 && DaysTo(today, weekday) == 0 ==> ClockTime(today, hour, minute, offset) <= now
        decreases 7 - steps
      {
        AWeekLater(today);
        day := day + 1;
        candidate := candidate + DAY;
        steps := steps + 1;
      }
    } else {
      if !(candidate > now) {
        candidate := ClockTime(day + 1, hour, minute, offset);
      }
    }
  }

  // ----- The forms agree -----

  predicate DenotesOnly(field: string, lo: int, hi: int, v: int) {
    lo <= v <= hi && forall x | lo <= x <= hi :: Denotes(field, lo, hi, x) == (x == v)
  }

  // `m h * * *`, however it is spelled.
  predicate IsDailyExpression(expr: string, hour: int, minute: int) {
    var f := Fields(expr);
    && |f| == 5 && DenotesOnly(f[0], 0, 59, minute) && DenotesOnly(f[1], 0, 23, hour)
    && Unrestricted(f[2], 1, 31) && Unrestricted(f[3], 1, 12) && Unrestricted(f[4], 0, 6)
  }

  // `m h * * d`, however it is spelled.
  predicate IsWeeklyExpression(expr: string, hour: int, minute: int, weekday: int) {
    var f := Fields(expr);
    && |f| == 5 && DenotesOnly(f[0], 0, 59, minute) && DenotesOnly(f[1], 0, 23, hour)
    && Unrestricted(f[2], 1, 31) && Unrestricted(f[3], 1, 12) && DenotesOnly(f[4], 0, 6, weekday)
  }

  // What NextDailyRun returns is what the search returns for `m h * * *`.
  lemma DailyIsCron(expr: string, cal: Calendar, offset: int, now: int, hour: int, minute: int, day: int)
    requires ValidCalendar(cal) && IsDailyExpression(expr, hour, minute)
    requires now < ClockTime(day, hour, minute, offset) <= now + DAY
    ensures IsNextRun(expr, cal, offset, now, ClockTime(day, hour, minute, offset))
  {
    hide Denotes;
    hide Fields;
    assert Matches(expr, cal, day, hour, minute);
    forall d, h, m | now < ClockTime(d, h, m, offset) < ClockTime(day, hour, minute, offset)
      ensures !Matches(expr, cal, d, h, m)
    {
      if Matches(expr, cal, d, h, m) {
        ClockOrder(d, h, m, day, hour, minute, offset);
        assert false;
      }
    }
  }

  // The modular form, the day-stepping form and the search for `m h * * d` return one instant.
  lemma WeeklyFormsAgree(expr: string, cal: Calendar, offset: int, now: int, weekday: int, hour: int, minute: int,
      modular: int, stepping: int, searched: int)
    requires ValidCalendar(cal) && IsWeeklyExpression(expr, hour, minute, weekday)
    requires IsNextWeekly(now, offset, weekday, hour, minute, modular)
    requires IsNextWeekly(now, offset, weekday, hour, minute, stepping)
    requires IsNextRun(expr, cal, offset, now, searched)
    ensures modular == stepping == searched
  {
    NextWeeklyIsUnique(now, offset, weekday, hour, minute, modular, stepping);
    var day :| modular == ClockTime(day, hour, minute, offset) && Weekday(day) == weekday;
    WeeklyIsCron(expr, cal, offset, now, weekday, hour, minute, day);
    NextRunIsUnique(expr, cal, offset, now, modular, searched);
  }

  lemma WeeklyIsCron(expr: string, cal: Calendar, offset: int, now: int, weekday: int, hour: int, minute: int, day: int)
    requires ValidCalendar(cal) && IsWeeklyExpression(expr, hour, minute, weekday) && Weekday(day) == weekday
    requires now < ClockTime(day, hour, minute, offset) <= now + 7 * DAY
    ensures IsNextRun(expr, cal, offset, now, ClockTime(day, hour, minute, offset))
  {
    hide Denotes;
    hide Fields;
    assert Matches(expr, cal, day, hour, minute);
    forall d, h, m | now < ClockTime(d, h, m, offset) < ClockTime(day, hour, minute, offset)
      ensures !Matches(expr, cal, d, h, m)
    {
      if Matches(expr, cal, d, h, m) {
        SameWeekday(d, day);
        assert false;
      }
    }
  }
}
