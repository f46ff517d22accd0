/** The next run of a schedule: the minute-by-minute search, the daily closed form, and the
    dispatch over schedule kinds. Times are seconds of local time, days have a fixed length,
    and a calendar gives each day its date. */
module CronSearch {
  import opened CronFields
  import opened Text
  import opened Wrappers

  const MINUTE := 60
  const HOUR := 3600
  const DAY := 86400
  const HORIZON := 366 * 24 * 60 * 60
  const LAST_YEAR := 2100

  /** Dates of days counted from an epoch; only the year is known to grow. */
  datatype Calendar = Calendar(year: int -> int, month: int -> nat, dom: int -> nat, dow: int -> nat)

  ghost predicate Advances(cal: Calendar) {
    forall a, b {:trigger cal.year(a), cal.year(b)} | a <= b :: cal.year(a) <= cal.year(b)
  }

  function DayOf(t: int): int {
    t / DAY
  }

  function HourOf(t: int): nat {
    t % DAY / HOUR
  }

  function MinuteOf(t: int): nat {
    t % HOUR / MINUTE
  }

  /** Day of month and day of week are alternatives when both are given. */
  predicate DayMatches(cal: Calendar, f: Fields, day: int) {
    if f.dom == "*" then FieldMatches(cal.dow(day), f.dow)
    else if f.dow == "*" then FieldMatches(cal.dom(day), f.dom)
    else FieldMatches(cal.dom(day), f.dom) || FieldMatches(cal.dow(day), f.dow)
  }

  predicate Matches(cal: Calendar, f: Fields, t: int) {
    && FieldMatches(MinuteOf(t), f.minute) && FieldMatches(HourOf(t), f.hour)
    && FieldMatches(cal.month(DayOf(t)), f.month) && DayMatches(cal, f, DayOf(t))
  }

  /** A whole minute later than now. */
  predicate Candidate(now: int, t: int) {
    t > now && t % MINUTE == 0
  }

  /** Within 366 days, and the minute before it not past the year 2099: the loop tests the
      year before the date fields are normalised. */
  predicate InLimits(cal: Calendar, now: int, t: int) {
    t <= now + HORIZON && cal.year(DayOf(t - MINUTE)) < LAST_YEAR
  }

  /** The least matching minute strictly after now, or none within the limits. */
  ghost predicate IsNextRun(cal: Calendar, f: Fields, now: int, r: Option<int>) {
    match r
    case Some(t) =>
      && Candidate(now, t) && InLimits(cal, now, t) && Matches(cal, f, t)
      && forall u | Candidate(now, u) && u < t :: !Matches(cal, f, u)
    case None =>
      forall u | Candidate(now, u) && InLimits(cal, now, u) :: !Matches(cal, f, u)
  }

  lemma NextRunUnique(cal: Calendar, f: Fields, now: int, a: Option<int>, b: Option<int>)
    requires IsNextRun(cal, f, now, a) && IsNextRun(cal, f, now, b)
    ensures a == b
  {
    hide Matches, InLimits;
  }

  lemma DayBefore(t: int)
    requires t % MINUTE == 0
    ensures DayOf(t - MINUTE) == if t % DAY == 0 then DayOf(t) - 1 else DayOf(t)
  {
    var day, rest := t / DAY, t % DAY;
    assert t == DAY * day + rest;
    if rest == 0 {
      DivDay(day - 1, DAY - MINUTE);
    } else {
      assert rest % MINUTE == 0 by {
        assert t == MINUTE * (1440 * day) + rest;
        DivMinute(1440 * day + rest / MINUTE, rest % MINUTE);
      }
      DivDay(day, rest - MINUTE);
    }
  }

  /** The year limit, read without the lag: every minute up to 2099, and the first minute of a
      year past it that follows one. */
  lemma InLimitsExact(cal: Calendar, now: int, t: int)
    requires Advances(cal) && t % MINUTE == 0
    ensures InLimits(cal, now, t) <==>
            && t <= now + HORIZON
            && (cal.year(DayOf(t)) < LAST_YEAR || (t % DAY == 0 && cal.year(DayOf(t) - 1) < LAST_YEAR))
  {
    DayBefore(t);
    assert cal.year(DayOf(t) - 1) <= cal.year(DayOf(t));
  }

  /** A time that is found lies past 2099 exactly when it is the first minute of that year. */
  lemma FoundPastLimitExact(cal: Calendar, f: Fields, now: int, t: int)
    requires Advances(cal) && IsNextRun(cal, f, now, Some(t))
    ensures cal.year(DayOf(t)) >= LAST_YEAR <==>
            t % DAY == 0 && cal.year(DayOf(t) - 1) < LAST_YEAR <= cal.year(DayOf(t))
  {
    hide Matches;
    InLimitsExact(cal, now, t);
  }

  lemma StarsMatch(cal: Calendar, t: int)
    ensures Matches(cal, Fields("*", "*", "*", "*", "*"), t)
  {
    StarMatches(MinuteOf(t));
    StarMatches(HourOf(t));
    StarMatches(cal.month(DayOf(t)));
    StarMatches(cal.dow(DayOf(t)));
    hide FieldMatches, MinuteOf, HourOf, DayOf;
  }

  lemma NextMinute(now: int, u: int)
    requires now % MINUTE == 0 && Candidate(now, u)
    ensures u >= now + MINUTE
  {
  }

  /** And it does happen: a minute before the year 2100, every-minute fields find its first. */
  lemma FoundPastLimitExample(cal: Calendar, day: int)
    requires Advances(cal) && cal.year(day) < LAST_YEAR <= cal.year(day + 1)
    ensures IsNextRun(cal, Fields("*", "*", "*", "*", "*"), day * DAY + DAY - MINUTE, Some((day + 1) * DAY))
  {
    var f, now, t := Fields("*", "*", "*", "*", "*"), day * DAY + DAY - MINUTE, (day + 1) * DAY;
    DivDay(day, DAY - MINUTE);
    assert t == now + MINUTE && DayOf(t - MINUTE) == day;
    DivMinute(1440 * day + 1439, 0);
    DivMinute(1440 * day + 1440, 0);
    assert now % MINUTE == 0 && Candidate(now, t);
    StarsMatch(cal, t);
    hide Matches, Candidate, DayOf;
    forall u | Candidate(now, u) ensures u >= t {
      NextMinute(now, u);
    }
  }

  lemma DivDay(q: int, r: nat)
    requires r < DAY
    ensures (DAY * q + r) / DAY == q && (DAY * q + r) % DAY == r
  {
  }

  lemma DivHour(q: int, r: nat)
    requires r < HOUR
    ensures (HOUR * q + r) / HOUR == q && (HOUR * q + r) % HOUR == r
  {
  }

  lemma DivMinute(q: int, r: nat)
    requires r < MINUTE
    ensures (MINUTE * q + r) / MINUTE == q && (MINUTE * q + r) % MINUTE == r
  {
  }

  lemma FieldsOf(day: int, hour: nat, minute: nat, second: nat)
    requires hour < 24 && minute < 60 && second < MINUTE
    ensures var t := day * DAY + hour * HOUR + minute * MINUTE + second;
            && DayOf(t) == day && HourOf(t) == hour && MinuteOf(t) == minute && t % MINUTE == second
  {
    var left := minute * MINUTE + second;
    DivDay(day, hour * HOUR + left);
    DivHour(hour, left);
    DivHour(day * 24 + hour, left);
    DivMinute(minute, second);
    DivMinute(day * 1440 + hour * 60 + minute, second);
  }

  /** Every time is its broken-down fields put together again. */
  lemma BreakDown(t: int)
    ensures DayOf(t) * DAY + HourOf(t) * HOUR + MinuteOf(t) * MINUTE + t % MINUTE == t
    ensures HourOf(t) < 24 && MinuteOf(t) < 60
  {
    var day, rest := t / DAY, t % DAY;
    var hour, left := rest / HOUR, rest % HOUR;
    assert t == day * DAY + hour * HOUR + left / MINUTE * MINUTE + left % MINUTE;
    FieldsOf(day, hour, left / MINUTE, left % MINUTE);
  }

  method DayFieldsMatch(cal: Calendar, f: Fields, day: int) returns (r: bool)
    ensures r == DayMatches(cal, f, day)
  {
    var dom := CronFieldMatches(cal.dom(day), f.dom);
    var dow := CronFieldMatches(cal.dow(day), f.dow);
    r := (f.dom == "*" && f.dow == "*")
      || (f.dom != "*" && dom)
      || (f.dow != "*" && dow)
      || (f.dom == "*" && dow)
      || (f.dow == "*" && dom);
  }

  method TimeMatches(cal: Calendar, f: Fields, day: int, hour: nat, minute: nat) returns (r: bool)
    ensures r == (FieldMatches(minute, f.minute) && FieldMatches(hour, f.hour)
                  && FieldMatches(cal.month(day), f.month) && DayMatches(cal, f, day))
  {
    var m := CronFieldMatches(minute, f.minute);
    var h := CronFieldMatches(hour, f.hour);
    var mon := CronFieldMatches(cal.month(day), f.month);
    var d := DayFieldsMatch(cal, f, day);
    r := m && h && mon && d;
  }

  /** The search. `year` is what the last normalisation found, so it lags by one minute. */
  method SearchNextRun(cal: Calendar, f: Fields, now: int) returns (r: Option<int>)
    requires Advances(cal)
    ensures IsNextRun(cal, f, now, r)
  {
    hide FieldMatches, DayMatches;
    var day, hour, minute := DayOf(now), HourOf(now), MinuteOf(now);
    var year := cal.year(day);
    ghost var next := now - now % MINUTE + MINUTE;
    FirstCandidate(now);
    minute := minute + 1;
    var end := now + HORIZON;
    while year < LAST_YEAR
      invariant day * DAY + hour * HOUR + minute * MINUTE == next
      invariant Candidate(now, next)
      invariant year == cal.year(DayOf(next - MINUTE))
      invariant forall u | Candidate(now, u) && u < next :: !Matches(cal, f, u)
      decreases end + MINUTE - next
    {
      // mktime normalises every field of the broken-down time
      var check := day * DAY + hour * HOUR + minute * MINUTE;
      day, hour, minute := DayOf(check), HourOf(check), MinuteOf(check);
      year := cal.year(day);
      BreakDown(check);
      if check > end {
        return None;
      }
      var matches := TimeMatches(cal, f, day, hour, minute);
      if matches {
        return Some(check);
      }
      minute := minute + 1;
      if minute >= 60 {
        minute := 0;
        hour := hour + 1;
        if hour >= 24 {
          hour := 0;
          day := day + 1;
        }
      }
      NextCandidate(now, next);
      next := next + MINUTE;
    }
    YearPassed(cal, f, now, next);
    return None;
  }

  lemma FirstCandidate(now: int)
    ensures var next := now - now % MINUTE + MINUTE;
            && Candidate(now, next) && (forall u | Candidate(now, u) :: u >= next)
            && DayOf(next - MINUTE) == DayOf(now)
            && DayOf(now) * DAY + HourOf(now) * HOUR + (MinuteOf(now) + 1) * MINUTE == next
  {
    BreakDown(now);
    FieldsOf(DayOf(now), HourOf(now), MinuteOf(now), 0);
  }

  lemma NextCandidate(now: int, t: int)
    requires Candidate(now, t)
    ensures Candidate(now, t + MINUTE)
    ensures forall u | Candidate(now, u) && u < t + MINUTE :: u <= t
  {
  }

  lemma YearPassed(cal: Calendar, f: Fields, now: int, next: int)
    requires Advances(cal) && cal.year(DayOf(next - MINUTE)) >= LAST_YEAR
    requires forall u | Candidate(now, u) && u < next :: !Matches(cal, f, u)
    ensures IsNextRun(cal, f, now, None)
  {
    hide Matches;
    forall u | Candidate(now, u) && InLimits(cal, now, u) ensures u < next {
      assert next <= u ==> DayOf(next - MINUTE) <= DayOf(u - MINUTE);
    }
  }

  method ParseStandardCron(cal: Calendar, schedule: string, now: int) returns (r: Option<int>)
    requires Advances(cal)
    ensures match ParseFields(schedule) { case None => r == None case Some(f) => IsNextRun(cal, f, now, r) }
  {
    hide IsNextRun;
    var f := ParseFields(schedule);
    if f.None? {
      return None;
    }
    r := SearchNextRun(cal, f.value, now);
  }

  // ----- every day at one time

  function DailyFields(hour: nat, minute: nat): Fields {
    Fields(Show(minute), Show(hour), "*", "*", "*")
  }

  function NextDaily(now: int, hour: nat, minute: nat): int {
    var t := DayOf(now) * DAY + hour * HOUR + minute * MINUTE;
    if t <= now then t + DAY else t
  }

  method NextDailyRun(now: int, hour: nat, minute: nat) returns (next: int)
    requires hour < 24 && minute < 60
    ensures next == NextDaily(now, hour, minute)
  {
    var day := DayOf(now);
    next := day * DAY + hour * HOUR + minute * MINUTE;
    if next <= now {
      day := day + 1;
      next := day * DAY + hour * HOUR + minute * MINUTE;
    }
  }

  lemma DailyMatches(cal: Calendar, hour: nat, minute: nat, t: int)
    ensures Matches(cal, DailyFields(hour, minute), t) <==> HourOf(t) == hour && MinuteOf(t) == minute
  {
    FieldMeansSpec(OneOf([minute]), MinuteOf(t));
    FieldMeansSpec(OneOf([hour]), HourOf(t));
    hide FieldMatches, Show;
    assert FieldMatches(cal.month(DayOf(t)), "*") && FieldMatches(cal.dow(DayOf(t)), "*") by {
      StarMatches(cal.month(DayOf(t)));
      StarMatches(cal.dow(DayOf(t)));
    }
    assert OneOf([minute]).Text() == Show(minute) && OneOf([hour]).Text() == Show(hour);
  }

  lemma StarMatches(value: nat)
    ensures FieldMatches(value, "*")
  {
  }

  /** No matching minute lies between now and the closed form. */
  lemma DailyIsLeast(now: int, hour: nat, minute: nat, u: int)
    requires hour < 24 && minute < 60
    requires Candidate(now, u) && HourOf(u) == hour && MinuteOf(u) == minute
    ensures u >= NextDaily(now, hour, minute)
  {
    BreakDown(u);
    BreakDown(now);
    var day, at := DayOf(now), hour * HOUR + minute * MINUTE;
    assert u == DayOf(u) * DAY + at;
    assert day * DAY <= now < day * DAY + DAY;
  }

  lemma DailyIsCandidate(now: int, hour: nat, minute: nat)
    requires hour < 24 && minute < 60
    ensures var t := NextDaily(now, hour, minute);
            Candidate(now, t) && t <= now + DAY && HourOf(t) == hour && MinuteOf(t) == minute
  {
    var day := DayOf(now);
    FieldsOf(day, hour, minute, 0);
    FieldsOf(day + 1, hour, minute, 0);
    BreakDown(now);
  }

  /** For a daily schedule the closed form is what the search finds, up to its year limit. */
  lemma DailyIsSearch(cal: Calendar, now: int, hour: nat, minute: nat)
    requires Advances(cal) && hour < 24 && minute < 60
    ensures var t := NextDaily(now, hour, minute);
            IsNextRun(cal, DailyFields(hour, minute), now,
                      if cal.year(DayOf(t - MINUTE)) < LAST_YEAR then Some(t) else None)
  {
    hide Matches, DailyFields, NextDaily, HourOf, MinuteOf;
    var t, f := NextDaily(now, hour, minute), DailyFields(hour, minute);
    DailyIsCandidate(now, hour, minute);
    DailyMatches(cal, hour, minute, t);
    forall u | Candidate(now, u) && Matches(cal, f, u) ensures u >= t && cal.year(DayOf(t - MINUTE)) <= cal.year(DayOf(u - MINUTE)) {
      DailyMatches(cal, hour, minute, u);
      DailyIsLeast(now, hour, minute, u);
      assert DayOf(t - MINUTE) <= DayOf(u - MINUTE);
    }
  }

  // ----- the older daily form, and the dispatch over schedule kinds

  /** `%d`: optional space and sign, then at least one digit. */
  function ScanInt(s: string): Option<(int, string)> {
    var t := SkipSpace(s);
    var signed := t != [] && (t[0] == '-' || t[0] == '+');
    var u := if signed then t[1..] else t;
    var n := LeadingDigits(u);
    if n == 0 then None
    else Some((if signed && t[0] == '-' then -(Value(u[..n]) as int) else Value(u[..n]), u[n..]))
  }

  /** Two numbers and exactly three stars: an hour and a minute. */
  function ParseDaily(schedule: string): (r: Option<(nat, nat)>)
    ensures r.Some? ==> r.value.0 < 24 && r.value.1 < 60
  {
    match ScanInt(schedule)
    case None => None
    case Some((minute, afterMinute)) =>
      match ScanInt(afterMinute)
      case None => None
      case Some((hour, afterHour)) =>
        if 0 <= hour <= 23 && 0 <= minute <= 59
           && Tokens(afterHour, 3) == Some(["*", "*", "*"]) && Tokens(afterHour, 4) == None
        then Some((hour, minute))
        else None
  }

  datatype Outcome = Invalid | OneTime(next: int) | Recurring(next: int)

  function Positive(n: int, otherwise: nat): nat
    requires otherwise > 0
  {
    if n <= 0 then otherwise else n
  }

  /** The forms that need no calendar. */
  function FixedOutcome(schedule: Option<string>, now: int): Option<Outcome> {
    if schedule.None? || schedule.value == "" then Some(OneTime(now))
    else if "@every " <= schedule.value then Some(Recurring(now + Positive(Atoi(schedule.value[7..]), 60)))
    else if "@in " <= schedule.value then Some(OneTime(now + Positive(Atoi(schedule.value[4..]), 1)))
    else if "@at " <= schedule.value then Some(OneTime(Atoi(schedule.value[4..])))
    else None
  }

  /** What a schedule asks for at a given time. */
  ghost predicate IsOutcome(cal: Calendar, schedule: Option<string>, now: int, o: Outcome) {
    match FixedOutcome(schedule, now)
    case Some(fixed) => o == fixed
    case None => IsCalendarOutcome(cal, schedule.value, now, o)
  }

  ghost predicate IsCalendarOutcome(cal: Calendar, schedule: string, now: int, o: Outcome) {
    var fields := ParseFields(schedule);
    if fields.Some? && !IsNextRun(cal, fields.value, now, None) then
      o.Recurring? && IsNextRun(cal, fields.value, now, Some(o.next))
    else
      match ParseDaily(schedule)
      case Some((hour, minute)) => o == Recurring(NextDaily(now, hour, minute))
      case None => o == Invalid
  }

  method ScheduleNextRun(cal: Calendar, schedule: Option<string>, now: int) returns (o: Outcome)
    requires Advances(cal)
    ensures IsOutcome(cal, schedule, now, o)
  {
    hide IsNextRun, Atoi, ParseFields, ParseDaily, NextDaily;
    if schedule.None? || schedule.value == "" {
      return OneTime(now);
    }
    var s := schedule.value;
    if "@every " <= s {
      var interval := ReadInt(s[7..]);
      return Recurring(now + Positive(interval, 60));
    }
    if "@in " <= s {
      var delay := ReadInt(s[4..]);
      return OneTime(now + Positive(delay, 1));
    }
    if "@at " <= s {
      var timestamp := ReadInt(s[4..]);
      return OneTime(timestamp);
    }
    var standard := ParseStandardCron(cal, s, now);
    if standard.Some? {
      NotBoth(cal, ParseFields(s).value, now, standard.value);
      return Recurring(standard.value);
    }
    var daily := ParseDaily(s);
    if daily.Some? {
      ParseDailyInRange(s);
      var next := NextDailyRun(now, daily.value.0, daily.value.1);
      return Recurring(next);
    }
    return Invalid;
  }

  lemma ParseDailyInRange(s: string)
    requires ParseDaily(s).Some?
    ensures ParseDaily(s).value.0 < 24 && ParseDaily(s).value.1 < 60
  {
  }

  lemma NotBoth(cal: Calendar, f: Fields, now: int, t: int)
    requires IsNextRun(cal, f, now, Some(t))
    ensures !IsNextRun(cal, f, now, None)
  {
    hide Matches, InLimits;
  }

  /** A recurring schedule is always rescheduled strictly later than now. */
  lemma RecurringIsLater(cal: Calendar, schedule: Option<string>, now: int, o: Outcome)
    requires IsOutcome(cal, schedule, now, o) && o.Recurring?
    ensures o.next > now
  {
    hide Matches, InLimits, Atoi, ParseFields, ParseDaily;
    assert forall hour: nat, minute: nat | hour < 24 && minute < 60 :: NextDaily(now, hour, minute) > now by {
      forall hour: nat, minute: nat | hour < 24 && minute < 60 ensures NextDaily(now, hour, minute) > now {
        DailyIsCandidate(now, hour, minute);
      }
    }
    if schedule.Some? {
      if ParseDaily(schedule.value).Some? {
        ParseDailyInRange(schedule.value);
      }
    }
  }

  /** The outcome is a function of the schedule and the time. */
  lemma OutcomeUnique(cal: Calendar, schedule: Option<string>, now: int, a: Outcome, b: Outcome)
    requires IsOutcome(cal, schedule, now, a) && IsOutcome(cal, schedule, now, b)
    ensures a == b
  {
    hide IsNextRun, Atoi, ParseFields, ParseDaily, NextDaily;
    if schedule.Some? && a.Recurring? && b.Recurring? && ParseFields(schedule.value).Some? {
      var f := ParseFields(schedule.value).value;
      if IsNextRun(cal, f, now, Some(a.next)) && IsNextRun(cal, f, now, Some(b.next)) {
        NextRunUnique(cal, f, now, Some(a.next), Some(b.next));
      }
    }
  }

  lemma LeastMatch(cal: Calendar, f: Fields, now: int, u: int) returns (t: int)
    requires Advances(cal)
    requires Candidate(now, u) && InLimits(cal, now, u) && Matches(cal, f, u)
    ensures IsNextRun(cal, f, now, Some(t))
    decreases u - now
  {
    hide Matches;
    if v :| Candidate(now, v) && v < u && Matches(cal, f, v) {
      assert DayOf(v - MINUTE) <= DayOf(u - MINUTE);
      t := LeastMatch(cal, f, now, v);
    } else {
      t := u;
    }
  }

  lemma OutcomeExists(cal: Calendar, schedule: Option<string>, now: int) returns (o: Outcome)
    requires Advances(cal)
    ensures IsOutcome(cal, schedule, now, o)
  {
    hide Matches, InLimits, Candidate, Atoi, ParseFields, ParseDaily, NextDaily;
    var fixed := FixedOutcome(schedule, now);
    if fixed.Some? {
      o := fixed.value;
    } else {
      var s := schedule.value;
      var fields := ParseFields(s);
      if fields.Some? && !IsNextRun(cal, fields.value, now, None) {
        var u :| Candidate(now, u) && InLimits(cal, now, u) && Matches(cal, fields.value, u);
        var t := LeastMatch(cal, fields.value, now, u);
        o := Recurring(t);
      } else {
        var daily := ParseDaily(s);
        o := if daily.Some? then Recurring(NextDaily(now, daily.value.0, daily.value.1)) else Invalid;
      }
    }
  }

  /** The one outcome of a schedule. */
  ghost function OutcomeOf(cal: Calendar, schedule: Option<string>, now: int): (o: Outcome)
    requires Advances(cal)
    ensures IsOutcome(cal, schedule, now, o)
  {
    hide IsOutcome;
    assert exists o :: IsOutcome(cal, schedule, now, o) by {
      var o := OutcomeExists(cal, schedule, now);
    }
    var o :| IsOutcome(cal, schedule, now, o);
    o
  }

  // ----- "M H * * *"

  const STARS := ["*", "*", "*"]

  /** Words, each after one space. */
  function Spaced(words: seq<string>): string {
    if words == [] then "" else " " + (words[0] + Spaced(words[1..]))
  }

  function DailyText(hour: nat, minute: nat): string {
    Show(minute) + AfterMinute(hour)
  }

  function AfterMinute(hour: nat): string {
    " " + (Show(hour) + Spaced(STARS))
  }

  lemma ScanShown(n: nat, rest: string)
    requires rest != [] ==> !IsDigit(rest[0])
    ensures ScanInt(Show(n) + rest) == Some((n, rest))
    ensures ScanInt(" " + (Show(n) + rest)) == Some((n, rest))
  {
    var s := Show(n) + rest;
    assert IsDigit(Show(n)[0]) && s[0] == Show(n)[0];
    LeadingDigitsOf(Show(n), rest);
    assert s[..|Show(n)|] == Show(n) && s[|Show(n)|..] == rest;
    ValueOfShow(n);
    assert (" " + s)[1..] == s;
    assert SkipSpace(" " + s) == s == SkipSpace(s);
  }

  lemma SpacedStart(words: seq<string>)
    ensures words != [] ==> Spaced(words) == " " + (words[0] + Spaced(words[1..]))
    ensures Spaced(words) != [] ==> IsSpace(Spaced(words)[0]) && !IsDigit(Spaced(words)[0])
  {
  }

  lemma SpacedNothing(words: seq<string>, n: nat)
    requires words == []
    ensures Tokens(Spaced(words), n) == if n == 0 then Some(words) else None
  {
    assert TakeToken("") == ("", "");
  }

  /** Short words come back as that many tokens, and no more. */
  lemma {:induction false} SpacedTokens(words: seq<string>, more: nat)
    requires forall w | w in words :: IsWord(w) && |w| <= WIDTH
    ensures Tokens(Spaced(words), |words| + more) == if more == 0 then Some(words) else None
  {
    hide *;
    if words == [] {
      SpacedNothing(words, more);
    } else {
      var w, rest := words[0], Spaced(words[1..]);
      assert w in words;
      SpacedTokens(words[1..], more);
      SpacedStart(words);
      SpacedStart(words[1..]);
      TokensAfter(w, rest, |words| - 1 + more);
      AfterSpace(w + rest, |words| + more);
      assert [w] + words[1..] == words;
    }
  }

  lemma StarsAreWords()
    ensures forall w | w in STARS :: IsWord(w) && |w| <= WIDTH
  {
    assert IsWord("*");
  }

  lemma ThreeWords(words: seq<string>)
    requires |words| == 3 && forall w | w in words :: IsWord(w) && |w| <= WIDTH
    ensures Tokens(Spaced(words), 3) == Some(words) && Tokens(Spaced(words), 4) == None
    ensures Spaced(words) != [] && IsSpace(Spaced(words)[0]) && !IsDigit(Spaced(words)[0])
  {
    hide *;
    SpacedStart(words);
    SpacedTokens(words, 0);
    SpacedTokens(words, 1);
  }

  lemma StarWords()
    ensures Tokens(Spaced(STARS), 3) == Some(STARS) && Tokens(Spaced(STARS), 4) == None
    ensures Spaced(STARS) != [] && IsSpace(Spaced(STARS)[0]) && !IsDigit(Spaced(STARS)[0])
  {
    hide IsWord, Tokens, Spaced, IsSpace, IsDigit;
    StarsAreWords();
    ThreeWords(STARS);
  }

  lemma DailyTextIsDaily(hour: nat, minute: nat)
    requires hour < 24 && minute < 60
    ensures ParseDaily(DailyText(hour, minute)) == Some((hour, minute))
  {
    StarWords();
    hide Show, ScanInt, IsWord, IsSpace, Tokens, Spaced;
    ScanShown(hour, Spaced(STARS));
    ScanShown(minute, AfterMinute(hour));
  }

  lemma HourTokens(hour: nat)
    requires hour < 24
    ensures Tokens(AfterMinute(hour), 4) == Some([Show(hour)] + STARS)
  {
    ShortWord(hour);
    StarWords();
    AfterSpace(Show(hour) + Spaced(STARS), 4);
    hide Show, IsWord, IsSpace, Tokens, Spaced;
    TokensAfter(Show(hour), Spaced(STARS), 3);
  }

  lemma FiveFields(s: string, minute: string, hour: string)
    requires s != [] && s[0] != '@' && Tokens(s, 5) == Some([minute] + ([hour] + STARS))
    ensures ParseFields(s) == Some(Fields(minute, hour, "*", "*", "*"))
  {
    assert [minute] + ([hour] + STARS) == [minute, hour, "*", "*", "*"];
    hide Tokens;
  }

  lemma DailyTextIsFields(hour: nat, minute: nat)
    requires hour < 24 && minute < 60
    ensures ParseFields(DailyText(hour, minute)) == Some(DailyFields(hour, minute))
  {
    assert AfterMinute(hour)[0] == ' ' && STARS == ["*", "*", "*"];
    hide Show, IsWord, IsSpace, Tokens, Spaced, AfterMinute;
    ShortWord(minute);
    HourTokens(hour);
    SpaceIsSpace();
    TokensAfter(Show(minute), AfterMinute(hour), 4);
    NotAt(minute, AfterMinute(hour));
    FiveFields(DailyText(hour, minute), Show(minute), Show(hour));
  }

  lemma AfterSpace(s: string, n: nat)
    requires n > 0
    ensures Tokens(" " + s, n) == Tokens(s, n)
  {
    SkipOneSpace(s);
  }

  lemma ShortWord(n: nat)
    requires n < 60
    ensures IsWord(Show(n)) && |Show(n)| <= WIDTH
  {
    assert forall i | 0 <= i < |Show(n)| :: IsDigit(Show(n)[i]);
  }

  lemma NotAt(n: nat, rest: string)
    ensures (Show(n) + rest)[0] != '@'
  {
    assert IsDigit(Show(n)[0]);
  }

  /** "M H * * *" runs every day at that time, whichever of the two paths computes it. */
  lemma DailyScheduleOutcome(cal: Calendar, now: int, hour: nat, minute: nat, o: Outcome)
    requires Advances(cal) && hour < 24 && minute < 60
    requires IsOutcome(cal, Some(DailyText(hour, minute)), now, o)
    ensures o == Recurring(NextDaily(now, hour, minute))
  {
    var s, f := DailyText(hour, minute), DailyFields(hour, minute);
    var t := NextDaily(now, hour, minute);
    NotAt(minute, AfterMinute(hour));
    DailyTextIsDaily(hour, minute);
    DailyTextIsFields(hour, minute);
    DailyIsSearch(cal, now, hour, minute);
    hide IsNextRun, DailyText, DailyFields, NextDaily, Atoi, ParseDaily, ParseFields, Show;
    if cal.year(DayOf(t - MINUTE)) < LAST_YEAR {
      NotBoth(cal, f, now, t);
      if o.Recurring? && IsNextRun(cal, f, now, Some(o.next)) {
        NextRunUnique(cal, f, now, Some(o.next), Some(t));
      }
    }
  }
}
