// Schedules repeat every week, so what they report at all instants can be read off the
// minutes of one week.
module Weeks {
  import opened Basics
  import opened Ordering
  import opened Schedule
  import opened Policies
  import opened Recency

  const MINUTES_PER_WEEK := 7 * MINUTES_PER_DAY
  const NANOS_PER_WEEK := 7 * NANOS_PER_DAY

  // The instance a compiled schedule reports at a local minute.
  function InstanceAt(windows: seq<Window>, minute: int): InstanceID
    requires AllValid(windows)
  {
    var names := MatchingNames(windows, minute);
    if names == [] then NoInstance
    else
      match FirstNamed(windows, Sort(names)[0])
      case None => NoInstance
      case Some(w) => if ValidWindow(w) then Instance(Sort(names)[0], InstanceDay(w, minute)) else NoInstance
  }

  lemma ReportedIff(schedule: DownSchedule, id: InstanceID, nanos: int)
    requires CompiledSchedule(schedule) && id.Instance?
    ensures ReportedAt(schedule, id, nanos)
       <==> InstanceAt(schedule.windows, LocalMinute(Time(nanos, 0), schedule.zone.offset)) == id
  {
    var DownSchedule(zone, windows) := schedule;
    var now := Time(nanos, 0);
    MatchReportsLeastName(now, zone.offset, windows);
    var matched := Schedule.MatchResult(now, zone, windows).value;
    if matched.Some? {
      InstanceNamesTheOccurrence(now, zone.offset, windows, matched.value);
      assert matched.value != "";
    }
  }

  // ----- One week later -----

  // The same instance a week later.
  function NextInstance(id: InstanceID): InstanceID {
    match id
    case NoInstance => NoInstance
    case Instance(name, day) => Instance(name, day + 7)
  }

  lemma MinuteRepeats(minute: int)
    ensures DayOf(minute + MINUTES_PER_WEEK) == DayOf(minute) + 7
    ensures MinuteOfDay(minute + MINUTES_PER_WEEK) == MinuteOfDay(minute)
  {}

  lemma DayRepeats(day: int)
    ensures FromWeekday(day + 7) == FromWeekday(day)
  {}

  lemma MatchesRepeats(w: Window, minute: int)
    ensures Matches(w, minute + MINUTES_PER_WEEK) == Matches(w, minute)
  {
    MinuteRepeats(minute);
    DayRepeats(DayOf(minute));
    DayRepeats(DayOf(minute) - 1);
  }

  lemma {:induction false} MatchingNamesRepeat(windows: seq<Window>, minute: int)
    requires AllValid(windows)
    ensures MatchingNames(windows, minute + MINUTES_PER_WEEK) == MatchingNames(windows, minute)
  {
    if windows != [] {
      MatchesRepeats(windows[0], minute);
      MatchingNamesRepeat(windows[1..], minute);
    }
  }

  // Every week reports the instances of the week before, seven days on.
  lemma InstanceRepeats(windows: seq<Window>, minute: int)
    requires AllValid(windows)
    ensures InstanceAt(windows, minute + MINUTES_PER_WEEK) == NextInstance(InstanceAt(windows, minute))
  {
    MatchingNamesRepeat(windows, minute);
    MinuteRepeats(minute);
  }

  lemma ReportRepeats(schedule: DownSchedule, id: InstanceID, nanos: int)
    requires CompiledSchedule(schedule) && id.Instance? && ReportedAt(schedule, id, nanos)
    ensures ReportedAt(schedule, NextInstance(id), nanos + NANOS_PER_WEEK)
  {
    var minute := LocalMinute(Time(nanos, 0), schedule.zone.offset);
    assert LocalMinute(Time(nanos + NANOS_PER_WEEK, 0), schedule.zone.offset) == minute + MINUTES_PER_WEEK;
    InstanceRepeats(schedule.windows, minute);
    ReportedIff(schedule, id, nanos);
    ReportedIff(schedule, NextInstance(id), nanos + NANOS_PER_WEEK);
  }

  // Two reports of one instance, by one schedule or two, have counterparts, as far apart,
  // after any given time.
  lemma {:induction false} ReportedAgain(past: DownSchedule, current: DownSchedule,
                                         id: InstanceID, first: int, second: int, since: int)
    returns (later: InstanceID, a: int, b: int)
    requires CompiledSchedule(past) && CompiledSchedule(current) && id.Instance?
    requires ReportedAt(past, id, first) && ReportedAt(current, id, second)
    ensures later.Instance? && ReportedAt(past, later, a) && ReportedAt(current, later, b)
    ensures a > since && b - a == second - first
    decreases since - first
  {
    if first > since {
      later, a, b := id, first, second;
    } else {
      ReportRepeats(past, id, first);
      ReportRepeats(current, id, second);
      later, a, b :=
        ReportedAgain(past, current, NextInstance(id), first + NANOS_PER_WEEK, second + NANOS_PER_WEEK, since);
    }
  }

  // ----- One week decides -----

  // The past schedule reports at its local minute first the instance that the current one
  // reports at its local minute last.
  predicate OneInstance(past: seq<Window>, current: seq<Window>, first: int, last: int)
    requires AllValid(past) && AllValid(current)
  {
    InstanceAt(past, first).Instance? && InstanceAt(current, last) == InstanceAt(past, first)
  }

  // From the start of the one minute to the end of the other.
  function Lasting(past: DownSchedule, current: DownSchedule, first: int, last: int): int
    requires past.zone.Fixed? && current.zone.Fixed?
  {
    (last + 1 - first) * NANOS_PER_MINUTE + past.zone.offset - current.zone.offset
  }

  // No instance of the past schedule is reported by the current one more than maxAge later.
  // The quantifiers are bounded: this can be evaluated before a policy is used.
  predicate InstancesFit(past: DownSchedule, current: DownSchedule, maxAge: int)
    requires CompiledSchedule(past) && CompiledSchedule(current)
  {
    forall first, last ::
      && 0 <= first < MINUTES_PER_WEEK && first - 2 * MINUTES_PER_DAY < last < first + 2 * MINUTES_PER_DAY
      && OneInstance(past.windows, current.windows, first, last)
      ==> Lasting(past, current, first, last) <= maxAge
  }

  lemma MatchedOccurs(windows: seq<Window>, minute: int)
    requires AllValid(windows) && UniqueNames(windows) && InstanceAt(windows, minute).Instance?
    ensures var id := InstanceAt(windows, minute);
      && FirstNamed(windows, id.name).Some? && ValidWindow(FirstNamed(windows, id.name).value)
      && Occurs(FirstNamed(windows, id.name).value, id.startDay, minute)
  {
    var names := MatchingNames(windows, minute);
    var id := InstanceAt(windows, minute);
    SortHeadIsLeast(names);
    MatchingNamesCover(windows, minute, id.name);
    CoveringWindowIsFirstNamed(windows, id.name, minute);
    MatchesIffOccurs(FirstNamed(windows, id.name).value, minute);
  }

  // Two minutes of one instance are less than two days apart.
  lemma OneInstanceIsShort(past: seq<Window>, current: seq<Window>, first: int, last: int)
    requires AllValid(past) && UniqueNames(past) && AllValid(current) && UniqueNames(current)
    requires OneInstance(past, current, first, last)
    ensures first - 2 * MINUTES_PER_DAY < last < first + 2 * MINUTES_PER_DAY
  {
    MatchedOccurs(past, first);
    MatchedOccurs(current, last);
  }

  lemma OneInstanceRepeats(past: seq<Window>, current: seq<Window>, first: int, last: int, a: int, b: int)
    requires AllValid(past) && AllValid(current) && a == first + MINUTES_PER_WEEK && b == last + MINUTES_PER_WEEK
    ensures OneInstance(past, current, first, last) <==> OneInstance(past, current, a, b)
  {
    InstanceRepeats(past, first);
    InstanceRepeats(current, last);
  }

  lemma FitAt(past: DownSchedule, current: DownSchedule, maxAge: int, first: int, last: int)
    requires CompiledSchedule(past) && CompiledSchedule(current) && InstancesFit(past, current, maxAge)
    requires 0 <= first < MINUTES_PER_WEEK && first - 2 * MINUTES_PER_DAY < last < first + 2 * MINUTES_PER_DAY
    requires OneInstance(past.windows, current.windows, first, last)
    ensures Lasting(past, current, first, last) <= maxAge
  {}

  // What fits in the first week fits in every other week.
  lemma {:induction false} FitOverAllTime(past: DownSchedule, current: DownSchedule, maxAge: int, first: int, last: int)
    requires CompiledSchedule(past) && CompiledSchedule(current) && InstancesFit(past, current, maxAge)
    requires OneInstance(past.windows, current.windows, first, last)
    ensures Lasting(past, current, first, last) <= maxAge
    decreases first < 0, if first < 0 then -first else first
  {
    OneInstanceIsShort(past.windows, current.windows, first, last);
    if 0 <= first < MINUTES_PER_WEEK {
      FitAt(past, current, maxAge, first, last);
    } else {
      var step := if first < 0 then MINUTES_PER_WEEK else -MINUTES_PER_WEEK;
      var a, b := first + step, last + step;
      if first < 0 {
        OneInstanceRepeats(past.windows, current.windows, first, last, a, b);
      } else {
        OneInstanceRepeats(past.windows, current.windows, a, b, first, last);
      }
      FitOverAllTime(past, current, maxAge, a, b);
    }
  }

  lemma MinuteBounds(nanos: int, offset: int)
    ensures var minute := LocalMinute(Time(nanos, 0), offset);
      minute * NANOS_PER_MINUTE <= nanos + offset < (minute + 1) * NANOS_PER_MINUTE
  {}

  lemma FitMeansOutlived(past: DownSchedule, current: DownSchedule,
                         maxAge: int, id: InstanceID, first: int, second: int)
    requires CompiledSchedule(past) && CompiledSchedule(current) && InstancesFit(past, current, maxAge)
    requires id.Instance? && ReportedAt(past, id, first) && ReportedAt(current, id, second)
    ensures second < first + maxAge
  {
    var a, b := LocalMinute(Time(first, 0), past.zone.offset), LocalMinute(Time(second, 0), current.zone.offset);
    ReportedIff(past, id, first);
    ReportedIff(current, id, second);
    MinuteBounds(first, past.zone.offset);
    MinuteBounds(second, current.zone.offset);
    FitOverAllTime(past, current, maxAge, a, b);
  }

  // The shared instance is reported from the start of the one minute to the end of the other.
  lemma OneInstanceReported(past: DownSchedule, current: DownSchedule, first: int, last: int)
    returns (start: int, end: int)
    requires CompiledSchedule(past) && CompiledSchedule(current)
    requires OneInstance(past.windows, current.windows, first, last)
    ensures end + 1 - start == Lasting(past, current, first, last)
    ensures ReportedAt(past, InstanceAt(past.windows, first), start)
    ensures ReportedAt(current, InstanceAt(past.windows, first), end)
  {
    start, end := MinuteEnds(first, past.zone.offset, last, current.zone.offset);
    ReportedIff(past, InstanceAt(past.windows, first), start);
    ReportedIff(current, InstanceAt(past.windows, first), end);
  }

  lemma MinuteEnds(first: int, offset: int, last: int, other: int) returns (start: int, end: int)
    ensures end + 1 - start == (last + 1 - first) * NANOS_PER_MINUTE + offset - other
    ensures LocalMinute(Time(start, 0), offset) == first && LocalMinute(Time(end, 0), other) == last
  {
    start, end := first * NANOS_PER_MINUTE - offset, (last + 1) * NANOS_PER_MINUTE - other - 1;
  }

  // Whether an instance of one schedule is reported by another, or by itself, maxAge later at
  // any time is decided by the minutes of one week, however windows overlap.
  lemma OutlivesIff(maxAge: int, past: DownSchedule, current: DownSchedule)
    requires CompiledSchedule(past) && CompiledSchedule(current)
    ensures Outlives(maxAge, {past}, current) <==> InstancesFit(past, current, maxAge)
  {
    if InstancesFit(past, current, maxAge) {
      forall id: InstanceID, first: int, second: int
        | id.Instance? && Reported({past}, id, first) && ReportedAt(current, id, second)
        ensures second < first + maxAge
      {
        FitMeansOutlived(past, current, maxAge, id, first, second);
      }
    } else {
      var first, last :|
        && 0 <= first < MINUTES_PER_WEEK && first - 2 * MINUTES_PER_DAY < last < first + 2 * MINUTES_PER_DAY
        && OneInstance(past.windows, current.windows, first, last) && Lasting(past, current, first, last) > maxAge;
      var start, end := OneInstanceReported(past, current, first, last);
      assert Reported({past}, InstanceAt(past.windows, first), start);
    }
  }
}
