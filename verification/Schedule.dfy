// Down windows: which instants they cover, which of several overlapping windows is
// reported, and which occurrence of that window an instant belongs to.
module Schedule {
  import opened Basics
  import opened Ordering

  datatype Day = Sunday | Monday | Tuesday | Wednesday | Thursday | Friday | Saturday
               | Unrecognised(text: string)

  datatype Window = Window(name: string, startDays: seq<Day>, start: string, end: string, allDay: bool)

  // A time zone by its resolution in the zone database: the empty name is UTC, an
  // unknown name fails to load, and a known zone has a fixed offset from UTC.
  datatype Zone = Unset | Unknown | Fixed(offset: int)

  // "{windowName}:{date}", with the date kept as a day number; "" is NoInstance.
  datatype InstanceID = NoInstance | Instance(name: string, startDay: int)

  const NANOS_PER_MINUTE := 60_000_000_000
  const MINUTES_PER_DAY := 1440
  const NANOS_PER_DAY := 86_400_000_000_000

  function LoadLocation(zone: Zone): Result<int> {
    match zone
    case Unset => Ok(0)
    case Unknown => Err
    case Fixed(offset) => Ok(offset)
  }

  // Minutes since day 0 on the local clock; seconds are dropped.
  function LocalMinute(now: Time, offset: int): int { (now.nanos + offset) / NANOS_PER_MINUTE }

  function DayOf(minute: int): int { minute / MINUTES_PER_DAY }

  function MinuteOfDay(minute: int): (r: nat)
    ensures r < MINUTES_PER_DAY
  {
    minute % MINUTES_PER_DAY
  }

  // Day 0 is a Monday.
  function FromWeekday(day: int): Day {
    var index := (day + 1) % 7;
    if index == 0 then Sunday
    else if index == 1 then Monday
    else if index == 2 then Tuesday
    else if index == 3 then Wednesday
    else if index == 4 then Thursday
    else if index == 5 then Friday
    else Saturday
  }

  function Digit(c: char): Option<int> {
    if '0' <= c <= '9' then Some(c as int - '0' as int) else None
  }

  // strconv.Atoi on a two-character string; it accepts a leading sign.
  function Atoi(s: string): Option<int>
    requires |s| == 2
  {
    match (Digit(s[0]), Digit(s[1]))
    case (Some(tens), Some(units)) => Some(10 * tens + units)
    case (None, Some(units)) =>
      if s[0] == '+' then Some(units) else if s[0] == '-' then Some(-units) else None
    case _ => None
  }

  function ParseMinute(value: string): (r: Option<int>)
    ensures r.Some? ==> 0 <= r.value < MINUTES_PER_DAY
  {
    if |value| != 5 || value[2] != ':' || ':' in value[..2] || ':' in value[3..] then None
    else
      match (Atoi(value[..2]), Atoi(value[3..]))
      case (Some(hour), Some(minute)) =>
        if hour < 0 || hour > 23 || minute < 0 || minute > 59 then None else Some(hour * 60 + minute)
      case _ => None
  }

  function DigitChar(d: nat): char
    requires d < 10
  {
    d as char + '0'
  }

  // The canonical HH:MM text of a minute of the day.
  function FormatMinute(minute: nat): string
    requires minute < MINUTES_PER_DAY
  {
    var hour := minute / 60;
    [DigitChar(hour / 10), DigitChar(hour % 10), ':', DigitChar(minute % 60 / 10), DigitChar(minute % 60 % 10)]
  }

  lemma ParseFormatRoundTrip(minute: nat)
    requires minute < MINUTES_PER_DAY
    ensures ParseMinute(FormatMinute(minute)) == Some(minute)
  {
    var s := FormatMinute(minute);
    assert s[..2] == [s[0], s[1]] && s[3..] == [s[3], s[4]];
  }

  // Four digits read as hours and minutes, when these are in range.
  lemma ClockTextReads(a: nat, b: nat, c: nat, d: nat)
    requires a < 10 && b < 10 && c < 10 && d < 10
    ensures var digits := "0123456789";
      ParseMinute([digits[a], digits[b], ':', digits[c], digits[d]])
      == if 10 * a + b <= 23 && 10 * c + d <= 59 then Some(60 * (10 * a + b) + 10 * c + d) else None
  {
    var digits := "0123456789";
    DigitReads(a);
    DigitReads(b);
    DigitReads(c);
    DigitReads(d);
    var s := [digits[a], digits[b], ':', digits[c], digits[d]];
    assert s[..2] == [digits[a], digits[b]] && s[3..] == [digits[c], digits[d]];
  }

  lemma DigitReads(d: nat)
    requires d < 10
    ensures Digit("0123456789"[d]) == Some(d) && "0123456789"[d] == DigitChar(d) && "0123456789"[d] != ':'
  {
    if d < 5 { assert d in {0, 1, 2, 3, 4}; } else { assert d in {5, 6, 7, 8, 9}; }
  }

  // Text without a sign parses to a minute exactly when it is that minute's canonical text.
  lemma UnsignedTextIsCanonical(value: string, minute: nat)
    requires '+' !in value && '-' !in value && minute < MINUTES_PER_DAY
    ensures ParseMinute(value) == Some(minute) <==> value == FormatMinute(minute)
  {
    ParseFormatRoundTrip(minute);
    if ParseMinute(value) == Some(minute) {
      var hours, minutes := value[..2], value[3..];
      UnsignedNumber(hours);
      UnsignedNumber(minutes);
      assert value == hours + [':'] + minutes;
      HourAndMinute(Atoi(hours).value, Atoi(minutes).value);
      assert FormatMinute(minute) == hours + [':'] + minutes;
    }
  }

  lemma HourAndMinute(hour: nat, minute: nat)
    requires minute < 60
    ensures (60 * hour + minute) / 60 == hour && (60 * hour + minute) % 60 == minute
  {}

  // An unsigned two-character number is its canonical text.
  lemma UnsignedNumber(s: string)
    requires |s| == 2 && '+' !in s && '-' !in s && Atoi(s).Some?
    ensures 0 <= Atoi(s).value < 100
    ensures s == [DigitChar(Atoi(s).value / 10), DigitChar(Atoi(s).value % 10)]
  {
    var tens, units := Digit(s[0]), Digit(s[1]);
    assert s[0] != '+' && s[0] != '-';
    assert Atoi(s).value == 10 * tens.value + units.value;
  }

  lemma ClockTextHasFiveCharacters(value: string)
    ensures ParseMinute(value).Some? ==> |value| == 5 && value[2] == ':'
  {}

  // A sign in front of a single digit is accepted: a plus counts for nothing, and a minus only
  // passes with zero. Any other character makes the text unreadable.
  lemma SignedText(value: string, i: nat)
    requires |value| == 5 && (i == 0 || i == 3)
    ensures value[i] == '+' ==> ParseMinute(value) == ParseMinute(value[i := '0'])
    ensures value[i] == '-' ==> ParseMinute(value) == if value[i + 1] == '0' then ParseMinute(value[i := '0']) else None
    ensures value[i] !in "+-0123456789" || value[i + 1] !in "0123456789" || value[2] != ':' ==>
      ParseMinute(value) == None
  {
    var other := value[i := '0'];
    assert value[..2] == [value[0], value[1]] && value[3..] == [value[3], value[4]];
    assert other[..2] == [other[0], other[1]] && other[3..] == [other[3], other[4]];
  }

  // The calendar: names follow each other, and 1 January 1970, day 719162, was a Thursday.
  lemma CalendarIsRight(day: int)
    ensures FromWeekday(719_162) == Thursday
    ensures FromWeekday(day) in {Monday, Tuesday, Wednesday, Thursday, Friday, Saturday, Sunday}
    ensures FromWeekday(day) == Monday <==> FromWeekday(day + 1) == Tuesday
    ensures FromWeekday(day) == Tuesday <==> FromWeekday(day + 1) == Wednesday
    ensures FromWeekday(day) == Wednesday <==> FromWeekday(day + 1) == Thursday
    ensures FromWeekday(day) == Thursday <==> FromWeekday(day + 1) == Friday
    ensures FromWeekday(day) == Friday <==> FromWeekday(day + 1) == Saturday
    ensures FromWeekday(day) == Saturday <==> FromWeekday(day + 1) == Sunday
    ensures FromWeekday(day) == Sunday <==> FromWeekday(day + 1) == Monday
  {}

  predicate ValidDay(day: Day) { !day.Unrecognised? }

  predicate DistinctDays(days: seq<Day>) {
    forall i, j :: 0 <= i < j < |days| ==> days[i] != days[j]
  }

  // What ValidateWindow accepts.
  predicate ValidWindow(w: Window) {
    && w.name != ""
    && w.startDays != []
    && (forall d :: d in w.startDays ==> ValidDay(d))
    && DistinctDays(w.startDays)
    && if w.allDay then w.start == "" && w.end == ""
       else
         && ParseMinute(w.start).Some?
         && ParseMinute(w.end).Some?
         && ParseMinute(w.start) != ParseMinute(w.end)
  }

  method ValidateWindow(w: Window) returns (valid: bool)
    ensures valid <==> ValidWindow(w)
    ensures valid <==>
      && w.name != "" && w.startDays != []
      && (forall d :: d in w.startDays ==> d in {Monday, Tuesday, Wednesday, Thursday, Friday, Saturday, Sunday})
      && (forall i, j :: 0 <= i < j < |w.startDays| ==> w.startDays[i] != w.startDays[j])
      && (w.allDay ==> w.start == "" && w.end == "")
      && (!w.allDay ==> ParseMinute(w.start).Some? && ParseMinute(w.end).Some?
                        && ParseMinute(w.start).value != ParseMinute(w.end).value)
  {
    if w.name == "" || |w.startDays| == 0 { return false; }
    var seen: set<Day> := {};
    for i := 0 to |w.startDays|
      invariant seen == set k | 0 <= k < i :: w.startDays[k]
      invariant forall k :: 0 <= k < i ==> ValidDay(w.startDays[k])
      invariant DistinctDays(w.startDays[..i])
    {
      var day := w.startDays[i];
      if !ValidDay(day) { return false; }
      if day in seen {
        var k :| 0 <= k < i && w.startDays[k] == day;
        return false;
      }
      seen := seen + {day};
      assert w.startDays[..i + 1] == w.startDays[..i] + [day];
    }
    assert w.startDays[..|w.startDays|] == w.startDays;
    if w.allDay { return w.start == "" && w.end == ""; }
    var start, end := ParseMinute(w.start), ParseMinute(w.end);
    valid := start.Some? && end.Some? && start.value != end.value;
  }

  // Window.matches: Err for an invalid window, otherwise whether it covers the minute.
  function Matches(w: Window, minute: int): Result<bool> {
    if !ValidWindow(w) then Err
    else if w.allDay then Ok(FromWeekday(DayOf(minute)) in w.startDays)
    else
      var start, end := ParseMinute(w.start).value, ParseMinute(w.end).value;
      var m := MinuteOfDay(minute);
      var today := FromWeekday(DayOf(minute)) in w.startDays;
      if start < end then Ok(today && start <= m < end)
      else Ok((today && m >= start) || (FromWeekday(DayOf(minute) - 1) in w.startDays && m < end))
  }

  // ----- Reference semantics: occurrences as half-open intervals -----

  function StartMinute(w: Window): (r: nat)
    requires ValidWindow(w)
    ensures r < MINUTES_PER_DAY
  {
    if w.allDay then 0 else ParseMinute(w.start).value
  }

  // How long one occurrence lasts, running past midnight when start > end.
  function Length(w: Window): (r: nat)
    requires ValidWindow(w)
    ensures 0 < r <= MINUTES_PER_DAY
  {
    if w.allDay then MINUTES_PER_DAY
    else
      var start, end := ParseMinute(w.start).value, ParseMinute(w.end).value;
      if start < end then end - start else end + MINUTES_PER_DAY - start
  }

  function OccurrenceStart(w: Window, day: int): int
    requires ValidWindow(w)
  {
    day * MINUTES_PER_DAY + StartMinute(w)
  }

  // The occurrence of w that starts on the given day exists and contains the minute.
  predicate Occurs(w: Window, day: int, minute: int)
    requires ValidWindow(w)
  {
    && FromWeekday(day) in w.startDays
    && OccurrenceStart(w, day) <= minute < OccurrenceStart(w, day) + Length(w)
  }

  // The start day WindowInstanceID computes for a minute.
  function InstanceDay(w: Window, minute: int): int
    requires ValidWindow(w)
  {
    if !w.allDay && ParseMinute(w.start).value >= ParseMinute(w.end).value
       && MinuteOfDay(minute) < ParseMinute(w.end).value
    then DayOf(minute) - 1 else DayOf(minute)
  }

  lemma SplitMinute(minute: int)
    ensures minute == DayOf(minute) * MINUTES_PER_DAY + MinuteOfDay(minute)
  {}

  lemma OccursOnInstanceDay(w: Window, day: int, minute: int)
    requires ValidWindow(w) && Occurs(w, day, minute)
    ensures day == InstanceDay(w, minute)
    ensures Matches(w, minute) == Ok(true)
  {
    SplitMinute(minute);
  }

  lemma MatchingOccurs(w: Window, minute: int)
    requires Matches(w, minute) == Ok(true)
    ensures Occurs(w, InstanceDay(w, minute), minute)
  {
    SplitMinute(minute);
  }

  // matches holds exactly when some occurrence interval contains the minute; that
  // occurrence is unique and is the one WindowInstanceID dates.
  lemma MatchesIffOccurs(w: Window, minute: int)
    requires ValidWindow(w)
    ensures Matches(w, minute).Ok?
    ensures Matches(w, minute).value <==> exists day :: Occurs(w, day, minute)
    ensures forall day :: Occurs(w, day, minute) ==> day == InstanceDay(w, minute)
    ensures Matches(w, minute).value ==> FromWeekday(InstanceDay(w, minute)) in w.startDays
  {
    if Matches(w, minute) == Ok(true) { MatchingOccurs(w, minute); }
    forall day | Occurs(w, day, minute)
      ensures day == InstanceDay(w, minute) && Matches(w, minute) == Ok(true)
    {
      OccursOnInstanceDay(w, day, minute);
    }
  }

  // Two covered minutes get the same date exactly when one occurrence covers both.
  lemma SameInstanceIffSameOccurrence(w: Window, first: int, second: int)
    requires Matches(w, first) == Ok(true) && Matches(w, second) == Ok(true)
    ensures InstanceDay(w, first) == InstanceDay(w, second)
       <==> exists day :: Occurs(w, day, first) && Occurs(w, day, second)
  {
    MatchesIffOccurs(w, first);
    MatchesIffOccurs(w, second);
    MatchingOccurs(w, first);
    MatchingOccurs(w, second);
  }

  // ----- Match over several windows -----

  predicate AllValid(windows: seq<Window>) {
    forall w :: w in windows ==> ValidWindow(w)
  }

  predicate UniqueNames(windows: seq<Window>) {
    forall i, j :: 0 <= i < j < |windows| ==> windows[i].name != windows[j].name
  }

  function MatchingNames(windows: seq<Window>, minute: int): seq<string>
    requires AllValid(windows)
  {
    if windows == [] then []
    else
      (if Matches(windows[0], minute).value then [windows[0].name] else [])
      + MatchingNames(windows[1..], minute)
  }

  // The result of Match: an error, no window, or the first matching name in order.
  function MatchResult(now: Time, zone: Zone, windows: seq<Window>): Result<Option<string>> {
    match LoadLocation(zone)
    case Err => Err
    case Ok(offset) =>
      if !AllValid(windows) then Err
      else
        var names := MatchingNames(windows, LocalMinute(now, offset));
        if names == [] then Ok(None) else Ok(Some(Sort(names)[0]))
  }

  lemma {:induction false} MatchingNamesAppend(windows: seq<Window>, w: Window, minute: int)
    requires AllValid(windows + [w])
    ensures AllValid(windows)
    ensures MatchingNames(windows + [w], minute)
         == MatchingNames(windows, minute) + (if Matches(w, minute).value then [w.name] else [])
  {
    var all := windows + [w];
    AllValidAppend(windows, w);
    if windows == [] {
      assert all == [w] && MatchingNames([w][1..], minute) == [];
    } else {
      assert all[0] == windows[0] && all[1..] == windows[1..] + [w];
      MatchingNamesAppend(windows[1..], w, minute);
    }
  }

  lemma AllValidAppend(windows: seq<Window>, w: Window)
    ensures AllValid(windows + [w]) <==> AllValid(windows) && ValidWindow(w)
  {
    forall x ensures x in windows + [w] <==> x in windows || x == w {}
  }

  method Match(now: Time, zone: Zone, windows: seq<Window>) returns (r: Result<Option<string>>)
    ensures r == MatchResult(now, zone, windows)
  {
    var location := LoadLocation(zone);
    if location.Err? { return Err; }
    var minute := LocalMinute(now, location.value);
    var matches: seq<string> := [];
    for i := 0 to |windows|
      invariant AllValid(windows[..i])
      invariant matches == MatchingNames(windows[..i], minute)
    {
      var matched := Matches(windows[i], minute);
      if matched.Err? {
        assert windows[i] in windows;
        return Err;
      }
      assert windows[..i + 1] == windows[..i] + [windows[i]];
      MatchingNamesAppend(windows[..i], windows[i], minute);
      if matched.value { matches := matches + [windows[i].name]; }
    }
    assert windows[..|windows|] == windows;
    matches := Sort(matches);
    if |matches| == 0 { return Ok(None); }
    return Ok(Some(matches[0]));
  }

  lemma {:induction false} MatchingNamesAre(windows: seq<Window>, minute: int, name: string)
    requires AllValid(windows)
    ensures name in MatchingNames(windows, minute)
       <==> exists w :: w in windows && w.name == name && Matches(w, minute).value
  {
    if windows != [] {
      MatchingNamesAre(windows[1..], minute, name);
      assert windows == [windows[0]] + windows[1..];
    }
  }

  // Some occurrence of w contains the minute.
  ghost predicate Covers(w: Window, minute: int)
    requires ValidWindow(w)
  {
    exists day :: Occurs(w, day, minute)
  }

  // Some window of that name has an occurrence containing the minute.
  ghost predicate NameCovers(windows: seq<Window>, name: string, minute: int)
    requires AllValid(windows)
  {
    exists w :: w in windows && w.name == name && Covers(w, minute)
  }

  lemma MatchingNamesCover(windows: seq<Window>, minute: int, name: string)
    requires AllValid(windows)
    ensures name in MatchingNames(windows, minute) <==> NameCovers(windows, name, minute)
  {
    MatchingNamesAre(windows, minute, name);
    forall w | w in windows ensures Matches(w, minute).value <==> Covers(w, minute) {
      MatchesIffOccurs(w, minute);
    }
  }

  // On valid windows Match never fails; it reports nothing exactly when no window has an
  // occurrence at now, and otherwise the least name that has one.
  lemma MatchReportsLeastName(now: Time, offset: int, windows: seq<Window>)
    requires AllValid(windows)
    ensures MatchResult(now, Fixed(offset), windows).Ok?
    ensures MatchResult(now, Fixed(offset), windows).value.None?
       <==> forall name :: !NameCovers(windows, name, LocalMinute(now, offset))
    ensures var found := MatchResult(now, Fixed(offset), windows).value;
            var minute := LocalMinute(now, offset);
            found.Some? ==>
              && NameCovers(windows, found.value, minute)
              && forall name :: NameCovers(windows, name, minute) ==> StrLe(found.value, name)
  {
    var minute := LocalMinute(now, offset);
    var names := MatchingNames(windows, minute);
    forall name ensures name in names <==> NameCovers(windows, name, minute) {
      MatchingNamesCover(windows, minute, name);
    }
    if names != [] {
      assert names[0] in names;
      SortHeadIsLeast(names);
    }
  }

  lemma {:induction false} MatchingNamesPermutation(a: seq<Window>, b: seq<Window>, minute: int)
    requires multiset(a) == multiset(b) && AllValid(a)
    ensures AllValid(b)
    ensures forall name :: name in MatchingNames(a, minute) <==> name in MatchingNames(b, minute)
  {
    forall w ensures w in a <==> w in b { assert w in a <==> w in multiset(a); assert w in b <==> w in multiset(b); }
    forall name ensures name in MatchingNames(a, minute) <==> name in MatchingNames(b, minute) {
      MatchingNamesAre(a, minute, name);
      MatchingNamesAre(b, minute, name);
    }
  }

  // The order in which windows are configured does not matter, valid or not.
  lemma MatchIgnoresWindowOrder(now: Time, zone: Zone, a: seq<Window>, b: seq<Window>)
    requires multiset(a) == multiset(b)
    ensures MatchResult(now, zone, a) == MatchResult(now, zone, b)
  {
    forall w ensures w in a <==> w in b { assert w in a <==> w in multiset(a); assert w in b <==> w in multiset(b); }
    if LoadLocation(zone).Ok? && AllValid(a) {
      var minute := LocalMinute(now, LoadLocation(zone).value);
      MatchingNamesPermutation(a, b, minute);
      var p, q := MatchingNames(a, minute), MatchingNames(b, minute);
      if p != [] || q != [] {
        var name := if p != [] then p[0] else q[0];
        assert name in p && name in q;
        SortHeadIsLeast(p);
        SortHeadIsLeast(q);
        StrLeAntisymmetric(Sort(p)[0], Sort(q)[0]);
      }
    }
  }

  // ----- By the clock -----

  // The local clock in nanoseconds: UTC plus the offset of the zone.
  function LocalNanos(now: Time, offset: int): int { now.nanos + offset }

  // The window that starts on this day is running at a local time in nanoseconds: all of that
  // day, or from its start to its end, which is on the next day when it is not after the start.
  predicate Running(w: Window, day: int, local: int)
    requires ValidWindow(w)
  {
    && FromWeekday(day) in w.startDays
    && if w.allDay then day * 86_400_000_000_000 <= local < (day + 1) * 86_400_000_000_000
       else
         var start, end := ParseMinute(w.start).value, ParseMinute(w.end).value;
         && day * 86_400_000_000_000 + start * 60_000_000_000 <= local
         && local < (if start < end then day else day + 1) * 86_400_000_000_000 + end * 60_000_000_000
  }

  lemma RunningIffOccurs(w: Window, day: int, now: Time, offset: int)
    requires ValidWindow(w)
    ensures Running(w, day, LocalNanos(now, offset)) <==> Occurs(w, day, LocalMinute(now, offset))
  {}

  // Match reports the least name of the windows running on the local clock, and nothing exactly
  // when none runs.
  lemma MatchFollowsTheClock(now: Time, offset: int, windows: seq<Window>)
    requires AllValid(windows)
    ensures MatchResult(now, Fixed(offset), windows).Ok?
    ensures var found := MatchResult(now, Fixed(offset), windows).value;
      && (found.None? <==> forall w, day :: w in windows ==> !Running(w, day, LocalNanos(now, offset)))
      && (found.Some? ==>
            && (exists w, day :: w in windows && w.name == found.value && Running(w, day, LocalNanos(now, offset)))
            && forall w, day :: w in windows && Running(w, day, LocalNanos(now, offset)) ==> StrLe(found.value, w.name))
  {
    MatchReportsLeastName(now, offset, windows);
    forall w, day | w in windows
      ensures Running(w, day, LocalNanos(now, offset)) <==> Occurs(w, day, LocalMinute(now, offset))
    {
      RunningIffOccurs(w, day, now, offset);
    }
    forall w, day | w in windows && Occurs(w, day, LocalMinute(now, offset))
      ensures NameCovers(windows, w.name, LocalMinute(now, offset))
    {
      assert Covers(w, LocalMinute(now, offset));
    }
  }

  // Match fails exactly in an unknown zone or on an invalid window; no zone means UTC.
  lemma MatchFailsIff(now: Time, zone: Zone, windows: seq<Window>)
    ensures MatchResult(now, zone, windows).Err? <==> zone == Unknown || exists w :: w in windows && !ValidWindow(w)
    ensures MatchResult(now, Unset, windows) == MatchResult(now, Fixed(0), windows)
  {}

  // ----- WindowInstanceID -----

  function FirstNamed(windows: seq<Window>, name: string): Option<Window> {
    if windows == [] then None
    else if windows[0].name == name then Some(windows[0])
    else FirstNamed(windows[1..], name)
  }

  // The identifier of the occurrence, or an error for an unknown zone, an unknown
  // window or an unparsable bound.
  function InstanceOf(now: Time, zone: Zone, name: string, windows: seq<Window>): Result<InstanceID> {
    match (LoadLocation(zone), FirstNamed(windows, name))
    case (Ok(offset), Some(w)) =>
      var minute := LocalMinute(now, offset);
      if w.allDay then Ok(Instance(name, DayOf(minute)))
      else
        (match (ParseMinute(w.start), ParseMinute(w.end))
         case (Some(start), Some(end)) =>
           Ok(Instance(name, if start >= end && MinuteOfDay(minute) < end then DayOf(minute) - 1 else DayOf(minute)))
         case _ => Err)
    case _ => Err
  }

  lemma {:induction false} FirstNamedSplit(windows: seq<Window>, name: string, i: nat)
    requires i < |windows| && windows[i].name == name
    requires forall k :: 0 <= k < i ==> windows[k].name != name
    ensures FirstNamed(windows, name) == Some(windows[i])
  {
    if i > 0 { FirstNamedSplit(windows[1..], name, i - 1); }
  }

  lemma {:induction false} FirstNamedAbsent(windows: seq<Window>, name: string)
    requires forall k :: 0 <= k < |windows| ==> windows[k].name != name
    ensures FirstNamed(windows, name) == None
  {
    if windows != [] { FirstNamedAbsent(windows[1..], name); }
  }

  method WindowInstanceID(now: Time, zone: Zone, name: string, windows: seq<Window>) returns (r: Result<InstanceID>)
    ensures r == InstanceOf(now, zone, name, windows)
  {
    var location := LoadLocation(zone);
    if location.Err? { return Err; }
    var window: Option<Window> := None;
    var i := 0;
    while i < |windows|
      invariant 0 <= i <= |windows|
      invariant window == None
      invariant forall k :: 0 <= k < i ==> windows[k].name != name
    {
      if windows[i].name == name {
        window := Some(windows[i]);
        break;
      }
      i := i + 1;
    }
    if window.None? {
      FirstNamedAbsent(windows, name);
      return Err;
    }
    FirstNamedSplit(windows, name, i);
    var local := LocalMinute(now, location.value);
    var startDate := DayOf(local);
    if !window.value.allDay {
      var start := ParseMinute(window.value.start);
      if start.None? { return Err; }
      var end := ParseMinute(window.value.end);
      if end.None? { return Err; }
      if start.value >= end.value {
        if MinuteOfDay(local) < end.value { startDate := startDate - 1; }
      }
    }
    return Ok(Instance(name, startDate));
  }

  // With unique names, the window found by name is the one that covers the minute.
  lemma CoveringWindowIsFirstNamed(windows: seq<Window>, name: string, minute: int)
    requires AllValid(windows) && UniqueNames(windows) && NameCovers(windows, name, minute)
    ensures FirstNamed(windows, name).Some?
    ensures var w := FirstNamed(windows, name).value; w in windows && w.name == name && Covers(w, minute)
  {
    var w :| w in windows && w.name == name && Covers(w, minute);
    var i :| 0 <= i < |windows| && windows[i] == w;
    FirstNamedSplit(windows, name, i);
  }

  lemma InstanceOfNamed(now: Time, offset: int, windows: seq<Window>, name: string)
    requires FirstNamed(windows, name).Some? && ValidWindow(FirstNamed(windows, name).value)
    ensures InstanceOf(now, Fixed(offset), name, windows)
         == Ok(Instance(name, InstanceDay(FirstNamed(windows, name).value, LocalMinute(now, offset))))
  {}

  // For windows a policy may configure (valid, uniquely named), the instance of the
  // reported window always exists and dates the one occurrence that contains now.
  lemma InstanceNamesTheOccurrence(now: Time, offset: int, windows: seq<Window>, name: string)
    requires AllValid(windows) && UniqueNames(windows)
    requires MatchResult(now, Fixed(offset), windows) == Ok(Some(name))
    ensures FirstNamed(windows, name).Some?
    ensures FirstNamed(windows, name).value in windows && FirstNamed(windows, name).value.name == name
    ensures var w := FirstNamed(windows, name).value;
            var day := InstanceDay(w, LocalMinute(now, offset));
            && InstanceOf(now, Fixed(offset), name, windows) == Ok(Instance(name, day))
            && Occurs(w, day, LocalMinute(now, offset))
            && FromWeekday(day) in w.startDays
  {
    var minute := LocalMinute(now, offset);
    assert NameCovers(windows, name, minute) by { MatchReportsLeastName(now, offset, windows); }
    CoveringWindowIsFirstNamed(windows, name, minute);
    InstanceOfNamed(now, offset, windows, name);
    MatchesIffOccurs(FirstNamed(windows, name).value, minute);
  }

  // The date given to an instant, covered or not: days run from midnight, or from the window's
  // end when that is not after its start.
  lemma InstanceFollowsTheClock(now: Time, offset: int, windows: seq<Window>, name: string, i: nat)
    requires i < |windows| && windows[i].name == name
    requires forall k :: 0 <= k < i ==> windows[k].name != name
    ensures var w, id := windows[i], InstanceOf(now, Fixed(offset), name, windows);
      if !w.allDay && (ParseMinute(w.start).None? || ParseMinute(w.end).None?) then id == Err
      else
        var turn := if w.allDay || ParseMinute(w.start).value < ParseMinute(w.end).value then 0
                    else ParseMinute(w.end).value * 60_000_000_000;
        && id.Ok? && id.value.Instance? && id.value.name == name
        && id.value.startDay * 86_400_000_000_000 + turn <= now.nanos + offset
        && now.nanos + offset < (id.value.startDay + 1) * 86_400_000_000_000 + turn
  {
    FirstNamedSplit(windows, name, i);
  }

  // There is none in an unknown zone or of an unknown window; no zone means UTC.
  lemma InstanceFailsWithout(now: Time, zone: Zone, windows: seq<Window>, name: string)
    ensures zone == Unknown || (forall w :: w in windows ==> w.name != name) ==>
      InstanceOf(now, zone, name, windows) == Err
    ensures InstanceOf(now, Unset, name, windows) == InstanceOf(now, Fixed(0), name, windows)
  {
    if forall w :: w in windows ==> w.name != name {
      forall k | 0 <= k < |windows| ensures windows[k].name != name { assert windows[k] in windows; }
      FirstNamedAbsent(windows, name);
    }
  }
}
