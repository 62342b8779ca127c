// facility_hours.py: layered opening rules and the forward search for the next opening. Times of day count
// microseconds on one local wall clock.
module Hours {
  import opened Json
  import opened Gregorian
  import Text

  const MINUTE := 60_000_000
  const DAY := 1440 * MINUTE
  const HORIZON := 371  // `range(0, 371)`

  /** An opening from `open` up to and excluding `close`, in minutes of the day. */
  datatype Interval = Interval(open: int, close: int)

  datatype Exception =
    | OnDate(date: Date, hours: seq<Interval>)
    | OnNth(weekday: int, ordinals: seq<int>, hours: seq<Interval>)

  datatype Schedule = Schedule(weekly: seq<seq<Interval>>, exceptions: seq<Exception>)

  predicate NormalInterval(interval: Interval) {
    0 <= interval.open < interval.close < 1440
  }

  predicate NormalIntervals(intervals: seq<Interval>) {
    forall i :: 0 <= i < |intervals| ==> NormalInterval(intervals[i])
  }

  predicate NormalException(exception: Exception) {
    && NormalIntervals(exception.hours)
    && (exception.OnDate? ==> Gregorian.Valid(exception.date))
    && (exception.OnNth? ==> 0 <= exception.weekday < 7 && exception.ordinals != []
                             && (forall n <- exception.ordinals :: 1 <= n <= 5)
                             && (forall i, j :: 0 <= i < j < |exception.ordinals| ==>
                                   exception.ordinals[i] != exception.ordinals[j]))
  }

  /** What normalization guarantees. */
  predicate Normal(h: Schedule) {
    && |h.weekly| == 7
    && (forall w :: 0 <= w < 7 ==> NormalIntervals(h.weekly[w]))
    && (forall i :: 0 <= i < |h.exceptions| ==> NormalException(h.exceptions[i]))
  }

  // ---- Normalization ----

  predicate Digit(c: char) {
    '0' <= c <= '9'
  }

  /** HH:MM on a 24-hour clock, as minutes of the day. */
  function ParseTime(value: string): (minutes: Option<int>)
    ensures minutes.Some? ==> 0 <= minutes.value < 1440
  {
    var t := Text.Strip(value);
    if |t| == 5 && Digit(t[0]) && Digit(t[1]) && t[2] == ':' && '0' <= t[3] <= '5' && Digit(t[4])
       && (t[0] < '2' || (t[0] == '2' && t[1] <= '3')) then
      Some(((t[0] - '0') as int * 10 + (t[1] - '0') as int) * 60 + (t[3] - '0') as int * 10 + (t[4] - '0') as int)
    else None
  }

  /** A raw interval; none is a missing or non-text time. */
  datatype RawInterval = RawInterval(open: Option<string>, close: Option<string>, unsupported: bool)

  function ParseInterval(raw: RawInterval): Option<Interval> {
    if raw.unsupported || raw.open.None? || raw.close.None? then None
    else
      var open, close := ParseTime(raw.open.value), ParseTime(raw.close.value);
      if open.None? || close.None? || open.value >= close.value then None
      else Some(Interval(open.value, close.value))
  }

  predicate AcceptableHours(raw: seq<RawInterval>) {
    forall i :: 0 <= i < |raw| ==> ParseInterval(raw[i]).Some?
  }

  /** `hours` are the raw intervals, read one by one. */
  predicate ReadsAs(raw: seq<RawInterval>, hours: seq<Interval>) {
    |hours| == |raw| && forall i :: 0 <= i < |raw| ==> ParseInterval(raw[i]) == Some(hours[i])
  }

  /** `_normalize_intervals`; none is a refusal. */
  method NormalizeIntervals(raw: seq<RawInterval>) returns (result: Option<seq<Interval>>)
    ensures result.Some? <==> AcceptableHours(raw)
    ensures result.Some? ==> ReadsAs(raw, result.value) && NormalIntervals(result.value)
  {
    var intervals: seq<Interval> := [];
    for i := 0 to |raw|
      invariant |intervals| == i && NormalIntervals(intervals)
      invariant forall j :: 0 <= j < i ==> ParseInterval(raw[j]) == Some(intervals[j])
    {
      var interval := ParseInterval(raw[i]);
      if interval.None? {
        return None;
      }
      intervals := intervals + [interval.value];
    }
    return Some(intervals);
  }

  /** A raw exception. `date` is the parsed ISO date or none; `ordinals` is none unless it is a list of integers. */
  datatype RawException = RawException(rule: string, date: Option<Date>, weekday: string, ordinals: Option<seq<int>>,
                                       hours: seq<RawInterval>, unsupported: bool)

  const WEEKDAYS := ["mon", "tue", "wed", "thu", "fri", "sat", "sun"]

  function WeekdayIndex(name: string): (w: Option<int>)
    ensures w.Some? ==> 0 <= w.value < 7 && WEEKDAYS[w.value] == name
    ensures w.None? ==> name !in WEEKDAYS
  {
    if name == WEEKDAYS[0] then Some(0) else if name == WEEKDAYS[1] then Some(1)
    else if name == WEEKDAYS[2] then Some(2) else if name == WEEKDAYS[3] then Some(3)
    else if name == WEEKDAYS[4] then Some(4) else if name == WEEKDAYS[5] then Some(5)
    else if name == WEEKDAYS[6] then Some(6) else None
  }

  /** The elements in the order of their first occurrences. */
  function FirstOccurrences(s: seq<int>): (r: seq<int>)
    ensures forall n :: n in r <==> n in s
    ensures forall i, j :: 0 <= i < j < |r| ==> r[i] != r[j]
  {
    if s == [] then []
    else
      var init, last := FirstOccurrences(s[..|s| - 1]), s[|s| - 1];
      assert s == s[..|s| - 1] + [last];
      if last in init then init else init + [last]
  }

  predicate AcceptableOrdinals(raw: seq<int>) {
    raw != [] && forall n <- raw :: 1 <= n <= 5
  }

  /** The ordinals of an nth-weekday rule; none is a refusal. */
  method NormalizeOrdinals(raw: seq<int>) returns (result: Option<seq<int>>)
    ensures result == if AcceptableOrdinals(raw) then Some(FirstOccurrences(raw)) else None
  {
    if raw == [] {
      return None;
    }
    var ordinals: seq<int> := [];
    for i := 0 to |raw|
      invariant ordinals == FirstOccurrences(raw[..i])
      invariant forall n <- raw[..i] :: 1 <= n <= 5
    {
      assert raw[..i + 1] == raw[..i] + [raw[i]];
      assert raw[..i + 1][..i] == raw[..i];
      if raw[i] < 1 || raw[i] > 5 {
        assert raw[i] in raw;
        return None;
      }
      if raw[i] !in ordinals {
        ordinals := ordinals + [raw[i]];
      }
    }
    assert raw[..|raw|] == raw;
    return Some(ordinals);
  }

  /** What an exception has to bring along to be accepted. */
  predicate Acceptable(raw: RawException) {
    && !raw.unsupported && AcceptableHours(raw.hours)
    && match raw.rule
       case "date" => raw.date.Some? && Gregorian.Valid(raw.date.value)
       case "nth_weekday" =>
         raw.weekday in WEEKDAYS && raw.ordinals.Some? && AcceptableOrdinals(raw.ordinals.value)
       case _ => false
  }

  /** `exception` says what the raw exception says. */
  predicate Says(raw: RawException, exception: Exception) {
    && ReadsAs(raw.hours, exception.hours)
    && match exception
       case OnDate(date, _) => raw.rule == "date" && raw.date == Some(date)
       case OnNth(weekday, ordinals, _) =>
         && raw.rule == "nth_weekday" && 0 <= weekday < 7 && WEEKDAYS[weekday] == raw.weekday
         && raw.ordinals.Some? && ordinals == FirstOccurrences(raw.ordinals.value)
  }

  /** One turn of the loop of `_normalize_exceptions`. */
  method NormalizeException(raw: RawException) returns (result: Option<Exception>)
    ensures result.Some? <==> Acceptable(raw)
    ensures result.Some? ==> Says(raw, result.value) && NormalException(result.value)
  {
    if (raw.rule != "date" && raw.rule != "nth_weekday") || raw.unsupported {
      return None;
    }
    var hours := NormalizeIntervals(raw.hours);
    if hours.None? {
      return None;
    }
    if raw.rule == "date" {
      if raw.date.None? || !Gregorian.Valid(raw.date.value) {
        return None;
      }
      return Some(OnDate(raw.date.value, hours.value));
    }
    var weekday := WeekdayIndex(raw.weekday);
    if weekday.None? || raw.ordinals.None? {
      return None;
    }
    var ordinals := NormalizeOrdinals(raw.ordinals.value);
    if ordinals.None? {
      return None;
    }
    assert raw.ordinals.value[0] in ordinals.value;
    return Some(OnNth(weekday.value, ordinals.value, hours.value));
  }

  /** `_normalize_exceptions`: refused exactly when some exception is not acceptable; otherwise every exception is
      kept, in its place and with what it says. */
  method NormalizeExceptions(raw: seq<RawException>) returns (result: Option<seq<Exception>>)
    ensures result.Some? <==> forall i :: 0 <= i < |raw| ==> Acceptable(raw[i])
    ensures result.Some? ==> |result.value| == |raw|
                             && forall i :: 0 <= i < |raw| ==> Says(raw[i], result.value[i])
                                                               && NormalException(result.value[i])
  {
    var exceptions: seq<Exception> := [];
    for i := 0 to |raw|
      invariant |exceptions| == i
      invariant forall j :: 0 <= j < i ==> Acceptable(raw[j])
      invariant forall j :: 0 <= j < i ==> Says(raw[j], exceptions[j]) && NormalException(exceptions[j])
    {
      var exception := NormalizeException(raw[i]);
      if exception.None? {
        return None;
      }
      exceptions := exceptions + [exception.value];
    }
    return Some(exceptions);
  }

  // ---- The layered rules ----

  function FirstOnDate(exceptions: seq<Exception>, day: Date): Option<seq<Interval>> {
    if exceptions == [] then None
    else if exceptions[0].OnDate? && exceptions[0].date == day then Some(exceptions[0].hours)
    else FirstOnDate(exceptions[1..], day)
  }

  function FirstOnNth(exceptions: seq<Exception>, weekday: int, ordinal: int): Option<seq<Interval>> {
    if exceptions == [] then None
    else if exceptions[0].OnNth? && exceptions[0].weekday == weekday && ordinal in exceptions[0].ordinals then
      Some(exceptions[0].hours)
    else FirstOnNth(exceptions[1..], weekday, ordinal)
  }

  /** The hours of weekday `w` as the `k`-th of its month, date exceptions aside. */
  function ClassHours(h: Schedule, w: int, k: int): seq<Interval>
    requires Normal(h) && 0 <= w < 7
  {
    match FirstOnNth(h.exceptions, w, k)
    case Some(hours) => hours
    case None => h.weekly[w]
  }

  /** `_intervals_for_date`: a date exception beats an nth-weekday exception, which beats the weekly rule. */
  function IntervalsFor(h: Schedule, day: Date): seq<Interval>
    requires Normal(h) && Gregorian.Valid(day)
  {
    match FirstOnDate(h.exceptions, day)
    case Some(hours) => hours
    case None => ClassHours(h, Weekday(day), NthInMonth(day))
  }

  lemma IntervalsAreNormal(h: Schedule, day: Date)
    requires Normal(h) && Gregorian.Valid(day)
    ensures NormalIntervals(IntervalsFor(h, day))
  {
    FirstOnDateIsNormal(h.exceptions, day);
    FirstOnNthIsNormal(h.exceptions, Weekday(day), NthInMonth(day));
  }

  lemma {:induction false} FirstOnDateIsNormal(exceptions: seq<Exception>, day: Date)
    requires forall i :: 0 <= i < |exceptions| ==> NormalException(exceptions[i])
    ensures FirstOnDate(exceptions, day).Some? ==> NormalIntervals(FirstOnDate(exceptions, day).value)
  {
    if exceptions != [] {
      assert NormalException(exceptions[0]);
      FirstOnDateIsNormal(exceptions[1..], day);
    }
  }

  lemma {:induction false} FirstOnNthIsNormal(exceptions: seq<Exception>, weekday: int, ordinal: int)
    requires forall i :: 0 <= i < |exceptions| ==> NormalException(exceptions[i])
    ensures FirstOnNth(exceptions, weekday, ordinal).Some? ==>
              NormalIntervals(FirstOnNth(exceptions, weekday, ordinal).value)
  {
    if exceptions != [] {
      assert NormalException(exceptions[0]);
      FirstOnNthIsNormal(exceptions[1..], weekday, ordinal);
    }
  }

  /** A date exception is given for this day. */
  predicate HasDateException(h: Schedule, day: Date) {
    exists i :: 0 <= i < |h.exceptions| && h.exceptions[i].OnDate? && h.exceptions[i].date == day
  }

  lemma {:induction false} FirstOnDateExists(exceptions: seq<Exception>, day: Date)
    ensures FirstOnDate(exceptions, day).Some? <==>
              exists i :: 0 <= i < |exceptions| && exceptions[i].OnDate? && exceptions[i].date == day
  {
    if exceptions != [] {
      FirstOnDateExists(exceptions[1..], day);
      assert forall i :: 1 <= i < |exceptions| ==> exceptions[i] == exceptions[1..][i - 1];
    }
  }

  /** Without a date exception, the class of a day decides its hours. */
  lemma ClassDecides(h: Schedule, day: Date)
    requires Normal(h) && Gregorian.Valid(day) && !HasDateException(h, day)
    ensures IntervalsFor(h, day) == ClassHours(h, Weekday(day), NthInMonth(day))
  {
    FirstOnDateExists(h.exceptions, day);
  }

  /** Without date exceptions, days of one class have the same hours. */
  lemma SameClassSameHours(h: Schedule, a: Date, b: Date)
    requires Normal(h) && Gregorian.Valid(a) && Gregorian.Valid(b)
    requires Weekday(a) == Weekday(b) && NthInMonth(a) == NthInMonth(b)
    requires !HasDateException(h, a) && !HasDateException(h, b)
    ensures IntervalsFor(h, a) == IntervalsFor(h, b)
  {
    ClassDecides(h, a);
    ClassDecides(h, b);
  }

  // ---- Instants ----

  datatype Instant = Instant(day: Date, tick: int)

  predicate ValidInstant(t: Instant) {
    Gregorian.Valid(t.day) && 0 <= t.tick < DAY
  }

  predicate Covers(interval: Interval, tick: int) {
    interval.open * MINUTE <= tick < interval.close * MINUTE
  }

  /** The facility is open at this moment. */
  predicate OpenAt(h: Schedule, t: Instant)
    requires Normal(h) && ValidInstant(t)
  {
    exists i :: 0 <= i < |IntervalsFor(h, t.day)| && Covers(IntervalsFor(h, t.day)[i], t.tick)
  }

  /** The instant `offset` days after the day of `at`. */
  function Later(at: Instant, offset: nat, tick: int): Instant
    requires Gregorian.Valid(at.day)
  {
    Instant(AddDays(at.day, offset), tick)
  }

  function HoursOn(h: Schedule, at: Instant, offset: nat): seq<Interval>
    requires Normal(h) && Gregorian.Valid(at.day)
  {
    IntervalsFor(h, AddDays(at.day, offset))
  }

  /** Interval `i` of day `offset` opens after `at`. */
  predicate Qualifies(h: Schedule, at: Instant, offset: nat, i: nat)
    requires Normal(h) && Gregorian.Valid(at.day)
  {
    i < |HoursOn(h, at, offset)| && (offset > 0 || HoursOn(h, at, offset)[i].open * MINUTE > at.tick)
  }

  predicate NoOpeningOn(h: Schedule, at: Instant, offset: nat)
    requires Normal(h) && Gregorian.Valid(at.day)
  {
    forall i :: 0 <= i < |HoursOn(h, at, offset)| ==> !Qualifies(h, at, offset, i)
  }

  predicate NoOpeningBefore(h: Schedule, at: Instant, days: nat)
    requires Normal(h) && Gregorian.Valid(at.day)
  {
    forall offset :: 0 <= offset < days ==> NoOpeningOn(h, at, offset)
  }

  /** Interval `i` of day `offset` is the first listed one that opens after `at`, on the first day that has one. */
  predicate FirstOpening(h: Schedule, at: Instant, offset: nat, i: nat)
    requires Normal(h) && Gregorian.Valid(at.day)
  {
    && NoOpeningBefore(h, at, offset)
    && Qualifies(h, at, offset, i)
    && forall j :: 0 <= j < i ==> !Qualifies(h, at, offset, j)
  }

  // ---- The search ----

  /** `_next_open_after` */
  method NextOpenAfter(h: Schedule, at: Instant) returns (result: Option<Instant>, ghost offset: nat, ghost i: nat)
    requires Normal(h) && ValidInstant(at)
    ensures result.None? ==> NoOpeningBefore(h, at, 371)
    ensures result.Some? ==> offset < 371 && FirstOpening(h, at, offset, i)
                             && result.value == Later(at, offset, HoursOn(h, at, offset)[i].open * MINUTE)
  {
    offset, i := 0, 0;
    var day := at.day;
    for dayOffset := 0 to HORIZON
      invariant Gregorian.Valid(day) && day == AddDays(at.day, dayOffset)
      invariant NoOpeningBefore(h, at, dayOffset)
    {
      var intervals := IntervalsFor(h, day);
      for k := 0 to |intervals|
        invariant forall j :: 0 <= j < k ==> !Qualifies(h, at, dayOffset, j)
      {
        if dayOffset > 0 || intervals[k].open * MINUTE > at.tick {
          offset, i := dayOffset, k;
          return Some(Instant(day, intervals[k].open * MINUTE)), offset, i;
        }
      }
      assert NoOpeningOn(h, at, dayOffset);
      day := NextDay(day);
    }
    return None, offset, i;
  }

  datatype OpenState =
    | Unknown
    | Open(nextClose: Instant)
    | Closed(nextOpen: Option<Instant>)

  /** `facility_open_state`. None stands for hours that normalization refuses. */
  method FacilityOpenState(hours: Option<Schedule>, at: Instant)
    returns (state: OpenState, ghost offset: nat, ghost i: nat)
    requires hours.Some? ==> Normal(hours.value)
    requires ValidInstant(at)
    ensures state.Unknown? <==> hours.None?
    ensures hours.Some? ==> (state.Open? <==> OpenAt(hours.value, at))
    ensures state.Open? ==>
              && i < |IntervalsFor(hours.value, at.day)| && Covers(IntervalsFor(hours.value, at.day)[i], at.tick)
              && state.nextClose == Instant(at.day, IntervalsFor(hours.value, at.day)[i].close * MINUTE)
    ensures state.Closed? && state.nextOpen.None? ==> NoOpeningBefore(hours.value, at, HORIZON)
    ensures state.Closed? && state.nextOpen.Some? ==>
              && FirstOpening(hours.value, at, offset, i)
              && state.nextOpen.value == Later(at, offset, HoursOn(hours.value, at, offset)[i].open * MINUTE)
  {
    offset, i := 0, 0;
    if hours.None? {
      return Unknown, offset, i;
    }
    var intervals := IntervalsFor(hours.value, at.day);
    for k := 0 to |intervals|
      invariant forall j :: 0 <= j < k ==> !Covers(intervals[j], at.tick)
    {
      if intervals[k].open * MINUTE <= at.tick < intervals[k].close * MINUTE {
        return Open(Instant(at.day, intervals[k].close * MINUTE)), 0, k;
      }
    }
    var next;
    next, offset, i := NextOpenAfter(hours.value, at);
    return Closed(next), offset, i;
  }
}
