// What the opening state and the bounded search mean for every instant and every date.
module HoursTheorems {
  import opened Json
  import opened Gregorian
  import opened Hours

  // ---- Which rule applies ----

  predicate AppliesByDate(e: Exception, day: Date) {
    e.OnDate? && e.date == day
  }

  predicate AppliesByNth(e: Exception, day: Date)
    requires Gregorian.Valid(day)
  {
    e.OnNth? && e.weekday == Weekday(day) && NthInMonth(day) in e.ordinals
  }

  lemma {:induction false} FirstDateRule(exceptions: seq<Exception>, day: Date, i: nat)
    requires i <= |exceptions| && forall j :: 0 <= j < i ==> !AppliesByDate(exceptions[j], day)
    ensures i == |exceptions| ==> FirstOnDate(exceptions, day).None?
    ensures i < |exceptions| && AppliesByDate(exceptions[i], day) ==>
              FirstOnDate(exceptions, day) == Some(exceptions[i].hours)
  {
    if i > 0 {
      assert forall j :: 0 <= j < |exceptions| - 1 ==> exceptions[1..][j] == exceptions[j + 1];
      FirstDateRule(exceptions[1..], day, i - 1);
    }
  }

  lemma {:induction false} FirstNthRule(exceptions: seq<Exception>, day: Date, i: nat)
    requires Gregorian.Valid(day)
    requires i <= |exceptions| && forall j :: 0 <= j < i ==> !AppliesByNth(exceptions[j], day)
    ensures i == |exceptions| ==> FirstOnNth(exceptions, Weekday(day), NthInMonth(day)).None?
    ensures i < |exceptions| && AppliesByNth(exceptions[i], day) ==>
              FirstOnNth(exceptions, Weekday(day), NthInMonth(day)) == Some(exceptions[i].hours)
  {
    if i > 0 {
      assert forall j :: 0 <= j < |exceptions| - 1 ==> exceptions[1..][j] == exceptions[j + 1];
      FirstNthRule(exceptions[1..], day, i - 1);
    }
  }

  /** The first exception for the date decides, whatever else applies. */
  lemma DateRuleDecides(h: Schedule, day: Date, i: nat)
    requires Normal(h) && Gregorian.Valid(day) && i < |h.exceptions| && AppliesByDate(h.exceptions[i], day)
    requires forall j :: 0 <= j < i ==> !AppliesByDate(h.exceptions[j], day)
    ensures IntervalsFor(h, day) == h.exceptions[i].hours
  {
    FirstDateRule(h.exceptions, day, i);
  }

  /** Without one, the first nth-weekday exception that applies decides. */
  lemma NthRuleDecides(h: Schedule, day: Date, i: nat)
    requires Normal(h) && Gregorian.Valid(day) && i < |h.exceptions| && AppliesByNth(h.exceptions[i], day)
    requires forall j :: 0 <= j < |h.exceptions| ==> !AppliesByDate(h.exceptions[j], day)
    requires forall j :: 0 <= j < i ==> !AppliesByNth(h.exceptions[j], day)
    ensures IntervalsFor(h, day) == h.exceptions[i].hours
  {
    FirstDateRule(h.exceptions, day, |h.exceptions|);
    FirstNthRule(h.exceptions, day, i);
  }

  /** Without either, the weekly rule decides. */
  lemma WeeklyRuleDecides(h: Schedule, day: Date)
    requires Normal(h) && Gregorian.Valid(day)
    requires forall j :: 0 <= j < |h.exceptions| ==> !AppliesByDate(h.exceptions[j], day)
    requires forall j :: 0 <= j < |h.exceptions| ==> !AppliesByNth(h.exceptions[j], day)
    ensures IntervalsFor(h, day) == h.weekly[Weekday(day)]
  {
    FirstDateRule(h.exceptions, day, |h.exceptions|);
    FirstNthRule(h.exceptions, day, |h.exceptions|);
  }

  // ---- The cut-off is far enough ----

  ghost predicate NoDateExceptions(h: Schedule) {
    forall i :: 0 <= i < |h.exceptions| ==> !h.exceptions[i].OnDate?
  }

  /** The opening of a date without a date exception is found within the horizon, unless date exceptions hide every
      later day of the same class. */
  lemma OpeningRecurs(h: Schedule, at: Instant, day: Date) returns (offset: nat)
    requires Normal(h) && ValidInstant(at) && Gregorian.Valid(day)
    requires !HasDateException(h, day) && IntervalsFor(h, day) != []
    ensures 1 <= offset < HORIZON
    ensures !HasDateException(h, AddDays(at.day, offset)) ==> !NoOpeningOn(h, at, offset)
  {
    offset := ClassRecurs(at.day, Weekday(day), NthInMonth(day));
    if !HasDateException(h, AddDays(at.day, offset)) {
      SameClassSameHours(h, day, AddDays(at.day, offset));
      assert Qualifies(h, at, offset, 0);
    }
  }

  /** Search completeness: without date exceptions, the search comes back empty if and only if no date whatsoever,
      past or future, has an opening. */
  lemma SearchIsComplete(h: Schedule, at: Instant)
    requires Normal(h) && ValidInstant(at) && NoDateExceptions(h)
    ensures NoOpeningBefore(h, at, HORIZON) <==> forall day | Gregorian.Valid(day) :: IntervalsFor(h, day) == []
  {
    forall day | Gregorian.Valid(day) && IntervalsFor(h, day) != []
      ensures !NoOpeningBefore(h, at, HORIZON)
    {
      var offset := OpeningRecurs(h, at, day);
      assert !NoOpeningOn(h, at, offset);
    }
    if forall day | Gregorian.Valid(day) :: IntervalsFor(h, day) == [] {
      assert forall offset: nat :: HoursOn(h, at, offset) == [];
    }
  }

  /** Without date exceptions inside the horizon, the only openings an empty search misses are by date exceptions
      outside it. */
  lemma OnlyFarDateExceptionsAreMissed(h: Schedule, at: Instant)
    requires Normal(h) && ValidInstant(at)
    requires forall offset: nat | 1 <= offset < HORIZON :: !HasDateException(h, AddDays(at.day, offset))
    ensures NoOpeningBefore(h, at, HORIZON) ==>
              forall day | Gregorian.Valid(day) && IntervalsFor(h, day) != [] :: HasDateException(h, day)
  {
    forall day | Gregorian.Valid(day) && IntervalsFor(h, day) != [] && !HasDateException(h, day)
      ensures !NoOpeningBefore(h, at, HORIZON)
    {
      var offset := OpeningRecurs(h, at, day);
      assert !NoOpeningOn(h, at, offset);
    }
  }

  // ---- What an empty search misses ----

  /** Some weekday has hours as the first, second, up to fifth of its month. */
  ghost predicate SomeClassOpens(h: Schedule)
    requires Normal(h)
  {
    exists w, k :: 0 <= w < 7 && 1 <= k <= 5 && ClassHours(h, w, k) != []
  }

  /** Exception `i` is the first one for its date, which is at least a horizon ahead, and it has hours. */
  predicate OpensFarDate(h: Schedule, at: Instant, i: nat)
    requires Normal(h) && Gregorian.Valid(at.day) && i < |h.exceptions|
  {
    var e := h.exceptions[i];
    && e.OnDate? && e.hours != [] && (forall j :: 0 <= j < i ==> !AppliesByDate(h.exceptions[j], e.date))
    && Gregorian.Valid(e.date) && Ordinal(e.date) >= Ordinal(at.day) + HORIZON
  }

  ghost predicate SomeFarDateOpens(h: Schedule, at: Instant)
    requires Normal(h) && Gregorian.Valid(at.day)
  {
    exists i :: 0 <= i < |h.exceptions| && OpensFarDate(h, at, i)
  }

  /** There is an opening after the days that are searched. */
  ghost predicate OpensBeyond(h: Schedule, at: Instant)
    requires Normal(h) && Gregorian.Valid(at.day)
  {
    exists offset: nat :: offset >= HORIZON && HoursOn(h, at, offset) != []
  }

  lemma {:induction false} FirstOnDateIndex(exceptions: seq<Exception>, day: Date) returns (i: nat)
    requires FirstOnDate(exceptions, day).Some?
    ensures i < |exceptions| && AppliesByDate(exceptions[i], day)
    ensures exceptions[i].hours == FirstOnDate(exceptions, day).value
    ensures forall j :: 0 <= j < i ==> !AppliesByDate(exceptions[j], day)
  {
    if AppliesByDate(exceptions[0], day) {
      i := 0;
    } else {
      i := FirstOnDateIndex(exceptions[1..], day);
      assert forall j :: 1 <= j <= i ==> exceptions[j] == exceptions[1..][j - 1];
      i := i + 1;
    }
  }

  predicate DatedBefore(e: Exception, bound: int) {
    e.OnDate? ==> Gregorian.Valid(e.date) && Ordinal(e.date) < bound
  }

  /** A day number that no date exception reaches. */
  lemma {:induction false} BeyondExceptions(exceptions: seq<Exception>, from: int) returns (bound: int)
    requires forall i :: 0 <= i < |exceptions| ==> NormalException(exceptions[i])
    ensures bound >= from
    ensures forall i :: 0 <= i < |exceptions| ==> DatedBefore(exceptions[i], bound)
  {
    if exceptions == [] {
      bound := from;
    } else {
      var e, rest := exceptions[0], exceptions[1..];
      assert NormalException(e);
      bound := BeyondExceptions(rest, from);
      if e.OnDate? && Ordinal(e.date) >= bound {
        bound := Ordinal(e.date) + 1;
      }
      assert forall i :: 1 <= i < |exceptions| ==> exceptions[i] == rest[i - 1];
    }
  }

  /** A class with hours comes up after all date exceptions, however far they reach. */
  lemma ClassOpensBeyond(h: Schedule, at: Instant, w: int, k: int)
    requires Normal(h) && ValidInstant(at) && 0 <= w < 7 && 1 <= k <= 5 && ClassHours(h, w, k) != []
    ensures OpensBeyond(h, at)
  {
    var bound := BeyondExceptions(h.exceptions, Ordinal(at.day) + HORIZON);
    var n: nat := bound - Ordinal(at.day);
    var more := ClassRecurs(AddDays(at.day, n), w, k);
    AddDaysAssoc(at.day, n, more);
    AddDaysOrdinal(at.day, n + more);
    assert !HasDateException(h, AddDays(at.day, n + more));
    ClassDecides(h, AddDays(at.day, n + more));
    assert HoursOn(h, at, n + more) != [];
  }

  lemma FarDateOpensBeyond(h: Schedule, at: Instant, i: nat)
    requires Normal(h) && ValidInstant(at) && i < |h.exceptions| && OpensFarDate(h, at, i)
    ensures OpensBeyond(h, at)
  {
    var date := h.exceptions[i].date;
    DaysReach(at.day, date);
    DateRuleDecides(h, date, i);
    assert HoursOn(h, at, Ordinal(date) - Ordinal(at.day)) != [];
  }

  lemma BeyondComesFromRules(h: Schedule, at: Instant, offset: nat)
    requires Normal(h) && ValidInstant(at) && offset >= HORIZON && HoursOn(h, at, offset) != []
    ensures SomeClassOpens(h) || SomeFarDateOpens(h, at)
  {
    var day := AddDays(at.day, offset);
    if FirstOnDate(h.exceptions, day).Some? {
      var i := FirstOnDateIndex(h.exceptions, day);
      AddDaysOrdinal(at.day, offset);
      assert OpensFarDate(h, at, i);
    } else {
      assert ClassHours(h, Weekday(day), NthInMonth(day)) != [];
    }
  }

  /** The exact condition on any schedule: there are openings beyond the days that are searched if and only if some
      weekday has hours for some occurrence in its month, or the first exception for some date at least a horizon
      ahead has hours. An empty search is wrong exactly then. */
  lemma OpensBeyondExactly(h: Schedule, at: Instant)
    requires Normal(h) && ValidInstant(at)
    ensures OpensBeyond(h, at) <==> SomeClassOpens(h) || SomeFarDateOpens(h, at)
  {
    if OpensBeyond(h, at) {
      var offset: nat :| offset >= HORIZON && HoursOn(h, at, offset) != [];
      BeyondComesFromRules(h, at, offset);
    }
    if SomeClassOpens(h) {
      var w, k :| 0 <= w < 7 && 1 <= k <= 5 && ClassHours(h, w, k) != [];
      ClassOpensBeyond(h, at, w, k);
    }
    if SomeFarDateOpens(h, at) {
      var i :| 0 <= i < |h.exceptions| && OpensFarDate(h, at, i);
      FarDateOpensBeyond(h, at, i);
    }
  }

  /** An occurrence of the class inside the horizon that a date exception takes over. */
  predicate Hidden(h: Schedule, at: Instant, w: int, k: int, offset: nat)
    requires Gregorian.Valid(at.day)
  {
    var day := AddDays(at.day, offset);
    && 1 <= offset < HORIZON && Weekday(day) == w && NthInMonth(day) == k && HasDateException(h, day)
  }

  /** An empty search misses a class with hours only where date exceptions take over every one of its occurrences
      inside the horizon, and these are at least two. */
  lemma EmptySearchIsHidden(h: Schedule, at: Instant, w: int, k: int) returns (first: nat, second: nat)
    requires Normal(h) && ValidInstant(at) && NoOpeningBefore(h, at, HORIZON)
    requires 0 <= w < 7 && 1 <= k <= 5 && ClassHours(h, w, k) != []
    ensures first < second && Hidden(h, at, w, k, first) && Hidden(h, at, w, k, second)
    ensures forall offset: nat | 1 <= offset < HORIZON
              && Weekday(AddDays(at.day, offset)) == w && NthInMonth(AddDays(at.day, offset)) == k ::
              HasDateException(h, AddDays(at.day, offset))
  {
    forall offset: nat | 1 <= offset < HORIZON
      && Weekday(AddDays(at.day, offset)) == w && NthInMonth(AddDays(at.day, offset)) == k
      ensures HasDateException(h, AddDays(at.day, offset))
    {
      ClosedClassIsHidden(h, at, offset);
    }
    first := ClassRecurs(at.day, w, k);
    var more := ClassRecurs(AddDays(at.day, first), w, k);
    AddDaysAssoc(at.day, first, more);
    second := first + more;
  }

  lemma ClassOpensOn(h: Schedule, at: Instant, offset: nat)
    requires Normal(h) && ValidInstant(at) && offset >= 1 && !HasDateException(h, AddDays(at.day, offset))
    requires ClassHours(h, Weekday(AddDays(at.day, offset)), NthInMonth(AddDays(at.day, offset))) != []
    ensures !NoOpeningOn(h, at, offset)
  {
    ClassDecides(h, AddDays(at.day, offset));
    assert Qualifies(h, at, offset, 0);
  }

  lemma ClosedClassIsHidden(h: Schedule, at: Instant, offset: nat)
    requires Normal(h) && ValidInstant(at) && NoOpeningBefore(h, at, HORIZON) && 1 <= offset < HORIZON
    requires ClassHours(h, Weekday(AddDays(at.day, offset)), NthInMonth(AddDays(at.day, offset))) != []
    ensures HasDateException(h, AddDays(at.day, offset))
  {
    assert NoOpeningOn(h, at, offset);
    if !HasDateException(h, AddDays(at.day, offset)) {
      ClassOpensOn(h, at, offset);
    }
  }

  /** One schedule of this kind: a facility that opens only on one date 371 days or more ahead has no next opening. */
  lemma FarDateExceptionIsMissed(at: Instant, offset: nat, interval: Interval)
    requires ValidInstant(at) && offset >= HORIZON && NormalInterval(interval)
    ensures var h := Schedule([[], [], [], [], [], [], []], [OnDate(AddDays(at.day, offset), [interval])]);
            && Normal(h) && NoOpeningBefore(h, at, HORIZON)
            && IntervalsFor(h, AddDays(at.day, offset)) == [interval]
  {
    var far := AddDays(at.day, offset);
    var h := Schedule([[], [], [], [], [], [], []], [OnDate(far, [interval])]);
    assert NormalException(h.exceptions[0]);
    forall k: nat | k < HORIZON
      ensures NoOpeningOn(h, at, k)
    {
      NotTheSameDay(at.day, k, offset);
      NothingOnOtherDays(h, far, AddDays(at.day, k));
    }
  }

  lemma NotTheSameDay(day: Date, k: nat, offset: nat)
    requires Gregorian.Valid(day) && k != offset
    ensures AddDays(day, k) != AddDays(day, offset)
  {
    AddDaysOrdinal(day, k);
    AddDaysOrdinal(day, offset);
  }

  lemma NothingOnOtherDays(h: Schedule, far: Date, day: Date)
    requires Normal(h) && Gregorian.Valid(day) && day != far
    requires h.weekly == [[], [], [], [], [], [], []] && |h.exceptions| == 1
    requires h.exceptions[0].OnDate? && h.exceptions[0].date == far
    ensures IntervalsFor(h, day) == []
  {
    assert h.exceptions[1..] == [];
    assert FirstOnDate(h.exceptions, day) == None;
    assert FirstOnNth(h.exceptions, Weekday(day), NthInMonth(day)) == None;
    assert forall w :: 0 <= w < 7 ==> h.weekly[w] == [];
  }

  // ---- Open means open, closed means closed ----

  /** While open: the reported closing time is later, and every instant up to it is open. */
  lemma OpenUntilNextClose(h: Schedule, at: Instant, i: nat, tick: int)
    requires Normal(h) && ValidInstant(at)
    requires i < |IntervalsFor(h, at.day)| && Covers(IntervalsFor(h, at.day)[i], at.tick)
    requires at.tick <= tick < IntervalsFor(h, at.day)[i].close * MINUTE
    ensures ValidInstant(Instant(at.day, tick)) && OpenAt(h, Instant(at.day, tick))
  {
    IntervalsAreNormal(h, at.day);
    assert NormalInterval(IntervalsFor(h, at.day)[i]);
    assert Covers(IntervalsFor(h, at.day)[i], tick);
  }

  /** `a` is strictly before `b`. */
  predicate Before(a: Instant, b: Instant)
    requires ValidInstant(a) && ValidInstant(b)
  {
    Ordinal(a.day) < Ordinal(b.day) || (a.day == b.day && a.tick < b.tick)
  }

  /** While closed: the reported opening is strictly later, and at that moment the facility is open. */
  lemma NextOpenIsOpening(h: Schedule, at: Instant, offset: nat, i: nat)
    requires Normal(h) && ValidInstant(at) && FirstOpening(h, at, offset, i)
    ensures var next := Later(at, offset, HoursOn(h, at, offset)[i].open * MINUTE);
            ValidInstant(next) && Before(at, next) && OpenAt(h, next)
  {
    IntervalsAreNormal(h, AddDays(at.day, offset));
    var interval := HoursOn(h, at, offset)[i];
    assert NormalInterval(interval);
    AddDaysOrdinal(at.day, offset);
    assert Covers(interval, interval.open * MINUTE);
  }

  /** The listed openings of each day come in order. */
  predicate Ordered(intervals: seq<Interval>) {
    forall i, j :: 0 <= i < j < |intervals| ==> intervals[i].open <= intervals[j].open
  }

  /** No interval listed later on the day of the reported opening opens earlier. */
  predicate FirstListedIsEarliest(h: Schedule, at: Instant, offset: nat, i: nat)
    requires Normal(h) && ValidInstant(at) && i < |HoursOn(h, at, offset)|
  {
    forall j :: i < j < |HoursOn(h, at, offset)| && Qualifies(h, at, offset, j) ==>
      HoursOn(h, at, offset)[i].open <= HoursOn(h, at, offset)[j].open
  }

  /** No instant from `at` up to the reported opening is open. */
  ghost predicate ClosedUntil(h: Schedule, at: Instant, offset: nat, tick: int)
    requires Normal(h) && ValidInstant(at)
  {
    forall k: nat, t: int :: k <= offset && 0 <= t < DAY && (k > 0 || t >= at.tick) && (k < offset || t < tick) ==>
      !OpenAt(h, Later(at, k, t))
  }

  lemma CoveredMeansQualified(h: Schedule, at: Instant, k: nat, t: int, j: nat)
    requires Normal(h) && ValidInstant(at) && !OpenAt(h, at)
    requires 0 <= t < DAY && (k > 0 || t >= at.tick)
    requires j < |HoursOn(h, at, k)| && Covers(HoursOn(h, at, k)[j], t)
    ensures Qualifies(h, at, k, j)
  {
    if k == 0 && HoursOn(h, at, 0)[j].open * MINUTE <= at.tick {
      assert Covers(IntervalsFor(h, at.day)[j], at.tick);
    }
  }

  /** Before the end of the search, the facility is open only from the reported opening on. */
  lemma OpenMeansReached(h: Schedule, at: Instant, offset: nat, i: nat, k: nat, t: int)
    requires Normal(h) && ValidInstant(at) && !OpenAt(h, at) && FirstOpening(h, at, offset, i)
    requires FirstListedIsEarliest(h, at, offset, i)
    requires k <= offset && 0 <= t < DAY && (k > 0 || t >= at.tick) && OpenAt(h, Later(at, k, t))
    ensures k == offset && t >= HoursOn(h, at, offset)[i].open * MINUTE
  {
    var j :| 0 <= j < |HoursOn(h, at, k)| && Covers(HoursOn(h, at, k)[j], t);
    CoveredMeansQualified(h, at, k, t, j);
    assert !NoOpeningOn(h, at, k);
  }

  /** Earliest: the facility stays closed until the reported opening if and only if, on that day, no interval listed
      after the reported one opens earlier. In particular it does when every day lists its intervals in order. */
  lemma ClosedUntilNextOpen(h: Schedule, at: Instant, offset: nat, i: nat)
    requires Normal(h) && ValidInstant(at) && !OpenAt(h, at) && FirstOpening(h, at, offset, i)
    ensures ClosedUntil(h, at, offset, HoursOn(h, at, offset)[i].open * MINUTE)
            <==> FirstListedIsEarliest(h, at, offset, i)
    ensures Ordered(HoursOn(h, at, offset)) ==> FirstListedIsEarliest(h, at, offset, i)
  {
    var intervals := HoursOn(h, at, offset);
    if FirstListedIsEarliest(h, at, offset, i) {
      forall k: nat, t: int | k <= offset && 0 <= t < DAY && (k > 0 || t >= at.tick)
                              && (k < offset || t < intervals[i].open * MINUTE)
        ensures !OpenAt(h, Later(at, k, t))
      {
        if OpenAt(h, Later(at, k, t)) {
          OpenMeansReached(h, at, offset, i, k, t);
        }
      }
    } else {
      var j :| i < j < |intervals| && Qualifies(h, at, offset, j) && intervals[i].open > intervals[j].open;
      IntervalsAreNormal(h, AddDays(at.day, offset));
      assert NormalInterval(intervals[j]);
      var t := intervals[j].open * MINUTE;
      assert Covers(intervals[j], t) && OpenAt(h, Later(at, offset, t));
      assert 0 <= t < DAY && t < intervals[i].open * MINUTE;
    }
  }

  /** The whole answer, in terms of instants: what each reported state promises. */
  method ReportOpenState(h: Schedule, at: Instant) returns (state: OpenState)
    requires Normal(h) && ValidInstant(at)
    ensures !state.Unknown? && (state.Open? <==> OpenAt(h, at))
    ensures state.Open? ==> state.nextClose.day == at.day && at.tick < state.nextClose.tick
                            && forall t :: at.tick <= t < state.nextClose.tick ==>
                                 ValidInstant(Instant(at.day, t)) && OpenAt(h, Instant(at.day, t))
    ensures state.Closed? && state.nextOpen.Some? ==>
              ValidInstant(state.nextOpen.value) && Before(at, state.nextOpen.value) && OpenAt(h, state.nextOpen.value)
    ensures (state.Closed? && state.nextOpen.Some?
             && forall day | Gregorian.Valid(day) :: Ordered(IntervalsFor(h, day))) ==>
              exists offset: nat :: state.nextOpen.value.day == AddDays(at.day, offset)
                                    && ClosedUntil(h, at, offset, state.nextOpen.value.tick)
    ensures state.Closed? && state.nextOpen.None? && NoDateExceptions(h) ==>
              forall day | Gregorian.Valid(day) :: IntervalsFor(h, day) == []
  {
    ghost var offset: nat, i: nat;
    state, offset, i := FacilityOpenState(Some(h), at);
    if state.Open? {
      forall t | at.tick <= t < state.nextClose.tick
        ensures ValidInstant(Instant(at.day, t)) && OpenAt(h, Instant(at.day, t))
      {
        OpenUntilNextClose(h, at, i, t);
      }
    } else if state.nextOpen.Some? {
      NextOpenIsOpening(h, at, offset, i);
      ClosedUntilNextOpen(h, at, offset, i);
    } else if NoDateExceptions(h) {
      SearchIsComplete(h, at);
    }
  }
}
