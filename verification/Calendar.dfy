// Normalizing operational calendars (project/btq_vault/operational_calendar.py).
module Calendar {
  import opened Json
  import opened Sorting
  import opened IsoDate
  import opened Words

  /** Field names of calendars, sources and events. */
  datatype Name =
    | SchemaVersion | CalendarId | Label | Timezone | Status | ValidFrom | ValidThrough | LastVerifiedAt
    | LastVerifiedBy | Source | Events | Note
    | Kind | Title | RetrievedAt | PageUrl | DocumentUrl
    | EventId | StartDate | EndDate | StudentStatus | FacilityStatus | ServiceImpact | DismissalTime
    | Unknown(text: string)

  /** An input value; `Otherwise` is any value that no check accepts. */
  datatype Raw = Chars(s: string) | Int(n: int) | Items(list: seq<Raw>) | Fields(fields: map<Name, Raw>) | Otherwise

  type Texts = map<Name, string>

  /** What the program asks of its libraries: the time zone database, the date-time parser (the instant a text
      stands for), the URL parser and the clock-time pattern. */
  datatype Env = Env(zone: string -> bool, moment: string -> Option<int>, url: string -> bool, clock: string -> bool)

  datatype Place = InCalendar | InSource | InEvent

  const STATUSES := {"verified", "reference", "stale"}
  const KINDS := {"first_student_day", "final_student_day", "no_student_day", "school_break", "teacher_in_service",
                  "early_dismissal", "holiday_dismissal", "snow_makeup_reserved", "flexible_instruction_reserved",
                  "informational"}
  const STUDENT_STATUSES := {"in_session", "no_students", "early_dismissal", "unknown"}
  const FACILITY_STATUSES := {"open", "closed", "unknown"}
  const SERVICE_IMPACTS := {"normal", "no_service", "modified", "confirm", "unknown"}

  const CALENDAR_TEXTS := {CalendarId, Label, Timezone, Status, ValidFrom, ValidThrough, LastVerifiedAt, LastVerifiedBy}
  const CALENDAR_REQUIRED := CALENDAR_TEXTS + {SchemaVersion, Source, Events}
  const SOURCE_REQUIRED := {Kind, Title, RetrievedAt}
  const SOURCE_URLS := {PageUrl, DocumentUrl}
  const EVENT_REQUIRED := {EventId, StartDate, EndDate, Kind, Label, StudentStatus, FacilityStatus, ServiceImpact}
  const EVENT_OPTIONAL := {DismissalTime, Note}

  predicate SlugChar(c: char) {
    'a' <= c <= 'z' || '0' <= c <= '9'
  }

  /** `_SLUG_RE`: letters and digits, with single hyphens or underscores between them. */
  predicate IsSlug(s: string) {
    && s != "" && SlugChar(s[0]) && SlugChar(s[|s| - 1])
    && (forall i :: 0 <= i < |s| ==> SlugChar(s[i]) || s[i] == '-' || s[i] == '_')
    && (forall i :: 0 < i < |s| ==> SlugChar(s[i - 1]) || SlugChar(s[i]))
  }

  /** The check that a collapsed text of this field must pass. */
  predicate Allowed(env: Env, place: Place, name: Name, text: string) {
    match name
    case CalendarId => IsSlug(text)
    case EventId => IsSlug(text)
    case ValidFrom => IsDate(text)
    case ValidThrough => IsDate(text)
    case StartDate => IsDate(text)
    case EndDate => IsDate(text)
    case Timezone => env.zone(text)
    case Status => text in STATUSES
    case LastVerifiedAt => env.moment(text).Some?
    case RetrievedAt => env.moment(text).Some?
    case PageUrl => env.url(text)
    case DocumentUrl => env.url(text)
    case Kind => place == InEvent ==> text in KINDS
    case StudentStatus => text in STUDENT_STATUSES
    case FacilityStatus => text in FACILITY_STATUSES
    case ServiceImpact => text in SERVICE_IMPACTS
    case DismissalTime => env.clock(text)
    case _ => true
  }

  /** `_text` and `_required_text` with the check of the field; a note may be empty. */
  function NormalText(env: Env, place: Place, name: Name, raw: Raw): (r: Option<string>)
    ensures r.Some? ==> Allowed(env, place, name, r.value)
  {
    if !raw.Chars? then None
    else
      var text := Collapse(raw.s);
      if (text == "" && name != Note) || !Allowed(env, place, name, text) then None else Some(text)
  }

  function TextNormalizer(env: Env, place: Place): (Name, Raw) -> Option<string> {
    (name, raw) => NormalText(env, place, name, raw)
  }

  predicate AllTexts(normal: (Name, Raw) -> Option<string>, raw: map<Name, Raw>, names: set<Name>) {
    forall name <- names :: name in raw ==> normal(name, raw[name]).Some?
  }

  /** The named fields that are present, each normalized. */
  function NormalTexts(normal: (Name, Raw) -> Option<string>, raw: map<Name, Raw>, names: set<Name>): (r: Option<Texts>)
    ensures r.Some? ==> r.value.Keys == raw.Keys * names
    ensures r.Some? ==> forall name <- r.value :: normal(name, raw[name]) == Some(r.value[name])
  {
    if !AllTexts(normal, raw, names) then None
    else Some(map name | name in names && name in raw :: normal(name, raw[name]).value)
  }

  function NormalEvent(env: Env, raw: Raw): (r: Option<Texts>)
    ensures r.Some? ==> EventId in r.value && StartDate in r.value && EndDate in r.value
  {
    if !raw.Fields? || !(EVENT_REQUIRED <= raw.fields.Keys <= EVENT_REQUIRED + EVENT_OPTIONAL) then None
    else
      var event := NormalTexts(TextNormalizer(env, InEvent), raw.fields, EVENT_REQUIRED + EVENT_OPTIONAL);
      if event.None? then None
      else
        HasEventFields(raw.fields, event.value);
        if StrLeq(event.value[StartDate], event.value[EndDate]) then event else None
  }

  lemma HasEventFields(raw: map<Name, Raw>, event: Texts)
    requires EVENT_REQUIRED <= raw.Keys && event.Keys == raw.Keys * (EVENT_REQUIRED + EVENT_OPTIONAL)
    ensures EventId in event && StartDate in event && EndDate in event
  {
    assert EventId in EVENT_REQUIRED && StartDate in EVENT_REQUIRED && EndDate in EVENT_REQUIRED;
  }

  function NormalSource(env: Env, raw: Raw): (r: Option<Texts>)
    ensures r.Some? ==> RetrievedAt in r.value
  {
    if !raw.Fields? || !(SOURCE_REQUIRED <= raw.fields.Keys <= SOURCE_REQUIRED + SOURCE_URLS)
       || raw.fields.Keys !! SOURCE_URLS then None
    else
      assert RetrievedAt in SOURCE_REQUIRED;
      NormalTexts(TextNormalizer(env, InSource), raw.fields, SOURCE_REQUIRED + SOURCE_URLS)
  }

  ghost predicate IsEvent(event: Texts) {
    && EventId in event && StartDate in event && EndDate in event
    && IsDate(event[StartDate]) && IsDate(event[EndDate]) && StrLeq(event[StartDate], event[EndDate])
  }

  lemma DateIsAllowed(env: Env, place: Place, name: Name, raw: Raw)
    requires name in {ValidFrom, ValidThrough, StartDate, EndDate}
    ensures var text := TextNormalizer(env, place)(name, raw); text.Some? ==> IsDate(text.value)
  {
  }

  lemma NormalEventIsEvent(env: Env, raw: Raw)
    ensures var r := NormalEvent(env, raw); r.Some? ==> IsEvent(r.value)
  {
    if NormalEvent(env, raw).Some? {
      DateIsAllowed(env, InEvent, StartDate, raw.fields[StartDate]);
      DateIsAllowed(env, InEvent, EndDate, raw.fields[EndDate]);
    }
  }

  /** Every element normalized; none when one of them is not accepted. */
  function Every<T>(normal: Raw -> Option<T>, raws: seq<Raw>): (r: Option<seq<T>>)
    ensures r.Some? ==> |r.value| == |raws| && forall i :: 0 <= i < |raws| ==> normal(raws[i]) == Some(r.value[i])
    ensures r.None? ==> exists i :: 0 <= i < |raws| && normal(raws[i]).None?
  {
    if raws == [] then Some([])
    else
      var before, last := Every(normal, raws[..|raws| - 1]), normal(raws[|raws| - 1]);
      if before.None? || last.None? then None else Some(before.value + [last.value])
  }

  function EventNormalizer(env: Env): Raw -> Option<Texts> {
    raw => NormalEvent(env, raw)
  }

  predicate Covered(event: Texts, from: string, through: string) {
    StartDate in event && EndDate in event && StrLeq(from, event[StartDate]) && StrLeq(event[EndDate], through)
  }

  /** No two events have one id, and all lie in the coverage. */
  predicate GoodEvents(events: seq<Texts>, from: string, through: string) {
    && (forall i :: 0 <= i < |events| ==> EventId in events[i] && Covered(events[i], from, through))
    && (forall i, j :: 0 <= i < j < |events| ==> events[i][EventId] != events[j][EventId])
  }

  datatype Calendar = Calendar(texts: Texts, source: Texts, events: seq<Texts>)

  predicate InOrder(env: Env, source: Texts, texts: Texts) {
    && RetrievedAt in source && LastVerifiedAt in texts
    && var retrieved, verified := env.moment(source[RetrievedAt]), env.moment(texts[LastVerifiedAt]);
       retrieved.Some? && verified.Some? && retrieved.value <= verified.value
  }

  /** `normalize_operational_calendar`; none when the calendar is refused. */
  function NormalCalendar(env: Env, raw: Raw): Option<Calendar> {
    if !raw.Fields? || !(CALENDAR_REQUIRED <= raw.fields.Keys <= CALENDAR_REQUIRED + {Note}) then None
    else if raw.fields[SchemaVersion] != Int(1) || !raw.fields[Events].Items? then None
    else
      var texts := NormalTexts(TextNormalizer(env, InCalendar), raw.fields, CALENDAR_TEXTS + {Note});
      var source := NormalSource(env, raw.fields[Source]);
      var events := Every(EventNormalizer(env), raw.fields[Events].list);
      if texts.None? || source.None? || events.None? then None
      else Assembled(env, texts.value, source.value, events.value)
  }

  function Assembled(env: Env, texts: Texts, source: Texts, events: seq<Texts>): Option<Calendar> {
    if ValidFrom !in texts || ValidThrough !in texts || !StrLeq(texts[ValidFrom], texts[ValidThrough]) then None
    else if !InOrder(env, source, texts) || !GoodEvents(events, texts[ValidFrom], texts[ValidThrough]) then None
    else Some(Calendar(texts, source, events))
  }

  // ---- The loops ----

  ghost predicate IdsOf(ids: set<string>, events: seq<Texts>) {
    && (forall i :: 0 <= i < |events| ==> EventId in events[i] && events[i][EventId] in ids)
    && (forall id <- ids :: exists i :: 0 <= i < |events| && EventId in events[i] && events[i][EventId] == id)
  }

  predicate HasIds(normal: Raw -> Option<Texts>, raws: seq<Raw>) {
    forall raw <- raws :: normal(raw).Some? ==> EventId in normal(raw).value
  }

  /** The loop over the events, with the ids seen so far. */
  method NormalizeEvents(normal: Raw -> Option<Texts>, raws: seq<Raw>, from: string, through: string)
    returns (r: Option<seq<Texts>>)
    requires HasIds(normal, raws)
    ensures var events := Every(normal, raws);
            r == if events.Some? && GoodEvents(events.value, from, through) then events else None
  {
    var events: seq<Texts> := [];
    var ids: set<string> := {};
    var n := 0;
    while n < |raws|
      invariant 0 <= n <= |raws|
      invariant Every(normal, raws[..n]) == Some(events)
      invariant GoodEvents(events, from, through) && IdsOf(ids, events)
    {
      assert raws[..n + 1][..n] == raws[..n];
      var raw := raws[n];
      var event := normal(raw);
      if event.None? {
        return None;
      }
      var grown := events + [event.value];
      if event.value[EventId] in ids || !Covered(event.value, from, through) {
        NotGood(ids, events, event.value, from, through);
        BadPrefix(normal, raws, n, grown, from, through);
        return None;
      }
      OneMoreGood(ids, events, event.value, from, through);
      ids := ids + {event.value[EventId]};
      events := grown;
      n := n + 1;
    }
    assert raws[..n] == raws;
    r := Some(events);
  }

  lemma NotGood(ids: set<string>, events: seq<Texts>, event: Texts, from: string, through: string)
    requires IdsOf(ids, events) && EventId in event
    requires event[EventId] in ids || !Covered(event, from, through)
    ensures !GoodEvents(events + [event], from, through)
  {
    var grown := events + [event];
    assert grown[|events|] == event;
    if event[EventId] in ids {
      var i :| 0 <= i < |events| && EventId in events[i] && events[i][EventId] == event[EventId];
      assert grown[i] == events[i];
    }
  }

  lemma OneMoreGood(ids: set<string>, events: seq<Texts>, event: Texts, from: string, through: string)
    requires IdsOf(ids, events) && GoodEvents(events, from, through)
    requires EventId in event && event[EventId] !in ids && Covered(event, from, through)
    ensures IdsOf(ids + {event[EventId]}, events + [event]) && GoodEvents(events + [event], from, through)
  {
    var grown := events + [event];
    assert grown[|events|] == event && forall i :: 0 <= i < |events| ==> grown[i] == events[i];
    forall id <- ids + {event[EventId]}
      ensures exists i :: 0 <= i < |grown| && EventId in grown[i] && grown[i][EventId] == id
    {
      if id in ids {
        var i :| 0 <= i < |events| && EventId in events[i] && events[i][EventId] == id;
        assert grown[i] == events[i];
      }
    }
  }

  /** Events that are bad so far stay bad. */
  lemma BadPrefix(normal: Raw -> Option<Texts>, raws: seq<Raw>, n: nat, grown: seq<Texts>, from: string, through: string)
    requires n < |raws| && Every(normal, raws[..n + 1]) == Some(grown) && !GoodEvents(grown, from, through)
    ensures var events := Every(normal, raws); events.Some? ==> !GoodEvents(events.value, from, through)
  {
    var events := Every(normal, raws);
    if events.Some? {
      forall i | 0 <= i <= n
        ensures events.value[i] == grown[i]
      {
        assert normal(raws[i]) == Some(events.value[i]);
        assert normal(raws[..n + 1][i]) == Some(grown[i]);
      }
      assert events.value[..n + 1] == grown;
      GoodPrefix(events.value, n + 1, from, through);
    }
  }

  lemma GoodPrefix(events: seq<Texts>, n: nat, from: string, through: string)
    requires n <= |events|
    ensures GoodEvents(events, from, through) ==> GoodEvents(events[..n], from, through)
  {
  }

  method NormalizeCalendar(env: Env, raw: Raw) returns (r: Option<Calendar>)
    ensures r == NormalCalendar(env, raw)
  {
    if !raw.Fields? || !(CALENDAR_REQUIRED <= raw.fields.Keys <= CALENDAR_REQUIRED + {Note}) {
      return None;
    }
    if raw.fields[SchemaVersion] != Int(1) || !raw.fields[Events].Items? {
      return None;
    }
    var texts := NormalTexts(TextNormalizer(env, InCalendar), raw.fields, CALENDAR_TEXTS + {Note});
    var source := NormalSource(env, raw.fields[Source]);
    if texts.None? || source.None? {
      return None;
    }
    if ValidFrom !in texts.value || ValidThrough !in texts.value {
      return None;
    }
    if !StrLeq(texts.value[ValidFrom], texts.value[ValidThrough]) || !InOrder(env, source.value, texts.value) {
      return None;
    }
    var events := NormalizeEvents(EventNormalizer(env), raw.fields[Events].list, texts.value[ValidFrom],
                                  texts.value[ValidThrough]);
    r := if events.None? then None else Some(Calendar(texts.value, source.value, events.value));
  }

  function CalendarNormalizer(env: Env): Raw -> Option<Calendar> {
    raw => NormalCalendar(env, raw)
  }

  predicate DistinctCalendars(calendars: seq<Calendar>) {
    && (forall i :: 0 <= i < |calendars| ==> CalendarId in calendars[i].texts)
    && (forall i, j :: 0 <= i < j < |calendars| ==> calendars[i].texts[CalendarId] != calendars[j].texts[CalendarId])
  }

  lemma CalendarHasId(env: Env, raw: Raw)
    ensures var r := NormalCalendar(env, raw); r.Some? ==> CalendarId in r.value.texts
  {
    assert CalendarId in CALENDAR_TEXTS;
  }

  /** `normalize_operational_calendars`; none when the input is refused. */
  function NormalCalendars(env: Env, raw: Raw): Option<seq<Calendar>> {
    if !raw.Items? then None
    else
      var calendars := Every(CalendarNormalizer(env), raw.list);
      if calendars.Some? && DistinctCalendars(calendars.value) then calendars else None
  }

  method NormalizeCalendars(env: Env, raw: Raw) returns (r: Option<seq<Calendar>>)
    ensures r == NormalCalendars(env, raw)
  {
    if !raw.Items? {
      return None;
    }
    forall x <- raw.list | CalendarNormalizer(env)(x).Some?
      ensures CalendarId in CalendarNormalizer(env)(x).value.texts
    {
      CalendarHasId(env, x);
    }
    r := CollectCalendars(CalendarNormalizer(env), raw.list);
  }

  predicate CalendarsHaveIds(normal: Raw -> Option<Calendar>, raws: seq<Raw>) {
    forall raw <- raws :: normal(raw).Some? ==> CalendarId in normal(raw).value.texts
  }

  ghost predicate CalendarIdsOf(ids: set<string>, calendars: seq<Calendar>) {
    && (forall i :: 0 <= i < |calendars| ==> CalendarId in calendars[i].texts && calendars[i].texts[CalendarId] in ids)
    && (forall id <- ids :: exists i :: 0 <= i < |calendars| && CalendarId in calendars[i].texts
                                        && calendars[i].texts[CalendarId] == id)
  }

  method CollectCalendars(normal: Raw -> Option<Calendar>, raws: seq<Raw>) returns (r: Option<seq<Calendar>>)
    requires CalendarsHaveIds(normal, raws)
    ensures var calendars := Every(normal, raws);
            r == if calendars.Some? && DistinctCalendars(calendars.value) then calendars else None
  {
    var calendars: seq<Calendar> := [];
    var ids: set<string> := {};
    var n := 0;
    while n < |raws|
      invariant 0 <= n <= |raws|
      invariant Every(normal, raws[..n]) == Some(calendars)
      invariant DistinctCalendars(calendars) && CalendarIdsOf(ids, calendars)
    {
      assert raws[..n + 1][..n] == raws[..n];
      var raw := raws[n];
      var calendar := normal(raw);
      if calendar.None? {
        return None;
      }
      if calendar.value.texts[CalendarId] in ids {
        RepeatedId(normal, raws, n, ids, calendars, calendar.value);
        return None;
      }
      OneMoreCalendar(ids, calendars, calendar.value);
      ids := ids + {calendar.value.texts[CalendarId]};
      calendars := calendars + [calendar.value];
      n := n + 1;
    }
    assert raws[..n] == raws;
    r := Some(calendars);
  }

  lemma OneMoreCalendar(ids: set<string>, calendars: seq<Calendar>, c: Calendar)
    requires DistinctCalendars(calendars) && CalendarIdsOf(ids, calendars)
    requires CalendarId in c.texts && c.texts[CalendarId] !in ids
    ensures DistinctCalendars(calendars + [c]) && CalendarIdsOf(ids + {c.texts[CalendarId]}, calendars + [c])
  {
    var grown := calendars + [c];
    assert grown[|calendars|] == c && forall i :: 0 <= i < |calendars| ==> grown[i] == calendars[i];
    forall id <- ids + {c.texts[CalendarId]}
      ensures exists i :: 0 <= i < |grown| && CalendarId in grown[i].texts && grown[i].texts[CalendarId] == id
    {
      if id in ids {
        var i :| 0 <= i < |calendars| && CalendarId in calendars[i].texts && calendars[i].texts[CalendarId] == id;
        assert grown[i] == calendars[i];
      }
    }
  }

  /** A repeated id makes the whole list refused. */
  lemma RepeatedId(normal: Raw -> Option<Calendar>, raws: seq<Raw>, n: nat, ids: set<string>, calendars: seq<Calendar>,
                   c: Calendar)
    requires n < |raws| && Every(normal, raws[..n]) == Some(calendars) && normal(raws[n]) == Some(c)
    requires CalendarIdsOf(ids, calendars) && CalendarId in c.texts && c.texts[CalendarId] in ids
    ensures var all := Every(normal, raws); all.Some? ==> !DistinctCalendars(all.value)
  {
    var all := Every(normal, raws);
    if all.Some? {
      var i :| 0 <= i < |calendars| && CalendarId in calendars[i].texts
               && calendars[i].texts[CalendarId] == c.texts[CalendarId];
      assert normal(raws[i]) == Some(all.value[i]) && normal(raws[..n][i]) == Some(calendars[i]);
      assert all.value[n] == c && all.value[i] == calendars[i];
    }
  }

  // ---- What is accepted ----

  /** The dates of the event, as days, inside the days of the coverage. */
  ghost predicate Chronological(c: Calendar, event: Texts) {
    && ValidFrom in c.texts && ValidThrough in c.texts && IsEvent(event)
    && IsDate(c.texts[ValidFrom]) && IsDate(c.texts[ValidThrough])
    && Day(c.texts[ValidFrom]) <= Day(event[StartDate]) <= Day(event[EndDate]) <= Day(c.texts[ValidThrough])
  }

  predicate DistinctEvents(events: seq<Texts>) {
    && (forall i :: 0 <= i < |events| ==> EventId in events[i])
    && (forall i, j :: 0 <= i < j < |events| ==> events[i][EventId] != events[j][EventId])
  }

  /** An accepted calendar covers its events in time, and no two of them share an id. */
  lemma AcceptedIsChronological(env: Env, raw: Raw)
    ensures var r := NormalCalendar(env, raw);
            r.Some? ==>
              && DistinctEvents(r.value.events)
              && forall i :: 0 <= i < |r.value.events| ==> Chronological(r.value, r.value.events[i])
  {
    var r := NormalCalendar(env, raw);
    if r.Some? {
      AcceptedIsWellFormed(env, raw);
      DateIsAllowed(env, InCalendar, ValidFrom, raw.fields[ValidFrom]);
      DateIsAllowed(env, InCalendar, ValidThrough, raw.fields[ValidThrough]);
      EventsAreEvents(env, raw.fields[Events].list);
      forall i | 0 <= i < |r.value.events|
        ensures Chronological(r.value, r.value.events[i])
      {
        assert IsEvent(r.value.events[i]);
        CoveredInTime(r.value, r.value.events[i]);
      }
    }
  }

  lemma EventsAreEvents(env: Env, raws: seq<Raw>)
    ensures var r := Every(EventNormalizer(env), raws);
            r.Some? ==> forall i :: 0 <= i < |r.value| ==> IsEvent(r.value[i])
  {
    var r := Every(EventNormalizer(env), raws);
    if r.Some? {
      forall i | 0 <= i < |r.value|
        ensures IsEvent(r.value[i])
      {
        assert EventNormalizer(env)(raws[i]) == Some(r.value[i]);
        NormalEventIsEvent(env, raws[i]);
      }
    }
  }

  lemma CoveredInTime(c: Calendar, event: Texts)
    requires ValidFrom in c.texts && ValidThrough in c.texts && IsEvent(event)
    requires IsDate(c.texts[ValidFrom]) && IsDate(c.texts[ValidThrough])
    ensures Covered(event, c.texts[ValidFrom], c.texts[ValidThrough]) <==> Chronological(c, event)
  {
    TextOrderIsDayOrder(c.texts[ValidFrom], event[StartDate]);
    TextOrderIsDayOrder(event[StartDate], event[EndDate]);
    TextOrderIsDayOrder(event[EndDate], c.texts[ValidThrough]);
  }

  // ---- Normalizing again ----

  function AsRaw(texts: Texts): map<Name, Raw> {
    map name | name in texts :: Chars(texts[name])
  }

  function EventsAsRaw(events: seq<Texts>): (r: seq<Raw>)
    ensures |r| == |events| && forall i :: 0 <= i < |r| ==> r[i] == Fields(AsRaw(events[i]))
  {
    seq(|events|, i requires 0 <= i < |events| => Fields(AsRaw(events[i])))
  }

  /** The normalized calendar as a new input. */
  function CalendarAsRaw(c: Calendar): Raw {
    Fields(AsRaw(c.texts)[SchemaVersion := Int(1)][Source := Fields(AsRaw(c.source))]
                         [Events := Items(EventsAsRaw(c.events))])
  }

  ghost predicate Settled(normal: (Name, Raw) -> Option<string>) {
    forall name, raw :: normal(name, raw).Some? ==> normal(name, Chars(normal(name, raw).value)) == normal(name, raw)
  }

  lemma TextsSettle(env: Env, place: Place)
    ensures Settled(TextNormalizer(env, place))
  {
    var normal := TextNormalizer(env, place);
    forall name, raw | normal(name, raw).Some?
      ensures normal(name, Chars(normal(name, raw).value)) == normal(name, raw)
    {
      CollapseIsIdempotent(raw.s);
    }
  }

  lemma TextsAgain(normal: (Name, Raw) -> Option<string>, raw: map<Name, Raw>, names: set<Name>, again: map<Name, Raw>)
    requires Settled(normal) && NormalTexts(normal, raw, names).Some?
    requires Repeats(again, NormalTexts(normal, raw, names).value, names)
    ensures NormalTexts(normal, again, names) == NormalTexts(normal, raw, names)
  {
    var texts := NormalTexts(normal, raw, names).value;
    forall name <- names | name in again
      ensures normal(name, again[name]) == Some(texts[name])
    {
      assert normal(name, raw[name]) == Some(texts[name]);
    }
    assert AllTexts(normal, again, names);
    var result := NormalTexts(normal, again, names).value;
    assert result.Keys == texts.Keys;
    assert result == texts;
  }

  /** In these fields the input holds exactly these texts. */
  ghost predicate Repeats(again: map<Name, Raw>, texts: Texts, names: set<Name>) {
    && texts.Keys <= names
    && forall name <- names :: (name in again <==> name in texts) && (name in texts ==> again[name] == Chars(texts[name]))
  }

  lemma EventAgain(env: Env, raw: Raw)
    ensures var r := NormalEvent(env, raw); r.Some? ==> NormalEvent(env, Fields(AsRaw(r.value))) == r
  {
    if NormalEvent(env, raw).Some? {
      var event := NormalEvent(env, raw).value;
      assert event.Keys == raw.fields.Keys;
      SameEvent(env, raw, event, AsRaw(event));
    }
  }

  lemma SameEvent(env: Env, raw: Raw, event: Texts, again: map<Name, Raw>)
    requires NormalEvent(env, raw) == Some(event) && again.Keys == raw.fields.Keys
    requires Repeats(again, event, EVENT_REQUIRED + EVENT_OPTIONAL)
    ensures NormalEvent(env, Fields(again)) == Some(event)
  {
    TextsSettle(env, InEvent);
    TextsAgain(TextNormalizer(env, InEvent), raw.fields, EVENT_REQUIRED + EVENT_OPTIONAL, again);
  }

  lemma SourceAgain(env: Env, raw: Raw)
    ensures var r := NormalSource(env, raw); r.Some? ==> NormalSource(env, Fields(AsRaw(r.value))) == r
  {
    if NormalSource(env, raw).Some? {
      var source := NormalSource(env, raw).value;
      assert source.Keys == raw.fields.Keys;
      TextsSettle(env, InSource);
      TextsAgain(TextNormalizer(env, InSource), raw.fields, SOURCE_REQUIRED + SOURCE_URLS, AsRaw(source));
    }
  }

  lemma EventsAgain(env: Env, raws: seq<Raw>)
    ensures var r := Every(EventNormalizer(env), raws);
            r.Some? ==> Every(EventNormalizer(env), EventsAsRaw(r.value)) == r
  {
    var normal, r := EventNormalizer(env), Every(EventNormalizer(env), raws);
    if r.Some? {
      var again := EventsAsRaw(r.value);
      forall i | 0 <= i < |again|
        ensures normal(again[i]) == Some(r.value[i])
      {
        assert normal(raws[i]) == Some(r.value[i]);
        EventAgain(env, raws[i]);
      }
      EveryIs(normal, again, r.value);
    }
  }

  lemma EveryIs<T>(normal: Raw -> Option<T>, raws: seq<Raw>, events: seq<T>)
    requires |raws| == |events| && forall i :: 0 <= i < |raws| ==> normal(raws[i]) == Some(events[i])
    ensures Every(normal, raws) == Some(events)
  {
    assert Every(normal, raws).Some?;
    assert Every(normal, raws).value == events;
  }

  lemma CalendarTextsAgain(env: Env, fields: map<Name, Raw>, c: Calendar, names: set<Name>)
    requires {SchemaVersion, Source, Events} !! names
    requires NormalTexts(TextNormalizer(env, InCalendar), fields, names) == Some(c.texts)
    ensures NormalTexts(TextNormalizer(env, InCalendar), CalendarAsRaw(c).fields, names) == Some(c.texts)
  {
    TextsSettle(env, InCalendar);
    TextsAgain(TextNormalizer(env, InCalendar), fields, names, CalendarAsRaw(c).fields);
  }

  lemma CalendarKeys(fields: map<Name, Raw>, c: Calendar)
    requires CALENDAR_REQUIRED <= fields.Keys <= CALENDAR_REQUIRED + {Note}
    requires c.texts.Keys == fields.Keys * (CALENDAR_TEXTS + {Note})
    ensures CalendarAsRaw(c).fields.Keys == fields.Keys
  {
  }

  /** The input has the fields a calendar needs, in the right kinds. */
  predicate WellFormed(raw: Raw) {
    && raw.Fields? && CALENDAR_REQUIRED <= raw.fields.Keys <= CALENDAR_REQUIRED + {Note}
    && SchemaVersion in raw.fields && raw.fields[SchemaVersion] == Int(1) && Source in raw.fields
    && Events in raw.fields && raw.fields[Events].Items?
  }

  lemma AcceptedIsWellFormed(env: Env, raw: Raw)
    ensures var r := NormalCalendar(env, raw); r.Some? ==> WellFormed(raw) && HasParts(env, raw, r.value)
  {
    assert {SchemaVersion, Source, Events} <= CALENDAR_REQUIRED;
  }

  /** The normalized parts of the input are those of the calendar, and they fit together. */
  predicate HasParts(env: Env, raw: Raw, c: Calendar)
    requires WellFormed(raw)
  {
    && NormalTexts(TextNormalizer(env, InCalendar), raw.fields, CALENDAR_TEXTS + {Note}) == Some(c.texts)
    && NormalSource(env, raw.fields[Source]) == Some(c.source)
    && Every(EventNormalizer(env), raw.fields[Events].list) == Some(c.events)
    && Assembled(env, c.texts, c.source, c.events) == Some(c)
  }

  lemma PartsDecide(env: Env, raw: Raw, c: Calendar)
    requires WellFormed(raw) && HasParts(env, raw, c)
    ensures NormalCalendar(env, raw) == Some(c)
  {
  }

  lemma RawIsWellFormed(raw: Raw, c: Calendar)
    requires WellFormed(raw) && c.texts.Keys == raw.fields.Keys * (CALENDAR_TEXTS + {Note})
    ensures WellFormed(CalendarAsRaw(c))
    ensures CalendarAsRaw(c).fields[Source] == Fields(AsRaw(c.source))
    ensures CalendarAsRaw(c).fields[Events] == Items(EventsAsRaw(c.events))
  {
    CalendarKeys(raw.fields, c);
  }

  lemma NamesApart()
    ensures {SchemaVersion, Source, Events} !! CALENDAR_TEXTS + {Note}
  {
  }

  lemma PartsAgain(env: Env, source: Raw, events: seq<Raw>, c: Calendar, again: Raw)
    requires NormalSource(env, source) == Some(c.source) && Every(EventNormalizer(env), events) == Some(c.events)
    requires Assembled(env, c.texts, c.source, c.events) == Some(c)
    requires WellFormed(again)
    requires NormalTexts(TextNormalizer(env, InCalendar), again.fields, CALENDAR_TEXTS + {Note}) == Some(c.texts)
    requires again.fields[Source] == Fields(AsRaw(c.source)) && again.fields[Events] == Items(EventsAsRaw(c.events))
    ensures NormalCalendar(env, again) == Some(c)
  {
    SourceAgain(env, source);
    EventsAgain(env, events);
    PartsDecide(env, again, c);
  }

  lemma CalendarAgain(env: Env, raw: Raw, c: Calendar)
    requires WellFormed(raw) && HasParts(env, raw, c)
    ensures NormalCalendar(env, CalendarAsRaw(c)) == Some(c)
  {
    assert WellFormed(CalendarAsRaw(c)) && CalendarAsRaw(c).fields[Source] == Fields(AsRaw(c.source))
           && CalendarAsRaw(c).fields[Events] == Items(EventsAsRaw(c.events)) by {
      RawIsWellFormed(raw, c);
    }
    assert NormalTexts(TextNormalizer(env, InCalendar), CalendarAsRaw(c).fields, CALENDAR_TEXTS + {Note})
           == Some(c.texts) by {
      NamesApart();
      CalendarTextsAgain(env, raw.fields, c, CALENDAR_TEXTS + {Note});
    }
    PartsAgain(env, raw.fields[Source], raw.fields[Events].list, c, CalendarAsRaw(c));
  }

  /** Normalizing a normalized calendar changes nothing. */
  lemma NormalizationIsIdempotent(env: Env, raw: Raw)
    ensures var r := NormalCalendar(env, raw); r.Some? ==> NormalCalendar(env, CalendarAsRaw(r.value)) == r
  {
    if NormalCalendar(env, raw).Some? {
      AcceptedIsWellFormed(env, raw);
      CalendarAgain(env, raw, NormalCalendar(env, raw).value);
    }
  }

  /** The same for a list of calendars, whose ids are distinct. */
  lemma CalendarsAreSettled(env: Env, raw: Raw)
    ensures var r := NormalCalendars(env, raw);
            r.Some? ==> DistinctCalendars(r.value) && NormalCalendars(env, Items(CalendarsAsRaw(r.value))) == r
  {
    var normal, r := CalendarNormalizer(env), NormalCalendars(env, raw);
    if r.Some? {
      var again := CalendarsAsRaw(r.value);
      forall i | 0 <= i < |again|
        ensures normal(again[i]) == Some(r.value[i])
      {
        assert normal(raw.list[i]) == Some(r.value[i]);
        NormalizationIsIdempotent(env, raw.list[i]);
      }
      EveryIs(normal, again, r.value);
    }
  }

  function CalendarsAsRaw(calendars: seq<Calendar>): (r: seq<Raw>)
    ensures |r| == |calendars| && forall i :: 0 <= i < |r| ==> r[i] == CalendarAsRaw(calendars[i])
  {
    seq(|calendars|, i requires 0 <= i < |calendars| => CalendarAsRaw(calendars[i]))
  }

  // ---- Exactly which calendars are normal ----

  /** The fields of a normal object: the required ones and some of the optional ones, each collapsed, nonblank unless
      it is a note, and allowed. */
  predicate NormalFields(env: Env, place: Place, texts: Texts, required: set<Name>, optional: set<Name>) {
    && required <= texts.Keys <= required + optional
    && forall name <- texts :: NormalField(env, place, name, texts[name])
  }

  predicate NormalField(env: Env, place: Place, name: Name, text: string) {
    Collapse(text) == text && (text != "" || name == Note) && Allowed(env, place, name, text)
  }

  /** Two date texts, the first no later than the second. */
  predicate NoLater(a: string, b: string) {
    IsDate(a) && IsDate(b) && Day(a) <= Day(b)
  }

  predicate IsNormalEvent(env: Env, event: Texts) {
    && NormalFields(env, InEvent, event, EVENT_REQUIRED, EVENT_OPTIONAL)
    && StartDate in event && EndDate in event && NoLater(event[StartDate], event[EndDate])
  }

  predicate IsNormalSource(env: Env, source: Texts) {
    NormalFields(env, InSource, source, SOURCE_REQUIRED, SOURCE_URLS) && !(source.Keys !! SOURCE_URLS)
  }

  /** The parts fit together: the coverage does not end before it starts, every event lies inside it, no two events
      share an id, and the calendar was not verified before its source was retrieved. */
  ghost predicate FitTogether(env: Env, c: Calendar) {
    && ValidFrom in c.texts && ValidThrough in c.texts && NoLater(c.texts[ValidFrom], c.texts[ValidThrough])
    && (forall i :: 0 <= i < |c.events| ==> Chronological(c, c.events[i])) && DistinctEvents(c.events)
    && RetrievedAt in c.source && LastVerifiedAt in c.texts
    && var retrieved, verified := env.moment(c.source[RetrievedAt]), env.moment(c.texts[LastVerifiedAt]);
       retrieved.Some? && verified.Some? && retrieved.value <= verified.value
  }

  predicate NormalEvents(env: Env, events: seq<Texts>) {
    forall i :: 0 <= i < |events| ==> IsNormalEvent(env, events[i])
  }

  /** The parts of a calendar, each normal on its own. */
  ghost predicate NormalParts(env: Env, c: Calendar) {
    && NormalFields(env, InCalendar, c.texts, CALENDAR_TEXTS, {Note}) && IsNormalSource(env, c.source)
    && NormalEvents(env, c.events)
  }

  ghost predicate IsNormal(env: Env, c: Calendar) {
    NormalParts(env, c) && FitTogether(env, c)
  }

  lemma NormalDates(env: Env, place: Place, texts: Texts, required: set<Name>, optional: set<Name>, from: Name, to: Name)
    requires NormalFields(env, place, texts, required, optional)
    requires from in texts && to in texts && IsDateName(from) && IsDateName(to)
    ensures IsDate(texts[from]) && IsDate(texts[to])
    ensures StrLeq(texts[from], texts[to]) <==> NoLater(texts[from], texts[to])
  {
    DateField(env, place, from, texts[from]);
    DateField(env, place, to, texts[to]);
    TextOrderIsDayOrder(texts[from], texts[to]);
  }

  predicate IsDateName(name: Name) {
    name.ValidFrom? || name.ValidThrough? || name.StartDate? || name.EndDate?
  }

  lemma DateField(env: Env, place: Place, name: Name, text: string)
    requires NormalField(env, place, name, text) && IsDateName(name)
    ensures IsDate(text)
  {
  }

  /** Calendars whose dates are dates and whose events are events. */
  ghost predicate HasDates(c: Calendar) {
    && ValidFrom in c.texts && ValidThrough in c.texts && IsDate(c.texts[ValidFrom]) && IsDate(c.texts[ValidThrough])
    && forall i :: 0 <= i < |c.events| ==> IsEvent(c.events[i])
  }

  lemma GoodMeansChronological(c: Calendar)
    requires HasDates(c)
    ensures GoodEvents(c.events, c.texts[ValidFrom], c.texts[ValidThrough])
            <==> DistinctEvents(c.events) && forall i :: 0 <= i < |c.events| ==> Chronological(c, c.events[i])
  {
    forall i | 0 <= i < |c.events|
      ensures Covered(c.events[i], c.texts[ValidFrom], c.texts[ValidThrough]) <==> Chronological(c, c.events[i])
    {
      assert IsEvent(c.events[i]);
      CoveredInTime(c, c.events[i]);
    }
  }

  lemma AssembledExactly(env: Env, c: Calendar)
    requires HasDates(c)
    ensures Assembled(env, c.texts, c.source, c.events) == Some(c) <==> FitTogether(env, c)
  {
    TextOrderIsDayOrder(c.texts[ValidFrom], c.texts[ValidThrough]);
    GoodMeansChronological(c);
  }

  lemma NormalHasDates(env: Env, c: Calendar)
    requires NormalFields(env, InCalendar, c.texts, CALENDAR_TEXTS, {Note})
    requires forall i :: 0 <= i < |c.events| ==> IsNormalEvent(env, c.events[i])
    ensures HasDates(c)
  {
    assert {ValidFrom, ValidThrough} <= CALENDAR_TEXTS;
    NormalDates(env, InCalendar, c.texts, CALENDAR_TEXTS, {Note}, ValidFrom, ValidThrough);
    forall i | 0 <= i < |c.events|
      ensures IsEvent(c.events[i])
    {
      NormalEventHasDates(env, c.events[i]);
    }
  }

  lemma NormalEventHasDates(env: Env, event: Texts)
    requires IsNormalEvent(env, event)
    ensures IsEvent(event)
  {
    HasEventNames(event);
    NormalDates(env, InEvent, event, EVENT_REQUIRED, EVENT_OPTIONAL, StartDate, EndDate);
  }

  lemma HasEventNames(event: Texts)
    requires EVENT_REQUIRED <= event.Keys
    ensures EventId in event && StartDate in event && EndDate in event
  {
    assert {EventId, StartDate, EndDate} <= EVENT_REQUIRED;
  }

  lemma FieldIsFixed(env: Env, place: Place, name: Name, text: string)
    ensures TextNormalizer(env, place)(name, Chars(text)) == Some(text) <==> NormalField(env, place, name, text)
  {
  }

  /** Texts come back exactly when each of them is normal. */
  lemma TextsAreFixed(env: Env, place: Place, texts: Texts, names: set<Name>, again: map<Name, Raw>)
    requires Repeats(again, texts, names)
    ensures NormalTexts(TextNormalizer(env, place), again, names) == Some(texts)
            <==> forall name <- texts :: NormalField(env, place, name, texts[name])
  {
    var normal := TextNormalizer(env, place);
    forall name <- texts
      ensures normal(name, again[name]) == Some(texts[name]) <==> NormalField(env, place, name, texts[name])
    {
      FieldIsFixed(env, place, name, texts[name]);
    }
    FixedTexts(normal, texts, names, again);
  }

  lemma FixedTexts(normal: (Name, Raw) -> Option<string>, texts: Texts, names: set<Name>, again: map<Name, Raw>)
    requires Repeats(again, texts, names)
    ensures NormalTexts(normal, again, names) == Some(texts)
            <==> forall name <- texts :: normal(name, again[name]) == Some(texts[name])
  {
    if forall name <- texts :: normal(name, again[name]) == Some(texts[name]) {
      assert AllTexts(normal, again, names);
      var result := NormalTexts(normal, again, names).value;
      assert result.Keys == texts.Keys;
      assert result == texts;
    }
  }

  lemma FieldsAreFixed(env: Env, place: Place, texts: Texts, required: set<Name>, optional: set<Name>,
                       again: map<Name, Raw>)
    requires required <= texts.Keys <= required + optional && Repeats(again, texts, required + optional)
    ensures NormalTexts(TextNormalizer(env, place), again, required + optional) == Some(texts)
            <==> NormalFields(env, place, texts, required, optional)
  {
    TextsAreFixed(env, place, texts, required + optional, again);
  }

  lemma EventIsFixed(env: Env, event: Texts)
    ensures NormalEvent(env, Fields(AsRaw(event))) == Some(event) <==> IsNormalEvent(env, event)
  {
    if EVENT_REQUIRED <= event.Keys <= EVENT_REQUIRED + EVENT_OPTIONAL {
      ThisEventIsFixed(env, event, AsRaw(event));
    }
  }

  lemma ThisEventIsFixed(env: Env, event: Texts, again: map<Name, Raw>)
    requires EVENT_REQUIRED <= event.Keys <= EVENT_REQUIRED + EVENT_OPTIONAL && again.Keys == event.Keys
    requires Repeats(again, event, EVENT_REQUIRED + EVENT_OPTIONAL)
    ensures NormalEvent(env, Fields(again)) == Some(event) <==> IsNormalEvent(env, event)
  {
    HasEventNames(event);
    FieldsAreFixed(env, InEvent, event, EVENT_REQUIRED, EVENT_OPTIONAL, again);
    if NormalFields(env, InEvent, event, EVENT_REQUIRED, EVENT_OPTIONAL) {
      NormalDates(env, InEvent, event, EVENT_REQUIRED, EVENT_OPTIONAL, StartDate, EndDate);
    }
  }

  lemma SourceIsFixed(env: Env, source: Texts)
    ensures NormalSource(env, Fields(AsRaw(source))) == Some(source) <==> IsNormalSource(env, source)
  {
    if SOURCE_REQUIRED <= source.Keys <= SOURCE_REQUIRED + SOURCE_URLS {
      FieldsAreFixed(env, InSource, source, SOURCE_REQUIRED, SOURCE_URLS, AsRaw(source));
    }
  }

  ghost predicate FixedAt<T>(normal: Raw -> Option<T>, raws: seq<Raw>, events: seq<T>, i: nat)
    requires i < |raws| && i < |events|
  {
    normal(raws[i]) == Some(events[i])
  }

  lemma EveryIsFixed<T>(normal: Raw -> Option<T>, raws: seq<Raw>, events: seq<T>)
    requires |raws| == |events|
    ensures Every(normal, raws) == Some(events) <==> forall i :: 0 <= i < |events| ==> FixedAt(normal, raws, events, i)
  {
    if forall i :: 0 <= i < |events| ==> FixedAt(normal, raws, events, i) {
      forall i | 0 <= i < |events|
        ensures normal(raws[i]) == Some(events[i])
      {
        assert FixedAt(normal, raws, events, i);
      }
      EveryIs(normal, raws, events);
    }
  }

  lemma EventIsFixedAt(env: Env, events: seq<Texts>, i: nat)
    requires i < |events|
    ensures FixedAt(EventNormalizer(env), EventsAsRaw(events), events, i) <==> IsNormalEvent(env, events[i])
  {
    EventIsFixed(env, events[i]);
  }

  lemma EventsAreFixed(env: Env, events: seq<Texts>)
    ensures Every(EventNormalizer(env), EventsAsRaw(events)) == Some(events)
            <==> NormalEvents(env, events)
  {
    EveryIsFixed(EventNormalizer(env), EventsAsRaw(events), events);
    forall i | 0 <= i < |events|
      ensures FixedAt(EventNormalizer(env), EventsAsRaw(events), events, i) <==> IsNormalEvent(env, events[i])
    {
      EventIsFixedAt(env, events, i);
    }
  }

  lemma RawShape(c: Calendar)
    requires CALENDAR_TEXTS <= c.texts.Keys <= CALENDAR_TEXTS + {Note}
    ensures var again := CalendarAsRaw(c);
            && WellFormed(again) && Repeats(again.fields, c.texts, CALENDAR_TEXTS + {Note})
            && again.fields[Source] == Fields(AsRaw(c.source)) && again.fields[Events] == Items(EventsAsRaw(c.events))
  {
    NamesApart();
  }

  lemma PartsAreFixed(env: Env, c: Calendar)
    requires CALENDAR_TEXTS <= c.texts.Keys <= CALENDAR_TEXTS + {Note} && WellFormed(CalendarAsRaw(c))
    ensures HasParts(env, CalendarAsRaw(c), c)
            <==> NormalParts(env, c) && Assembled(env, c.texts, c.source, c.events) == Some(c)
  {
    RawShape(c);
    TheseAreFixed(env, c, CalendarAsRaw(c));
  }

  lemma TheseAreFixed(env: Env, c: Calendar, again: Raw)
    requires CALENDAR_TEXTS <= c.texts.Keys <= CALENDAR_TEXTS + {Note}
    requires WellFormed(again) && Repeats(again.fields, c.texts, CALENDAR_TEXTS + {Note})
    requires again.fields[Source] == Fields(AsRaw(c.source)) && again.fields[Events] == Items(EventsAsRaw(c.events))
    ensures HasParts(env, again, c)
            <==> NormalParts(env, c) && Assembled(env, c.texts, c.source, c.events) == Some(c)
  {
    FieldsAreFixed(env, InCalendar, c.texts, CALENDAR_TEXTS, {Note}, again.fields);
    SourceIsFixed(env, c.source);
    EventsAreFixed(env, c.events);
  }

  lemma NormalExactly(env: Env, c: Calendar)
    ensures IsNormal(env, c) <==> NormalParts(env, c) && Assembled(env, c.texts, c.source, c.events) == Some(c)
  {
    if NormalParts(env, c) {
      NormalHasDates(env, c);
      AssembledExactly(env, c);
    }
  }

  /** The calendars that normalization accepts unchanged are exactly the normal ones. */
  lemma NormalIsExact(env: Env, c: Calendar)
    ensures NormalCalendar(env, CalendarAsRaw(c)) == Some(c) <==> IsNormal(env, c)
  {
    NormalExactly(env, c);
    if NormalCalendar(env, CalendarAsRaw(c)) == Some(c) {
      AcceptedIsWellFormed(env, CalendarAsRaw(c));
      AcceptedTexts(env, CalendarAsRaw(c), c);
      PartsAreFixed(env, c);
    } else if IsNormal(env, c) {
      RawShape(c);
      PartsAreFixed(env, c);
      PartsDecide(env, CalendarAsRaw(c), c);
    }
  }

  lemma AcceptedTexts(env: Env, raw: Raw, c: Calendar)
    requires WellFormed(raw) && HasParts(env, raw, c)
    ensures CALENDAR_TEXTS <= c.texts.Keys <= CALENDAR_TEXTS + {Note}
  {
    assert CALENDAR_TEXTS <= CALENDAR_REQUIRED;
  }
}
