// Exactly which inputs are accepted as an operational calendar, and as which one: the collapsed texts of the input have
// to be a normal calendar, and they are the result.
module CalendarInput {
  import opened Words
  import opened Json
  import opened Calendar

  /** The texts are the collapsed texts of the named fields of the input. */
  predicate Collapses(raw: map<Name, Raw>, texts: Texts, names: set<Name>) {
    && texts.Keys == raw.Keys * names
    && forall name <- texts :: raw[name].Chars? && texts[name] == Collapse(raw[name].s)
  }

  /** The object holds exactly these fields, and its texts collapse to these. */
  predicate CollapsesAll(raw: Raw, texts: Texts) {
    raw.Fields? && Collapses(raw.fields, texts, texts.Keys) && raw.fields.Keys == texts.Keys
  }

  predicate EventCollapses(raws: seq<Raw>, events: seq<Texts>, i: nat)
    requires i < |raws| && i < |events|
  {
    CollapsesAll(raws[i], events[i])
  }

  /** The input says what the calendar says, up to blanks. */
  ghost predicate Means(raw: Raw, c: Calendar) {
    && WellFormed(raw)
    && Collapses(raw.fields, c.texts, CALENDAR_TEXTS + {Note})
    && CollapsesAll(raw.fields[Source], c.source)
    && |raw.fields[Events].list| == |c.events|
    && forall i :: 0 <= i < |c.events| ==> EventCollapses(raw.fields[Events].list, c.events, i)
  }

  lemma FieldCollapses(env: Env, place: Place, name: Name, raw: Raw, text: string)
    ensures TextNormalizer(env, place)(name, raw) == Some(text)
            <==> raw.Chars? && text == Collapse(raw.s) && NormalField(env, place, name, text)
  {
    if raw.Chars? {
      CollapseIsIdempotent(raw.s);
    }
  }

  /** The fields of the input normalize to these texts. */
  ghost predicate Normalizes(normal: (Name, Raw) -> Option<string>, raw: map<Name, Raw>, texts: Texts,
                             names: set<Name>)
  {
    texts.Keys == raw.Keys * names && forall name <- texts :: normal(name, raw[name]) == Some(texts[name])
  }

  lemma NormalTextsAre(normal: (Name, Raw) -> Option<string>, raw: map<Name, Raw>, names: set<Name>, texts: Texts)
    ensures NormalTexts(normal, raw, names) == Some(texts) <==> Normalizes(normal, raw, texts, names)
  {
    if Normalizes(normal, raw, texts, names) {
      forall name <- names | name in raw
        ensures normal(name, raw[name]).Some?
      {
        assert name in texts;
      }
      assert AllTexts(normal, raw, names);
      var result := NormalTexts(normal, raw, names).value;
      assert result.Keys == texts.Keys;
      assert result == texts;
    }
  }

  ghost predicate AllNormal(env: Env, place: Place, texts: Texts) {
    forall name <- texts :: NormalField(env, place, name, texts[name])
  }

  lemma TextsCollapse(env: Env, place: Place, raw: map<Name, Raw>, names: set<Name>, texts: Texts)
    ensures NormalTexts(TextNormalizer(env, place), raw, names) == Some(texts)
            <==> Collapses(raw, texts, names) && AllNormal(env, place, texts)
  {
    var normal := TextNormalizer(env, place);
    NormalTextsAre(normal, raw, names, texts);
    if texts.Keys == raw.Keys * names {
      forall name <- texts
        ensures normal(name, raw[name]) == Some(texts[name])
                <==> && raw[name].Chars? && texts[name] == Collapse(raw[name].s)
                     && NormalField(env, place, name, texts[name])
      {
        FieldCollapses(env, place, name, raw[name], texts[name]);
      }
    }
  }

  /** The same for an object with required and optional fields and no others. */
  lemma FieldsCollapse(env: Env, place: Place, raw: Raw, required: set<Name>, optional: set<Name>, texts: Texts)
    requires raw.Fields? && required <= raw.fields.Keys <= required + optional
    ensures NormalTexts(TextNormalizer(env, place), raw.fields, required + optional) == Some(texts)
            <==> CollapsesAll(raw, texts) && NormalFields(env, place, texts, required, optional)
  {
    TextsCollapse(env, place, raw.fields, required + optional, texts);
    assert raw.fields.Keys * (required + optional) == raw.fields.Keys;
  }

  lemma EventIsAccepted(env: Env, raw: Raw, event: Texts)
    ensures NormalEvent(env, raw) == Some(event) <==> CollapsesAll(raw, event) && IsNormalEvent(env, event)
  {
    if raw.Fields? && EVENT_REQUIRED <= raw.fields.Keys <= EVENT_REQUIRED + EVENT_OPTIONAL {
      FieldsCollapse(env, InEvent, raw, EVENT_REQUIRED, EVENT_OPTIONAL, event);
      if NormalFields(env, InEvent, event, EVENT_REQUIRED, EVENT_OPTIONAL) {
        HasEventNames(event);
        NormalDates(env, InEvent, event, EVENT_REQUIRED, EVENT_OPTIONAL, StartDate, EndDate);
      }
    }
  }

  lemma SourceIsAccepted(env: Env, raw: Raw, source: Texts)
    ensures NormalSource(env, raw) == Some(source) <==> CollapsesAll(raw, source) && IsNormalSource(env, source)
  {
    if raw.Fields? && SOURCE_REQUIRED <= raw.fields.Keys <= SOURCE_REQUIRED + SOURCE_URLS {
      FieldsCollapse(env, InSource, raw, SOURCE_REQUIRED, SOURCE_URLS, source);
    }
  }

  /** Event `i` of the input is accepted as event `i` of the result. */
  ghost predicate AcceptedAt(env: Env, raws: seq<Raw>, events: seq<Texts>, i: nat)
    requires i < |raws| && i < |events|
  {
    EventCollapses(raws, events, i) && IsNormalEvent(env, events[i])
  }

  lemma EventIsAcceptedAt(env: Env, raws: seq<Raw>, events: seq<Texts>, i: nat)
    requires i < |raws| == |events|
    ensures FixedAt(EventNormalizer(env), raws, events, i) <==> AcceptedAt(env, raws, events, i)
  {
    EventIsAccepted(env, raws[i], events[i]);
  }

  lemma EventsAreAccepted(env: Env, raws: seq<Raw>, events: seq<Texts>)
    requires |raws| == |events|
    ensures Every(EventNormalizer(env), raws) == Some(events)
            <==> forall i :: 0 <= i < |events| ==> AcceptedAt(env, raws, events, i)
  {
    EveryIsFixed(EventNormalizer(env), raws, events);
    forall i | 0 <= i < |events|
      ensures FixedAt(EventNormalizer(env), raws, events, i) <==> AcceptedAt(env, raws, events, i)
    {
      EventIsAcceptedAt(env, raws, events, i);
    }
  }

  lemma AllAccepted(env: Env, raws: seq<Raw>, events: seq<Texts>)
    requires |raws| == |events|
    ensures (forall i :: 0 <= i < |events| ==> AcceptedAt(env, raws, events, i))
            <==> NormalEvents(env, events) && forall i :: 0 <= i < |events| ==> EventCollapses(raws, events, i)
  {
    forall i | 0 <= i < |events|
      ensures AcceptedAt(env, raws, events, i) <==> EventCollapses(raws, events, i) && IsNormalEvent(env, events[i])
    {
    }
  }

  lemma PartsAreAccepted(env: Env, raw: Raw, c: Calendar)
    requires WellFormed(raw)
    ensures HasParts(env, raw, c)
            <==> Means(raw, c) && NormalParts(env, c) && Assembled(env, c.texts, c.source, c.events) == Some(c)
  {
    var list := raw.fields[Events].list;
    TextsCollapse(env, InCalendar, raw.fields, CALENDAR_TEXTS + {Note}, c.texts);
    CalendarTextsAreNormal(env, raw.fields, c.texts);
    SourceIsAccepted(env, raw.fields[Source], c.source);
    if |list| == |c.events| {
      EventsAreAccepted(env, list, c.events);
      AllAccepted(env, list, c.events);
    }
  }

  lemma CalendarTextsAreNormal(env: Env, fields: map<Name, Raw>, texts: Texts)
    requires CALENDAR_REQUIRED <= fields.Keys <= CALENDAR_REQUIRED + {Note}
    ensures Collapses(fields, texts, CALENDAR_TEXTS + {Note}) ==>
              (AllNormal(env, InCalendar, texts) <==> NormalFields(env, InCalendar, texts, CALENDAR_TEXTS, {Note}))
  {
    assert CALENDAR_TEXTS <= CALENDAR_REQUIRED;
  }

  /** The exact specification of normalization, for every input: it is accepted as calendar `c` if and only if `c` is
      what the input says with its texts collapsed, and `c` is normal. Every other input is refused. */
  lemma AcceptedExactly(env: Env, raw: Raw, c: Calendar)
    ensures NormalCalendar(env, raw) == Some(c) <==> Means(raw, c) && IsNormal(env, c)
  {
    NormalExactly(env, c);
    if NormalCalendar(env, raw) == Some(c) {
      AcceptedIsWellFormed(env, raw);
      PartsAreAccepted(env, raw, c);
    } else if Means(raw, c) && IsNormal(env, c) {
      PartsAreAccepted(env, raw, c);
      PartsDecide(env, raw, c);
    }
  }

  /** Calendar `i` of the input is accepted as calendar `i` of the result. */
  ghost predicate CalendarAt(env: Env, raws: seq<Raw>, calendars: seq<Calendar>, i: nat)
    requires i < |raws| && i < |calendars|
  {
    Means(raws[i], calendars[i]) && IsNormal(env, calendars[i])
  }

  lemma CalendarIsAcceptedAt(env: Env, raws: seq<Raw>, calendars: seq<Calendar>, i: nat)
    requires i < |raws| == |calendars|
    ensures FixedAt(CalendarNormalizer(env), raws, calendars, i) <==> CalendarAt(env, raws, calendars, i)
  {
    AcceptedExactly(env, raws[i], calendars[i]);
  }

  /** The same for a list of calendars, whose ids have to be distinct. */
  lemma ListAcceptedExactly(env: Env, raw: Raw, calendars: seq<Calendar>)
    ensures NormalCalendars(env, raw) == Some(calendars)
            <==> && raw.Items? && |raw.list| == |calendars| && DistinctCalendars(calendars)
                 && forall i :: 0 <= i < |calendars| ==> CalendarAt(env, raw.list, calendars, i)
  {
    if raw.Items? && |raw.list| == |calendars| {
      EveryIsFixed(CalendarNormalizer(env), raw.list, calendars);
      forall i | 0 <= i < |calendars|
        ensures FixedAt(CalendarNormalizer(env), raw.list, calendars, i) <==> CalendarAt(env, raw.list, calendars, i)
      {
        CalendarIsAcceptedAt(env, raw.list, calendars, i);
      }
    }
  }
}
