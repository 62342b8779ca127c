// Merging the staffing-risk events of a site (project/event_pipeline/enricher.py).
module Staffing {
  import opened Json
  import opened Sorting
  import opened Text

  /** An event; `openPositions` and `severity` may be absent, `rest` stands for the fields nothing here reads. */
  datatype Event = Event(kind: string, site: string, openPositions: Option<int>, severity: Option<string>,
                         details: string, sourceExcerpt: string, rest: string)

  predicate IsStaffing(e: Event) {
    e.kind == "staffing_risk"
  }

  function Positions(e: Event): int {
    if e.openPositions.Some? then e.openPositions.value else 0
  }

  function SeverityOf(e: Event): string {
    if e.severity.Some? then e.severity.value else "low"
  }

  function Rank(severity: string): int {
    if severity == "low" then 0 else if severity == "medium" then 1 else if severity == "high" then 2
    else if severity == "critical" then 3 else -1
  }

  /** `existing` after it took in a further event of its site. */
  function Merge(existing: Event, event: Event): Event {
    var total := Positions(existing) + Positions(event);
    var count := if total > 0 then total else if Positions(existing) != 0 then Positions(existing) else Positions(event);
    var severity := if Rank(SeverityOf(event)) > Rank(SeverityOf(existing)) then Some(SeverityOf(event))
                    else existing.severity;
    existing.(
      openPositions := Some(count),
      severity := if count >= 2 then Some("critical") else severity,
      details := existing.details + "; " + event.details,
      sourceExcerpt := Strip(existing.sourceExcerpt + " " + event.sourceExcerpt))
  }

  function MergeAll(group: seq<Event>): (r: Event)
    requires group != []
    ensures r.site == group[0].site && r.kind == group[0].kind
  {
    if |group| == 1 then group[0] else Merge(MergeAll(group[..|group| - 1]), group[|group| - 1])
  }

  /** The staffing events of a site, in order. */
  function EventsOf(events: seq<Event>, site: string): seq<Event> {
    if events == [] then []
    else
      var e, before := events[|events| - 1], EventsOf(events[..|events| - 1], site);
      if IsStaffing(e) && e.site == site then before + [e] else before
  }

  function Passthrough(events: seq<Event>): seq<Event> {
    if events == [] then []
    else
      var e, before := events[|events| - 1], Passthrough(events[..|events| - 1]);
      if IsStaffing(e) then before else before + [e]
  }

  /** The sites of the staffing events, by first occurrence. */
  function Sites(events: seq<Event>): seq<string> {
    if events == [] then []
    else
      var e, before := events[|events| - 1], Sites(events[..|events| - 1]);
      if IsStaffing(e) && e.site !in before then before + [e.site] else before
  }

  predicate Distinct(sites: seq<string>) {
    forall i, j :: 0 <= i < j < |sites| ==> sites[i] != sites[j]
  }

  // ---- Appending one element ----

  lemma AppendPassthrough(events: seq<Event>, e: Event)
    ensures Passthrough(events + [e]) == if IsStaffing(e) then Passthrough(events) else Passthrough(events) + [e]
  {
    assert (events + [e])[..|events|] == events;
  }

  lemma AppendSites(events: seq<Event>, e: Event)
    ensures Sites(events + [e])
            == if IsStaffing(e) && e.site !in Sites(events) then Sites(events) + [e.site] else Sites(events)
  {
    assert (events + [e])[..|events|] == events;
  }

  lemma AppendSum(events: seq<Event>, e: Event)
    ensures Sum(events + [e]) == Sum(events) + Positions(e)
  {
    assert (events + [e])[..|events|] == events;
  }

  lemma AppendTotal(events: seq<Event>, e: Event)
    ensures Total(events + [e]) == Total(events) + if IsStaffing(e) then Positions(e) else 0
  {
    assert (events + [e])[..|events|] == events;
  }

  lemma AppendMerge(events: seq<Event>, e: Event)
    ensures events != [] ==> MergeAll(events + [e]) == Merge(MergeAll(events), e)
  {
    assert (events + [e])[..|events|] == events;
  }

  lemma AppendToSite(events: seq<Event>, e: Event, site: string)
    ensures EventsOf(events + [e], site)
            == if IsStaffing(e) && e.site == site then EventsOf(events, site) + [e] else EventsOf(events, site)
  {
    assert (events + [e])[..|events|] == events;
  }

  lemma AppendSumOver(weight: string -> int, sites: seq<string>, site: string)
    ensures SumOver(weight, sites + [site]) == SumOver(weight, sites) + weight(site)
  {
    assert (sites + [site])[..|sites|] == sites;
  }

  lemma AppendRow(events: seq<Event>, sites: seq<string>, site: string)
    ensures Rows(events, sites + [site])
            == if Row(events, site).Some? then Rows(events, sites) + [Row(events, site).value] else Rows(events, sites)
  {
    assert (sites + [site])[..|sites|] == sites;
  }

  lemma One(e: Event)
    ensures Sum([e]) == Positions(e) && MergeAll([e]) == e
  {
    assert [e][..0] == [];
  }

  lemma {:induction false} EventsOfAreOfSite(events: seq<Event>, site: string)
    ensures forall i :: 0 <= i < |EventsOf(events, site)| ==>
              IsStaffing(EventsOf(events, site)[i]) && EventsOf(events, site)[i].site == site
  {
    if events != [] {
      EventsOfAreOfSite(events[..|events| - 1], site);
    }
  }

  lemma {:induction false} PassthroughAreOthers(events: seq<Event>)
    ensures forall i :: 0 <= i < |Passthrough(events)| ==> !IsStaffing(Passthrough(events)[i])
  {
    if events != [] {
      PassthroughAreOthers(events[..|events| - 1]);
    }
  }

  lemma {:induction false} SitesAreDistinct(events: seq<Event>)
    ensures Distinct(Sites(events))
  {
    if events != [] {
      SitesAreDistinct(events[..|events| - 1]);
    }
  }

  lemma {:induction false} SitesHaveEvents(events: seq<Event>, site: string)
    ensures site in Sites(events) <==> EventsOf(events, site) != []
  {
    if events != [] {
      SitesHaveEvents(events[..|events| - 1], site);
    }
  }

  function Row(events: seq<Event>, site: string): Option<Event> {
    var group := EventsOf(events, site);
    if group == [] then None else Some(MergeAll(group))
  }

  /** The merged event of each of these sites. */
  function Rows(events: seq<Event>, sites: seq<string>): seq<Event> {
    if sites == [] then []
    else
      var row, before := Row(events, sites[|sites| - 1]), Rows(events, sites[..|sites| - 1]);
      if row.Some? then before + [row.value] else before
  }

  /** Group by site, merge each group, and list the groups by site behind the other events. */
  function Aggregated(events: seq<Event>): seq<Event> {
    Passthrough(events) + Rows(events, Sort(StrLeq, Sites(events)))
  }

  ghost predicate Groups(bySite: map<string, Event>, order: seq<string>, events: seq<Event>) {
    order == Sites(events)
    && forall site :: (if site in bySite then Some(bySite[site]) else None) == Row(events, site)
  }

  lemma RowGrows(events: seq<Event>, e: Event, site: string)
    ensures var row := Row(events, site);
            Row(events + [e], site)
            == if IsStaffing(e) && e.site == site then Some(if row.None? then e else Merge(row.value, e)) else row
  {
    var group := EventsOf(events, site);
    AppendToSite(events, e, site);
    if group == [] {
      One(e);
      assert group + [e] == [e];
    } else {
      AppendMerge(group, e);
    }
  }

  /** The dictionary after one more event. */
  function Absorb(bySite: map<string, Event>, e: Event): map<string, Event> {
    if !IsStaffing(e) then bySite
    else bySite[e.site := if e.site in bySite then Merge(bySite[e.site], e) else e]
  }

  lemma GroupsStep(bySite: map<string, Event>, order: seq<string>, events: seq<Event>, e: Event)
    requires Groups(bySite, order, events)
    ensures Groups(Absorb(bySite, e), if IsStaffing(e) && e.site !in bySite then order + [e.site] else order,
                   events + [e])
  {
    AppendSites(events, e);
    SitesHaveEvents(events, e.site);
    assert (if e.site in bySite then Some(bySite[e.site]) else None) == Row(events, e.site);
    forall site
      ensures (if site in Absorb(bySite, e) then Some(Absorb(bySite, e)[site]) else None) == Row(events + [e], site)
    {
      RowGrows(events, e, site);
      assert (if site in bySite then Some(bySite[site]) else None) == Row(events, site);
    }
  }

  /** The updates of the kept event, one field after the other. */
  method MergeEvent(kept: Event, event: Event) returns (existing: Event)
    ensures existing == Merge(kept, event)
  {
    existing := kept;
    var existingCount, eventCount := Positions(existing), Positions(event);
    var total := existingCount + eventCount;
    existing := existing.(openPositions :=
      Some(if total > 0 then total else if existingCount != 0 then existingCount else eventCount));
    if Rank(SeverityOf(event)) > Rank(SeverityOf(existing)) {
      existing := existing.(severity := Some(SeverityOf(event)));
    }
    if Positions(existing) >= 2 {
      existing := existing.(severity := Some("critical"));
    }
    existing := existing.(details := existing.details + "; " + event.details);
    existing := existing.(sourceExcerpt := Strip(existing.sourceExcerpt + " " + event.sourceExcerpt));
  }

  /** The first loop of `aggregate_staffing_risk_events`. */
  method GroupBySite(events: seq<Event>)
    returns (bySite: map<string, Event>, order: seq<string>, passthrough: seq<Event>)
    ensures passthrough == Passthrough(events) && Groups(bySite, order, events)
  {
    bySite, order, passthrough := map[], [], [];
    var n := 0;
    while n < |events|
      invariant 0 <= n <= |events|
      invariant passthrough == Passthrough(events[..n])
      invariant Groups(bySite, order, events[..n])
    {
      var event := events[n];
      assert events[..n + 1] == events[..n] + [event];
      AppendPassthrough(events[..n], event);
      GroupsStep(bySite, order, events[..n], event);
      if event.kind != "staffing_risk" {
        passthrough := passthrough + [event];
      } else if event.site !in bySite {
        bySite, order := bySite[event.site := event], order + [event.site];
      } else {
        var merged := MergeEvent(bySite[event.site], event);
        bySite := bySite[event.site := merged];
      }
      n := n + 1;
    }
    assert events[..n] == events;
  }

  /** The merged events, listed by site. */
  method ListRows(bySite: map<string, Event>, sites: seq<string>, ghost order: seq<string>, ghost events: seq<Event>)
    returns (rows: seq<Event>)
    requires Groups(bySite, order, events)
    ensures rows == Rows(events, sites)
  {
    rows := [];
    for n := 0 to |sites|
      invariant rows == Rows(events, sites[..n])
    {
      assert sites[..n + 1] == sites[..n] + [sites[n]];
      AppendRow(events, sites[..n], sites[n]);
      assert (if sites[n] in bySite then Some(bySite[sites[n]]) else None) == Row(events, sites[n]);
      if sites[n] in bySite {
        rows := rows + [bySite[sites[n]]];
      }
    }
    assert sites[..|sites|] == sites;
  }

  /** `aggregate_staffing_risk_events`: the dictionary loop computes the grouping. */
  method AggregateStaffingRiskEvents(events: seq<Event>) returns (r: seq<Event>)
    ensures r == Aggregated(events)
  {
    var bySite, order, passthrough := GroupBySite(events);
    var rows := ListRows(bySite, Sort(StrLeq, order), order, events);
    r := passthrough + rows;
  }

  // ---- What the merged event says ----

  function Sum(events: seq<Event>): int {
    if events == [] then 0 else Sum(events[..|events| - 1]) + Positions(events[|events| - 1])
  }

  /** The highest rank of the group. */
  function MaxRank(group: seq<Event>): (r: int)
    requires group != []
    ensures forall i :: 0 <= i < |group| ==> Rank(SeverityOf(group[i])) <= r
    ensures exists i :: 0 <= i < |group| && Rank(SeverityOf(group[i])) == r
  {
    if |group| == 1 then Rank(SeverityOf(group[0]))
    else
      var before, last := MaxRank(group[..|group| - 1]), Rank(SeverityOf(group[|group| - 1]));
      assert forall i :: 0 <= i < |group| - 1 ==> group[i] == group[..|group| - 1][i];
      if last > before then last else before
  }

  ghost predicate NonNegative(events: seq<Event>) {
    forall i :: 0 <= i < |events| ==> Positions(events[i]) >= 0
  }

  /** The merged event of a group of several: the sum of the counts, and the severity that follows from it. */
  lemma {:induction false} MergedCountAndSeverity(group: seq<Event>)
    requires |group| >= 1 && NonNegative(group)
    ensures var r := MergeAll(group);
            && Positions(r) == Sum(group) >= 0
            && (|group| >= 2 ==> r.openPositions == Some(Sum(group)))
            && (|group| >= 2 && Sum(group) >= 2 ==> r.severity == Some("critical"))
            && (|group| >= 2 && Sum(group) < 2 ==> Rank(SeverityOf(r)) == MaxRank(group))
  {
    if |group| > 1 {
      var init, last := group[..|group| - 1], group[|group| - 1];
      MergedCountAndSeverity(init);
      MergeStep(MergeAll(init), last);
    } else {
      assert group[..0] == [];
    }
  }

  lemma MergeStep(existing: Event, e: Event)
    requires Positions(existing) >= 0 && Positions(e) >= 0
    ensures var r, total := Merge(existing, e), Positions(existing) + Positions(e);
            && r.openPositions == Some(total)
            && (total >= 2 ==> r.severity == Some("critical"))
            && (total < 2 ==> Rank(SeverityOf(r)) == if Rank(SeverityOf(e)) > Rank(SeverityOf(existing))
                                                     then Rank(SeverityOf(e)) else Rank(SeverityOf(existing)))
  {
  }

  /** After the first `n` events of the group the merged count is their sum. */
  predicate CountIsSum(group: seq<Event>, n: nat)
    requires 1 <= n <= |group|
  {
    Positions(MergeAll(group[..n])) == Sum(group[..n])
  }

  /** Adding event `n` of the group to the sum of those before it: positive, or one of the two is zero. */
  predicate SumStep(group: seq<Event>, n: nat)
    requires n < |group|
  {
    Sum(group[..n]) + Positions(group[n]) > 0 || Sum(group[..n]) == 0 || Positions(group[n]) == 0
  }

  lemma CountStep(group: seq<Event>, n: nat)
    requires 1 <= n < |group| && CountIsSum(group, n)
    ensures CountIsSum(group, n + 1) <==> SumStep(group, n)
  {
    assert group[..n + 1] == group[..n] + [group[n]];
    AppendMerge(group[..n], group[n]);
    AppendSum(group[..n], group[n]);
  }

  lemma {:induction false} CountUpTo(group: seq<Event>, n: nat)
    requires 1 <= n <= |group| && forall k | 1 <= k < n :: SumStep(group, k)
    ensures CountIsSum(group, n)
  {
    if n == 1 {
      assert group[..1] == [group[0]];
      One(group[0]);
    } else {
      CountUpTo(group, n - 1);
      CountStep(group, n - 1);
    }
  }

  /**
    * Counts of any sign: the count is the sum at every moment exactly when no step adds up two nonzero numbers
    * to something that is not positive.
    */
  lemma CountIsSumExactly(group: seq<Event>)
    requires group != []
    ensures (forall n | 1 <= n <= |group| :: CountIsSum(group, n)) <==> forall n | 1 <= n < |group| :: SumStep(group, n)
  {
    if forall n | 1 <= n <= |group| :: CountIsSum(group, n) {
      forall n | 1 <= n < |group|
        ensures SumStep(group, n)
      {
        assert CountIsSum(group, n) && CountIsSum(group, n + 1);
        CountStep(group, n);
      }
    }
    if forall n | 1 <= n < |group| :: SumStep(group, n) {
      forall n | 1 <= n <= |group|
        ensures CountIsSum(group, n)
      {
        CountUpTo(group, n);
      }
    }
  }

  /** With counts -1 and 1 the merged event says -1. */
  lemma NegativeCountsAreNotSummed(e: Event)
    ensures var minus, plus := e.(openPositions := Some(-1)), e.(openPositions := Some(1));
            Positions(MergeAll([minus, plus])) == -1 && Sum([minus, plus]) == 0
  {
    var minus, plus := e.(openPositions := Some(-1)), e.(openPositions := Some(1));
    One(minus);
    AppendMerge([minus], plus);
    AppendSum([minus], plus);
    assert [minus] + [plus] == [minus, plus];
  }

  /** The details of a group, one after the other. */
  function JoinedDetails(group: seq<Event>): string
    requires group != []
  {
    if |group| == 1 then group[0].details else group[0].details + "; " + JoinedDetails(group[1..])
  }

  lemma {:induction false} JoinedAppend(group: seq<Event>, e: Event)
    requires group != []
    ensures JoinedDetails(group + [e]) == JoinedDetails(group) + "; " + e.details
  {
    assert (group + [e])[1..] == group[1..] + [e];
    if |group| > 1 {
      JoinedAppend(group[1..], e);
      assert JoinedDetails(group + [e])
             == group[0].details + "; " + (JoinedDetails(group[1..]) + "; " + e.details);
    } else {
      assert group[1..] + [e] == [e];
    }
  }

  /** The merged event tells all the details, in the order of the events. */
  lemma {:induction false} MergedDetails(group: seq<Event>)
    requires group != []
    ensures MergeAll(group).details == JoinedDetails(group)
  {
    if |group| > 1 {
      var init, last := group[..|group| - 1], group[|group| - 1];
      assert group == init + [last];
      MergedDetails(init);
      JoinedAppend(init, last);
    }
  }

  // ---- One event per site ----

  lemma {:induction false} EventsOfConcat(a: seq<Event>, b: seq<Event>, site: string)
    ensures EventsOf(a + b, site) == EventsOf(a, site) + EventsOf(b, site)
  {
    if b == [] {
      assert a + b == a;
    } else {
      EventsOfConcat(a, b[..|b| - 1], site);
      assert (a + b)[..|a + b| - 1] == a + b[..|b| - 1];
    }
  }

  lemma {:induction false} EventsOfPassthrough(events: seq<Event>, site: string)
    requires forall i :: 0 <= i < |events| ==> !IsStaffing(events[i])
    ensures EventsOf(events, site) == []
  {
    if events != [] {
      EventsOfPassthrough(events[..|events| - 1], site);
    }
  }

  lemma RowIsOfSite(events: seq<Event>, site: string)
    ensures var row := Row(events, site); row.Some? ==> IsStaffing(row.value) && row.value.site == site
  {
    EventsOfAreOfSite(events, site);
  }

  lemma {:induction false} EventsOfRows(events: seq<Event>, sites: seq<string>, site: string)
    requires Distinct(sites)
    ensures EventsOf(Rows(events, sites), site)
            == if site in sites && Row(events, site).Some? then [Row(events, site).value] else []
  {
    if sites != [] {
      var init, last := sites[..|sites| - 1], sites[|sites| - 1];
      assert sites == init + [last] && last !in init;
      EventsOfRows(events, init, site);
      AppendRow(events, init, last);
      RowIsOfSite(events, last);
      var row := Row(events, last);
      if row.Some? {
        AppendToSite(Rows(events, init), row.value, site);
      }
    }
  }

  lemma SortedSites(events: seq<Event>)
    ensures var s := Sort(StrLeq, Sites(events));
            && Distinct(s) && SortedBy(StrLeq, s) && forall site :: site in s <==> site in Sites(events)
  {
    var sites := Sites(events);
    SitesAreDistinct(events);
    StringsArePreordered();
    SortKeeps(StrLeq, sites);
    DistinctSort(sites);
    forall site
      ensures site in Sort(StrLeq, sites) <==> site in sites
    {
      assert site in Sort(StrLeq, sites) <==> site in multiset(Sort(StrLeq, sites));
      assert site in sites <==> site in multiset(sites);
    }
  }

  lemma StringsArePreordered()
    ensures TotalPreorder(StrLeq)
  {
    forall a, b
      ensures StrLeq(a, b) || StrLeq(b, a)
    {
      StrTotal(a, b);
    }
    forall a, b, c | StrLeq(a, b) && StrLeq(b, c)
      ensures StrLeq(a, c)
    {
      StrTransitive(a, b, c);
    }
  }

  lemma {:induction false} DistinctMeansOnce(s: seq<string>)
    ensures Distinct(s) <==> forall x :: multiset(s)[x] <= 1
  {
    if s != [] {
      var init, last := s[..|s| - 1], s[|s| - 1];
      assert s == init + [last];
      DistinctMeansOnce(init);
      assert last in init <==> last in multiset(init);
      assert multiset(s)[last] == multiset(init)[last] + 1;
      forall x | x != last
        ensures multiset(s)[x] == multiset(init)[x]
      {
      }
      if last in init {
        var i :| 0 <= i < |init| && init[i] == last;
        assert s[i] == s[|s| - 1];
      } else {
        assert Distinct(init) ==> Distinct(s);
      }
      assert Distinct(s) ==> Distinct(init) by {
        assert forall i :: 0 <= i < |init| ==> init[i] == s[i];
      }
    }
  }

  lemma DistinctSort(s: seq<string>)
    requires Distinct(s)
    ensures Distinct(Sort(StrLeq, s))
  {
    SortKeeps(StrLeq, s);
    DistinctMeansOnce(s);
    DistinctMeansOnce(Sort(StrLeq, s));
  }

  /** The output has exactly one staffing event for every site of the input, the merged one, and none for others. */
  lemma OneEventPerSite(events: seq<Event>, site: string)
    ensures EventsOf(Aggregated(events), site)
            == if EventsOf(events, site) == [] then [] else [MergeAll(EventsOf(events, site))]
  {
    var sites := Sort(StrLeq, Sites(events));
    SortedSites(events);
    SitesHaveEvents(events, site);
    EventsOfConcat(Passthrough(events), Rows(events, sites), site);
    PassthroughAreOthers(events);
    EventsOfPassthrough(Passthrough(events), site);
    EventsOfRows(events, sites, site);
  }

  // ---- Aggregating again ----

  lemma {:induction false} PassthroughConcat(a: seq<Event>, b: seq<Event>)
    ensures Passthrough(a + b) == Passthrough(a) + Passthrough(b)
  {
    if b == [] {
      assert a + b == a;
    } else {
      PassthroughConcat(a, b[..|b| - 1]);
      assert (a + b)[..|a + b| - 1] == a + b[..|b| - 1];
    }
  }

  lemma {:induction false} OthersPassThrough(s: seq<Event>)
    requires forall i :: 0 <= i < |s| ==> !IsStaffing(s[i])
    ensures Passthrough(s) == s && Sites(s) == []
  {
    if s != [] {
      var init, last := s[..|s| - 1], s[|s| - 1];
      OthersPassThrough(init);
      assert !IsStaffing(last) && s == init + [last];
    }
  }

  lemma {:induction false} StaffingDoesNotPass(s: seq<Event>)
    requires forall i :: 0 <= i < |s| ==> IsStaffing(s[i])
    ensures Passthrough(s) == []
  {
    if s != [] {
      StaffingDoesNotPass(s[..|s| - 1]);
    }
  }

  lemma {:induction false} RowsOfSites(events: seq<Event>, sites: seq<string>)
    requires forall i :: 0 <= i < |sites| ==> EventsOf(events, sites[i]) != []
    ensures var rows := Rows(events, sites);
            |rows| == |sites| && forall i :: 0 <= i < |sites| ==> IsStaffing(rows[i]) && rows[i].site == sites[i]
  {
    if sites != [] {
      var init, last := sites[..|sites| - 1], sites[|sites| - 1];
      assert sites == init + [last] && EventsOf(events, last) != [];
      forall i | 0 <= i < |init|
        ensures EventsOf(events, init[i]) != []
      {
        assert init[i] == sites[i];
      }
      RowsOfSites(events, init);
      RowIsOfSite(events, last);
      AppendRow(events, init, last);
    }
  }

  lemma {:induction false} SitesOfRows(prefix: seq<Event>, rows: seq<Event>, sites: seq<string>)
    requires Distinct(sites) && |rows| == |sites| && Sites(prefix) == []
    requires forall i :: 0 <= i < |sites| ==> IsStaffing(rows[i]) && rows[i].site == sites[i]
    ensures Sites(prefix + rows) == sites
  {
    if rows == [] {
      assert prefix + rows == prefix;
    } else {
      var n := |rows| - 1;
      SitesOfRows(prefix, rows[..n], sites[..n]);
      AppendSites(prefix + rows[..n], rows[n]);
      assert prefix + rows == prefix + rows[..n] + [rows[n]];
      assert sites == sites[..n] + [sites[n]] && sites[n] !in sites[..n];
    }
  }

  lemma {:induction false} SameRows(a: seq<Event>, b: seq<Event>, sites: seq<string>)
    requires forall i :: 0 <= i < |sites| ==> Row(a, sites[i]) == Row(b, sites[i])
    ensures Rows(a, sites) == Rows(b, sites)
  {
    if sites != [] {
      SameRows(a, b, sites[..|sites| - 1]);
    }
  }

  lemma AggregatedRows(events: seq<Event>)
    ensures var once, sites := Aggregated(events), Sort(StrLeq, Sites(events));
            && Passthrough(once) == Passthrough(events) && Sites(once) == sites
            && Rows(once, sites) == Rows(events, sites)
  {
    var once, sites := Aggregated(events), Sort(StrLeq, Sites(events));
    var pass, rows := Passthrough(events), Rows(events, sites);
    SortedSites(events);
    forall i | 0 <= i < |sites|
      ensures EventsOf(events, sites[i]) != [] && Row(once, sites[i]) == Row(events, sites[i])
    {
      assert sites[i] in sites;
      SitesHaveEvents(events, sites[i]);
      OneEventPerSite(events, sites[i]);
      One(MergeAll(EventsOf(events, sites[i])));
    }
    SameRows(once, events, sites);
    RowsOfSites(events, sites);
    PassthroughAreOthers(events);
    OthersPassThrough(pass);
    StaffingDoesNotPass(rows);
    PassthroughConcat(pass, rows);
    SitesOfRows(pass, rows, sites);
  }

  /** Aggregating again changes nothing, whatever the counts are. */
  lemma AggregationIsIdempotent(events: seq<Event>)
    ensures Aggregated(Aggregated(events)) == Aggregated(events)
  {
    AggregatedRows(events);
    SortedSites(events);
    SortOfSorted(StrLeq, Sort(StrLeq, Sites(events)));
  }

  // ---- Conservation ----

  /** The open positions of all staffing events. */
  function Total(events: seq<Event>): int {
    if events == [] then 0
    else
      var e := events[|events| - 1];
      Total(events[..|events| - 1]) + if IsStaffing(e) then Positions(e) else 0
  }

  /** What a site weighs: the sum of the counts of its events. */
  function Weight(events: seq<Event>): string -> int {
    site => Sum(EventsOf(events, site))
  }

  function SumOver(weight: string -> int, sites: seq<string>): int {
    if sites == [] then 0 else SumOver(weight, sites[..|sites| - 1]) + weight(sites[|sites| - 1])
  }

  lemma WeightGrows(events: seq<Event>, e: Event, site: string)
    ensures Weight(events + [e])(site)
            == Weight(events)(site) + if IsStaffing(e) && e.site == site then Positions(e) else 0
  {
    AppendToSite(events, e, site);
    AppendSum(EventsOf(events, site), e);
  }

  /** Raising the weight of one site raises the sum over distinct sites if the site is among them. */
  lemma {:induction false} SumOverRaised(before: string -> int, after: string -> int, site: string, extra: int,
                                         sites: seq<string>)
    requires Distinct(sites)
    requires forall x :: after(x) == before(x) + if x == site then extra else 0
    ensures SumOver(after, sites) == SumOver(before, sites) + if site in sites then extra else 0
  {
    if sites != [] {
      var init, last := sites[..|sites| - 1], sites[|sites| - 1];
      assert sites == init + [last] && last !in init;
      SumOverRaised(before, after, site, extra, init);
    }
  }

  lemma {:induction false} TotalBySite(events: seq<Event>)
    ensures SumOver(Weight(events), Sites(events)) == Total(events)
  {
    if events != [] {
      var init, e := events[..|events| - 1], events[|events| - 1];
      assert events == init + [e];
      TotalBySite(init);
      TotalStep(init, e);
    }
  }

  lemma TotalStep(events: seq<Event>, e: Event)
    requires SumOver(Weight(events), Sites(events)) == Total(events)
    ensures SumOver(Weight(events + [e]), Sites(events + [e])) == Total(events + [e])
  {
    var before, after, sites := Weight(events), Weight(events + [e]), Sites(events);
    var extra := if IsStaffing(e) then Positions(e) else 0;
    forall site
      ensures after(site) == before(site) + if site == e.site then extra else 0
    {
      WeightGrows(events, e, site);
    }
    SitesAreDistinct(events);
    SumOverRaised(before, after, e.site, extra, sites);
    AppendTotal(events, e);
    AppendSites(events, e);
    if IsStaffing(e) && e.site !in sites {
      SitesHaveEvents(events, e.site);
      assert before(e.site) == 0;
      AppendSumOver(after, sites, e.site);
    }
  }

  lemma {:induction false} SumOverPermuted(weight: string -> int, a: seq<string>, b: seq<string>)
    requires multiset(a) == multiset(b)
    ensures SumOver(weight, a) == SumOver(weight, b)
  {
    if a == [] {
      assert |b| == |multiset(b)| == 0;
    } else {
      var init, last := a[..|a| - 1], a[|a| - 1];
      assert a == init + [last];
      assert last in multiset(b);
      var left, right := TakeOut(b, last);
      assert multiset(init) == multiset(a) - multiset{last};
      SumOverPermuted(weight, init, left + right);
      SumOverWithout(weight, left, last, right);
    }
  }

  lemma TakeOut(s: seq<string>, x: string) returns (left: seq<string>, right: seq<string>)
    requires x in multiset(s)
    ensures s == left + [x] + right && multiset(left + right) == multiset(s) - multiset{x}
  {
    var i :| 0 <= i < |s| && s[i] == x;
    left, right := s[..i], s[i + 1..];
    assert s == left + [x] + right;
  }

  lemma {:induction false} SumOverWithout(weight: string -> int, left: seq<string>, x: string, right: seq<string>)
    ensures SumOver(weight, left + [x] + right) == SumOver(weight, left + right) + weight(x)
  {
    if right == [] {
      AppendSumOver(weight, left, x);
      assert left + [x] + right == left + [x] && left + right == left;
    } else {
      var init, last := right[..|right| - 1], right[|right| - 1];
      SumOverWithout(weight, left, x, init);
      AppendSumOver(weight, left + [x] + init, last);
      AppendSumOver(weight, left + init, last);
      assert right == init + [last];
      assert left + [x] + right == left + [x] + init + [last] && left + right == left + init + [last];
    }
  }

  lemma {:induction false} TotalConcat(a: seq<Event>, b: seq<Event>)
    ensures Total(a + b) == Total(a) + Total(b)
  {
    if b == [] {
      assert a + b == a;
    } else {
      TotalConcat(a, b[..|b| - 1]);
      assert (a + b)[..|a + b| - 1] == a + b[..|b| - 1];
    }
  }

  lemma {:induction false} TotalOfOthers(s: seq<Event>)
    requires forall i :: 0 <= i < |s| ==> !IsStaffing(s[i])
    ensures Total(s) == 0
  {
    if s != [] {
      TotalOfOthers(s[..|s| - 1]);
    }
  }

  lemma {:induction false} EventsOfNonNegative(events: seq<Event>, site: string)
    requires NonNegative(events)
    ensures NonNegative(EventsOf(events, site))
  {
    if events != [] {
      EventsOfNonNegative(events[..|events| - 1], site);
    }
  }

  /** The merged event of a site counts what its events count. */
  lemma RowWeight(events: seq<Event>, site: string)
    requires NonNegative(events)
    ensures var row := Row(events, site);
            if row.Some? then IsStaffing(row.value) && Positions(row.value) == Weight(events)(site)
            else Weight(events)(site) == 0
  {
    var group := EventsOf(events, site);
    RowIsOfSite(events, site);
    if group != [] {
      EventsOfNonNegative(events, site);
      MergedCountAndSeverity(group);
    }
  }

  lemma {:induction false} TotalOfRows(events: seq<Event>, sites: seq<string>)
    requires NonNegative(events)
    ensures Total(Rows(events, sites)) == SumOver(Weight(events), sites)
  {
    if sites != [] {
      var init, last := sites[..|sites| - 1], sites[|sites| - 1];
      assert sites == init + [last];
      TotalOfRows(events, init);
      TotalOfOneMore(events, init, last);
    }
  }

  lemma TotalOfOneMore(events: seq<Event>, sites: seq<string>, site: string)
    requires NonNegative(events) && Total(Rows(events, sites)) == SumOver(Weight(events), sites)
    ensures Total(Rows(events, sites + [site])) == SumOver(Weight(events), sites + [site])
  {
    AppendRow(events, sites, site);
    AppendSumOver(Weight(events), sites, site);
    RowWeight(events, site);
    if Row(events, site).Some? {
      AppendTotal(Rows(events, sites), Row(events, site).value);
    }
  }

  /** Aggregation keeps the total of the open positions. */
  lemma TotalIsConserved(events: seq<Event>)
    requires NonNegative(events)
    ensures Total(Aggregated(events)) == Total(events)
  {
    var sites := Sort(StrLeq, Sites(events));
    TotalConcat(Passthrough(events), Rows(events, sites));
    PassthroughAreOthers(events);
    TotalOfOthers(Passthrough(events));
    TotalOfRows(events, sites);
    SortKeeps(StrLeq, Sites(events));
    SumOverPermuted(Weight(events), sites, Sites(events));
    TotalBySite(events);
  }
}
