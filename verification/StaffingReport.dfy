// What the merged staffing event of a site says about severity, which words of its events it keeps, and the order of
// the output.
module StaffingReport {
  import opened Staffing
  import opened Words
  import opened Sorting
  import Text

  /** Severity `a` is not above `b` in the order low, medium, high, critical; any other word is below all of them. */
  predicate NoMoreSevere(a: string, b: string) {
    || b == "critical"
    || (b == "high" && a != "critical")
    || (b == "medium" && a != "critical" && a != "high")
    || (b == "low" && a != "critical" && a != "high" && a != "medium")
    || (a != "critical" && a != "high" && a != "medium" && a != "low")
  }

  lemma RankOrders(a: string, b: string)
    ensures Rank(a) <= Rank(b) <==> NoMoreSevere(a, b)
  {
  }

  /** The severity is one of the group's, and none of them is above it. */
  ghost predicate Highest(severity: string, group: seq<Event>) {
    && (exists i :: 0 <= i < |group| && SeverityOf(group[i]) == severity)
    && forall i :: 0 <= i < |group| ==> NoMoreSevere(SeverityOf(group[i]), severity)
  }

  lemma HighestOfMore(severity: string, after: string, init: seq<Event>, e: Event)
    requires Highest(severity, init)
    requires after == if Rank(SeverityOf(e)) > Rank(severity) then SeverityOf(e) else severity
    ensures Highest(after, init + [e])
  {
    var group := init + [e];
    RankOrders(SeverityOf(e), severity);
    RankOrders(severity, SeverityOf(e));
    var i :| 0 <= i < |init| && SeverityOf(init[i]) == severity;
    assert group[i] == init[i] && group[|init|] == e;
    forall k | 0 <= k < |group|
      ensures NoMoreSevere(SeverityOf(group[k]), after)
    {
      if k < |init| {
        assert NoMoreSevere(SeverityOf(init[k]), severity);
        RankOrders(SeverityOf(init[k]), severity);
        RankOrders(SeverityOf(init[k]), after);
      }
    }
  }

  lemma SumOfMore(init: seq<Event>, e: Event)
    requires NonNegative(init + [e])
    ensures NonNegative(init) && Sum(init + [e]) == Sum(init) + Positions(e) && Positions(e) >= 0
  {
    AppendSum(init, e);
    assert (init + [e])[|init|] == e;
    assert forall i :: 0 <= i < |init| ==> (init + [e])[i] == init[i];
  }

  /** With fewer than two open positions in all, the merged event carries the highest severity of the group. */
  lemma {:induction false} MergedSeverity(group: seq<Event>)
    requires group != [] && NonNegative(group) && (|group| >= 2 ==> Sum(group) < 2)
    ensures Highest(SeverityOf(MergeAll(group)), group)
  {
    if |group| == 1 {
      RankOrders(SeverityOf(group[0]), SeverityOf(group[0]));
    } else {
      var init, e := group[..|group| - 1], group[|group| - 1];
      assert group == init + [e];
      SumOfMore(init, e);
      MergedCountAndSeverity(init);
      MergedSeverity(init);
      AppendMerge(init, e);
      MergedOnce(MergeAll(init), e);
      HighestOfMore(SeverityOf(MergeAll(init)), SeverityOf(MergeAll(group)), init, e);
    }
  }

  lemma MergedOnce(existing: Event, e: Event)
    requires 0 <= Positions(existing) && 0 <= Positions(e) && Positions(existing) + Positions(e) < 2
    ensures SeverityOf(Merge(existing, e))
            == if Rank(SeverityOf(e)) > Rank(SeverityOf(existing)) then SeverityOf(e) else SeverityOf(existing)
  {
  }

  /** The words of the excerpts of a group, one event after the other. */
  function ExcerptWords(group: seq<Event>): seq<string> {
    if group == [] then [] else ExcerptWords(group[..|group| - 1]) + Split(group[|group| - 1].sourceExcerpt)
  }

  /** The merged event quotes every word of the excerpts, in the order of the events. */
  lemma {:induction false} MergedExcerpt(group: seq<Event>)
    requires group != []
    ensures Split(MergeAll(group).sourceExcerpt) == ExcerptWords(group)
  {
    var init, e := group[..|group| - 1], group[|group| - 1];
    assert group == init + [e];
    OneMoreExcerpt(init, e);
    if init == [] {
      One(e);
      assert group == [e] && ExcerptWords(init) == [];
    } else {
      MergedExcerpt(init);
      AppendMerge(init, e);
      ExcerptOfTwo(MergeAll(init), e);
    }
  }

  lemma OneMoreExcerpt(init: seq<Event>, e: Event)
    ensures ExcerptWords(init + [e]) == ExcerptWords(init) + Split(e.sourceExcerpt)
  {
    assert (init + [e])[..|init|] == init;
  }

  lemma ExcerptOfTwo(existing: Event, e: Event)
    ensures Split(Merge(existing, e).sourceExcerpt) == Split(existing.sourceExcerpt) + Split(e.sourceExcerpt)
  {
    StripKeepsWords(existing.sourceExcerpt + " " + e.sourceExcerpt);
    SplitOfTwo(existing.sourceExcerpt, e.sourceExcerpt);
  }

  /** Everything else is taken from the first event of the group. */
  lemma {:induction false} MergedRest(group: seq<Event>)
    requires group != []
    ensures MergeAll(group).rest == group[0].rest && MergeAll(group).site == group[0].site
  {
    if |group| > 1 {
      MergedRest(group[..|group| - 1]);
      AppendMerge(group[..|group| - 1], group[|group| - 1]);
      assert group == group[..|group| - 1] + [group[|group| - 1]];
    }
  }

  // ---- The order of the output ----

  /** `at` are the positions of all events that are not about staffing, in order. */
  predicate Others(events: seq<Event>, others: seq<Event>, at: seq<nat>) {
    && |at| == |others|
    && (forall i :: 0 <= i < |at| ==> at[i] < |events| && others[i] == events[at[i]] && !IsStaffing(others[i]))
    && (forall i, j :: 0 <= i < j < |at| ==> at[i] < at[j])
    && (forall j :: 0 <= j < |events| && !IsStaffing(events[j]) ==> j in at)
  }

  lemma OthersGrow(events: seq<Event>, e: Event, others: seq<Event>, at: seq<nat>)
    requires Others(events, others, at)
    ensures if IsStaffing(e) then Others(events + [e], others, at)
            else Others(events + [e], others + [e], at + [|events|])
  {
    var more := events + [e];
    assert more[|events|] == e && forall j :: 0 <= j < |events| ==> more[j] == events[j];
    if !IsStaffing(e) {
      var longer := at + [|events|];
      assert longer[|at|] == |events| && forall i :: 0 <= i < |at| ==> longer[i] == at[i];
      forall j | 0 <= j < |more| && !IsStaffing(more[j])
        ensures j in longer
      {
        assert j < |events| ==> j in at;
      }
    }
  }

  lemma {:induction false} PassthroughIs(events: seq<Event>) returns (at: seq<nat>)
    ensures Others(events, Passthrough(events), at)
  {
    if events == [] {
      at := [];
    } else {
      var init, e := events[..|events| - 1], events[|events| - 1];
      var before := PassthroughIs(init);
      assert events == init + [e];
      AppendPassthrough(init, e);
      OthersGrow(init, e, Passthrough(init), before);
      at := if IsStaffing(e) then before else before + [|init|];
    }
  }

  predicate BySite(rows: seq<Event>) {
    forall i, j :: 0 <= i < j < |rows| ==> StrLeq(rows[i].site, rows[j].site)
  }

  lemma {:induction false} RowsFollowSites(events: seq<Event>, sites: seq<string>)
    requires SortedBy(StrLeq, sites)
    ensures BySite(Rows(events, sites))
    ensures forall r <- Rows(events, sites) :: IsStaffing(r) && r.site in sites
  {
    if sites != [] {
      var init, site := sites[..|sites| - 1], sites[|sites| - 1];
      RowsFollowSites(events, init);
      RowIsOfSite(events, site);
      var rows, before := Rows(events, sites), Rows(events, init);
      forall i, j | 0 <= i < j < |rows|
        ensures StrLeq(rows[i].site, rows[j].site)
      {
        if j == |before| {
          assert before[i] in before && before[i].site in init;
          var k :| 0 <= k < |init| && init[k] == before[i].site;
          assert StrLeq(sites[k], sites[|sites| - 1]);
        }
      }
    }
  }

  /** The output: all events that are not about staffing, in their order, and behind them the merged ones by site. */
  lemma AggregatedInOrder(events: seq<Event>) returns (at: seq<nat>)
    ensures var r := Aggregated(events);
            && |at| <= |r| && Others(events, r[..|at|], at) && BySite(r[|at|..])
            && forall e <- r[|at|..] :: IsStaffing(e)
  {
    at := PassthroughIs(events);
    var rows := Rows(events, Sort(StrLeq, Sites(events)));
    SortedSites(events);
    RowsFollowSites(events, Sort(StrLeq, Sites(events)));
    assert Aggregated(events)[..|at|] == Passthrough(events) && Aggregated(events)[|at|..] == rows;
  }
}
