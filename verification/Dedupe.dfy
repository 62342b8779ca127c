// The nightly digest keeps one candidate per fact (project/nightly_digest_builder.py).
module Dedupe {
  import opened Sorting

  /**
    * `fact` is the normalized lower-case text, `length` the length of the normalized text and `key` the
    * identity key; the text heuristics that compute them are not part of this model.
    */
  datatype Candidate = Candidate(
    source: string, sortGroup: int, sortValue: string, sequence: int, text: string,
    fact: string, length: nat, key: string)

  datatype Reason = EmptyText | DuplicateFact | LessPrecise

  datatype Dropped = Dropped(candidate: Candidate, reason: Reason)

  datatype Excluded = Excluded(source: string, text: string, reason: Reason)

  function Rank(source: string): nat {
    if source == "system" then 3 else if source == "report" then 2 else if source == "journal" then 1 else 0
  }

  /** `candidate_precision(a) > candidate_precision(b)`. */
  predicate Preciser(a: Candidate, b: Candidate) {
    a.length > b.length || (a.length == b.length && Rank(a.source) > Rank(b.source))
  }

  /** The tuple (group, value, sequence, text) of `a` is not greater than that of `b`. */
  predicate Before(a: Candidate, b: Candidate) {
    if a.sortGroup != b.sortGroup then a.sortGroup < b.sortGroup
    else if a.sortValue != b.sortValue then StrLeq(a.sortValue, b.sortValue)
    else if a.sequence != b.sequence then a.sequence < b.sequence
    else StrLeq(a.text, b.text)
  }

  lemma BeforeIsTransitive(a: Candidate, b: Candidate, c: Candidate)
    requires Before(a, b) && Before(b, c)
    ensures Before(a, c)
  {
    if a.sortGroup == b.sortGroup == c.sortGroup {
      if a.sortValue == b.sortValue == c.sortValue {
        if a.sequence == b.sequence == c.sequence {
          StrTransitive(a.text, b.text, c.text);
        }
      } else if a.sortValue != b.sortValue && b.sortValue != c.sortValue {
        StrTransitive(a.sortValue, b.sortValue, c.sortValue);
        if a.sortValue == c.sortValue {
          StrAntisymmetric(a.sortValue, b.sortValue);
        }
      }
    }
  }

  lemma BeforeIsTotalPreorder()
    ensures TotalPreorder(Before)
  {
    forall a, b
      ensures Before(a, b) || Before(b, a)
    {
      StrTotal(a.sortValue, b.sortValue);
      StrTotal(a.text, b.text);
    }
    forall a, b, c | Before(a, b) && Before(b, c)
      ensures Before(a, c)
    {
      BeforeIsTransitive(a, b, c);
    }
  }

  /** What the loop holds: the kept candidates in the order their keys were first seen, and the others. */
  datatype State = State(kept: seq<Candidate>, dropped: seq<Dropped>)

  /** Where the candidate with this key is kept; one past the end when there is none. */
  function Slot(kept: seq<Candidate>, key: string): (p: nat)
    ensures p <= |kept| && (p < |kept| ==> kept[p].key == key)
    ensures forall i :: 0 <= i < p ==> kept[i].key != key
  {
    if kept == [] then 0 else if kept[0].key == key then 0 else 1 + Slot(kept[1..], key)
  }

  function Absorb(st: State, c: Candidate): State {
    if c.fact == "" then st.(dropped := st.dropped + [Dropped(c, EmptyText)])
    else
      var p := Slot(st.kept, c.key);
      if p == |st.kept| then st.(kept := st.kept + [c])
      else if Preciser(c, st.kept[p]) then
        State(st.kept[p := c], st.dropped + [Dropped(st.kept[p], LessPrecise)])
      else
        var reason := if st.kept[p].fact == c.fact then DuplicateFact else LessPrecise;
        st.(dropped := st.dropped + [Dropped(c, reason)])
  }

  function Select(s: seq<Candidate>): State {
    if s == [] then State([], []) else Absorb(Select(s[..|s| - 1]), s[|s| - 1])
  }

  predicate DistinctKeys(s: seq<Candidate>) {
    forall i, j :: 0 <= i < j < |s| ==> s[i].key != s[j].key
  }

  /** `s[i]` has a fact, nothing of its key is more precise, and everything earlier of its key is less precise. */
  ghost predicate Wins(s: seq<Candidate>, i: nat)
    requires i < |s|
  {
    && s[i].fact != ""
    && (forall j | 0 <= j < |s| :: Rival(s, i, j) ==> !Preciser(s[j], s[i]))
    && (forall j | 0 <= j < i :: Rival(s, i, j) ==> Preciser(s[i], s[j]))
  }

  ghost predicate Rival(s: seq<Candidate>, i: nat, j: nat)
    requires i < |s| && j < |s|
  {
    s[j].key == s[i].key && s[j].fact != ""
  }

  ghost predicate IsWinner(s: seq<Candidate>, c: Candidate) {
    exists i :: 0 <= i < |s| && s[i] == c && Wins(s, i)
  }

  ghost predicate AllWinners(s: seq<Candidate>, kept: seq<Candidate>) {
    forall p :: 0 <= p < |kept| ==> IsWinner(s, kept[p])
  }

  ghost predicate Covers(s: seq<Candidate>, kept: seq<Candidate>) {
    forall i | 0 <= i < |s| :: s[i].fact != "" ==> Slot(kept, s[i].key) < |kept|
  }

  lemma WinsLater(s: seq<Candidate>, c: Candidate, i: nat)
    requires i < |s| && Wins(s, i)
    requires c.fact == "" || c.key != s[i].key || !Preciser(c, s[i])
    ensures Wins(s + [c], i)
  {
    var t := s + [c];
    forall j | 0 <= j < |t| && Rival(t, i, j)
      ensures !Preciser(t[j], t[i])
    {
      if j < |s| {
        assert Rival(s, i, j);
      }
    }
    forall j | 0 <= j < i && Rival(t, i, j)
      ensures Preciser(t[i], t[j])
    {
      assert Rival(s, i, j);
    }
  }

  lemma NewWinner(s: seq<Candidate>, c: Candidate, i: nat)
    requires c.fact != ""
    requires i < |s| && Wins(s, i) && s[i].key == c.key && Preciser(c, s[i])
    ensures Wins(s + [c], |s|)
  {
    var t := s + [c];
    forall j | 0 <= j < |s| && Rival(t, |s|, j)
      ensures Preciser(c, t[j])
    {
      assert Rival(s, i, j);
    }
  }

  lemma FirstWinner(s: seq<Candidate>, c: Candidate, kept: seq<Candidate>)
    requires c.fact != "" && Covers(s, kept) && Slot(kept, c.key) == |kept|
    ensures Wins(s + [c], |s|)
  {
    var t := s + [c];
    forall j | 0 <= j < |s|
      ensures !Rival(t, |s|, j)
    {
      assert t[j] == s[j];
    }
  }

  /** Replacing a candidate by one of the same key moves no slot. */
  lemma SlotStays(kept: seq<Candidate>, p: nat, c: Candidate, key: string)
    requires p < |kept| && kept[p].key == c.key
    ensures Slot(kept[p := c], key) == Slot(kept, key)
  {
    var after := kept[p := c];
    assert forall i :: 0 <= i < |kept| ==> after[i].key == kept[i].key;
  }

  lemma SlotGrows(kept: seq<Candidate>, c: Candidate, key: string)
    ensures Slot(kept, key) < |kept| ==> Slot(kept + [c], key) == Slot(kept, key)
    ensures key == c.key ==> Slot(kept + [c], key) <= |kept|
  {
    var after := kept + [c];
    assert forall i :: 0 <= i < |kept| ==> after[i] == kept[i];
    assert after[|kept|] == c;
  }

  lemma AbsorbCovers(s: seq<Candidate>, st: State, c: Candidate)
    requires Covers(s, st.kept)
    ensures Covers(s + [c], Absorb(st, c).kept)
  {
    var t, kept := s + [c], Absorb(st, c).kept;
    forall i | 0 <= i < |t| && t[i].fact != ""
      ensures Slot(kept, t[i].key) < |kept|
    {
      var p := Slot(st.kept, c.key);
      if i < |s| {
        assert t[i] == s[i] && Slot(st.kept, t[i].key) < |st.kept|;
      }
      SlotGrows(st.kept, c, t[i].key);
      if p < |st.kept| {
        SlotStays(st.kept, p, c, t[i].key);
      }
    }
  }

  lemma AbsorbKeepsWinner(s: seq<Candidate>, st: State, c: Candidate, p: nat)
    requires AllWinners(s, st.kept) && Covers(s, st.kept) && DistinctKeys(st.kept)
    requires p < |Absorb(st, c).kept|
    ensures IsWinner(s + [c], Absorb(st, c).kept[p])
  {
    var slot := Slot(st.kept, c.key);
    if p == |st.kept| {
      FirstWinner(s, c, st.kept);
      assert (s + [c])[|s|] == c;
    } else {
      assert IsWinner(s, st.kept[p]);
      var i :| 0 <= i < |s| && s[i] == st.kept[p] && Wins(s, i);
      if c.fact != "" && p == slot && Preciser(c, st.kept[p]) {
        NewWinner(s, c, i);
        assert (s + [c])[|s|] == c;
      } else {
        assert c.fact == "" || c.key != s[i].key || !Preciser(c, s[i]);
        WinsLater(s, c, i);
        assert (s + [c])[i] == s[i];
      }
    }
  }

  lemma AbsorbKeepsWinners(s: seq<Candidate>, st: State, c: Candidate)
    requires AllWinners(s, st.kept) && Covers(s, st.kept) && DistinctKeys(st.kept)
    ensures AllWinners(s + [c], Absorb(st, c).kept)
  {
    forall p: nat | p < |Absorb(st, c).kept|
      ensures IsWinner(s + [c], Absorb(st, c).kept[p])
    {
      AbsorbKeepsWinner(s, st, c, p);
    }
  }

  lemma AbsorbKeepsDistinct(st: State, c: Candidate)
    requires DistinctKeys(st.kept)
    ensures DistinctKeys(Absorb(st, c).kept)
  {
  }

  lemma {:induction false} SelectKeepsWinners(s: seq<Candidate>)
    ensures DistinctKeys(Select(s).kept) && AllWinners(s, Select(s).kept) && Covers(s, Select(s).kept)
  {
    if s != [] {
      var init, c := s[..|s| - 1], s[|s| - 1];
      assert s == init + [c];
      SelectKeepsWinners(init);
      AbsorbCovers(init, Select(init), c);
      AbsorbKeepsWinners(init, Select(init), c);
      AbsorbKeepsDistinct(Select(init), c);
    }
  }

  function Candidates(dropped: seq<Dropped>): (s: seq<Candidate>)
    ensures |s| == |dropped| && forall i :: 0 <= i < |s| ==> s[i] == dropped[i].candidate
  {
    seq(|dropped|, i requires 0 <= i < |dropped| => dropped[i].candidate)
  }

  ghost function Everything(st: State): multiset<Candidate> {
    multiset(st.kept) + multiset(Candidates(st.dropped))
  }

  lemma AbsorbLosesNothing(st: State, c: Candidate)
    ensures Everything(Absorb(st, c)) == Everything(st) + multiset{c}
  {
    var p := Slot(st.kept, c.key);
    var after := Absorb(st, c);
    if |after.dropped| > |st.dropped| {
      var d := after.dropped[|st.dropped|];
      assert Candidates(after.dropped) == Candidates(st.dropped) + [d.candidate];
    }
    if c.fact != "" && p < |st.kept| && Preciser(c, st.kept[p]) {
      assert multiset(st.kept[p := c]) == multiset(st.kept) - multiset{st.kept[p]} + multiset{c};
    }
  }

  lemma {:induction false} SelectLosesNothing(s: seq<Candidate>)
    ensures Everything(Select(s)) == multiset(s)
  {
    if s != [] {
      var init, c := s[..|s| - 1], s[|s| - 1];
      assert s == init + [c];
      SelectLosesNothing(init);
      AbsorbLosesNothing(Select(init), c);
    }
  }

  /** Why candidate `s[i]` may be excluded for this reason. */
  ghost predicate Justified(s: seq<Candidate>, d: Dropped) {
    exists i :: 0 <= i < |s| && s[i] == d.candidate && JustifiedAt(s, i, d.reason)
  }

  ghost predicate JustifiedAt(s: seq<Candidate>, i: nat, reason: Reason)
    requires i < |s|
  {
    match reason
    case EmptyText => s[i].fact == ""
    case DuplicateFact => exists j | 0 <= j < i :: Rival(s, i, j) && s[j].fact == s[i].fact && !Preciser(s[i], s[j])
    case LessPrecise => s[i].fact != "" && exists j | 0 <= j < |s| :: Rival(s, i, j) && Outdoes(s, j, i)
  }

  ghost predicate Outdoes(s: seq<Candidate>, j: nat, i: nat)
    requires i < |s| && j < |s|
  {
    Preciser(s[j], s[i]) || (j < i && s[j].fact != s[i].fact && !Preciser(s[i], s[j]))
  }

  lemma JustifiedLater(s: seq<Candidate>, c: Candidate, d: Dropped)
    requires Justified(s, d)
    ensures Justified(s + [c], d)
  {
    var t := s + [c];
    var i :| 0 <= i < |s| && s[i] == d.candidate && JustifiedAt(s, i, d.reason);
    assert t[i] == s[i];
    if d.reason == DuplicateFact {
      var j :| 0 <= j < i && Rival(s, i, j) && s[j].fact == s[i].fact && !Preciser(s[i], s[j]);
      assert t[j] == s[j] && Rival(t, i, j);
    } else if d.reason == LessPrecise {
      var j :| 0 <= j < |s| && Rival(s, i, j) && Outdoes(s, j, i);
      assert t[j] == s[j] && Rival(t, i, j) && Outdoes(t, j, i);
    }
    assert JustifiedAt(t, i, d.reason);
  }

  lemma NewIsJustified(s: seq<Candidate>, st: State, c: Candidate)
    requires AllWinners(s, st.kept)
    ensures var after := Absorb(st, c).dropped;
            |after| > |st.dropped| ==> Justified(s + [c], after[|st.dropped|])
  {
    var t := s + [c];
    var after := Absorb(st, c).dropped;
    var p := Slot(st.kept, c.key);
    assert t[|s|] == c;
    if c.fact == "" {
      assert JustifiedAt(t, |s|, EmptyText);
    } else if p < |st.kept| {
      assert IsWinner(s, st.kept[p]);
      var i :| 0 <= i < |s| && s[i] == st.kept[p] && Wins(s, i);
      assert t[i] == s[i];
      if Preciser(c, st.kept[p]) {
        assert Rival(t, i, |s|) && Outdoes(t, |s|, i);
        assert JustifiedAt(t, i, LessPrecise);
      } else {
        assert Rival(t, |s|, i);
        if s[i].fact != c.fact {
          assert Outdoes(t, i, |s|);
        }
        assert JustifiedAt(t, |s|, after[|st.dropped|].reason);
      }
    }
  }

  /** Every exclusion carries the right reason. */
  lemma {:induction false} ExclusionsAreJustified(s: seq<Candidate>)
    ensures forall k :: 0 <= k < |Select(s).dropped| ==> Justified(s, Select(s).dropped[k])
  {
    if s != [] {
      var init, c := s[..|s| - 1], s[|s| - 1];
      assert s == init + [c];
      ExclusionsAreJustified(init);
      SelectKeepsWinners(init);
      NewIsJustified(init, Select(init), c);
      forall k | 0 <= k < |Select(init).dropped|
        ensures Justified(s, Select(init).dropped[k])
      {
        JustifiedLater(init, c, Select(init).dropped[k]);
      }
    }
  }

  /** What the digest includes. */
  function Included(candidates: seq<Candidate>): seq<Candidate> {
    Sort(Before, Select(Sort(Before, candidates)).kept)
  }

  function Discarded(candidates: seq<Candidate>): seq<Dropped> {
    Select(Sort(Before, candidates)).dropped
  }

  lemma SortedPermutation(s: seq<Candidate>)
    ensures multiset(Sort(Before, s)) == multiset(s) && SortedBy(Before, Sort(Before, s))
    ensures forall c :: c in Sort(Before, s) <==> c in s
  {
    BeforeIsTotalPreorder();
    SortKeeps(Before, s);
    assert forall c :: c in Sort(Before, s) <==> c in multiset(Sort(Before, s));
    assert forall c :: c in s <==> c in multiset(s);
  }

  /** Distinct keys survive any reordering. */
  lemma DistinctAfterSort(kept: seq<Candidate>)
    requires DistinctKeys(kept)
    ensures DistinctKeys(Sort(Before, kept))
  {
    var r := Sort(Before, kept);
    SortedPermutation(kept);
    forall i, j | 0 <= i < j < |r|
      ensures r[i].key != r[j].key
    {
      assert r[i] in kept && r[j] in kept;
      var p :| 0 <= p < |kept| && kept[p] == r[i];
      var q :| 0 <= q < |kept| && kept[q] == r[j];
      OnceInSeq(kept, p);
      if r[i] == r[j] {
        TwiceInSeq(r, i, j);
        assert false;
      }
    }
  }

  lemma TwiceInSeq<T>(s: seq<T>, i: nat, j: nat)
    requires i < j < |s| && s[i] == s[j]
    ensures multiset(s)[s[i]] >= 2
  {
    assert s == s[..j] + s[j..];
    assert s[i] in s[..j] && s[i] in s[j..];
  }

  lemma OnceInSeq(s: seq<Candidate>, p: nat)
    requires p < |s| && DistinctKeys(s)
    ensures multiset(s)[s[p]] == 1
  {
    assert s == s[..p] + [s[p]] + s[p + 1..];
    assert s[p] !in s[..p] && s[p] !in s[p + 1..];
  }

  /** Every included candidate comes from the input and has won. */
  lemma IncludedHaveWon(candidates: seq<Candidate>, c: Candidate)
    requires c in Included(candidates)
    ensures c in candidates && IsWinner(Sort(Before, candidates), c)
  {
    var s := Sort(Before, candidates);
    var kept := Select(s).kept;
    SortedPermutation(candidates);
    SortedPermutation(kept);
    SelectKeepsWinners(s);
    var p :| 0 <= p < |kept| && kept[p] == c;
    assert IsWinner(s, kept[p]);
    var i :| 0 <= i < |s| && s[i] == c && Wins(s, i);
    assert c in s;
  }

  /** Every fact of the input is included with some candidate. */
  lemma FactIsIncluded(candidates: seq<Candidate>, c: Candidate) returns (d: Candidate)
    requires c in candidates && c.fact != ""
    ensures d in Included(candidates) && d.key == c.key
  {
    var s := Sort(Before, candidates);
    var kept := Select(s).kept;
    SortedPermutation(candidates);
    SortedPermutation(kept);
    SelectKeepsWinners(s);
    assert c in s;
    var i :| 0 <= i < |s| && s[i] == c;
    d := kept[Slot(kept, s[i].key)];
    assert d in kept;
  }

  lemma IncludedAreDistinct(candidates: seq<Candidate>)
    ensures SortedBy(Before, Included(candidates)) && DistinctKeys(Included(candidates))
  {
    var kept := Select(Sort(Before, candidates)).kept;
    SelectKeepsWinners(Sort(Before, candidates));
    SortedPermutation(kept);
    DistinctAfterSort(kept);
  }

  /** Every fact is included exactly once, no key standing at two places, and with the first, in sort order, of its most
      precise candidates. */
  lemma OnePerFact(candidates: seq<Candidate>)
    ensures var r := Included(candidates);
            && SortedBy(Before, r) && DistinctKeys(r)
            && (forall c | c in r :: c in candidates && IsWinner(Sort(Before, candidates), c))
            && (forall c | c in candidates :: c.fact != "" ==> exists d | d in r :: d.key == c.key)
  {
    IncludedAreDistinct(candidates);
    forall c | c in Included(candidates)
      ensures c in candidates && IsWinner(Sort(Before, candidates), c)
    {
      IncludedHaveWon(candidates, c);
    }
    forall c | c in candidates && c.fact != ""
      ensures exists d | d in Included(candidates) :: d.key == c.key
    {
      var d := FactIsIncluded(candidates, c);
    }
  }

  lemma {:induction false} SelectOfDistinct(s: seq<Candidate>)
    requires DistinctKeys(s) && forall i :: 0 <= i < |s| ==> s[i].fact != ""
    ensures Select(s) == State(s, [])
  {
    if s != [] {
      var init, c := s[..|s| - 1], s[|s| - 1];
      assert s == init + [c];
      SelectOfDistinct(init);
      assert forall p :: 0 <= p < |init| ==> init[p] == s[p];
    }
  }

  /** Running the deduplication on its own output excludes nothing and returns that output. */
  lemma DedupeIsIdempotent(candidates: seq<Candidate>)
    ensures Included(Included(candidates)) == Included(candidates)
    ensures Discarded(Included(candidates)) == []
  {
    var r := Included(candidates);
    IncludedAreDistinct(candidates);
    forall i | 0 <= i < |r|
      ensures r[i].fact != ""
    {
      IncludedHaveWon(candidates, r[i]);
    }
    SortOfSorted(Before, r);
    SelectOfDistinct(r);
  }

  /** Included and excluded candidates together are the input, however often each of them occurs. */
  lemma NothingIsDropped(candidates: seq<Candidate>)
    ensures multiset(Included(candidates)) + multiset(Candidates(Discarded(candidates))) == multiset(candidates)
  {
    SortedPermutation(candidates);
    SelectLosesNothing(Sort(Before, candidates));
    SortedPermutation(Select(Sort(Before, candidates)).kept);
  }

  function Sources(s: seq<Candidate>): (r: seq<string>)
    ensures |r| == |s| && forall i :: 0 <= i < |r| ==> r[i] == s[i].source
  {
    seq(|s|, i requires 0 <= i < |s| => s[i].source)
  }

  function Reported(dropped: seq<Dropped>): (r: seq<Excluded>)
    ensures |r| == |dropped|
    ensures forall i | 0 <= i < |r| ::
      r[i] == Excluded(dropped[i].candidate.source, dropped[i].candidate.text, dropped[i].reason)
  {
    seq(|dropped|, i requires 0 <= i < |dropped| =>
      Excluded(dropped[i].candidate.source, dropped[i].candidate.text, dropped[i].reason))
  }

  ghost predicate Mirrors(order: seq<string>, selected: map<string, Candidate>, kept: seq<Candidate>) {
    && |order| == |kept|
    && (forall i :: 0 <= i < |order| ==> order[i] == kept[i].key)
    && (forall i :: 0 <= i < |order| ==> order[i] in selected && selected[order[i]] == kept[i])
    && (forall k :: k in selected ==> k in order)
  }

  lemma MirrorsFinds(order: seq<string>, selected: map<string, Candidate>, kept: seq<Candidate>, key: string)
    requires Mirrors(order, selected, kept)
    ensures key in selected <==> Slot(kept, key) < |kept|
    ensures key in selected ==> selected[key] == kept[Slot(kept, key)]
  {
    var p := Slot(kept, key);
    if p < |kept| {
      assert order[p] == key;
    }
    assert forall i | 0 <= i < |order| :: order[i] == key ==> kept[i].key == key;
  }

  lemma MirrorsReplaced(order: seq<string>, selected: map<string, Candidate>, kept: seq<Candidate>, c: Candidate)
    requires Mirrors(order, selected, kept) && DistinctKeys(kept) && c.key in selected
    ensures Slot(kept, c.key) < |kept|
    ensures Mirrors(order, selected[c.key := c], kept[Slot(kept, c.key) := c])
  {
    MirrorsFinds(order, selected, kept, c.key);
  }

  /** One pass of the loop of `dedupe_candidates` over the dictionary `selected` and its insertion order. */
  method AbsorbCandidate(order: seq<string>, selected: map<string, Candidate>, excluded: seq<Excluded>,
                         candidate: Candidate, ghost st: State)
    returns (order': seq<string>, selected': map<string, Candidate>, excluded': seq<Excluded>)
    requires Mirrors(order, selected, st.kept) && DistinctKeys(st.kept) && excluded == Reported(st.dropped)
    ensures Mirrors(order', selected', Absorb(st, candidate).kept)
    ensures excluded' == Reported(Absorb(st, candidate).dropped)
  {
    MirrorsFinds(order, selected, st.kept, candidate.key);
    order', selected', excluded' := order, selected, excluded;
    if candidate.fact == "" {
      excluded' := excluded + [Excluded(candidate.source, candidate.text, EmptyText)];
    } else if candidate.key !in selected {
      order', selected' := order + [candidate.key], selected[candidate.key := candidate];
    } else {
      var existing := selected[candidate.key];
      MirrorsReplaced(order, selected, st.kept, candidate);
      if existing.fact == candidate.fact {
        if Preciser(candidate, existing) {
          selected' := selected[candidate.key := candidate];
          excluded' := excluded + [Excluded(existing.source, existing.text, LessPrecise)];
        } else {
          excluded' := excluded + [Excluded(candidate.source, candidate.text, DuplicateFact)];
        }
      } else if Preciser(candidate, existing) {
        selected' := selected[candidate.key := candidate];
        excluded' := excluded + [Excluded(existing.source, existing.text, LessPrecise)];
      } else {
        excluded' := excluded + [Excluded(candidate.source, candidate.text, LessPrecise)];
      }
    }
  }

  function Tally(counts: map<string, nat>, source: string): nat {
    if source in counts then counts[source] else 0
  }

  ghost predicate Tallied(counts: map<string, nat>, s: seq<Candidate>) {
    forall source :: Tally(counts, source) == multiset(Sources(s))[source]
  }

  lemma TallyOne(counts: map<string, nat>, s: seq<Candidate>, c: Candidate)
    requires Tallied(counts, s)
    ensures Tallied(counts[c.source := Tally(counts, c.source) + 1], s + [c])
  {
    assert Sources(s + [c]) == Sources(s) + [c.source];
  }

  /** `dedupe_candidates`. */
  method DedupeCandidates(candidates: seq<Candidate>)
    returns (included: seq<Candidate>, excluded: seq<Excluded>, counts: map<string, nat>)
    ensures included == Included(candidates)
    ensures excluded == Reported(Discarded(candidates))
    ensures Tallied(counts, candidates)
  {
    var order: seq<string>, selected: map<string, Candidate> := [], map[];
    excluded, counts := [], map[];
    var sorted := Sort(Before, candidates);
    var n := 0;
    while n < |sorted|
      invariant 0 <= n <= |sorted|
      invariant Mirrors(order, selected, Select(sorted[..n]).kept)
      invariant excluded == Reported(Select(sorted[..n]).dropped)
      invariant Tallied(counts, sorted[..n])
    {
      var candidate := sorted[n];
      assert sorted[..n + 1][..n] == sorted[..n];
      assert sorted[..n + 1] == sorted[..n] + [candidate];
      TallyOne(counts, sorted[..n], candidate);
      counts := counts[candidate.source := Tally(counts, candidate.source) + 1];
      SelectKeepsWinners(sorted[..n]);
      order, selected, excluded := AbsorbCandidate(order, selected, excluded, candidate, Select(sorted[..n]));
      n := n + 1;
    }
    assert sorted[..n] == sorted;
    var values := seq(|order|, i requires 0 <= i < |order| && order[i] in selected => selected[order[i]]);
    assert values == Select(sorted).kept;
    included := Sort(Before, values);
    SortedPermutation(candidates);
    SourcesOfPermutation(sorted, candidates);
  }

  lemma WithoutOne(s: seq<Candidate>, i: nat)
    requires i < |s|
    ensures multiset(s[..i] + s[i + 1..]) == multiset(s) - multiset{s[i]}
    ensures multiset(Sources(s)) == multiset(Sources(s[..i] + s[i + 1..])) + multiset{s[i].source}
  {
    var left, right := s[..i], s[i + 1..];
    assert s == left + [s[i]] + right;
    assert Sources(s) == Sources(left) + [s[i].source] + Sources(right);
    assert Sources(left + right) == Sources(left) + Sources(right);
  }

  /** Counting by source does not depend on the order. */
  lemma {:induction false} SourcesOfPermutation(a: seq<Candidate>, b: seq<Candidate>)
    requires multiset(a) == multiset(b)
    ensures multiset(Sources(a)) == multiset(Sources(b))
  {
    if a == [] {
      assert |b| == |multiset(b)| == 0;
    } else {
      var init, c := a[..|a| - 1], a[|a| - 1];
      assert a == init + [c];
      assert c in multiset(b);
      var i :| 0 <= i < |b| && b[i] == c;
      var rest := b[..i] + b[i + 1..];
      WithoutOne(b, i);
      WithoutOne(a, |a| - 1);
      assert init + a[|a|..] == init;
      SourcesOfPermutation(init, rest);
    }
  }
}
