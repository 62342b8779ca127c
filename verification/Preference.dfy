// Which candidate of a key the digest prefers, in terms of lengths, sources and the sort order alone.
module Preference {
  import opened Sorting
  import opened Dedupe

  /** Source `a` comes no later than `b` in the order system, report, journal, any other. */
  predicate NoLaterSource(a: string, b: string) {
    || a == "system"
    || (a == "report" && b != "system")
    || (a == "journal" && b != "system" && b != "report")
    || (b != "system" && b != "report" && b != "journal")
  }

  /** `a` comes no later than `b` by group, then value, then sequence, then text. */
  predicate InOrder(a: Candidate, b: Candidate) {
    && a.sortGroup <= b.sortGroup
    && (a.sortGroup == b.sortGroup ==> StrLeq(a.sortValue, b.sortValue))
    && (a.sortGroup == b.sortGroup && a.sortValue == b.sortValue ==> a.sequence <= b.sequence)
    && (a.sortGroup == b.sortGroup && a.sortValue == b.sortValue && a.sequence == b.sequence ==> StrLeq(a.text, b.text))
  }

  /** Of two candidates with one key the one with the longer text is more precise, and with texts of one length the
      one whose source comes first. */
  lemma PreciserMeans(a: Candidate, b: Candidate)
    ensures Preciser(a, b) <==>
              a.length > b.length || (a.length == b.length && !NoLaterSource(b.source, a.source))
  {
  }

  /** Nothing else of its key has a longer text; among the texts of that length its source comes first; and among those
      of such a source it comes first in the sort order. */
  ghost predicate Preferred(candidates: seq<Candidate>, c: Candidate) {
    c.fact != "" && forall d | d in candidates && d.key == c.key && d.fact != "" :: Beats(c, d)
  }

  predicate Beats(c: Candidate, d: Candidate) {
    && d.length <= c.length
    && (d.length == c.length ==> NoLaterSource(c.source, d.source))
    && (d.length == c.length && NoLaterSource(d.source, c.source) ==> InOrder(c, d))
  }

  lemma StrLeqItself(s: string)
    ensures StrLeq(s, s)
  {
    StrTotal(s, s);
  }

  lemma BeforeInOrder(a: Candidate, b: Candidate)
    requires Before(a, b)
    ensures InOrder(a, b)
  {
    StrLeqItself(a.sortValue);
  }

  lemma WinnerBeats(s: seq<Candidate>, i: nat, j: nat)
    requires SortedBy(Before, s) && i < |s| && j < |s| && Wins(s, i) && Rival(s, i, j)
    ensures Beats(s[i], s[j])
  {
    PreciserMeans(s[j], s[i]);
    PreciserMeans(s[i], s[j]);
    if i < j {
      BeforeInOrder(s[i], s[j]);
    } else if i == j {
      StrLeqItself(s[i].sortValue);
      StrLeqItself(s[i].text);
    }
  }

  /** A winner of the sorted input beats every candidate of its key that has a fact. */
  lemma WinnerBeatsRival(s: seq<Candidate>, c: Candidate, d: Candidate)
    requires SortedBy(Before, s) && IsWinner(s, c) && d in s && d.key == c.key && d.fact != ""
    ensures Beats(c, d)
  {
    var i :| 0 <= i < |s| && s[i] == c && Wins(s, i);
    var j :| 0 <= j < |s| && s[j] == d;
    WinnerBeats(s, i, j);
  }

  lemma WinnerHasFact(s: seq<Candidate>, c: Candidate)
    requires IsWinner(s, c)
    ensures c.fact != ""
  {
  }

  /** Every included candidate is the preferred one of its key, whatever the order of the input. */
  lemma IncludedArePreferred(candidates: seq<Candidate>, c: Candidate)
    requires c in Included(candidates)
    ensures c in candidates && Preferred(candidates, c)
  {
    IncludedHaveWon(candidates, c);
    SortedPermutation(candidates);
    WinnersArePreferred(candidates, Sort(Before, candidates), c);
  }

  lemma WinnersArePreferred(candidates: seq<Candidate>, s: seq<Candidate>, c: Candidate)
    requires SortedBy(Before, s) && IsWinner(s, c)
    requires forall d :: d in s <==> d in candidates
    ensures Preferred(candidates, c)
  {
    WinnerHasFact(s, c);
    forall d | d in candidates && d.key == c.key && d.fact != ""
      ensures Beats(c, d)
    {
      WinnerBeatsRival(s, c, d);
    }
  }

  lemma SortedIsInOrder(r: seq<Candidate>)
    requires SortedBy(Before, r)
    ensures forall i, j :: 0 <= i < j < |r| ==> InOrder(r[i], r[j])
  {
    forall i, j | 0 <= i < j < |r|
      ensures InOrder(r[i], r[j])
    {
      BeforeInOrder(r[i], r[j]);
    }
  }

  /** What the digest includes: for every key that has a fact the preferred candidate and no other, in sort order. */
  lemma IncludedAreChosen(candidates: seq<Candidate>)
    ensures var r := Included(candidates);
            && DistinctKeys(r)
            && (forall c | c in r :: c in candidates && Preferred(candidates, c))
            && (forall c | c in candidates :: c.fact != "" ==> exists d | d in r :: d.key == c.key)
            && (forall i, j :: 0 <= i < j < |r| ==> InOrder(r[i], r[j]))
  {
    OnePerFact(candidates);
    SortedIsInOrder(Included(candidates));
    forall c | c in Included(candidates)
      ensures c in candidates && Preferred(candidates, c)
    {
      IncludedArePreferred(candidates, c);
    }
  }
}
