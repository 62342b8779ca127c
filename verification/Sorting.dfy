// The order on strings and the stable `sorted` of the source language.
module Sorting {

  /** Strings compare character by character; a proper prefix comes first. */
  predicate StrLeq(a: string, b: string) {
    a == [] || (b != [] && (a[0] < b[0] || (a[0] == b[0] && StrLeq(a[1..], b[1..]))))
  }

  lemma {:induction false} StrTotal(a: string, b: string)
    ensures StrLeq(a, b) || StrLeq(b, a)
  {
    if a != [] && b != [] && a[0] == b[0] {
      StrTotal(a[1..], b[1..]);
    }
  }

  lemma {:induction false} StrTransitive(a: string, b: string, c: string)
    requires StrLeq(a, b) && StrLeq(b, c)
    ensures StrLeq(a, c)
  {
    if a != [] && a[0] == b[0] && b[0] == c[0] {
      StrTransitive(a[1..], b[1..], c[1..]);
    }
  }

  lemma {:induction false} StrAntisymmetric(a: string, b: string)
    requires StrLeq(a, b) && StrLeq(b, a)
    ensures a == b
  {
    if a != [] {
      StrAntisymmetric(a[1..], b[1..]);
      assert a == [a[0]] + a[1..] && b == [b[0]] + b[1..];
    }
  }

  ghost predicate TotalPreorder<T(!new)>(leq: (T, T) -> bool) {
    && (forall x, y :: leq(x, y) || leq(y, x))
    && (forall x, y, z :: leq(x, y) && leq(y, z) ==> leq(x, z))
  }

  predicate SortedBy<T>(leq: (T, T) -> bool, s: seq<T>) {
    forall i, j :: 0 <= i < j < |s| ==> leq(s[i], s[j])
  }

  /** `x` goes behind everything that is not greater. */
  function Insert<T>(leq: (T, T) -> bool, s: seq<T>, x: T): seq<T> {
    if s == [] || leq(s[|s| - 1], x) then s + [x]
    else Insert(leq, s[..|s| - 1], x) + [s[|s| - 1]]
  }

  /** `sorted(s, key=...)`: stable, because equal elements are inserted in order. */
  function Sort<T>(leq: (T, T) -> bool, s: seq<T>): seq<T> {
    if s == [] then [] else Insert(leq, Sort(leq, s[..|s| - 1]), s[|s| - 1])
  }

  lemma {:induction false} InsertKeepsElements<T>(leq: (T, T) -> bool, s: seq<T>, x: T)
    ensures multiset(Insert(leq, s, x)) == multiset(s) + multiset{x}
  {
    if s != [] && !leq(s[|s| - 1], x) {
      var init, last := s[..|s| - 1], s[|s| - 1];
      assert s == init + [last];
      InsertKeepsElements(leq, init, x);
    }
  }

  lemma {:induction false} InsertKeepsOrder<T(!new)>(leq: (T, T) -> bool, s: seq<T>, x: T)
    requires TotalPreorder(leq) && SortedBy(leq, s)
    ensures SortedBy(leq, Insert(leq, s, x))
  {
    if s != [] && !leq(s[|s| - 1], x) {
      var init, last := s[..|s| - 1], s[|s| - 1];
      var r := Insert(leq, init, x);
      assert s == init + [last];
      InsertKeepsOrder(leq, init, x);
      InsertKeepsElements(leq, init, x);
      forall i | 0 <= i < |r|
        ensures leq(r[i], last)
      {
        var y := r[i];
        assert y in multiset(r);
        if y in multiset(init) {
          var k :| 0 <= k < |init| && init[k] == y;
          assert s[k] == y;
        }
      }
    }
  }

  lemma {:induction false} SortKeeps<T(!new)>(leq: (T, T) -> bool, s: seq<T>)
    ensures multiset(Sort(leq, s)) == multiset(s)
    ensures TotalPreorder(leq) ==> SortedBy(leq, Sort(leq, s))
  {
    if s != [] {
      var init, last := s[..|s| - 1], s[|s| - 1];
      assert s == init + [last];
      SortKeeps(leq, init);
      InsertKeepsElements(leq, Sort(leq, init), last);
      if TotalPreorder(leq) {
        InsertKeepsOrder(leq, Sort(leq, init), last);
      }
    }
  }

  lemma {:induction false} SortOfSorted<T(!new)>(leq: (T, T) -> bool, s: seq<T>)
    requires SortedBy(leq, s)
    ensures Sort(leq, s) == s
  {
    if s != [] {
      var init, last := s[..|s| - 1], s[|s| - 1];
      assert s == init + [last];
      SortOfSorted(leq, init);
    }
  }

  /** The elements that the order does not tell from `x`, in their order. */
  function Ties<T>(leq: (T, T) -> bool, s: seq<T>, x: T): seq<T> {
    if s == [] then []
    else
      var before, last := Ties(leq, s[..|s| - 1], x), s[|s| - 1];
      if leq(x, last) && leq(last, x) then before + [last] else before
  }

  lemma TiesOfMore<T>(leq: (T, T) -> bool, s: seq<T>, y: T, x: T)
    ensures Ties(leq, s + [y], x) == Ties(leq, s, x) + if leq(x, y) && leq(y, x) then [y] else []
  {
    assert (s + [y])[..|s|] == s;
  }

  lemma {:induction false} InsertKeepsTies<T(!new)>(leq: (T, T) -> bool, s: seq<T>, y: T, x: T)
    requires TotalPreorder(leq)
    ensures Ties(leq, Insert(leq, s, y), x) == Ties(leq, s, x) + if leq(x, y) && leq(y, x) then [y] else []
  {
    if s == [] || leq(s[|s| - 1], y) {
      TiesOfMore(leq, s, y, x);
    } else {
      var init, last := s[..|s| - 1], s[|s| - 1];
      InsertKeepsTies(leq, init, y, x);
      TiesOfMore(leq, Insert(leq, init, y), last, x);
      assert leq(last, x) && leq(x, y) ==> leq(last, y);
    }
  }

  /** Sorting is stable: elements that the order does not tell apart keep their order. */
  lemma {:induction false} SortIsStable<T(!new)>(leq: (T, T) -> bool, s: seq<T>, x: T)
    requires TotalPreorder(leq)
    ensures Ties(leq, Sort(leq, s), x) == Ties(leq, s, x)
  {
    if s != [] {
      var init, last := s[..|s| - 1], s[|s| - 1];
      SortIsStable(leq, init, x);
      InsertKeepsTies(leq, Sort(leq, init), last, x);
    }
  }
}
