// `" ".join(value.split())`: runs of blanks become one space, outer blanks disappear.
module Words {
  import opened Text

  /** The length of the first word of a text that does not start with a blank. */
  function WordEnd(s: string): (n: nat)
    ensures n <= |s| && (n < |s| ==> IsBlank(s[n]))
    ensures forall i :: 0 <= i < n ==> !IsBlank(s[i])
  {
    if s == "" || IsBlank(s[0]) then 0 else 1 + WordEnd(s[1..])
  }

  predicate IsWord(w: string) {
    w != "" && forall i :: 0 <= i < |w| ==> !IsBlank(w[i])
  }

  /** `value.split()` */
  function Split(s: string): (words: seq<string>)
    ensures forall i :: 0 <= i < |words| ==> IsWord(words[i])
    decreases |s|
  {
    if s == "" then []
    else if IsBlank(s[0]) then Split(s[1..])
    else
      var n := WordEnd(s);
      assert n > 0;
      [s[..n]] + Split(s[n..])
  }

  /** `" ".join(words)` */
  function Join(words: seq<string>): string {
    if words == [] then "" else if |words| == 1 then words[0] else words[0] + " " + Join(words[1..])
  }

  function Collapse(s: string): string {
    Join(Split(s))
  }

  lemma SplitWord(w: string, rest: string)
    requires IsWord(w) && (rest == "" || IsBlank(rest[0]))
    ensures Split(w + rest) == [w] + Split(rest)
  {
    var s := w + rest;
    assert s[0] == w[0];
    assert forall i :: 0 <= i < |w| ==> s[i] == w[i];
    assert rest != "" ==> s[|w|] == rest[0];
    assert WordEnd(s) == |w|;
    assert s[..|w|] == w && s[|w|..] == rest;
  }

  lemma {:induction false} SplitJoin(words: seq<string>)
    requires forall i :: 0 <= i < |words| ==> IsWord(words[i])
    ensures Split(Join(words)) == words
  {
    if |words| == 1 {
      SplitWord(words[0], "");
      assert words[0] + "" == words[0];
    } else if words != [] {
      var tail := Join(words[1..]);
      SplitJoin(words[1..]);
      assert words[0] + " " + tail == words[0] + (" " + tail);
      assert IsBlank(' ') && (" " + tail)[1..] == tail;
      SplitWord(words[0], " " + tail);
    }
  }

  /** Collapsing a collapsed text changes nothing. */
  lemma CollapseIsIdempotent(s: string)
    ensures Collapse(Collapse(s)) == Collapse(s)
  {
    SplitJoin(Split(s));
  }

  // ---- What the words of a text are ----

  predicate AllBlank(s: string) {
    forall i :: 0 <= i < |s| ==> IsBlank(s[i])
  }

  predicate AllWords(words: seq<string>) {
    forall i :: 0 <= i < |words| ==> IsWord(words[i])
  }

  /** Blanks before, between and behind the words. */
  predicate Gaps(gaps: seq<string>, words: seq<string>) {
    && |gaps| == |words| + 1
    && (forall i :: 0 <= i < |gaps| ==> AllBlank(gaps[i]))
    && forall i :: 0 < i < |words| ==> gaps[i] != ""
  }

  /** The text made of words and gaps. */
  function Laid(gaps: seq<string>, words: seq<string>): string
    requires |gaps| == |words| + 1
    decreases |words|
  {
    if words == [] then gaps[0] else gaps[0] + words[0] + Laid(gaps[1..], words[1..])
  }

  /** The gaps of a text between its words. */
  lemma {:induction false} SplitLeavesGaps(s: string) returns (gaps: seq<string>)
    ensures Gaps(gaps, Split(s)) && Laid(gaps, Split(s)) == s
    ensures s != "" && IsBlank(s[0]) ==> gaps[0] != ""
    decreases |s|
  {
    if s == "" {
      gaps := [""];
    } else if IsBlank(s[0]) {
      var rest := SplitLeavesGaps(s[1..]);
      gaps := rest[0 := [s[0]] + rest[0]];
      LongerGap(s[0], rest, Split(s));
      assert s == [s[0]] + s[1..];
    } else {
      var n := WordEnd(s);
      var rest := SplitLeavesGaps(s[n..]);
      gaps := [""] + rest;
      assert Split(s) == [s[..n]] + Split(s[n..]);
      assert gaps[1..] == rest && Split(s)[1..] == Split(s[n..]);
      assert s == s[..n] + s[n..];
      WordInFront(rest, Split(s[n..]), s[..n]);
    }
  }

  lemma LongerGap(c: char, gaps: seq<string>, words: seq<string>)
    requires Gaps(gaps, words) && IsBlank(c)
    ensures var longer := gaps[0 := [c] + gaps[0]]; Gaps(longer, words) && Laid(longer, words) == [c] + Laid(gaps, words)
  {
    var longer := gaps[0 := [c] + gaps[0]];
    if words != [] {
      assert longer[1..] == gaps[1..];
      var tail := Laid(gaps[1..], words[1..]);
      assert [c] + gaps[0] + words[0] + tail == [c] + (gaps[0] + words[0] + tail);
    }
  }

  lemma WordInFront(gaps: seq<string>, words: seq<string>, w: string)
    requires Gaps(gaps, words) && (words != [] ==> gaps[0] != "")
    ensures Gaps([""] + gaps, [w] + words)
  {
    var more := [""] + gaps;
    forall i | 0 <= i < |more|
      ensures AllBlank(more[i])
    {
      assert i > 0 ==> more[i] == gaps[i - 1];
    }
    forall i | 0 < i < |words| + 1
      ensures more[i] != ""
    {
      assert more[i] == gaps[i - 1];
    }
  }

  lemma {:induction false} SkipBlanks(gap: string, rest: string)
    requires AllBlank(gap)
    ensures Split(gap + rest) == Split(rest)
  {
    if gap == "" {
      assert gap + rest == rest;
    } else {
      assert (gap + rest)[0] == gap[0] && (gap + rest)[1..] == gap[1..] + rest;
      SkipBlanks(gap[1..], rest);
    }
  }

  lemma {:induction false} SplitLaid(gaps: seq<string>, words: seq<string>)
    requires Gaps(gaps, words) && AllWords(words)
    ensures Split(Laid(gaps, words)) == words
    decreases |words|
  {
    if words == [] {
      SkipBlanks(gaps[0], "");
      assert gaps[0] + "" == gaps[0];
    } else {
      var tail := Laid(gaps[1..], words[1..]);
      SplitLaid(gaps[1..], words[1..]);
      assert gaps[0] + words[0] + tail == gaps[0] + (words[0] + tail);
      SkipBlanks(gaps[0], words[0] + tail);
      StartsWithBlank(gaps[1..], words[1..]);
      SplitWord(words[0], tail);
    }
  }

  lemma StartsWithBlank(gaps: seq<string>, words: seq<string>)
    requires |gaps| == |words| + 1 && AllBlank(gaps[0]) && (words != [] ==> gaps[0] != "")
    ensures Laid(gaps, words) == "" || IsBlank(Laid(gaps, words)[0])
  {
  }

  /** The words of a text are exactly the ones that blanks separate in it, in their order. */
  lemma SplitMeansLaid(s: string, words: seq<string>)
    ensures Split(s) == words <==> AllWords(words) && exists gaps :: Gaps(gaps, words) && Laid(gaps, words) == s
  {
    if Split(s) == words {
      var gaps := SplitLeavesGaps(s);
    }
    if AllWords(words) && exists gaps :: Gaps(gaps, words) && Laid(gaps, words) == s {
      var gaps :| Gaps(gaps, words) && Laid(gaps, words) == s;
      SplitLaid(gaps, words);
    }
  }

  /** Every blank is a space between two characters that are not. */
  predicate SinglySpaced(s: string) {
    forall i :: 0 <= i < |s| && IsBlank(s[i]) ==>
      s[i] == ' ' && 0 < i < |s| - 1 && !IsBlank(s[i - 1]) && !IsBlank(s[i + 1])
  }

  lemma {:induction false} JoinIsSinglySpaced(words: seq<string>)
    requires AllWords(words)
    ensures SinglySpaced(Join(words)) && (words != [] ==> Join(words) != "")
  {
    if |words| > 1 {
      var tail := Join(words[1..]);
      JoinIsSinglySpaced(words[1..]);
      assert tail == "" || !IsBlank(tail[0]);
      WordAndTail(words[0], tail);
    }
  }

  lemma InTail(w: string, tail: string, i: nat)
    requires SinglySpaced(tail) && i < |tail| && IsBlank(tail[i])
    ensures var s, k := w + " " + tail, |w| + 1 + i;
            s[k] == ' ' && 0 < k < |s| - 1 && !IsBlank(s[k - 1]) && !IsBlank(s[k + 1])
  {
    var s, k := w + " " + tail, |w| + 1 + i;
    assert s[k] == tail[i] && s[k + 1] == tail[i + 1] && s[k - 1] == tail[i - 1];
  }

  lemma WordAndTail(w: string, tail: string)
    requires IsWord(w) && SinglySpaced(tail) && tail != ""
    ensures SinglySpaced(w + " " + tail)
  {
    var s, n := w + " " + tail, |w|;
    assert !IsBlank(tail[0]);
    assert forall k :: 0 <= k < n ==> s[k] == w[k];
    assert s[n] == ' ' && s[n + 1] == tail[0] && s[n - 1] == w[n - 1];
    forall i | 0 <= i < |s| && IsBlank(s[i])
      ensures s[i] == ' ' && 0 < i < |s| - 1 && !IsBlank(s[i - 1]) && !IsBlank(s[i + 1])
    {
      if i > n {
        InTail(w, tail, i - n - 1);
      }
    }
  }

  /** Collapsing keeps the words of a text in their order, with single spaces between them. */
  lemma CollapseKeepsWords(s: string)
    ensures Split(Collapse(s)) == Split(s) && SinglySpaced(Collapse(s))
  {
    SplitJoin(Split(s));
    JoinIsSinglySpaced(Split(s));
  }

  // ---- Stripping ----

  lemma {:induction false} StripLeftCuts(s: string) returns (cut: string)
    ensures AllBlank(cut) && s == cut + StripLeft(s)
    ensures StripLeft(s) == "" || !IsBlank(StripLeft(s)[0])
  {
    if s != "" && IsBlank(s[0]) {
      var rest := StripLeftCuts(s[1..]);
      cut := [s[0]] + rest;
      assert s == [s[0]] + s[1..];
    } else {
      cut := "";
    }
  }

  lemma {:induction false} StripRightCuts(s: string) returns (cut: string)
    ensures AllBlank(cut) && s == StripRight(s) + cut
    ensures StripRight(s) == "" || !IsBlank(StripRight(s)[|StripRight(s)| - 1])
  {
    if s != "" && IsBlank(s[|s| - 1]) {
      var init, last := s[..|s| - 1], s[|s| - 1];
      var rest := StripRightCuts(init);
      cut := rest + [last];
      assert StripRight(s) == StripRight(init) && s == init + [last];
      assert StripRight(init) + rest + [last] == StripRight(init) + (rest + [last]);
    } else {
      cut := "";
    }
  }

  /** Stripping cuts the blanks at both ends and nothing else. */
  lemma StripCutsBlanks(s: string) returns (left: string, right: string)
    ensures AllBlank(left) && AllBlank(right) && s == left + Strip(s) + right && Trimmed(Strip(s))
  {
    left := StripLeftCuts(s);
    right := StripRightCuts(StripLeft(s));
    assert StripLeft(s) == Strip(s) + right;
    assert Strip(s) != "" ==> Strip(s)[0] == StripLeft(s)[0];
  }

  lemma {:induction false} SplitBehind(s: string, gap: string)
    requires AllBlank(gap)
    ensures Split(s + gap) == Split(s)
    decreases |s|
  {
    if s == "" {
      SkipBlanks(gap, "");
      assert s + gap == gap == gap + "";
    } else if IsBlank(s[0]) {
      assert (s + gap)[1..] == s[1..] + gap;
      SplitBehind(s[1..], gap);
    } else {
      var n := WordEnd(s);
      SplitBehind(s[n..], gap);
      assert s + gap == s[..n] + (s[n..] + gap) && s == s[..n] + s[n..];
      SplitWord(s[..n], s[n..] + gap);
      SplitWord(s[..n], s[n..]);
    }
  }

  /** Stripping keeps the words. */
  lemma StripKeepsWords(s: string)
    ensures Split(Strip(s)) == Split(s)
  {
    var left, right := StripCutsBlanks(s);
    assert left + Strip(s) + right == left + (Strip(s) + right);
    SkipBlanks(left, Strip(s) + right);
    SplitBehind(Strip(s), right);
  }

  /** The words of two texts with a space between them. */
  lemma {:induction false} SplitOfTwo(a: string, b: string)
    ensures Split(a + " " + b) == Split(a) + Split(b)
    decreases |a|
  {
    if a == "" {
      assert a + " " + b == " " + b;
      SkipBlanks(" ", b);
    } else if IsBlank(a[0]) {
      assert (a + " " + b)[1..] == a[1..] + " " + b;
      SplitOfTwo(a[1..], b);
    } else {
      var n := WordEnd(a);
      SplitOfTwo(a[n..], b);
      assert a + " " + b == a[..n] + (a[n..] + " " + b) && a == a[..n] + a[n..];
      SplitWord(a[..n], a[n..] + " " + b);
      SplitWord(a[..n], a[n..]);
      assert [a[..n]] + (Split(a[n..]) + Split(b)) == [a[..n]] + Split(a[n..]) + Split(b);
    }
  }
}
