// The metadata header of an exported document (project/docs_export.py).
module Header {
  import opened Json
  import opened Text

  datatype Field = Field(key: string, value: string)

  datatype Parsed = Parsed(metadata: map<string, string>, body: string)

  /** The characters at which `str.splitlines` ends a line. */
  predicate IsBreak(c: char) {
    var n := c as int;
    10 <= n <= 13 || 28 <= n <= 30 || n == 0x85 || n == 0x2028 || n == 0x2029
  }

  predicate OneLine(s: string) {
    forall i :: 0 <= i < |s| ==> !IsBreak(s[i])
  }

  /** What a value must look like to come back unchanged, apart from the end marker. */
  predicate Plain(s: string) {
    OneLine(s) && Trimmed(s)
  }

  predicate EndsWithMarker(s: string) {
    |s| >= 3 && s[|s| - 3] == '-' && s[|s| - 2] == '-' && s[|s| - 1] == '>'
  }

  predicate Clean(s: string) {
    Plain(s) && !EndsWithMarker(s)
  }

  predicate ValidKey(k: string) {
    k != "" && Plain(k) && forall i :: 0 <= i < |k| ==> k[i] != ':'
  }

  function Line(f: Field): string {
    f.key + ": " + f.value
  }

  function Lines(fields: seq<Field>): string {
    if fields == [] then "" else Line(fields[0]) + "\n" + Lines(fields[1..])
  }

  function Block(fields: seq<Field>): string {
    "<!--\n" + Lines(fields) + "-->\n\n"
  }

  /** The closing marker and its line end stand at position `i`. */
  predicate ClosesAt(s: string, i: nat) {
    i + 4 <= |s| && s[i] == '-' && s[i + 1] == '-' && s[i + 2] == '>' && s[i + 3] == '\n'
  }

  /** `s.find("-->\n")`, looking from position `from` on. */
  function FindClosing(s: string, from: nat): (r: Option<nat>)
    ensures r.Some? ==> from <= r.value && ClosesAt(s, r.value)
    ensures r.Some? ==> forall i :: from <= i < r.value ==> !ClosesAt(s, i)
    ensures r.None? ==> forall i :: from <= i ==> !ClosesAt(s, i)
    decreases |s| - from
  {
    if from + 4 > |s| then None else if ClosesAt(s, from) then Some(from) else FindClosing(s, from + 1)
  }

  function FirstBreak(s: string): (n: nat)
    ensures n <= |s| && (n < |s| ==> IsBreak(s[n]))
    ensures forall i :: 0 <= i < n ==> !IsBreak(s[i])
  {
    if s == "" || IsBreak(s[0]) then 0 else 1 + FirstBreak(s[1..])
  }

  /** `str.splitlines`: a carriage return and a following line feed are one break. */
  function SplitLines(s: string): (lines: seq<string>)
    ensures forall i :: 0 <= i < |lines| ==> OneLine(lines[i])
    decreases |s|
  {
    var n := FirstBreak(s);
    if s == "" then []
    else if n == |s| then [s]
    else
      var width := if s[n] == '\r' && n + 1 < |s| && s[n + 1] == '\n' then 2 else 1;
      [s[..n]] + SplitLines(s[n + width..])
  }

  /** The index of the first colon, or the length. */
  function Colon(s: string): (n: nat)
    ensures n <= |s| && (n < |s| ==> s[n] == ':')
    ensures forall i :: 0 <= i < n ==> s[i] != ':'
  {
    if s == "" || s[0] == ':' then 0 else 1 + Colon(s[1..])
  }

  /** One header line read into the dictionary; none when the line has no colon. */
  function ReadLine(metadata: map<string, string>, line: string): Option<map<string, string>> {
    var n := Colon(line);
    if n == |line| then None else Some(metadata[Strip(line[..n]) := Strip(line[n + 1..])])
  }

  function ReadLines(metadata: map<string, string>, lines: seq<string>): Option<map<string, string>>
    decreases |lines|
  {
    if lines == [] then Some(metadata)
    else
      var next := ReadLine(metadata, lines[0]);
      if next.None? then None else ReadLines(next.value, lines[1..])
  }

  function DropNewline(s: string): string {
    if s != "" && s[0] == '\n' then s[1..] else s
  }

  predicate Opens(text: string) {
    text[..if |text| < 5 then |text| else 5] == "<!--\n"
  }

  /** An opening marker leaves no room for a closing one before its own line end. */
  lemma ClosingIsBehindOpening(text: string, i: nat)
    requires Opens(text) && ClosesAt(text, i)
    ensures 5 <= i
  {
    assert text[..5][1] == '!' && text[..5][4] == '\n' && text[..5][0] == '<' && text[..5][3] == '-';
    assert text[0] == '<' && text[1] == '!' && text[3] == '-' && text[4] == '\n';
  }

  function Parse(text: string): Parsed {
    if !Opens(text) then Parsed(map[], text)
    else
      var closing := FindClosing(text, 0);
      if closing.None? then Parsed(map[], text)
      else
        ClosingIsBehindOpening(text, closing.value);
        ParseParts(text, text[5..closing.value], text[closing.value + 4..])
  }

  function ParseParts(text: string, header: string, rest: string): Parsed {
    var metadata := ReadLines(map[], SplitLines(header));
    if metadata.None? then Parsed(map[], text) else Parsed(metadata.value, DropNewline(rest))
  }

  /** The loop over the header lines. */
  method ReadHeader(lines: seq<string>) returns (r: Option<map<string, string>>)
    ensures r == ReadLines(map[], lines)
  {
    var metadata: map<string, string> := map[];
    var n := 0;
    while n < |lines|
      invariant 0 <= n <= |lines|
      invariant ReadLines(map[], lines) == ReadLines(metadata, lines[n..])
    {
      var line := lines[n];
      var colon := Colon(line);
      assert lines[n..][0] == line && lines[n..][1..] == lines[n + 1..];
      if colon == |line| {
        return None;
      }
      metadata := metadata[Strip(line[..colon]) := Strip(line[colon + 1..])];
      n := n + 1;
    }
    r := Some(metadata);
  }

  /** `parse_metadata_header` */
  method ParseMetadataHeader(text: string) returns (metadata: map<string, string>, body: string)
    ensures Parsed(metadata, body) == Parse(text)
  {
    metadata, body := map[], text;
    if !Opens(text) {
      return;
    }
    var closing := FindClosing(text, 0);
    if closing.None? {
      return;
    }
    ClosingIsBehindOpening(text, closing.value);
    var header := ReadHeader(SplitLines(text[5..closing.value]));
    if header.Some? {
      metadata, body := header.value, DropNewline(text[closing.value + 4..]);
    }
  }

  // ---- Whatever is parsed is plain ----

  lemma {:induction false} StripLeftIsSuffix(s: string) returns (k: nat)
    ensures k <= |s| && StripLeft(s) == s[k..]
    ensures StripLeft(s) == "" || !IsBlank(StripLeft(s)[0])
  {
    if s != "" && IsBlank(s[0]) {
      var m := StripLeftIsSuffix(s[1..]);
      k := m + 1;
      assert s[1..][m..] == s[k..];
    } else {
      k := 0;
    }
  }

  lemma {:induction false} StripRightIsPrefix(s: string) returns (k: nat)
    ensures k <= |s| && StripRight(s) == s[..k]
    ensures StripRight(s) == "" || !IsBlank(StripRight(s)[|StripRight(s)| - 1])
  {
    if s != "" && IsBlank(s[|s| - 1]) {
      k := StripRightIsPrefix(s[..|s| - 1]);
      assert s[..|s| - 1][..k] == s[..k];
    } else {
      k := |s|;
    }
  }

  lemma PartIsOneLine(s: string, k: nat, m: nat)
    requires OneLine(s) && k <= m <= |s|
    ensures OneLine(s[k..m])
  {
  }

  lemma PrefixIsTrimmed(s: string, k: nat)
    requires k <= |s| && (s == "" || !IsBlank(s[0])) && (k == 0 || !IsBlank(s[k - 1]))
    ensures Trimmed(s[..k])
  {
  }

  /** `strip` leaves no blank at either end and adds no line break. */
  lemma StripIsPlain(s: string)
    requires OneLine(s)
    ensures Plain(Strip(s))
  {
    var left := StripLeft(s);
    var k := StripLeftIsSuffix(s);
    var m := StripRightIsPrefix(left);
    PrefixIsTrimmed(left, m);
    PartIsOneLine(s, k, k + m);
    assert s[k..][..m] == s[k..k + m];
  }

  ghost predicate PlainValues(m: map<string, string>) {
    forall k :: k in m ==> Plain(m[k])
  }

  lemma {:induction false} ReadLinesArePlain(metadata: map<string, string>, lines: seq<string>)
    requires PlainValues(metadata) && forall i :: 0 <= i < |lines| ==> OneLine(lines[i])
    ensures var r := ReadLines(metadata, lines); r.Some? ==> PlainValues(r.value)
    decreases |lines|
  {
    if lines != [] {
      var next := ReadLine(metadata, lines[0]);
      if next.Some? {
        StripIsPlain(lines[0][Colon(lines[0]) + 1..]);
        ReadLinesArePlain(next.value, lines[1..]);
      }
    }
  }

  /** No text whatever makes the parser return a value with a line break or an outer blank. */
  lemma ParsedIsPlain(text: string)
    ensures PlainValues(Parse(text).metadata)
  {
    var closing := FindClosing(text, 0);
    if Opens(text) && closing.Some? {
      ClosingIsBehindOpening(text, closing.value);
      ReadLinesArePlain(map[], SplitLines(text[5..closing.value]));
    }
  }

  // ---- Clean fields come back ----

  ghost predicate ValidFields(fields: seq<Field>) {
    && (forall i :: 0 <= i < |fields| ==> ValidKey(fields[i].key))
    && (forall i, j :: 0 <= i < j < |fields| ==> fields[i].key != fields[j].key)
  }

  function AsMap(metadata: map<string, string>, fields: seq<Field>): map<string, string>
    decreases |fields|
  {
    if fields == [] then metadata else AsMap(metadata[fields[0].key := fields[0].value], fields[1..])
  }

  function LineSeq(fields: seq<Field>): (lines: seq<string>)
    ensures |lines| == |fields| && forall i :: 0 <= i < |lines| ==> lines[i] == Line(fields[i])
  {
    seq(|fields|, i requires 0 <= i < |fields| => Line(fields[i]))
  }

  lemma LineIsOneLine(f: Field)
    requires ValidKey(f.key) && OneLine(f.value)
    ensures OneLine(Line(f))
  {
    var line := Line(f);
    forall i | 0 <= i < |line|
      ensures !IsBreak(line[i])
    {
      if i >= |f.key| + 2 {
        assert line[i] == f.value[i - |f.key| - 2];
      }
    }
  }

  lemma SplitFirstLine(line: string, rest: string)
    requires OneLine(line)
    ensures SplitLines(line + "\n" + rest) == [line] + SplitLines(rest)
  {
    var s := line + "\n" + rest;
    assert s[..|line|] == line && s[|line| + 1..] == rest && s[|line|] == '\n';
    assert forall i :: 0 <= i < |line| ==> s[i] == line[i];
    assert FirstBreak(s) == |line|;
  }

  lemma {:induction false} LinesSplit(fields: seq<Field>)
    requires forall i :: 0 <= i < |fields| ==> ValidKey(fields[i].key) && OneLine(fields[i].value)
    ensures SplitLines(Lines(fields)) == LineSeq(fields)
  {
    if fields != [] {
      LineIsOneLine(fields[0]);
      SplitFirstLine(Line(fields[0]), Lines(fields[1..]));
      LinesSplit(fields[1..]);
      assert LineSeq(fields) == [Line(fields[0])] + LineSeq(fields[1..]);
    }
  }

  lemma StripOfTrimmed(s: string)
    requires Trimmed(s)
    ensures Strip(s) == s && Strip(" " + s) == s
  {
    assert (" " + s)[1..] == s;
    assert IsBlank(' ');
  }

  lemma FieldIsRead(metadata: map<string, string>, f: Field)
    requires ValidKey(f.key) && Trimmed(f.value)
    ensures ReadLine(metadata, Line(f)) == Some(metadata[f.key := f.value])
  {
    var line := Line(f);
    var n := Colon(line);
    assert line[|f.key|] == ':';
    assert forall i :: 0 <= i < |f.key| ==> line[i] == f.key[i] != ':';
    assert line[..n] == f.key;
    assert line[n + 1..] == " " + f.value;
    StripOfTrimmed(f.key);
    StripOfTrimmed(f.value);
  }

  lemma {:induction false} FieldsAreRead(metadata: map<string, string>, fields: seq<Field>)
    requires forall i :: 0 <= i < |fields| ==> ValidKey(fields[i].key) && Trimmed(fields[i].value)
    ensures ReadLines(metadata, LineSeq(fields)) == Some(AsMap(metadata, fields))
    decreases |fields|
  {
    if fields != [] {
      FieldIsRead(metadata, fields[0]);
      FieldsAreRead(metadata[fields[0].key := fields[0].value], fields[1..]);
      assert LineSeq(fields)[1..] == LineSeq(fields[1..]);
    }
  }

  /** In a text that starts with one line, the first closing marker can only be the end of that line. */
  lemma ClosesAtEnd(line: string, rest: string, i: nat)
    requires OneLine(line) && i <= |line| && ClosesAt(line + "\n" + rest, i)
    ensures EndsWithMarker(line)
  {
    var s := line + "\n" + rest;
    assert s[|line|] == '\n';
    assert forall k :: 0 <= k < |line| ==> s[k] == line[k];
    assert IsBreak('\n');
    assert i + 3 == |line|;
  }

  /** A header line ends with the marker exactly when its value does. */
  lemma LineEnds(f: Field)
    ensures EndsWithMarker(Line(f)) <==> EndsWithMarker(f.value)
  {
    var line, n := Line(f), |f.key| + 2;
    assert line[n - 2] == ':' && line[n - 1] == ' ';
    assert forall k :: 0 <= k < |f.value| ==> line[n + k] == f.value[k];
  }

  lemma LineCloses(f: Field, rest: string, i: nat)
    requires ValidKey(f.key) && OneLine(f.value)
    requires i <= |Line(f)| && ClosesAt(Line(f) + "\n" + rest, i)
    ensures EndsWithMarker(f.value)
  {
    LineIsOneLine(f);
    ClosesAtEnd(Line(f), rest, i);
    LineEnds(f);
  }

  lemma {:induction false} NoEarlyClosing(fields: seq<Field>, rest: string, i: nat)
    requires forall k :: 0 <= k < |fields| ==> ValidKey(fields[k].key) && Clean(fields[k].value)
    requires i < |Lines(fields)|
    ensures !ClosesAt(Lines(fields) + rest, i)
  {
    var line, more := Line(fields[0]), Lines(fields[1..]);
    assert Lines(fields) + rest == line + "\n" + (more + rest);
    if i <= |line| {
      if ClosesAt(Lines(fields) + rest, i) {
        LineCloses(fields[0], more + rest, i);
      }
    } else {
      NoEarlyClosing(fields[1..], rest, i - |line| - 1);
      assert (Lines(fields) + rest)[|line| + 1..] == more + rest;
    }
  }

  lemma Slices(a: string, b: string, c: string)
    ensures var s := a + b + c;
            s[..|a|] == a && s[|a|..|a| + |b|] == b && s[|a|..] == b + c && s[|a| + |b|..] == c
  {
  }

  /** Where the parts of a rendered document are. */
  lemma BlockShape(fields: seq<Field>, body: string)
    ensures var text, n := Block(fields) + body, |Lines(fields)| + 5;
            && |text| == n + 5 + |body| && text[..5] == "<!--\n" && text[5..n] == Lines(fields)
            && text[5..] == Lines(fields) + ("-->\n\n" + body) && text[n..] == "-->\n\n" + body
  {
    Slices("<!--\n", Lines(fields), "-->\n\n" + body);
    assert Block(fields) + body == "<!--\n" + Lines(fields) + ("-->\n\n" + body);
  }

  lemma CloserShape(text: string, n: nat, body: string)
    requires n <= |text| && text[n..] == "-->\n\n" + body
    ensures ClosesAt(text, n) && text[n + 4..] == "\n" + body
  {
    var tail := text[n..];
    assert text[n] == tail[0] && text[n + 1] == tail[1] && text[n + 2] == tail[2] && text[n + 3] == tail[3];
    assert text[n + 4..] == tail[4..];
  }

  lemma ClosesInTail(text: string, from: nat, i: nat)
    requires from <= i && from <= |text|
    ensures ClosesAt(text, i) <==> ClosesAt(text[from..], i - from)
  {
  }

  /** In a clean header the first closing marker is the one that ends it. */
  lemma CleanCloses(fields: seq<Field>, body: string)
    requires ValidFields(fields) && forall i :: 0 <= i < |fields| ==> Clean(fields[i].value)
    ensures FindClosing(Block(fields) + body, 0) == Some(|Lines(fields)| + 5)
  {
    var text, n := Block(fields) + body, |Lines(fields)| + 5;
    BlockShape(fields, body);
    CloserShape(text, n, body);
    var closing := FindClosing(text, 0).value;
    ClosingIsBehindOpening(text, closing);
    if closing < n {
      NoEarlyClosing(fields, "-->\n\n" + body, closing - 5);
      ClosesInTail(text, 5, closing);
    }
  }

  lemma ParseCuts(text: string, n: nat)
    requires |text| >= 5 && text[..5] == "<!--\n" && FindClosing(text, 0) == Some(n)
    ensures 5 <= n && Parse(text) == ParseParts(text, text[5..n], text[n + 4..])
  {
    ClosingIsBehindOpening(text, n);
  }

  lemma CleanParts(text: string, fields: seq<Field>, body: string)
    requires ValidFields(fields) && forall i :: 0 <= i < |fields| ==> Clean(fields[i].value)
    ensures ParseParts(text, Lines(fields), "\n" + body) == Parsed(AsMap(map[], fields), body)
  {
    LinesSplit(fields);
    FieldsAreRead(map[], fields);
    assert ("\n" + body)[1..] == body;
  }

  lemma CleanComesBack(fields: seq<Field>, body: string)
    requires ValidFields(fields) && forall i :: 0 <= i < |fields| ==> Clean(fields[i].value)
    ensures Parse(Block(fields) + body) == Parsed(AsMap(map[], fields), body)
  {
    var text, n := Block(fields) + body, |Lines(fields)| + 5;
    BlockShape(fields, body);
    CloserShape(text, n, body);
    CleanCloses(fields, body);
    ParseCuts(text, n);
    CleanParts(text, fields, body);
  }

  // ---- Other fields do not ----

  lemma {:induction false} AsMapFinds(metadata: map<string, string>, fields: seq<Field>, i: nat)
    requires ValidFields(fields) && i < |fields|
    ensures var m := AsMap(metadata, fields); fields[i].key in m && m[fields[i].key] == fields[i].value
    decreases |fields|
  {
    var next := metadata[fields[0].key := fields[0].value];
    if i > 0 {
      AsMapFinds(next, fields[1..], i - 1);
    } else {
      AsMapKeeps(next, fields[1..], fields[0].key);
    }
  }

  lemma {:induction false} AsMapKeeps(metadata: map<string, string>, fields: seq<Field>, key: string)
    requires key in metadata && forall i :: 0 <= i < |fields| ==> fields[i].key != key
    ensures var m := AsMap(metadata, fields); key in m && m[key] == metadata[key]
    decreases |fields|
  {
    if fields != [] {
      AsMapKeeps(metadata[fields[0].key := fields[0].value], fields[1..], key);
    }
  }

  lemma MarkedLineCloses(line: string, rest: string)
    requires EndsWithMarker(line)
    ensures ClosesAt(line + "\n" + rest, |line| - 3)
  {
    var s := line + "\n" + rest;
    assert s[|line|] == '\n' && forall k :: 0 <= k < |line| ==> s[k] == line[k];
  }

  lemma ClosesBehind(a: string, b: string, i: nat)
    requires ClosesAt(b, i)
    ensures ClosesAt(a + b, |a| + i)
  {
    var s := a + b;
    assert forall k :: 0 <= k < |b| ==> s[|a| + k] == b[k];
  }

  lemma {:induction false} MarkerCloses(fields: seq<Field>, rest: string, k: nat) returns (i: nat)
    requires k < |fields| && EndsWithMarker(fields[k].value)
    ensures i + 4 <= |Lines(fields)| && ClosesAt(Lines(fields) + rest, i)
  {
    var line, more := Line(fields[0]), Lines(fields[1..]);
    if k == 0 {
      i := |line| - 3;
      LineEnds(fields[0]);
      MarkedLineCloses(line, more + rest);
      assert Lines(fields) + rest == line + "\n" + (more + rest);
    } else {
      var j := MarkerCloses(fields[1..], rest, k - 1);
      i := |line + "\n"| + j;
      ClosesBehind(line + "\n", more + rest, j);
      assert Lines(fields) + rest == (line + "\n") + (more + rest);
    }
  }

  /** A value that ends with the marker ends the header early, and the rest of the header joins the body. */
  lemma MarkerLeaksIntoBody(fields: seq<Field>, body: string, k: nat)
    requires k < |fields| && EndsWithMarker(fields[k].value)
    ensures |Parse(Block(fields) + body).body| > |body|
  {
    var text := Block(fields) + body;
    BlockShape(fields, body);
    var i := MarkerCloses(fields, "-->\n\n" + body, k);
    ClosesInTail(text, 5, i + 5);
    var closing := FindClosing(text, 0);
    ClosingIsBehindOpening(text, closing.value);
    assert closing.Some? && closing.value <= i + 5;
    ParseCuts(text, closing.value);
  }

  /**
    * Rendering and parsing: the metadata and the body come back exactly when every value is one line, has no
    * outer blanks and does not end with the closing marker. The body may be any text.
    */
  lemma HeaderRoundTrip(fields: seq<Field>, body: string)
    requires ValidFields(fields)
    ensures Parse(Block(fields) + body) == Parsed(AsMap(map[], fields), body)
            <==> forall i :: 0 <= i < |fields| ==> Clean(fields[i].value)
  {
    if forall i :: 0 <= i < |fields| ==> Clean(fields[i].value) {
      CleanComesBack(fields, body);
    } else {
      var k :| 0 <= k < |fields| && !Clean(fields[k].value);
      if EndsWithMarker(fields[k].value) {
        MarkerLeaksIntoBody(fields, body, k);
      } else {
        ParsedIsPlain(Block(fields) + body);
        AsMapFinds(map[], fields, k);
      }
    }
  }

  // ---- Texts with and without a header ----

  /** The text starts with a header: an opening line, lines up to the first closing line end, and a rest. */
  ghost predicate Cut(text: string, header: string, rest: string) {
    text == "<!--\n" + header + "-->\n" + rest && forall i: nat :: i < 5 + |header| ==> !ClosesAt(text, i)
  }

  lemma CutParts(text: string, header: string, rest: string)
    requires Cut(text, header, rest)
    ensures Opens(text) && ClosesAt(text, 5 + |header|)
    ensures text[5..5 + |header|] == header && text[5 + |header| + 4..] == rest
  {
    var front := "<!--\n" + header;
    assert text == front + ("-->\n" + rest);
    assert text[..5] == "<!--\n";
    assert text[|front|..] == "-->\n" + rest;
    assert text[|front|] == '-' && text[|front| + 1] == '-' && text[|front| + 2] == '>' && text[|front| + 3] == '\n';
  }

  /** The first closing line end of a text that opens leaves a header in front of it. */
  lemma OpenedIsCut(text: string, closing: nat)
    requires Opens(text) && ClosesAt(text, closing) && forall i: nat :: i < closing ==> !ClosesAt(text, i)
    ensures 5 <= closing && Cut(text, text[5..closing], text[closing + 4..])
  {
    ClosingIsBehindOpening(text, closing);
    var header, rest := text[5..closing], text[closing + 4..];
    assert text[closing..closing + 4] == "-->\n";
    assert text == text[..5] + header + text[closing..closing + 4] + rest;
  }

  /** A text without a header comes back whole, without metadata. */
  lemma NoHeaderNoMetadata(text: string)
    requires forall header, rest :: !Cut(text, header, rest)
    ensures Parse(text) == Parsed(map[], text)
  {
    if Opens(text) && FindClosing(text, 0).Some? {
      OpenedIsCut(text, FindClosing(text, 0).value);
    }
  }

  lemma ParseOfCut(text: string, header: string, rest: string)
    requires Cut(text, header, rest)
    ensures Parse(text) == ParseParts(text, header, rest)
  {
    CutParts(text, header, rest);
    var closing := FindClosing(text, 0);
    assert !ClosesAt(text, 5 + |header|) || closing.Some?;
    assert closing.value == 5 + |header|;
  }

  lemma {:induction false} ReadsUnlessNoColon(metadata: map<string, string>, lines: seq<string>)
    ensures ReadLines(metadata, lines).None? <==> exists line <- lines :: ':' !in line
    decreases |lines|
  {
    if lines != [] {
      var n := Colon(lines[0]);
      assert ':' in lines[0] <==> n < |lines[0]|;
      assert lines == [lines[0]] + lines[1..];
      if n < |lines[0]| {
        ReadsUnlessNoColon(ReadLine(metadata, lines[0]).value, lines[1..]);
      }
    }
  }

  /** A header with a line that has no colon is no header: the text comes back whole. Otherwise the body is the rest
      without one leading line feed. */
  lemma HeaderNeedsColons(text: string, header: string, rest: string)
    requires Cut(text, header, rest)
    ensures (exists line <- SplitLines(header) :: ':' !in line) ==> Parse(text) == Parsed(map[], text)
    ensures (forall line <- SplitLines(header) :: ':' in line) ==>
              Parse(text).body == if rest != "" && rest[0] == '\n' then rest[1..] else rest
  {
    ParseOfCut(text, header, rest);
    ReadsUnlessNoColon(map[], SplitLines(header));
  }
}
