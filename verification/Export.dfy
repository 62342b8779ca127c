// Exporting documents with a metadata header (project/docs_export.py).
module Export {
  import opened Header

  const DOCS_SCHEMA_VERSION := "v1"
  const EXPORTER_VERSION := "1"

  const VERSION_KEY := "BTQ_DOC_VERSION"
  const TIME_KEY := "BTQ_EXPORT_TIME"
  const COMMIT_KEY := "BTQ_GIT_COMMIT"
  const PATH_KEY := "BTQ_SOURCE_PATH"
  const EXPORTER_KEY := "BTQ_EXPORTER_VERSION"

  /** `sourceRel` is the source path relative to its root, as the header shows it. */
  datatype Item = Item(source: string, target: string, sourceRel: string)

  datatype Status = Written | Unchanged

  datatype Run = Run(files: map<string, string>, statuses: seq<Status>)

  function Fields(item: Item, commit: string, time: string): seq<Field> {
    [Field(VERSION_KEY, DOCS_SCHEMA_VERSION), Field(TIME_KEY, time), Field(COMMIT_KEY, commit),
     Field(PATH_KEY, item.sourceRel), Field(EXPORTER_KEY, EXPORTER_VERSION)]
  }

  function Rendered(content: string, item: Item, commit: string, time: string): string {
    Block(Fields(item, commit, time)) + content
  }

  predicate Has(metadata: map<string, string>, key: string, value: string) {
    key in metadata && metadata[key] == value
  }

  /** `existing_export_is_current`. */
  predicate IsCurrent(text: string, content: string, item: Item, commit: string) {
    var parsed := Parse(text);
    && parsed.body == content
    && Has(parsed.metadata, VERSION_KEY, DOCS_SCHEMA_VERSION)
    && Has(parsed.metadata, COMMIT_KEY, commit)
    && Has(parsed.metadata, PATH_KEY, item.sourceRel)
    && Has(parsed.metadata, EXPORTER_KEY, EXPORTER_VERSION)
    && TIME_KEY in parsed.metadata && parsed.metadata[TIME_KEY] != ""
  }

  predicate SourcesExist(files: map<string, string>, items: seq<Item>) {
    forall i :: 0 <= i < |items| ==> items[i].source in files
  }

  predicate Keeps(files: map<string, string>, item: Item, commit: string, time: string)
    requires item.source in files
  {
    var content := files[item.source];
    item.target in files
    && (IsCurrent(files[item.target], content, item, commit)
        || files[item.target] == Rendered(content, item, commit, time))
  }

  function ExportOne(files: map<string, string>, item: Item, commit: string, time: string): (r: map<string, string>)
    requires item.source in files
    ensures r.Keys >= files.Keys && forall p :: p in files && p != item.target ==> r[p] == files[p]
    ensures forall p :: p in r && p !in files ==> p == item.target
    ensures item.target in r
  {
    if Keeps(files, item, commit, time) then files
    else files[item.target := Rendered(files[item.source], item, commit, time)]
  }

  /** The documents after the run and what happened to each of them. */
  function ExportAll(files: map<string, string>, items: seq<Item>, commit: string, time: string): (r: Run)
    requires SourcesExist(files, items)
    ensures r.files.Keys >= files.Keys && |r.statuses| == |items|
  {
    if items == [] then Run(files, [])
    else
      var before := ExportAll(files, items[..|items| - 1], commit, time);
      var item := items[|items| - 1];
      Run(ExportOne(before.files, item, commit, time),
          before.statuses + [if Keeps(before.files, item, commit, time) then Unchanged else Written])
  }

  function Count(statuses: seq<Status>, status: Status): nat {
    if statuses == [] then 0
    else Count(statuses[..|statuses| - 1], status) + if statuses[|statuses| - 1] == status then 1 else 0
  }

  lemma CountNext(statuses: seq<Status>, status: Status, counted: Status)
    ensures Count(statuses + [status], counted) == Count(statuses, counted) + if status == counted then 1 else 0
  {
    assert (statuses + [status])[..|statuses|] == statuses;
  }

  lemma ExportNext(files: map<string, string>, items: seq<Item>, n: nat, commit: string, time: string)
    requires SourcesExist(files, items) && n < |items|
    ensures var before := ExportAll(files, items[..n], commit, time);
            ExportAll(files, items[..n + 1], commit, time)
            == Run(ExportOne(before.files, items[n], commit, time),
                   before.statuses + [if Keeps(before.files, items[n], commit, time) then Unchanged else Written])
  {
    assert items[..n + 1][..n] == items[..n];
  }

  class Disk {
    var files: map<string, string>

    constructor (initial: map<string, string>)
      ensures files == initial
    {
      files := initial;
    }
  }

  method ExportItem(disk: Disk, item: Item, commit: string, time: string) returns (status: Status)
    requires item.source in disk.files
    modifies disk
    ensures status == if Keeps(old(disk.files), item, commit, time) then Unchanged else Written
    ensures disk.files == ExportOne(old(disk.files), item, commit, time)
  {
    var content := disk.files[item.source];
    if item.target in disk.files && IsCurrent(disk.files[item.target], content, item, commit) {
      return Unchanged;
    }
    var rendered := Rendered(content, item, commit, time);
    if item.target in disk.files && disk.files[item.target] == rendered {
      return Unchanged;
    }
    disk.files := disk.files[item.target := rendered];
    status := Written;
  }

  /** The next item of a run. */
  method ExportNextItem(disk: Disk, ghost files: map<string, string>, items: seq<Item>, n: nat, commit: string,
                        time: string, statuses: seq<Status>) returns (status: Status)
    requires SourcesExist(files, items) && n < |items|
    requires Run(disk.files, statuses) == ExportAll(files, items[..n], commit, time)
    modifies disk
    ensures Run(disk.files, statuses + [status]) == ExportAll(files, items[..n + 1], commit, time)
  {
    ExportNext(files, items, n, commit, time);
    status := ExportItem(disk, items[n], commit, time);
  }

  /** The loop of `export_docs`. */
  method ExportDocs(disk: Disk, items: seq<Item>, commit: string, time: string)
    returns (written: nat, untouched: nat, statuses: seq<Status>)
    requires SourcesExist(disk.files, items)
    modifies disk
    ensures Run(disk.files, statuses) == ExportAll(old(disk.files), items, commit, time)
    ensures written == Count(statuses, Written) && untouched == Count(statuses, Unchanged)
    ensures written + untouched == |items|
  {
    written, untouched, statuses := 0, 0, [];
    var n := 0;
    while n < |items|
      invariant 0 <= n <= |items|
      invariant Run(disk.files, statuses) == ExportAll(old(disk.files), items[..n], commit, time)
      invariant written == Count(statuses, Written) && untouched == Count(statuses, Unchanged)
      invariant written + untouched == n
    {
      var status := ExportNextItem(disk, old(disk.files), items, n, commit, time, statuses);
      if status == Written {
        written := written + 1;
      } else {
        untouched := untouched + 1;
      }
      CountNext(statuses, status, Written);
      CountNext(statuses, status, Unchanged);
      statuses := statuses + [status];
      n := n + 1;
    }
    assert items[..n] == items;
  }

  // ---- What a run leaves behind ----

  /** The export manifest refuses a target listed twice; no exported document is a source. */
  ghost predicate Separate(items: seq<Item>) {
    && (forall i, j :: 0 <= i < j < |items| ==> items[i].target != items[j].target)
    && (forall i, j :: 0 <= i < |items| && 0 <= j < |items| ==> items[i].source != items[j].target)
  }

  ghost predicate Presentable(item: Item, commit: string, time: string) {
    Clean(item.sourceRel) && Clean(commit) && Clean(time) && time != ""
  }

  /** Capital letters and underscores. */
  predicate Capitals(s: string) {
    forall i :: 0 <= i < |s| ==> 'A' <= s[i] <= 'Z' || s[i] == '_'
  }

  lemma CapitalsAreValid(s: string)
    requires s != "" && Capitals(s)
    ensures ValidKey(s)
  {
  }

  lemma KeysAreValid()
    ensures ValidKey(VERSION_KEY) && ValidKey(TIME_KEY) && ValidKey(COMMIT_KEY) && ValidKey(PATH_KEY)
    ensures ValidKey(EXPORTER_KEY)
  {
    CapitalsAreValid(VERSION_KEY);
    CapitalsAreValid(TIME_KEY);
    CapitalsAreValid(COMMIT_KEY);
    CapitalsAreValid(PATH_KEY);
    CapitalsAreValid(EXPORTER_KEY);
  }

  lemma KeysDiffer()
    ensures VERSION_KEY != TIME_KEY && VERSION_KEY != COMMIT_KEY && VERSION_KEY != PATH_KEY
    ensures TIME_KEY != COMMIT_KEY && TIME_KEY != PATH_KEY && COMMIT_KEY != PATH_KEY
    ensures EXPORTER_KEY !in [VERSION_KEY, TIME_KEY, COMMIT_KEY, PATH_KEY]
  {
    assert VERSION_KEY[4] == 'D' && TIME_KEY[4] == 'E' && COMMIT_KEY[4] == 'G' && PATH_KEY[4] == 'S'
           && |EXPORTER_KEY| == 20;
  }

  lemma FieldsAreValid(item: Item, commit: string, time: string)
    ensures ValidFields(Fields(item, commit, time))
  {
    KeysAreValid();
    FiveFields(VERSION_KEY, TIME_KEY, COMMIT_KEY, PATH_KEY, EXPORTER_KEY, Fields(item, commit, time)) by {
      KeysDiffer();
    }
  }

  lemma VersionsAreClean()
    ensures Clean(DOCS_SCHEMA_VERSION) && Clean(EXPORTER_VERSION)
  {
  }

  lemma FiveFields(a: string, b: string, c: string, d: string, e: string, fields: seq<Field>)
    requires ValidKey(a) && ValidKey(b) && ValidKey(c) && ValidKey(d) && ValidKey(e)
    requires a != b && a != c && a != d && b != c && b != d && c != d && e !in [a, b, c, d]
    requires |fields| == 5 && fields[0].key == a && fields[1].key == b && fields[2].key == c
    requires fields[3].key == d && fields[4].key == e
    ensures ValidFields(fields)
  {
  }

  /** The rendered document parses back into its own header and exactly its source. */
  lemma RenderedComesBack(content: string, item: Item, commit: string, time: string)
    requires Clean(item.sourceRel) && Clean(commit) && Clean(time)
    ensures Parse(Rendered(content, item, commit, time))
            == Parsed(AsMap(map[], Fields(item, commit, time)), content)
  {
    FieldsAreValid(item, commit, time);
    VersionsAreClean();
    HeaderRoundTrip(Fields(item, commit, time), content);
  }

  /** What the header of an exported document says, key by key. */
  lemma HeaderSays(content: string, item: Item, commit: string, time: string)
    requires Clean(item.sourceRel) && Clean(commit) && Clean(time)
    ensures var parsed := Parse(Rendered(content, item, commit, time));
            && parsed.body == content
            && Has(parsed.metadata, "BTQ_DOC_VERSION", "v1") && Has(parsed.metadata, "BTQ_EXPORT_TIME", time)
            && Has(parsed.metadata, "BTQ_GIT_COMMIT", commit) && Has(parsed.metadata, "BTQ_SOURCE_PATH", item.sourceRel)
            && Has(parsed.metadata, "BTQ_EXPORTER_VERSION", "1")
  {
    var fields := Fields(item, commit, time);
    FieldsAreValid(item, commit, time);
    RenderedComesBack(content, item, commit, time);
    AsMapFinds(map[], fields, 0);
    AsMapFinds(map[], fields, 1);
    AsMapFinds(map[], fields, 2);
    AsMapFinds(map[], fields, 3);
    AsMapFinds(map[], fields, 4);
  }

  lemma RenderedIsCurrent(content: string, item: Item, commit: string, time: string)
    requires Presentable(item, commit, time)
    ensures IsCurrent(Rendered(content, item, commit, time), content, item, commit)
  {
    var fields := Fields(item, commit, time);
    FieldsAreValid(item, commit, time);
    RenderedComesBack(content, item, commit, time);
    forall i: nat | i < 5
      ensures Has(AsMap(map[], fields), fields[i].key, fields[i].value)
    {
      AsMapFinds(map[], fields, i);
    }
    assert Has(AsMap(map[], fields), fields[0].key, fields[0].value);
    assert Has(AsMap(map[], fields), fields[1].key, fields[1].value);
    assert Has(AsMap(map[], fields), fields[2].key, fields[2].value);
    assert Has(AsMap(map[], fields), fields[3].key, fields[3].value);
    assert Has(AsMap(map[], fields), fields[4].key, fields[4].value);
  }

  /** A document never counts as current for a commit or a path that the header cannot hold. */
  lemma UnprintableIsNeverCurrent(text: string, content: string, item: Item, commit: string)
    requires !Plain(commit) || !Plain(item.sourceRel)
    ensures !IsCurrent(text, content, item, commit)
  {
    ParsedIsPlain(text);
  }

  lemma {:induction false} OnlyTargetsChange(files: map<string, string>, items: seq<Item>, commit: string, time: string,
                                             path: string)
    requires SourcesExist(files, items) && forall i :: 0 <= i < |items| ==> items[i].target != path
    ensures var after := ExportAll(files, items, commit, time).files;
            (path in after <==> path in files) && (path in files ==> after[path] == files[path])
  {
    if items != [] {
      OnlyTargetsChange(files, items[..|items| - 1], commit, time, path);
    }
  }

  ghost predicate UpToDate(files: map<string, string>, after: map<string, string>, item: Item, commit: string) {
    && item.source in files && item.source in after && after[item.source] == files[item.source]
    && item.target in after && IsCurrent(after[item.target], files[item.source], item, commit)
  }

  lemma ExportOneIsUpToDate(files: map<string, string>, item: Item, commit: string, time: string)
    requires item.source in files && item.source != item.target && Presentable(item, commit, time)
    ensures UpToDate(files, ExportOne(files, item, commit, time), item, commit)
  {
    RenderedIsCurrent(files[item.source], item, commit, time);
  }

  lemma ExportLast(files: map<string, string>, before: map<string, string>, item: Item, commit: string, time: string)
    requires item.source in files && item.source in before && before[item.source] == files[item.source]
    requires item.source != item.target && Presentable(item, commit, time)
    ensures UpToDate(files, ExportOne(before, item, commit, time), item, commit)
  {
    ExportOneIsUpToDate(before, item, commit, time);
  }

  lemma UpToDateStays(files: map<string, string>, before: map<string, string>, after: map<string, string>, item: Item,
                      commit: string)
    requires UpToDate(files, before, item, commit)
    requires item.source in after && after[item.source] == before[item.source]
    requires item.target in after && after[item.target] == before[item.target]
    ensures UpToDate(files, after, item, commit)
  {
  }

  ghost predicate AllUpToDate(files: map<string, string>, after: map<string, string>, items: seq<Item>, commit: string) {
    forall i :: 0 <= i < |items| ==> UpToDate(files, after, items[i], commit)
  }

  lemma OthersStay(files: map<string, string>, before: map<string, string>, init: seq<Item>, last: Item, commit: string,
                   time: string)
    requires last.source in before && Separate(init + [last]) && AllUpToDate(files, before, init, commit)
    ensures AllUpToDate(files, ExportOne(before, last, commit, time), init, commit)
  {
    var items, after := init + [last], ExportOne(before, last, commit, time);
    forall i | 0 <= i < |init|
      ensures UpToDate(files, after, init[i], commit)
    {
      assert items[i] == init[i] && items[|init|] == last;
      UpToDateStays(files, before, after, init[i], commit);
    }
  }

  /**
    * After an export every target holds a current copy of its source, whatever was there before, and every
    * source is as it was.
    */
  lemma {:induction false} EveryTargetIsCurrent(files: map<string, string>, items: seq<Item>, commit: string,
                                                time: string)
    requires SourcesExist(files, items) && Separate(items)
    requires forall i :: 0 <= i < |items| ==> Presentable(items[i], commit, time)
    ensures AllUpToDate(files, ExportAll(files, items, commit, time).files, items, commit)
  {
    if items != [] {
      var init, last := items[..|items| - 1], items[|items| - 1];
      var before := ExportAll(files, init, commit, time).files;
      assert items == init + [last];
      EveryTargetIsCurrent(files, init, commit, time);
      OnlyTargetsChange(files, init, commit, time, last.source);
      ExportLast(files, before, last, commit, time);
      OthersStay(files, before, init, last, commit, time);
    }
  }

  lemma {:induction false} CurrentIsKept(files: map<string, string>, items: seq<Item>, commit: string, time: string)
    requires SourcesExist(files, items)
    requires forall i :: 0 <= i < |items| ==> UpToDate(files, files, items[i], commit)
    ensures ExportAll(files, items, commit, time).files == files
    ensures Count(ExportAll(files, items, commit, time).statuses, Written) == 0
  {
    if items != [] {
      var init, last := items[..|items| - 1], items[|items| - 1];
      CurrentIsKept(files, init, commit, time);
      assert UpToDate(files, files, last, commit);
      var run := ExportAll(files, items, commit, time);
      assert run.statuses[..|run.statuses| - 1] == ExportAll(files, init, commit, time).statuses;
    }
  }

  /** A second export at the same commit, at whatever time, writes no document. */
  lemma SecondExportWritesNothing(files: map<string, string>, items: seq<Item>, commit: string, time: string,
                                  later: string)
    requires SourcesExist(files, items) && Separate(items)
    requires forall i :: 0 <= i < |items| ==> Presentable(items[i], commit, time)
    ensures var first := ExportAll(files, items, commit, time).files;
            var second := ExportAll(first, items, commit, later);
            second.files == first && Count(second.statuses, Written) == 0
  {
    var first := ExportAll(files, items, commit, time).files;
    EveryTargetIsCurrent(files, items, commit, time);
    forall i | 0 <= i < |items|
      ensures UpToDate(first, first, items[i], commit)
    {
      assert UpToDate(files, first, items[i], commit);
    }
    CurrentIsKept(first, items, commit, later);
  }

  // ---- Exactly when a repeated export writes again ----

  predicate ReturnedByHeader(item: Item, commit: string) {
    Clean(commit) && Clean(item.sourceRel)
  }

  /** A document rendered at a proper time is current exactly when the header can return its commit and path. */
  lemma RenderedIsCurrentIff(content: string, item: Item, commit: string, time: string)
    requires Clean(time) && time != ""
    ensures IsCurrent(Rendered(content, item, commit, time), content, item, commit) <==> ReturnedByHeader(item, commit)
  {
    if ReturnedByHeader(item, commit) {
      RenderedIsCurrent(content, item, commit, time);
    } else if !Plain(commit) || !Plain(item.sourceRel) {
      UnprintableIsNeverCurrent(Rendered(content, item, commit, time), content, item, commit);
    } else {
      var k := if EndsWithMarker(commit) then 2 else 3;
      MarkerLeaksIntoBody(Fields(item, commit, time), content, k);
    }
  }

  lemma SameMiddle(a: string, x: string, y: string, b: string)
    requires a + x + b == a + y + b
    ensures x == y
  {
    assert |x| == |y|;
    assert x == (a + x + b)[|a|..|a| + |x|] == (a + y + b)[|a|..|a| + |y|] == y;
  }

  /** What stands before and behind the second value of a header. */
  lemma LinesAround(fields: seq<Field>)
    requires |fields| >= 2
    ensures Lines(fields)
            == Line(fields[0]) + "\n" + (fields[1].key + ": ") + fields[1].value + ("\n" + Lines(fields[2..]))
  {
    assert fields[1..][1..] == fields[2..] && fields[1..][0] == fields[1];
    Regroup(Line(fields[0]) + "\n", fields[1].key + ": ", fields[1].value, "\n", Lines(fields[2..]));
  }

  lemma Regroup(a: string, b: string, c: string, d: string, e: string)
    ensures a + (b + c + d + e) == a + b + c + (d + e)
  {
    assert b + c + d + e == b + (c + (d + e));
    assert a + (b + (c + (d + e))) == a + b + (c + (d + e));
  }

  lemma TimesDiffer(f: seq<Field>, g: seq<Field>, content: string)
    requires |f| >= 2 && |g| >= 2 && f[0] == g[0] && f[1].key == g[1].key && f[2..] == g[2..]
    requires Block(f) + content == Block(g) + content
    ensures f[1].value == g[1].value
  {
    LinesAround(f);
    LinesAround(g);
    var a, b := "<!--\n" + (Line(f[0]) + "\n" + (f[1].key + ": ")), ("\n" + Lines(f[2..])) + ("-->\n\n" + content);
    assert Block(f) + content == a + f[1].value + b;
    assert Block(g) + content == a + g[1].value + b;
    SameMiddle(a, f[1].value, g[1].value, b);
  }

  lemma RenderingsDiffer(content: string, item: Item, commit: string, time: string, later: string)
    requires time != later
    ensures Rendered(content, item, commit, time) != Rendered(content, item, commit, later)
  {
    var f, g := Fields(item, commit, time), Fields(item, commit, later);
    assert f[2..] == g[2..];
    if Block(f) + content == Block(g) + content {
      TimesDiffer(f, g, content);
    }
  }

  /** What a run makes of one item depends on that item's own files alone. */
  ghost predicate Outcome(files: map<string, string>, run: Run, i: nat, item: Item, commit: string, time: string)
    requires i < |run.statuses| && item.source in files
  {
    && (run.statuses[i] == if Keeps(files, item, commit, time) then Unchanged else Written)
    && item.source in run.files && run.files[item.source] == files[item.source]
    && item.target in run.files && run.files[item.target] == ExportOne(files, item, commit, time)[item.target]
  }

  lemma {:induction false} LaterItemsSpare(files: map<string, string>, items: seq<Item>, commit: string, time: string,
                                           n: nat, path: string)
    requires SourcesExist(files, items) && n <= |items|
    requires forall k :: n <= k < |items| ==> items[k].target != path
    ensures var run, part := ExportAll(files, items, commit, time), ExportAll(files, items[..n], commit, time);
            && run.statuses[..n] == part.statuses && (path in run.files <==> path in part.files)
            && (path in part.files ==> run.files[path] == part.files[path])
  {
    if n == |items| {
      assert items[..n] == items;
    } else {
      var init := items[..|items| - 1];
      assert init[..n] == items[..n];
      LaterItemsSpare(files, init, commit, time, n, path);
      SpareLast(ExportAll(files, init, commit, time), ExportAll(files, items, commit, time), n);
    }
  }

  lemma SpareLast(before: Run, after: Run, n: nat)
    requires n <= |before.statuses| && |after.statuses| == |before.statuses| + 1
    requires after.statuses[..|before.statuses|] == before.statuses
    ensures after.statuses[..n] == before.statuses[..n]
  {
    assert after.statuses[..|before.statuses|][..n] == after.statuses[..n];
  }

  /** Right after its turn. */
  lemma OutcomeAtTurn(files: map<string, string>, items: seq<Item>, commit: string, time: string, i: nat)
    requires SourcesExist(files, items) && Separate(items) && i < |items|
    ensures Outcome(files, ExportAll(files, items[..i + 1], commit, time), i, items[i], commit, time)
  {
    var before := ExportAll(files, items[..i], commit, time);
    ExportNext(files, items, i, commit, time);
    OnlyTargetsChange(files, items[..i], commit, time, items[i].source);
    OnlyTargetsChange(files, items[..i], commit, time, items[i].target);
    SameFiles(files, before.files, items[i], commit, time);
  }

  /** Later items leave it alone. */
  lemma OutcomeStays(files: map<string, string>, part: Run, run: Run, i: nat, item: Item, commit: string, time: string)
    requires |part.statuses| == i + 1 <= |run.statuses| && run.statuses[..i + 1] == part.statuses
    requires item.source in files && Outcome(files, part, i, item, commit, time)
    requires item.source in run.files && run.files[item.source] == part.files[item.source]
    requires item.target in run.files && run.files[item.target] == part.files[item.target]
    ensures Outcome(files, run, i, item, commit, time)
  {
    StatusAt(run.statuses, part.statuses, i);
  }

  lemma ItemOutcome(files: map<string, string>, items: seq<Item>, commit: string, time: string, i: nat)
    requires SourcesExist(files, items) && Separate(items) && i < |items|
    ensures Outcome(files, ExportAll(files, items, commit, time), i, items[i], commit, time)
  {
    OutcomeAtTurn(files, items, commit, time, i);
    LaterItemsSpare(files, items, commit, time, i + 1, items[i].source);
    LaterItemsSpare(files, items, commit, time, i + 1, items[i].target);
    OutcomeStays(files, ExportAll(files, items[..i + 1], commit, time), ExportAll(files, items, commit, time), i,
                 items[i], commit, time);
  }

  lemma StatusAt(all: seq<Status>, part: seq<Status>, i: nat)
    requires i < |part| == i + 1 <= |all| && all[..i + 1] == part
    ensures all[i] == part[i]
  {
    assert all[i] == all[..i + 1][i];
  }

  /** The item's own files decide. */
  lemma SameFiles(files: map<string, string>, before: map<string, string>, item: Item, commit: string, time: string)
    requires item.source in files && item.source in before && before[item.source] == files[item.source]
    requires item.source != item.target
    requires (item.target in files <==> item.target in before)
             && (item.target in files ==> before[item.target] == files[item.target])
    ensures Keeps(before, item, commit, time) <==> Keeps(files, item, commit, time)
    ensures ExportOne(before, item, commit, time)[item.target] == ExportOne(files, item, commit, time)[item.target]
    ensures ExportOne(before, item, commit, time)[item.source] == files[item.source]
  {
  }

  /** The item's document was not current before the first of the two runs. */
  predicate NotYetCurrent(files: map<string, string>, item: Item, commit: string)
    requires item.source in files
  {
    item.target in files ==> !IsCurrent(files[item.target], files[item.source], item, commit)
  }

  /** An item that was not current is written again by a repeated run at the same commit and another time, exactly when
      its commit or its path is one that the header cannot return. */
  lemma RewrittenIff(files: map<string, string>, items: seq<Item>, commit: string, time: string, later: string, i: nat)
    requires SourcesExist(files, items) && Separate(items) && i < |items|
    requires Clean(time) && time != "" && later != time && NotYetCurrent(files, items[i], commit)
    ensures var first := ExportAll(files, items, commit, time).files;
            ExportAll(first, items, commit, later).statuses[i] == Written <==> !ReturnedByHeader(items[i], commit)
  {
    var item, first := items[i], ExportAll(files, items, commit, time).files;
    ItemOutcome(files, items, commit, time, i);
    assert first[item.target] == Rendered(files[item.source], item, commit, time);
    ItemOutcome(first, items, commit, later, i);
    RenderedIsCurrentIff(files[item.source], item, commit, time);
    RenderingsDiffer(files[item.source], item, commit, time, later);
  }

  lemma {:induction false} CountZero(statuses: seq<Status>)
    ensures Count(statuses, Written) == 0 <==> forall i :: 0 <= i < |statuses| ==> statuses[i] != Written
  {
    if statuses != [] {
      CountZero(statuses[..|statuses| - 1]);
    }
  }

  /** When no document was current before, a second export at the same commit writes nothing exactly when the header
      can return the commit and every path. */
  lemma SecondExportIsSilentIff(files: map<string, string>, items: seq<Item>, commit: string, time: string, later: string)
    requires SourcesExist(files, items) && Separate(items) && Clean(time) && time != "" && later != time
    requires forall i :: 0 <= i < |items| ==> NotYetCurrent(files, items[i], commit)
    ensures var first := ExportAll(files, items, commit, time).files;
            Count(ExportAll(first, items, commit, later).statuses, Written) == 0
            <==> forall i :: 0 <= i < |items| ==> ReturnedByHeader(items[i], commit)
  {
    var first := ExportAll(files, items, commit, time).files;
    var statuses := ExportAll(first, items, commit, later).statuses;
    CountZero(statuses);
    forall i | 0 <= i < |items|
      ensures statuses[i] == Written <==> !ReturnedByHeader(items[i], commit)
    {
      RewrittenIff(files, items, commit, time, later, i);
    }
  }
}
