// Copying local uploads into the media store (project/btq_cli/media_backfill_to_r2.py).
module Backfill {
  import opened Json

  type Bytes = seq<bv8>

  /** A path below the uploads directory in sorted order; the bytes are none when the file cannot be read. */
  datatype Entry = Entry(key: string, regular: bool, content: Option<Bytes>)

  /** What goes wrong while one key is checked, and whether the store reports a single-part etag. */
  datatype CheckFault = CheckFault(existsFails: bool, readFails: bool, hasEtag: bool)

  /** A write may store something else than it was given, and a failed write may have stored something. */
  datatype WriteResult = Stored(content: Bytes) | WriteFailed(effect: Option<Bytes>)

  /** How the store behaves while one file is handled. */
  datatype Weather = Weather(before: CheckFault, write: WriteResult, after: CheckFault)

  datatype Reason = ReadLocalFailed | ExistsCheckFailed | ReadRemoteFailed | WriteRefused | VerifyAfterWriteFailed

  datatype Failure = Failure(key: string, reason: Reason)

  datatype Integrity = Matches | Differs | CheckFailed(reason: Reason)

  datatype Tally = Tally(total: nat, copied: nat, skipped: nat, verified: nat, verifyFailed: nat, wouldCopy: nat,
                         wouldSkip: nat, errors: seq<Failure>)

  datatype State = State(store: map<string, Bytes>, tally: Tally)

  const EMPTY := Tally(0, 0, 0, 0, 0, 0, 0, [])

  ghost predicate CollisionFree(digest: Bytes -> string) {
    forall a, b :: digest(a) == digest(b) ==> a == b
  }

  /** `_remote_matches_local`. */
  function Check(store: map<string, Bytes>, key: string, local: Bytes, digest: Bytes -> string, fault: CheckFault)
    : Integrity
  {
    if fault.existsFails then CheckFailed(ExistsCheckFailed)
    else if key !in store then Differs
    else if fault.hasEtag then (if digest(store[key]) == digest(local) then Matches else Differs)
    else if fault.readFails then CheckFailed(ReadRemoteFailed)
    else if store[key] == local then Matches
    else Differs
  }

  function Fail(tally: Tally, key: string, reason: Reason): Tally {
    tally.(verifyFailed := tally.verifyFailed + 1, errors := tally.errors + [Failure(key, reason)])
  }

  function Put(store: map<string, Bytes>, key: string, write: WriteResult): map<string, Bytes> {
    match write
    case Stored(content) => store[key := content]
    case WriteFailed(effect) => if effect.Some? then store[key := effect.value] else store
  }

  /** One pass of the loop. */
  function Handle(st: State, file: Entry, digest: Bytes -> string, w: Weather, dryRun: bool): State {
    var t := st.tally.(total := st.tally.total + 1);
    if file.content.None? then State(st.store, Fail(t, file.key, ReadLocalFailed))
    else
      var local := file.content.value;
      match Check(st.store, file.key, local, digest, w.before)
      case CheckFailed(reason) => State(st.store, Fail(t, file.key, reason))
      case Matches =>
        State(st.store, t.(skipped := t.skipped + 1, wouldSkip := t.wouldSkip + if dryRun then 1 else 0))
      case Differs =>
        if dryRun then State(st.store, t.(wouldCopy := t.wouldCopy + 1))
        else State(Put(st.store, file.key, w.write), AfterWrite(st.store, t, file.key, local, digest, w))
  }

  function AfterWrite(store: map<string, Bytes>, t: Tally, key: string, local: Bytes, digest: Bytes -> string, w: Weather)
    : Tally
  {
    if w.write.WriteFailed? then Fail(t, key, WriteRefused)
    else
      match Check(Put(store, key, w.write), key, local, digest, w.after)
      case CheckFailed(reason) => Fail(t, key, reason)
      case Differs => Fail(t, key, VerifyAfterWriteFailed)
      case Matches => t.(copied := t.copied + 1, verified := t.verified + 1)
  }

  function HandleAll(store: map<string, Bytes>, files: seq<Entry>, digest: Bytes -> string, ws: seq<Weather>,
                     dryRun: bool): State
    requires |ws| >= |files|
  {
    if files == [] then State(store, EMPTY)
    else
      var n := |files| - 1;
      Handle(HandleAll(store, files[..n], digest, ws, dryRun), files[n], digest, ws[n], dryRun)
  }

  // ---- The program ----

  class MediaStore {
    var contents: map<string, Bytes>
    const digest: Bytes -> string

    constructor (contents: map<string, Bytes>, digest: Bytes -> string)
      ensures this.contents == contents && this.digest == digest
    {
      this.contents, this.digest := contents, digest;
    }

    method RemoteMatchesLocal(key: string, local: Bytes, fault: CheckFault) returns (r: Integrity)
      ensures r == Check(contents, key, local, digest, fault)
    {
      if fault.existsFails {
        return CheckFailed(ExistsCheckFailed);
      }
      if key !in contents {
        return Differs;
      }
      if fault.hasEtag {
        return if digest(contents[key]) == digest(local) then Matches else Differs;
      }
      if fault.readFails {
        return CheckFailed(ReadRemoteFailed);
      }
      return if contents[key] == local then Matches else Differs;
    }

    method Write(key: string, result: WriteResult) returns (ok: bool)
      modifies this
      ensures contents == Put(old(contents), key, result) && ok == result.Stored?
    {
      match result {
        case Stored(content) =>
          contents := contents[key := content];
        case WriteFailed(effect) =>
          if effect.Some? {
            contents := contents[key := effect.value];
          }
      }
      ok := result.Stored?;
    }
  }

  class BackfillReport {
    var totalScanned: nat
    var copied: nat
    var skippedPresent: nat
    var verified: nat
    var verifyFailed: nat
    var wouldCopy: nat
    var wouldSkipPresent: nat
    var errors: seq<Failure>

    constructor ()
      ensures View() == EMPTY
    {
      totalScanned, copied, skippedPresent, verified := 0, 0, 0, 0;
      verifyFailed, wouldCopy, wouldSkipPresent, errors := 0, 0, 0, [];
    }

    function View(): Tally
      reads this
    {
      Tally(totalScanned, copied, skippedPresent, verified, verifyFailed, wouldCopy, wouldSkipPresent, errors)
    }

    method RecordFailure(key: string, reason: Reason)
      modifies this
      ensures View() == Fail(old(View()), key, reason)
    {
      verifyFailed := verifyFailed + 1;
      errors := errors + [Failure(key, reason)];
    }

    method HandleFile(store: MediaStore, file: Entry, w: Weather, dryRun: bool)
      modifies this, store
      ensures State(store.contents, View()) == Handle(old(State(store.contents, View())), file, store.digest, w, dryRun)
    {
      totalScanned := totalScanned + 1;
      if file.content.None? {
        RecordFailure(file.key, ReadLocalFailed);
        return;
      }
      var local := file.content.value;
      var present := store.RemoteMatchesLocal(file.key, local, w.before);
      if present.CheckFailed? {
        RecordFailure(file.key, present.reason);
        return;
      }
      if present == Matches {
        skippedPresent := skippedPresent + 1;
        if dryRun {
          wouldSkipPresent := wouldSkipPresent + 1;
        }
        return;
      }
      if dryRun {
        wouldCopy := wouldCopy + 1;
        return;
      }
      var ok := store.Write(file.key, w.write);
      if !ok {
        RecordFailure(file.key, WriteRefused);
        return;
      }
      var check := store.RemoteMatchesLocal(file.key, local, w.after);
      if check != Matches {
        RecordFailure(file.key, if check.CheckFailed? then check.reason else VerifyAfterWriteFailed);
        return;
      }
      copied := copied + 1;
      verified := verified + 1;
    }

    /** The loop; the counts add up after every file. */
    method HandleFiles(store: MediaStore, files: seq<Entry>, ws: seq<Weather>, dryRun: bool)
      requires |ws| >= |files| && View() == EMPTY
      modifies this, store
      ensures State(store.contents, View()) == HandleAll(old(store.contents), files, store.digest, ws, dryRun)
      ensures Balanced(View(), |files|, dryRun)
    {
      var n := 0;
      while n < |files|
        invariant 0 <= n <= |files|
        invariant State(store.contents, View()) == HandleAll(old(store.contents), files[..n], store.digest, ws, dryRun)
        invariant Balanced(View(), n, dryRun)
      {
        assert files[..n + 1][..n] == files[..n];
        ghost var st := State(store.contents, View());
        HandleFile(store, files[n], ws[n], dryRun);
        HandleBalances(st, files[n], store.digest, ws[n], dryRun, n);
        n := n + 1;
      }
      assert files[..n] == files;
    }
  }

  /** The regular files, in order, up to the limit. */
  function Scanned(entries: seq<Entry>, limit: Option<int>): (r: seq<Entry>)
    requires limit.Some? ==> limit.value >= 0
    ensures limit.Some? ==> |r| <= limit.value
    ensures |r| <= |entries|
  {
    if entries == [] || limit == Some(0) then []
    else if !entries[0].regular then Scanned(entries[1..], limit)
    else [entries[0]] + Scanned(entries[1..], if limit.Some? then Some(limit.value - 1) else None)
  }

  method IterUploadFiles(entries: seq<Entry>, limit: Option<int>) returns (files: seq<Entry>)
    requires limit.Some? ==> limit.value >= 0
    ensures files == Scanned(entries, limit)
  {
    files := [];
    if limit == Some(0) {
      return;
    }
    var count := 0;
    var n := 0;
    while n < |entries|
      invariant 0 <= n <= |entries|
      invariant limit.Some? ==> count < limit.value
      invariant Scanned(entries, limit)
             == files + Scanned(entries[n..], if limit.Some? then Some(limit.value - count) else None)
    {
      assert entries[n..][0] == entries[n] && entries[n..][1..] == entries[n + 1..];
      if entries[n].regular {
        files := files + [entries[n]];
        count := count + 1;
        if limit.Some? && count >= limit.value {
          return;
        }
      }
      n := n + 1;
    }
  }

  datatype BackfillError = NegativeLimit | NoUploadsDirectory

  datatype Result = Report(tally: Tally) | Refused(error: BackfillError)

  /** `backfill_media_to_store`; `uploads` is none when there is no uploads directory. */
  method BackfillMediaToStore(uploads: Option<seq<Entry>>, store: MediaStore, dryRun: bool, limit: Option<int>,
                              ws: seq<Weather>) returns (r: Result)
    requires uploads.Some? ==> |ws| >= |uploads.value|
    modifies store
    ensures limit.Some? && limit.value < 0 ==> r == Refused(NegativeLimit)
    ensures (limit.Some? ==> limit.value >= 0) && uploads.None? ==> r == Refused(NoUploadsDirectory)
    ensures r.Refused? ==> store.contents == old(store.contents)
    ensures (limit.Some? ==> limit.value >= 0) && uploads.Some? ==>
              r.Report? && State(store.contents, r.tally)
              == HandleAll(old(store.contents), Scanned(uploads.value, limit), store.digest, ws, dryRun)
  {
    if limit.Some? && limit.value < 0 {
      return Refused(NegativeLimit);
    }
    if uploads.None? {
      return Refused(NoUploadsDirectory);
    }
    var report := new BackfillReport();
    var files := IterUploadFiles(uploads.value, limit);
    report.HandleFiles(store, files, ws, dryRun);
    r := Report(report.View());
  }

  // ---- Conservation ----

  /** Every scanned file is in exactly one of the four counts, and every failure has its entry. */
  predicate Balanced(t: Tally, n: nat, dryRun: bool) {
    && t.total == n == t.copied + t.skipped + t.wouldCopy + t.verifyFailed
    && |t.errors| == t.verifyFailed && t.verified == t.copied
    && (if dryRun then t.copied == 0 && t.wouldSkip == t.skipped else t.wouldCopy == 0 && t.wouldSkip == 0)
  }

  lemma HandleBalances(st: State, file: Entry, digest: Bytes -> string, w: Weather, dryRun: bool, n: nat)
    requires Balanced(st.tally, n, dryRun)
    ensures Balanced(Handle(st, file, digest, w, dryRun).tally, n + 1, dryRun)
  {
  }

  lemma {:induction false} RunIsBalanced(store: map<string, Bytes>, files: seq<Entry>, digest: Bytes -> string,
                                         ws: seq<Weather>, dryRun: bool)
    requires |ws| >= |files|
    ensures Balanced(HandleAll(store, files, digest, ws, dryRun).tally, |files|, dryRun)
  {
    if files != [] {
      var n := |files| - 1;
      RunIsBalanced(store, files[..n], digest, ws, dryRun);
      HandleBalances(HandleAll(store, files[..n], digest, ws, dryRun), files[n], digest, ws[n], dryRun, n);
    }
  }

  /** A dry run changes nothing, whatever goes wrong. */
  lemma {:induction false} DryRunWritesNothing(store: map<string, Bytes>, files: seq<Entry>, digest: Bytes -> string,
                                               ws: seq<Weather>)
    requires |ws| >= |files|
    ensures HandleAll(store, files, digest, ws, true).store == store
  {
    if files != [] {
      DryRunWritesNothing(store, files[..|files| - 1], digest, ws);
    }
  }

  // ---- What the store holds afterwards ----

  ghost predicate DistinctKeys(files: seq<Entry>) {
    forall i, j :: 0 <= i < j < |files| ==> files[i].key != files[j].key
  }

  ghost predicate Reported(errors: seq<Failure>, key: string) {
    exists i :: 0 <= i < |errors| && errors[i].key == key
  }

  ghost predicate Holds(store: map<string, Bytes>, file: Entry) {
    file.content.Some? && file.key in store && store[file.key] == file.content.value
  }

  lemma HandleTouchesOneKey(st: State, file: Entry, digest: Bytes -> string, w: Weather, dryRun: bool, key: string)
    requires key != file.key
    ensures var after := Handle(st, file, digest, w, dryRun);
            && (key in after.store <==> key in st.store) && (key in st.store ==> after.store[key] == st.store[key])
            && (Reported(after.tally.errors, key) <==> Reported(st.tally.errors, key))
  {
    var after := Handle(st, file, digest, w, dryRun);
    assert after.tally.errors == st.tally.errors
           || (|after.tally.errors| == |st.tally.errors| + 1
               && after.tally.errors[|st.tally.errors|].key == file.key
               && after.tally.errors[..|st.tally.errors|] == st.tally.errors);
    forall i | 0 <= i < |st.tally.errors|
      ensures after.tally.errors[i] == st.tally.errors[i]
    {
      assert after.tally.errors[..|st.tally.errors|] == st.tally.errors;
    }
  }

  lemma {:induction false} OthersUntouched(store: map<string, Bytes>, files: seq<Entry>, digest: Bytes -> string,
                                           ws: seq<Weather>, dryRun: bool, key: string)
    requires |ws| >= |files| && forall i :: 0 <= i < |files| ==> files[i].key != key
    ensures var after := HandleAll(store, files, digest, ws, dryRun);
            && (key in after.store <==> key in store) && (key in store ==> after.store[key] == store[key])
            && !Reported(after.tally.errors, key)
  {
    if files != [] {
      var n := |files| - 1;
      OthersUntouched(store, files[..n], digest, ws, dryRun, key);
      HandleTouchesOneKey(HandleAll(store, files[..n], digest, ws, dryRun), files[n], digest, ws[n], dryRun, key);
    }
  }

  /** Handling one file in a write run: without an error its local bytes are stored. */
  lemma HandledOrReported(st: State, file: Entry, digest: Bytes -> string, w: Weather)
    requires CollisionFree(digest)
    ensures var after := Handle(st, file, digest, w, false);
            Holds(after.store, file) || Reported(after.tally.errors, file.key)
  {
    var after := Handle(st, file, digest, w, false);
    if |after.tally.errors| > |st.tally.errors| {
      assert after.tally.errors[|st.tally.errors|].key == file.key;
    }
  }

  /** After a write run every key without an error holds its local bytes; every other key is as it was. */
  lemma {:induction false} EveryKeyHoldsOrIsReported(store: map<string, Bytes>, files: seq<Entry>,
                                                     digest: Bytes -> string, ws: seq<Weather>, i: nat)
    requires |ws| >= |files| && DistinctKeys(files) && CollisionFree(digest) && i < |files|
    ensures var after := HandleAll(store, files, digest, ws, false);
            Holds(after.store, files[i]) || Reported(after.tally.errors, files[i].key)
  {
    var n := |files| - 1;
    var before := HandleAll(store, files[..n], digest, ws, false);
    if i == n {
      HandledOrReported(before, files[n], digest, ws[n]);
    } else {
      EveryKeyHoldsOrIsReported(store, files[..n], digest, ws, i);
      HandleTouchesOneKey(before, files[n], digest, ws[n], false, files[i].key);
    }
  }

  // ---- A reliable store ----

  ghost predicate Calm(file: Entry, w: Weather) {
    && !w.before.existsFails && !w.before.readFails && !w.after.existsFails && !w.after.readFails
    && (file.content.Some? ==> w.write == Stored(file.content.value))
  }

  ghost predicate Reliable(files: seq<Entry>, ws: seq<Weather>) {
    |ws| >= |files| && forall i :: 0 <= i < |files| ==> Calm(files[i], ws[i])
  }

  lemma CalmCheck(store: map<string, Bytes>, key: string, local: Bytes, digest: Bytes -> string, fault: CheckFault)
    requires CollisionFree(digest) && !fault.existsFails && !fault.readFails
    ensures Check(store, key, local, digest, fault)
            == if key in store && store[key] == local then Matches else Differs
  {
  }

  /** On a reliable store a file is stored already, copied, or unreadable. */
  lemma CalmHandle(st: State, file: Entry, digest: Bytes -> string, w: Weather, dryRun: bool)
    requires CollisionFree(digest) && Calm(file, w)
    ensures var t, after := st.tally, Handle(st, file, digest, w, dryRun);
            if file.content.None? then
              after == State(st.store, Fail(t.(total := t.total + 1), file.key, ReadLocalFailed))
            else if Holds(st.store, file) then
              after.store == st.store && after.tally.copied == t.copied && after.tally.wouldCopy == t.wouldCopy
              && after.tally.verifyFailed == t.verifyFailed
            else
              && after.store == (if dryRun then st.store else st.store[file.key := file.content.value])
              && after.tally.copied == t.copied + (if dryRun then 0 else 1)
              && after.tally.wouldCopy == t.wouldCopy + (if dryRun then 1 else 0)
              && after.tally.verifyFailed == t.verifyFailed
  {
    if file.content.Some? {
      CalmCheck(st.store, file.key, file.content.value, digest, w.before);
      CalmCheck(st.store[file.key := file.content.value], file.key, file.content.value, digest, w.after);
    }
  }

  ghost predicate Predicts(dry: Tally, wet: Tally) {
    dry.wouldCopy == wet.copied && dry.verifyFailed == wet.verifyFailed
  }

  lemma StepPredicts(dry: State, wet: State, file: Entry, digest: Bytes -> string, dryW: Weather, w: Weather)
    requires CollisionFree(digest) && Calm(file, dryW) && Calm(file, w) && Predicts(dry.tally, wet.tally)
    requires Holds(dry.store, file) <==> Holds(wet.store, file)
    ensures Predicts(Handle(dry, file, digest, dryW, true).tally, Handle(wet, file, digest, w, false).tally)
  {
    CalmHandle(dry, file, digest, dryW, true);
    CalmHandle(wet, file, digest, w, false);
  }

  lemma {:induction false} PrefixPredicts(store: map<string, Bytes>, files: seq<Entry>, digest: Bytes -> string,
                                          dryWs: seq<Weather>, ws: seq<Weather>)
    requires DistinctKeys(files) && CollisionFree(digest) && Reliable(files, dryWs) && Reliable(files, ws)
    ensures Predicts(HandleAll(store, files, digest, dryWs, true).tally, HandleAll(store, files, digest, ws, false).tally)
  {
    if files != [] {
      var n := |files| - 1;
      PrefixPredicts(store, files[..n], digest, dryWs, ws);
      DryRunWritesNothing(store, files[..n], digest, dryWs);
      OthersUntouched(store, files[..n], digest, ws, false, files[n].key);
      StepPredicts(HandleAll(store, files[..n], digest, dryWs, true), HandleAll(store, files[..n], digest, ws, false),
                   files[n], digest, dryWs[n], ws[n]);
    }
  }

  /** On a reliable store a dry run predicts the number of copies, of files present and of failures. */
  lemma DryRunPredicts(store: map<string, Bytes>, files: seq<Entry>, digest: Bytes -> string, dryWs: seq<Weather>,
                       ws: seq<Weather>)
    requires DistinctKeys(files) && CollisionFree(digest) && Reliable(files, dryWs) && Reliable(files, ws)
    ensures var dry := HandleAll(store, files, digest, dryWs, true).tally;
            var wet := HandleAll(store, files, digest, ws, false).tally;
            dry.wouldCopy == wet.copied && dry.skipped == wet.skipped && dry.verifyFailed == wet.verifyFailed
  {
    PrefixPredicts(store, files, digest, dryWs, ws);
    RunIsBalanced(store, files, digest, dryWs, true);
    RunIsBalanced(store, files, digest, ws, false);
  }

  ghost predicate AllHeld(store: map<string, Bytes>, files: seq<Entry>) {
    forall i :: 0 <= i < |files| ==> files[i].content.Some? ==> Holds(store, files[i])
  }

  lemma {:induction false} CalmRunStoresAll(store: map<string, Bytes>, files: seq<Entry>, digest: Bytes -> string,
                                            ws: seq<Weather>)
    requires DistinctKeys(files) && CollisionFree(digest) && Reliable(files, ws)
    ensures AllHeld(HandleAll(store, files, digest, ws, false).store, files)
  {
    if files != [] {
      var n := |files| - 1;
      var before := HandleAll(store, files[..n], digest, ws, false);
      CalmRunStoresAll(store, files[..n], digest, ws);
      CalmHandle(before, files[n], digest, ws[n], false);
      forall i | 0 <= i < n && files[i].content.Some?
        ensures Holds(Handle(before, files[n], digest, ws[n], false).store, files[i])
      {
        assert files[..n][i] == files[i];
        HandleTouchesOneKey(before, files[n], digest, ws[n], false, files[i].key);
      }
    }
  }

  lemma {:induction false} HeldMeansNoCopies(store: map<string, Bytes>, files: seq<Entry>, digest: Bytes -> string,
                                             ws: seq<Weather>)
    requires CollisionFree(digest) && Reliable(files, ws) && AllHeld(store, files)
    ensures var run := HandleAll(store, files, digest, ws, false); run.store == store && run.tally.copied == 0
  {
    if files != [] {
      var n := |files| - 1;
      HeldMeansNoCopies(store, files[..n], digest, ws);
      CalmHandle(HandleAll(store, files[..n], digest, ws, false), files[n], digest, ws[n], false);
    }
  }

  /** On a reliable store a second run copies nothing and leaves the store alone. */
  lemma SecondRunCopiesNothing(store: map<string, Bytes>, files: seq<Entry>, digest: Bytes -> string, ws: seq<Weather>,
                               again: seq<Weather>)
    requires DistinctKeys(files) && CollisionFree(digest) && Reliable(files, ws) && Reliable(files, again)
    ensures var first := HandleAll(store, files, digest, ws, false).store;
            var second := HandleAll(first, files, digest, again, false);
            second.store == first && second.tally.copied == 0
  {
    CalmRunStoresAll(store, files, digest, ws);
    HeldMeansNoCopies(HandleAll(store, files, digest, ws, false).store, files, digest, again);
  }
}
