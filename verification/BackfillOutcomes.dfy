// Which files a backfill scans, and what its error entries say.
module BackfillOutcomes {
  import opened Json
  import opened Backfill

  /** Each file is the entry at its position, and regular. */
  predicate Located(entries: seq<Entry>, files: seq<Entry>, at: seq<nat>) {
    |at| == |files|
    && forall i :: 0 <= i < |at| ==> at[i] < |entries| && entries[at[i]] == files[i] && files[i].regular
  }

  predicate Increasing(at: seq<nat>) {
    forall i, j :: 0 <= i < j < |at| ==> at[i] < at[j]
  }

  /** A regular entry that was not picked is behind all that were, and the limit was reached. */
  predicate LeftOut(limit: Option<int>, at: seq<nat>, j: nat) {
    limit == Some(|at|) && Behind(at, j)
  }

  /** `at` are the positions of the files among the entries: regular ones, in order, and none is left out before the
      limit is reached. */
  predicate Picks(entries: seq<Entry>, limit: Option<int>, files: seq<Entry>, at: seq<nat>) {
    && Located(entries, files, at) && Increasing(at) && (limit.Some? ==> |files| <= limit.value)
    && forall j :: 0 <= j < |entries| && entries[j].regular && j !in at ==> LeftOut(limit, at, j)
  }

  /** Position `j` is behind all of these. */
  predicate Behind(at: seq<nat>, j: nat) {
    forall i :: 0 <= i < |at| ==> at[i] < j
  }

  function Shifted(at: seq<nat>): (r: seq<nat>)
    ensures |r| == |at| && forall i :: 0 <= i < |at| ==> r[i] == at[i] + 1
  {
    seq(|at|, i requires 0 <= i < |at| => at[i] + 1)
  }

  lemma ShiftedHas(at: seq<nat>, j: nat)
    requires j > 0
    ensures j in Shifted(at) <==> j - 1 in at
  {
    if j in Shifted(at) {
      var i :| 0 <= i < |at| && Shifted(at)[i] == j;
      assert at[i] == j - 1;
    }
    if j - 1 in at {
      var i :| 0 <= i < |at| && at[i] == j - 1;
      assert Shifted(at)[i] == j;
    }
  }

  lemma SkipEntry(entries: seq<Entry>, limit: Option<int>, files: seq<Entry>, at: seq<nat>)
    requires entries != [] && !entries[0].regular && Picks(entries[1..], limit, files, at)
    ensures Picks(entries, limit, files, Shifted(at))
  {
    forall j | 0 <= j < |entries| && entries[j].regular && j !in Shifted(at)
      ensures LeftOut(limit, Shifted(at), j)
    {
      ShiftedHas(at, j);
      assert entries[1..][j - 1] == entries[j];
      assert LeftOut(limit, at, j - 1);
    }
  }

  lemma TakeEntry(entries: seq<Entry>, limit: Option<int>, files: seq<Entry>, at: seq<nat>)
    requires entries != [] && entries[0].regular && (limit.Some? ==> limit.value > 0)
    requires Picks(entries[1..], if limit.Some? then Some(limit.value - 1) else None, files, at)
    ensures Picks(entries, limit, [entries[0]] + files, [0] + Shifted(at))
  {
    FirstIsLocated(entries, files, at);
    FirstIsLeast(at);
    forall j | 0 <= j < |entries| && entries[j].regular && j !in [0] + Shifted(at)
      ensures LeftOut(limit, [0] + Shifted(at), j)
    {
      NotTaken(entries, limit, files, at, j);
    }
  }

  lemma FirstIsLocated(entries: seq<Entry>, files: seq<Entry>, at: seq<nat>)
    requires entries != [] && entries[0].regular && Located(entries[1..], files, at)
    ensures Located(entries, [entries[0]] + files, [0] + Shifted(at))
  {
    var more, longer := [entries[0]] + files, [0] + Shifted(at);
    forall i | 0 <= i < |longer|
      ensures longer[i] < |entries| && entries[longer[i]] == more[i] && more[i].regular
    {
      if i > 0 {
        assert longer[i] == at[i - 1] + 1 && entries[1..][at[i - 1]] == files[i - 1];
      }
    }
  }

  lemma FirstIsLeast(at: seq<nat>)
    requires Increasing(at)
    ensures Increasing([0] + Shifted(at))
  {
  }

  lemma NotTaken(entries: seq<Entry>, limit: Option<int>, files: seq<Entry>, at: seq<nat>, j: nat)
    requires entries != [] && entries[0].regular && (limit.Some? ==> limit.value > 0)
    requires Picks(entries[1..], if limit.Some? then Some(limit.value - 1) else None, files, at)
    requires j < |entries| && entries[j].regular && j !in [0] + Shifted(at)
    ensures LeftOut(limit, [0] + Shifted(at), j)
  {
    assert ([0] + Shifted(at))[0] == 0;
    assert forall k <- Shifted(at) :: k in [0] + Shifted(at);
    ShiftedHas(at, j);
    assert entries[1..][j - 1] == entries[j];
    assert LeftOut(if limit.Some? then Some(limit.value - 1) else None, at, j - 1);
  }

  /** The scanned files are the first regular entries: all of them without a limit or below it, and exactly as many as
      the limit otherwise. */
  lemma {:induction false} ScannedAreFirst(entries: seq<Entry>, limit: Option<int>) returns (at: seq<nat>)
    requires limit.Some? ==> limit.value >= 0
    ensures Picks(entries, limit, Scanned(entries, limit), at)
  {
    if entries == [] || limit == Some(0) {
      at := [];
    } else if !entries[0].regular {
      var rest := ScannedAreFirst(entries[1..], limit);
      SkipEntry(entries, limit, Scanned(entries, limit), rest);
      at := Shifted(rest);
    } else {
      var fewer := if limit.Some? then Some(limit.value - 1) else None;
      var rest := ScannedAreFirst(entries[1..], fewer);
      TakeEntry(entries, limit, Scanned(entries[1..], fewer), rest);
      at := [0] + Shifted(rest);
    }
  }

  /** What went wrong with a file, by the reason that its entry gives. */
  predicate Tells(reason: Reason, file: Entry, w: Weather) {
    match reason
    case ReadLocalFailed => file.content.None?
    case ExistsCheckFailed => file.content.Some? && (w.before.existsFails || (w.write.Stored? && w.after.existsFails))
    case ReadRemoteFailed => file.content.Some? && (w.before.readFails || (w.write.Stored? && w.after.readFails))
    case WriteRefused => file.content.Some? && w.write.WriteFailed?
    case VerifyAfterWriteFailed => file.content.Some? && w.write.Stored? && w.write.content != file.content.value
  }

  /** Every error entry belongs to a scanned file, and gives the reason why that file failed. */
  ghost predicate ErrorsTell(errors: seq<Failure>, files: seq<Entry>, ws: seq<Weather>)
    requires |ws| >= |files|
  {
    forall e <- errors :: exists i :: 0 <= i < |files| && e.key == files[i].key && Tells(e.reason, files[i], ws[i])
  }

  lemma HandleTells(st: State, file: Entry, digest: Bytes -> string, w: Weather, dryRun: bool)
    requires CollisionFree(digest)
    ensures var errors := Handle(st, file, digest, w, dryRun).tally.errors;
            errors == st.tally.errors
            || (|errors| == |st.tally.errors| + 1 && errors[..|st.tally.errors|] == st.tally.errors
                && errors[|st.tally.errors|].key == file.key && Tells(errors[|st.tally.errors|].reason, file, w))
  {
  }

  lemma {:induction false} ReasonsAreTold(store: map<string, Bytes>, files: seq<Entry>, digest: Bytes -> string,
                                          ws: seq<Weather>, dryRun: bool)
    requires |ws| >= |files| && CollisionFree(digest)
    ensures ErrorsTell(HandleAll(store, files, digest, ws, dryRun).tally.errors, files, ws)
  {
    if files != [] {
      var n := |files| - 1;
      var before := HandleAll(store, files[..n], digest, ws, dryRun);
      var after := HandleAll(store, files, digest, ws, dryRun).tally.errors;
      ReasonsAreTold(store, files[..n], digest, ws, dryRun);
      HandleTells(before, files[n], digest, ws[n], dryRun);
      forall e <- after
        ensures exists i :: 0 <= i < |files| && e.key == files[i].key && Tells(e.reason, files[i], ws[i])
      {
        if e in before.tally.errors {
          var i :| 0 <= i < n && e.key == files[..n][i].key && Tells(e.reason, files[..n][i], ws[i]);
          assert files[i] == files[..n][i];
        } else {
          assert e == after[|before.tally.errors|];
          assert Tells(e.reason, files[n], ws[n]);
        }
      }
    }
  }
}
