// couchdb_candidate_writer.py: the candidate calls themselves, each one GET and one PUT against the shared database.
// Every call takes its client through a run of the World machine, so the results of CandidateRuns hold of it.
module CandidateClient {
  import opened Json
  import opened Couch
  import opened StoreOps
  import opened DraftOps
  import opened CandidateOps
  import opened World
  import opened StoreClient

  /** The loop of `_normalized_action_candidate_field_patch`; none when a field is not allowed. */
  method NormalizedPatch(fields: seq<(Key, Value)>) returns (patch: Option<Doc>)
    ensures patch == NormalPatch(fields)
  {
    var collected: Doc := map[];
    var n := 0;
    while n < |fields|
      invariant 0 <= n <= |fields|
      invariant NormalPatch(fields[..n]) == Some(collected)
    {
      assert fields[..n + 1][..n] == fields[..n];
      var (key, value) := fields[n];
      var added := AddField(collected, key, value);
      if added.None? {
        RefusedStays(fields, n + 1);
        return None;
      }
      collected := added.value;
      n := n + 1;
    }
    assert fields[..n] == fields;
    patch := Some(collected);
  }

  /** A field that is not allowed makes the whole patch refused. */
  lemma {:induction false} RefusedStays(fields: seq<(Key, Value)>, n: nat)
    requires n <= |fields| && NormalPatch(fields[..n]).None?
    ensures NormalPatch(fields).None?
  {
    if n == |fields| {
      assert fields[..n] == fields;
    } else {
      assert fields[..|fields| - 1][..n] == fields[..n];
      RefusedStays(fields[..|fields| - 1], n);
    }
  }

  /** The loop that copies the named keys of the patch. */
  method OverlayFields(doc: Doc, patch: Doc, keys: seq<Key>) returns (merged: Doc)
    ensures merged == Overlay(doc, patch, keys)
  {
    merged := doc;
    for n := 0 to |keys|
      invariant merged == Overlay(doc, patch, keys[..n])
    {
      assert keys[..n + 1][..n] == keys[..n];
      var key := keys[n];
      if key in patch {
        merged := merged[key := Coerced(key, patch[key])];
      }
    }
    assert keys[..|keys|] == keys;
  }

  /** One source target of the document, updated in place. */
  method UpdateTarget(target: Doc, patch: Doc) returns (updated: Doc)
    ensures updated == PatchTarget(target, patch)
  {
    updated := target;
    if Touches(patch, CHANNEL_FIELDS) {
      var merged := OverlayFields(ObjOf(Get(target, ChannelMetadata)), patch, CHANNEL_FIELDS);
      updated := updated[ChannelMetadata := Obj(merged)];
    }
    updated := OverlayFields(updated, patch, SOURCE_FIELDS);
  }

  /** The update of the document between GET and PUT. */
  method ApplyPatch(doc: Doc, patch: Doc) returns (updated: Doc)
    ensures updated == Patched(doc, patch)
  {
    updated := doc;
    var source, detail := Get(doc, SourceName), Get(doc, SourceDetail);
    if source.Obj? {
      var target := UpdateTarget(source.fields, patch);
      updated := updated[SourceName := Obj(target)];
    }
    if detail.Obj? || !source.Obj? {
      var target := UpdateTarget(ObjOf(detail), patch);
      updated := updated[SourceDetail := Obj(target)];
    }
    if Touches(patch, SOURCE_FIELDS) {
      var merged := OverlayFields(ObjOf(Get(updated, Evidence)), patch, SOURCE_FIELDS);
      updated := updated[Evidence := Obj(merged)];
    }
    updated := OverlayFields(updated, patch, [SiteId, Summary]);
  }

  method SetActionCandidateStatus(db: Database, c: nat, id: string, op: CandidateOp) returns (outcome: Outcome)
    requires op.SetStatus? && Begins(db, c, Candidate(id, op))
    modifies db
    ensures db.Valid() && old(db.past) <= db.past && db.At(c, Candidate(id, op), Finished(outcome))
    ensures HasDone(db, old(db.past), c, Candidate(id, op), outcome, 1)
  {
    outcome := SendStatus(db, c, id, op);
    CallHasDone(db, old(db.past), c, Candidate(id, op), outcome);
  }

  /** The GET, the checks and the PUT. */
  method SendStatus(db: Database, c: nat, id: string, op: CandidateOp) returns (outcome: Outcome)
    requires op.SetStatus? && Begins(db, c, Candidate(id, op))
    modifies db
    ensures db.Valid() && old(db.past) <= db.past && db.At(c, Candidate(id, op), Finished(outcome))
  {
    if op.status !in {"approved", "rejected"} {
      db.Decline(c, Invalid);
      return Invalid;
    }
    var found := db.GetDoc(c, id);
    if found.None? {
      db.Stop(c, Missing);
      return Missing;
    }
    var doc := found.value;
    if !Truthy(Get(doc, RevKey)) {
      db.Stop(c, Invalid);
      return Invalid;
    }
    if !RevMatches(op.expectedRev, doc) || (op.prior != {} && StatusText(doc) !in op.prior) {
      db.Stop(c, AlreadyDecided);
      return AlreadyDecided;
    }
    var updated := doc + ReviewFields(op, doc);
    var accepted := db.PutDoc(c, id, updated);
    return if accepted then Done else AlreadyDecided;
  }

  method PatchActionCandidateFields(db: Database, c: nat, id: string, op: CandidateOp) returns (outcome: Outcome)
    requires op.PatchFields? && Begins(db, c, Candidate(id, op))
    modifies db
    ensures db.Valid() && old(db.past) <= db.past && db.At(c, Candidate(id, op), Finished(outcome))
    ensures HasDone(db, old(db.past), c, Candidate(id, op), outcome, 1)
  {
    outcome := SendPatch(db, c, id, op);
    CallHasDone(db, old(db.past), c, Candidate(id, op), outcome);
  }

  /** The GET, the checks and the PUT. */
  method SendPatch(db: Database, c: nat, id: string, op: CandidateOp) returns (outcome: Outcome)
    requires op.PatchFields? && Begins(db, c, Candidate(id, op))
    modifies db
    ensures db.Valid() && old(db.past) <= db.past && db.At(c, Candidate(id, op), Finished(outcome))
  {
    var patch := NormalizedPatch(op.fields);
    if patch.None? {
      db.Decline(c, Invalid);
      return Invalid;
    }
    var found := db.GetDoc(c, id);
    if found.None? {
      db.Stop(c, Missing);
      return Missing;
    }
    var doc := found.value;
    if !Truthy(Get(doc, RevKey)) {
      db.Stop(c, Invalid);
      return Invalid;
    }
    if !RevMatches(op.expectedRev, doc) {
      db.Stop(c, AlreadyDecided);
      return AlreadyDecided;
    }
    var updated := ApplyPatch(doc, patch.value);
    var accepted := db.PutDoc(c, id, updated);
    return if accepted then Done else AlreadyDecided;
  }

  method SetActionCandidateArchived(db: Database, c: nat, id: string, op: CandidateOp) returns (outcome: Outcome)
    requires op.SetArchived? && Begins(db, c, Candidate(id, op))
    modifies db
    ensures db.Valid() && old(db.past) <= db.past && db.At(c, Candidate(id, op), Finished(outcome))
    ensures HasDone(db, old(db.past), c, Candidate(id, op), outcome, 1)
  {
    outcome := SendArchived(db, c, id, op);
    CallHasDone(db, old(db.past), c, Candidate(id, op), outcome);
  }

  /** The GET, the checks and the PUT. */
  method SendArchived(db: Database, c: nat, id: string, op: CandidateOp) returns (outcome: Outcome)
    requires op.SetArchived? && Begins(db, c, Candidate(id, op))
    modifies db
    ensures db.Valid() && old(db.past) <= db.past && db.At(c, Candidate(id, op), Finished(outcome))
  {
    var found := db.GetDoc(c, id);
    if found.None? {
      db.Stop(c, Missing);
      return Missing;
    }
    var doc := found.value;
    if !Truthy(Get(doc, RevKey)) {
      db.Stop(c, Invalid);
      return Invalid;
    }
    if !RevMatches(op.expectedRev, doc) {
      db.Stop(c, AlreadyDecided);
      return AlreadyDecided;
    }
    var updated := doc;
    if op.archived {
      updated := updated[Archived := Bool(true)];
      updated := updated[ArchivedAt := Str(op.at)];
      updated := updated[ArchivedBy := Str(op.who)];
    } else {
      updated := updated[Archived := Bool(false)];
      updated := updated - {ArchivedAt, ArchivedBy};
    }
    var accepted := db.PutDoc(c, id, updated);
    return if accepted then Done else AlreadyDecided;
  }

  method SetActionCandidateStagedAt(db: Database, c: nat, id: string, op: CandidateOp) returns (outcome: Outcome)
    requires op.SetStagedAt? && Begins(db, c, Candidate(id, op))
    modifies db
    ensures db.Valid() && old(db.past) <= db.past && db.At(c, Candidate(id, op), Finished(outcome))
    ensures HasDone(db, old(db.past), c, Candidate(id, op), outcome, 1)
  {
    outcome := SendStagedAt(db, c, id, op);
    CallHasDone(db, old(db.past), c, Candidate(id, op), outcome);
  }

  /** The GET, the checks and the PUT. */
  method SendStagedAt(db: Database, c: nat, id: string, op: CandidateOp) returns (outcome: Outcome)
    requires op.SetStagedAt? && Begins(db, c, Candidate(id, op))
    modifies db
    ensures db.Valid() && old(db.past) <= db.past && db.At(c, Candidate(id, op), Finished(outcome))
  {
    var found := db.GetDoc(c, id);
    if found.None? {
      db.Stop(c, Missing);
      return Missing;
    }
    var doc := found.value;
    if Truthy(Get(doc, StagedAt)) || !RevMatches(op.expectedRev, doc) {
      db.Stop(c, AlreadyDecided);
      return AlreadyDecided;
    }
    var updated := doc[StagedAt := Str(op.at)];
    var accepted := db.PutDoc(c, id, updated);
    return if accepted then Done else AlreadyDecided;
  }

  lemma UpsertReads(candidate: Doc, built: Doc)
    requires BuildCandidate(candidate) == Some(built)
    ensures IdOf(UpsertCandidate(candidate)) == TextOf(built[DocId])
  {
  }

  lemma UpsertIsBuilt(candidate: Doc, built: Doc, existing: Option<Doc>)
    requires BuildCandidate(candidate) == Some(built)
    ensures ActOf(UpsertCandidate(candidate), existing)
            == if existing.Some? && Truthy(Get(existing.value, RevKey)) then
                 Put(TextOf(built[DocId]), built[RevKey := Get(existing.value, RevKey)])
               else Put(TextOf(built[DocId]), built)
  {
  }

  lemma RefusedCandidate(candidate: Doc)
    requires BuildCandidate(candidate).None?
    ensures forall snap :: ActOf(UpsertCandidate(candidate), snap) == Stop(Invalid)
  {
  }

  /** One attempt of `upsert_action_candidate`; false means a conflict. */
  method TryUpsert(db: Database, c: nat, candidate: Doc, built: Doc) returns (accepted: bool)
    requires BuildCandidate(candidate) == Some(built)
    requires db.Valid() && c in db.world.clients && db.world.clients[c].phase.Ready?
    requires db.world.clients[c].op == UpsertCandidate(candidate) && db.world.clients[c].phase.attempt < 2
    modifies db
    ensures db.Valid() && old(db.past) <= db.past
    ensures var next := old(db.world.clients[c].phase.attempt) + 1;
            db.At(c, UpsertCandidate(candidate), if accepted then Finished(Done)
                                                 else if next < 2 then Ready(next) else Finished(Conflict))
  {
    var id := TextOf(built[DocId]);
    UpsertReads(candidate, built);
    var existing := db.GetDoc(c, id);
    UpsertIsBuilt(candidate, built, existing);
    var outgoing := built;
    if existing.Some? && Truthy(Get(existing.value, RevKey)) {
      outgoing := outgoing[RevKey := Get(existing.value, RevKey)];
    }
    accepted := db.PutDoc(c, id, outgoing);
  }

  method UpsertActionCandidate(db: Database, c: nat, candidate: Doc) returns (outcome: Outcome)
    requires Begins(db, c, UpsertCandidate(candidate))
    modifies db
    ensures db.Valid() && old(db.past) <= db.past && db.At(c, UpsertCandidate(candidate), Finished(outcome))
    ensures HasDone(db, old(db.past), c, UpsertCandidate(candidate), outcome, 2)
  {
    outcome := SendUpsert(db, c, candidate);
    CallHasDone(db, old(db.past), c, UpsertCandidate(candidate), outcome);
  }

  /** The candidate is built, then the loop. */
  method SendUpsert(db: Database, c: nat, candidate: Doc) returns (outcome: Outcome)
    requires Begins(db, c, UpsertCandidate(candidate))
    modifies db
    ensures db.Valid() && old(db.past) <= db.past && db.At(c, UpsertCandidate(candidate), Finished(outcome))
  {
    var built := BuildCandidate(candidate);
    if built.None? {
      RefusedCandidate(candidate);
      db.Decline(c, Invalid);
      return Invalid;
    }
    outcome := RetryUpsert(db, c, candidate, built.value);
  }

  /** The loop of `upsert_action_candidate`. */
  method RetryUpsert(db: Database, c: nat, candidate: Doc, built: Doc) returns (outcome: Outcome)
    requires BuildCandidate(candidate) == Some(built) && Begins(db, c, UpsertCandidate(candidate))
    modifies db
    ensures db.Valid() && old(db.past) <= db.past && db.At(c, UpsertCandidate(candidate), Finished(outcome))
  {
    for attempt := 0 to 2
      invariant db.Valid() && old(db.past) <= db.past
      invariant attempt < 2 && db.At(c, UpsertCandidate(candidate), Ready(attempt))
    {
      var accepted := TryUpsert(db, c, candidate, built);
      if accepted {
        return Done;
      }
      if attempt + 1 == 2 {
        return Conflict;
      }
    }
    assert false;
  }
}
