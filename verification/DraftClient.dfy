// couchdb_job_draft_writer.py: the review calls themselves, each one GET and one PUT against the shared database.
// Every call takes its client through a run of the World machine, so the results of DraftRuns hold of it.
module DraftClient {
  import opened Json
  import opened Couch
  import opened StoreOps
  import opened DraftOps
  import opened World
  import opened StoreClient

  method SetReviewStatus(db: Database, c: nat, id: string, op: DraftOp) returns (outcome: Outcome)
    requires op.Review? && Begins(db, c, Draft(id, op))
    modifies db
    ensures db.Valid() && old(db.past) <= db.past && db.At(c, Draft(id, op), Finished(outcome))
    ensures HasDone(db, old(db.past), c, Draft(id, op), outcome, 1)
  {
    outcome := SendReview(db, c, id, op);
    CallHasDone(db, old(db.past), c, Draft(id, op), outcome);
  }

  /** The GET, the checks and the PUT. */
  method SendReview(db: Database, c: nat, id: string, op: DraftOp) returns (outcome: Outcome)
    requires op.Review? && Begins(db, c, Draft(id, op))
    modifies db
    ensures db.Valid() && old(db.past) <= db.past && db.At(c, Draft(id, op), Finished(outcome))
  {
    if op.status !in {"approved", "rejected"} {
      db.Decline(c, Invalid);
      return Invalid;
    }
    var found := db.GetDoc(c, id);
    if found.None? {
      db.Stop(c, Missing);
      return Missing;
    }
    var doc := found.value;
    if !Truthy(Get(doc, RevKey)) {
      db.Stop(c, Invalid);
      return Invalid;
    }
    if !RevMatches(op.expectedRev, doc) || (op.prior != {} && Status(doc) !in op.prior) {
      db.Stop(c, AlreadyDecided);
      return AlreadyDecided;
    }
    var entry := DecisionEntry(op.status, op.who, op.rationale, op.at, Status(doc));
    if op.reason != "" {
      entry := entry[Reason := Str(op.reason)];
    }
    var history := History(doc) + [Obj(entry)];
    var updated := doc;
    updated := updated + map[ReviewStatus := Str(op.status), ReviewedAt := Str(op.at), ReviewedBy := Str(op.who),
                             Reviewer := Str(op.who), ReviewRationale := Str(op.rationale),
                             PriorStatus := Str(Status(doc)), ReviewHistory := Arr(history)];
    var accepted := db.PutDoc(c, id, updated);
    return if accepted then Done else AlreadyDecided;
  }

  method SetApprovalRoute(db: Database, c: nat, id: string, op: DraftOp) returns (outcome: Outcome)
    requires op.Route? && Begins(db, c, Draft(id, op))
    modifies db
    ensures db.Valid() && old(db.past) <= db.past && db.At(c, Draft(id, op), Finished(outcome))
    ensures HasDone(db, old(db.past), c, Draft(id, op), outcome, 1)
  {
    outcome := SendRoute(db, c, id, op);
    CallHasDone(db, old(db.past), c, Draft(id, op), outcome);
  }

  /** The GET, the checks and the PUT. */
  method SendRoute(db: Database, c: nat, id: string, op: DraftOp) returns (outcome: Outcome)
    requires op.Route? && Begins(db, c, Draft(id, op))
    modifies db
    ensures db.Valid() && old(db.past) <= db.past && db.At(c, Draft(id, op), Finished(outcome))
  {
    var found := db.GetDoc(c, id);
    if found.None? {
      db.Stop(c, Missing);
      return Missing;
    }
    var doc := found.value;
    if !Truthy(Get(doc, RevKey)) {
      db.Stop(c, Invalid);
      return Invalid;
    }
    if !RevMatches(op.expectedRev, doc) || (op.prior != {} && Status(doc) !in op.prior) {
      db.Stop(c, AlreadyDecided);
      return AlreadyDecided;
    }
    if op.payload.None? {
      db.Stop(c, Invalid);
      return Invalid;
    }
    var updated := doc;
    if op.jobType != "" {
      updated := updated[JobType := Str(op.jobType)];
      updated := updated[Payload := Obj(op.payload.value)];
    }
    updated := updated + RouteFields(op, op.payload.value) + OriginalFields(doc)
      + Decision("approved", op.who, op.rationale, op.at, Status(doc), HistoryEntry(op, doc), History(doc));
    var accepted := db.PutDoc(c, id, updated);
    return if accepted then Done else AlreadyDecided;
  }

  method SetPayload(db: Database, c: nat, id: string, op: DraftOp) returns (outcome: Outcome)
    requires op.EditPayload? && Begins(db, c, Draft(id, op))
    modifies db
    ensures db.Valid() && old(db.past) <= db.past && db.At(c, Draft(id, op), Finished(outcome))
    ensures HasDone(db, old(db.past), c, Draft(id, op), outcome, 1)
  {
    outcome := SendPayload(db, c, id, op);
    CallHasDone(db, old(db.past), c, Draft(id, op), outcome);
  }

  /** The GET, the checks and the PUT. */
  method SendPayload(db: Database, c: nat, id: string, op: DraftOp) returns (outcome: Outcome)
    requires op.EditPayload? && Begins(db, c, Draft(id, op))
    modifies db
    ensures db.Valid() && old(db.past) <= db.past && db.At(c, Draft(id, op), Finished(outcome))
  {
    var found := db.GetDoc(c, id);
    if found.None? {
      db.Stop(c, Missing);
      return Missing;
    }
    var doc := found.value;
    if !Truthy(Get(doc, RevKey)) {
      db.Stop(c, Invalid);
      return Invalid;
    }
    if !RevMatches(op.expectedRev, doc) || Status(doc) != PENDING {
      db.Stop(c, AlreadyDecided);
      return AlreadyDecided;
    }
    if op.payload.None? {
      db.Stop(c, Invalid);
      return Invalid;
    }
    var history := History(doc) + [Obj(HistoryEntry(op, doc))];
    var updated := doc;
    updated := updated + map[Payload := Obj(op.payload.value), ValidationError := op.validationError,
                             EditedAt := Str(op.at), EditedBy := Str(op.who), ReviewHistory := Arr(history)];
    var accepted := db.PutDoc(c, id, updated);
    return if accepted then Done else AlreadyDecided;
  }

  method SetQueueMark(db: Database, c: nat, id: string, op: DraftOp) returns (outcome: Outcome)
    requires IsMark(op) && Begins(db, c, Draft(id, op))
    modifies db
    ensures db.Valid() && old(db.past) <= db.past && db.At(c, Draft(id, op), Finished(outcome))
    ensures HasDone(db, old(db.past), c, Draft(id, op), outcome, 1)
  {
    outcome := SendMark(db, c, id, op);
    CallHasDone(db, old(db.past), c, Draft(id, op), outcome);
  }

  /** The GET, the checks and the PUT. */
  method SendMark(db: Database, c: nat, id: string, op: DraftOp) returns (outcome: Outcome)
    requires IsMark(op) && Begins(db, c, Draft(id, op))
    modifies db
    ensures db.Valid() && old(db.past) <= db.past && db.At(c, Draft(id, op), Finished(outcome))
  {
    var found := db.GetDoc(c, id);
    if found.None? {
      db.Stop(c, Missing);
      return Missing;
    }
    var doc := found.value;
    if Truthy(Get(doc, QueueMaterializedAt)) {
      db.Stop(c, AlreadyDecided);
      return AlreadyDecided;
    }
    if !Truthy(Get(doc, RevKey)) {
      db.Stop(c, Invalid);
      return Invalid;
    }
    if !RevMatches(op.expectedRev, doc) {
      db.Stop(c, AlreadyDecided);
      return AlreadyDecided;
    }
    var updated := doc;
    updated := updated[QueueMaterializedAt := Str(op.at)];
    if op.NoAction? {
      updated := updated[QueueMaterializedAs := Str("no_action")];
      updated := updated[QueueNoActionAt := Str(op.at)];
    }
    var accepted := db.PutDoc(c, id, updated);
    return if accepted then Done else AlreadyDecided;
  }

  lemma UpsertIsBuilt(draft: Doc, built: Doc, expectedRev: Option<nat>, existing: Option<Doc>)
    requires BuildDraft(draft) == Some(built)
    ensures IdOf(UpsertDraft(draft, expectedRev)) == TextOf(built[DocId])
    ensures ActOf(UpsertDraft(draft, expectedRev), existing) == UpsertBuilt(built, expectedRev, existing)
  {
  }

  /** One attempt of `upsert_job_draft`; none means a conflict. */
  method TryUpsert(db: Database, c: nat, op: Op, built: Doc) returns (outcome: Option<Outcome>)
    requires op.UpsertDraft? && BuildDraft(op.draft) == Some(built)
    requires db.Valid() && c in db.world.clients && db.world.clients[c].phase.Ready?
    requires db.world.clients[c].op == op && db.world.clients[c].phase.attempt < Budget(op)
    modifies db
    ensures db.Valid() && old(db.past) <= db.past
    ensures var next := old(db.world.clients[c].phase.attempt) + 1;
            db.At(c, op, if outcome.Some? then Finished(outcome.value)
                         else if next < Budget(op) then Ready(next) else Finished(Conflict))
  {
    var expectedRev := op.expectedRev;
    var id := TextOf(built[DocId]);
    UpsertIsBuilt(op.draft, built, expectedRev, None);
    var existing := db.GetDoc(c, id);
    UpsertIsBuilt(op.draft, built, expectedRev, existing);
    var outgoing := built;
    if existing.Some? && Truthy(Get(existing.value, RevKey)) {
      if !RevMatches(expectedRev, existing.value) {
        db.Stop(c, Invalid);
        return Some(Invalid);
      }
      outgoing := outgoing[RevKey := Get(existing.value, RevKey)];
    } else if expectedRev.Some? {
      db.Stop(c, Invalid);
      return Some(Invalid);
    }
    var accepted := db.PutDoc(c, id, outgoing);
    return if accepted then Some(Done) else None;
  }

  lemma RefusedDraft(draft: Doc, expectedRev: Option<nat>)
    requires BuildDraft(draft).None?
    ensures forall snap :: ActOf(UpsertDraft(draft, expectedRev), snap) == Stop(Invalid)
  {
    forall snap
      ensures ActOf(UpsertDraft(draft, expectedRev), snap) == Stop(Invalid)
    {
      assert ActOf(UpsertDraft(draft, expectedRev), snap) == UpsertDraftAct(draft, expectedRev, snap);
    }
  }

  method UpsertJobDraft(db: Database, c: nat, draft: Doc, expectedRev: Option<nat>) returns (outcome: Outcome)
    requires Begins(db, c, UpsertDraft(draft, expectedRev))
    modifies db
    ensures db.Valid() && old(db.past) <= db.past && db.At(c, UpsertDraft(draft, expectedRev), Finished(outcome))
    ensures HasDone(db, old(db.past), c, UpsertDraft(draft, expectedRev), outcome, if expectedRev.None? then 2 else 1)
  {
    outcome := SendUpsert(db, c, draft, expectedRev);
    CallHasDone(db, old(db.past), c, UpsertDraft(draft, expectedRev), outcome);
  }

  /** The draft is built, then the loop. */
  method SendUpsert(db: Database, c: nat, draft: Doc, expectedRev: Option<nat>) returns (outcome: Outcome)
    requires Begins(db, c, UpsertDraft(draft, expectedRev))
    modifies db
    ensures db.Valid() && old(db.past) <= db.past && db.At(c, UpsertDraft(draft, expectedRev), Finished(outcome))
  {
    var built := BuildDraft(draft);
    if built.None? {
      RefusedDraft(draft, expectedRev);
      db.Decline(c, Invalid);
      return Invalid;
    }
    outcome := RetryUpsert(db, c, UpsertDraft(draft, expectedRev), built.value);
  }

  /** The loop of `upsert_job_draft`, with one attempt when a revision is expected. */
  method RetryUpsert(db: Database, c: nat, op: Op, built: Doc) returns (outcome: Outcome)
    requires op.UpsertDraft? && BuildDraft(op.draft) == Some(built) && Begins(db, c, op)
    modifies db
    ensures db.Valid() && old(db.past) <= db.past && db.At(c, op, Finished(outcome))
  {
    var attempts := if op.expectedRev.None? then 2 else 1;
    assert attempts == Budget(op);
    for attempt := 0 to attempts
      invariant db.Valid() && old(db.past) <= db.past
      invariant attempt < attempts && db.At(c, op, Ready(attempt))
    {
      var result := TryUpsert(db, c, op, built);
      if result.Some? {
        return result.value;
      }
      if attempt + 1 == attempts {
        return Conflict;
      }
    }
    assert false;
  }
}
