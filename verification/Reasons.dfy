// Why an operation ends without writing, in terms of its request and of the document it read; it writes whenever none of
// these reasons applies.
module Reasons {
  import opened Json
  import opened StoreOps
  import opened DraftOps
  import opened CandidateOps
  import opened World
  import opened DraftEffects
  import Text

  /** A blank `_id`. */
  predicate NoId(doc: Doc) {
    Text.Strip(TextOf(Get(doc, DocId))) == ""
  }

  /** Why an update stops: the document is required and absent, the transform keeps the document as it is, or there is
      nothing that could be written. */
  predicate UpdateDeclines(op: Op, read: Option<Doc>, outcome: Outcome)
    requires op.Update?
  {
    if read.None? && op.requireExisting then outcome == Missing
    else
      match op.transform(if read.Some? then read else op.seed)
      case None => outcome == (if read.Some? then Unchanged else Invalid)
      case Some(written) => outcome == Invalid && NoId(written)
  }

  /** Another revision is stored than the one expected. */
  predicate OtherRevision(expectedRev: Option<nat>, read: Doc) {
    expectedRev.Some? && Get(read, RevKey) != Rev(expectedRev.value)
  }

  /** The status is checked, and it is not one of those expected. */
  predicate OtherStatus(prior: set<string>, status: string) {
    prior != {} && status !in prior
  }

  /** Why an operation on a draft stops: there is no draft, the request is not complete, or the draft is not, or no
      longer, in the state that the operation is for. */
  predicate DraftDeclines(op: DraftOp, read: Option<Doc>, outcome: Outcome) {
    match op
    case Review(status, _, _, _, expectedRev, prior, _) =>
      || (status != "approved" && status != "rejected" && outcome == Invalid)
      || (read.None? && outcome == Missing)
      || (read.Some? && !Truthy(Get(read.value, RevKey)) && outcome == Invalid)
      || (read.Some? && (OtherRevision(expectedRev, read.value) || OtherStatus(prior, Status(read.value)))
          && outcome == AlreadyDecided)
    case Route(_, _, payload, _, _, _, _, expectedRev, prior) =>
      || (read.None? && outcome == Missing)
      || (read.Some? && !Truthy(Get(read.value, RevKey)) && outcome == Invalid)
      || (read.Some? && (OtherRevision(expectedRev, read.value) || OtherStatus(prior, Status(read.value)))
          && outcome == AlreadyDecided)
      || (payload.None? && outcome == Invalid)
    case EditPayload(payload, _, _, _, expectedRev) =>
      || (read.None? && outcome == Missing)
      || (read.Some? && !Truthy(Get(read.value, RevKey)) && outcome == Invalid)
      || (read.Some? && (OtherRevision(expectedRev, read.value) || Status(read.value) != "pending_approval")
          && outcome == AlreadyDecided)
      || (payload.None? && outcome == Invalid)
    case _ =>
      || (read.None? && outcome == Missing)
      || (read.Some? && Truthy(Get(read.value, QueueMaterializedAt)) && outcome == AlreadyDecided)
      || (read.Some? && !Truthy(Get(read.value, RevKey)) && outcome == Invalid)
      || (read.Some? && OtherRevision(op.expectedRev, read.value) && outcome == AlreadyDecided)
  }

  predicate CandidateDeclines(op: CandidateOp, read: Option<Doc>, outcome: Outcome) {
    || (read.None? && outcome == Missing)
    || (read.Some? && !op.SetStagedAt? && !Truthy(Get(read.value, RevKey)) && outcome == Invalid)
    || (read.Some? && OtherRevision(op.expectedRev, read.value) && outcome == AlreadyDecided)
    || match op
       case SetStatus(status, _, _, _, _, prior, _) =>
         || (status != "approved" && status != "rejected" && outcome == Invalid)
         || (read.Some? && OtherStatus(prior, StatusText(read.value)) && outcome == AlreadyDecided)
       case PatchFields(fields, _) => NormalPatch(fields).None? && outcome == Invalid
       case SetArchived(_, _, _, _) => false
       case SetStagedAt(_, _) => read.Some? && Truthy(Get(read.value, StagedAt)) && outcome == AlreadyDecided
  }

  /** A draft that cannot be built: it has no id or no job type, or an unknown status. */
  predicate NoDraft(draft: Doc) {
    || Text.Strip(TextOf(Get(draft, DraftId))) == "" || Text.Strip(TextOf(Get(draft, JobType))) == ""
    || (Truthy(Get(draft, ReviewStatus))
        && Text.Strip(TextOf(Get(draft, ReviewStatus))) !in ["pending_approval", "approved", "rejected"])
  }

  /** A candidate that cannot be built: it has no id, or an unknown status. */
  predicate NoCandidate(candidate: Doc) {
    || Text.Strip(TextOf(Get(candidate, CandidateId))) == ""
    || Text.Strip(TextOf(Get(candidate, CandidateStatus))) !in ["pending_review", "approved", "rejected", "failed"]
  }

  /** Having read `read`, the operation ends with this outcome and writes nothing. */
  predicate Declines(op: Op, read: Option<Doc>, outcome: Outcome) {
    match op
    case Upsert(doc) => NoId(doc) && outcome == Invalid
    case Update(_, _, _, _, _) => UpdateDeclines(op, read, outcome)
    case Patch(_, _, requireExisting) => read.None? && outcome == (if requireExisting then Missing else Unchanged)
    case DeleteFields(_, names, requireExisting) =>
      || ((forall name <- names :: name == Other("")) && outcome == Unchanged)
      || (read.None? && outcome == (if requireExisting then Missing else Unchanged))
    case Draft(_, draftOp) => DraftDeclines(draftOp, read, outcome)
    case UpsertDraft(draft, expectedRev) =>
      && outcome == Invalid
      && (|| NoDraft(draft)
          || (expectedRev.Some? && (read.Some? ==> Get(read.value, RevKey) != Rev(expectedRev.value))))
    case Candidate(_, candidateOp) => CandidateDeclines(candidateOp, read, outcome)
    case UpsertCandidate(candidate) => NoCandidate(candidate) && outcome == Invalid
  }

  lemma DraftDeclinesRightly(id: string, op: DraftOp, read: Option<Doc>)
    requires DraftAct(id, op, read).Stop?
    ensures DraftDeclines(op, read, DraftAct(id, op, read).outcome)
  {
  }

  lemma CandidateDeclinesRightly(id: string, op: CandidateOp, read: Option<Doc>)
    requires CandidateAct(id, op, read).Stop?
    ensures CandidateDeclines(op, read, CandidateAct(id, op, read).outcome)
  {
  }

  lemma UnbuiltDraft(draft: Doc)
    requires BuildDraft(draft).None?
    ensures NoDraft(draft)
  {
    DefaultStatus(Get(draft, ReviewStatus));
  }

  lemma UpsertDraftDeclinesRightly(draft: Doc, expectedRev: Option<nat>, read: Option<Doc>)
    requires UpsertDraftAct(draft, expectedRev, read).Stop?
    ensures Declines(UpsertDraft(draft, expectedRev), read, UpsertDraftAct(draft, expectedRev, read).outcome)
  {
    if BuildDraft(draft).None? {
      UnbuiltDraft(draft);
    } else {
      var built := BuildDraft(draft).value;
      assert UpsertDraftAct(draft, expectedRev, read) == UpsertBuilt(built, expectedRev, read);
    }
  }

  lemma UpsertCandidateDeclinesRightly(candidate: Doc, read: Option<Doc>)
    requires UpsertCandidateAct(candidate, read).Stop?
    ensures Declines(UpsertCandidate(candidate), read, UpsertCandidateAct(candidate, read).outcome)
  {
  }

  /** An operation that writes nothing has its reason. */
  lemma StopDeclines(op: Op, read: Option<Doc>)
    requires ActOf(op, read).Stop?
    ensures Declines(op, read, ActOf(op, read).outcome)
  {
    match op
    case Draft(id, draftOp) => DraftDeclinesRightly(id, draftOp, read);
    case UpsertDraft(draft, expectedRev) => UpsertDraftDeclinesRightly(draft, expectedRev, read);
    case Candidate(id, candidateOp) => CandidateDeclinesRightly(id, candidateOp, read);
    case UpsertCandidate(candidate) => UpsertCandidateDeclinesRightly(candidate, read);
    case _ =>
  }

  lemma DraftPutHasNoReason(id: string, op: DraftOp, read: Option<Doc>, outcome: Outcome)
    requires DraftAct(id, op, read).Put?
    ensures !DraftDeclines(op, read, outcome)
  {
  }

  lemma CandidatePutHasNoReason(id: string, op: CandidateOp, read: Option<Doc>, outcome: Outcome)
    requires CandidateAct(id, op, read).Put?
    ensures !CandidateDeclines(op, read, outcome)
  {
  }

  lemma BuiltDraftHasNoReason(draft: Doc)
    requires BuildDraft(draft).Some?
    ensures !NoDraft(draft)
  {
    DefaultStatus(Get(draft, ReviewStatus));
  }

  lemma UpsertDraftPutHasNoReason(draft: Doc, expectedRev: Option<nat>, read: Option<Doc>, outcome: Outcome)
    requires UpsertDraftAct(draft, expectedRev, read).Put?
    ensures !Declines(UpsertDraft(draft, expectedRev), read, outcome)
  {
    BuiltDraftHasNoReason(draft);
    assert UpsertDraftAct(draft, expectedRev, read) == UpsertBuilt(BuildDraft(draft).value, expectedRev, read);
  }

  lemma UpsertCandidatePutHasNoReason(candidate: Doc, read: Option<Doc>, outcome: Outcome)
    requires UpsertCandidateAct(candidate, read).Put?
    ensures !Declines(UpsertCandidate(candidate), read, outcome)
  {
  }

  /** An operation that writes has no reason not to. */
  lemma PutHasNoReason(op: Op, read: Option<Doc>, outcome: Outcome)
    requires ActOf(op, read).Put?
    ensures !Declines(op, read, outcome)
  {
    match op
    case Draft(id, draftOp) => DraftPutHasNoReason(id, draftOp, read, outcome);
    case UpsertDraft(draft, expectedRev) => UpsertDraftPutHasNoReason(draft, expectedRev, read, outcome);
    case Candidate(id, candidateOp) => CandidatePutHasNoReason(id, candidateOp, read, outcome);
    case UpsertCandidate(candidate) => UpsertCandidatePutHasNoReason(candidate, read, outcome);
    case _ =>
  }

  /** An operation writes exactly when it has no reason to end otherwise. */
  lemma WritesUnlessDeclined(op: Op, read: Option<Doc>)
    ensures ActOf(op, read).Put? <==> forall outcome :: !Declines(op, read, outcome)
  {
    if ActOf(op, read).Put? {
      forall outcome
        ensures !Declines(op, read, outcome)
      {
        PutHasNoReason(op, read, outcome);
      }
    } else {
      StopDeclines(op, read);
    }
  }
}
