// What an operation leaves in the database, field by field, in terms of its request and of the document it read. The
// functions that compute what is PUT are not named in these statements; they are shown to have these effects.
module Effects {
  import opened Json
  import opened Couch
  import opened StoreOps
  import opened World
  import opened DraftOps
  import opened CandidateOps
  import opened DraftEffects
  import opened CandidateEffects

  /** `patch_fields`: the given fields are as given, all others as they were read. */
  ghost predicate Patches(read: Doc, fields: Doc, body: Doc) {
    && SameBut(read, body, fields.Keys)
    && forall key <- fields :: key != DocId && key != RevKey ==> key in body && body[key] == fields[key]
  }

  /** `delete_fields`: the named fields are gone, all others are as they were read. */
  ghost predicate Deletes(read: Doc, names: seq<Key>, body: Doc) {
    && (forall key :: key !in names && key != DocId && key != RevKey ==> SameField(read, body, key))
    && (forall key <- names :: key != Other("") ==> key !in body)
    && SameField(read, body, Other(""))
  }

  /** Having read `read`, the operation stores `body` under `target`. */
  ghost predicate Carries(op: Op, read: Option<Doc>, target: string, body: Doc) {
    match op
    case Upsert(doc) => target == TargetId(doc) && SameBut(doc, body, {})
    case Update(_, transform, seed, requireExisting, _) =>
      && (requireExisting ==> read.Some?)
      && var written := transform(if read.Some? then read else seed);
         written.Some? && target == TargetId(written.value) && SameBut(written.value, body, {})
    case Patch(id, fields, _) => target == id && read.Some? && Patches(read.value, fields, body)
    case DeleteFields(id, names, _) => target == id && read.Some? && Deletes(read.value, names, body)
    case Draft(id, draftOp) => target == id && read.Some? && DraftChanges(draftOp, read.value, body)
    case UpsertDraft(draft, _) =>
      IsBuiltDraft(draft, target, body) && TakesOverDraft(draft, body) && TakesOverTexts(draft, body)
    case Candidate(id, candidateOp) => target == id && read.Some? && CandidateChanges(candidateOp, read.value, body)
    case UpsertCandidate(candidate) =>
      && IsBuiltCandidate(candidate, target, body) && TakesOverCandidate(candidate, body)
      && NamesSite(candidate, body) && TakesOverReview(candidate, body)
      && HoldsOrigin(candidate, ObjOf(Get(body, Evidence)), ObjOf(Get(body, SourceDetail)))
  }

  lemma UpdateCarries(op: Op, read: Option<Doc>)
    requires op.Update? && ActOf(op, read).Put?
    ensures Carries(op, read, ActOf(op, read).target, BodyOf(ActOf(op, read).doc))
  {
  }

  lemma UpsertCarries(op: Op, read: Option<Doc>)
    requires op.Upsert? && ActOf(op, read).Put?
    ensures Carries(op, read, ActOf(op, read).target, BodyOf(ActOf(op, read).doc))
  {
  }

  lemma PatchCarries(op: Op, read: Option<Doc>)
    requires op.Patch? && ActOf(op, read).Put?
    ensures Carries(op, read, ActOf(op, read).target, BodyOf(ActOf(op, read).doc))
  {
  }

  lemma DeleteCarries(op: Op, read: Option<Doc>)
    requires op.DeleteFields? && ActOf(op, read).Put?
    ensures Carries(op, read, ActOf(op, read).target, BodyOf(ActOf(op, read).doc))
  {
    WithoutNamed(read.value, op.names, set name <- op.names | name != Other(""));
  }

  lemma WithoutNamed(read: Doc, names: seq<Key>, dropped: set<Key>)
    requires forall key :: key in dropped <==> key in names && key != Other("")
    ensures Deletes(read, names, BodyOf(read - dropped))
  {
  }

  lemma UpsertDraftCarries(op: Op, read: Option<Doc>)
    requires op.UpsertDraft? && ActOf(op, read).Put?
    ensures Carries(op, read, ActOf(op, read).target, BodyOf(ActOf(op, read).doc))
  {
    var built := BuildDraft(op.draft).value;
    BuiltBodies(op.draft, built, if read.Some? then Get(read.value, RevKey) else Null);
    UpsertDraftPuts(op.draft, op.expectedRev, read, built);
  }

  lemma UpsertCandidateCarries(op: Op, read: Option<Doc>)
    requires op.UpsertCandidate? && ActOf(op, read).Put?
    ensures Carries(op, read, ActOf(op, read).target, BodyOf(ActOf(op, read).doc))
  {
    var built := BuildCandidate(op.candidate).value;
    UpsertCandidatePuts(op.candidate, read, built);
    CandidateBodies(op.candidate, built, if read.Some? then Get(read.value, RevKey) else Null,
                    BodyOf(UpsertCandidateAct(op.candidate, read).doc));
  }

  /** Whatever an operation decides to PUT has the effect it is meant to have. */
  lemma ActCarries(op: Op, read: Option<Doc>)
    requires ActOf(op, read).Put?
    ensures Carries(op, read, ActOf(op, read).target, BodyOf(ActOf(op, read).doc))
  {
    match op
    case Upsert(_) => UpsertCarries(op, read);
    case Update(_, _, _, _, _) => UpdateCarries(op, read);
    case Patch(_, _, _) => PatchCarries(op, read);
    case DeleteFields(_, _, _) => DeleteCarries(op, read);
    case Draft(id, draftOp) => DraftCarries(id, draftOp, read);
    case UpsertDraft(_, _) => UpsertDraftCarries(op, read);
    case Candidate(id, candidateOp) => CandidateCarries(id, candidateOp, read);
    case UpsertCandidate(_) => UpsertCandidateCarries(op, read);
  }
}
