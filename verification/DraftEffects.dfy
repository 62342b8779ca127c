// What each review operation and each upsert leaves in a job draft, field by field, in terms of its request and of the
// draft it read.
module DraftEffects {
  import opened Json
  import opened Couch
  import opened StoreOps
  import opened DraftOps
  import Text

  /** What a decision records in the draft itself. */
  predicate Records(read: Doc, body: Doc, status: string, who: string, rationale: string, at: string) {
    && Get(body, ReviewStatus) == Str(status) && Get(body, PriorStatus) == Str(Status(read))
    && Get(body, ReviewedBy) == Str(who) && Get(body, Reviewer) == Str(who)
    && Get(body, ReviewedAt) == Str(at) && Get(body, ReviewRationale) == Str(rationale)
  }

  /** The history is the one read and one entry more. */
  predicate OneEntryMore(read: Doc, body: Doc) {
    var history := Get(body, ReviewHistory);
    && history.Arr? && |history.items| == |History(read)| + 1 && History(read) <= history.items
    && history.items[|History(read)|].Obj?
  }

  /** The entry that was added. */
  function LastEntry(read: Doc, body: Doc): Doc
    requires OneEntryMore(read, body)
  {
    Get(body, ReviewHistory).items[|History(read)|].fields
  }

  predicate DecisionRecorded(entry: Doc, prior: string, status: string, who: string, rationale: string, at: string) {
    && Get(entry, PriorStatus) == Str(prior) && Get(entry, ReviewStatus) == Str(status)
    && Get(entry, Reviewer) == Str(who) && Get(entry, ReviewedAt) == Str(at)
    && Get(entry, ReviewRationale) == Str(rationale)
  }

  /** A review sets the decision and adds its entry; a reason is part of the entry when there is one. */
  ghost predicate Reviews(op: DraftOp, read: Doc, body: Doc)
    requires op.Review?
  {
    && Records(read, body, op.status, op.who, op.rationale, op.at) && OneEntryMore(read, body)
    && DecisionRecorded(LastEntry(read, body), Status(read), op.status, op.who, op.rationale, op.at)
    && Get(LastEntry(read, body), Reason) == (if op.reason == "" then Null else Str(op.reason))
    && SameBut(read, body, {ReviewStatus, PriorStatus, ReviewedBy, Reviewer, ReviewedAt, ReviewRationale, ReviewHistory})
  }

  /** What a routed approval stores besides the decision. */
  predicate RouteNamed(op: DraftOp, body: Doc)
    requires op.Route? && op.payload.Some?
  {
    && Get(body, RoutedJobType) == Str(op.jobType) && Get(body, RoutedPayload) == Obj(op.payload.value)
    && Get(body, RouteName) == Str(op.route) && Get(body, RouteRationale) == Str(op.routeRationale)
    && Get(body, RouteChosenBy) == Str(op.who) && Get(body, RouteChosenAt) == Str(op.at)
  }

  predicate JobReplaced(op: DraftOp, read: Doc, body: Doc)
    requires op.Route? && op.payload.Some?
  {
    && Get(body, OriginalJobType) == Str(TextOf(Get(read, JobType)))
    && Get(body, OriginalPayload) == Obj(ObjOf(Get(read, Payload)))
    && (if op.jobType == "" then SameField(read, body, JobType) && SameField(read, body, Payload)
        else Get(body, JobType) == Str(op.jobType) && Get(body, Payload) == Obj(op.payload.value))
  }

  /** A routed approval: the route and what it replaces are kept, and job type and payload are those of the route unless
      the route names no job type. */
  ghost predicate Routes(op: DraftOp, read: Doc, body: Doc)
    requires op.Route?
  {
    && op.payload.Some?
    && Records(read, body, "approved", op.who, op.rationale, op.at) && OneEntryMore(read, body)
    && DecisionRecorded(LastEntry(read, body), Status(read), "approved", op.who, op.rationale, op.at)
    && Get(LastEntry(read, body), RouteName) == Str(op.route)
    && Get(LastEntry(read, body), RouteRationale) == Str(op.routeRationale)
    && RouteNamed(op, body) && JobReplaced(op, read, body)
    && SameBut(read, body, {RoutedJobType, RoutedPayload, RouteName, RouteRationale, RouteChosenBy, RouteChosenAt,
                            OriginalJobType, OriginalPayload, JobType, Payload}
                           + {ReviewStatus, PriorStatus, ReviewedBy, Reviewer, ReviewedAt, ReviewRationale,
                              ReviewHistory})
  }

  /** A payload edit stores the given payload and validation error, and says who edited it and when. */
  ghost predicate Edits(op: DraftOp, read: Doc, body: Doc)
    requires op.EditPayload?
  {
    && op.payload.Some? && Status(read) == "pending_approval"
    && Get(body, Payload) == Obj(op.payload.value) && Get(body, ValidationError) == op.validationError
    && Get(body, EditedBy) == Str(op.who) && Get(body, EditedAt) == Str(op.at) && OneEntryMore(read, body)
    && Get(LastEntry(read, body), Editor) == Str(op.who) && Get(LastEntry(read, body), EditedAt) == Str(op.at)
    && Get(LastEntry(read, body), Action) == Str("edit_payload")
    && SameBut(read, body, {Payload, ValidationError, EditedBy, EditedAt, ReviewHistory})
  }

  /** Both queue marks set the time; only a no-action mark says so. */
  ghost predicate Marks(op: DraftOp, read: Doc, body: Doc)
    requires IsMark(op)
  {
    && Get(body, QueueMaterializedAt) == Str(op.at)
    && (op.Materialize? ==> SameBut(read, body, {QueueMaterializedAt}))
    && (op.NoAction? ==> Get(body, QueueMaterializedAs) == Str("no_action") && Get(body, QueueNoActionAt) == Str(op.at)
                         && SameBut(read, body, {QueueMaterializedAt, QueueMaterializedAs, QueueNoActionAt}))
  }

  ghost predicate DraftChanges(op: DraftOp, read: Doc, body: Doc) {
    match op
    case Review(_, _, _, _, _, _, _) => Reviews(op, read, body)
    case Route(_, _, _, _, _, _, _, _, _) => Routes(op, read, body)
    case EditPayload(_, _, _, _, _) => Edits(op, read, body)
    case _ => Marks(op, read, body)
  }

  /** A draft as it is built: identity, job and status from the request, with its defaults. */
  ghost predicate IsBuiltDraft(draft: Doc, target: string, body: Doc) {
    var draftId := Text.Strip(TextOf(Get(draft, DraftId)));
    && draftId != "" && target == "job_draft_" + draftId
    && Get(body, DraftId) == Str(draftId) && Get(body, TypeName) == Str("job_draft")
    && Get(body, JobType) == Str(Text.Strip(TextOf(Get(draft, JobType)))) && Get(body, JobType) != Str("")
    && Get(body, Payload) == Obj(if Get(draft, Payload).Obj? then Get(draft, Payload).fields else map[])
    && Get(body, ReviewStatus) == Str(if Truthy(Get(draft, ReviewStatus)) then
                                        Text.Strip(TextOf(Get(draft, ReviewStatus)))
                                      else "pending_approval")
    && Get(body, GroupId) == Str(if Truthy(Get(draft, GroupId)) then TextOf(Get(draft, GroupId)) else draftId)
    && Get(body, SourceName) == Str(if Truthy(Get(draft, SourceName)) then TextOf(Get(draft, SourceName))
                                    else "field_capture_pipeline")
  }

  /** The fields that a built draft takes over, and the ones it cannot have. */
  predicate TakesOverDraft(draft: Doc, body: Doc) {
    && Get(body, ValidationError) == Get(draft, ValidationError) && Get(body, Confidence) == Get(draft, Confidence)
    && Get(body, ReviewedBy) == Get(draft, ReviewedBy) && Get(body, ReviewedAt) == Get(draft, ReviewedAt)
    && Get(body, ReviewRationale) == Get(draft, ReviewRationale)
    && ReviewHistory !in body && QueueMaterializedAt !in body
  }

  /** The fields that a built draft takes over as text. */
  predicate TakesOverTexts(draft: Doc, body: Doc) {
    && Get(body, MessageText) == Str(TextOf(Get(draft, MessageText)))
    && Get(body, SiteId) == Str(TextOf(Get(draft, SiteId)))
    && Get(body, SubmitterName) == Str(TextOf(Get(draft, SubmitterName)))
    && Get(body, SourceCaptureId) == Str(TextOf(Get(draft, SourceCaptureId)))
    && Get(body, SourceKind) == Str(TextOf(Get(draft, SourceKind)))
    && Get(body, CreatedAt) == Str(TextOf(Get(draft, CreatedAt)))
  }

  /** The fields of a decision, one by one. */
  predicate IsDecisionOf(fields: Doc, status: string, who: string, rationale: string, at: string, prior: string,
                         history: seq<Value>)
  {
    && ReviewStatus in fields && fields[ReviewStatus] == Str(status)
    && PriorStatus in fields && fields[PriorStatus] == Str(prior)
    && ReviewedBy in fields && fields[ReviewedBy] == Str(who) && Reviewer in fields && fields[Reviewer] == Str(who)
    && ReviewedAt in fields && fields[ReviewedAt] == Str(at)
    && ReviewRationale in fields && fields[ReviewRationale] == Str(rationale)
    && ReviewHistory in fields && fields[ReviewHistory] == Arr(history)
    && fields.Keys == {ReviewStatus, PriorStatus, ReviewedBy, Reviewer, ReviewedAt, ReviewRationale, ReviewHistory}
  }

  lemma DecisionIs(status: string, who: string, rationale: string, at: string, prior: string, entry: Doc,
                   history: seq<Value>)
    ensures IsDecisionOf(Decision(status, who, rationale, at, prior, entry, history), status, who, rationale, at, prior,
                         history + [Obj(entry)])
  {
  }

  /** The decision laid over a document. */
  lemma DecisionRecords(read: Doc, base: Doc, fields: Doc, status: string, who: string, rationale: string, at: string,
                        entry: Doc)
    requires IsDecisionOf(fields, status, who, rationale, at, Status(read), History(read) + [Obj(entry)])
    ensures var body := BodyOf(base + fields);
            && Records(read, body, status, who, rationale, at) && OneEntryMore(read, body)
            && LastEntry(read, body) == entry && SameBut(base, body, fields.Keys)
  {
  }

  lemma ReviewEntryIs(op: DraftOp, doc: Doc)
    requires op.Review?
    ensures var entry := HistoryEntry(op, doc);
            && DecisionRecorded(entry, Status(doc), op.status, op.who, op.rationale, op.at)
            && Get(entry, Reason) == (if op.reason == "" then Null else Str(op.reason))
  {
  }

  lemma ReviewChanges(id: string, op: DraftOp, doc: Doc)
    requires op.Review? && ReviewAct(id, op, doc).Put?
    ensures Reviews(op, doc, BodyOf(ReviewAct(id, op, doc).doc))
  {
    var entry := HistoryEntry(op, doc);
    ReviewEntryIs(op, doc);
    DecisionIs(op.status, op.who, op.rationale, op.at, Status(doc), entry, History(doc));
    DecisionRecords(doc, doc, Decision(op.status, op.who, op.rationale, op.at, Status(doc), entry, History(doc)),
                    op.status, op.who, op.rationale, op.at, entry);
  }

  /** The document with job type, payload and route, before the decision is laid over it. */
  function RoutedBase(op: DraftOp, doc: Doc): Doc
    requires op.Route? && op.payload.Some?
  {
    var routed := op.payload.value;
    (if op.jobType != "" then doc[JobType := Str(op.jobType)][Payload := Obj(routed)] else doc)
    + RouteFields(op, routed) + OriginalFields(doc)
  }

  lemma RouteIsNamed(op: DraftOp, doc: Doc)
    requires op.Route? && op.payload.Some?
    ensures RouteNamed(op, RoutedBase(op, doc))
  {
  }

  lemma JobIsReplaced(op: DraftOp, doc: Doc)
    requires op.Route? && op.payload.Some?
    ensures JobReplaced(op, doc, RoutedBase(op, doc))
  {
  }

  lemma RouteLeavesOthers(op: DraftOp, doc: Doc)
    requires op.Route? && op.payload.Some?
    ensures SameBut(doc, RoutedBase(op, doc), {RoutedJobType, RoutedPayload, RouteName, RouteRationale, RouteChosenBy,
                                               RouteChosenAt, OriginalJobType, OriginalPayload, JobType, Payload})
  {
  }

  lemma RouteEntryIs(op: DraftOp, doc: Doc)
    requires op.Route?
    ensures var entry := HistoryEntry(op, doc);
            && DecisionRecorded(entry, Status(doc), "approved", op.who, op.rationale, op.at)
            && Get(entry, RouteName) == Str(op.route) && Get(entry, RouteRationale) == Str(op.routeRationale)
  {
  }

  /** What the decision leaves alone is still stored. */
  lemma RouteStays(op: DraftOp, base: Doc, fields: Doc)
    requires op.Route? && op.payload.Some? && RouteNamed(op, base)
    requires fields.Keys == {ReviewStatus, PriorStatus, ReviewedBy, Reviewer, ReviewedAt, ReviewRationale, ReviewHistory}
    ensures RouteNamed(op, BodyOf(base + fields))
  {
  }

  lemma ReplacementStays(op: DraftOp, read: Doc, base: Doc, fields: Doc)
    requires op.Route? && op.payload.Some? && JobReplaced(op, read, base)
    requires fields.Keys == {ReviewStatus, PriorStatus, ReviewedBy, Reviewer, ReviewedAt, ReviewRationale, ReviewHistory}
    ensures JobReplaced(op, read, BodyOf(base + fields))
  {
  }

  lemma RouteChanges(id: string, op: DraftOp, doc: Doc)
    requires op.Route? && RouteAct(id, op, doc).Put?
    ensures Routes(op, doc, BodyOf(RouteAct(id, op, doc).doc))
  {
    var entry := HistoryEntry(op, doc);
    var base := RoutedBase(op, doc);
    var fields := Decision("approved", op.who, op.rationale, op.at, Status(doc), entry, History(doc));
    assert RouteAct(id, op, doc).doc == base + fields;
    RouteEntryIs(op, doc);
    RouteIsNamed(op, doc);
    JobIsReplaced(op, doc);
    RouteLeavesOthers(op, doc);
    DecisionIs("approved", op.who, op.rationale, op.at, Status(doc), entry, History(doc));
    RouteComplete(op, doc, base, fields, entry);
  }

  lemma RouteComplete(op: DraftOp, read: Doc, base: Doc, fields: Doc, entry: Doc)
    requires op.Route? && op.payload.Some? && RouteNamed(op, base) && JobReplaced(op, read, base)
    requires SameBut(read, base, {RoutedJobType, RoutedPayload, RouteName, RouteRationale, RouteChosenBy,
                                  RouteChosenAt, OriginalJobType, OriginalPayload, JobType, Payload})
    requires IsDecisionOf(fields, "approved", op.who, op.rationale, op.at, Status(read), History(read) + [Obj(entry)])
    requires DecisionRecorded(entry, Status(read), "approved", op.who, op.rationale, op.at)
    requires Get(entry, RouteName) == Str(op.route) && Get(entry, RouteRationale) == Str(op.routeRationale)
    ensures Routes(op, read, BodyOf(base + fields))
  {
    var body := BodyOf(base + fields);
    DecisionRecords(read, base, fields, "approved", op.who, op.rationale, op.at, entry);
    RouteStays(op, base, fields);
    ReplacementStays(op, read, base, fields);
    SameButChains(read, base, body, {RoutedJobType, RoutedPayload, RouteName, RouteRationale, RouteChosenBy,
                                     RouteChosenAt, OriginalJobType, OriginalPayload, JobType, Payload}, fields.Keys);
  }

  lemma EditChanges(id: string, op: DraftOp, doc: Doc)
    requires op.EditPayload? && EditAct(id, op, doc).Put?
    ensures Edits(op, doc, BodyOf(EditAct(id, op, doc).doc))
  {
  }

  lemma MarkChanges(id: string, op: DraftOp, doc: Doc)
    requires IsMark(op) && MarkAct(id, op, doc).Put?
    ensures Marks(op, doc, BodyOf(MarkAct(id, op, doc).doc))
  {
  }

  lemma DraftCarries(id: string, op: DraftOp, read: Option<Doc>)
    requires DraftAct(id, op, read).Put?
    ensures DraftAct(id, op, read).target == id && read.Some?
    ensures DraftChanges(op, read.value, BodyOf(DraftAct(id, op, read).doc))
  {
    var doc := read.value;
    match op
    case Review(_, _, _, _, _, _, _) => ReviewChanges(id, op, doc);
    case Route(_, _, _, _, _, _, _, _, _) => RouteChanges(id, op, doc);
    case EditPayload(_, _, _, _, _) => EditChanges(id, op, doc);
    case _ => MarkChanges(id, op, doc);
  }

  lemma DraftDocIs(base: Doc, draftId: string, jobType: string, status: string, payload: Doc, group: string,
                   source: string)
    requires RevKey !in base && ReviewHistory !in base && QueueMaterializedAt !in base
    ensures var doc := DraftDoc(base, draftId, jobType, status, payload, group, source);
            && Get(doc, DocId) == Str("job_draft_" + draftId) && Get(doc, TypeName) == Str("job_draft")
            && Get(doc, DraftId) == Str(draftId) && Get(doc, JobType) == Str(jobType)
            && Get(doc, Payload) == Obj(payload) && Get(doc, GroupId) == Str(group)
            && Get(doc, SourceName) == Str(source)
            && SameBut(base, doc, {TypeName, DraftId, JobType, Payload, ReviewStatus, GroupId, SourceName})
  {
  }

  lemma DetailsAre(draft: Doc)
    ensures TakesOverDraft(draft, DraftDetails(draft)) && TakesOverTexts(draft, DraftDetails(draft))
  {
  }

  /** What comes from the details of the draft is none of the fields that identify it. */
  predicate IsDetail(key: Key) {
    || key.ValidationError? || key.Confidence? || key.ReviewedBy? || key.ReviewedAt? || key.ReviewRationale?
    || key.ReviewHistory? || key.QueueMaterializedAt? || key.MessageText? || key.SiteId? || key.SubmitterName?
    || key.SourceCaptureId? || key.SourceKind? || key.CreatedAt?
  }

  lemma DetailStays(base: Doc, doc: Doc, key: Key)
    requires SameBut(base, doc, {TypeName, DraftId, JobType, Payload, ReviewStatus, GroupId, SourceName})
    requires IsDetail(key)
    ensures SameField(base, doc, key)
  {
  }

  lemma DetailsStay(draft: Doc, base: Doc, doc: Doc)
    requires TakesOverDraft(draft, base)
    requires SameBut(base, doc, {TypeName, DraftId, JobType, Payload, ReviewStatus, GroupId, SourceName})
    ensures TakesOverDraft(draft, doc)
  {
    DetailStays(base, doc, ValidationError);
    DetailStays(base, doc, Confidence);
    DetailStays(base, doc, ReviewedBy);
    DetailStays(base, doc, ReviewedAt);
    DetailStays(base, doc, ReviewRationale);
    DetailStays(base, doc, ReviewHistory);
    DetailStays(base, doc, QueueMaterializedAt);
  }

  lemma TextsStay(draft: Doc, base: Doc, doc: Doc)
    requires TakesOverTexts(draft, base)
    requires SameBut(base, doc, {TypeName, DraftId, JobType, Payload, ReviewStatus, GroupId, SourceName})
    ensures TakesOverTexts(draft, doc)
  {
    DetailStays(base, doc, MessageText);
    DetailStays(base, doc, SiteId);
    DetailStays(base, doc, SubmitterName);
    DetailStays(base, doc, SourceCaptureId);
    DetailStays(base, doc, SourceKind);
    DetailStays(base, doc, CreatedAt);
  }

  lemma BuiltDraftIs(draft: Doc, doc: Doc)
    requires BuildDraft(draft) == Some(doc)
    ensures IsBuiltDraft(draft, TextOf(doc[DocId]), doc)
  {
    var draftId := Text.Strip(TextOf(Get(draft, DraftId)));
    var base := DraftDetails(draft);
    var jobType := Text.Strip(TextOf(Get(draft, JobType)));
    var status := Text.Strip(TextOr(Get(draft, ReviewStatus), PENDING));
    DraftDocIs(base, draftId, jobType, status, ObjOf(Get(draft, Payload)), TextOr(Get(draft, GroupId), draftId),
               TextOr(Get(draft, SourceName), "field_capture_pipeline"));
    DefaultStatus(Get(draft, ReviewStatus));
  }

  lemma BuiltDraftTakesOver(draft: Doc, doc: Doc)
    requires BuildDraft(draft) == Some(doc)
    ensures TakesOverDraft(draft, doc) && TakesOverTexts(draft, doc)
  {
    var draftId := Text.Strip(TextOf(Get(draft, DraftId)));
    var base := DraftDetails(draft);
    var jobType := Text.Strip(TextOf(Get(draft, JobType)));
    var status := Text.Strip(TextOr(Get(draft, ReviewStatus), PENDING));
    DraftDocIs(base, draftId, jobType, status, ObjOf(Get(draft, Payload)), TextOr(Get(draft, GroupId), draftId),
               TextOr(Get(draft, SourceName), "field_capture_pipeline"));
    DetailsAre(draft);
    DetailsStay(draft, base, doc);
    TextsStay(draft, base, doc);
  }

  /** The default status has no outer blanks. */
  lemma DefaultStatus(v: Value)
    ensures Text.Strip(TextOr(v, PENDING)) == if Truthy(v) then Text.Strip(TextOf(v)) else "pending_approval"
  {
  }

  lemma DraftBody(draft: Doc, target: string, doc: Doc, rev: Value)
    requires IsBuiltDraft(draft, target, doc)
    ensures IsBuiltDraft(draft, target, BodyOf(doc)) && IsBuiltDraft(draft, target, BodyOf(doc[RevKey := rev]))
  {
  }

  lemma DraftBodyTakesOver(draft: Doc, doc: Doc, rev: Value)
    requires TakesOverDraft(draft, doc) && TakesOverTexts(draft, doc)
    ensures TakesOverDraft(draft, BodyOf(doc)) && TakesOverDraft(draft, BodyOf(doc[RevKey := rev]))
    ensures TakesOverTexts(draft, BodyOf(doc)) && TakesOverTexts(draft, BodyOf(doc[RevKey := rev]))
  {
  }

  lemma BuiltBodies(draft: Doc, built: Doc, rev: Value)
    requires BuildDraft(draft) == Some(built)
    ensures var target := TextOf(built[DocId]);
            && IsBuiltDraft(draft, target, BodyOf(built)) && IsBuiltDraft(draft, target, BodyOf(built[RevKey := rev]))
            && TakesOverDraft(draft, BodyOf(built)) && TakesOverDraft(draft, BodyOf(built[RevKey := rev]))
            && TakesOverTexts(draft, BodyOf(built)) && TakesOverTexts(draft, BodyOf(built[RevKey := rev]))
  {
    BuiltDraftIs(draft, built);
    BuiltDraftTakesOver(draft, built);
    DraftBody(draft, TextOf(built[DocId]), built, rev);
    DraftBodyTakesOver(draft, built, rev);
  }

  lemma UpsertDraftPuts(draft: Doc, expectedRev: Option<nat>, read: Option<Doc>, built: Doc)
    requires BuildDraft(draft) == Some(built) && UpsertDraftAct(draft, expectedRev, read).Put?
    ensures var act := UpsertDraftAct(draft, expectedRev, read);
            && act.target == TextOf(built[DocId])
            && (act.doc == built || (read.Some? && act.doc == built[RevKey := Get(read.value, RevKey)]))
  {
  }
}
