// couchdb_job_draft_writer.py: what each review operation PUTs for the draft it has just read.
module DraftOps {
  import opened Json
  import opened StoreOps
  import Text

  const PENDING := "pending_approval"
  const REVIEW_STATUSES := {"pending_approval", "approved", "rejected"}

  /** One operation on a job draft. `at` is the clock reading the operation takes; `payload` is none when the
      caller passed something that is not an object; an empty `prior` switches the status check off. */
  datatype DraftOp =
    | Review(status: string, who: string, rationale: string, at: string, expectedRev: Option<nat>, prior: set<string>,
             reason: string)
    | Route(route: string, jobType: string, payload: Option<Doc>, who: string, rationale: string,
            routeRationale: string, at: string, expectedRev: Option<nat>, prior: set<string>)
    | EditPayload(payload: Option<Doc>, validationError: Value, who: string, at: string, expectedRev: Option<nat>)
    | Materialize(at: string, expectedRev: Option<nat>)
    | NoAction(at: string, expectedRev: Option<nat>)

  predicate RevMatches(expectedRev: Option<nat>, doc: Doc) {
    expectedRev.Some? ==> Get(doc, RevKey) == Rev(expectedRev.value)
  }

  function Status(doc: Doc): string {
    TextOf(Get(doc, ReviewStatus))
  }

  function History(doc: Doc): seq<Value> {
    ListOf(Get(doc, ReviewHistory))
  }

  predicate StatusAllowed(prior: set<string>, doc: Doc) {
    prior == {} || Status(doc) in prior
  }

  /** The fields every decision sets. */
  function Decision(status: string, who: string, rationale: string, at: string, prior: string, entry: Doc,
                    history: seq<Value>): (fields: Doc)
    ensures {DocId, RevKey, Payload, JobType, OriginalPayload, OriginalJobType, QueueMaterializedAt}
            !! fields.Keys
  {
    map[ReviewStatus := Str(status), ReviewedAt := Str(at), ReviewedBy := Str(who), Reviewer := Str(who),
        ReviewRationale := Str(rationale), PriorStatus := Str(prior),
        ReviewHistory := Arr(history + [Obj(entry)])]
  }

  function DecisionEntry(status: string, who: string, rationale: string, at: string, prior: string): Doc {
    map[Reviewer := Str(who), ReviewedAt := Str(at), ReviewRationale := Str(rationale),
        PriorStatus := Str(prior), ReviewStatus := Str(status)]
  }

  predicate IsMark(op: DraftOp) {
    op.Materialize? || op.NoAction?
  }

  /** The history entry that a decision or a payload edit appends. */
  function HistoryEntry(op: DraftOp, doc: Doc): Doc
    requires !IsMark(op)
  {
    match op
    case Review(status, who, rationale, at, _, _, reason) =>
      var entry := DecisionEntry(status, who, rationale, at, Status(doc));
      if reason != "" then entry[Reason := Str(reason)] else entry
    case Route(route, _, _, who, rationale, routeRationale, at, _, _) =>
      DecisionEntry("approved", who, rationale, at, Status(doc))
        [RouteName := Str(route)][RouteRationale := Str(routeRationale)]
    case EditPayload(_, _, who, at, _) =>
      map[Editor := Str(who), EditedAt := Str(at), PriorStatus := Str(Status(doc)),
          ReviewStatus := Str(Status(doc)), Action := Str("edit_payload")]
  }

  /** `set_job_draft_review_status` */
  function ReviewAct(id: string, op: DraftOp, doc: Doc): Act
    requires op.Review?
  {
    if !RevMatches(op.expectedRev, doc) then Stop(AlreadyDecided)
    else if !StatusAllowed(op.prior, doc) then Stop(AlreadyDecided)
    else
      Put(id, doc + Decision(op.status, op.who, op.rationale, op.at, Status(doc), HistoryEntry(op, doc), History(doc)))
  }

  /** What a routed approval replaces. */
  function OriginalFields(doc: Doc): Doc {
    map[OriginalJobType := Str(TextOf(Get(doc, JobType))),
        OriginalPayload := Obj(ObjOf(Get(doc, Payload)))]
  }

  /** The fields that describe the route. */
  function RouteFields(op: DraftOp, routed: Doc): (fields: Doc)
    requires op.Route?
    ensures {DocId, RevKey, Payload, JobType, ReviewStatus, ReviewHistory, QueueMaterializedAt}
            !! fields.Keys
  {
    map[RoutedJobType := Str(op.jobType), RoutedPayload := Obj(routed), RouteName := Str(op.route),
        RouteChosenBy := Str(op.who), RouteChosenAt := Str(op.at),
        RouteRationale := Str(op.routeRationale)]
  }

  /** `set_job_draft_approval_route_and_review_status` */
  function RouteAct(id: string, op: DraftOp, doc: Doc): Act
    requires op.Route?
  {
    if !RevMatches(op.expectedRev, doc) then Stop(AlreadyDecided)
    else if !StatusAllowed(op.prior, doc) then Stop(AlreadyDecided)
    else if op.payload.None? then Stop(Invalid)
    else
      var routed := op.payload.value;
      var replaced := if op.jobType != "" then doc[JobType := Str(op.jobType)][Payload := Obj(routed)] else doc;
      Put(id, replaced + RouteFields(op, routed) + OriginalFields(doc)
          + Decision("approved", op.who, op.rationale, op.at, Status(doc), HistoryEntry(op, doc), History(doc)))
  }

  /** `set_job_draft_payload` */
  function EditAct(id: string, op: DraftOp, doc: Doc): Act
    requires op.EditPayload?
  {
    if !RevMatches(op.expectedRev, doc) then Stop(AlreadyDecided)
    else if Status(doc) != PENDING then Stop(AlreadyDecided)
    else if op.payload.None? then Stop(Invalid)
    else
      Put(id, doc + map[Payload := Obj(op.payload.value), ValidationError := op.validationError,
                        EditedAt := Str(op.at), EditedBy := Str(op.who),
                        ReviewHistory := Arr(History(doc) + [Obj(HistoryEntry(op, doc))])])
  }

  /** `set_job_draft_queue_materialized_at` and `set_job_draft_queue_no_action_at` */
  function MarkAct(id: string, op: DraftOp, doc: Doc): Act
    requires IsMark(op)
  {
    if Truthy(Get(doc, QueueMaterializedAt)) then Stop(AlreadyDecided)
    else if !Truthy(Get(doc, RevKey)) then Stop(Invalid)
    else if !RevMatches(op.expectedRev, doc) then Stop(AlreadyDecided)
    else if op.Materialize? then Put(id, doc[QueueMaterializedAt := Str(op.at)])
    else Put(id, doc[QueueMaterializedAt := Str(op.at)][QueueMaterializedAs := Str("no_action")]
                    [QueueNoActionAt := Str(op.at)])
  }

  function DraftAct(id: string, op: DraftOp, snap: Option<Doc>): Act {
    if op.Review? && op.status !in {"approved", "rejected"} then Stop(Invalid)
    else
      match snap
      case None => Stop(Missing)
      case Some(doc) =>
        if IsMark(op) then MarkAct(id, op, doc)
        else if !Truthy(Get(doc, RevKey)) then Stop(Invalid)
        else if op.Review? then ReviewAct(id, op, doc)
        else if op.Route? then RouteAct(id, op, doc)
        else EditAct(id, op, doc)
  }

  const RAW_FIELDS := {ValidationError, Confidence, ReviewedBy, ReviewedAt, ReviewRationale}
  const TEXT_FIELDS := {MessageText, SiteId, SubmitterName, SourceCaptureId, SourceKind, CreatedAt}

  /** `str(value or default)` */
  function TextOr(v: Value, default: string): string {
    if Truthy(v) then TextOf(v) else default
  }

  /** The fields of a draft document that are copied, as they are or as text. */
  function DraftDetails(draft: Doc): (doc: Doc)
    ensures RevKey !in doc && ReviewHistory !in doc && QueueMaterializedAt !in doc
  {
    (map key | key in RAW_FIELDS :: Get(draft, key)) + (map key | key in TEXT_FIELDS :: Str(TextOf(Get(draft, key))))
  }

  /** `base` with the fields that identify a draft and the job it proposes. */
  function DraftDoc(base: Doc, draftId: string, jobType: string, status: string, payload: Doc, group: string,
                    source: string): (doc: Doc)
    requires RevKey !in base && ReviewHistory !in base && QueueMaterializedAt !in base
    ensures DocId in doc && RevKey !in doc && ReviewHistory !in doc && QueueMaterializedAt !in doc
    ensures Get(doc, ReviewStatus) == Str(status)
  {
    base[DocId := Str("job_draft_" + draftId)][TypeName := Str("job_draft")][DraftId := Str(draftId)]
        [JobType := Str(jobType)][Payload := Obj(payload)][ReviewStatus := Str(status)][GroupId := Str(group)]
        [SourceName := Str(source)]
  }

  /** `build_job_draft_document`, for a draft whose text fields are already text. None when the draft is refused. */
  function BuildDraft(draft: Doc): (doc: Option<Doc>)
    ensures doc.Some? ==> DocId in doc.value && RevKey !in doc.value && ReviewHistory !in doc.value
    ensures doc.Some? ==> Get(doc.value, ReviewStatus).Str? && QueueMaterializedAt !in doc.value
  {
    var draftId := Text.Strip(TextOf(Get(draft, DraftId)));
    var jobType := Text.Strip(TextOf(Get(draft, JobType)));
    var status := Text.Strip(TextOr(Get(draft, ReviewStatus), PENDING));
    if draftId == "" || jobType == "" || status !in REVIEW_STATUSES then None
    else Some(DraftDoc(DraftDetails(draft), draftId, jobType, status, ObjOf(Get(draft, Payload)),
                       TextOr(Get(draft, GroupId), draftId), TextOr(Get(draft, SourceName), "field_capture_pipeline")))
  }

  /** The freshly built document replaces whatever is stored, history included. */
  function UpsertBuilt(doc: Doc, expectedRev: Option<nat>, snap: Option<Doc>): Act
    requires DocId in doc
  {
    if snap.Some? && Truthy(Get(snap.value, RevKey)) then
      if !RevMatches(expectedRev, snap.value) then Stop(Invalid)
      else Put(TextOf(doc[DocId]), doc[RevKey := Get(snap.value, RevKey)])
    else if expectedRev.Some? then Stop(Invalid)
    else Put(TextOf(doc[DocId]), doc)
  }

  /** `upsert_job_draft` */
  function UpsertDraftAct(draft: Doc, expectedRev: Option<nat>, snap: Option<Doc>): Act {
    match BuildDraft(draft)
    case None => Stop(Invalid)
    case Some(doc) => UpsertBuilt(doc, expectedRev, snap)
  }
}
