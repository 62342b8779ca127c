// JSON documents as the CouchDB clients see them.
module Json {
  datatype Option<+T> = None | Some(value: T)

  /** Field names: those the modelled code mentions, and any other. */
  datatype Key =
    | RevKey
    | ReviewStatus
    | ReviewHistory
    | DocId
    | Payload
    | JobType
    | OriginalPayload
    | OriginalJobType
    | QueueMaterializedAt
    | ReviewedAt
    | ReviewedBy
    | Reviewer
    | ReviewRationale
    | PriorStatus
    | Reason
    | RouteName
    | RouteRationale
    | Editor
    | EditedAt
    | Action
    | RoutedJobType
    | RoutedPayload
    | RouteChosenBy
    | RouteChosenAt
    | ValidationError
    | EditedBy
    | QueueMaterializedAs
    | QueueNoActionAt
    | Confidence
    | MessageText
    | SiteId
    | SubmitterName
    | SourceCaptureId
    | SourceKind
    | CreatedAt
    | TypeName
    | DraftId
    | GroupId
    | SourceName
    | BtqState
    | ErrorReason
    | JobId
    | CreatedBy
    | Metadata
    | Intent
    | IdempotencyKey
    | CandidateStatus
    | CandidateId
    | CandidateType
    | Summary
    | Evidence
    | SourceDetail
    | Rationale
    | SourceText
    | SourceContext
    | ChannelMetadata
    | Area
    | VisitProposed
    | VisitType
    | Archived
    | ArchivedAt
    | ArchivedBy
    | StagedAt
    | Provenance
    | ApprovalMetadata
    | ErrorPayload
    | ArtifactType
    | Other(name: string)

  /** A JSON value. `Rev` is the opaque revision text that the server puts into `_rev`. */
  datatype Value =
    | Null
    | Bool(b: bool)
    | Num(n: int)
    | Str(s: string)
    | Rev(r: nat)
    | Arr(items: seq<Value>)
    | Obj(fields: map<Key, Value>)

  type Doc = map<Key, Value>

  /** `doc.get(key)`: a missing key reads as null. */
  function Get(doc: Doc, key: Key): Value {
    if key in doc then doc[key] else Null
  }

  /** Both documents have the field with one value, or neither has it. */
  predicate SameField(a: Doc, b: Doc, key: Key) {
    (key in a <==> key in b) && (key in a ==> a[key] == b[key])
  }

  /** Both documents agree on every field outside `changed`, the two that the server keeps apart. */
  ghost predicate SameBut(a: Doc, b: Doc, changed: set<Key>) {
    forall key :: key !in changed && key != DocId && key != RevKey ==> SameField(a, b, key)
  }

  predicate Truthy(v: Value) {
    match v
    case Null => false
    case Bool(b) => b
    case Num(n) => n != 0
    case Str(s) => s != ""
    case Rev(_) => true
    case Arr(items) => items != []
    case Obj(fields) => fields != map[]
  }

  /** `str(value or "")`. Only strings have a meaningful text here; any other truthy value gets one fixed text. */
  function TextOf(v: Value): string {
    if !Truthy(v) then "" else if v.Str? then v.s else "<value>"
  }

  /** `value if isinstance(value, list) else []`. */
  function ListOf(v: Value): seq<Value> {
    if v.Arr? then v.items else []
  }

  /** `value if isinstance(value, dict) else {}`. */
  function ObjOf(v: Value): Doc {
    if v.Obj? then v.fields else map[]
  }

  lemma SameButChains(a: Doc, b: Doc, c: Doc, first: set<Key>, second: set<Key>)
    requires SameBut(a, b, first) && SameBut(b, c, second)
    ensures SameBut(a, c, first + second)
  {
    forall key | key !in first + second && key != DocId && key != RevKey
      ensures SameField(a, c, key)
    {
      assert SameField(a, b, key) && SameField(b, c, key);
    }
  }
}
