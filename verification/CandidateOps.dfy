// couchdb_candidate_writer.py: what each operation PUTs for the action candidate it has just read.
module CandidateOps {
  import opened Json
  import opened StoreOps
  import opened DraftOps
  import Text

  const PENDING_REVIEW := "pending_review"
  const CANDIDATE_STATUSES := {"pending_review", "approved", "rejected", "failed"}

  const CHANNEL_FIELDS := [SiteId, Area, VisitProposed, VisitType]
  const SOURCE_FIELDS := [Rationale, SourceText, Confidence]
  const WRITABLE_FIELDS := {SiteId, Area, VisitProposed, VisitType, Summary, Rationale, SourceText, Confidence}

  /** One operation on an action candidate; the fields of a patch are in the order in which they are listed. */
  datatype CandidateOp =
    | SetStatus(status: string, who: string, rationale: string, at: string, expectedRev: Option<nat>,
                prior: set<string>, reason: string)
    | PatchFields(fields: seq<(Key, Value)>, expectedRev: Option<nat>)
    | SetArchived(archived: bool, who: string, at: string, expectedRev: Option<nat>)
    | SetStagedAt(at: string, expectedRev: Option<nat>)

  // ---- Field patches ----

  /** One entry of the field patch added to the flat patch; none when it is not allowed. */
  function AddField(patch: Doc, key: Key, value: Value): (r: Option<Doc>)
    ensures r.Some? && patch.Keys <= WRITABLE_FIELDS ==> r.value.Keys <= WRITABLE_FIELDS
  {
    if key == ChannelMetadata then
      if value.Obj? && forall name <- value.fields :: name in CHANNEL_FIELDS then Some(patch + value.fields) else None
    else if key in WRITABLE_FIELDS then Some(patch[key := value])
    else None
  }

  /** `_normalized_action_candidate_field_patch`: later entries override earlier ones. */
  function NormalPatch(fields: seq<(Key, Value)>): (r: Option<Doc>)
    ensures r.Some? ==> r.value.Keys <= WRITABLE_FIELDS
  {
    if fields == [] then Some(map[])
    else
      var before, (key, value) := NormalPatch(fields[..|fields| - 1]), fields[|fields| - 1];
      if before.None? then None else AddField(before.value, key, value)
  }

  function Lower(s: string): string {
    seq(|s|, i requires 0 <= i < |s| => if 'A' <= s[i] <= 'Z' then (s[i] as int + 32) as char else s[i])
  }

  /** `_coerced_action_candidate_patch_value` */
  function Coerced(key: Key, value: Value): Value {
    if key == VisitProposed then
      match value
      case Bool(_) => value
      case Num(n) => Bool(n != 0)
      case _ => Bool(Lower(Text.Strip(TextOf(value))) in {"1", "true", "yes", "on"})
    else if key == Confidence then value
    else Str(TextOf(value))
  }

  /** `doc` with the listed keys of the patch set to their coerced values; the order of the keys does not matter. */
  function Overlay(doc: Doc, patch: Doc, keys: seq<Key>): (r: Doc)
    ensures forall key :: Get(r, key) == if key in keys && key in patch then Coerced(key, patch[key]) else Get(doc, key)
    ensures forall key :: key in r <==> key in doc || (key in keys && key in patch)
  {
    if keys == [] then doc
    else
      var before, last := Overlay(doc, patch, keys[..|keys| - 1]), keys[|keys| - 1];
      if last in patch then before[last := Coerced(last, patch[last])] else before
  }

  predicate Touches(patch: Doc, keys: seq<Key>) {
    exists key <- keys :: key in patch
  }

  /** A source target after the patch: its channel metadata and its copies of the source fields. */
  function PatchTarget(target: Doc, patch: Doc): Doc {
    var merged := Overlay(ObjOf(Get(target, ChannelMetadata)), patch, CHANNEL_FIELDS);
    var withMetadata := if Touches(patch, CHANNEL_FIELDS) then target[ChannelMetadata := Obj(merged)] else target;
    Overlay(withMetadata, patch, SOURCE_FIELDS)
  }

  /** The document with every source target patched; without any, `source_detail` becomes one. */
  function PatchTargets(doc: Doc, patch: Doc): Doc {
    var source, detail := Get(doc, SourceName), Get(doc, SourceDetail);
    var first := if source.Obj? then doc[SourceName := Obj(PatchTarget(source.fields, patch))] else doc;
    if detail.Obj? || !source.Obj? then first[SourceDetail := Obj(PatchTarget(ObjOf(detail), patch))] else first
  }

  function PatchEvidence(doc: Doc, patch: Doc): Doc {
    if Touches(patch, SOURCE_FIELDS) then
      doc[Evidence := Obj(Overlay(ObjOf(Get(doc, Evidence)), patch, SOURCE_FIELDS))]
    else doc
  }

  /** The document after `patch_action_candidate_fields`. */
  function Patched(doc: Doc, patch: Doc): Doc {
    Overlay(PatchEvidence(PatchTargets(doc, patch), patch), patch, [SiteId, Summary])
  }

  // ---- The operations ----

  function ReviewEntry(op: CandidateOp, prior: string): Doc
    requires op.SetStatus?
  {
    var entry := map[Reviewer := Str(op.who), ReviewedAt := Str(op.at), ReviewRationale := Str(op.rationale),
                     PriorStatus := Str(prior), CandidateStatus := Str(op.status)];
    if op.reason != "" then entry[Reason := Str(op.reason)] else entry
  }

  function StatusText(doc: Doc): string {
    TextOf(Get(doc, CandidateStatus))
  }

  function ReviewFields(op: CandidateOp, doc: Doc): (fields: Doc)
    requires op.SetStatus?
    ensures {DocId, RevKey, Evidence, SourceDetail, SourceName, StagedAt} !! fields.Keys
    ensures CandidateStatus in fields && fields[CandidateStatus] == Str(op.status)
  {
    map[CandidateStatus := Str(op.status), ReviewedAt := Str(op.at), ReviewedBy := Str(op.who),
        Reviewer := Str(op.who), ReviewRationale := Str(op.rationale), PriorStatus := Str(StatusText(doc)),
        ReviewHistory := Arr(History(doc) + [Obj(ReviewEntry(op, StatusText(doc)))])]
  }

  function ArchiveFields(op: CandidateOp, doc: Doc): Doc
    requires op.SetArchived?
  {
    if op.archived then doc[Archived := Bool(true)][ArchivedAt := Str(op.at)][ArchivedBy := Str(op.who)]
    else doc[Archived := Bool(false)] - {ArchivedAt, ArchivedBy}
  }

  /** Requests that are turned down before anything is read. */
  predicate Refused(op: CandidateOp) {
    match op
    case SetStatus(status, _, _, _, _, _, _) => status !in {"approved", "rejected"}
    case PatchFields(fields, _) => NormalPatch(fields).None?
    case _ => false
  }

  function CandidateAct(id: string, op: CandidateOp, snap: Option<Doc>): Act {
    if Refused(op) then Stop(Invalid)
    else
      match snap
      case None => Stop(Missing)
      case Some(doc) =>
        if op.SetStagedAt? && Truthy(Get(doc, StagedAt)) then Stop(AlreadyDecided)
        else if !op.SetStagedAt? && !Truthy(Get(doc, RevKey)) then Stop(Invalid)
        else if !RevMatches(op.expectedRev, doc) then Stop(AlreadyDecided)
        else
          match op
          case SetStatus(_, _, _, _, _, prior, _) =>
            if prior != {} && StatusText(doc) !in prior then Stop(AlreadyDecided)
            else Put(id, doc + ReviewFields(op, doc))
          case PatchFields(fields, _) => Put(id, Patched(doc, NormalPatch(fields).value))
          case SetArchived(_, _, _, _) => Put(id, ArchiveFields(op, doc))
          case SetStagedAt(at, _) => Put(id, doc[StagedAt := Str(at)])
  }

  // ---- Building a candidate ----

  /** The copies of the source fields; `extra` are the other fields of the holder. */
  function SourceCopies(candidate: Doc, extra: Doc): (r: Doc)
    ensures forall key <- SOURCE_FIELDS :: key in r
    ensures Get(r, Rationale) == Str(TextOf(Get(candidate, Rationale)))
    ensures Get(r, SourceText) == Str(TextOf(Get(candidate, SourceText)))
    ensures Get(r, Confidence) == Get(candidate, Confidence)
  {
    extra[SourceContext := Str(TextOf(Get(candidate, SourceContext)))]
         [Rationale := Str(TextOf(Get(candidate, Rationale)))]
         [SourceText := Str(TextOf(Get(candidate, SourceText)))]
         [Confidence := Get(candidate, Confidence)]
  }

  function EvidenceOf(candidate: Doc): Doc {
    var error := Get(candidate, ErrorPayload);
    SourceCopies(candidate, if error == Null then map[] else map[ErrorPayload := error])
  }

  function DetailOf(candidate: Doc): Doc {
    SourceCopies(candidate, map[
      ArtifactType := Str(TextOf(Get(candidate, TypeName))),
      Provenance := Obj(ObjOf(Get(candidate, Provenance))),
      ChannelMetadata := Obj(ObjOf(Get(candidate, ChannelMetadata))),
      ApprovalMetadata := Obj(ObjOf(Get(candidate, ApprovalMetadata))),
      ErrorPayload := Get(candidate, ErrorPayload)])
  }

  const COPIED_TEXTS := {CandidateType, Summary, CreatedAt, ReviewedAt, ReviewRationale, ArchivedAt, ArchivedBy}

  /** The first truthy value as text. */
  function FirstText(values: seq<Value>): string {
    if values == [] then "" else if Truthy(values[0]) then TextOf(values[0]) else FirstText(values[1..])
  }

  function CandidateTexts(candidate: Doc): (doc: Doc)
    ensures RevKey !in doc && StagedAt !in doc
  {
    var texts := map key | key in COPIED_TEXTS :: Str(TextOf(Get(candidate, key)));
    texts[SiteId := Str(FirstText([Get(candidate, SiteId), Get(ObjOf(Get(candidate, ChannelMetadata)), SiteId),
                                   Get(ObjOf(Get(candidate, Provenance)), SiteId)]))]
         [ReviewedBy := Str(FirstText([Get(candidate, ReviewedBy), Get(candidate, Reviewer)]))]
         [Archived := Bool(Get(candidate, Archived) == Bool(true))]
  }

  /** `base` with the fields that identify a candidate and hold its two copies of the source fields. */
  function CandidateDoc(base: Doc, candidateId: string, status: string, evidence: Doc, detail: Doc): (doc: Doc)
    requires RevKey !in base && StagedAt !in base
    ensures DocId in doc && RevKey !in doc && StagedAt !in doc
    ensures Get(doc, Evidence) == Obj(evidence) && Get(doc, SourceDetail) == Obj(detail)
    ensures Get(doc, CandidateStatus) == Str(status) && Get(doc, DocId) == Str("action_candidate_" + candidateId)
  {
    base[DocId := Str("action_candidate_" + candidateId)][TypeName := Str("action_candidate")]
        [CandidateId := Str(candidateId)][CandidateStatus := Str(status)]
        [SourceName := Str("field_capture_pipeline")][Evidence := Obj(evidence)][SourceDetail := Obj(detail)]
  }

  /** `build_action_candidate_document`; none when the candidate is refused. */
  function BuildCandidate(candidate: Doc): (doc: Option<Doc>)
    ensures doc.Some? ==> DocId in doc.value && RevKey !in doc.value
  {
    var candidateId := Text.Strip(TextOf(Get(candidate, CandidateId)));
    var status := Text.Strip(TextOf(Get(candidate, CandidateStatus)));
    if candidateId == "" || status !in CANDIDATE_STATUSES then None
    else Some(CandidateDoc(CandidateTexts(candidate), candidateId, status, EvidenceOf(candidate), DetailOf(candidate)))
  }

  lemma BuiltCopies(candidate: Doc)
    requires BuildCandidate(candidate).Some?
    ensures Get(BuildCandidate(candidate).value, Evidence) == Obj(EvidenceOf(candidate))
    ensures Get(BuildCandidate(candidate).value, SourceDetail) == Obj(DetailOf(candidate))
  {
  }

  /** `upsert_action_candidate`: the freshly built document replaces whatever is stored. */
  function UpsertCandidateAct(candidate: Doc, snap: Option<Doc>): Act {
    match BuildCandidate(candidate)
    case None => Stop(Invalid)
    case Some(doc) =>
      if snap.Some? && Truthy(Get(snap.value, RevKey)) then
        Put(TextOf(doc[DocId]), doc[RevKey := Get(snap.value, RevKey)])
      else Put(TextOf(doc[DocId]), doc)
  }
}
