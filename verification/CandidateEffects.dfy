// What each operation leaves in an action candidate, field by field, in terms of its request and of the candidate it
// read.
module CandidateEffects {
  import opened Json
  import opened Couch
  import opened StoreOps
  import opened DraftOps
  import opened CandidateOps
  import opened DraftEffects
  import Text

  ghost predicate SetsStatus(op: CandidateOp, read: Doc, body: Doc)
    requires op.SetStatus?
  {
    && Get(body, CandidateStatus) == Str(op.status) && Get(body, PriorStatus) == Str(StatusText(read))
    && Get(body, ReviewedBy) == Str(op.who) && Get(body, Reviewer) == Str(op.who)
    && Get(body, ReviewedAt) == Str(op.at) && Get(body, ReviewRationale) == Str(op.rationale) && OneEntryMore(read, body)
    && Get(LastEntry(read, body), Reviewer) == Str(op.who) && Get(LastEntry(read, body), ReviewedAt) == Str(op.at)
    && Get(LastEntry(read, body), ReviewRationale) == Str(op.rationale)
    && Get(LastEntry(read, body), PriorStatus) == Str(StatusText(read))
    && Get(LastEntry(read, body), CandidateStatus) == Str(op.status)
    && Get(LastEntry(read, body), Reason) == (if op.reason == "" then Null else Str(op.reason))
    && SameBut(read, body, {CandidateStatus, PriorStatus, ReviewedBy, Reviewer, ReviewedAt, ReviewRationale,
                            ReviewHistory})
  }

  /** Archiving sets the flag, the time and the person; its reversal clears them. */
  ghost predicate Archives(op: CandidateOp, read: Doc, body: Doc)
    requires op.SetArchived?
  {
    && Get(body, Archived) == Bool(op.archived) && SameBut(read, body, {Archived, ArchivedAt, ArchivedBy})
    && (if op.archived then Get(body, ArchivedAt) == Str(op.at) && Get(body, ArchivedBy) == Str(op.who)
        else ArchivedAt !in body && ArchivedBy !in body)
  }

  /** The listed fields of the patch are set, coerced; the other fields are as before. */
  ghost predicate Overlaid(before: Doc, after: Doc, patch: Doc, keys: seq<Key>) {
    forall key :: if key in keys && key in patch then key in after && after[key] == Coerced(key, patch[key])
                  else SameField(before, after, key)
  }

  /** A field patch names one of these fields. */
  predicate Names(patch: Doc, keys: seq<Key>) {
    exists key <- keys :: key in patch
  }

  /** A holder of source fields after a patch: its source fields, and the channel fields inside its channel metadata. */
  ghost predicate SourcePatched(before: Doc, after: Doc, patch: Doc) {
    && (forall key :: key != ChannelMetadata ==>
          if key in [Rationale, SourceText, Confidence] && key in patch then
            key in after && after[key] == Coerced(key, patch[key])
          else SameField(before, after, key))
    && (if Names(patch, [SiteId, Area, VisitProposed, VisitType]) then
          && Get(after, ChannelMetadata).Obj?
          && Overlaid(ObjOf(Get(before, ChannelMetadata)), Get(after, ChannelMetadata).fields, patch,
                      [SiteId, Area, VisitProposed, VisitType])
        else SameField(before, after, ChannelMetadata))
  }

  /** The holders of source fields in the document after their part of the patch. */
  ghost predicate HoldersPatched(patch: Doc, read: Doc, body: Doc) {
    && (if Get(read, SourceName).Obj? then
          Get(body, SourceName).Obj?
          && SourcePatched(Get(read, SourceName).fields, Get(body, SourceName).fields, patch)
        else SameField(read, body, SourceName))
    && (if Get(read, SourceDetail).Obj? || !Get(read, SourceName).Obj? then
          Get(body, SourceDetail).Obj?
          && SourcePatched(ObjOf(Get(read, SourceDetail)), Get(body, SourceDetail).fields, patch)
        else SameField(read, body, SourceDetail))
  }

  ghost predicate EvidencePatched(patch: Doc, read: Doc, body: Doc) {
    if Names(patch, [Rationale, SourceText, Confidence]) then
      Get(body, Evidence).Obj?
      && Overlaid(ObjOf(Get(read, Evidence)), Get(body, Evidence).fields, patch, [Rationale, SourceText, Confidence])
    else SameField(read, body, Evidence)
  }

  predicate TextPatched(patch: Doc, read: Doc, body: Doc, key: Key) {
    if key in patch then Get(body, key) == Str(TextOf(patch[key])) else SameField(read, body, key)
  }

  /** A field patch: `source` and `source_detail` where they are objects, the latter also when neither is; the evidence
      when a source field is named; the site and the summary when they are named; nothing else. */
  ghost predicate FieldsPatched(patch: Doc, read: Doc, body: Doc) {
    && HoldersPatched(patch, read, body) && EvidencePatched(patch, read, body)
    && TextPatched(patch, read, body, SiteId) && TextPatched(patch, read, body, Summary)
    && SameBut(read, body, {SourceName, SourceDetail} + {Evidence} + {SiteId, Summary})
  }

  ghost predicate CandidateChanges(op: CandidateOp, read: Doc, body: Doc) {
    match op
    case SetStatus(_, _, _, _, _, _, _) => SetsStatus(op, read, body)
    case PatchFields(fields, _) => NormalPatch(fields).Some? && FieldsPatched(NormalPatch(fields).value, read, body)
    case SetArchived(_, _, _, _) => Archives(op, read, body)
    case SetStagedAt(at, _) => Get(body, StagedAt) == Str(at) && SameBut(read, body, {StagedAt})
  }

  /** A candidate as it is built: identity, status and texts from the request. */
  ghost predicate IsBuiltCandidate(candidate: Doc, target: string, body: Doc) {
    var candidateId := Text.Strip(TextOf(Get(candidate, CandidateId)));
    && candidateId != "" && target == "action_candidate_" + candidateId
    && Get(body, CandidateId) == Str(candidateId) && Get(body, TypeName) == Str("action_candidate")
    && Get(body, CandidateStatus) == Str(Text.Strip(TextOf(Get(candidate, CandidateStatus))))
    && Get(body, Evidence).Obj? && HoldsSource(candidate, Get(body, Evidence).fields)
    && Get(body, SourceDetail).Obj? && HoldsSource(candidate, Get(body, SourceDetail).fields)
  }

  /** The texts that a built candidate takes over, and the fields it cannot have. */
  predicate TakesOverCandidate(candidate: Doc, body: Doc) {
    && Get(body, CandidateType) == Str(TextOf(Get(candidate, CandidateType)))
    && Get(body, Summary) == Str(TextOf(Get(candidate, Summary)))
    && Get(body, CreatedAt) == Str(TextOf(Get(candidate, CreatedAt)))
    && Get(body, Archived) == Bool(Get(candidate, Archived) == Bool(true))
    && ReviewHistory !in body && StagedAt !in body
  }

  /** The site is the first one given: by the candidate, its channel metadata or its provenance. */
  predicate NamesSite(candidate: Doc, body: Doc) {
    var channel := Get(ObjOf(Get(candidate, ChannelMetadata)), SiteId);
    var provenance := Get(ObjOf(Get(candidate, Provenance)), SiteId);
    Get(body, SiteId) == Str(if Truthy(Get(candidate, SiteId)) then TextOf(Get(candidate, SiteId))
                             else if Truthy(channel) then TextOf(channel) else TextOf(provenance))
  }

  predicate HoldsSource(candidate: Doc, holder: Doc) {
    && Get(holder, Rationale) == Str(TextOf(Get(candidate, Rationale)))
    && Get(holder, SourceText) == Str(TextOf(Get(candidate, SourceText)))
    && Get(holder, SourceContext) == Str(TextOf(Get(candidate, SourceContext)))
    && Get(holder, Confidence) == Get(candidate, Confidence)
  }

  /** What a built candidate takes over of an earlier review and archiving. */
  predicate TakesOverReview(candidate: Doc, body: Doc) {
    && Get(body, ReviewedAt) == Str(TextOf(Get(candidate, ReviewedAt)))
    && Get(body, ReviewRationale) == Str(TextOf(Get(candidate, ReviewRationale)))
    && Get(body, ReviewedBy) == Str(if Truthy(Get(candidate, ReviewedBy)) then TextOf(Get(candidate, ReviewedBy))
                                    else TextOf(Get(candidate, Reviewer)))
    && Get(body, ArchivedAt) == Str(TextOf(Get(candidate, ArchivedAt)))
    && Get(body, ArchivedBy) == Str(TextOf(Get(candidate, ArchivedBy)))
  }

  /** Where a candidate comes from: kind, provenance and metadata in the source detail, an error in both copies. */
  predicate HoldsOrigin(candidate: Doc, evidence: Doc, detail: Doc) {
    && Get(detail, ArtifactType) == Str(TextOf(Get(candidate, TypeName)))
    && Get(detail, Provenance) == Obj(ObjOf(Get(candidate, Provenance)))
    && Get(detail, ChannelMetadata) == Obj(ObjOf(Get(candidate, ChannelMetadata)))
    && Get(detail, ApprovalMetadata) == Obj(ObjOf(Get(candidate, ApprovalMetadata)))
    && Get(detail, ErrorPayload) == Get(candidate, ErrorPayload)
    && Get(evidence, ErrorPayload) == Get(candidate, ErrorPayload)
  }

  lemma StatusChanges(op: CandidateOp, doc: Doc)
    requires op.SetStatus?
    ensures SetsStatus(op, doc, BodyOf(doc + ReviewFields(op, doc)))
  {
  }

  lemma ArchiveChanges(op: CandidateOp, doc: Doc)
    requires op.SetArchived?
    ensures Archives(op, doc, BodyOf(ArchiveFields(op, doc)))
  {
  }

  lemma MetadataPatched(target: Doc, patch: Doc)
    ensures var merged := Overlay(ObjOf(Get(target, ChannelMetadata)), patch, CHANNEL_FIELDS);
            Overlaid(ObjOf(Get(target, ChannelMetadata)), merged, patch, [SiteId, Area, VisitProposed, VisitType])
  {
  }

  /** The source fields laid over a holder whose channel metadata are done. */
  lemma SourceFieldsPatched(target: Doc, middle: Doc, patch: Doc)
    requires forall key :: key != ChannelMetadata ==> SameField(target, middle, key)
    requires if Names(patch, [SiteId, Area, VisitProposed, VisitType]) then
               Get(middle, ChannelMetadata).Obj?
               && Overlaid(ObjOf(Get(target, ChannelMetadata)), Get(middle, ChannelMetadata).fields, patch,
                           [SiteId, Area, VisitProposed, VisitType])
             else SameField(target, middle, ChannelMetadata)
    ensures SourcePatched(target, Overlay(middle, patch, SOURCE_FIELDS), patch)
  {
    var after := Overlay(middle, patch, SOURCE_FIELDS);
    OverlayAt(middle, patch, SOURCE_FIELDS, ChannelMetadata);
    forall key | key != ChannelMetadata
      ensures if key in [Rationale, SourceText, Confidence] && key in patch then
                key in after && after[key] == Coerced(key, patch[key])
              else SameField(target, after, key)
    {
      OverlayAt(middle, patch, SOURCE_FIELDS, key);
      assert SameField(target, middle, key);
    }
  }

  lemma OverlayAt(doc: Doc, patch: Doc, keys: seq<Key>, key: Key)
    ensures var after := Overlay(doc, patch, keys);
            if key in keys && key in patch then key in after && after[key] == Coerced(key, patch[key])
            else SameField(doc, after, key)
  {
    var after := Overlay(doc, patch, keys);
    assert Get(after, key) == if key in keys && key in patch then Coerced(key, patch[key]) else Get(doc, key);
    assert key in after <==> key in doc || (key in keys && key in patch);
  }

  lemma TargetPatched(target: Doc, patch: Doc)
    ensures SourcePatched(target, PatchTarget(target, patch), patch)
  {
    var merged := Overlay(ObjOf(Get(target, ChannelMetadata)), patch, CHANNEL_FIELDS);
    var middle := if Touches(patch, CHANNEL_FIELDS) then target[ChannelMetadata := Obj(merged)] else target;
    MetadataPatched(target, patch);
    SourceFieldsPatched(target, middle, patch);
  }

  lemma HoldersOnly(doc: Doc, patch: Doc)
    ensures SameBut(doc, PatchTargets(doc, patch), {SourceName, SourceDetail})
  {
  }

  lemma HoldersAfter(doc: Doc, patch: Doc)
    ensures HoldersPatched(patch, doc, PatchTargets(doc, patch))
  {
    TargetPatched(ObjOf(Get(doc, SourceName)), patch);
    TargetPatched(ObjOf(Get(doc, SourceDetail)), patch);
    HoldersAre(doc, patch, PatchTarget(ObjOf(Get(doc, SourceName)), patch),
               PatchTarget(ObjOf(Get(doc, SourceDetail)), patch), PatchTargets(doc, patch));
  }

  lemma HoldersAre(doc: Doc, patch: Doc, source: Doc, detail: Doc, body: Doc)
    requires SourcePatched(ObjOf(Get(doc, SourceName)), source, patch)
    requires SourcePatched(ObjOf(Get(doc, SourceDetail)), detail, patch)
    requires if Get(doc, SourceName).Obj? then Get(body, SourceName) == Obj(source) else SameField(doc, body, SourceName)
    requires if Get(doc, SourceDetail).Obj? || !Get(doc, SourceName).Obj? then Get(body, SourceDetail) == Obj(detail)
             else SameField(doc, body, SourceDetail)
    ensures HoldersPatched(patch, doc, body)
  {
  }

  lemma EvidenceAfter(doc: Doc, patch: Doc)
    ensures SameBut(doc, PatchEvidence(doc, patch), {Evidence}) && EvidencePatched(patch, doc, PatchEvidence(doc, patch))
  {
    var evidence := ObjOf(Get(doc, Evidence));
    forall key
      ensures if key in [Rationale, SourceText, Confidence] && key in patch then
                var after := Overlay(evidence, patch, SOURCE_FIELDS);
                key in after && after[key] == Coerced(key, patch[key])
              else SameField(evidence, Overlay(evidence, patch, SOURCE_FIELDS), key)
    {
      OverlayAt(evidence, patch, SOURCE_FIELDS, key);
    }
  }

  lemma TextsOnly(doc: Doc, patch: Doc, keys: seq<Key>)
    ensures SameBut(doc, Overlay(doc, patch, keys), set key <- keys)
  {
    forall key | key !in keys
      ensures SameField(doc, Overlay(doc, patch, keys), key)
    {
      OverlayAt(doc, patch, keys, key);
    }
  }

  lemma TextAfter(doc: Doc, patch: Doc, key: Key)
    requires key.SiteId? || key.Summary?
    ensures TextPatched(patch, doc, Overlay(doc, patch, [SiteId, Summary]), key)
  {
    OverlayAt(doc, patch, [SiteId, Summary], key);
  }

  lemma TextsAfter(doc: Doc, patch: Doc)
    ensures var after := Overlay(doc, patch, [SiteId, Summary]);
            && SameBut(doc, after, {SiteId, Summary})
            && TextPatched(patch, doc, after, SiteId) && TextPatched(patch, doc, after, Summary)
  {
    TextsOnly(doc, patch, [SiteId, Summary]);
    assert (set key <- [SiteId, Summary]) == {SiteId, Summary};
    TextAfter(doc, patch, SiteId);
    TextAfter(doc, patch, Summary);
  }

  /** The three parts of a patch put together. */
  lemma PartsOfPatch(patch: Doc, read: Doc, first: Doc, second: Doc, body: Doc)
    requires SameBut(read, first, {SourceName, SourceDetail}) && HoldersPatched(patch, read, first)
    requires SameBut(first, second, {Evidence}) && EvidencePatched(patch, first, second)
    requires SameBut(second, body, {SiteId, Summary})
    requires TextPatched(patch, second, body, SiteId) && TextPatched(patch, second, body, Summary)
    ensures FieldsPatched(patch, read, body)
  {
    HoldersLast(patch, read, first, second, body);
    EvidenceLasts(patch, read, first, second, body);
    SameButChains(read, first, second, {SourceName, SourceDetail}, {Evidence});
    SameButChains(read, second, body, {SourceName, SourceDetail} + {Evidence}, {SiteId, Summary});
    FieldBefore(read, first, second, SiteId);
    FieldBefore(read, first, second, Summary);
  }

  lemma FieldBefore(read: Doc, first: Doc, second: Doc, key: Key)
    requires SameBut(read, first, {SourceName, SourceDetail}) && SameBut(first, second, {Evidence})
    requires key.SiteId? || key.Summary?
    ensures SameField(read, second, key)
  {
    assert SameField(read, first, key) && SameField(first, second, key);
  }

  lemma HoldersLast(patch: Doc, read: Doc, first: Doc, second: Doc, body: Doc)
    requires HoldersPatched(patch, read, first)
    requires SameBut(first, second, {Evidence}) && SameBut(second, body, {SiteId, Summary})
    ensures HoldersPatched(patch, read, body)
  {
    assert SameField(first, second, SourceName) && SameField(second, body, SourceName);
    assert SameField(first, second, SourceDetail) && SameField(second, body, SourceDetail);
    HoldersStay(patch, read, first, body);
  }

  lemma EvidenceLasts(patch: Doc, read: Doc, first: Doc, second: Doc, body: Doc)
    requires EvidencePatched(patch, first, second)
    requires SameBut(read, first, {SourceName, SourceDetail}) && SameBut(second, body, {SiteId, Summary})
    ensures EvidencePatched(patch, read, body)
  {
    assert SameField(read, first, Evidence) && SameField(second, body, Evidence);
    EvidenceStays(patch, read, first, second, body);
  }

  lemma HoldersStay(patch: Doc, read: Doc, first: Doc, body: Doc)
    requires HoldersPatched(patch, read, first)
    requires Get(first, SourceName) == Get(body, SourceName) && (SourceName in first <==> SourceName in body)
    requires Get(first, SourceDetail) == Get(body, SourceDetail) && (SourceDetail in first <==> SourceDetail in body)
    ensures HoldersPatched(patch, read, body)
  {
  }

  lemma EvidenceStays(patch: Doc, read: Doc, first: Doc, second: Doc, body: Doc)
    requires EvidencePatched(patch, first, second)
    requires SameField(read, first, Evidence) && SameField(second, body, Evidence)
    ensures EvidencePatched(patch, read, body)
  {
  }

  lemma PatchChanges(doc: Doc, patch: Doc)
    ensures FieldsPatched(patch, doc, Patched(doc, patch))
  {
    var first := PatchTargets(doc, patch);
    var second := PatchEvidence(first, patch);
    HoldersOnly(doc, patch);
    HoldersAfter(doc, patch);
    EvidenceAfter(first, patch);
    TextsAfter(second, patch);
    PartsOfPatch(patch, doc, first, second, Patched(doc, patch));
  }

  lemma CandidateDocIs(base: Doc, candidateId: string, status: string, evidence: Doc, detail: Doc)
    requires RevKey !in base && StagedAt !in base
    ensures var doc := CandidateDoc(base, candidateId, status, evidence, detail);
            && Get(doc, TypeName) == Str("action_candidate") && Get(doc, CandidateId) == Str(candidateId)
            && SameBut(base, doc, {TypeName, CandidateId, CandidateStatus, SourceName, Evidence, SourceDetail})
  {
  }

  lemma FirstOfThree(a: Value, b: Value, c: Value)
    ensures FirstText([a, b, c]) == if Truthy(a) then TextOf(a) else if Truthy(b) then TextOf(b) else TextOf(c)
  {
    assert [a, b, c][1..] == [b, c] && [b, c][1..] == [c] && [c][1..] == [];
    assert FirstText([c]) == TextOf(c);
    assert FirstText([b, c]) == if Truthy(b) then TextOf(b) else TextOf(c);
  }

  lemma CandidateTextsAre(candidate: Doc)
    ensures TakesOverCandidate(candidate, CandidateTexts(candidate))
  {
  }

  lemma SiteIsNamed(candidate: Doc)
    ensures NamesSite(candidate, CandidateTexts(candidate))
  {
    FirstOfThree(Get(candidate, SiteId), Get(ObjOf(Get(candidate, ChannelMetadata)), SiteId),
                 Get(ObjOf(Get(candidate, Provenance)), SiteId));
  }

  lemma SourceIsHeld(candidate: Doc)
    ensures HoldsSource(candidate, EvidenceOf(candidate)) && HoldsSource(candidate, DetailOf(candidate))
  {
  }

  /** What comes from the texts of the candidate is none of the fields that identify it or hold its source. */
  predicate IsText(key: Key) {
    || key.CandidateType? || key.Summary? || key.CreatedAt? || key.Archived? || key.ReviewHistory? || key.StagedAt?
    || key.SiteId? || key.ReviewedAt? || key.ReviewRationale? || key.ReviewedBy? || key.ArchivedAt? || key.ArchivedBy?
  }

  lemma TextStays(base: Doc, doc: Doc, key: Key)
    requires SameBut(base, doc, {TypeName, CandidateId, CandidateStatus, SourceName, Evidence, SourceDetail})
    requires IsText(key)
    ensures SameField(base, doc, key)
  {
  }

  lemma CandidateTextsStay(candidate: Doc, base: Doc, doc: Doc)
    requires TakesOverCandidate(candidate, base)
    requires SameBut(base, doc, {TypeName, CandidateId, CandidateStatus, SourceName, Evidence, SourceDetail})
    ensures TakesOverCandidate(candidate, doc)
  {
    TextStays(base, doc, CandidateType);
    TextStays(base, doc, Summary);
    TextStays(base, doc, CreatedAt);
    TextStays(base, doc, Archived);
    TextStays(base, doc, ReviewHistory);
    TextStays(base, doc, StagedAt);
  }

  lemma BuiltCandidateIs(candidate: Doc, doc: Doc)
    requires BuildCandidate(candidate) == Some(doc)
    ensures IsBuiltCandidate(candidate, TextOf(doc[DocId]), doc)
  {
    var candidateId := Text.Strip(TextOf(Get(candidate, CandidateId)));
    var status := Text.Strip(TextOf(Get(candidate, CandidateStatus)));
    CandidateDocIs(CandidateTexts(candidate), candidateId, status, EvidenceOf(candidate), DetailOf(candidate));
    SourceIsHeld(candidate);
  }

  lemma BuiltCandidateTakesOver(candidate: Doc, doc: Doc)
    requires BuildCandidate(candidate) == Some(doc)
    ensures TakesOverCandidate(candidate, doc) && NamesSite(candidate, doc)
  {
    var candidateId := Text.Strip(TextOf(Get(candidate, CandidateId)));
    var status := Text.Strip(TextOf(Get(candidate, CandidateStatus)));
    CandidateDocIs(CandidateTexts(candidate), candidateId, status, EvidenceOf(candidate), DetailOf(candidate));
    CandidateTextsAre(candidate);
    CandidateTextsStay(candidate, CandidateTexts(candidate), doc);
    SiteIsNamed(candidate);
    TextStays(CandidateTexts(candidate), doc, SiteId);
  }

  lemma ReviewIsTakenOver(candidate: Doc)
    ensures TakesOverReview(candidate, CandidateTexts(candidate))
  {
    var person, reviewer := Get(candidate, ReviewedBy), Get(candidate, Reviewer);
    assert [person, reviewer][1..] == [reviewer] && [reviewer][1..] == [];
    assert FirstText([reviewer]) == TextOf(reviewer);
  }

  lemma OriginIsHeld(candidate: Doc)
    ensures HoldsOrigin(candidate, EvidenceOf(candidate), DetailOf(candidate))
  {
  }

  lemma ReviewStays(candidate: Doc, base: Doc, doc: Doc)
    requires TakesOverReview(candidate, base)
    requires SameBut(base, doc, {TypeName, CandidateId, CandidateStatus, SourceName, Evidence, SourceDetail})
    ensures TakesOverReview(candidate, doc)
  {
    TextStays(base, doc, ReviewedAt);
    TextStays(base, doc, ReviewRationale);
    TextStays(base, doc, ReviewedBy);
    TextStays(base, doc, ArchivedAt);
    TextStays(base, doc, ArchivedBy);
  }

  lemma BuiltCandidateOrigin(candidate: Doc, doc: Doc)
    requires BuildCandidate(candidate) == Some(doc)
    ensures TakesOverReview(candidate, doc)
    ensures HoldsOrigin(candidate, ObjOf(Get(doc, Evidence)), ObjOf(Get(doc, SourceDetail)))
  {
    var candidateId := Text.Strip(TextOf(Get(candidate, CandidateId)));
    var status := Text.Strip(TextOf(Get(candidate, CandidateStatus)));
    CandidateDocIs(CandidateTexts(candidate), candidateId, status, EvidenceOf(candidate), DetailOf(candidate));
    ReviewIsTakenOver(candidate);
    ReviewStays(candidate, CandidateTexts(candidate), doc);
    OriginIsHeld(candidate);
  }

  lemma CandidateBodyOrigin(candidate: Doc, doc: Doc, rev: Value)
    requires TakesOverReview(candidate, doc)
    requires HoldsOrigin(candidate, ObjOf(Get(doc, Evidence)), ObjOf(Get(doc, SourceDetail)))
    ensures TakesOverReview(candidate, BodyOf(doc)) && TakesOverReview(candidate, BodyOf(doc[RevKey := rev]))
    ensures var body := BodyOf(doc); HoldsOrigin(candidate, ObjOf(Get(body, Evidence)), ObjOf(Get(body, SourceDetail)))
    ensures var body := BodyOf(doc[RevKey := rev]);
            HoldsOrigin(candidate, ObjOf(Get(body, Evidence)), ObjOf(Get(body, SourceDetail)))
  {
  }

  lemma CandidateBody(candidate: Doc, target: string, doc: Doc, rev: Value)
    requires IsBuiltCandidate(candidate, target, doc)
    ensures IsBuiltCandidate(candidate, target, BodyOf(doc))
    ensures IsBuiltCandidate(candidate, target, BodyOf(doc[RevKey := rev]))
  {
  }

  lemma CandidateBodyTakesOver(candidate: Doc, doc: Doc, rev: Value)
    requires TakesOverCandidate(candidate, doc) && NamesSite(candidate, doc)
    ensures TakesOverCandidate(candidate, BodyOf(doc)) && TakesOverCandidate(candidate, BodyOf(doc[RevKey := rev]))
    ensures NamesSite(candidate, BodyOf(doc)) && NamesSite(candidate, BodyOf(doc[RevKey := rev]))
  {
  }

  /** The built candidate without the two fields of the server, whatever revision it carries. */
  lemma CandidateBodies(candidate: Doc, built: Doc, rev: Value, body: Doc)
    requires BuildCandidate(candidate) == Some(built)
    requires body == BodyOf(built) || body == BodyOf(built[RevKey := rev])
    ensures var target := TextOf(built[DocId]);
            && IsBuiltCandidate(candidate, target, body) && TakesOverCandidate(candidate, body)
            && NamesSite(candidate, body) && TakesOverReview(candidate, body)
            && HoldsOrigin(candidate, ObjOf(Get(body, Evidence)), ObjOf(Get(body, SourceDetail)))
  {
    BuiltCandidateIs(candidate, built);
    BuiltCandidateTakesOver(candidate, built);
    BuiltCandidateOrigin(candidate, built);
    CandidateBody(candidate, TextOf(built[DocId]), built, rev);
    CandidateBodyTakesOver(candidate, built, rev);
    CandidateBodyOrigin(candidate, built, rev);
  }

  lemma UpsertCandidatePuts(candidate: Doc, read: Option<Doc>, built: Doc)
    requires BuildCandidate(candidate) == Some(built)
    ensures var act := UpsertCandidateAct(candidate, read);
            && act.Put? && act.target == TextOf(built[DocId])
            && act.doc == if read.Some? && Truthy(Get(read.value, RevKey)) then built[RevKey := Get(read.value, RevKey)]
                          else built
  {
  }

  lemma FieldsPatchedBody(patch: Doc, read: Doc, doc: Doc)
    requires FieldsPatched(patch, read, doc)
    ensures FieldsPatched(patch, read, BodyOf(doc))
  {
    PartsStayInBody(patch, read, doc, BodyOf(doc));
    TextsStayInBody(patch, read, doc);
    OthersStay(read, doc, {SourceName, SourceDetail} + {Evidence} + {SiteId, Summary});
  }

  lemma TextsStayInBody(patch: Doc, read: Doc, doc: Doc)
    requires TextPatched(patch, read, doc, SiteId) && TextPatched(patch, read, doc, Summary)
    ensures TextPatched(patch, read, BodyOf(doc), SiteId) && TextPatched(patch, read, BodyOf(doc), Summary)
  {
  }

  lemma EvidenceInBody(patch: Doc, read: Doc, doc: Doc, body: Doc)
    requires EvidencePatched(patch, read, doc) && body == BodyOf(doc)
    ensures EvidencePatched(patch, read, body)
  {
    EvidenceStays(patch, read, read, doc, body);
  }

  lemma PartsStayInBody(patch: Doc, read: Doc, doc: Doc, body: Doc)
    requires HoldersPatched(patch, read, doc) && EvidencePatched(patch, read, doc) && body == BodyOf(doc)
    ensures HoldersPatched(patch, read, body) && EvidencePatched(patch, read, body)
  {
    HoldersStay(patch, read, doc, body);
    EvidenceInBody(patch, read, doc, body);
  }

  lemma OthersStay(read: Doc, doc: Doc, changed: set<Key>)
    requires SameBut(read, doc, changed)
    ensures SameBut(read, BodyOf(doc), changed)
  {
    forall key | key !in changed && key != DocId && key != RevKey
      ensures SameField(read, BodyOf(doc), key)
    {
      assert SameField(read, doc, key);
    }
  }

  lemma CandidateCarries(id: string, op: CandidateOp, read: Option<Doc>)
    requires CandidateAct(id, op, read).Put?
    ensures CandidateAct(id, op, read).target == id && read.Some?
    ensures CandidateChanges(op, read.value, BodyOf(CandidateAct(id, op, read).doc))
  {
    var doc := read.value;
    match op
    case SetStatus(_, _, _, _, _, _, _) => StatusChanges(op, doc);
    case PatchFields(fields, _) =>
      PatchChanges(doc, NormalPatch(fields).value);
      FieldsPatchedBody(NormalPatch(fields).value, doc, Patched(doc, NormalPatch(fields).value));
    case SetArchived(_, _, _, _) => ArchiveChanges(op, doc);
    case SetStagedAt(_, _) =>
  }
}
