// Action candidates over every interleaving: the mirrored copies agree, one decision, one staging mark.
module CandidateRuns {
  import opened Json
  import opened Couch
  import opened StoreOps
  import opened DraftOps
  import opened CandidateOps
  import opened World
  import opened Refinement
  import DraftHistory
  import Text

  // ---- The two copies ----

  /** `evidence` and `source_detail` are objects and say the same about the source. */
  predicate Mirrors(doc: Doc) {
    forall key <- SOURCE_FIELDS :: Agree(doc, key)
  }

  predicate Agree(doc: Doc, key: Key) {
    var evidence, detail := Get(doc, Evidence), Get(doc, SourceDetail);
    evidence.Obj? && detail.Obj? && Get(evidence.fields, key) == Get(detail.fields, key)
  }

  lemma BuiltMirrors(candidate: Doc)
    requires BuildCandidate(candidate).Some?
    ensures Mirrors(BuildCandidate(candidate).value)
  {
    BuiltCopies(candidate);
    CopiesAgree(EvidenceOf(candidate), DetailOf(candidate), candidate);
    AllAgree(BuildCandidate(candidate).value);
  }

  lemma CopiesAgree(evidence: Doc, detail: Doc, candidate: Doc)
    requires evidence == EvidenceOf(candidate) && detail == DetailOf(candidate)
    ensures forall key <- SOURCE_FIELDS :: Get(evidence, key) == Get(detail, key)
  {
  }

  lemma TargetAfterPatch(target: Doc, patch: Doc, key: Key)
    requires key != ChannelMetadata
    ensures Get(PatchTarget(target, patch), key)
            == if key in SOURCE_FIELDS && key in patch then Coerced(key, patch[key]) else Get(target, key)
  {
  }

  /** A patch sets a source field in both copies to the same value and no other field of either copy, the channel
      metadata apart. */
  lemma PatchSetsBothCopies(doc: Doc, patch: Doc, key: Key)
    requires Get(doc, Evidence).Obj? && Get(doc, SourceDetail).Obj? && key != ChannelMetadata
    ensures var after := Patched(doc, patch);
            && Get(after, Evidence).Obj? && Get(after, SourceDetail).Obj?
            && (if key in SOURCE_FIELDS && key in patch then
                  Get(Get(after, Evidence).fields, key) == Get(Get(after, SourceDetail).fields, key)
                  == Coerced(key, patch[key])
                else
                  && Get(Get(after, Evidence).fields, key) == Get(Get(doc, Evidence).fields, key)
                  && Get(Get(after, SourceDetail).fields, key) == Get(Get(doc, SourceDetail).fields, key))
  {
    PatchedParts(doc, patch);
    CopiesAfter(doc, patch, key, Patched(doc, patch));
  }

  lemma CopiesAfter(doc: Doc, patch: Doc, key: Key, after: Doc)
    requires Get(doc, Evidence).Obj? && Get(doc, SourceDetail).Obj? && key != ChannelMetadata
    requires Get(after, SourceDetail) == Obj(PatchTarget(Get(doc, SourceDetail).fields, patch))
    requires Get(after, Evidence)
             == if Touches(patch, SOURCE_FIELDS) then Obj(Overlay(Get(doc, Evidence).fields, patch, SOURCE_FIELDS))
                else Get(doc, Evidence)
    ensures Get(after, Evidence).Obj?
    ensures if key in SOURCE_FIELDS && key in patch then
              Get(Get(after, Evidence).fields, key) == Get(Get(after, SourceDetail).fields, key)
              == Coerced(key, patch[key])
            else
              && Get(Get(after, Evidence).fields, key) == Get(Get(doc, Evidence).fields, key)
              && Get(Get(after, SourceDetail).fields, key) == Get(Get(doc, SourceDetail).fields, key)
  {
    TargetAfterPatch(Get(doc, SourceDetail).fields, patch, key);
    if key in SOURCE_FIELDS && key in patch {
      assert Touches(patch, SOURCE_FIELDS);
    }
  }

  lemma PatchedParts(doc: Doc, patch: Doc)
    requires Get(doc, SourceDetail).Obj?
    ensures Get(Patched(doc, patch), SourceDetail) == Obj(PatchTarget(Get(doc, SourceDetail).fields, patch))
    ensures Get(Patched(doc, patch), Evidence)
            == if Touches(patch, SOURCE_FIELDS) then Obj(Overlay(ObjOf(Get(doc, Evidence)), patch, SOURCE_FIELDS))
               else Get(doc, Evidence)
  {
  }

  /** A patch changes nothing outside its targets: the two copies, the source, and the site and summary it names. */
  lemma PatchChangesOnlyTargets(doc: Doc, patch: Doc, key: Key)
    requires key !in {Evidence, SourceDetail, SourceName}
    ensures var after := Patched(doc, patch);
            if key in {SiteId, Summary} && key in patch then Get(after, key) == Str(TextOf(patch[key]))
            else Get(after, key) == Get(doc, key)
  {
    TargetsKeep(doc, patch, key);
    EvidenceKeeps(PatchTargets(doc, patch), patch, key);
    TextsWritten(PatchEvidence(PatchTargets(doc, patch), patch), patch, key);
  }

  lemma TextsWritten(doc: Doc, patch: Doc, key: Key)
    ensures Get(Overlay(doc, patch, [SiteId, Summary]), key)
            == if key in {SiteId, Summary} && key in patch then Str(TextOf(patch[key])) else Get(doc, key)
  {
  }

  lemma TargetsKeep(doc: Doc, patch: Doc, key: Key)
    requires key !in {SourceDetail, SourceName}
    ensures Get(PatchTargets(doc, patch), key) == Get(doc, key)
  {
  }

  lemma EvidenceKeeps(doc: Doc, patch: Doc, key: Key)
    requires key != Evidence
    ensures Get(PatchEvidence(doc, patch), key) == Get(doc, key)
  {
  }

  /** Inside the channel metadata a patch sets the channel fields it names and nothing else. */
  lemma PatchChangesOnlyChannelFields(target: Doc, patch: Doc, key: Key)
    ensures var before := ObjOf(Get(target, ChannelMetadata));
            var after := ObjOf(Get(PatchTarget(target, patch), ChannelMetadata));
            Get(after, key)
            == if key in CHANNEL_FIELDS && key in patch then Coerced(key, patch[key]) else Get(before, key)
  {
    var before := ObjOf(Get(target, ChannelMetadata));
    MetadataAfter(target, patch, Overlay(before, patch, CHANNEL_FIELDS));
    if key in CHANNEL_FIELDS && key in patch {
      assert Touches(patch, CHANNEL_FIELDS);
    }
  }

  lemma MetadataAfter(target: Doc, patch: Doc, merged: Doc)
    requires merged == Overlay(ObjOf(Get(target, ChannelMetadata)), patch, CHANNEL_FIELDS)
    ensures Get(PatchTarget(target, patch), ChannelMetadata)
            == if Touches(patch, CHANNEL_FIELDS) then Obj(merged) else Get(target, ChannelMetadata)
  {
    assert ChannelMetadata !in SOURCE_FIELDS;
  }

  lemma FieldAgrees(doc: Doc, patch: Doc, key: Key)
    requires Mirrors(doc) && key in SOURCE_FIELDS
    ensures Agree(Patched(doc, patch), key)
  {
    assert Agree(doc, key);
    PatchSetsBothCopies(doc, patch, key);
  }

  lemma AllAgree(doc: Doc)
    requires Agree(doc, Rationale) && Agree(doc, SourceText) && Agree(doc, Confidence)
    ensures Mirrors(doc)
  {
  }

  lemma PatchMirrors(doc: Doc, patch: Doc)
    requires Mirrors(doc)
    ensures Mirrors(Patched(doc, patch))
  {
    FieldAgrees(doc, patch, Rationale);
    FieldAgrees(doc, patch, SourceText);
    FieldAgrees(doc, patch, Confidence);
    AllAgree(Patched(doc, patch));
  }

  lemma OthersKeepCopies(id: string, op: CandidateOp, doc: Doc)
    requires !op.PatchFields? && CandidateAct(id, op, Some(doc)).Put?
    ensures var after := CandidateAct(id, op, Some(doc)).doc;
            Get(after, Evidence) == Get(doc, Evidence) && Get(after, SourceDetail) == Get(doc, SourceDetail)
  {
  }

  lemma SameCopiesMirror(a: Doc, b: Doc)
    requires Mirrors(a) && Get(a, Evidence) == Get(b, Evidence) && Get(a, SourceDetail) == Get(b, SourceDetail)
    ensures Mirrors(b)
  {
  }

  lemma CandidateActMirrors(id: string, op: CandidateOp, doc: Doc)
    requires Mirrors(doc) && CandidateAct(id, op, Some(doc)).Put?
    ensures Mirrors(CandidateAct(id, op, Some(doc)).doc)
  {
    if op.PatchFields? {
      PatchMirrors(doc, NormalPatch(op.fields).value);
    } else {
      OthersKeepCopies(id, op, doc);
      SameCopiesMirror(doc, CandidateAct(id, op, Some(doc)).doc);
    }
  }

  // ---- One candidate over a sequence of committed operations ----

  datatype CandidateAction = Change(op: CandidateOp) | Build(candidate: Doc)

  /** What the action PUTs for the candidate it has read. */
  function ActionAct(id: string, action: CandidateAction, before: Option<Doc>): Act {
    match action
    case Change(op) => CandidateAct(id, op, before)
    case Build(candidate) => UpsertCandidateAct(candidate, before)
  }

  /** One commit as the candidate sees it: an action on it, or something else (none). */
  predicate CandidateStep(id: string, action: Option<CandidateAction>, before: Option<Doc>, after: Option<Doc>) {
    match action
    case None => after == before
    case Some(a) =>
      ActionAct(id, a, before).Put? && after.Some? && DraftHistory.SameBody(ActionAct(id, a, before).doc, after.value)
  }

  /** `docs[k]` is the candidate before commit `k`, and the last of `docs` the candidate after all of them. */
  datatype Trace = Trace(id: string, actions: seq<Option<CandidateAction>>, docs: seq<Option<Doc>>)

  predicate StepAt(t: Trace, k: nat)
    requires k < |t.actions| && |t.docs| == |t.actions| + 1
  {
    CandidateStep(t.id, t.actions[k], t.docs[k], t.docs[k + 1])
  }

  ghost predicate ValidTrace(t: Trace) {
    |t.docs| == |t.actions| + 1 && forall k :: 0 <= k < |t.actions| ==> StepAt(t, k)
  }

  lemma StepMirrors(id: string, action: Option<CandidateAction>, before: Option<Doc>, after: Option<Doc>)
    requires CandidateStep(id, action, before, after)
    requires before.Some? ==> Mirrors(before.value)
    ensures after.Some? ==> Mirrors(after.value)
  {
    if action.Some? {
      var doc := ActionAct(id, action.value, before).doc;
      DraftHistory.SameBodyGet(doc, after.value);
      if action.value.Change? {
        CandidateActMirrors(id, action.value.op, before.value);
      } else {
        BuiltMirrors(action.value.candidate);
        SameCopiesMirror(BuildCandidate(action.value.candidate).value, doc);
      }
      SameCopiesMirror(doc, after.value);
    }
  }

  lemma {:induction false} CopiesAgreeAt(t: Trace, k: nat)
    requires ValidTrace(t) && k < |t.docs|
    requires t.docs[0].Some? ==> Mirrors(t.docs[0].value)
    ensures t.docs[k].Some? ==> Mirrors(t.docs[k].value)
    decreases k
  {
    if k > 0 {
      CopiesAgreeAt(t, k - 1);
      assert StepAt(t, k - 1);
      StepMirrors(t.id, t.actions[k - 1], t.docs[k - 1], t.docs[k]);
    }
  }

  // ---- One decision, one staging mark ----

  predicate IsReview(action: Option<CandidateAction>) {
    action.Some? && action.value.Change? && action.value.op.SetStatus?
  }

  predicate IsStaging(action: Option<CandidateAction>) {
    action.Some? && action.value.Change? && action.value.op.SetStagedAt?
  }

  /** A review needs an allowed status and sets one of its own; nothing else touches the status. */
  lemma ReviewDecides(id: string, op: CandidateOp, doc: Doc)
    requires CandidateAct(id, op, Some(doc)).Put?
    ensures var after := CandidateAct(id, op, Some(doc)).doc;
            if op.SetStatus? then
              StatusText(after) == op.status && op.status in DECIDED
              && (op.prior != {} ==> StatusText(doc) in op.prior)
            else Get(after, CandidateStatus) == Get(doc, CandidateStatus)
  {
    if op.PatchFields? {
      PatchChangesOnlyTargets(doc, NormalPatch(op.fields).value, CandidateStatus);
    }
  }

  lemma StagingMarks(id: string, op: CandidateOp, doc: Doc)
    requires CandidateAct(id, op, Some(doc)).Put?
    ensures var after := CandidateAct(id, op, Some(doc)).doc;
            if op.SetStagedAt? then !Truthy(Get(doc, StagedAt)) && Get(after, StagedAt) == Str(op.at)
            else Get(after, StagedAt) == Get(doc, StagedAt)
  {
    if op.PatchFields? {
      PatchChangesOnlyTargets(doc, NormalPatch(op.fields).value, StagedAt);
    }
  }

  const DECIDED := {"approved", "rejected"}

  predicate Decided(doc: Doc) {
    StatusText(doc) in DECIDED
  }

  predicate Staged(doc: Doc) {
    Truthy(Get(doc, StagedAt))
  }

  /** The status check of a review is on, and no decided status passes it. The default, `pending_review` alone, is one
      such set. */
  predicate Guarded(op: CandidateOp) {
    op.SetStatus? ==> op.prior != {} && op.prior !! DECIDED
  }

  predicate AllGuarded(t: Trace) {
    forall k :: 0 <= k < |t.actions| && IsReview(t.actions[k]) ==> Guarded(t.actions[k].value.op)
  }

  predicate IsBuild(action: Option<CandidateAction>) {
    action.Some? && action.value.Build?
  }

  /** The status with which a candidate is built. */
  function BuiltStatus(candidate: Doc): string {
    Text.Strip(TextOf(Get(candidate, CandidateStatus)))
  }

  /** Commit `k` is not a build that gives a decided candidate another status. */
  predicate KeepsDecision(t: Trace, k: nat)
    requires k < |t.actions| && |t.docs| == |t.actions| + 1
  {
    IsBuild(t.actions[k]) && t.docs[k].Some? && Decided(t.docs[k].value) ==>
      BuiltStatus(t.actions[k].value.candidate) == StatusText(t.docs[k].value)
  }

  ghost predicate BuildsKeepDecisions(t: Trace)
    requires |t.docs| == |t.actions| + 1
  {
    forall k :: 0 <= k < |t.actions| ==> KeepsDecision(t, k)
  }

  /** No build commits on a staged candidate. */
  ghost predicate BuildsSpareStaged(t: Trace)
    requires |t.docs| == |t.actions| + 1
  {
    forall k :: 0 <= k < |t.actions| && IsBuild(t.actions[k]) ==> t.docs[k].None? || !Staged(t.docs[k].value)
  }

  /** A build writes its own status and no staging time, whatever is stored. */
  lemma BuildWrites(id: string, candidate: Doc, before: Option<Doc>)
    requires UpsertCandidateAct(candidate, before).Put?
    ensures var after := UpsertCandidateAct(candidate, before).doc;
            StatusText(after) == BuiltStatus(candidate) && Get(after, StagedAt) == Null
  {
    var built := BuildCandidate(candidate).value;
    BuiltFields(candidate);
    var after := UpsertCandidateAct(candidate, before).doc;
    assert Get(after, CandidateStatus) == Get(built, CandidateStatus) && Get(after, StagedAt) == Get(built, StagedAt);
  }

  lemma BuiltFields(candidate: Doc)
    requires BuildCandidate(candidate).Some?
    ensures StatusText(BuildCandidate(candidate).value) == BuiltStatus(candidate)
    ensures Get(BuildCandidate(candidate).value, StagedAt) == Null
  {
  }

  lemma ReviewStep(t: Trace, k: nat)
    requires ValidTrace(t) && k < |t.actions| && IsReview(t.actions[k])
    ensures t.docs[k].Some? && t.docs[k + 1].Some?
    ensures var op := t.actions[k].value.op;
            && StatusText(t.docs[k + 1].value) == op.status && op.status in DECIDED
            && (op.prior != {} ==> StatusText(t.docs[k].value) in op.prior)
  {
    assert StepAt(t, k);
    var op, before := t.actions[k].value.op, t.docs[k].value;
    DraftHistory.SameBodyGet(CandidateAct(t.id, op, Some(before)).doc, t.docs[k + 1].value);
    ReviewDecides(t.id, op, before);
  }

  lemma DecidedStep(t: Trace, k: nat)
    requires ValidTrace(t) && AllGuarded(t) && k < |t.actions| && KeepsDecision(t, k)
    requires t.docs[k].Some? && Decided(t.docs[k].value)
    ensures t.docs[k + 1].Some? && StatusText(t.docs[k + 1].value) == StatusText(t.docs[k].value)
    ensures !IsReview(t.actions[k])
  {
    assert StepAt(t, k);
    if IsReview(t.actions[k]) {
      ReviewStep(t, k);
      assert false;
    } else if IsBuild(t.actions[k]) {
      DraftHistory.SameBodyGet(ActionAct(t.id, t.actions[k].value, t.docs[k]).doc, t.docs[k + 1].value);
      BuildWrites(t.id, t.actions[k].value.candidate, t.docs[k]);
    } else if t.actions[k].Some? {
      var op, before := t.actions[k].value.op, t.docs[k].value;
      DraftHistory.SameBodyGet(CandidateAct(t.id, op, Some(before)).doc, t.docs[k + 1].value);
      ReviewDecides(t.id, op, before);
    }
  }

  lemma StagingStep(t: Trace, k: nat)
    requires ValidTrace(t) && k < |t.actions| && t.docs[k].Some? && !IsBuild(t.actions[k])
    ensures t.docs[k + 1].Some?
    ensures if IsStaging(t.actions[k]) then
              !Staged(t.docs[k].value) && Get(t.docs[k + 1].value, StagedAt) == Str(t.actions[k].value.op.at)
            else Get(t.docs[k + 1].value, StagedAt) == Get(t.docs[k].value, StagedAt)
  {
    assert StepAt(t, k);
    if t.actions[k].Some? {
      var op, before := t.actions[k].value.op, t.docs[k].value;
      DraftHistory.SameBodyGet(CandidateAct(t.id, op, Some(before)).doc, t.docs[k + 1].value);
      StagingMarks(t.id, op, before);
    }
  }

  /** A decided candidate keeps its status and takes no further review. */
  lemma {:induction false} DecidedStands(t: Trace, j: nat, k: nat)
    requires ValidTrace(t) && BuildsKeepDecisions(t) && AllGuarded(t) && j <= k < |t.docs|
    requires t.docs[j].Some? && Decided(t.docs[j].value)
    ensures t.docs[k].Some? && StatusText(t.docs[k].value) == StatusText(t.docs[j].value)
    ensures forall m :: j <= m < k ==> !IsReview(t.actions[m])
    decreases k
  {
    if j < k {
      DecidedStands(t, j, k - 1);
      assert KeepsDecision(t, k - 1);
      DecidedStep(t, k - 1);
    }
  }

  /** A staged candidate keeps its time and takes no further staging mark. */
  lemma {:induction false} StagedStands(t: Trace, j: nat, k: nat)
    requires ValidTrace(t) && BuildsSpareStaged(t) && j <= k < |t.docs|
    requires t.docs[j].Some? && Staged(t.docs[j].value)
    ensures t.docs[k].Some? && Get(t.docs[k].value, StagedAt) == Get(t.docs[j].value, StagedAt)
    ensures forall m :: j <= m < k ==> !IsStaging(t.actions[m])
    decreases k
  {
    if j < k {
      StagedStands(t, j, k - 1);
      StagingStep(t, k - 1);
    }
  }

  /** The review of commit `k` found the candidate undecided, in a status it allows, is the only one, and its status
      stays. */
  ghost predicate ReviewSettles(t: Trace, k: nat)
    requires |t.docs| == |t.actions| + 1 && k < |t.actions| && IsReview(t.actions[k])
  {
    && t.docs[k].Some? && !Decided(t.docs[k].value) && StatusText(t.docs[k].value) in t.actions[k].value.op.prior
    && (forall m :: k < m < |t.docs| ==>
          t.docs[m].Some? && StatusText(t.docs[m].value) == t.actions[k].value.op.status)
    && (forall m :: k < m < |t.actions| ==> !IsReview(t.actions[m]))
  }

  lemma ReviewCommits(t: Trace, k: nat)
    requires ValidTrace(t) && BuildsKeepDecisions(t) && AllGuarded(t) && k < |t.actions| && IsReview(t.actions[k])
    ensures ReviewSettles(t, k)
  {
    ReviewStep(t, k);
    assert Guarded(t.actions[k].value.op);
    forall m | k < m < |t.docs|
      ensures t.docs[m].Some? && StatusText(t.docs[m].value) == t.actions[k].value.op.status
    {
      DecidedStands(t, k + 1, m);
    }
    DecidedStands(t, k + 1, |t.actions|);
  }

  /** The staging mark of commit `k` is the last one, and its time stays in the candidate. */
  ghost predicate StagingSettles(t: Trace, k: nat)
    requires |t.docs| == |t.actions| + 1 && k < |t.actions| && IsStaging(t.actions[k])
  {
    && (forall m :: k < m < |t.docs| ==>
          t.docs[m].Some? && Get(t.docs[m].value, StagedAt) == Str(t.actions[k].value.op.at))
    && (forall m :: k < m < |t.actions| ==> !IsStaging(t.actions[m]))
  }

  lemma StagingCommits(t: Trace, k: nat)
    requires ValidTrace(t) && BuildsSpareStaged(t) && k < |t.actions|
    requires IsStaging(t.actions[k]) && t.actions[k].value.op.at != ""
    ensures StagingSettles(t, k)
  {
    assert StepAt(t, k);
    StagingStep(t, k);
    forall m | k < m < |t.docs|
      ensures t.docs[m].Some? && Get(t.docs[m].value, StagedAt) == Str(t.actions[k].value.op.at)
    {
      StagedStands(t, k + 1, m);
    }
    StagedStands(t, k + 1, |t.actions|);
  }

  // ---- Every run is a trace ----

  /** The requests of a run that concern this candidate are candidate operations. */
  ghost predicate CandidateRequests(ops: map<nat, Op>, id: string) {
    forall c <- ops :: Faithful(ops[c]) && (IdOf(ops[c]) == id ==> ops[c].Candidate? || ops[c].UpsertCandidate?)
  }

  function ActionOn(commit: Commit, id: string): Option<CandidateAction> {
    if commit.target != id then None
    else
      match commit.op
      case Candidate(_, op) => Some(Change(op))
      case UpsertCandidate(candidate) => Some(Build(candidate))
      case _ => None
  }

  /** The run as candidate `id` sees it. */
  function TraceOf(s0: Server, log: seq<Commit>, id: string): Trace {
    Trace(id, seq(|log|, k requires 0 <= k < |log| => ActionOn(log[k], id)),
          seq(|log| + 1, k requires 0 <= k <= |log| => Read(At(s0, log, k), id)))
  }

  lemma WriteIsStep(s: Server, commit: Commit, id: string)
    requires AtomicallyWrites(s, commit.op, commit.target) && IdOf(commit.op) == commit.target
    requires commit.target == id ==> commit.op.Candidate? || commit.op.UpsertCandidate?
    ensures CandidateStep(id, ActionOn(commit, id), Read(s, id), Read(Atomic(s, commit.op), id))
  {
    var doc := ActOf(commit.op, Read(s, IdOf(commit.op))).doc;
    assert Atomic(s, commit.op) == Store(s, commit.target, doc);
    if commit.target == id {
      assert Read(Store(s, id, doc), id).value - {DocId, RevKey} == doc - {DocId, RevKey};
    }
  }

  lemma RunIsTrace(s0: Server, ops: map<nat, Op>, w: World, id: string)
    requires Sound(s0, ops, w) && CandidateRequests(ops, id)
    ensures ValidTrace(TraceOf(s0, w.log, id))
  {
    var t := TraceOf(s0, w.log, id);
    forall k | 0 <= k < |t.actions|
      ensures StepAt(t, k)
    {
      var op := w.log[k].op;
      assert WritesAt(s0, w.log, k) && op == ops[w.log[k].client];
      AtNext(s0, w.log, k);
      WritesWhereItReads(op, Read(At(s0, w.log, k), IdOf(op)));
      WriteIsStep(At(s0, w.log, k), w.log[k], id);
    }
  }

  /** Mirrored copies: over every interleaving of builds, field patches, reviews, archiving and staging, the two
      copies of the source fields agree in every version of the candidate. */
  lemma CopiesAgreeInEveryRun(s0: Server, ops: map<nat, Op>, schedule: seq<nat>, id: string)
    requires ValidServer(s0) && CandidateRequests(ops, id)
    requires Read(s0, id).Some? ==> Mirrors(Read(s0, id).value)
    ensures var t := TraceOf(s0, Run(Start(s0, ops), schedule).log, id);
            && ValidTrace(t) && t.docs[|t.actions|] == Read(Run(Start(s0, ops), schedule).server, id)
            && forall k :: 0 <= k < |t.docs| && t.docs[k].Some? ==> Mirrors(t.docs[k].value)
  {
    NoLostUpdate(s0, ops, schedule);
    var w := Run(Start(s0, ops), schedule);
    RunIsTrace(s0, ops, w, id);
    var t := TraceOf(s0, w.log, id);
    assert w.log[..0] == [] && w.log[..|w.log|] == w.log;
    forall k | 0 <= k < |t.docs| && t.docs[k].Some?
      ensures Mirrors(t.docs[k].value)
    {
      CopiesAgreeAt(t, k);
    }
  }

  /** Over every interleaving of candidate operations with guarded reviews, and builds that bring a decided candidate
      its own status, at most one review commits to a candidate, it found the candidate undecided, and its status
      stays for good. */
  lemma OneReviewPerCandidate(s0: Server, ops: map<nat, Op>, schedule: seq<nat>, id: string)
    requires ValidServer(s0) && CandidateRequests(ops, id)
    requires forall c <- ops :: ops[c].Candidate? ==> Guarded(ops[c].candidateOp)
    requires BuildsKeepDecisions(TraceOf(s0, Run(Start(s0, ops), schedule).log, id))
    ensures var t := TraceOf(s0, Run(Start(s0, ops), schedule).log, id);
            forall k :: 0 <= k < |t.actions| && IsReview(t.actions[k]) ==> ReviewSettles(t, k)
  {
    NoLostUpdate(s0, ops, schedule);
    var w := Run(Start(s0, ops), schedule);
    RunIsTrace(s0, ops, w, id);
    var t := TraceOf(s0, w.log, id);
    assert AllGuarded(t);
    forall k | 0 <= k < |t.actions| && IsReview(t.actions[k])
      ensures ReviewSettles(t, k)
    {
      ReviewCommits(t, k);
    }
  }

  /** Over every interleaving a staging mark with a non-blank time is the last one, and its time stays. */
  lemma StagedOnce(s0: Server, ops: map<nat, Op>, schedule: seq<nat>, id: string)
    requires ValidServer(s0) && CandidateRequests(ops, id)
    requires BuildsSpareStaged(TraceOf(s0, Run(Start(s0, ops), schedule).log, id))
    ensures var t := TraceOf(s0, Run(Start(s0, ops), schedule).log, id);
            forall k :: 0 <= k < |t.actions| && IsStaging(t.actions[k]) && t.actions[k].value.op.at != "" ==>
              StagingSettles(t, k)
  {
    NoLostUpdate(s0, ops, schedule);
    var w := Run(Start(s0, ops), schedule);
    RunIsTrace(s0, ops, w, id);
    var t := TraceOf(s0, w.log, id);
    forall k | 0 <= k < |t.actions| && IsStaging(t.actions[k]) && t.actions[k].value.op.at != ""
      ensures StagingSettles(t, k)
    {
      StagingCommits(t, k);
    }
  }

  // ---- The conditions are exact ----

  /** Exactly when a review is accepted on the candidate that has just been read. */
  lemma ReviewAcceptedIff(id: string, op: CandidateOp, doc: Doc)
    requires op.SetStatus? && op.status in DECIDED && Truthy(Get(doc, RevKey))
    ensures CandidateAct(id, op, Some(doc)).Put?
            <==> RevMatches(op.expectedRev, doc) && (op.prior == {} || StatusText(doc) in op.prior)
  {
  }

  /** A build of a decided candidate changes the decision exactly when it brings another status; a staging time is
      gone after any build. */
  lemma BuildChangesDecisionIff(id: string, candidate: Doc, doc: Doc)
    requires Decided(doc) && UpsertCandidateAct(candidate, Some(doc)).Put?
    ensures var after := UpsertCandidateAct(candidate, Some(doc)).doc;
            (StatusText(after) != StatusText(doc) <==> BuiltStatus(candidate) != StatusText(doc)) && !Staged(after)
  {
    BuildWrites(id, candidate, Some(doc));
  }

  /** A decision does not freeze the content: a field patch is accepted on any candidate, decided or not, exactly when
      it expects no other revision, and writes the patched document. */
  lemma PatchIgnoresDecision(id: string, op: CandidateOp, doc: Doc)
    requires op.PatchFields? && NormalPatch(op.fields).Some? && Truthy(Get(doc, RevKey))
    ensures CandidateAct(id, op, Some(doc)).Put? <==> RevMatches(op.expectedRev, doc)
    ensures CandidateAct(id, op, Some(doc)).Put? ==>
              var after := CandidateAct(id, op, Some(doc)).doc;
              after == Patched(doc, NormalPatch(op.fields).value) && StatusText(after) == StatusText(doc)
  {
    PatchChangesOnlyTargets(doc, NormalPatch(op.fields).value, CandidateStatus);
  }

  /** A review that the guard excludes: no prior statuses, or a decided one among them. */
  predicate Unguarded(op: CandidateOp) {
    op.SetStatus? && op.status in DECIDED && op.expectedRev.None? && !Guarded(op)
  }

  /** An ordinary review that leaves a status which the unguarded one lets through. */
  function FirstReview(op: CandidateOp): (first: CandidateOp)
    requires Unguarded(op)
    ensures Guarded(first) && first.SetStatus? && first.status in DECIDED && first.expectedRev.None?
    ensures op.prior == {} || first.status in op.prior
  {
    var status := if op.prior == {} || "approved" in op.prior then "approved" else "rejected";
    SetStatus(status, "", "", "", None, {PENDING_REVIEW}, "")
  }

  function PendingStart(id: string): Server {
    Server(map[id := Entry(0, map[CandidateStatus := Str(PENDING_REVIEW)])], 1)
  }

  /** Both reviews have committed to the candidate, `first` before `op`. */
  ghost predicate BothReview(w: World, id: string, first: CandidateOp, op: CandidateOp) {
    && w.log == [Commit(1, Candidate(id, first), id), Commit(0, Candidate(id, op), id)]
    && w.clients.Keys == {0, 1}
    && w.clients[0].phase == Finished(Done) && w.clients[1].phase == Finished(Done)
  }

  /** The guard is exact: after an ordinary review, every unguarded one reviews the candidate once more. */
  lemma UnguardedReviewsTwice(id: string, op: CandidateOp)
    requires Unguarded(op)
    ensures var first := FirstReview(op);
            var w := Run(Start(PendingStart(id), map[0 := Candidate(id, op), 1 := Candidate(id, first)]), [1, 1, 0, 0]);
            ValidServer(PendingStart(id)) && Guarded(first) && BothReview(w, id, first, op)
  {
    var first := FirstReview(op);
    var w0 := Start(PendingStart(id), map[0 := Candidate(id, op), 1 := Candidate(id, first)]);
    PendingReads(id);
    assert first.prior == {PENDING_REVIEW};
    var w2 := AloneCommits(w0, 1, id, first, Read(w0.server, id).value);
    var w4 := AloneCommits(w2, 0, id, op, Read(w2.server, id).value);
    RunOfFour(w0, 1, 1, 0, 0);
  }

  lemma PendingReads(id: string)
    ensures Read(PendingStart(id), id).Some? && StatusText(Read(PendingStart(id), id).value) == PENDING_REVIEW
  {
  }

  /** A review that is allowed commits when nobody interferes. */
  lemma AloneCommits(w: World, c: nat, id: string, op: CandidateOp, doc: Doc) returns (w': World)
    requires c in w.clients && w.clients[c] == Client(Candidate(id, op), Ready(0), [])
    requires Read(w.server, id) == Some(doc)
    requires op.SetStatus? && op.status in DECIDED && op.expectedRev.None?
    requires op.prior == {} || StatusText(doc) in op.prior
    ensures w' == Step(Step(w, c), c) && w'.log == w.log + [Commit(c, Candidate(id, op), id)]
    ensures w'.clients == w.clients[c := Client(Candidate(id, op), Finished(Done), [])]
    ensures Read(w'.server, id).Some? && StatusText(Read(w'.server, id).value) == op.status
  {
    var written := ReviewWrites(w.server, id, op, doc);
    CommitsAlone(w, c, Candidate(id, op), id, written);
    w' := Step(Step(w, c), c);
    StoredStatus(w.server, id, written);
  }

  lemma ReviewWrites(s: Server, id: string, op: CandidateOp, doc: Doc) returns (written: Doc)
    requires Read(s, id) == Some(doc) && op.SetStatus? && op.status in DECIDED && op.expectedRev.None?
    requires op.prior == {} || StatusText(doc) in op.prior
    ensures CandidateAct(id, op, Some(doc)) == Put(id, written) && Accepts(s, id, written)
    ensures StatusText(written) == op.status
  {
    ReviewAcceptedIff(id, op, doc);
    CandidateCarriesRev(id, op, Some(doc));
    ReviewDecides(id, op, doc);
    written := CandidateAct(id, op, Some(doc)).doc;
  }

  lemma StoredStatus(s: Server, id: string, written: Doc)
    ensures Read(Store(s, id, written), id).Some?
    ensures StatusText(Read(Store(s, id, written), id).value) == StatusText(written)
  {
    var stored := Read(Store(s, id, written), id).value;
    assert stored - {DocId, RevKey} == written - {DocId, RevKey};
    DraftHistory.SameBodyGet(written, stored);
  }
}
