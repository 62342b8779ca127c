// What the review operations do to one draft over a whole run: one decision, an audit trail, one queue mark.
module DraftHistory {
  import opened Json
  import opened Couch
  import opened StoreOps
  import opened DraftOps
  import opened World
  import opened Refinement

  // ---- One atomic operation on a draft ----

  predicate IsDecision(op: DraftOp) {
    op.Review? || op.Route?
  }

  const DECIDED := {"approved", "rejected"}

  /** The status check of a decision is on, and no decided status passes it. The default, `pending_approval` alone, is
      one such set. */
  predicate Guarded(op: DraftOp) {
    IsDecision(op) ==> op.prior != {} && op.prior !! DECIDED
  }

  predicate Decided(doc: Doc) {
    Status(doc) in DECIDED
  }

  /** The request is complete: a review sets one of the two decisions, a route comes with a payload object. */
  predicate Complete(op: DraftOp) {
    (op.Review? ==> op.status in DECIDED) && (op.Route? ==> op.payload.Some?)
  }

  /** Exactly when a decision is accepted on the draft that has just been read. */
  lemma DecisionAcceptedIff(id: string, op: DraftOp, doc: Doc)
    requires IsDecision(op) && Complete(op) && Truthy(Get(doc, RevKey))
    ensures DraftAct(id, op, Some(doc)).Put?
            <==> RevMatches(op.expectedRev, doc) && (op.prior == {} || Status(doc) in op.prior)
    ensures DraftAct(id, op, Some(doc)).Put? ==> Decided(DraftAct(id, op, Some(doc)).doc)
  {
  }

  /** The fields that a decision freezes are the same. */
  predicate SameDecision(a: Doc, b: Doc) {
    && Get(a, ReviewStatus) == Get(b, ReviewStatus) && Get(a, JobType) == Get(b, JobType)
    && Get(a, Payload) == Get(b, Payload) && Get(a, OriginalPayload) == Get(b, OriginalPayload)
    && Get(a, OriginalJobType) == Get(b, OriginalJobType) && Get(a, ReviewHistory) == Get(b, ReviewHistory)
  }

  /** A guarded decision needs an undecided draft and leaves a decided one. */
  lemma DecisionDecides(id: string, op: DraftOp, doc: Doc)
    requires IsDecision(op) && Guarded(op) && DraftAct(id, op, Some(doc)).Put?
    ensures !Decided(doc) && Status(doc) in op.prior && Decided(DraftAct(id, op, Some(doc)).doc)
  {
  }

  /** Nothing but a queue mark is accepted on a decided draft, and a mark leaves the decision alone. */
  lemma DecidedIsFrozen(id: string, op: DraftOp, doc: Doc)
    requires Guarded(op) && Decided(doc) && DraftAct(id, op, Some(doc)).Put?
    ensures IsMark(op) && SameDecision(doc, DraftAct(id, op, Some(doc)).doc)
  {
  }

  /** A routed approval keeps the payload and job type it replaces. */
  lemma RouteKeepsOriginal(id: string, op: DraftOp, doc: Doc)
    requires op.Route? && DraftAct(id, op, Some(doc)).Put?
    ensures var routed := DraftAct(id, op, Some(doc)).doc;
            && Get(routed, OriginalPayload) == Obj(ObjOf(Get(doc, Payload)))
            && Get(routed, OriginalJobType) == Str(TextOf(Get(doc, JobType)))
            && Get(routed, ReviewStatus) == Str("approved")
            && Get(routed, Payload) == (if op.jobType != "" then Obj(op.payload.value) else Get(doc, Payload))
            && Get(routed, JobType) == (if op.jobType != "" then Str(op.jobType) else Get(doc, JobType))
  {
    assert DraftAct(id, op, Some(doc)) == RouteAct(id, op, doc);
  }

  // ---- One draft over a sequence of committed operations ----

  /** Equal up to the two fields the server keeps. */
  predicate SameBody(a: Doc, b: Doc) {
    a - {DocId, RevKey} == b - {DocId, RevKey}
  }

  lemma SameBodyGet(a: Doc, b: Doc)
    requires SameBody(a, b)
    ensures forall key :: key != DocId && key != RevKey ==> Get(a, key) == Get(b, key)
  {
    forall key | key != DocId && key != RevKey
      ensures Get(a, key) == Get(b, key)
    {
      assert key in a <==> key in a - {DocId, RevKey};
      assert key in b <==> key in b - {DocId, RevKey};
    }
  }

  /** One commit as the draft sees it: a review operation on it, or something else (none), which may be a new build of
      the draft. */
  predicate DraftStep(id: string, op: Option<DraftOp>, before: Option<Doc>, after: Option<Doc>) {
    match op
    case None => before.Some? ==> after.Some?
    case Some(draftOp) =>
      && before.Some? && after.Some?
      && DraftAct(id, draftOp, before).Put?
      && SameBody(DraftAct(id, draftOp, before).doc, after.value)
  }

  /** `docs[k]` is the draft before commit `k`, and the last of `docs` the draft after all of them. */
  datatype Trace = Trace(id: string, ops: seq<Option<DraftOp>>, docs: seq<Option<Doc>>)

  predicate StepAt(t: Trace, k: nat)
    requires k < |t.ops| && |t.docs| == |t.ops| + 1
  {
    DraftStep(t.id, t.ops[k], t.docs[k], t.docs[k + 1])
  }

  ghost predicate ValidTrace(t: Trace) {
    && |t.docs| == |t.ops| + 1
    && forall k :: 0 <= k < |t.ops| ==> StepAt(t, k)
  }

  predicate AllGuarded(t: Trace) {
    forall k :: 0 <= k < |t.ops| ==> t.ops[k].Some? ==> Guarded(t.ops[k].value)
  }

  /** Commit `k` is something else and leaves the draft alone. */
  predicate Spared(t: Trace, k: nat)
    requires k < |t.ops| && |t.docs| == |t.ops| + 1
  {
    t.ops[k].None? ==> t.docs[k + 1] == t.docs[k]
  }

  /** Nothing but review operations changes a decided draft. */
  ghost predicate DecidedIsSpared(t: Trace)
    requires |t.docs| == |t.ops| + 1
  {
    forall k :: 0 <= k < |t.ops| && t.docs[k].Some? && Decided(t.docs[k].value) ==> Spared(t, k)
  }

  lemma {:induction false} DraftStays(t: Trace, j: nat, k: nat)
    requires ValidTrace(t) && j <= k <= |t.ops| && t.docs[j].Some?
    ensures t.docs[k].Some?
    decreases k
  {
    if j < k {
      DraftStays(t, j, k - 1);
      assert StepAt(t, k - 1);
    }
  }

  /** A decided draft stays as it was decided, and only queue marks are still committed to it. */
  lemma {:induction false} DecisionStands(t: Trace, j: nat, k: nat)
    requires ValidTrace(t) && AllGuarded(t) && DecidedIsSpared(t)
    requires j <= k <= |t.ops| && t.docs[j].Some? && Decided(t.docs[j].value)
    ensures t.docs[k].Some? && Decided(t.docs[k].value) && SameDecision(t.docs[j].value, t.docs[k].value)
    ensures forall m :: j <= m < k && t.ops[m].Some? ==> IsMark(t.ops[m].value)
    decreases k
  {
    if j < k {
      DecisionStands(t, j, k - 1);
      DecidedStep(t, k - 1);
      SameDecisionChains(t.docs[j].value, t.docs[k - 1].value, t.docs[k].value);
    }
  }

  lemma DecidedStep(t: Trace, k: nat)
    requires ValidTrace(t) && AllGuarded(t) && DecidedIsSpared(t) && k < |t.ops|
    requires t.docs[k].Some? && Decided(t.docs[k].value)
    ensures t.docs[k + 1].Some? && SameDecision(t.docs[k].value, t.docs[k + 1].value)
    ensures t.ops[k].Some? ==> IsMark(t.ops[k].value)
  {
    assert StepAt(t, k) && Spared(t, k);
    if t.ops[k].Some? {
      var op, doc := t.ops[k].value, t.docs[k].value;
      DecidedIsFrozen(t.id, op, doc);
      SameBodyGet(DraftAct(t.id, op, Some(doc)).doc, t.docs[k + 1].value);
    }
  }

  lemma SameDecisionChains(a: Doc, b: Doc, c: Doc)
    requires SameDecision(a, b) && SameDecision(b, c)
    ensures SameDecision(a, c) && (Decided(a) <==> Decided(c))
  {
  }

  /** What it means that commit `k` decides the draft. */
  ghost predicate DecidesAt(t: Trace, k: nat)
    requires |t.docs| == |t.ops| + 1 && k < |t.ops| && t.ops[k].Some? && IsDecision(t.ops[k].value)
  {
    && t.docs[k].Some? && t.docs[k + 1].Some?
    && var before, after := t.docs[k].value, t.docs[k + 1].value;
       && !Decided(before) && Status(before) in t.ops[k].value.prior && Decided(after)
       && (t.ops[k].value.Route? ==>
             && Get(after, OriginalPayload) == Obj(ObjOf(Get(before, Payload)))
             && Get(after, OriginalJobType) == Str(TextOf(Get(before, JobType))))
       && (forall m :: k < m <= |t.ops| ==> t.docs[m].Some? && SameDecision(after, t.docs[m].value))
       && (forall m :: k < m < |t.ops| && t.ops[m].Some? ==> IsMark(t.ops[m].value))
  }

  lemma DecisionStep(t: Trace, k: nat)
    requires ValidTrace(t) && AllGuarded(t)
    requires k < |t.ops| && t.ops[k].Some? && IsDecision(t.ops[k].value)
    ensures t.docs[k].Some? && t.docs[k + 1].Some?
    ensures !Decided(t.docs[k].value) && Status(t.docs[k].value) in t.ops[k].value.prior
    ensures Decided(t.docs[k + 1].value)
    ensures t.ops[k].value.Route? ==>
              && Get(t.docs[k + 1].value, OriginalPayload) == Obj(ObjOf(Get(t.docs[k].value, Payload)))
              && Get(t.docs[k + 1].value, OriginalJobType) == Str(TextOf(Get(t.docs[k].value, JobType)))
  {
    assert StepAt(t, k);
    var op, before, after := t.ops[k].value, t.docs[k].value, t.docs[k + 1].value;
    DecisionDecides(t.id, op, before);
    SameBodyGet(DraftAct(t.id, op, Some(before)).doc, after);
    if op.Route? {
      RouteKeepsOriginal(t.id, op, before);
    }
  }

  lemma DecisionCommits(t: Trace, k: nat)
    requires ValidTrace(t) && AllGuarded(t) && DecidedIsSpared(t)
    requires k < |t.ops| && t.ops[k].Some? && IsDecision(t.ops[k].value)
    ensures DecidesAt(t, k)
  {
    DecisionStep(t, k);
    DecisionStands(t, k + 1, |t.ops|);
    forall m | k < m <= |t.ops|
      ensures t.docs[m].Some? && SameDecision(t.docs[k + 1].value, t.docs[m].value)
    {
      DecisionStands(t, k + 1, m);
    }
  }

  // ---- The audit trail ----

  /** Whether an operation leaves an entry in the history. */
  predicate Recorded(op: Option<DraftOp>) {
    op.Some? && !IsMark(op.value)
  }

  /** The operations of a trace that leave an entry, in commit order. */
  function RecordedOps(ops: seq<Option<DraftOp>>): seq<DraftOp> {
    if ops == [] then []
    else
      var init, last := RecordedOps(ops[..|ops| - 1]), ops[|ops| - 1];
      if Recorded(last) then init + [last.value] else init
  }

  /** The entry says who did what and when, and which status it left. */
  predicate EntryOf(entry: Value, op: DraftOp) {
    && entry.Obj?
    && match op
       case Review(status, who, rationale, at, _, _, _) =>
         && Get(entry.fields, Reviewer) == Str(who) && Get(entry.fields, ReviewedAt) == Str(at)
         && Get(entry.fields, ReviewRationale) == Str(rationale)
         && Get(entry.fields, ReviewStatus) == Str(status)
       case Route(_, _, _, who, rationale, _, at, _, _) =>
         && Get(entry.fields, Reviewer) == Str(who) && Get(entry.fields, ReviewedAt) == Str(at)
         && Get(entry.fields, ReviewRationale) == Str(rationale)
         && Get(entry.fields, ReviewStatus) == Str("approved")
       case EditPayload(_, _, who, at, _) =>
         && Get(entry.fields, Editor) == Str(who) && Get(entry.fields, EditedAt) == Str(at)
         && Get(entry.fields, ReviewStatus) == Str(PENDING)
       case _ => false
  }

  /** One entry per operation, in the same order. */
  predicate Entries(history: seq<Value>, ops: seq<DraftOp>) {
    |history| == |ops| && forall i :: 0 <= i < |history| ==> EntryOf(history[i], ops[i])
  }

  lemma EntriesGrow(history: seq<Value>, ops: seq<DraftOp>, entry: Value, op: DraftOp)
    requires Entries(history, ops) && EntryOf(entry, op)
    ensures Entries(history + [entry], ops + [op])
  {
  }

  lemma RecordedGrows(ops: seq<Option<DraftOp>>, op: Option<DraftOp>)
    ensures RecordedOps(ops + [op]) == RecordedOps(ops) + (if Recorded(op) then [op.value] else [])
  {
    assert (ops + [op])[..|ops|] == ops;
  }

  /** The status before entry `i`: what the previous entry left, or the first status of the draft. */
  function StatusBefore(first: Value, history: seq<Value>, i: nat): Value
    requires i <= |history|
  {
    if i == 0 then first else Get(ObjOf(history[i - 1]), ReviewStatus)
  }

  /** Entry `i` starts from the status that was current. */
  predicate Continues(first: Value, history: seq<Value>, i: nat)
    requires i < |history|
  {
    Get(ObjOf(history[i]), PriorStatus) == StatusBefore(first, history, i)
  }

  /** The history starts at `first`, every entry continues where the previous one ended, and the last one ends at
      the status of the document. */
  ghost predicate AuditChain(first: Value, doc: Doc) {
    var history := History(doc);
    && Get(doc, ReviewStatus).Str?
    && (forall i :: 0 <= i < |history| ==> Continues(first, history, i))
    && Get(doc, ReviewStatus) == StatusBefore(first, history, |history|)
  }

  lemma EntryFields(op: DraftOp, doc: Doc)
    requires !IsMark(op) && (op.EditPayload? ==> Status(doc) == PENDING)
    ensures EntryOf(Obj(HistoryEntry(op, doc)), op)
    ensures Get(HistoryEntry(op, doc), PriorStatus) == Str(Status(doc))
  {
  }

  /** An accepted recorded operation appends exactly its entry and sets the status the entry names. */
  lemma RecordedAppends(id: string, op: DraftOp, doc: Doc)
    requires !IsMark(op) && DraftAct(id, op, Some(doc)).Put? && Get(doc, ReviewStatus).Str?
    ensures var after := DraftAct(id, op, Some(doc)).doc;
            && History(after) == History(doc) + [Obj(HistoryEntry(op, doc))]
            && Get(after, ReviewStatus) == Get(HistoryEntry(op, doc), ReviewStatus)
            && Get(after, ReviewStatus).Str?
    ensures op.EditPayload? ==> Status(doc) == PENDING
  {
  }

  lemma MarkRecordsNothing(id: string, op: DraftOp, doc: Doc)
    requires IsMark(op) && DraftAct(id, op, Some(doc)).Put?
    ensures var after := DraftAct(id, op, Some(doc)).doc;
            Get(after, ReviewHistory) == Get(doc, ReviewHistory)
            && Get(after, ReviewStatus) == Get(doc, ReviewStatus)
  {
  }

  lemma ChainGrows(first: Value, before: Doc, after: Doc, entry: Doc)
    requires AuditChain(first, before)
    requires History(after) == History(before) + [Obj(entry)]
    requires Get(after, ReviewStatus) == Get(entry, ReviewStatus) && Get(after, ReviewStatus).Str?
    requires Get(entry, PriorStatus) == Str(Status(before))
    ensures AuditChain(first, after)
  {
    var h, h' := History(before), History(after);
    forall i | 0 <= i < |h'|
      ensures Continues(first, h', i)
    {
      if i < |h| {
        assert Continues(first, h, i);
        assert h'[i] == h[i] && (i > 0 ==> h'[i - 1] == h[i - 1]);
      } else {
        assert i > 0 ==> h'[i - 1] == h[i - 1];
        assert Str(Status(before)) == Get(before, ReviewStatus);
      }
    }
  }

  /** Between documents `j` and `k` of the trace the history has become the committed decisions and payload edits,
      in commit order. */
  ghost predicate HistoryMatches(t: Trace, j: nat, k: nat)
    requires ValidTrace(t) && j <= k <= |t.ops|
  {
    && t.docs[j].Some? && t.docs[k].Some?
    && AuditChain(Get(t.docs[j].value, ReviewStatus), t.docs[k].value)
    && Entries(History(t.docs[k].value), RecordedOps(t.ops[j..k]))
  }

  lemma CommitExtendsHistory(id: string, op: Option<DraftOp>, before: Doc, after: Doc, first: Value)
    requires DraftStep(id, op, Some(before), Some(after)) && AuditChain(first, before)
    requires op.None? ==> after == before
    ensures AuditChain(first, after)
    ensures Recorded(op) ==>
              && History(after) == History(before) + [Obj(HistoryEntry(op.value, before))]
              && EntryOf(Obj(HistoryEntry(op.value, before)), op.value)
    ensures !Recorded(op) ==> History(after) == History(before)
  {
    if op.Some? {
      SameBodyGet(DraftAct(id, op.value, Some(before)).doc, after);
      if IsMark(op.value) {
        MarkRecordsNothing(id, op.value, before);
      } else {
        RecordedAppends(id, op.value, before);
        EntryFields(op.value, before);
        ChainGrows(first, before, after, HistoryEntry(op.value, before));
      }
    }
  }

  /** From document `j` on, nothing but review operations changes the draft. */
  ghost predicate SparedFrom(t: Trace, j: nat)
    requires |t.docs| == |t.ops| + 1
  {
    forall k :: j <= k < |t.ops| ==> Spared(t, k)
  }

  lemma HistoryStep(t: Trace, j: nat, k: nat)
    requires ValidTrace(t) && SparedFrom(t, j) && j <= k < |t.ops| && HistoryMatches(t, j, k)
    ensures HistoryMatches(t, j, k + 1)
    ensures History(t.docs[k].value) <= History(t.docs[k + 1].value)
  {
    assert t.ops[j..k + 1] == t.ops[j..k] + [t.ops[k]];
    assert StepAt(t, k) && Spared(t, k);
    var op, before, after := t.ops[k], t.docs[k].value, t.docs[k + 1].value;
    CommitExtendsHistory(t.id, op, before, after, Get(t.docs[j].value, ReviewStatus));
    RecordedGrows(t.ops[j..k], op);
    if Recorded(op) {
      EntriesGrow(History(before), RecordedOps(t.ops[j..k]), Obj(HistoryEntry(op.value, before)), op.value);
    }
  }

  lemma HistoryStarts(t: Trace, j: nat)
    requires ValidTrace(t) && j <= |t.ops| && t.docs[j].Some?
    requires History(t.docs[j].value) == [] && Get(t.docs[j].value, ReviewStatus).Str?
    ensures HistoryMatches(t, j, j)
  {
    assert t.ops[j..j] == [];
    assert Entries([], []);
  }

  /** Audit chain: from a draft with no history, whatever prior statuses the reviewers allow, the history is the
      committed decisions and payload edits in commit order, each entry continuing the previous one, the last one
      ending at the document's status. */
  lemma {:induction false} HistoryIsTheRun(t: Trace, j: nat, k: nat)
    requires ValidTrace(t) && SparedFrom(t, j) && j <= k <= |t.ops| && t.docs[j].Some?
    requires History(t.docs[j].value) == [] && Get(t.docs[j].value, ReviewStatus).Str?
    ensures HistoryMatches(t, j, k)
    decreases k
  {
    if j < k {
      HistoryIsTheRun(t, j, k - 1);
      HistoryStep(t, j, k - 1);
    } else {
      HistoryStarts(t, j);
    }
  }

  /** The history only ever grows at its end. */
  lemma {:induction false} HistoryIsAppendOnly(t: Trace, j: nat, i: nat, k: nat)
    requires ValidTrace(t) && SparedFrom(t, j) && j <= i <= k <= |t.ops| && HistoryMatches(t, j, i)
    ensures HistoryMatches(t, j, k)
    ensures History(t.docs[i].value) <= History(t.docs[k].value)
    decreases k
  {
    if i < k {
      HistoryIsAppendOnly(t, j, i, k - 1);
      HistoryStep(t, j, k - 1);
    }
  }

  /** From document `j` on, the history is the run and only grows. */
  ghost predicate AuditedFrom(t: Trace, j: nat)
    requires ValidTrace(t)
  {
    && (forall k :: j <= k < |t.docs| ==> HistoryMatches(t, j, k))
    && (forall i, k :: j <= i <= k < |t.docs| ==> t.docs[i].Some? && t.docs[k].Some?)
    && (forall i, k :: j <= i <= k < |t.docs| ==> History(t.docs[i].value) <= History(t.docs[k].value))
  }

  lemma TraceIsAudited(t: Trace, j: nat)
    requires ValidTrace(t) && j < |t.docs| && t.docs[j].Some? && SparedFrom(t, j)
    requires History(t.docs[j].value) == [] && Get(t.docs[j].value, ReviewStatus).Str?
    ensures AuditedFrom(t, j)
  {
    forall k | j <= k < |t.docs|
      ensures HistoryMatches(t, j, k)
    {
      HistoryIsTheRun(t, j, k);
    }
    forall i, k | j <= i <= k < |t.docs|
      ensures t.docs[i].Some? && t.docs[k].Some? && History(t.docs[i].value) <= History(t.docs[k].value)
    {
      HistoryIsTheRun(t, j, i);
      HistoryIsAppendOnly(t, j, i, k);
    }
  }

  // ---- The queue mark ----

  lemma MarkMeansUnmarked(id: string, op: DraftOp, doc: Doc)
    requires IsMark(op) && DraftAct(id, op, Some(doc)).Put?
    ensures !Truthy(Get(doc, QueueMaterializedAt))
    ensures Get(DraftAct(id, op, Some(doc)).doc, QueueMaterializedAt) == Str(op.at)
  {
  }

  lemma OthersLeaveMark(id: string, op: DraftOp, doc: Doc)
    requires !IsMark(op) && DraftAct(id, op, Some(doc)).Put?
    ensures Get(DraftAct(id, op, Some(doc)).doc, QueueMaterializedAt) == Get(doc, QueueMaterializedAt)
  {
  }

  predicate Marked(doc: Doc) {
    Truthy(Get(doc, QueueMaterializedAt))
  }

  /** Nothing but review operations changes a marked draft. */
  ghost predicate MarkedIsSpared(t: Trace)
    requires |t.docs| == |t.ops| + 1
  {
    forall k :: 0 <= k < |t.ops| && t.docs[k].Some? && Marked(t.docs[k].value) ==> Spared(t, k)
  }

  /** Materialized once: as soon as the draft carries a mark, no mark commits any more and the mark never changes,
      whatever reviews and edits do in between. */
  lemma {:induction false} MarkStands(t: Trace, j: nat, k: nat)
    requires ValidTrace(t) && MarkedIsSpared(t) && j <= k <= |t.ops|
    requires t.docs[j].Some? && Marked(t.docs[j].value)
    ensures t.docs[k].Some?
    ensures Get(t.docs[k].value, QueueMaterializedAt) == Get(t.docs[j].value, QueueMaterializedAt)
    ensures forall m :: j <= m < k && t.ops[m].Some? ==> !IsMark(t.ops[m].value)
    decreases k
  {
    if j < k {
      MarkStands(t, j, k - 1);
      assert Spared(t, k - 1);
      MarkStep(t, k - 1);
    }
  }

  lemma MarkStep(t: Trace, k: nat)
    requires ValidTrace(t) && k < |t.ops| && t.docs[k].Some? && Spared(t, k)
    ensures t.docs[k + 1].Some?
    ensures if t.ops[k].Some? && IsMark(t.ops[k].value) then
              !Truthy(Get(t.docs[k].value, QueueMaterializedAt))
              && Get(t.docs[k + 1].value, QueueMaterializedAt) == Str(t.ops[k].value.at)
            else Get(t.docs[k + 1].value, QueueMaterializedAt) == Get(t.docs[k].value, QueueMaterializedAt)
  {
    assert StepAt(t, k);
    if t.ops[k].Some? {
      var op, before := t.ops[k].value, t.docs[k].value;
      SameBodyGet(DraftAct(t.id, op, Some(before)).doc, t.docs[k + 1].value);
      if IsMark(op) {
        MarkMeansUnmarked(t.id, op, before);
      } else {
        OthersLeaveMark(t.id, op, before);
      }
    }
  }

  /** The mark of commit `k` is the last one, and its time stays in the draft. */
  ghost predicate MarkSettles(t: Trace, k: nat)
    requires |t.docs| == |t.ops| + 1 && k < |t.ops| && t.ops[k].Some? && IsMark(t.ops[k].value)
  {
    && (forall m :: k < m < |t.ops| && t.ops[m].Some? ==> !IsMark(t.ops[m].value))
    && (forall m :: k < m <= |t.ops| ==>
          t.docs[m].Some? && Get(t.docs[m].value, QueueMaterializedAt) == Str(t.ops[k].value.at))
  }

  /** A mark that commits with a non-blank time is the last one. */
  lemma MarkedOnce(t: Trace, k: nat)
    requires ValidTrace(t) && MarkedIsSpared(t)
    requires k < |t.ops| && t.ops[k].Some? && IsMark(t.ops[k].value) && t.ops[k].value.at != ""
    ensures MarkSettles(t, k)
  {
    assert StepAt(t, k);
    MarkStep(t, k);
    MarkStands(t, k + 1, |t.ops|);
    forall m | k < m <= |t.ops|
      ensures t.docs[m].Some? && Get(t.docs[m].value, QueueMaterializedAt) == Str(t.ops[k].value.at)
    {
      MarkStands(t, k + 1, m);
    }
  }

  lemma AllMarksSettle(t: Trace)
    requires ValidTrace(t) && MarkedIsSpared(t)
    ensures forall k :: 0 <= k < |t.ops| && t.ops[k].Some? && IsMark(t.ops[k].value) && t.ops[k].value.at != "" ==>
              MarkSettles(t, k)
  {
    forall k | 0 <= k < |t.ops| && t.ops[k].Some? && IsMark(t.ops[k].value) && t.ops[k].value.at != ""
      ensures MarkSettles(t, k)
    {
      MarkedOnce(t, k);
    }
  }

  /** The time must not be blank, and that is the exact condition: right after a mark has committed, another mark is
      accepted if and only if the first one had a blank time. */
  lemma MarkRepeatsIffBlank(id: string, op: DraftOp, again: DraftOp, doc: Doc)
    requires IsMark(op) && IsMark(again) && again.expectedRev.None? && DraftAct(id, op, Some(doc)).Put?
    ensures DraftAct(id, again, Some(DraftAct(id, op, Some(doc)).doc)).Put? <==> op.at == ""
  {
    MarkMeansUnmarked(id, op, doc);
  }
}
