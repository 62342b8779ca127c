// The draft results over every interleaving: a run of the World machine, looked at from one draft, is a trace.
module DraftRuns {
  import opened Json
  import opened Couch
  import opened StoreOps
  import opened DraftOps
  import opened World
  import opened Refinement
  import opened DraftHistory

  /** The requests of a run that concern draft `id` are review operations and draft upserts. */
  ghost predicate ReviewOps(ops: map<nat, Op>, id: string) {
    forall c <- ops :: Faithful(ops[c]) && (IdOf(ops[c]) == id ==> ops[c].Draft? || ops[c].UpsertDraft?)
  }

  /** Commit `k` is a build of the draft. */
  predicate Builds(log: seq<Commit>, id: string, k: nat)
    requires k < |log|
  {
    log[k].target == id && log[k].op.UpsertDraft?
  }

  /** The draft before commit `k`. */
  function DraftAt(s0: Server, log: seq<Commit>, id: string, k: nat): Option<Doc>
    requires k <= |log|
  {
    Read(At(s0, log, k), id)
  }

  /** No upsert commits on a decided draft; it may create the draft, or write an undecided one again. */
  ghost predicate UpsertsSpareDecided(s0: Server, log: seq<Commit>, id: string) {
    forall k :: 0 <= k < |log| && Builds(log, id, k) ==>
                  DraftAt(s0, log, id, k).None? || !Decided(DraftAt(s0, log, id, k).value)
  }

  /** No upsert commits on a draft that carries a queue mark. */
  ghost predicate UpsertsSpareMarked(s0: Server, log: seq<Commit>, id: string) {
    forall k :: 0 <= k < |log| && Builds(log, id, k) ==>
                  DraftAt(s0, log, id, k).None? || !Marked(DraftAt(s0, log, id, k).value)
  }

  function OpOn(commit: Commit, id: string): Option<DraftOp> {
    if commit.target == id && commit.op.Draft? then Some(commit.op.draftOp) else None
  }

  /** The run as draft `id` sees it. */
  function TraceOf(s0: Server, log: seq<Commit>, id: string): Trace {
    Trace(id, seq(|log|, k requires 0 <= k < |log| => OpOn(log[k], id)),
          seq(|log| + 1, k requires 0 <= k <= |log| => Read(At(s0, log, k), id)))
  }

  lemma CommitIsStep(s0: Server, ops: map<nat, Op>, w: World, id: string, k: nat)
    requires Sound(s0, ops, w) && ReviewOps(ops, id) && k < |w.log|
    ensures DraftStep(id, OpOn(w.log[k], id), Read(At(s0, w.log, k), id), Read(At(s0, w.log, k + 1), id))
    ensures OpOn(w.log[k], id).None? && !Builds(w.log, id, k) ==>
              Read(At(s0, w.log, k + 1), id) == Read(At(s0, w.log, k), id)
  {
    var op := w.log[k].op;
    AtNext(s0, w.log, k);
    assert WritesAt(s0, w.log, k) && op == ops[w.log[k].client];
    WritesWhereItReads(op, Read(At(s0, w.log, k), IdOf(op)));
    WriteIsStep(At(s0, w.log, k), w.log[k], id);
  }

  lemma WriteIsStep(s: Server, commit: Commit, id: string)
    requires AtomicallyWrites(s, commit.op, commit.target) && IdOf(commit.op) == commit.target
    requires commit.target == id ==> commit.op.Draft? || commit.op.UpsertDraft?
    ensures DraftStep(id, OpOn(commit, id), Read(s, id), Read(Atomic(s, commit.op), id))
    ensures commit.target != id ==> Read(Atomic(s, commit.op), id) == Read(s, id)
  {
    var doc := ActOf(commit.op, Read(s, IdOf(commit.op))).doc;
    assert Atomic(s, commit.op) == Store(s, commit.target, doc);
    if commit.target == id {
      assert Read(Store(s, id, doc), id).value - {DocId, RevKey} == doc - {DocId, RevKey};
    }
  }

  lemma RunIsTrace(s0: Server, ops: map<nat, Op>, w: World, id: string)
    requires Sound(s0, ops, w) && ReviewOps(ops, id)
    ensures var t := TraceOf(s0, w.log, id);
            ValidTrace(t) && forall k :: 0 <= k < |t.ops| && !Builds(w.log, id, k) ==> Spared(t, k)
  {
    var t := TraceOf(s0, w.log, id);
    forall k | 0 <= k < |t.ops|
      ensures StepAt(t, k) && (!Builds(w.log, id, k) ==> Spared(t, k))
    {
      CommitIsStep(s0, ops, w, id, k);
    }
  }

  lemma GuardsCarryOver(s0: Server, ops: map<nat, Op>, w: World, id: string)
    requires Sound(s0, ops, w)
    requires forall c <- ops :: ops[c].Draft? ==> Guarded(ops[c].draftOp)
    ensures AllGuarded(TraceOf(s0, w.log, id))
  {
  }

  lemma DecidedSpared(s0: Server, log: seq<Commit>, id: string)
    requires UpsertsSpareDecided(s0, log, id)
    requires forall k :: 0 <= k < |log| && !Builds(log, id, k) ==> Spared(TraceOf(s0, log, id), k)
    ensures DecidedIsSpared(TraceOf(s0, log, id))
  {
    var t := TraceOf(s0, log, id);
    forall k | 0 <= k < |log| && t.docs[k].Some? && Decided(t.docs[k].value)
      ensures !Builds(log, id, k)
    {
      assert DraftAt(s0, log, id, k) == t.docs[k];
    }
  }

  /** Single decision: in every interleaving of guarded reviews and routed approvals, payload edits, queue marks and
      upserts of undecided drafts, at most one decision commits to a draft. It found the draft undecided, in a status
      it allows, and left it decided; from then on status, job type, payload and history never change; and a routed
      approval has kept the payload and the job type it replaced. */
  lemma SingleDecision(s0: Server, ops: map<nat, Op>, schedule: seq<nat>, id: string)
    requires ValidServer(s0) && ReviewOps(ops, id)
    requires forall c <- ops :: ops[c].Draft? ==> Guarded(ops[c].draftOp)
    requires UpsertsSpareDecided(s0, Run(Start(s0, ops), schedule).log, id)
    ensures var t := TraceOf(s0, Run(Start(s0, ops), schedule).log, id);
            && (forall k :: 0 <= k < |t.ops| && t.ops[k].Some? && IsDecision(t.ops[k].value) ==> DecidesAt(t, k))
            && (forall j, k :: 0 <= j < k < |t.ops| && t.ops[j].Some? && t.ops[k].Some? ==>
                  !(IsDecision(t.ops[j].value) && IsDecision(t.ops[k].value)))
  {
    NoLostUpdate(s0, ops, schedule);
    var w := Run(Start(s0, ops), schedule);
    RunIsTrace(s0, ops, w, id);
    GuardsCarryOver(s0, ops, w, id);
    DecidedSpared(s0, w.log, id);
    DecisionsSettle(TraceOf(s0, w.log, id));
  }

  lemma DecisionsSettle(t: Trace)
    requires ValidTrace(t) && AllGuarded(t) && DecidedIsSpared(t)
    ensures forall k :: 0 <= k < |t.ops| && t.ops[k].Some? && IsDecision(t.ops[k].value) ==> DecidesAt(t, k)
    ensures forall j, k :: 0 <= j < k < |t.ops| && t.ops[j].Some? && t.ops[k].Some? ==>
              !(IsDecision(t.ops[j].value) && IsDecision(t.ops[k].value))
  {
    forall k | 0 <= k < |t.ops| && t.ops[k].Some? && IsDecision(t.ops[k].value)
      ensures DecidesAt(t, k)
    {
      DecisionCommits(t, k);
    }
    forall j, k | 0 <= j < k < |t.ops| && t.ops[j].Some? && t.ops[k].Some? && IsDecision(t.ops[j].value)
      ensures !IsDecision(t.ops[k].value)
    {
      assert DecidesAt(t, j);
    }
  }

  /** Audit chain: whatever prior statuses the requests allow, the history of a draft that started without one is
      exactly the decisions and edits committed since, in commit order, chained by status, and append-only, as long
      as no upsert starts the draft anew. */
  lemma AuditTrail(s0: Server, ops: map<nat, Op>, schedule: seq<nat>, id: string, j: nat)
    requires ValidServer(s0) && ReviewOps(ops, id)
    requires var t := TraceOf(s0, Run(Start(s0, ops), schedule).log, id);
             && j < |t.docs| && t.docs[j].Some?
             && History(t.docs[j].value) == [] && Get(t.docs[j].value, ReviewStatus).Str?
    requires var log := Run(Start(s0, ops), schedule).log; forall k :: j <= k < |log| ==> !Builds(log, id, k)
    ensures var t := TraceOf(s0, Run(Start(s0, ops), schedule).log, id);
            && ValidTrace(t)
            && AuditedFrom(t, j)
  {
    NoLostUpdate(s0, ops, schedule);
    var w := Run(Start(s0, ops), schedule);
    RunIsTrace(s0, ops, w, id);
    TraceIsAudited(TraceOf(s0, w.log, id), j);
  }

  /** A freshly built draft meets the hypotheses of `AuditTrail`. */
  lemma FreshDraftHasNoHistory(draft: Doc)
    requires BuildDraft(draft).Some?
    ensures History(BuildDraft(draft).value) == [] && Get(BuildDraft(draft).value, ReviewStatus).Str?
  {
  }

  lemma MarkedSpared(s0: Server, log: seq<Commit>, id: string)
    requires UpsertsSpareMarked(s0, log, id)
    requires forall k :: 0 <= k < |log| && !Builds(log, id, k) ==> Spared(TraceOf(s0, log, id), k)
    ensures MarkedIsSpared(TraceOf(s0, log, id))
  {
    var t := TraceOf(s0, log, id);
    forall k | 0 <= k < |log| && t.docs[k].Some? && Marked(t.docs[k].value)
      ensures !Builds(log, id, k)
    {
      assert DraftAt(s0, log, id, k) == t.docs[k];
    }
  }

  /** Materialized once: over every interleaving with the other draft operations, a queue mark with a non-blank time
      is the last mark that commits, and that time stays in the draft for good. */
  lemma MaterializedOnce(s0: Server, ops: map<nat, Op>, schedule: seq<nat>, id: string)
    requires ValidServer(s0) && ReviewOps(ops, id)
    requires UpsertsSpareMarked(s0, Run(Start(s0, ops), schedule).log, id)
    ensures var t := TraceOf(s0, Run(Start(s0, ops), schedule).log, id);
            forall k :: 0 <= k < |t.ops| && t.ops[k].Some? && IsMark(t.ops[k].value) && t.ops[k].value.at != "" ==>
              MarkSettles(t, k)
  {
    NoLostUpdate(s0, ops, schedule);
    var w := Run(Start(s0, ops), schedule);
    RunIsTrace(s0, ops, w, id);
    MarkedSpared(s0, w.log, id);
    AllMarksSettle(TraceOf(s0, w.log, id));
  }

  // ---- The conditions are exact ----

  /** Exactly when an upsert re-opens a decided draft: the draft it brings is pending, and the revision it expects is
      the current one. Whatever it brings, history and queue mark are gone. */
  lemma UpsertReopensIff(draft: Doc, expectedRev: Option<nat>, doc: Doc)
    requires Truthy(Get(doc, RevKey))
    ensures var act, built := UpsertDraftAct(draft, expectedRev, Some(doc)), BuildDraft(draft);
            && (act.Put? <==> built.Some? && RevMatches(expectedRev, doc))
            && (act.Put? ==> History(act.doc) == [] && !Marked(act.doc))
            && (act.Put? ==> (!Decided(act.doc) <==> Status(built.value) == PENDING))
  {
    var built := BuildDraft(draft);
    if built.Some? {
      BuiltStatus(draft);
      ReopensBuilt(built.value, expectedRev, doc);
    }
  }

  lemma BuiltStatus(draft: Doc)
    requires BuildDraft(draft).Some?
    ensures Status(BuildDraft(draft).value) in REVIEW_STATUSES
  {
  }

  lemma ReopensBuilt(built: Doc, expectedRev: Option<nat>, doc: Doc)
    requires DocId in built && RevKey !in built && ReviewHistory !in built && Status(built) in REVIEW_STATUSES
    requires Get(built, QueueMaterializedAt) == Null && Truthy(Get(doc, RevKey))
    ensures var act := UpsertBuilt(built, expectedRev, Some(doc));
            && (act.Put? <==> RevMatches(expectedRev, doc))
            && (act.Put? ==> History(act.doc) == [] && !Marked(act.doc))
            && (act.Put? ==> (!Decided(act.doc) <==> Status(built) == PENDING))
  {
    var outgoing := built[RevKey := Get(doc, RevKey)];
    assert Get(outgoing, ReviewStatus) == Get(built, ReviewStatus) && Get(outgoing, ReviewHistory) == Null;
    assert Get(outgoing, QueueMaterializedAt) == Null;
  }

  /** An upsert committed on a draft that has been decided changes what the decision has frozen, whatever it brings. */
  lemma UpsertBreaksDecision(draft: Doc, expectedRev: Option<nat>, doc: Doc)
    requires Truthy(Get(doc, RevKey)) && History(doc) != []
    requires UpsertDraftAct(draft, expectedRev, Some(doc)).Put?
    ensures !SameDecision(doc, UpsertDraftAct(draft, expectedRev, Some(doc)).doc)
  {
    UpsertReopensIff(draft, expectedRev, doc);
  }

  /** Exactly when a decided draft is decided again: no prior statuses are given, or its status is among them. */
  lemma DecidesAgainIff(id: string, op: DraftOp, doc: Doc)
    requires IsDecision(op) && Complete(op) && op.expectedRev.None? && Truthy(Get(doc, RevKey)) && Decided(doc)
    ensures DraftAct(id, op, Some(doc)).Put? <==> op.prior == {} || Status(doc) in op.prior
  {
    DecisionAcceptedIff(id, op, doc);
  }

  /** A decision that the guard excludes: no prior statuses, or a decided one among them. */
  predicate Unguarded(op: DraftOp) {
    IsDecision(op) && Complete(op) && op.expectedRev.None? && !Guarded(op)
  }

  /** The status that lets the unguarded decision through. */
  function Opening(op: DraftOp): (status: string)
    requires Unguarded(op)
    ensures status in DECIDED && (op.prior == {} || status in op.prior)
  {
    if op.prior == {} || "approved" in op.prior then "approved" else "rejected"
  }

  function FirstReview(op: DraftOp): DraftOp
    requires Unguarded(op)
  {
    Review(Opening(op), "", "", "", None, {PENDING}, "")
  }

  function PendingStart(id: string): Server {
    Server(map[id := Entry(0, map[ReviewStatus := Str(PENDING)])], 1)
  }

  /** Both decisions have committed to the draft, `first` before `op`. */
  ghost predicate BothDecide(w: World, id: string, first: DraftOp, op: DraftOp) {
    && w.log == [Commit(1, Draft(id, first), id), Commit(0, Draft(id, op), id)]
    && w.clients.Keys == {0, 1}
    && w.clients[0].phase == Finished(Done) && w.clients[1].phase == Finished(Done)
  }

  /** The guard is exact: after an ordinary review, every unguarded decision decides the draft once more. */
  lemma UnguardedDecidesTwice(id: string, op: DraftOp)
    requires Unguarded(op)
    ensures var first := FirstReview(op);
            var w := Run(Start(PendingStart(id), map[0 := Draft(id, op), 1 := Draft(id, first)]), [1, 1, 0, 0]);
            ValidServer(PendingStart(id)) && Guarded(first) && BothDecide(w, id, first, op)
  {
    var first := FirstReview(op);
    var w0 := Start(PendingStart(id), map[0 := Draft(id, op), 1 := Draft(id, first)]);
    PendingReads(id);
    var w2 := AloneCommits(w0, 1, id, first, Read(w0.server, id).value);
    ReviewSets(id, first, Read(w0.server, id).value, Read(w2.server, id).value);
    var w4 := AloneCommits(w2, 0, id, op, Read(w2.server, id).value);
    RunOfFour(w0, 1, 1, 0, 0);
  }

  lemma PendingReads(id: string)
    ensures Read(PendingStart(id), id).Some? && Status(Read(PendingStart(id), id).value) == PENDING
  {
  }

  lemma ReviewSets(id: string, op: DraftOp, doc: Doc, after: Doc)
    requires op.Review? && DraftAct(id, op, Some(doc)).Put? && SameBody(DraftAct(id, op, Some(doc)).doc, after)
    ensures Status(after) == op.status
  {
    SameBodyGet(DraftAct(id, op, Some(doc)).doc, after);
  }

  /** A decision that is allowed commits when nobody interferes. */
  lemma AloneCommits(w: World, c: nat, id: string, op: DraftOp, doc: Doc) returns (w': World)
    requires c in w.clients && w.clients[c] == Client(Draft(id, op), Ready(0), [])
    requires Read(w.server, id) == Some(doc)
    requires IsDecision(op) && Complete(op) && op.expectedRev.None? && (op.prior == {} || Status(doc) in op.prior)
    ensures w' == Step(Step(w, c), c) && w'.log == w.log + [Commit(c, Draft(id, op), id)]
    ensures w'.clients == w.clients[c := Client(Draft(id, op), Finished(Done), [])]
    ensures DraftAct(id, op, Some(doc)).Put? && Read(w'.server, id).Some?
    ensures SameBody(DraftAct(id, op, Some(doc)).doc, Read(w'.server, id).value)
  {
    DecisionAcceptedIff(id, op, doc);
    DraftCarriesRev(id, op, Some(doc));
    var written := DraftAct(id, op, Some(doc)).doc;
    CommitsAlone(w, c, Draft(id, op), id, written);
    w' := Step(Step(w, c), c);
    assert Read(w'.server, id).value - {DocId, RevKey} == written - {DocId, RevKey};
  }
}
