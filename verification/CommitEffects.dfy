// Every commit of every run has the effect its operation promises, on the store left by the commit before it.
module CommitEffects {
  import opened Json
  import opened Couch
  import opened StoreOps
  import opened DraftOps
  import opened World
  import opened Refinement
  import opened DraftEffects
  import opened Effects

  /** Commit `k` stores what its operation makes of the document as the commits before it left it, and nothing else. */
  ghost predicate EffectAt(s0: Server, log: seq<Commit>, k: nat)
    requires k < |log|
  {
    exists body ::
      && Carries(log[k].op, Read(At(s0, log, k), IdOf(log[k].op)), log[k].target, body)
      && Wrote(At(s0, log, k), At(s0, log, k + 1), log[k].target, body)
  }

  lemma AtomicWrites(s: Server, op: Op, target: string)
    requires AtomicallyWrites(s, op, target)
    ensures var doc := ActOf(op, Read(s, IdOf(op))).doc;
            Carries(op, Read(s, IdOf(op)), target, BodyOf(doc)) && Wrote(s, Atomic(s, op), target, BodyOf(doc))
  {
    ActCarries(op, Read(s, IdOf(op)));
    StoreWrites(s, target, ActOf(op, Read(s, IdOf(op))).doc);
  }

  lemma CommitHasEffect(s0: Server, log: seq<Commit>, k: nat)
    requires k < |log| && WritesAt(s0, log, k)
    ensures EffectAt(s0, log, k)
  {
    AtNext(s0, log, k);
    AtomicWrites(At(s0, log, k), log[k].op, log[k].target);
  }

  /** Over every schedule of faithful operations, every commit has its effect on its immediate predecessor. */
  lemma EveryCommitHasItsEffect(s0: Server, ops: map<nat, Op>, schedule: seq<nat>)
    requires ValidServer(s0)
    requires forall c <- ops :: Faithful(ops[c])
    ensures var log := Run(Start(s0, ops), schedule).log; forall k :: 0 <= k < |log| ==> EffectAt(s0, log, k)
  {
    NoLostUpdate(s0, ops, schedule);
    var log := Run(Start(s0, ops), schedule).log;
    forall k | 0 <= k < |log|
      ensures EffectAt(s0, log, k)
    {
      assert WritesAt(s0, log, k);
      CommitHasEffect(s0, log, k);
    }
  }

  /** What a GET returns after a step that wrote the document. */
  lemma ReadsWhatWasWritten(s: Server, s': Server, id: string, body: Doc)
    requires Wrote(s, s', id, body)
    ensures Read(s', id).Some? && SameBut(body, Read(s', id).value, {})
  {
  }

  /** The payload of a draft after a committed edit: the one given, with its validation error, editor and time; all
      other fields but the history are as before. */
  ghost predicate EditStored(op: DraftOp, before: Option<Doc>, after: Option<Doc>)
    requires op.EditPayload?
  {
    && before.Some? && after.Some? && op.payload.Some?
    && Get(after.value, Payload) == Obj(op.payload.value) && Get(after.value, ValidationError) == op.validationError
    && Get(after.value, EditedBy) == Str(op.who) && Get(after.value, EditedAt) == Str(op.at)
    && SameBut(before.value, after.value, {Payload, ValidationError, EditedBy, EditedAt, ReviewHistory})
  }

  lemma EditReads(op: DraftOp, read: Doc, body: Doc, after: Doc)
    requires op.EditPayload? && Edits(op, read, body) && SameBut(body, after, {})
    ensures EditStored(op, Some(read), Some(after))
  {
    assert SameField(body, after, Payload) && SameField(body, after, ValidationError);
    assert SameField(body, after, EditedBy) && SameField(body, after, EditedAt);
    SameButChains(read, body, after, {Payload, ValidationError, EditedBy, EditedAt, ReviewHistory}, {});
    assert {Payload, ValidationError, EditedBy, EditedAt, ReviewHistory} + {}
        == {Payload, ValidationError, EditedBy, EditedAt, ReviewHistory};
  }

  /** In every run, a committed payload edit leaves the given payload in the draft. */
  lemma EditsAreStored(s0: Server, ops: map<nat, Op>, schedule: seq<nat>, k: nat)
    requires ValidServer(s0)
    requires forall c <- ops :: Faithful(ops[c])
    requires var log := Run(Start(s0, ops), schedule).log;
             k < |log| && log[k].op.Draft? && log[k].op.draftOp.EditPayload?
    ensures var log := Run(Start(s0, ops), schedule).log;
            EditStored(log[k].op.draftOp, Read(At(s0, log, k), log[k].op.id), Read(At(s0, log, k + 1), log[k].op.id))
  {
    EveryCommitHasItsEffect(s0, ops, schedule);
    EditAt(s0, Run(Start(s0, ops), schedule).log, k);
  }

  lemma EditAt(s0: Server, log: seq<Commit>, k: nat)
    requires k < |log| && EffectAt(s0, log, k) && log[k].op.Draft? && log[k].op.draftOp.EditPayload?
    ensures EditStored(log[k].op.draftOp, Read(At(s0, log, k), log[k].op.id), Read(At(s0, log, k + 1), log[k].op.id))
  {
    var op, id := log[k].op.draftOp, log[k].op.id;
    var body :| Carries(log[k].op, Read(At(s0, log, k), id), log[k].target, body)
                && Wrote(At(s0, log, k), At(s0, log, k + 1), log[k].target, body);
    ReadsWhatWasWritten(At(s0, log, k), At(s0, log, k + 1), id, body);
    EditReads(op, Read(At(s0, log, k), id).value, body, Read(At(s0, log, k + 1), id).value);
  }
}
