// What a client that has finished has done: some step of the run stored what its operation makes of a document that
// was read before, or there was a reason not to, or every attempt was refused.
module Executions {
  import opened Json
  import opened Couch
  import opened StoreOps
  import opened World
  import opened Effects
  import opened Reasons

  /** This is what a GET of the document returns before some step of the schedule. */
  ghost predicate WasRead(w: World, schedule: seq<nat>, id: string, doc: Option<Doc>) {
    exists k :: 0 <= k < |schedule| && Read(Run(w, schedule[..k]).server, id) == doc
  }

  /** Step `k` stores this body under this id and leaves every other document alone. */
  ghost predicate StepWrote(w: World, schedule: seq<nat>, k: nat, target: string, body: Doc) {
    k < |schedule| && Wrote(Run(w, schedule[..k]).server, Run(w, schedule[..k + 1]).server, target, body)
  }

  /** A step of the schedule wrote what the operation makes of a document that was read before it. */
  ghost predicate Executed(w: World, schedule: seq<nat>, op: Op) {
    exists k: nat, read, target, body ::
      && StepWrote(w, schedule, k, target, body) && WasRead(w, schedule[..k], IdOf(op), read)
      && Carries(op, read, target, body)
  }

  /** The operation had a reason to end with this outcome, given a document that was read. */
  ghost predicate Declined(w: World, schedule: seq<nat>, op: Op, outcome: Outcome) {
    exists read :: WasRead(w, schedule, IdOf(op), read) && Declines(op, read, outcome)
  }

  lemma StillRead(w: World, schedule: seq<nat>, c: nat, id: string, doc: Option<Doc>)
    requires WasRead(w, schedule, id, doc)
    ensures WasRead(w, schedule + [c], id, doc)
  {
    var k :| 0 <= k < |schedule| && Read(Run(w, schedule[..k]).server, id) == doc;
    assert (schedule + [c])[..k] == schedule[..k];
  }

  lemma StillExecuted(w: World, schedule: seq<nat>, c: nat, op: Op)
    requires Executed(w, schedule, op)
    ensures Executed(w, schedule + [c], op)
  {
    var k: nat, read, target, body :|
      && StepWrote(w, schedule, k, target, body) && WasRead(w, schedule[..k], IdOf(op), read)
      && Carries(op, read, target, body);
    var longer := schedule + [c];
    assert longer[..k] == schedule[..k] && longer[..k + 1] == schedule[..k + 1];
    assert StepWrote(w, longer, k, target, body);
  }

  /** What is known of a client that started with `op`, after any schedule. */
  ghost predicate Tracked(w: World, schedule: seq<nat>, c: nat, op: Op) {
    var now := Run(w, schedule);
    && c in now.clients && now.clients[c].op == op
    && (now.clients[c].phase.Holding? ==> WasRead(w, schedule, IdOf(op), now.clients[c].phase.snap))
    && (now.clients[c].phase == Finished(Done) ==> Executed(w, schedule, op))
    && CountsAttempts(op, now.clients[c])
    && (now.clients[c].phase.Finished? && now.clients[c].phase.outcome != Done ==>
          Declined(w, schedule, op, now.clients[c].phase.outcome) || Exhausted(op, now.clients[c]))
  }

  /** The attempts made so far are the PUTs refused so far. */
  predicate CountsAttempts(op: Op, client: Client) {
    match client.phase
    case Ready(attempt) => |client.refused| == attempt <= Budget(op)
    case Holding(attempt, _, _) => |client.refused| == attempt < Budget(op)
    case Finished(_) => true
  }

  /** Every attempt was refused. */
  predicate Exhausted(op: Op, client: Client) {
    client.phase == Finished(Refusal(op)) && |client.refused| == Budget(op)
  }

  lemma StillDeclined(w: World, schedule: seq<nat>, c: nat, op: Op, outcome: Outcome)
    requires Declined(w, schedule, op, outcome)
    ensures Declined(w, schedule + [c], op, outcome)
  {
    var read :| WasRead(w, schedule, IdOf(op), read) && Declines(op, read, outcome);
    StillRead(w, schedule, c, IdOf(op), read);
  }

  /** The accepted PUT of what the operation decided. */
  lemma AcceptedExecutes(w: World, schedule: seq<nat>, c: nat, op: Op, snap: Option<Doc>, target: string, doc: Doc)
    requires WasRead(w, schedule, IdOf(op), snap) && ActOf(op, snap) == Put(target, doc)
    requires Run(w, schedule + [c]).server == Store(Run(w, schedule).server, target, doc)
    ensures Executed(w, schedule + [c], op)
  {
    var longer, k := schedule + [c], |schedule|;
    assert longer[..k] == schedule && longer[..k + 1] == longer;
    StoreWrites(Run(w, schedule).server, target, doc);
    ActCarries(op, snap);
    assert StepWrote(w, longer, k, target, BodyOf(doc));
  }

  lemma RunOneMore(w: World, schedule: seq<nat>, c: nat)
    ensures Run(w, schedule + [c]) == Step(Run(w, schedule), c)
  {
    assert (schedule + [c])[..|schedule|] == schedule;
  }

  lemma OwnStepTracked(w: World, schedule: seq<nat>, c: nat, op: Op)
    requires Tracked(w, schedule, c, op)
    ensures Tracked(w, schedule + [c], c, op)
  {
    RunOneMore(w, schedule, c);
    match Run(w, schedule).clients[c].phase
    case Ready(_) => GetTracked(w, schedule, c, op);
    case Holding(_, _, _) => PutTracked(w, schedule, c, op);
    case Finished(_) => FinishedTracked(w, schedule, c, c, op);
  }

  lemma GetTracked(w: World, schedule: seq<nat>, c: nat, op: Op)
    requires Tracked(w, schedule, c, op) && Run(w, schedule).clients[c].phase.Ready?
    ensures Tracked(w, schedule + [c], c, op)
  {
    RunOneMore(w, schedule, c);
    assert (schedule + [c])[..|schedule|] == schedule;
  }

  lemma PutTracked(w: World, schedule: seq<nat>, c: nat, op: Op)
    requires Tracked(w, schedule, c, op) && Run(w, schedule).clients[c].phase.Holding?
    ensures Tracked(w, schedule + [c], c, op)
  {
    var now := Run(w, schedule);
    var snap, act := now.clients[c].phase.snap, ActOf(op, now.clients[c].phase.snap);
    RunOneMore(w, schedule, c);
    StillRead(w, schedule, c, IdOf(op), snap);
    StopIsNotDone(op, snap);
    if act.Stop? {
      StopDeclines(op, snap);
    } else if Accepts(now.server, act.target, act.doc) {
      AcceptedExecutes(w, schedule, c, op, snap, act.target, act.doc);
    }
  }

  /** Any further step leaves a client that has finished as it is. */
  lemma FinishedTracked(w: World, schedule: seq<nat>, c: nat, other: nat, op: Op)
    requires Tracked(w, schedule, c, op) && Run(w, schedule).clients[c].phase.Finished?
    requires c in Run(w, schedule + [other]).clients
    requires Run(w, schedule + [other]).clients[c] == Run(w, schedule).clients[c]
    ensures Tracked(w, schedule + [other], c, op)
  {
    var client := Run(w, schedule).clients[c];
    if client.phase.outcome == Done {
      StillExecuted(w, schedule, other, op);
    } else if Declined(w, schedule, op, client.phase.outcome) {
      StillDeclined(w, schedule, other, op, client.phase.outcome);
    }
  }

  lemma OtherStepLeaves(w: World, c: nat, other: nat)
    requires c in w.clients && other != c
    ensures c in Step(w, other).clients && Step(w, other).clients[c] == w.clients[c]
  {
  }

  lemma OtherStepTracked(w: World, schedule: seq<nat>, c: nat, other: nat, op: Op)
    requires Tracked(w, schedule, c, op) && other != c
    ensures Tracked(w, schedule + [other], c, op)
  {
    RunOneMore(w, schedule, other);
    OtherStepLeaves(Run(w, schedule), c, other);
    LeftAloneTracked(w, schedule, c, other, op);
  }

  lemma LeftAloneTracked(w: World, schedule: seq<nat>, c: nat, other: nat, op: Op)
    requires Tracked(w, schedule, c, op) && c in Run(w, schedule + [other]).clients
    requires Run(w, schedule + [other]).clients[c] == Run(w, schedule).clients[c]
    ensures Tracked(w, schedule + [other], c, op)
  {
    var client := Run(w, schedule).clients[c];
    if client.phase.Holding? {
      StillRead(w, schedule, other, IdOf(op), client.phase.snap);
    } else if client.phase.Finished? {
      FinishedTracked(w, schedule, c, other, op);
    }
  }

  /** Whatever the schedule: a client that is done has executed its operation, and any other that has finished had a
      reason, or was refused on every attempt. */
  lemma {:induction false} ClientsAreTracked(w: World, schedule: seq<nat>, c: nat, op: Op)
    requires c in w.clients && w.clients[c] == Client(op, Ready(0), [])
    ensures Tracked(w, schedule, c, op)
    decreases |schedule|
  {
    if schedule != [] {
      var init, last := schedule[..|schedule| - 1], schedule[|schedule| - 1];
      ClientsAreTracked(w, init, c, op);
      assert schedule == init + [last];
      if last == c {
        OwnStepTracked(w, init, c, op);
      } else {
        OtherStepTracked(w, init, c, last, op);
      }
    }
  }

  /** A step wrote what the transform makes of a document that was read before it, or of the seed in its absence. */
  ghost predicate Transformed(w: World, schedule: seq<nat>, id: string, transform: Transform, seed: Option<Doc>,
                              requireExisting: bool)
  {
    exists k: nat, read, written ::
      && StepWrote(w, schedule, k, TargetId(written), BodyOf(written)) && WasRead(w, schedule[..k], id, read)
      && (requireExisting ==> read.Some?) && transform(if read.Some? then read else seed) == Some(written)
  }

  /** A body without the two fields of the server is determined by the others. */
  lemma BodyIs(doc: Doc, body: Doc)
    requires SameBut(doc, body, {}) && DocId !in body && RevKey !in body
    ensures body == BodyOf(doc)
  {
    forall key: Key
      ensures key in body <==> key in BodyOf(doc)
      ensures key in body ==> body[key] == BodyOf(doc)[key]
    {
      assert key != DocId && key != RevKey ==> SameField(doc, body, key);
    }
    assert body.Keys == BodyOf(doc).Keys;
  }

  lemma UpdateTransforms(w: World, schedule: seq<nat>, op: Op)
    requires op.Update? && Executed(w, schedule, op)
    ensures Transformed(w, schedule, op.id, op.transform, op.seed, op.requireExisting)
  {
    var k: nat, read, target, body :|
      && StepWrote(w, schedule, k, target, body) && WasRead(w, schedule[..k], IdOf(op), read)
      && Carries(op, read, target, body);
    var written := op.transform(if read.Some? then read else op.seed).value;
    BodyIs(written, body);
    assert StepWrote(w, schedule, k, TargetId(written), BodyOf(written));
  }

  /** How a call that used `attempts` attempts at most came to its outcome. */
  ghost predicate Accounts(w: World, schedule: seq<nat>, op: Op, outcome: Outcome, refusals: nat, attempts: nat) {
    if outcome == Done then Executed(w, schedule, op)
    else
      || Declined(w, schedule, op, outcome)
      || (outcome == (if op.Draft? || op.Candidate? then AlreadyDecided else Conflict) && refusals == attempts)
  }

  lemma FinishedAccounts(w: World, schedule: seq<nat>, c: nat, op: Op, outcome: Outcome)
    requires c in w.clients && w.clients[c] == Client(op, Ready(0), [])
    requires c in Run(w, schedule).clients && Run(w, schedule).clients[c].phase == Finished(outcome)
    ensures Accounts(w, schedule, op, outcome, |Run(w, schedule).clients[c].refused|, Budget(op))
  {
    ClientsAreTracked(w, schedule, c, op);
  }

  /** The steps from one moment of a run to a later one. */
  lemma StepsBetween(start: World, past: seq<nat>, later: seq<nat>)
    requires past <= later
    ensures Run(Run(start, past), later[|past|..]) == Run(start, later)
  {
    RunAppend(start, past, later[|past|..]);
    assert later == past + later[|past|..];
  }
}
