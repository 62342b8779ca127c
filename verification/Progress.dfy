// Every HTTP 409 that a client meets is caused by another client's commit to the same document, between this
// client's GET and its PUT, and no commit is blamed twice.
module Progress {
  import opened Json
  import opened Couch
  import opened StoreOps
  import opened DraftOps
  import opened World
  import opened Refinement

  /** The request leaves revision handling to the store: it neither sets nor removes `_rev`, and the transform of
      `update_doc` does not redirect the write. */
  ghost predicate LeavesRevAlone(op: Op) {
    match op
    case Upsert(doc) => RevKey !in doc
    case Update(id, transform, seed, requireExisting, _) => KeepsId(id, transform, seed, requireExisting)
    case Patch(_, fields, _) => RevKey !in fields
    case DeleteFields(_, names, _) => RevKey !in names
    case Draft(_, _) => true
    case UpsertDraft(_, _) => true
    case Candidate(_, _) => true
    case UpsertCandidate(_) => true
  }

  /** Commits to document `id` by clients other than `c`, among the first `hi` of the log. */
  function ForeignCommits(log: seq<Commit>, hi: nat, c: nat, id: string): set<nat>
    requires hi <= |log|
  {
    set k: nat | k < hi && log[k].target == id && log[k].client != c
  }

  ghost predicate HasForeignCommit(log: seq<Commit>, window: Window, c: nat, id: string) {
    window.lo <= window.hi <= |log| &&
    exists k :: window.lo <= k < window.hi && log[k].target == id && log[k].client != c
  }

  /** The refused attempts lie one after the other, each with its own foreign commit. */
  ghost predicate Charged(log: seq<Commit>, refused: seq<Window>, c: nat, id: string) {
    && (forall i :: 0 <= i < |refused| ==> HasForeignCommit(log, refused[i], c, id))
    && (forall i, j :: 0 <= i < j < |refused| ==> refused[i].hi <= refused[j].lo)
  }

  /** While a snapshot is held, either the document is still as it was read, or somebody else has written it. */
  ghost predicate WatchSound(w: World, c: nat)
    requires c in w.clients
  {
    var Client(op, phase, refused) := w.clients[c];
    && Charged(w.log, refused, c, IdOf(op))
    && (phase.Holding? ==>
          && phase.since <= |w.log|
          && (forall i :: 0 <= i < |refused| ==> refused[i].hi <= phase.since)
          && (Read(w.server, IdOf(op)) == phase.snap
              || HasForeignCommit(w.log, Window(phase.since, |w.log|), c, IdOf(op))))
  }

  lemma HonestCarriesRev(op: Op, snap: Option<Doc>)
    requires LeavesRevAlone(op) && (snap.Some? ==> IsCopyOf(snap.value, IdOf(op)))
    ensures CarriesSnapshotRev(ActOf(op, snap), IdOf(op), snap)
  {
    match op
    case Update(_, _, _, _, _) => UpdateCarriesRev(op, snap);
    case Draft(id, draftOp) => DraftCarriesRev(id, draftOp, snap);
    case UpsertDraft(draft, expectedRev) => UpsertDraftCarriesRev(draft, expectedRev, snap);
    case Candidate(id, candidateOp) => CandidateCarriesRev(id, candidateOp, snap);
    case UpsertCandidate(candidate) => UpsertCandidateCarriesRev(candidate, snap);
    case _ =>
  }

  /** A write that leaves revisions alone is refused only if the document is no longer what was read. */
  lemma FreshWriteIsAccepted(s: Server, op: Op)
    requires LeavesRevAlone(op) && ActOf(op, Read(s, IdOf(op))).Put?
    ensures Accepts(s, ActOf(op, Read(s, IdOf(op))).target, ActOf(op, Read(s, IdOf(op))).doc)
  {
    HonestCarriesRev(op, Read(s, IdOf(op)));
  }

  lemma ForeignCommitStays(log: seq<Commit>, commit: Commit, window: Window, c: nat, id: string)
    requires HasForeignCommit(log, window, c, id)
    ensures HasForeignCommit(log + [commit], window, c, id)
    ensures window.hi == |log| ==> HasForeignCommit(log + [commit], Window(window.lo, |log| + 1), c, id)
  {
    var k :| window.lo <= k < window.hi && log[k].target == id && log[k].client != c;
    assert (log + [commit])[k] == log[k];
  }

  /** A commit by another client keeps `c`'s books balanced. */
  lemma OthersKeepWatch(w: World, c: nat, d: nat)
    requires c in w.clients && WatchSound(w, c) && c != d
    ensures c in Step(w, d).clients && WatchSound(Step(w, d), c)
  {
    var w', id, refused := Step(w, d), IdOf(w.clients[c].op), w.clients[c].refused;
    if w'.log != w.log {
      var commit := w'.log[|w.log|];
      assert w'.log == w.log + [commit] && commit.client == d;
      forall i | 0 <= i < |refused|
        ensures HasForeignCommit(w'.log, refused[i], c, id)
      {
        ForeignCommitStays(w.log, commit, refused[i], c, id);
      }
      if w.clients[c].phase.Holding? {
        var since := w.clients[c].phase.since;
        if HasForeignCommit(w.log, Window(since, |w.log|), c, id) {
          ForeignCommitStays(w.log, commit, Window(since, |w.log|), c, id);
        } else if commit.target == id {
          assert w'.log[|w.log|] == commit;
          assert HasForeignCommit(w'.log, Window(since, |w'.log|), c, id);
        }
      }
    }
  }

  lemma OwnStepKeepsWatch(w: World, c: nat)
    requires c in w.clients && WatchSound(w, c) && LeavesRevAlone(w.clients[c].op)
    ensures WatchSound(Step(w, c), c)
  {
    var Client(op, phase, refused) := w.clients[c];
    var w', id := Step(w, c), IdOf(op);
    if phase.Holding? {
      match ActOf(op, phase.snap)
      case Stop(_) =>
      case Put(target, doc) =>
        if Accepts(w.server, target, doc) {
          var commit := Commit(c, op, target);
          forall i | 0 <= i < |refused|
            ensures HasForeignCommit(w'.log, refused[i], c, id)
          {
            ForeignCommitStays(w.log, commit, refused[i], c, id);
          }
        } else {
          if Read(w.server, id) == phase.snap {
            FreshWriteIsAccepted(w.server, op);
          }
          assert HasForeignCommit(w.log, Window(phase.since, |w.log|), c, id);
        }
    } else if phase.Ready? {
      assert forall i :: 0 <= i < |refused| ==> HasForeignCommit(w.log, refused[i], c, id);
    }
  }

  /** Disjoint windows, one foreign commit each: at least as many foreign commits as refusals. */
  lemma {:induction false} RefusalsAreCovered(log: seq<Commit>, refused: seq<Window>, c: nat, id: string)
    requires Charged(log, refused, c, id)
    ensures refused != [] ==>
              |ForeignCommits(log, refused[|refused| - 1].hi, c, id)| >= |refused|
    ensures |ForeignCommits(log, |log|, c, id)| >= |refused|
    decreases |refused|
  {
    if refused != [] {
      var init, last := refused[..|refused| - 1], refused[|refused| - 1];
      RefusalsAreCovered(log, init, c, id);
      assert HasForeignCommit(log, last, c, id);
      var k: nat :| last.lo <= k < last.hi && log[k].target == id && log[k].client != c;
      var earlier := if init == [] then {} else ForeignCommits(log, init[|init| - 1].hi, c, id);
      var covered := earlier + {k};
      assert k !in earlier && |covered| == |earlier| + 1;
      SubsetIsSmaller(covered, ForeignCommits(log, last.hi, c, id));
      SubsetIsSmaller(ForeignCommits(log, last.hi, c, id), ForeignCommits(log, |log|, c, id));
    }
  }

  lemma {:induction false} SubsetIsSmaller(a: set<nat>, b: set<nat>)
    requires a <= b
    ensures |a| <= |b|
    decreases |a|
  {
    if a != {} {
      var x :| x in a;
      SubsetIsSmaller(a - {x}, b - {x});
    }
  }

  lemma StopIsNotConflict(op: Op, snap: Option<Doc>)
    ensures ActOf(op, snap) != Stop(Conflict)
  {
  }

  ghost predicate Budgeted(client: Client) {
    Counted(client) && (client.phase == Finished(Conflict) ==> |client.refused| == Budget(client.op))
  }

  lemma StepKeepsBudget(w: World, c: nat, d: nat)
    requires c in w.clients && Budgeted(w.clients[c])
    ensures c in Step(w, d).clients && Budgeted(Step(w, d).clients[c])
    ensures Step(w, d).clients[c].op == w.clients[c].op
  {
    if c == d && w.clients[c].phase.Holding? {
      StopIsNotConflict(w.clients[c].op, w.clients[c].phase.snap);
    }
  }

  lemma {:induction false} WatchHolds(s0: Server, ops: map<nat, Op>, schedule: seq<nat>, c: nat)
    requires c in ops && LeavesRevAlone(ops[c])
    ensures var w := Run(Start(s0, ops), schedule);
            c in w.clients && w.clients[c].op == ops[c] && WatchSound(w, c) && Budgeted(w.clients[c])
    decreases |schedule|
  {
    if schedule != [] {
      var before, d := schedule[..|schedule| - 1], schedule[|schedule| - 1];
      WatchHolds(s0, ops, before, c);
      var w := Run(Start(s0, ops), before);
      StepKeepsBudget(w, c, d);
      if c == d {
        OwnStepKeepsWatch(w, c);
      } else {
        OthersKeepWatch(w, c, d);
      }
    }
  }

  /** Main result: in every run, whatever the other clients do, an operation that leaves revisions alone has seen
      at most as many refusals as there were foreign commits to its document, and it reports a conflict only after
      its whole budget of foreign commits. */
  lemma ConflictsArePaidFor(s0: Server, ops: map<nat, Op>, schedule: seq<nat>, c: nat)
    requires c in ops && LeavesRevAlone(ops[c])
    ensures var w := Run(Start(s0, ops), schedule);
            && c in w.clients
            && Charged(w.log, w.clients[c].refused, c, IdOf(ops[c]))
            && |w.clients[c].refused| <= |ForeignCommits(w.log, |w.log|, c, IdOf(ops[c]))|
            && (w.clients[c].phase == Finished(Conflict) ==>
                  |ForeignCommits(w.log, |w.log|, c, IdOf(ops[c]))| >= Budget(ops[c]))
  {
    WatchHolds(s0, ops, schedule, c);
    var w := Run(Start(s0, ops), schedule);
    RefusalsAreCovered(w.log, w.clients[c].refused, c, IdOf(ops[c]));
  }

  /** The client's own steps, as often as it takes to use up the remaining attempts. */
  function Own(c: nat, steps: nat): seq<nat> {
    seq(steps, _ => c)
  }

  lemma OwnTwice(w: World, c: nat, steps: nat)
    requires steps >= 2
    ensures Run(w, Own(c, steps)) == Run(Step(Step(w, c), c), Own(c, steps - 2))
  {
    assert Own(c, steps) == [c, c] + Own(c, steps - 2);
    RunAppend(w, [c, c], Own(c, steps - 2));
    assert [c, c][..1] == [c] && [c][..0] == [];
    assert Run(w, [c]) == Step(Run(w, []), c);
  }

  /** The condition is needed: a request whose first PUT the server refuses is refused on every attempt, and
      reports a conflict although no other client exists. */
  lemma {:induction false} RefusedAlone(w: World, c: nat)
    requires c in w.clients && w.clients[c].phase.Ready? && w.clients[c].phase.attempt < Budget(w.clients[c].op)
    requires var op := w.clients[c].op; var act := ActOf(op, Read(w.server, IdOf(op)));
             act.Put? && !Accepts(w.server, act.target, act.doc)
    ensures var w' := Run(w, Own(c, 2 * (Budget(w.clients[c].op) - w.clients[c].phase.attempt)));
            && w'.log == w.log && w'.server == w.server && c in w'.clients
            && w'.clients[c].phase == Finished(Refusal(w.clients[c].op))
    decreases Budget(w.clients[c].op) - w.clients[c].phase.attempt
  {
    var op, attempt := w.clients[c].op, w.clients[c].phase.attempt;
    var steps := 2 * (Budget(op) - attempt);
    OwnTwice(w, c, steps);
    var w2 := Step(Step(w, c), c);
    if attempt + 1 < Budget(op) {
      RefusedAlone(w2, c);
    }
  }

  /** `delete_fields` of `_rev` conflicts on every existing document; an upsert that brings a `_rev` along conflicts
      on every absent one; a patch of `_rev` conflicts on every document that has another revision; and an update
      redirected to a document conflicts whenever the two documents have not the same revision. */
  lemma RevTamperingConflictsAlone(s: Server, op: Op)
    requires ConflictsAlone(s, op)
    ensures var w := Run(Start(s, map[0 := op]), Own(0, 2 * Budget(op)));
            0 in w.clients && w.clients[0].phase == Finished(Conflict) && w.log == [] && w.server == s
  {
    RefusedAtOnce(s, op);
    RefusedAlone(Start(s, map[0 := op]), 0);
  }

  /** The request meddles with `_rev` or with the target, and this server refuses it. */
  predicate ConflictsAlone(s: Server, op: Op) {
    match op
    case DeleteFields(id, names, _) => RevKey in names && id in s.docs
    case Upsert(doc) => RevKey in doc && TargetId(doc) != "" && TargetId(doc) !in s.docs
    case Patch(id, fields, _) => id in s.docs && RevKey in fields && fields[RevKey] != Rev(s.docs[id].rev)
    case Update(id, transform, seed, requireExisting, retries) =>
      && retries >= 0 && (requireExisting ==> id in s.docs)
      && var outgoing := transform(if id in s.docs then Read(s, id) else seed);
         !StaysOn(id, outgoing) && Revs(s, TargetId(outgoing.value)) != Revs(s, id)
    case _ => false
  }

  lemma RefusedAtOnce(s: Server, op: Op)
    requires ConflictsAlone(s, op)
    ensures var act := ActOf(op, Read(s, IdOf(op))); Budget(op) > 0 && act.Put? && !Accepts(s, act.target, act.doc)
  {
  }

  /** The condition of `ConflictsArePaidFor` is exact: every other request that gets as far as a PUT conflicts on some
      server without any other client. */
  lemma MeddlingConflictsAlone(op: Op) returns (s: Server)
    requires !LeavesRevAlone(op) && Budget(op) > 0 && (op.Upsert? ==> TargetId(op.doc) != "")
    ensures ValidServer(s)
    ensures var w := Run(Start(s, map[0 := op]), Own(0, 2 * Budget(op)));
            0 in w.clients && w.clients[0].phase == Finished(Conflict) && w.log == [] && w.server == s
  {
    s := Server(map[], 0);
    match op {
      case Upsert(_) =>
      case DeleteFields(id, _, _) =>
        s := Server(map[id := Entry(0, map[])], 1);
      case Patch(id, fields, _) =>
        var r := if fields[RevKey] == Rev(0) then 1 else 0;
        s := Server(map[id := Entry(r, map[])], 2);
      case Update(id, transform, seed, requireExisting, _) =>
        if !requireExisting && !StaysOn(id, transform(seed)) {
          s := Server(map[TargetId(transform(seed).value) := Entry(0, map[])], 1);
        } else {
          var doc: Doc :| IsCopyOf(doc, id) && !StaysOn(id, transform(Some(doc)));
          s := Server(map[id := Entry(doc[RevKey].r, doc - {DocId, RevKey})], doc[RevKey].r + 1);
          ReadsBack(id, doc);
        }
      case _ =>
    }
    RevTamperingConflictsAlone(s, op);
  }

  lemma ReadsBack(id: string, doc: Doc)
    requires IsCopyOf(doc, id)
    ensures Render(id, Entry(doc[RevKey].r, doc - {DocId, RevKey})) == doc
  {
  }
}
