// No update is lost: whatever the interleaving, the store equals the committed operations executed one at a time,
// each as an indivisible GET-decide-PUT, in commit order.
module Refinement {
  import opened Json
  import opened Couch
  import opened StoreOps
  import opened DraftOps
  import opened CandidateOps
  import opened World
  import Text

  /** The operation executed alone: read, decide and write with nobody in between. */
  function Atomic(s: Server, op: Op): Server {
    match ActOf(op, Read(s, IdOf(op)))
    case Stop(_) => s
    case Put(target, doc) => if Accepts(s, target, doc) then Store(s, target, doc) else s
  }

  /** The operation executed alone writes the named document. */
  predicate AtomicallyWrites(s: Server, op: Op, target: string) {
    var act := ActOf(op, Read(s, IdOf(op)));
    act.Put? && act.target == target && Accepts(s, act.target, act.doc)
  }

  function Replay(s: Server, log: seq<Commit>): Server {
    if log == [] then s else Atomic(Replay(s, log[..|log| - 1]), log[|log| - 1].op)
  }

  /** What a GET of document `id` may return. */
  predicate IsCopyOf(doc: Doc, id: string) {
    Get(doc, DocId) == Str(id) && RevKey in doc && doc[RevKey].Rev?
  }

  /** What the transform returns is not addressed to another document. */
  predicate StaysOn(id: string, outgoing: Option<Doc>) {
    outgoing.Some? ==> TargetId(outgoing.value) in {"", id}
  }

  /** The transform redirects neither a document read under `id` nor, where a missing one is allowed, the seed. */
  ghost predicate KeepsId(id: string, transform: Transform, seed: Option<Doc>, requireExisting: bool) {
    && (requireExisting || StaysOn(id, transform(seed)))
    && forall doc :: IsCopyOf(doc, id) ==> StaysOn(id, transform(Some(doc)))
  }

  /** What a caller must respect for its update to be safe: a patch does not set `_rev` to a revision another
      write may have made, and the transform of `update_doc` leaves the `_id` alone. */
  ghost predicate Faithful(op: Op) {
    match op
    case Patch(_, fields, _) => RevKey in fields ==> !(fields[RevKey].Rev? && fields[RevKey].r > 0)
    case Update(id, transform, seed, requireExisting, _) => KeepsId(id, transform, seed, requireExisting)
    case _ => true
  }

  /** A snapshot whose revision is still current is still the current document. */
  ghost predicate SnapshotSound(s: Server, id: string, snap: Option<Doc>) {
    snap.Some? ==>
      && id in s.docs
      && IsCopyOf(snap.value, id) && snap.value[RevKey].r < s.next
      && snap.value[RevKey].r <= s.docs[id].rev
      && (s.docs[id].rev == snap.value[RevKey].r ==> Read(s, id) == snap)
  }

  /** The write carries the revision that was read, or none when nothing was there. */
  predicate CarriesSnapshotRev(act: Act, id: string, snap: Option<Doc>) {
    act.Put? ==>
      && act.target == id
      && Get(act.doc, RevKey) == (if snap.Some? then Get(snap.value, RevKey) else Null)
      && (RevKey in act.doc <==> snap.Some? && RevKey in snap.value)
  }

  lemma DraftCarriesRev(id: string, op: DraftOp, snap: Option<Doc>)
    ensures CarriesSnapshotRev(DraftAct(id, op, snap), id, snap)
  {
  }

  lemma UpsertDraftCarriesRev(draft: Doc, expectedRev: Option<nat>, snap: Option<Doc>)
    requires snap.Some? ==> Truthy(Get(snap.value, RevKey))
    ensures CarriesSnapshotRev(UpsertDraftAct(draft, expectedRev, snap), IdOf(UpsertDraft(draft, expectedRev)), snap)
  {
    var doc := BuildDraft(draft);
    assert doc.Some? ==> RevKey !in doc.value;
  }

  lemma PatchCarriesRev(doc: Doc, patch: Doc)
    ensures Get(Patched(doc, patch), RevKey) == Get(doc, RevKey)
    ensures RevKey in Patched(doc, patch) <==> RevKey in doc
  {
  }

  lemma CandidateCarriesRev(id: string, op: CandidateOp, snap: Option<Doc>)
    ensures CarriesSnapshotRev(CandidateAct(id, op, snap), id, snap)
  {
    if op.PatchFields? && snap.Some? && NormalPatch(op.fields).Some? {
      PatchCarriesRev(snap.value, NormalPatch(op.fields).value);
    }
  }

  lemma UpsertCandidateCarriesRev(candidate: Doc, snap: Option<Doc>)
    requires snap.Some? ==> Truthy(Get(snap.value, RevKey))
    ensures CarriesSnapshotRev(UpsertCandidateAct(candidate, snap), IdOf(UpsertCandidate(candidate)), snap)
  {
    var doc := BuildCandidate(candidate);
    assert doc.Some? ==> RevKey !in doc.value;
  }

  lemma UpdateCarriesRev(op: Op, snap: Option<Doc>)
    requires op.Update? && KeepsId(op.id, op.transform, op.seed, op.requireExisting)
    requires snap.Some? ==> IsCopyOf(snap.value, op.id)
    ensures CarriesSnapshotRev(ActOf(op, snap), op.id, snap)
  {
    if snap.Some? {
      assert StaysOn(op.id, op.transform(Some(snap.value)));
    }
  }

  /** An ordinary update is faithful: it edits the document it is given and leaves the `_id` alone, or it makes a new
      document with the `_id` it was asked for. */
  lemma EditsAreFaithful(id: string, transform: Transform, seed: Option<Doc>, requireExisting: bool, retries: int)
    requires Text.Strip(id) == id
    requires forall doc :: transform(Some(doc)).Some? ==> Get(transform(Some(doc)).value, DocId) == Get(doc, DocId)
    requires !requireExisting && transform(seed).Some? ==> Get(transform(seed).value, DocId) == Str(id)
    ensures Faithful(Update(id, transform, seed, requireExisting, retries))
  {
    forall doc | IsCopyOf(doc, id)
      ensures StaysOn(id, transform(Some(doc)))
    {
      assert transform(Some(doc)).Some? ==> Get(transform(Some(doc)).value, DocId) == Str(id);
    }
  }

  /** A write carrying the revision it read is accepted only while the snapshot is still the current document. */
  lemma AcceptedMeansUnchanged(s: Server, id: string, snap: Option<Doc>, act: Act)
    requires SnapshotSound(s, id, snap)
    requires CarriesSnapshotRev(act, id, snap)
    requires act.Put? && Accepts(s, id, act.doc)
    ensures Read(s, id) == snap
  {
  }

  /** The heart of the refinement: an accepted PUT has the effect of the whole operation executed at that moment. */
  lemma AcceptedIsAtomic(s: Server, op: Op, snap: Option<Doc>)
    requires ValidServer(s) && Faithful(op)
    requires SnapshotSound(s, IdOf(op), snap)
    requires ActOf(op, snap).Put? && Accepts(s, ActOf(op, snap).target, ActOf(op, snap).doc)
    ensures AtomicallyWrites(s, op, ActOf(op, snap).target)
    ensures Atomic(s, op) == Store(s, ActOf(op, snap).target, ActOf(op, snap).doc)
  {
    var id, act := IdOf(op), ActOf(op, snap);
    match op
    case Upsert(doc) =>
      if Read(s, id) != snap {
        assert snap.None? && doc[RevKey := Rev(s.docs[id].rev)] == doc;
      }
    case Update(_, _, _, _, _) =>
      UpdateCarriesRev(op, snap);
      AcceptedMeansUnchanged(s, id, snap, act);
    case Patch(_, fields, _) =>
      if RevKey !in fields {
        AcceptedMeansUnchanged(s, id, snap, act);
      }
    case DeleteFields(_, names, _) =>
      if RevKey !in names {
        AcceptedMeansUnchanged(s, id, snap, act);
      }
    case Draft(_, draftOp) =>
      DraftCarriesRev(id, draftOp, snap);
      AcceptedMeansUnchanged(s, id, snap, act);
    case UpsertDraft(draft, expectedRev) =>
      UpsertDraftCarriesRev(draft, expectedRev, snap);
      AcceptedMeansUnchanged(s, id, snap, act);
    case Candidate(_, candidateOp) =>
      CandidateCarriesRev(id, candidateOp, snap);
      AcceptedMeansUnchanged(s, id, snap, act);
    case UpsertCandidate(candidate) =>
      UpsertCandidateCarriesRev(candidate, snap);
      AcceptedMeansUnchanged(s, id, snap, act);
  }

  /** An accepted write keeps every snapshot sound, because the revision it creates is new. */
  lemma StoreKeepsSnapshots(s: Server, target: string, doc: Doc, id: string, snap: Option<Doc>)
    requires ValidServer(s) && SnapshotSound(s, id, snap)
    ensures SnapshotSound(Store(s, target, doc), id, snap)
  {
  }

  /** The state of the server after the first `k` commits. */
  function At(s: Server, log: seq<Commit>, k: nat): Server
    requires k <= |log|
  {
    Replay(s, log[..k])
  }

  lemma AtOfExtension(s: Server, log: seq<Commit>, commit: Commit, k: nat)
    requires k <= |log|
    ensures At(s, log + [commit], k) == At(s, log, k)
    ensures At(s, log + [commit], |log| + 1) == Atomic(At(s, log, |log|), commit.op)
  {
    assert (log + [commit])[..k] == log[..k];
    assert log[..|log|] == log;
    assert (log + [commit])[..|log| + 1] == log + [commit];
  }

  lemma AtNext(s: Server, log: seq<Commit>, k: nat)
    requires k < |log|
    ensures At(s, log, k + 1) == Atomic(At(s, log, k), log[k].op)
  {
    assert log[..k + 1][..k] == log[..k];
  }

  /** A faithful operation writes only the document it read. */
  lemma WritesWhereItReads(op: Op, snap: Option<Doc>)
    requires Faithful(op) && ActOf(op, snap).Put?
    requires snap.Some? ==> IsCopyOf(snap.value, IdOf(op))
    ensures ActOf(op, snap).target == IdOf(op)
  {
    if op.Update? {
      UpdateCarriesRev(op, snap);
    } else if op.UpsertDraft? {
      var doc := BuildDraft(op.draft);
      assert doc.Some?;
    } else if op.UpsertCandidate? {
      var doc := BuildCandidate(op.candidate);
      assert doc.Some?;
    }
  }

  predicate WritesAt(s0: Server, log: seq<Commit>, k: nat)
    requires k < |log|
  {
    AtomicallyWrites(At(s0, log, k), log[k].op, log[k].target)
  }

  /** Every commit of the log is a successful atomic execution of its operation on the state before it. */
  ghost predicate LogIsAtomic(s0: Server, log: seq<Commit>) {
    forall k :: 0 <= k < |log| ==> WritesAt(s0, log, k)
  }

  ghost predicate LogOwned(ops: map<nat, Op>, log: seq<Commit>) {
    forall k :: 0 <= k < |log| ==> log[k].client in ops && log[k].op == ops[log[k].client]
  }

  ghost predicate CommittedOnce(log: seq<Commit>, c: nat, op: Op) {
    exists k :: 0 <= k < |log| && log[k].client == c && log[k].op == op
                && forall j :: 0 <= j < |log| && log[j].client == c ==> j == k
  }

  ghost predicate NeverCommitted(log: seq<Commit>, c: nat) {
    forall j :: 0 <= j < |log| ==> log[j].client != c
  }

  /** The operation stopped because of a state that the store really had. */
  ghost predicate StoppedAt(s0: Server, log: seq<Commit>, op: Op, outcome: Outcome) {
    exists k :: 0 <= k <= |log| && ActOf(op, Read(At(s0, log, k), IdOf(op))) == Stop(outcome)
  }

  ghost predicate ClientSound(s0: Server, s: Server, log: seq<Commit>, c: nat, client: Client) {
    var op := client.op;
    match client.phase
    case Ready(_) => NeverCommitted(log, c)
    case Holding(_, snap, since) =>
      && NeverCommitted(log, c)
      && since <= |log| && Read(At(s0, log, since), IdOf(op)) == snap
      && SnapshotSound(s, IdOf(op), snap)
    case Finished(outcome) =>
      if outcome == Done then CommittedOnce(log, c, op)
      else NeverCommitted(log, c) && (|client.refused| == Budget(op) || StoppedAt(s0, log, op, outcome))
  }

  /** The refusals an operation has seen so far are as many as its attempts. */
  predicate Counted(client: Client) {
    match client.phase
    case Ready(attempt) => |client.refused| == attempt <= Budget(client.op)
    case Holding(attempt, _, _) => |client.refused| == attempt < Budget(client.op)
    case Finished(_) => true
  }

  ghost predicate Sound(s0: Server, ops: map<nat, Op>, w: World) {
    && ValidServer(w.server)
    && w.server == Replay(s0, w.log)
    && LogIsAtomic(s0, w.log)
    && LogOwned(ops, w.log)
    && w.clients.Keys == ops.Keys
    && (forall c <- ops :: w.clients[c].op == ops[c] && Counted(w.clients[c])
                       && ClientSound(s0, w.server, w.log, c, w.clients[c]))
  }

  /** A commit by another client leaves a client sound. */
  lemma CommitKeepsOthers(s0: Server, s: Server, log: seq<Commit>, commit: Commit, doc: Doc, d: nat, client: Client)
    requires ValidServer(s) && commit.client != d && ClientSound(s0, s, log, d, client)
    ensures ClientSound(s0, Store(s, commit.target, doc), log + [commit], d, client)
  {
    var op, log' := client.op, log + [commit];
    match client.phase
    case Ready(_) =>
    case Holding(_, snap, since) =>
      AtOfExtension(s0, log, commit, since);
      StoreKeepsSnapshots(s, commit.target, doc, IdOf(op), snap);
    case Finished(outcome) =>
      if outcome == Done {
        var k :| 0 <= k < |log| && log[k].client == d && log[k].op == op
                 && forall j :: 0 <= j < |log| && log[j].client == d ==> j == k;
        assert log'[k] == log[k];
      } else if |client.refused| != Budget(op) {
        var k :| 0 <= k <= |log| && ActOf(op, Read(At(s0, log, k), IdOf(op))) == Stop(outcome);
        AtOfExtension(s0, log, commit, k);
      }
  }

  lemma FetchKeepsSound(s0: Server, ops: map<nat, Op>, w: World, c: nat)
    requires Sound(s0, ops, w) && c in ops && w.clients[c].phase.Ready?
    ensures Sound(s0, ops, FetchStep(w, c))
  {
    assert w.log[..|w.log|] == w.log;
    var w' := FetchStep(w, c);
    forall d <- ops
      ensures w'.clients[d].op == ops[d] && Counted(w'.clients[d])
      ensures ClientSound(s0, w'.server, w'.log, d, w'.clients[d])
    {
      assert ClientSound(s0, w.server, w.log, d, w.clients[d]);
    }
  }

  lemma RefusalKeepsSound(s0: Server, ops: map<nat, Op>, w: World, c: nat)
    requires Sound(s0, ops, w) && c in ops && w.clients[c].phase.Holding?
    requires var act := ActOf(ops[c], w.clients[c].phase.snap);
             act.Stop? || !Accepts(w.server, act.target, act.doc)
    ensures Sound(s0, ops, PutStep(w, c))
  {
    StopIsNotDone(ops[c], w.clients[c].phase.snap);
    assert ClientSound(s0, w.server, w.log, c, w.clients[c]);
  }

  lemma CommitIsOwned(ops: map<nat, Op>, log: seq<Commit>, commit: Commit)
    requires LogOwned(ops, log) && commit.client in ops && commit.op == ops[commit.client]
    ensures LogOwned(ops, log + [commit])
  {
    var log' := log + [commit];
    forall k | 0 <= k < |log'|
      ensures log'[k].client in ops && log'[k].op == ops[log'[k].client]
    {
      if k < |log| {
        assert log'[k] == log[k];
      }
    }
  }

  lemma CommitIsRecorded(log: seq<Commit>, commit: Commit)
    requires NeverCommitted(log, commit.client)
    ensures CommittedOnce(log + [commit], commit.client, commit.op)
  {
    var log' := log + [commit];
    assert log'[|log|] == commit;
    assert forall j :: 0 <= j < |log'| && log'[j].client == commit.client ==> j == |log|;
  }

  lemma CommitKeepsSound(s0: Server, ops: map<nat, Op>, w: World, c: nat)
    requires Sound(s0, ops, w) && c in ops && w.clients[c].phase.Holding? && Faithful(ops[c])
    requires var act := ActOf(ops[c], w.clients[c].phase.snap);
             act.Put? && Accepts(w.server, act.target, act.doc)
    ensures Sound(s0, ops, PutStep(w, c))
  {
    var w', op, snap := PutStep(w, c), ops[c], w.clients[c].phase.snap;
    var Put(target, doc) := ActOf(op, snap);
    var commit := Commit(c, op, target);
    assert ClientSound(s0, w.server, w.log, c, w.clients[c]);
    AcceptedIsAtomic(w.server, op, snap);
    StoreKeepsValid(w.server, target, doc);
    LogGrows(s0, w.log, commit);
    assert w'.log == w.log + [commit] && w'.server == Store(w.server, target, doc);
    CommitIsOwned(ops, w.log, commit);
    CommitIsRecorded(w.log, commit);
    forall d <- ops | d != c
      ensures ClientSound(s0, w'.server, w'.log, d, w'.clients[d])
    {
      CommitKeepsOthers(s0, w.server, w.log, commit, doc, d, w.clients[d]);
    }
  }

  lemma LogGrows(s0: Server, log: seq<Commit>, commit: Commit)
    requires LogIsAtomic(s0, log) && AtomicallyWrites(Replay(s0, log), commit.op, commit.target)
    ensures LogIsAtomic(s0, log + [commit])
    ensures Replay(s0, log + [commit]) == Atomic(Replay(s0, log), commit.op)
  {
    assert (log + [commit])[..|log|] == log == log[..|log|];
    forall k | 0 <= k < |log| + 1
      ensures WritesAt(s0, log + [commit], k)
    {
      AtOfExtension(s0, log, commit, k);
      assert k < |log| ==> WritesAt(s0, log, k);
    }
  }

  /** Main result: over every schedule of faithful operations the final store is the atomic replay of the commit
      log; every commit really wrote at its turn; an operation that reports success committed exactly once, any
      other never; and an operation that stopped without a conflict decided on a state the store really had. */
  lemma {:induction false} NoLostUpdate(s0: Server, ops: map<nat, Op>, schedule: seq<nat>)
    requires ValidServer(s0)
    requires forall c <- ops :: Faithful(ops[c])
    ensures Sound(s0, ops, Run(Start(s0, ops), schedule))
    decreases |schedule|
  {
    if schedule != [] {
      var before, c := schedule[..|schedule| - 1], schedule[|schedule| - 1];
      NoLostUpdate(s0, ops, before);
      var w := Run(Start(s0, ops), before);
      if c in ops && w.clients[c].phase.Ready? {
        FetchKeepsSound(s0, ops, w, c);
      } else if c in ops && w.clients[c].phase.Holding? {
        var act := ActOf(ops[c], w.clients[c].phase.snap);
        if act.Put? && Accepts(w.server, act.target, act.doc) {
          CommitKeepsSound(s0, ops, w, c);
        } else {
          RefusalKeepsSound(s0, ops, w, c);
        }
      }
    }
  }

  lemma RunOfFour(w: World, a: nat, b: nat, c: nat, d: nat)
    ensures Run(w, [a, b, c, d]) == Step(Step(Step(Step(w, a), b), c), d)
  {
    RunAppend(w, [a], [b]);
    RunAppend(w, [a, b], [c]);
    RunAppend(w, [a, b, c], [d]);
    assert [a] + [b] == [a, b] && [a, b] + [c] == [a, b, c] && [a, b, c] + [d] == [a, b, c, d];
  }

  /** Both clients of a run report success, yet client 0 wiped the field that client 1 had committed. */
  ghost predicate WipesCommittedField(s0: Server, w: World, id: string, key: Key) {
    && w.clients.Keys == {0, 1}
    && w.clients[0].phase == Finished(Done) && w.clients[1].phase == Finished(Done)
    && id in w.server.docs && key !in w.server.docs[id].body
    && w.server != Replay(s0, w.log)
  }

  function RaceStart(id: string, n: nat): Server
    requires n > 0
  {
    Server(map[id := Entry(n - 1, map[])], n)
  }

  /** Client 0 reads, then client 1 reads and commits. */
  lemma RaceReached(id: string, fields: Doc, requireExisting: bool, key: Key, value: Value, n: nat)
    returns (w: World)
    requires n > 0 && key != DocId && key != RevKey
    ensures var op, other := Patch(id, fields, requireExisting), Patch(id, map[key := value], false);
            var s0 := RaceStart(id, n);
            && w == Step(Step(Step(Start(s0, map[0 := op, 1 := other]), 0), 1), 1)
            && w.clients == map[0 := Client(op, Holding(0, Read(s0, id), 0), []),
                                1 := Client(other, Finished(Done), [])]
            && w.log == [Commit(1, other, id)]
            && w.server == Atomic(s0, other) == Server(map[id := Entry(n, map[key := value])], n + 1)
  {
    var op, other := Patch(id, fields, requireExisting), Patch(id, map[key := value], false);
    var s0 := RaceStart(id, n);
    var w1 := Step(Start(s0, map[0 := op, 1 := other]), 0);
    var w2 := Step(w1, 1);
    assert w2.clients == map[0 := Client(op, Holding(0, Read(s0, id), 0), []),
                             1 := Client(other, Holding(0, Read(s0, id), 0), [])];
    w := Step(w2, 1);
    assert (Read(s0, id).value + map[key := value]) - {DocId, RevKey} == map[key := value];
  }

  lemma ReplayOfTwo(s: Server, a: Commit, b: Commit)
    ensures Replay(s, [a, b]) == Atomic(Atomic(s, a.op), b.op)
  {
    assert [a, b][..1] == [a] && [a][..0] == [];
    assert Replay(s, [a]) == Atomic(Replay(s, []), a.op);
  }

  /** Client 0 then writes its stale copy over the commit. */
  lemma RaceLost(id: string, fields: Doc, requireExisting: bool, key: Key, value: Value, w3: World)
    requires RevKey in fields && fields[RevKey].Rev? && fields[RevKey].r > 0
    requires key !in fields && key != DocId && key != RevKey
    requires var op, other := Patch(id, fields, requireExisting), Patch(id, map[key := value], false);
             var s0 := RaceStart(id, fields[RevKey].r);
             && w3.clients == map[0 := Client(op, Holding(0, Read(s0, id), 0), []),
                                  1 := Client(other, Finished(Done), [])]
             && w3.log == [Commit(1, other, id)]
             && w3.server == Atomic(s0, other) == Server(map[id := Entry(fields[RevKey].r, map[key := value])],
                                                         fields[RevKey].r + 1)
    ensures WipesCommittedField(RaceStart(id, fields[RevKey].r), Step(w3, 0), id, key)
  {
    var op, other := Patch(id, fields, requireExisting), Patch(id, map[key := value], false);
    var s0, w := RaceStart(id, fields[RevKey].r), Step(w3, 0);
    var outgoing := Read(s0, id).value + fields;
    assert w == World(Store(w3.server, id, outgoing), w3.clients[0 := Client(op, Finished(Done), [])],
                      w3.log + [Commit(0, op, id)]);
    assert w.log == [Commit(1, other, id), Commit(0, op, id)];
    ReplayOfTwo(s0, w.log[0], w.log[1]);
    assert ActOf(op, Read(w3.server, id)) == Put(id, Read(w3.server, id).value + fields);
    assert key in Read(w3.server, id).value + fields;
    assert key in Atomic(w3.server, op).docs[id].body;
  }

  /** The condition on patches is exact: any patch that sets `_rev` to a positive revision overwrites another
      client's committed field in some run, although both operations report success. */
  lemma UnfaithfulPatchLosesUpdate(id: string, fields: Doc, requireExisting: bool, key: Key, value: Value)
    returns (s0: Server, schedule: seq<nat>)
    requires !Faithful(Patch(id, fields, requireExisting))
    requires key !in fields && key != DocId && key != RevKey
    ensures ValidServer(s0)
    ensures WipesCommittedField(s0, Run(Start(s0, map[0 := Patch(id, fields, requireExisting),
                                                      1 := Patch(id, map[key := value], false)]), schedule), id, key)
  {
    var n := fields[RevKey].r;
    s0, schedule := RaceStart(id, n), [0, 1, 1, 0];
    var w3 := RaceReached(id, fields, requireExisting, key, value, n);
    RaceLost(id, fields, requireExisting, key, value, w3);
    RunOfFour(Start(s0, map[0 := Patch(id, fields, requireExisting), 1 := Patch(id, map[key := value], false)]),
              0, 1, 1, 0);
  }
}
