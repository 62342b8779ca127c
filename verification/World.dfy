// Any number of clients running read-modify-write operations against one server, each operation split into its
// GET and its PUT. A run is a schedule: the sequence of clients that take the next step. Every interleaving is a
// schedule, so a lemma over all schedules is a lemma over all interleavings.
module World {
  import opened Json
  import opened Couch
  import opened StoreOps
  import opened DraftOps
  import opened CandidateOps

  datatype Op =
    | Upsert(doc: Doc)
    | Update(id: string, transform: Transform, seed: Option<Doc>, requireExisting: bool, retries: int)
    | Patch(id: string, fields: Doc, requireExisting: bool)
    | DeleteFields(id: string, names: seq<Key>, requireExisting: bool)
    | Draft(id: string, draftOp: DraftOp)
    | UpsertDraft(draft: Doc, expectedRev: Option<nat>)
    | Candidate(id: string, candidateOp: CandidateOp)
    | UpsertCandidate(candidate: Doc)

  /** The document an operation reads. */
  function IdOf(op: Op): string {
    match op
    case Upsert(doc) => TargetId(doc)
    case UpsertDraft(draft, _) => var doc := BuildDraft(draft); if doc.None? then "" else TextOf(doc.value[DocId])
    case UpsertCandidate(candidate) =>
      var doc := BuildCandidate(candidate); if doc.None? then "" else TextOf(doc.value[DocId])
    case _ => op.id
  }

  /** How many GET-PUT attempts an operation makes before it gives up. */
  function Budget(op: Op): nat {
    match op
    case Upsert(_) => 2
    case Update(_, _, _, _, retries) => if retries < 0 then 0 else retries + 1
    case Patch(_, _, _) => 2
    case DeleteFields(_, _, _) => 2
    case Draft(_, _) => 1
    case UpsertDraft(_, expectedRev) => if expectedRev.None? then 2 else 1
    case Candidate(_, _) => 1
    case UpsertCandidate(_) => 2
  }

  function ActOf(op: Op, snap: Option<Doc>): Act {
    match op
    case Upsert(doc) => UpsertAct(doc, snap)
    case Update(_, transform, seed, requireExisting, _) => UpdateAct(transform, seed, requireExisting, snap)
    case Patch(id, fields, requireExisting) => PatchAct(id, fields, requireExisting, snap)
    case DeleteFields(id, names, requireExisting) => DeleteAct(id, names, requireExisting, snap)
    case Draft(id, draftOp) => DraftAct(id, draftOp, snap)
    case UpsertDraft(draft, expectedRev) => UpsertDraftAct(draft, expectedRev, snap)
    case Candidate(id, candidateOp) => CandidateAct(id, candidateOp, snap)
    case UpsertCandidate(candidate) => UpsertCandidateAct(candidate, snap)
  }

  /** What the last refused PUT is reported as. */
  function Refusal(op: Op): Outcome {
    if op.Draft? || op.Candidate? then AlreadyDecided else Conflict
  }

  datatype Phase =
    | Ready(attempt: nat)
    | Holding(attempt: nat, snap: Option<Doc>, since: nat)  // between GET and PUT; `since` is the log length at the GET
    | Finished(outcome: Outcome)

  /** The part of the log between the GET and the refused PUT of one attempt. */
  datatype Window = Window(lo: nat, hi: nat)

  datatype Client = Client(op: Op, phase: Phase, refused: seq<Window>)

  datatype Commit = Commit(client: nat, op: Op, target: string)

  datatype World = World(server: Server, clients: map<nat, Client>, log: seq<Commit>)

  function SetPhase(w: World, c: nat, phase: Phase): World
    requires c in w.clients
  {
    w.(clients := w.clients[c := w.clients[c].(phase := phase)])
  }

  /** The GET of an attempt, or the final refusal when no attempt is left. */
  function FetchStep(w: World, c: nat): World
    requires c in w.clients && w.clients[c].phase.Ready?
  {
    var op, attempt := w.clients[c].op, w.clients[c].phase.attempt;
    if attempt >= Budget(op) then SetPhase(w, c, Finished(Refusal(op)))
    else SetPhase(w, c, Holding(attempt, Read(w.server, IdOf(op)), |w.log|))
  }

  /** The local decision and the PUT of an attempt. */
  function PutStep(w: World, c: nat): World
    requires c in w.clients && w.clients[c].phase.Holding?
  {
    var Client(op, Holding(attempt, snap, since), refused) := w.clients[c];
    match ActOf(op, snap)
    case Stop(outcome) => SetPhase(w, c, Finished(outcome))
    case Put(target, doc) =>
      if Accepts(w.server, target, doc) then
        World(Store(w.server, target, doc), w.clients[c := Client(op, Finished(Done), refused)],
              w.log + [Commit(c, op, target)])
      else
        var next := if attempt + 1 < Budget(op) then Ready(attempt + 1) else Finished(Refusal(op));
        w.(clients := w.clients[c := Client(op, next, refused + [Window(since, |w.log|)])])
  }

  function Step(w: World, c: nat): World {
    if c !in w.clients then w
    else
      match w.clients[c].phase
      case Ready(_) => FetchStep(w, c)
      case Holding(_, _, _) => PutStep(w, c)
      case Finished(_) => w
  }

  function Run(w: World, schedule: seq<nat>): World {
    if schedule == [] then w else Step(Run(w, schedule[..|schedule| - 1]), schedule[|schedule| - 1])
  }

  function Start(s: Server, ops: map<nat, Op>): World {
    World(s, map c | c in ops :: Client(ops[c], Ready(0), []), [])
  }

  lemma Fetches(w: World, c: nat, op: Op)
    requires c in w.clients && w.clients[c] == Client(op, Ready(0), []) && Budget(op) > 0
    ensures Step(w, c) == w.(clients := w.clients[c := Client(op, Holding(0, Read(w.server, IdOf(op)), |w.log|), [])])
  {
  }

  lemma Puts(w: World, c: nat, op: Op, snap: Option<Doc>, since: nat, target: string, doc: Doc)
    requires c in w.clients && w.clients[c] == Client(op, Holding(0, snap, since), [])
    requires ActOf(op, snap) == Put(target, doc) && Accepts(w.server, target, doc)
    ensures Step(w, c) == World(Store(w.server, target, doc), w.clients[c := Client(op, Finished(Done), [])],
                                w.log + [Commit(c, op, target)])
  {
  }

  lemma SetTwice<V>(m: map<nat, V>, c: nat, a: V, b: V)
    ensures m[c := a][c := b] == m[c := b]
  {
  }

  /** A client that is not disturbed between its GET and its PUT commits what it has decided. */
  lemma CommitsAlone(w: World, c: nat, op: Op, target: string, doc: Doc)
    requires c in w.clients && w.clients[c] == Client(op, Ready(0), []) && Budget(op) > 0
    requires ActOf(op, Read(w.server, IdOf(op))) == Put(target, doc) && Accepts(w.server, target, doc)
    ensures Step(Step(w, c), c)
            == World(Store(w.server, target, doc), w.clients[c := Client(op, Finished(Done), [])],
                     w.log + [Commit(c, op, target)])
  {
    Fetches(w, c, op);
    Puts(Step(w, c), c, op, Read(w.server, IdOf(op)), |w.log|, target, doc);
    SetTwice(w.clients, c, Client(op, Holding(0, Read(w.server, IdOf(op)), |w.log|), []),
             Client(op, Finished(Done), []));
  }

  /** A local decision that writes nothing is never reported as a success. */
  lemma StopIsNotDone(op: Op, snap: Option<Doc>)
    ensures ActOf(op, snap) != Stop(Done)
  {
  }

  lemma {:induction false} RunAppend(w: World, first: seq<nat>, second: seq<nat>)
    ensures Run(w, first + second) == Run(Run(w, first), second)
    decreases |second|
  {
    if second == [] {
      assert first + second == first;
    } else {
      var shorter := second[..|second| - 1];
      assert (first + second)[..|first + second| - 1] == first + shorter;
      RunAppend(w, first, shorter);
    }
  }
}
