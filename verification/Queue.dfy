// The job queue: producers that only create, and listeners that claim a pending job and report on it.
// couchdb_listener.py and btq_client.py. Any number of producers and listeners act in any order; a listener's GET
// and PUT are separate actions, and every document copy it was ever given stays in its hands.
module Queue {
  import opened Json
  import opened Couch

  const PENDING := Str("pending")
  const CLAIMED := Str("claimed")
  const PROCESSING := Str("processing")
  const COMPLETE := Str("complete")
  const FAILED := Str("failed")

  /** `build_queue_doc`, with the clock and the derived job id as parameters. None when the job is refused. */
  function BuildQueueDoc(job: Doc, createdBy: string, now: Value, derivedId: string): (doc: Option<Doc>)
    ensures doc.Some? <==> JobType in job && Payload in job
    ensures doc.Some? ==> Get(doc.value, BtqState) == PENDING && RevKey !in doc.value
    ensures doc.Some? ==> Get(doc.value, DocId) == Get(doc.value, JobId)
  {
    if JobType !in job || Payload !in job then None
    else
      var jobId := if Truthy(Get(job, JobId)) then job[JobId] else Str(derivedId);
      var createdAt := if Truthy(Get(job, CreatedAt)) then job[CreatedAt] else now;
      Some((map key | key in {Metadata, Intent, IdempotencyKey} && key in job :: job[key])
           + map[DocId := jobId, BtqState := PENDING, CreatedAt := createdAt, CreatedBy := Str(createdBy),
                 JobId := jobId, JobType := job[JobType], Payload := job[Payload]])
  }

  /** What a listener holds: documents read but not yet claimed, and the copies it owns or once owned. */
  datatype Listener = Listener(fetched: map<string, Doc>, copies: set<Doc>)

  datatype Report = AsProcessing | AsComplete | AsFailed(reason: string)

  datatype Action =
    | Enqueue(id: string, job: Doc)               // create-only PUT of a built queue document
    | Fetch(who: nat, id: string)                 // the GET of `_claim_if_pending`
    | Claim(who: nat, id: string)                 // its check and its PUT
    | Mark(who: nat, copy: Doc, edits: Doc, report: Report)  // `mark_processing`, `mark_complete`, `mark_failed`

  datatype Event =
    | Created(id: string)
    | Duplicate(id: string)
    | Claimed(who: nat, id: string)
    | Marked(who: nat, id: string)

  datatype State = State(server: Server, listeners: map<nat, Listener>, events: seq<Event>)

  function ListenerOf(s: State, who: nat): Listener {
    if who in s.listeners then s.listeners[who] else Listener(map[], {})
  }

  /** The identity a document copy carries. */
  function IdText(doc: Doc): string {
    TextOf(Get(doc, DocId))
  }

  function RevOf(doc: Doc): nat
    requires RevKey in doc && doc[RevKey].Rev?
  {
    doc[RevKey].r
  }

  /** The document as `_claim_if_pending` writes it. */
  function ClaimDoc(doc: Doc): Doc {
    doc[BtqState := CLAIMED]
  }

  /** A copy as its holder has changed it while working on the job; identity and revision stay. */
  function Edited(copy: Doc, edits: Doc): Doc {
    copy + (edits - {DocId, RevKey})
  }

  /** The document as `_update_state` writes it. */
  function ReportDoc(copy: Doc, report: Report): Doc {
    match report
    case AsProcessing => copy[BtqState := PROCESSING]
    case AsComplete => copy[BtqState := COMPLETE]
    case AsFailed(reason) => copy[BtqState := FAILED][ErrorReason := Str(reason)]
  }

  /** `_put_queue_doc`: a PUT without revision; HTTP 409 means somebody has created it before. */
  function EnqueueStep(s: State, id: string, job: Doc): State {
    if Accepts(s.server, id, job) then
      State(Store(s.server, id, job), s.listeners, s.events + [Created(id)])
    else s.(events := s.events + [Duplicate(id)])
  }

  function FetchStep(s: State, who: nat, id: string): State {
    var doc, me := Read(s.server, id), ListenerOf(s, who);
    if doc.None? then s
    else s.(listeners := s.listeners[who := me.(fetched := me.fetched[id := doc.value])])
  }

  function ClaimStep(s: State, who: nat, id: string): State {
    var me := ListenerOf(s, who);
    if id !in me.fetched then s
    else
      var doc := me.fetched[id];
      var rest := me.(fetched := me.fetched - {id});
      if Get(doc, BtqState) != PENDING || !Accepts(s.server, id, ClaimDoc(doc)) then
        s.(listeners := s.listeners[who := rest])
      else
        var copy := ClaimDoc(doc)[RevKey := Rev(s.server.next)];
        State(Store(s.server, id, ClaimDoc(doc)),
              s.listeners[who := rest.(copies := rest.copies + {copy})], s.events + [Claimed(who, id)])
  }

  predicate MarkAccepted(s: State, who: nat, copy: Doc, edits: Doc, report: Report) {
    copy in ListenerOf(s, who).copies && Accepts(s.server, IdText(copy), ReportDoc(Edited(copy, edits), report))
  }

  /** Only `mark_processing` hands the new revision back to the listener. */
  function MarkStep(s: State, who: nat, copy: Doc, edits: Doc, report: Report): State {
    var me, id, updated := ListenerOf(s, who), IdText(copy), ReportDoc(Edited(copy, edits), report);
    if !MarkAccepted(s, who, copy, edits, report) then s
    else
      var kept := if report.AsProcessing? then me.copies + {updated[RevKey := Rev(s.server.next)]} else me.copies;
      State(Store(s.server, id, updated), s.listeners[who := me.(copies := kept)], s.events + [Marked(who, id)])
  }

  /** Producers send built queue documents, which carry no revision. */
  predicate Built(action: Action) {
    action.Enqueue? ==> RevKey !in action.job
  }

  function Step(s: State, action: Action): State {
    match action
    case Enqueue(id, job) => EnqueueStep(s, id, job)
    case Fetch(who, id) => FetchStep(s, who, id)
    case Claim(who, id) => ClaimStep(s, who, id)
    case Mark(who, copy, edits, report) => MarkStep(s, who, copy, edits, report)
  }

  function Run(s: State, actions: seq<Action>): State {
    if actions == [] then s else Step(Run(s, actions[..|actions| - 1]), actions[|actions| - 1])
  }

  function Start(s: Server): State {
    State(s, map[], [])
  }

  // ---- What every action stores ----

  /** A built queue document, field by field. */
  lemma QueueDocIs(job: Doc, createdBy: string, now: Value, derivedId: string)
    requires JobType in job && Payload in job
    ensures var doc := BuildQueueDoc(job, createdBy, now, derivedId).value;
            && Get(doc, JobId) == Get(doc, DocId)
            && Get(doc, JobId) == (if Truthy(Get(job, JobId)) then job[JobId] else Str(derivedId))
            && Get(doc, CreatedAt) == (if Truthy(Get(job, CreatedAt)) then job[CreatedAt] else now)
            && Get(doc, CreatedBy) == Str(createdBy) && Get(doc, BtqState) == Str("pending")
            && SameField(job, doc, JobType) && SameField(job, doc, Payload)
            && SameField(job, doc, Metadata) && SameField(job, doc, Intent) && SameField(job, doc, IdempotencyKey)
            && doc.Keys <= {DocId, JobId, BtqState, CreatedAt, CreatedBy, JobType, Payload}
                           + {Metadata, Intent, IdempotencyKey}
  {
  }

  /** The state that a report names. */
  function Named(report: Report): string {
    match report
    case AsProcessing => "processing"
    case AsComplete => "complete"
    case AsFailed(_) => "failed"
  }

  /** A job after a report: in the state that the report names, with the reason of a failure, and otherwise the copy
      with the edits of its holder. */
  ghost predicate Reported(copy: Doc, edits: Doc, report: Report, body: Doc) {
    && Get(body, BtqState) == Str(Named(report))
    && (report.AsFailed? ==> Get(body, ErrorReason) == Str(report.reason))
    && forall key :: key != DocId && key != RevKey && key != BtqState && (report.AsFailed? ==> key != ErrorReason) ==>
         SameField(if key in edits then edits else copy, body, key)
  }

  lemma ReportSays(copy: Doc, edits: Doc, report: Report)
    ensures Reported(copy, edits, report, BodyOf(ReportDoc(Edited(copy, edits), report)))
  {
  }

  /** An accepted report stores what it says under the identity of the copy, and changes no other job. */
  lemma ReportIsStored(s: State, who: nat, copy: Doc, edits: Doc, report: Report)
    requires MarkAccepted(s, who, copy, edits, report)
    ensures var s' := MarkStep(s, who, copy, edits, report);
            && IdText(copy) in s'.server.docs && Reported(copy, edits, report, s'.server.docs[IdText(copy)].body)
            && Wrote(s.server, s'.server, IdText(copy), s'.server.docs[IdText(copy)].body)
  {
    ReportSays(copy, edits, report);
    StoreWrites(s.server, IdText(copy), ReportDoc(Edited(copy, edits), report));
  }

  /** A job after a claim: in state claimed, and otherwise as it was. */
  ghost predicate ClaimedFrom(before: Doc, body: Doc) {
    && Get(before, BtqState) == Str("pending") && Get(body, BtqState) == Str("claimed")
    && SameBut(before, body, {BtqState})
  }

  /** A claim that is won finds the job pending, changes its state and nothing else, and no other job. */
  lemma ClaimIsStored(s: State, who: nat, id: string)
    requires id in ListenerOf(s, who).fetched && ClaimStep(s, who, id).server != s.server
    ensures var s' := ClaimStep(s, who, id);
            && id in s'.server.docs && ClaimedFrom(ListenerOf(s, who).fetched[id], s'.server.docs[id].body)
            && Wrote(s.server, s'.server, id, s'.server.docs[id].body)
  {
    StoreWrites(s.server, id, ClaimDoc(ListenerOf(s, who).fetched[id]));
  }

  // ---- What every action keeps ----

  function JobState(s: Server, id: string): Value
    requires id in s.docs
  {
    Get(s.docs[id].body, BtqState)
  }

  predicate Pending(s: Server, id: string) {
    id in s.docs && JobState(s, id) == PENDING
  }

  /** A copy of a stored document that is stale, or identical to what is stored. */
  predicate CopySound(s: Server, id: string, doc: Doc) {
    && Get(doc, DocId) == Str(id) && RevKey in doc && doc[RevKey].Rev?
    && id in s.docs && RevOf(doc) <= s.docs[id].rev
    && (RevOf(doc) == s.docs[id].rev ==> Read(s, id) == Some(doc))
  }

  predicate AllSound(s: Server, fetched: map<string, Doc>) {
    forall id <- fetched :: CopySound(s, id, fetched[id])
  }

  predicate FetchedSound(s: State, who: nat) {
    AllSound(s.server, ListenerOf(s, who).fetched)
  }

  /** A copy came from a claim by its holder, and it is current only while the job is in work. */
  predicate OwnedSound(s: State, who: nat, copy: Doc) {
    && Get(copy, DocId).Str?
    && var id := copy[DocId].s;
       && CopySound(s.server, id, copy)
       && Claimed(who, id) in s.events
       && (RevOf(copy) == s.server.docs[id].rev ==> JobState(s.server, id) in {CLAIMED, PROCESSING})
  }

  predicate CopiesSound(s: State, who: nat) {
    forall copy <- ListenerOf(s, who).copies :: OwnedSound(s, who, copy)
  }

  predicate SameRev(x: Doc, y: Doc) {
    RevKey in x && RevKey in y && x[RevKey] == y[RevKey]
  }

  /** The server never gives the same revision twice, so two held copies with one revision are one and the same. */
  ghost predicate CopiesDistinct(s: State) {
    forall a, b, x, y :: x in ListenerOf(s, a).copies && y in ListenerOf(s, b).copies && SameRev(x, y) ==>
      a == b && x == y
  }

  ghost predicate Inv(s: State) {
    && ValidServer(s.server)
    && (forall who :: FetchedSound(s, who) && CopiesSound(s, who))
    && CopiesDistinct(s)
  }

  /** A write leaves every copy sound: it was stale, or it becomes stale. */
  lemma StoreKeepsCopy(s: Server, target: string, body: Doc, id: string, doc: Doc)
    requires ValidServer(s) && CopySound(s, id, doc)
    ensures CopySound(Store(s, target, body), id, doc) && RevOf(doc) < s.next
    ensures target == id ==> RevOf(doc) < Store(s, target, body).docs[id].rev
  {
  }

  lemma StoreKeepsOwned(s: State, s': State, who: nat, target: string, body: Doc, copy: Doc)
    requires ValidServer(s.server) && OwnedSound(s, who, copy)
    requires s'.server == Store(s.server, target, body) && s.events <= s'.events
    ensures OwnedSound(s', who, copy) && RevOf(copy) < s.server.next
  {
    StoreKeepsCopy(s.server, target, body, copy[DocId].s, copy);
  }

  lemma EnqueueKeepsInv(s: State, id: string, job: Doc)
    requires Inv(s)
    ensures Inv(EnqueueStep(s, id, job))
  {
    var s' := EnqueueStep(s, id, job);
    if Accepts(s.server, id, job) {
      StoreKeepsValid(s.server, id, job);
      OthersKept(s, s', id, job, {});
    } else {
      forall who
        ensures FetchedSound(s', who)
      {
        assert FetchedSound(s, who) && ListenerOf(s', who).fetched == ListenerOf(s, who).fetched;
      }
      Unwritten(s, s');
    }
  }

  /** Nothing was written and nobody holds more than before. */
  lemma Unwritten(s: State, s': State)
    requires Inv(s) && s'.server == s.server && s.events <= s'.events
    requires forall who :: ListenerOf(s', who).copies <= ListenerOf(s, who).copies
    requires forall who :: FetchedSound(s', who)
    ensures Inv(s')
  {
    forall who
      ensures CopiesSound(s', who)
    {
      assert CopiesSound(s, who);
      forall copy <- ListenerOf(s', who).copies
        ensures OwnedSound(s', who, copy)
      {
        assert OwnedSound(s, who, copy);
      }
    }
  }

  /** `who` holds no fetched document that it did not hold before. */
  predicate FetchedBefore(s: State, s': State, who: nat) {
    var now, before := ListenerOf(s', who).fetched, ListenerOf(s, who).fetched;
    forall id <- now :: id in before && now[id] == before[id]
  }

  /** After a write, everything a listener held before and still holds is sound; `added` are the new copies. */
  lemma OthersKept(s: State, s': State, target: string, body: Doc, added: set<Doc>)
    requires Inv(s) && s'.server == Store(s.server, target, body) && s.events <= s'.events
    requires ValidServer(s'.server)
    requires forall who :: FetchedBefore(s, s', who)
    requires forall who :: ListenerOf(s', who).copies <= ListenerOf(s, who).copies + added
    requires forall who, copy :: copy in added && copy in ListenerOf(s', who).copies ==> OwnedSound(s', who, copy)
    requires forall copy <- added :: RevKey in copy && copy[RevKey] == Rev(s.server.next)
    requires forall a, b, x, y | x in added && y in added && x in ListenerOf(s', a).copies
                                 && y in ListenerOf(s', b).copies :: a == b && x == y
    ensures Inv(s')
  {
    forall who
      ensures FetchedSound(s', who) && CopiesSound(s', who)
    {
      assert FetchedSound(s, who) && CopiesSound(s, who) && FetchedBefore(s, s', who);
      forall id <- ListenerOf(s', who).fetched
        ensures CopySound(s'.server, id, ListenerOf(s', who).fetched[id])
      {
        StoreKeepsCopy(s.server, target, body, id, ListenerOf(s, who).fetched[id]);
      }
      forall copy <- ListenerOf(s', who).copies
        ensures OwnedSound(s', who, copy)
      {
        if copy !in added {
          StoreKeepsOwned(s, s', who, target, body, copy);
        }
      }
    }
    forall a, b, x, y | x in ListenerOf(s', a).copies && y in ListenerOf(s', b).copies && SameRev(x, y)
      ensures a == b && x == y
    {
      assert CopiesSound(s, a) && CopiesSound(s, b);
      if x !in added {
        StoreKeepsOwned(s, s', a, target, body, x);
      }
      if y !in added {
        StoreKeepsOwned(s, s', b, target, body, y);
      }
    }
  }

  lemma FetchKeepsInv(s: State, who: nat, id: string)
    requires Inv(s)
    ensures Inv(FetchStep(s, who, id))
  {
    var s', doc := FetchStep(s, who, id), Read(s.server, id);
    forall w
      ensures FetchedSound(s', w)
    {
      assert FetchedSound(s, w);
      if doc.Some? && w == who {
        assert ListenerOf(s', w).fetched == ListenerOf(s, w).fetched[id := doc.value];
      } else {
        assert ListenerOf(s', w).fetched == ListenerOf(s, w).fetched;
      }
    }
    Unwritten(s, s');
  }

  lemma ClaimRefusedKeepsInv(s: State, who: nat, id: string)
    requires Inv(s) && ClaimStep(s, who, id).server == s.server
    ensures Inv(ClaimStep(s, who, id))
  {
    var s' := ClaimStep(s, who, id);
    forall w
      ensures FetchedSound(s', w)
    {
      assert FetchedSound(s, w) && FetchedBefore(s, s', w);
    }
    Unwritten(s, s');
  }

  lemma ClaimWonKeepsInv(s: State, who: nat, id: string)
    requires Inv(s) && ClaimStep(s, who, id).server != s.server
    ensures Inv(ClaimStep(s, who, id))
  {
    var s', me := ClaimStep(s, who, id), ListenerOf(s, who);
    assert FetchedSound(s, who);
    var doc := me.fetched[id];
    var copy := ClaimDoc(doc)[RevKey := Rev(s.server.next)];
    StoreKeepsValid(s.server, id, ClaimDoc(doc));
    CopyOfStored(s.server, id, ClaimDoc(doc));
    assert s'.events[|s.events|] == Claimed(who, id);
    assert OwnedSound(s', who, copy);
    CopyIsNew(s, who, copy);
    assert forall w :: FetchedBefore(s, s', w);
    OthersKept(s, s', id, ClaimDoc(doc), {copy});
  }

  lemma ClaimKeepsInv(s: State, who: nat, id: string)
    requires Inv(s)
    ensures Inv(ClaimStep(s, who, id))
  {
    if ClaimStep(s, who, id).server == s.server {
      ClaimRefusedKeepsInv(s, who, id);
    } else {
      ClaimWonKeepsInv(s, who, id);
    }
  }

  /** The copy a client keeps after its PUT is what a GET would return. */
  lemma CopyOfStored(s: Server, id: string, doc: Doc)
    requires Get(doc, DocId) == Str(id) && RevKey in doc
    ensures Read(Store(s, id, doc), id) == Some(doc[RevKey := Rev(s.next)])
  {
    assert (doc - {DocId, RevKey})[DocId := Str(id)][RevKey := Rev(s.next)] == doc[RevKey := Rev(s.next)];
  }

  /** Nobody holds a copy with the next revision yet. */
  lemma CopyIsNew(s: State, who: nat, copy: Doc)
    requires Inv(s) && RevKey in copy && copy[RevKey] == Rev(s.server.next)
    ensures forall w :: copy !in ListenerOf(s, w).copies
  {
    forall w
      ensures copy !in ListenerOf(s, w).copies
    {
      assert CopiesSound(s, w);
      assert forall held <- ListenerOf(s, w).copies :: OwnedSound(s, w, held) && RevOf(held) < s.server.next;
    }
  }

  lemma MarkKeepsInv(s: State, who: nat, copy: Doc, edits: Doc, report: Report)
    requires Inv(s)
    ensures Inv(MarkStep(s, who, copy, edits, report))
  {
    if MarkAccepted(s, who, copy, edits, report) {
      assert CopiesSound(s, who) && OwnedSound(s, who, copy);
      var updated := ReportDoc(Edited(copy, edits), report);
      if report.AsProcessing? {
        ProcessingKeepsInv(s, MarkStep(s, who, copy, edits, report), who, copy, updated);
      } else {
        OutcomeKeepsInv(s, MarkStep(s, who, copy, edits, report), IdText(copy), updated);
      }
    }
  }

  lemma ProcessingKeepsInv(s: State, s': State, who: nat, copy: Doc, updated: Doc)
    requires Inv(s) && copy in ListenerOf(s, who).copies && OwnedSound(s, who, copy)
    requires Get(updated, DocId) == Get(copy, DocId) && RevKey in updated && Get(updated, BtqState) == PROCESSING
    requires s'.server == Store(s.server, IdText(copy), updated) && s.events <= s'.events
    requires var me := ListenerOf(s, who);
             s'.listeners == s.listeners[who := me.(copies := me.copies + {updated[RevKey := Rev(s.server.next)]})]
    ensures Inv(s')
  {
    var minted := updated[RevKey := Rev(s.server.next)];
    StoreKeepsValid(s.server, IdText(copy), updated);
    CopyOfStored(s.server, IdText(copy), updated);
    CopyIsNew(s, who, minted);
    assert OwnedSound(s', who, minted);
    OthersKept(s, s', IdText(copy), updated, {minted});
  }

  lemma OutcomeKeepsInv(s: State, s': State, id: string, updated: Doc)
    requires Inv(s) && s'.server == Store(s.server, id, updated) && s.events <= s'.events
    requires forall who :: ListenerOf(s', who) == ListenerOf(s, who)
    ensures Inv(s')
  {
    StoreKeepsValid(s.server, id, updated);
    OthersKept(s, s', id, updated, {});
  }

  lemma {:induction false} InvHolds(s0: Server, actions: seq<Action>)
    requires ValidServer(s0)
    ensures Inv(Run(Start(s0), actions))
    decreases |actions|
  {
    if actions != [] {
      var before, action := actions[..|actions| - 1], actions[|actions| - 1];
      InvHolds(s0, before);
      var s := Run(Start(s0), before);
      match action
      case Enqueue(id, job) => EnqueueKeepsInv(s, id, job);
      case Fetch(who, id) => FetchKeepsInv(s, who, id);
      case Claim(who, id) => ClaimKeepsInv(s, who, id);
      case Mark(who, copy, edits, report) => MarkKeepsInv(s, who, copy, edits, report);
    }
  }

  // ---- Ownership over whole runs ----

  function Creations(events: seq<Event>, id: string): nat {
    if events == [] then 0
    else Creations(events[..|events| - 1], id) + (if events[|events| - 1] == Created(id) then 1 else 0)
  }

  function Claims(events: seq<Event>, id: string): nat {
    if events == [] then 0
    else
      var last := events[|events| - 1];
      Claims(events[..|events| - 1], id) + (if last.Claimed? && last.id == id then 1 else 0)
  }

  lemma CountsOfAppend(events: seq<Event>, event: Event, id: string)
    ensures Creations(events + [event], id) == Creations(events, id) + (if event == Created(id) then 1 else 0)
    ensures Claims(events + [event], id) == Claims(events, id) + (if event.Claimed? && event.id == id then 1 else 0)
  {
    assert (events + [event])[..|events|] == events;
  }

  /** A document is created at most once and never removed; it is claimed at most once and is never pending again
      after that; and only the listener that claimed it ever writes it. */
  ghost predicate JobInv(s0: Server, s: State, id: string) {
    && s0.docs.Keys <= s.server.docs.Keys
    && Creations(s.events, id) == (if id !in s0.docs && id in s.server.docs then 1 else 0)
    && (Created(id) in s.events || Duplicate(id) in s.events ==> id in s.server.docs)
    && Claims(s.events, id) <= 1
    && (Claims(s.events, id) == 1 ==> id in s.server.docs && JobState(s.server, id) != PENDING)
    && (forall who :: Marked(who, id) in s.events ==> Claimed(who, id) in s.events)
  }

  lemma EnqueueKeepsJob(s0: Server, s: State, target: string, job: Doc, id: string)
    requires Inv(s) && JobInv(s0, s, id) && RevKey !in job
    ensures JobInv(s0, EnqueueStep(s, target, job), id)
  {
    var event := if Accepts(s.server, target, job) then Created(target) else Duplicate(target);
    CountsOfAppend(s.events, event, id);
    assert EnqueueStep(s, target, job).events == s.events + [event];
  }

  lemma ClaimKeepsJob(s0: Server, s: State, who: nat, target: string, id: string)
    requires Inv(s) && JobInv(s0, s, id)
    ensures JobInv(s0, ClaimStep(s, who, target), id)
  {
    if ClaimStep(s, who, target).server != s.server {
      ClaimWrites(s, who, target);
      JobAfterClaim(s0, s, ClaimStep(s, who, target), who, target, id);
    }
  }

  /** A claim that is won finds its job pending and leaves it claimed. */
  lemma ClaimWrites(s: State, who: nat, target: string)
    requires Inv(s) && ClaimStep(s, who, target).server != s.server
    ensures var s' := ClaimStep(s, who, target);
            && s'.events == s.events + [Claimed(who, target)] && s'.server.docs.Keys == s.server.docs.Keys
            && Pending(s.server, target) && JobState(s'.server, target) == CLAIMED
            && forall id <- s.server.docs | id != target :: s'.server.docs[id] == s.server.docs[id]
  {
    assert FetchedSound(s, who);
    assert CopySound(s.server, target, ListenerOf(s, who).fetched[target]);
  }

  lemma JobAfterClaim(s0: Server, s: State, s': State, who: nat, target: string, id: string)
    requires JobInv(s0, s, id) && s'.events == s.events + [Claimed(who, target)]
    requires s'.server.docs.Keys == s.server.docs.Keys
    requires Pending(s.server, target) && JobState(s'.server, target) == CLAIMED
    requires target != id && id in s.server.docs ==> s'.server.docs[id] == s.server.docs[id]
    ensures JobInv(s0, s', id)
  {
    CountsOfAppend(s.events, Claimed(who, target), id);
  }

  lemma MarkKeepsJob(s0: Server, s: State, who: nat, copy: Doc, edits: Doc, report: Report, id: string)
    requires Inv(s) && JobInv(s0, s, id)
    ensures JobInv(s0, MarkStep(s, who, copy, edits, report), id)
  {
    if MarkAccepted(s, who, copy, edits, report) {
      MarkWrites(s, who, copy, edits, report);
      JobAfterMark(s0, s, MarkStep(s, who, copy, edits, report), who, IdText(copy), id);
    }
  }

  /** An accepted report comes from the claimer and leaves its job in another state than pending. */
  lemma MarkWrites(s: State, who: nat, copy: Doc, edits: Doc, report: Report)
    requires Inv(s) && MarkAccepted(s, who, copy, edits, report)
    ensures var s', target := MarkStep(s, who, copy, edits, report), IdText(copy);
            && s'.events == s.events + [Marked(who, target)] && Claimed(who, target) in s.events
            && target in s.server.docs && s'.server.docs.Keys == s.server.docs.Keys
            && JobState(s'.server, target) != PENDING
  {
    assert CopiesSound(s, who);
    assert OwnedSound(s, who, copy);
    assert JobState(MarkStep(s, who, copy, edits, report).server, IdText(copy)) in {PROCESSING, COMPLETE, FAILED};
  }

  lemma JobAfterMark(s0: Server, s: State, s': State, who: nat, target: string, id: string)
    requires JobInv(s0, s, id) && Claimed(who, target) in s.events
    requires s'.events == s.events + [Marked(who, target)] && s'.server.docs.Keys == s.server.docs.Keys
    requires target in s'.server.docs && JobState(s'.server, target) != PENDING
    requires target != id && id in s.server.docs ==> JobState(s'.server, id) == JobState(s.server, id)
    ensures JobInv(s0, s', id)
  {
    CountsOfAppend(s.events, Marked(who, target), id);
  }

  lemma {:induction false} JobInvHolds(s0: Server, actions: seq<Action>, id: string)
    requires ValidServer(s0) && (forall action <- actions :: Built(action))
    ensures JobInv(s0, Run(Start(s0), actions), id)
    decreases |actions|
  {
    if actions != [] {
      var before, action := actions[..|actions| - 1], actions[|actions| - 1];
      JobInvHolds(s0, before, id);
      InvHolds(s0, before);
      var s := Run(Start(s0), before);
      assert Built(action);
      match action
      case Enqueue(target, job) => EnqueueKeepsJob(s0, s, target, job, id);
      case Fetch(who, target) =>
      case Claim(who, target) => ClaimKeepsJob(s0, s, who, target, id);
      case Mark(who, copy, edits, report) => MarkKeepsJob(s0, s, who, copy, edits, report, id);
    }
  }

  lemma {:induction false} OneClaim(events: seq<Event>, a: nat, b: nat, id: string)
    requires Claimed(a, id) in events && Claimed(b, id) in events && a != b
    ensures Claims(events, id) >= 2
    decreases |events|
  {
    var init, last := events[..|events| - 1], events[|events| - 1];
    if last == Claimed(a, id) {
      SomeClaim(init, b, id);
    } else if last == Claimed(b, id) {
      SomeClaim(init, a, id);
    } else {
      OneClaim(init, a, b, id);
    }
  }

  lemma {:induction false} SomeClaim(events: seq<Event>, a: nat, id: string)
    requires Claimed(a, id) in events
    ensures Claims(events, id) >= 1
    decreases |events|
  {
    if events[|events| - 1] != Claimed(a, id) {
      SomeClaim(events[..|events| - 1], a, id);
    }
  }

  /** A copy of job `id` that the server would still accept. */
  predicate HoldsCurrent(s: State, who: nat, copy: Doc, id: string) {
    && copy in ListenerOf(s, who).copies && IdText(copy) == id
    && id in s.server.docs && Get(copy, RevKey) == Rev(s.server.docs[id].rev)
  }

  /** The listener has claimed or written the job. */
  predicate Touched(s: State, who: nat, id: string) {
    Claimed(who, id) in s.events || Marked(who, id) in s.events
  }

  /** Whoever touches the job is one and the same listener. */
  ghost predicate OneOwner(s: State, id: string) {
    forall a, b | Touched(s, a, id) && Touched(s, b, id) :: a == b
  }

  /** At most one copy of the job is current; it is the stored document, and its holder has claimed the job. */
  ghost predicate OneCurrent(s: State, id: string) {
    && (forall a, b, x, y | HoldsCurrent(s, a, x, id) && HoldsCurrent(s, b, y, id) :: a == b && x == y)
    && (forall a, x | HoldsCurrent(s, a, x, id) :: Claimed(a, id) in s.events && Read(s.server, id) == Some(x))
  }

  lemma OneClaimer(s0: Server, s: State, id: string)
    requires JobInv(s0, s, id)
    ensures OneOwner(s, id)
  {
    forall a, b | Touched(s, a, id) && Touched(s, b, id)
      ensures a == b
    {
      if a != b {
        OneClaim(s.events, a, b, id);
      }
    }
  }

  lemma OneCurrentCopy(s: State, id: string)
    requires Inv(s)
    ensures OneCurrent(s, id)
  {
    forall a, x | HoldsCurrent(s, a, x, id)
      ensures Claimed(a, id) in s.events && Read(s.server, id) == Some(x) && RevKey in x
    {
      assert CopiesSound(s, a) && OwnedSound(s, a, x);
    }
    forall a, b, x, y | HoldsCurrent(s, a, x, id) && HoldsCurrent(s, b, y, id)
      ensures a == b && x == y
    {
      assert SameRev(x, y);
    }
  }

  /** The job was created once if it was enqueued at all, and it is claimed at most once, with one owner. */
  ghost predicate Owned(s0: Server, s: State, id: string) {
    && Creations(s.events, id) == (if id !in s0.docs && id in s.server.docs then 1 else 0)
    && (Created(id) in s.events || Duplicate(id) in s.events ==> id in s.server.docs)
    && Claims(s.events, id) <= 1 && OneOwner(s, id) && OneCurrent(s, id)
  }

  /** Queue ownership, over every order of any number of producers and listeners: a job id is created exactly once
      if it is enqueued at all; at most one claim of it succeeds; whoever writes it afterwards is the claimer; and at
      most one copy in any listener's hands is still current, it is identical to the stored document, and its holder
      is the claimer. */
  lemma QueueOwnership(s0: Server, actions: seq<Action>, id: string)
    requires ValidServer(s0) && (forall action <- actions :: Built(action))
    ensures Owned(s0, Run(Start(s0), actions), id)
  {
    InvHolds(s0, actions);
    JobInvHolds(s0, actions, id);
    OneClaimer(s0, Run(Start(s0), actions), id);
    OneCurrentCopy(Run(Start(s0), actions), id);
  }

  predicate Terminal(s: Server, id: string) {
    id in s.docs && JobState(s, id) in {COMPLETE, FAILED}
  }

  lemma TerminalStep(s: State, action: Action, id: string)
    requires Inv(s) && Built(action) && Terminal(s.server, id)
    ensures id in Step(s, action).server.docs && Step(s, action).server.docs[id] == s.server.docs[id]
  {
    match action
    case Enqueue(_, _) =>
    case Fetch(_, _) =>
    case Claim(who, target) =>
      assert FetchedSound(s, who);
    case Mark(who, copy, edits, report) =>
      assert CopiesSound(s, who);
      if copy in ListenerOf(s, who).copies {
        assert OwnedSound(s, who, copy);
      }
  }

  /** A complete or failed job never changes again, whatever producers and listeners still do. */
  lemma {:induction false} TerminalIsAbsorbing(s0: Server, first: seq<Action>, more: seq<Action>, id: string)
    requires ValidServer(s0) && Terminal(Run(Start(s0), first).server, id)
    requires forall action <- more :: Built(action)
    ensures var s, s' := Run(Start(s0), first), Run(Start(s0), first + more);
            id in s'.server.docs && s'.server.docs[id] == s.server.docs[id]
    decreases |more|
  {
    if more == [] {
      assert first + more == first;
    } else {
      var shorter, action := more[..|more| - 1], more[|more| - 1];
      TerminalIsAbsorbing(s0, first, shorter, id);
      assert (first + more)[..|first + more| - 1] == first + shorter && (first + more)[|first + more| - 1] == action;
      InvHolds(s0, first + shorter);
      TerminalStep(Run(Start(s0), first + shorter), action, id);
    }
  }

  lemma RunSnoc(s: State, before: seq<Action>, action: Action)
    ensures Run(s, before + [action]) == Step(Run(s, before), action)
  {
    assert (before + [action])[..|before|] == before;
  }

  // ---- A pending job is claimed ----

  predicate ByOthers(action: Action, who: nat) {
    Built(action) && (action.Enqueue? || action.who != who)
  }

  lemma OthersLeaveMe(s: State, action: Action, who: nat)
    requires action.Enqueue? || action.who != who
    ensures ListenerOf(Step(s, action), who) == ListenerOf(s, who)
    ensures s.events <= Step(s, action).events
  {
  }

  ghost predicate SomeoneClaimed(s: State, id: string) {
    exists who :: Claimed(who, id) in s.events
  }

  /** Only a claim changes a pending job. */
  lemma PendingStep(s: State, action: Action, id: string)
    requires Inv(s) && Built(action) && Pending(s.server, id)
    ensures var s' := Step(s, action);
            id in s'.server.docs && (s'.server.docs[id] == s.server.docs[id] || SomeoneClaimed(s', id))
  {
    match action
    case Enqueue(_, _) =>
    case Fetch(_, _) =>
    case Claim(who, target) =>
      var s' := Step(s, action);
      if s'.server != s.server {
        assert s'.events[|s.events|] == Claimed(who, target);
      }
    case Mark(who, copy, edits, report) =>
      assert CopiesSound(s, who);
      if copy in ListenerOf(s, who).copies {
        assert OwnedSound(s, who, copy);
      }
  }

  /** The job is as it was, or somebody has claimed it; and nothing that `who` holds has changed. */
  ghost predicate Waits(s: State, t: State, who: nat, id: string) {
    && id in s.server.docs && id in t.server.docs
    && (t.server.docs[id] == s.server.docs[id] || SomeoneClaimed(t, id))
    && ListenerOf(t, who) == ListenerOf(s, who)
  }

  lemma StepWaits(s: State, t: State, action: Action, who: nat, id: string)
    requires Inv(t) && Pending(s.server, id) && Waits(s, t, who, id) && ByOthers(action, who)
    ensures Waits(s, Step(t, action), who, id)
  {
    OthersLeaveMe(t, action, who);
    if SomeoneClaimed(t, id) {
      var other :| Claimed(other, id) in t.events;
      assert Claimed(other, id) in Step(t, action).events;
    } else {
      PendingStep(t, action, id);
    }
  }

  lemma {:induction false} OthersWait(s0: Server, first: seq<Action>, between: seq<Action>, who: nat, id: string)
    requires ValidServer(s0) && Pending(Run(Start(s0), first).server, id)
    requires forall action <- between :: ByOthers(action, who)
    ensures Waits(Run(Start(s0), first), Run(Start(s0), first + between), who, id)
    decreases |between|
  {
    if between == [] {
      assert first + between == first;
    } else {
      var shorter, action := between[..|between| - 1], between[|between| - 1];
      OthersWait(s0, first, shorter, who, id);
      assert first + between == (first + shorter) + [action];
      RunSnoc(Start(s0), first + shorter, action);
      InvHolds(s0, first + shorter);
      StepWaits(Run(Start(s0), first), Run(Start(s0), first + shorter), action, who, id);
    }
  }

  /** The claim of a fetched pending job that nobody has changed since is won. */
  lemma UnchangedIsClaimed(t: State, who: nat, id: string)
    requires Pending(t.server, id) && id in ListenerOf(t, who).fetched
    requires Read(t.server, id) == Some(ListenerOf(t, who).fetched[id])
    ensures var s' := ClaimStep(t, who, id);
            s'.events == t.events + [Claimed(who, id)] && JobState(s'.server, id) == CLAIMED
  {
  }

  lemma ClaimKeepsEvents(t: State, who: nat, id: string)
    ensures t.events <= ClaimStep(t, who, id).events
  {
  }

  lemma FetchLooks(s: State, who: nat, id: string)
    requires id in s.server.docs
    ensures var t := FetchStep(s, who, id);
            t.server == s.server && t.events == s.events && id in ListenerOf(t, who).fetched
            && Read(s.server, id) == Some(ListenerOf(t, who).fetched[id])
  {
  }

  /** A pending job that a listener looks at is claimed in the end: by that listener if the job has not changed when
      it tries, in particular if nobody acts in between, and otherwise by another one that has been faster. */
  lemma PendingJobIsClaimed(s0: Server, first: seq<Action>, between: seq<Action>, who: nat, id: string)
    requires ValidServer(s0) && Pending(Run(Start(s0), first).server, id)
    requires forall action <- between :: ByOthers(action, who)
    ensures var s := Run(Start(s0), first);
            var t := Run(Start(s0), first + [Fetch(who, id)] + between);
            var s' := Run(Start(s0), first + [Fetch(who, id)] + between + [Claim(who, id)]);
            && SomeoneClaimed(s', id)
            && (id in t.server.docs && t.server.docs[id] == s.server.docs[id] ==>
                  s'.events == t.events + [Claimed(who, id)] && JobState(s'.server, id) == CLAIMED)
            && (between == [] ==> Claimed(who, id) in s'.events)
  {
    var s, looked := Run(Start(s0), first), first + [Fetch(who, id)];
    RunSnoc(Start(s0), first, Fetch(who, id));
    FetchLooks(s, who, id);
    OthersWait(s0, looked, between, who, id);
    var t := Run(Start(s0), looked + between);
    RunSnoc(Start(s0), looked + between, Claim(who, id));
    ClaimKeepsEvents(t, who, id);
    if t.server.docs[id] == s.server.docs[id] {
      UnchangedIsClaimed(t, who, id);
      assert Claimed(who, id) in ClaimStep(t, who, id).events;
    } else {
      var other :| Claimed(other, id) in t.events;
      assert Claimed(other, id) in ClaimStep(t, who, id).events;
    }
    assert between == [] ==> looked + between == looked;
  }
}
