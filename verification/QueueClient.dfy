// couchdb_listener.py and btq_client.py: the calls themselves, against a queue that others use at the same time.
// Each call extends the run of the Queue machine, so the ownership results hold of every history of calls.
module QueueClient {
  import opened Json
  import opened Couch
  import opened Queue

  class QueueDatabase {
    const start: State
    var state: State
    ghost var past: seq<Action>
    var interference: seq<seq<Action>>  // what the others do before each coming request

    constructor (start: State, interference: seq<seq<Action>>)
      ensures Valid() && this.start == start && past == [] && state == start
    {
      this.start, this.state, this.past, this.interference := start, start, [], interference;
    }

    ghost predicate Valid()
      reads this
    {
      state == Run(start, past)
    }

    method Perform(action: Action)
      requires Valid()
      modifies this`state, this`past
      ensures Valid() && past == old(past) + [action] && state == Step(old(state), action)
    {
      state := Step(state, action);
      past := past + [action];
      RunSnoc(start, old(past), action);
    }

    method Interfere(who: nat)
      requires Valid()
      modifies this
      ensures Valid() && old(past) <= past && old(state).events <= state.events
      ensures ListenerOf(state, who) == ListenerOf(old(state), who)
    {
      if interference == [] {
        return;
      }
      var batch := interference[0];
      interference := interference[1..];
      for i := 0 to |batch|
        invariant Valid() && old(past) <= past && old(state).events <= state.events
        invariant ListenerOf(state, who) == ListenerOf(old(state), who)
      {
        if batch[i].Enqueue? || batch[i].who != who {
          OthersLeaveMe(state, batch[i], who);
          Perform(batch[i]);
        }
      }
    }
  }

  function Last<T>(s: seq<T>): Option<T> {
    if s == [] then None else Some(s[|s| - 1])
  }

  datatype EnqueueResult = Rejected | DryRun(doc: Doc) | Sent(duplicate: bool)

  /** `enqueue`. `reasons` is what validation has found wrong with the job; `force` overrides it. */
  method EnqueueJob(db: QueueDatabase, who: nat, job: Doc, createdBy: string, now: Value, derivedId: string,
                    reasons: seq<string>, dryRun: bool, force: bool) returns (result: EnqueueResult)
    requires db.Valid()
    modifies db
    ensures db.Valid() && old(db.past) <= db.past
    ensures result.Rejected? <==> (reasons != [] && !force) || BuildQueueDoc(job, createdBy, now, derivedId).None?
    ensures !result.Sent? ==> db.state == old(db.state)
    ensures result.Sent? ==>
              var doc := BuildQueueDoc(job, createdBy, now, derivedId).value;
              Last(db.past) == Some(Enqueue(IdText(doc), doc))
              && Last(db.state.events) == Some(if result.duplicate then Duplicate(IdText(doc)) else Created(IdText(doc)))
              && IdText(doc) in db.state.server.docs
              && (!result.duplicate ==> JobState(db.state.server, IdText(doc)) == PENDING
                                        && db.state.server.docs[IdText(doc)].body == BodyOf(doc))
  {
    if reasons != [] && !force {
      return Rejected;
    }
    var built := BuildQueueDoc(job, createdBy, now, derivedId);
    if built.None? {
      return Rejected;
    }
    if dryRun {
      return DryRun(built.value);
    }
    var id := IdText(built.value);
    db.Interfere(who);
    var accepted := Accepts(db.state.server, id, built.value);
    db.Perform(Enqueue(id, built.value));
    return Sent(!accepted);
  }

  /** The copy is a pending job, as a GET of this run returned it, with its state changed to claimed. */
  ghost predicate FromPendingJob(start: State, past: seq<Action>, id: string, copy: Doc) {
    exists k :: 0 <= k < |past| && Read(Run(start, past[..k]).server, id).Some?
                && ClaimedFrom(Read(Run(start, past[..k]).server, id).value, copy)
  }

  lemma ReadThenClaimed(start: State, seen: seq<Action>, past: seq<Action>, id: string, doc: Doc, rev: nat)
    requires seen < past && Read(Run(start, seen).server, id) == Some(doc) && Get(doc, BtqState) == PENDING
    ensures FromPendingJob(start, past, id, doc[BtqState := CLAIMED][RevKey := Rev(rev)])
  {
    assert past[..|seen|] == seen;
    assert ClaimedFrom(Read(Run(start, past[..|seen|]).server, id).value, doc[BtqState := CLAIMED][RevKey := Rev(rev)]);
  }

  /** A won claim: the job is claimed by `who`, whose copy is what is stored now, a pending job of this run with its
      state changed and nothing else. */
  ghost predicate HandedOut(start: State, past: seq<Action>, who: nat, id: string, copy: Doc) {
    var now := Run(start, past);
    && HoldsCurrent(now, who, copy, id) && Read(now.server, id) == Some(copy)
    && Claimed(who, id) in now.events && JobState(now.server, id) == CLAIMED
    && FromPendingJob(start, past, id, copy)
  }

  /** The last action stored the report of this copy, and changed no other job. */
  ghost predicate ReportWritten(start: State, past: seq<Action>, copy: Doc, edits: Doc, report: Report) {
    past != []
    && var before, after := Run(start, past[..|past| - 1]).server, Run(start, past).server;
       && IdText(copy) in after.docs && Reported(copy, edits, report, after.docs[IdText(copy)].body)
       && Wrote(before, after, IdText(copy), after.docs[IdText(copy)].body)
  }

  /** The last action was this report, and it was accepted. */
  ghost predicate EndsWithReport(start: State, past: seq<Action>, who: nat, copy: Doc, edits: Doc, report: Report) {
    && past != [] && past[|past| - 1] == Mark(who, copy, edits, report)
    && MarkAccepted(Run(start, past[..|past| - 1]), who, copy, edits, report)
  }

  lemma ReportIsWritten(start: State, past: seq<Action>, who: nat, copy: Doc, edits: Doc, report: Report)
    requires EndsWithReport(start, past, who, copy, edits, report)
    ensures ReportWritten(start, past, copy, edits, report)
  {
    var s := Run(start, past[..|past| - 1]);
    assert Run(start, past) == MarkStep(s, who, copy, edits, report);
    ReportIsStored(s, who, copy, edits, report);
  }

  datatype ClaimResult = Won(copy: Doc) | NotMine | NotFound

  datatype Change = Change(seqNo: Option<int>, id: Option<string>)

  class ChangesListener {
    const name: nat
    var lastSeq: int
    var stopped: bool

    constructor (name: nat)
      ensures this.name == name && lastSeq == 0 && !stopped
    {
      this.name, lastSeq, stopped := name, 0, false;
    }

    method Stop()
      modifies this`stopped
      ensures stopped
    {
      stopped := true;
    }

    /** `_claim_if_pending`: GET, check, PUT; a 409 means the job is somebody else's. */
    method ClaimIfPending(db: QueueDatabase, id: string) returns (result: ClaimResult)
      requires db.Valid()
      modifies db
      ensures db.Valid() && old(db.past) <= db.past
      ensures result.Won? ==> HandedOut(db.start, db.past, name, id, result.copy)
      ensures !result.Won? ==> ListenerOf(db.state, name).copies == ListenerOf(old(db.state), name).copies
    {
      db.Interfere(name);
      var doc := Read(db.state.server, id);
      ghost var seen := db.past;
      db.Perform(Fetch(name, id));
      if doc.None? {
        return NotFound;
      }
      db.Interfere(name);
      if Get(doc.value, BtqState) != PENDING {
        db.Perform(Claim(name, id));
        return NotMine;
      }
      result := PutClaim(db, id, doc.value, seen);
    }

    /** The PUT of a claim. */
    method PutClaim(db: QueueDatabase, id: string, doc: Doc, ghost seen: seq<Action>) returns (result: ClaimResult)
      requires db.Valid() && seen < db.past && Read(Run(db.start, seen).server, id) == Some(doc)
      requires id in ListenerOf(db.state, name).fetched && ListenerOf(db.state, name).fetched[id] == doc
      requires Get(doc, BtqState) == PENDING
      modifies db
      ensures db.Valid() && old(db.past) <= db.past && !result.NotFound?
      ensures result.Won? ==> HandedOut(db.start, db.past, name, id, result.copy)
      ensures !result.Won? ==> ListenerOf(db.state, name).copies == ListenerOf(old(db.state), name).copies
    {
      var claimed := doc[BtqState := CLAIMED];
      ghost var s := db.state.server;
      var accepted, rev := Accepts(db.state.server, id, claimed), db.state.server.next;
      db.Perform(Claim(name, id));
      if !accepted {
        return NotMine;
      }
      CopyOfStored(s, id, claimed);
      claimed := claimed[RevKey := Rev(rev)];
      ReadThenClaimed(db.start, seen, db.past, id, doc, rev);
      assert db.state.events[|db.state.events| - 1] == Claimed(name, id);
      return Won(claimed);
    }

    /** The document of a report, changed field by field. */
    method Prepared(copy: Doc, edits: Doc, report: Report) returns (document: Doc)
      ensures document == ReportDoc(Edited(copy, edits), report)
    {
      document := Edited(copy, edits);
      match report {
        case AsProcessing => document := document[BtqState := PROCESSING];
        case AsComplete => document := document[BtqState := COMPLETE];
        case AsFailed(reason) =>
          document := document[BtqState := FAILED];
          document := document[ErrorReason := Str(reason)];
      }
    }

    /** `_update_state` behind `mark_processing`, `mark_complete` and `mark_failed`, for a copy that its holder may
        have edited; none is a conflict. */
    method UpdateState(db: QueueDatabase, copy: Doc, edits: Doc, report: Report) returns (updated: Option<Doc>)
      requires db.Valid() && copy in ListenerOf(db.state, name).copies
      modifies db
      ensures db.Valid() && old(db.past) <= db.past
      ensures updated.Some? ==>
                && IdText(copy) in db.state.server.docs && Marked(name, IdText(copy)) in db.state.events
                && updated.value == ReportDoc(Edited(copy, edits), report)[RevKey := Get(updated.value, RevKey)]
                && (report.AsProcessing? ==> HoldsCurrent(db.state, name, updated.value, IdText(copy)))
      ensures updated.Some? ==> ReportWritten(db.start, db.past, copy, edits, report)
      ensures updated.None? ==> ListenerOf(db.state, name) == ListenerOf(old(db.state), name)
    {
      updated := TryReport(db, copy, edits, report);
      if updated.Some? {
        ReportIsWritten(db.start, db.past, name, copy, edits, report);
      }
    }

    /** The PUT of a report. */
    method TryReport(db: QueueDatabase, copy: Doc, edits: Doc, report: Report) returns (updated: Option<Doc>)
      requires db.Valid() && copy in ListenerOf(db.state, name).copies
      modifies db
      ensures db.Valid() && old(db.past) <= db.past
      ensures updated.Some? ==>
                && IdText(copy) in db.state.server.docs && Marked(name, IdText(copy)) in db.state.events
                && updated.value == ReportDoc(Edited(copy, edits), report)[RevKey := Get(updated.value, RevKey)]
                && (report.AsProcessing? ==> HoldsCurrent(db.state, name, updated.value, IdText(copy)))
      ensures updated.Some? ==> EndsWithReport(db.start, db.past, name, copy, edits, report)
      ensures updated.None? ==> ListenerOf(db.state, name) == ListenerOf(old(db.state), name)
    {
      db.Interfere(name);
      var document := Prepared(copy, edits, report);
      var accepted, rev := Accepts(db.state.server, IdText(copy), document), db.state.server.next;
      ghost var past := db.past;
      db.Perform(Mark(name, copy, edits, report));
      if !accepted {
        return None;
      }
      assert db.past[..|db.past| - 1] == past;
      document := document[RevKey := Rev(rev)];
      assert db.state.events[|db.state.events| - 1] == Marked(name, IdText(copy));
      return Some(document);
    }

    /** The loop of `listen` over the decoded lines of a feed, up to the next claimed job. `lastSeq` moves before
        the claim is tried, so it also covers the changes that were skipped. `failed` is the error of a missing
        document, which ends the loop. */
    method NextClaimed(db: QueueDatabase, feed: seq<Change>)
      returns (claimed: Option<Doc>, used: nat, failed: bool)
      requires db.Valid()
      modifies db, this`lastSeq
      ensures db.Valid() && old(db.past) <= db.past && used <= |feed|
      ensures lastSeq == LastSeq(old(lastSeq), feed[..used])
      ensures claimed.Some? ==> used > 0 && feed[used - 1].id.Some? && !stopped
                                && HandedOut(db.start, db.past, name, feed[used - 1].id.value, claimed.value)
      ensures claimed.None? ==> failed || stopped || used == |feed|
    {
      used, failed := 0, false;
      while used < |feed| && !stopped
        invariant db.Valid() && old(db.past) <= db.past && used <= |feed|
        invariant lastSeq == LastSeq(old(lastSeq), feed[..used])
      {
        var change := feed[used];
        assert feed[..used + 1][..used] == feed[..used];
        if change.seqNo.Some? {
          lastSeq := change.seqNo.value;
        }
        used := used + 1;
        if change.id.Some? && change.id.value != "" {
          var result := ClaimIfPending(db, change.id.value);
          if result.Won? {
            return Some(result.copy), used, false;
          }
          if result.NotFound? {
            return None, used, true;
          }
        }
      }
      return None, used, false;
    }
  }

  /** The sequence number of the last change that carries one. */
  function LastSeq(first: int, changes: seq<Change>): int {
    if changes == [] then first
    else
      var last := changes[|changes| - 1];
      if last.seqNo.Some? then last.seqNo.value else LastSeq(first, changes[..|changes| - 1])
  }

  /** The last change that carries a sequence number decides; without one the number stays. */
  lemma {:induction false} LastSeqIs(first: int, changes: seq<Change>, i: nat)
    requires i <= |changes| && forall j :: i < j < |changes| ==> changes[j].seqNo.None?
    ensures i < |changes| && changes[i].seqNo.Some? ==> LastSeq(first, changes) == changes[i].seqNo.value
    ensures (forall j :: 0 <= j < |changes| ==> changes[j].seqNo.None?) ==> LastSeq(first, changes) == first
  {
    if changes != [] {
      var init := changes[..|changes| - 1];
      assert forall j :: 0 <= j < |init| ==> init[j] == changes[j];
      if i < |init| {
        LastSeqIs(first, init, i);
      } else {
        LastSeqIs(first, init, |init|);
      }
    }
  }
}
