// couch_store.py: the retry loops themselves, running against a database that other clients use at the same time.
// Before each request of the loop, any other clients take any steps; the schedule says which. Each method is shown
// to take its client through a run of the World machine, so the lemmas over all schedules hold of it.
module StoreClient {
  import opened Json
  import opened Couch
  import opened StoreOps
  import opened World
  import opened Executions

  lemma OthersLeaveMe(w: World, schedule: seq<nat>, c: nat)
    requires c in w.clients && c !in schedule
    ensures c in Run(w, schedule).clients && Run(w, schedule).clients[c] == w.clients[c]
  {
    if schedule != [] {
      OthersLeaveMe(w, schedule[..|schedule| - 1], c);
    }
  }

  /** The shared database as one client sees it. */
  class Database {
    const start: World
    var world: World
    ghost var past: seq<nat>                // the schedule executed so far
    var interference: seq<seq<nat>>         // which clients step before each coming request

    constructor (start: World, interference: seq<seq<nat>>)
      ensures Valid() && this.start == start && past == [] && world == start
    {
      this.start, this.world, this.past, this.interference := start, start, [], interference;
    }

    ghost predicate Valid()
      reads this
    {
      world == Run(start, past)
    }

    ghost predicate At(c: nat, op: Op, phase: Phase)
      reads this
    {
      c in world.clients && world.clients[c].op == op && world.clients[c].phase == phase
    }

    /** How many PUTs of the client were refused. */
    function Refusals(c: nat): nat
      reads this
      requires c in world.clients
    {
      |world.clients[c].refused|
    }

    /** `c` takes its next step. */
    method Advance(c: nat)
      requires Valid()
      modifies this`world, this`past
      ensures Valid() && past == old(past) + [c] && world == Step(old(world), c)
    {
      world := Step(world, c);
      past := past + [c];
      assert past[..|past| - 1] == old(past);
    }

    /** Other clients take the steps the schedule gives them. */
    method Interfere(c: nat)
      requires Valid() && c in world.clients
      modifies this
      ensures Valid() && old(past) <= past
      ensures c in world.clients && world.clients[c] == old(world.clients[c])
    {
      if interference == [] {
        return;
      }
      var batch := interference[0];
      interference := interference[1..];
      for i := 0 to |batch|
        invariant Valid() && old(past) <= past
        invariant c in world.clients && world.clients[c] == old(world.clients[c])
      {
        if batch[i] != c {
          OthersLeaveMe(world, [batch[i]], c);
          Advance(batch[i]);
        }
      }
    }

    /** GET */
    method GetDoc(c: nat, id: string) returns (doc: Option<Doc>)
      requires Valid() && c in world.clients && world.clients[c].phase.Ready?
      requires world.clients[c].phase.attempt < Budget(world.clients[c].op) && id == IdOf(world.clients[c].op)
      modifies this
      ensures Valid() && old(past) <= past
      ensures exists since :: At(c, old(world.clients[c].op), Holding(old(world.clients[c].phase.attempt), doc, since))
    {
      Interfere(c);
      doc := Read(world.server, id);
      var since := |world.log|;
      Advance(c);
      assert At(c, old(world.clients[c].op), Holding(old(world.clients[c].phase.attempt), doc, since));
    }

    /** PUT of the document the operation has prepared; false is HTTP 409. */
    method PutDoc(c: nat, target: string, doc: Doc) returns (accepted: bool)
      requires Valid() && c in world.clients && world.clients[c].phase.Holding?
      requires ActOf(world.clients[c].op, world.clients[c].phase.snap) == Put(target, doc)
      modifies this
      ensures Valid() && old(past) <= past
      ensures accepted ==> At(c, old(world.clients[c].op), Finished(Done))
      ensures accepted ==> target in world.server.docs && world.server.docs[target].body == doc - {DocId, RevKey}
      ensures !accepted ==>
                var op, next := old(world.clients[c].op), old(world.clients[c].phase.attempt) + 1;
                At(c, op, if next < Budget(op) then Ready(next) else Finished(Refusal(op)))
    {
      Interfere(c);
      accepted := Accepts(world.server, target, doc);
      Advance(c);
    }

    /** The operation ends without a PUT. */
    method Stop(c: nat, outcome: Outcome)
      requires Valid() && c in world.clients && world.clients[c].phase.Holding?
      requires ActOf(world.clients[c].op, world.clients[c].phase.snap) == Act.Stop(outcome)
      modifies this
      ensures Valid() && old(past) <= past && At(c, old(world.clients[c].op), Finished(outcome))
    {
      Advance(c);
    }

    /** The request is turned down whatever the database holds, or had no attempt to begin with. */
    method Decline(c: nat, outcome: Outcome)
      requires Valid() && c in world.clients && world.clients[c].phase.Ready?
      requires var Client(op, phase, _) := world.clients[c];
               if phase.attempt >= Budget(op) then outcome == Refusal(op)
               else forall snap :: ActOf(op, snap) == Act.Stop(outcome)
      modifies this
      ensures Valid() && old(past) <= past && At(c, old(world.clients[c].op), Finished(outcome))
    {
      var more := world.clients[c].phase.attempt < Budget(world.clients[c].op);
      Advance(c);
      if more {
        Advance(c);
      }
    }
  }

  /** How the call came to its outcome since the run was as `past` says: on success some step stored what the operation
      makes of a document that was read; otherwise there was a reason, or every one of `attempts` PUTs was refused. */
  ghost predicate HasDone(db: Database, past: seq<nat>, c: nat, op: Op, outcome: Outcome, attempts: nat)
    reads db
  {
    && past <= db.past && c in db.world.clients
    && Accounts(Run(db.start, past), db.past[|past|..], op, outcome, db.Refusals(c), attempts)
  }

  lemma CallHasDone(db: Database, past: seq<nat>, c: nat, op: Op, outcome: Outcome)
    requires db.Valid() && past <= db.past && db.At(c, op, Finished(outcome))
    requires c in Run(db.start, past).clients && Run(db.start, past).clients[c] == Client(op, Ready(0), [])
    ensures HasDone(db, past, c, op, outcome, Budget(op))
  {
    StepsBetween(db.start, past, db.past);
    FinishedAccounts(Run(db.start, past), db.past[|past|..], c, op, outcome);
  }

  /** The client is new in the database and is about to run `op`. */
  ghost predicate Begins(db: Database, c: nat, op: Op)
    reads db
  {
    db.Valid() && c in db.world.clients && db.world.clients[c] == Client(op, Ready(0), [])
  }

  method UpsertDoc(db: Database, c: nat, doc: Doc) returns (outcome: Outcome)
    requires Begins(db, c, Upsert(doc))
    modifies db
    ensures db.Valid() && old(db.past) <= db.past && db.At(c, Upsert(doc), Finished(outcome))
    ensures outcome == Done ==> TargetId(doc) in db.world.server.docs
                                && db.world.server.docs[TargetId(doc)].body == doc - {DocId, RevKey}
    ensures HasDone(db, old(db.past), c, Upsert(doc), outcome, 2)
  {
    outcome := TryUpsert(db, c, doc);
    CallHasDone(db, old(db.past), c, Upsert(doc), outcome);
  }

  /** The loop of `upsert`. */
  method TryUpsert(db: Database, c: nat, doc: Doc) returns (outcome: Outcome)
    requires Begins(db, c, Upsert(doc))
    modifies db
    ensures db.Valid() && old(db.past) <= db.past && db.At(c, Upsert(doc), Finished(outcome))
    ensures outcome == Done ==> TargetId(doc) in db.world.server.docs
                                && db.world.server.docs[TargetId(doc)].body == doc - {DocId, RevKey}
  {
    var id := TargetId(doc);
    if id == "" {
      db.Decline(c, Invalid);
      return Invalid;
    }
    for attempt := 0 to 2
      invariant db.Valid() && old(db.past) <= db.past && db.At(c, Upsert(doc), Ready(attempt))
    {
      var existing := db.GetDoc(c, id);
      var outgoing := doc;
      if existing.Some? && Truthy(Get(existing.value, RevKey)) {
        outgoing := outgoing[RevKey := existing.value[RevKey]];
      }
      var accepted := db.PutDoc(c, id, outgoing);
      if accepted {
        assert outgoing - {DocId, RevKey} == doc - {DocId, RevKey};
        return Done;
      }
      if attempt != 0 {
        return Conflict;
      }
    }
    assert false;
  }

  /** `update_doc`. On success a step of the call stored exactly what the transform returned for a document that was
      read, or for the seed, and touched no other document. */
  method UpdateDoc(db: Database, c: nat, id: string, transform: Transform, seed: Option<Doc>, requireExisting: bool,
                   maxConflictRetries: int) returns (outcome: Outcome)
    requires Begins(db, c, Update(id, transform, seed, requireExisting, maxConflictRetries))
    modifies db
    ensures db.Valid() && old(db.past) <= db.past
    ensures db.At(c, Update(id, transform, seed, requireExisting, maxConflictRetries), Finished(outcome))
    ensures outcome == Done ==>
              Transformed(old(db.world), db.past[|old(db.past)|..], id, transform, seed, requireExisting)
    ensures HasDone(db, old(db.past), c, Update(id, transform, seed, requireExisting, maxConflictRetries), outcome,
                    if maxConflictRetries < 0 then 0 else maxConflictRetries + 1)
  {
    outcome := TryUpdate(db, c, id, transform, seed, requireExisting, maxConflictRetries);
    ghost var op := Update(id, transform, seed, requireExisting, maxConflictRetries);
    CallHasDone(db, old(db.past), c, op, outcome);
    if outcome == Done {
      UpdateTransforms(old(db.world), db.past[|old(db.past)|..], op);
    }
  }

  /** The loop of `update_doc`. */
  method TryUpdate(db: Database, c: nat, id: string, transform: Transform, seed: Option<Doc>, requireExisting: bool,
                   maxConflictRetries: int) returns (outcome: Outcome)
    requires Begins(db, c, Update(id, transform, seed, requireExisting, maxConflictRetries))
    modifies db
    ensures db.Valid() && old(db.past) <= db.past
    ensures db.At(c, Update(id, transform, seed, requireExisting, maxConflictRetries), Finished(outcome))
  {
    ghost var op := Update(id, transform, seed, requireExisting, maxConflictRetries);
    var attempts := if maxConflictRetries < 0 then 0 else maxConflictRetries + 1;
    for attempt := 0 to attempts
      invariant db.Valid() && old(db.past) <= db.past
      invariant attempt < attempts || attempts == 0
      invariant db.At(c, op, Ready(attempt))
    {
      var current := db.GetDoc(c, id);
      if current.None? && requireExisting {
        db.Stop(c, Missing);
        return Missing;
      }
      var result := transform(if current.None? then seed else current);
      if result.None? {
        outcome := if current.Some? then Unchanged else Invalid;
        db.Stop(c, outcome);
        return;
      }
      if TargetId(result.value) == "" {
        db.Stop(c, Invalid);
        return Invalid;
      }
      var outgoing := result.value;
      if current.Some? && Get(current.value, RevKey) != Null {
        outgoing := outgoing[RevKey := Get(current.value, RevKey)];
      } else {
        outgoing := outgoing - {RevKey};
      }
      var accepted := db.PutDoc(c, TargetId(result.value), outgoing);
      if accepted {
        return Done;
      }
      if attempt + 1 == attempts {
        return Conflict;
      }
    }
    db.Decline(c, Conflict);
    return Conflict;
  }

  method PatchFields(db: Database, c: nat, id: string, fields: Doc, requireExisting: bool) returns (outcome: Outcome)
    requires Begins(db, c, Patch(id, fields, requireExisting))
    modifies db
    ensures db.Valid() && old(db.past) <= db.past && db.At(c, Patch(id, fields, requireExisting), Finished(outcome))
    ensures HasDone(db, old(db.past), c, Patch(id, fields, requireExisting), outcome, 2)
  {
    outcome := TryPatch(db, c, id, fields, requireExisting);
    CallHasDone(db, old(db.past), c, Patch(id, fields, requireExisting), outcome);
  }

  /** The loop of `patch_fields`. */
  method TryPatch(db: Database, c: nat, id: string, fields: Doc, requireExisting: bool) returns (outcome: Outcome)
    requires Begins(db, c, Patch(id, fields, requireExisting))
    modifies db
    ensures db.Valid() && old(db.past) <= db.past && db.At(c, Patch(id, fields, requireExisting), Finished(outcome))
  {
    for attempt := 0 to 2
      invariant db.Valid() && old(db.past) <= db.past && db.At(c, Patch(id, fields, requireExisting), Ready(attempt))
      invariant attempt < 2
    {
      var existing := db.GetDoc(c, id);
      if existing.None? {
        outcome := if requireExisting then Missing else Unchanged;
        db.Stop(c, outcome);
        return;
      }
      var accepted := db.PutDoc(c, id, existing.value + fields);
      if accepted {
        return Done;
      }
      if attempt != 0 {
        return Conflict;
      }
    }
    assert false;
  }

  /** The named fields that are not blank. */
  method NonBlank(names: seq<Key>) returns (fields: seq<Key>)
    ensures (set name <- fields) == (set name <- names | name != Other(""))
    ensures forall name :: name in fields <==> name in names && name != Other("")
  {
    fields := [];
    for i := 0 to |names|
      invariant forall name :: name in fields <==> name in names[..i] && name != Other("")
    {
      assert names[..i + 1] == names[..i] + [names[i]];
      if names[i] != Other("") {
        fields := fields + [names[i]];
      }
    }
    assert names[..|names|] == names;
  }

  method WithoutFields(doc: Doc, fields: seq<Key>) returns (outgoing: Doc)
    ensures outgoing == doc - (set name <- fields)
  {
    outgoing := doc;
    for i := 0 to |fields|
      invariant outgoing == doc - (set name <- fields[..i])
    {
      outgoing := outgoing - {fields[i]};
    }
    assert fields[..|fields|] == fields;
  }

  method DeleteDocFields(db: Database, c: nat, id: string, names: seq<Key>, requireExisting: bool)
    returns (outcome: Outcome)
    requires Begins(db, c, DeleteFields(id, names, requireExisting))
    modifies db
    ensures db.Valid() && old(db.past) <= db.past
    ensures db.At(c, DeleteFields(id, names, requireExisting), Finished(outcome))
    ensures HasDone(db, old(db.past), c, DeleteFields(id, names, requireExisting), outcome, 2)
  {
    outcome := TryDelete(db, c, id, names, requireExisting);
    CallHasDone(db, old(db.past), c, DeleteFields(id, names, requireExisting), outcome);
  }

  /** The loop of `delete_fields`. */
  method TryDelete(db: Database, c: nat, id: string, names: seq<Key>, requireExisting: bool)
    returns (outcome: Outcome)
    requires Begins(db, c, DeleteFields(id, names, requireExisting))
    modifies db
    ensures db.Valid() && old(db.past) <= db.past
    ensures db.At(c, DeleteFields(id, names, requireExisting), Finished(outcome))
  {
    ghost var op := DeleteFields(id, names, requireExisting);
    var fields := NonBlank(names);
    if fields == [] {
      db.Decline(c, Unchanged);
      return Unchanged;
    }
    assert fields[0] in names && fields[0] != Other("");
    for attempt := 0 to 2
      invariant db.Valid() && old(db.past) <= db.past && db.At(c, op, Ready(attempt))
    {
      var existing := db.GetDoc(c, id);
      if existing.None? {
        outcome := if requireExisting then Missing else Unchanged;
        db.Stop(c, outcome);
        return;
      }
      var outgoing := WithoutFields(existing.value, fields);
      var accepted := db.PutDoc(c, id, outgoing);
      if accepted {
        return Done;
      }
      if attempt != 0 {
        return Conflict;
      }
    }
    assert false;
  }
}
