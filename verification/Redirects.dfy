// `update_doc` with a transform that redirects the write to another document: the condition on transforms is exact.
module Redirects {
  import opened Json
  import opened Couch
  import opened StoreOps
  import opened World
  import opened Refinement
  import Text

  /** Both clients of the run report success, yet the store is not what the committed operations, one at a time in
      commit order, make of it. */
  ghost predicate NotSerial(s0: Server, w: World) {
    && w.clients.Keys == {0, 1}
    && w.clients[0].phase == Finished(Done) && w.clients[1].phase == Finished(Done)
    && |w.log| == 2 && w.server != Replay(s0, w.log)
  }

  /** What client 0 has read and what client 1 has committed in the meantime. */
  ghost predicate Raced(s0: Server, op: Op, other: Op, snap: Option<Doc>, w: World) {
    && w.clients == map[0 := Client(op, Holding(0, snap, 0), []), 1 := Client(other, Finished(Done), [])]
    && w.log == [Commit(1, other, IdOf(op))] && w.server == Atomic(s0, other)
  }

  lemma AtomicStores(s0: Server, op: Op, target: string)
    requires AtomicallyWrites(s0, op, target)
    ensures Atomic(s0, op) == Store(s0, target, ActOf(op, Read(s0, IdOf(op))).doc)
  {
  }

  lemma Updated<V>(a: V, b: V, x: V)
    ensures map[0 := a, 1 := b][0 := x] == map[0 := x, 1 := b]
    ensures map[0 := a, 1 := b][1 := x] == map[0 := a, 1 := x]
  {
  }

  lemma ReaderReads(w: World, op: Op, other: Client)
    requires w.clients == map[0 := Client(op, Ready(0), []), 1 := other] && w.log == [] && Budget(op) > 0
    ensures Step(w, 0) == World(w.server, map[0 := Client(op, Holding(0, Read(w.server, IdOf(op)), 0), []), 1 := other],
                                [])
  {
    Fetches(w, 0, op);
    Updated(Client(op, Ready(0), []), other, Client(op, Holding(0, Read(w.server, IdOf(op)), 0), []));
  }

  lemma OtherCommits(w: World, reader: Client, other: Op, id: string, doc: Doc)
    requires w.clients == map[0 := reader, 1 := Client(other, Ready(0), [])] && w.log == [] && Budget(other) > 0
    requires ActOf(other, Read(w.server, IdOf(other))) == Put(id, doc) && Accepts(w.server, id, doc)
    ensures Step(Step(w, 1), 1) == World(Store(w.server, id, doc),
                                         map[0 := reader, 1 := Client(other, Finished(Done), [])],
                                         [Commit(1, other, id)])
  {
    CommitsAlone(w, 1, other, id, doc);
    Updated(reader, Client(other, Ready(0), []), Client(other, Finished(Done), []));
  }

  lemma ReaderPuts(w: World, op: Op, snap: Option<Doc>, other: Client, target: string, doc: Doc)
    requires w.clients == map[0 := Client(op, Holding(0, snap, 0), []), 1 := other]
    requires ActOf(op, snap) == Put(target, doc) && Accepts(w.server, target, doc)
    ensures Step(w, 0) == World(Store(w.server, target, doc), map[0 := Client(op, Finished(Done), []), 1 := other],
                                w.log + [Commit(0, op, target)])
  {
    Puts(w, 0, op, snap, 0, target, doc);
    Updated(Client(op, Holding(0, snap, 0), []), other, Client(op, Finished(Done), []));
  }

  lemma StartOfTwo(s0: Server, op: Op, other: Op)
    ensures Start(s0, map[0 := op, 1 := other])
            == World(s0, map[0 := Client(op, Ready(0), []), 1 := Client(other, Ready(0), [])], [])
  {
  }

  /** Client 0 has read; client 1 reads and commits to the same document. */
  lemma Race(s0: Server, op: Op, other: Op)
    requires op.Update? && Budget(op) > 0 && Budget(other) > 0 && IdOf(other) == op.id
    requires AtomicallyWrites(s0, other, op.id)
    ensures var w := Step(Step(Step(Start(s0, map[0 := op, 1 := other]), 0), 1), 1);
            Raced(s0, op, other, Read(s0, op.id), w)
  {
    var w0 := Start(s0, map[0 := op, 1 := other]);
    StartOfTwo(s0, op, other);
    ReaderReads(w0, op, Client(other, Ready(0), []));
    OtherCommits(Step(w0, 0), Client(op, Holding(0, Read(s0, op.id), 0), []), other, op.id,
                 ActOf(other, Read(s0, op.id)).doc);
    AtomicStores(s0, other, op.id);
  }

  /** Both servers differ in the revision of one document. */
  lemma StoreShows(s: Server, t: Server, target: string, doc: Doc)
    requires Revs(t, target) == Revs(s, target) && s.next !in Revs(s, target)
    ensures Store(s, target, doc) != t
  {
    assert Store(s, target, doc).docs[target].rev == s.next;
  }

  /** Client 0 then writes the other document, which the operation executed at that moment would not do. */
  lemma RaceEnds(s0: Server, op: Op, other: Op, snap: Option<Doc>, w: World, target: string, doc: Doc)
    requires op.Update? && Raced(s0, op, other, snap, w) && ActOf(op, snap) == Put(target, doc)
    requires Accepts(w.server, target, doc) && target != op.id
    requires Untouched(w.server, op, target) && w.server.next !in Revs(w.server, target)
    ensures NotSerial(s0, Step(w, 0))
  {
    ReaderPuts(w, op, snap, Client(other, Finished(Done), []), target, doc);
    StoreShows(w.server, Atomic(w.server, op), target, doc);
    var log := [Commit(1, other, op.id), Commit(0, op, target)];
    assert w.log + [Commit(0, op, target)] == log;
    ReplayOfTwo(s0, log[0], log[1]);
  }

  /** The operation executed now leaves this document as it is. */
  predicate Untouched(s: Server, op: Op, target: string) {
    Revs(Atomic(s, op), target) == Revs(s, target)
  }

  /** An update writes another document than its own only under a revision that the two share. */
  lemma WritesOwnRevision(s: Server, op: Op, target: string)
    requires op.Update? && op.id in s.docs && target != op.id
    requires target in s.docs ==> s.docs[target].rev != s.docs[op.id].rev
    ensures Untouched(s, op, target)
  {
    var act := ActOf(op, Read(s, op.id));
    if act.Put? {
      assert RevKey in act.doc && act.doc[RevKey] == Rev(s.docs[op.id].rev);
    }
  }

  /** The document was absent when client 0 read it, and client 1 creates it. */
  lemma AbsentRace(op: Op) returns (s0: Server, other: Op)
    requires op.Update? && Budget(op) > 0 && op.id != "" && Text.Strip(op.id) == op.id
    requires !op.requireExisting && !StaysOn(op.id, op.transform(op.seed))
    ensures ValidServer(s0) && Faithful(other)
    ensures NotSerial(s0, Run(Start(s0, map[0 := op, 1 := other]), [0, 1, 1, 0]))
  {
    s0, other := Server(map[], 0), Upsert(map[DocId := Str(op.id)]);
    var outgoing := op.transform(op.seed).value;
    var target := TargetId(outgoing);
    assert TargetId(map[DocId := Str(op.id)]) == op.id;
    assert ActOf(op, None) == Put(target, outgoing - {RevKey});
    Race(s0, op, other);
    var w := Step(Step(Step(Start(s0, map[0 := op, 1 := other]), 0), 1), 1);
    assert w.server.docs.Keys == {op.id} && w.server.next == 1;
    WritesOwnRevision(w.server, op, target);
    RaceEnds(s0, op, other, None, w, target, outgoing - {RevKey});
    RunOfFour(Start(s0, map[0 := op, 1 := other]), 0, 1, 1, 0);
  }

  /** A server in which two documents have one revision, the first of them being `doc`. */
  function TwinStart(id: string, doc: Doc, target: string): Server
    requires IsCopyOf(doc, id) && target != id
  {
    var r := doc[RevKey].r;
    Server(map[id := Entry(r, doc - {DocId, RevKey}), target := Entry(r, map[])], r + 1)
  }

  /** The document was there when client 0 read it, and client 1 changes it. */
  lemma PresentRace(op: Op, doc: Doc) returns (s0: Server, other: Op)
    requires op.Update? && Budget(op) > 0
    requires IsCopyOf(doc, op.id) && !StaysOn(op.id, op.transform(Some(doc)))
    ensures ValidServer(s0) && Faithful(other)
    ensures NotSerial(s0, Run(Start(s0, map[0 := op, 1 := other]), [0, 1, 1, 0]))
  {
    var outgoing := op.transform(Some(doc)).value;
    var target, r := TargetId(outgoing), doc[RevKey].r;
    s0, other := TwinStart(op.id, doc, target), Patch(op.id, map[], false);
    TwinReads(op.id, doc, target);
    assert ActOf(op, Some(doc)) == Put(target, outgoing[RevKey := Rev(r)]);
    Race(s0, op, other);
    var w := Step(Step(Step(Start(s0, map[0 := op, 1 := other]), 0), 1), 1);
    assert w.server.docs[op.id].rev == r + 1 && w.server.docs[target].rev == r && w.server.next == r + 2;
    WritesOwnRevision(w.server, op, target);
    RaceEnds(s0, op, other, Some(doc), w, target, outgoing[RevKey := Rev(r)]);
    RunOfFour(Start(s0, map[0 := op, 1 := other]), 0, 1, 1, 0);
  }

  lemma TwinReads(id: string, doc: Doc, target: string)
    requires IsCopyOf(doc, id) && target != id
    ensures var s := TwinStart(id, doc, target); ValidServer(s) && Read(s, id) == Some(doc)
  {
    var body := doc - {DocId, RevKey};
    assert body[DocId := Str(id)][RevKey := doc[RevKey]] == doc;
  }

  /** The condition on transforms is exact, for every id a document can be filed under: an update whose transform
      redirects the write has a run in which it and a faithful operation both report success, and yet the store is
      not that of the two, each taken as one step, in commit order. */
  lemma RedirectIsNotSerial(op: Op) returns (s0: Server, other: Op)
    requires op.Update? && op.retries >= 0 && !Faithful(op)
    requires op.id != "" && Text.Strip(op.id) == op.id
    ensures ValidServer(s0) && Faithful(other)
    ensures NotSerial(s0, Run(Start(s0, map[0 := op, 1 := other]), [0, 1, 1, 0]))
  {
    if !op.requireExisting && !StaysOn(op.id, op.transform(op.seed)) {
      s0, other := AbsentRace(op);
    } else {
      var doc :| IsCopyOf(doc, op.id) && !StaysOn(op.id, op.transform(Some(doc)));
      s0, other := PresentRace(op, doc);
    }
  }
}
