// The database server: a map from document id to revision and body, changed only by a PUT that carries the
// current revision. Revisions come from one counter, so a revision is never used twice.
module Couch {
  import opened Json

  /** A stored document. `_id` and `_rev` are kept by the server, not in the body. */
  datatype Entry = Entry(rev: nat, body: Doc)

  datatype Server = Server(docs: map<string, Entry>, next: nat)

  predicate ValidServer(s: Server) {
    && (forall id <- s.docs :: s.docs[id].rev < s.next)
    && (forall id <- s.docs :: DocId !in s.docs[id].body && RevKey !in s.docs[id].body)
  }

  /** What a GET of an existing document returns. */
  function Render(id: string, e: Entry): Doc {
    e.body[DocId := Str(id)][RevKey := Rev(e.rev)]
  }

  /** GET: the document with its `_id` and `_rev`, or nothing (HTTP 404). */
  function Read(s: Server, id: string): Option<Doc> {
    if id in s.docs then Some(Render(id, s.docs[id])) else None
  }

  /** The revision of a document, if it exists. */
  function Revs(s: Server, id: string): set<nat> {
    if id in s.docs then {s.docs[id].rev} else {}
  }

  /** A PUT is accepted when the document is new and carries no revision, or carries exactly the current one. */
  predicate Accepts(s: Server, id: string, doc: Doc) {
    if id in s.docs then RevKey in doc && doc[RevKey] == Rev(s.docs[id].rev) else RevKey !in doc
  }

  /** The server after an accepted PUT: a fresh revision, and the body without the two reserved fields. */
  function Store(s: Server, id: string, doc: Doc): Server {
    Server(s.docs[id := Entry(s.next, doc - {DocId, RevKey})], s.next + 1)
  }

  lemma StoreKeepsValid(s: Server, id: string, doc: Doc)
    requires ValidServer(s)
    ensures ValidServer(Store(s, id, doc))
  {
  }

  /** The step stored this body under this id, with a new revision, and changed no other document. */
  ghost predicate Wrote(s: Server, s': Server, id: string, body: Doc) {
    && id in s'.docs && s'.docs[id].body == body && DocId !in body && RevKey !in body
    && s'.docs[id].rev == s.next && s'.next > s.next
    && forall other :: other != id ==> Revs(s', other) == Revs(s, other) && Read(s', other) == Read(s, other)
  }

  /** The body that the server stores for a PUT. */
  function BodyOf(doc: Doc): Doc {
    doc - {DocId, RevKey}
  }

  lemma StoreWrites(s: Server, id: string, doc: Doc)
    ensures Wrote(s, Store(s, id, doc), id, BodyOf(doc))
  {
  }
}
