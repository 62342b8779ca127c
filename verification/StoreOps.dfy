// couch_store.py: what each read-modify-write operation PUTs for the document it has just read.
module StoreOps {
  import opened Json
  import Text

  datatype Outcome =
    | Done            // the PUT was accepted
    | Unchanged       // a deliberate no-op
    | Missing         // the document is required but absent
    | Invalid         // the request itself is refused
    | Conflict        // every attempt was refused with HTTP 409
    | AlreadyDecided  // a review lost, by its own check or by HTTP 409

  /** The local decision taken between GET and PUT: PUT a document, or stop without writing. */
  datatype Act = Put(target: string, doc: Doc) | Stop(outcome: Outcome)

  /** `str(doc.get("_id") or "").strip()` */
  function TargetId(doc: Doc): string {
    Text.Strip(TextOf(Get(doc, DocId)))
  }

  /** `upsert`: the caller's document, carrying the revision of the existing one if there is one. */
  function UpsertAct(doc: Doc, snap: Option<Doc>): Act {
    if TargetId(doc) == "" then Stop(Invalid)
    else if snap.Some? && Truthy(Get(snap.value, RevKey)) then
      Put(TargetId(doc), doc[RevKey := Get(snap.value, RevKey)])
    else Put(TargetId(doc), doc)
  }

  /** The transform that `update_doc` applies: none means "no change". */
  type Transform = Option<Doc> -> Option<Doc>

  /** `update_doc` with `put_with_rev`. `seed` is what `create()` returns, or none when there is no `create`. */
  function UpdateAct(transform: Transform, seed: Option<Doc>, requireExisting: bool, snap: Option<Doc>): Act {
    if snap.None? && requireExisting then Stop(Missing)
    else
      match transform(if snap.None? then seed else snap)
      case None => Stop(if snap.Some? then Unchanged else Invalid)
      case Some(doc) =>
        if TargetId(doc) == "" then Stop(Invalid)
        else if snap.Some? && Get(snap.value, RevKey) != Null then
          Put(TargetId(doc), doc[RevKey := Get(snap.value, RevKey)])
        else Put(TargetId(doc), doc - {RevKey})
  }

  /** `patch_fields`: the existing document with the given fields replaced. */
  function PatchAct(id: string, fields: Doc, requireExisting: bool, snap: Option<Doc>): Act {
    match snap
    case None => Stop(if requireExisting then Missing else Unchanged)
    case Some(existing) => Put(id, existing + fields)
  }

  /** `delete_fields`: the existing document without the named fields. Blank names are ignored. */
  function DeleteAct(id: string, names: seq<Key>, requireExisting: bool, snap: Option<Doc>): Act {
    if forall name <- names :: name == Other("") then Stop(Unchanged)
    else
      match snap
      case None => Stop(if requireExisting then Missing else Unchanged)
      case Some(existing) => Put(id, existing - (set name <- names | name != Other("")))
  }
}
