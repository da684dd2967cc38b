/**
 The resource service shared by contacts, projects and timeline entries.
 A collection is a map from the store's opaque keys to documents; each
 document carries its owner's username beside the type-specific fields `F`.
 Every mutation fetches the document first and applies the ownership guard:
 a caller who is not the owner gets a rejection envelope, not an exception,
 and the collection is left as it was.
 */
module Resource {
  import opened Wrappers
  import opened Http

  type Key = string

  /** Which collection a service instance serves; it only decides the message texts. */
  datatype Kind = ContactKind | ProjectKind | TimelineKind
  {
    function Noun(): string
    {
      match this
      case ContactKind => "contact"
      case ProjectKind => "project"
      case TimelineKind => "timeline"
    }

    /** The message of a successful create; the contact handler reuses its listing message. */
    function CreatedMessage(): string
    {
      match this
      case ContactKind => "Fetch contact success"
      case _ => "Add " + Noun() + " success"
    }
  }

  datatype Doc<F> = Doc(username: string, fields: F)

  type Store<F> = map<Key, Doc<F>>

  /** The `data` of an envelope: nothing, a record, a record with its key, or a listing. */
  datatype Payload<F> = Nothing | Record(doc: Doc<F>) | Keyed(key: Key, doc: Doc<F>) | Listing(items: map<Key, Doc<F>>)

  /** The response body shared by the resource endpoints. */
  datatype Envelope<F> = Envelope(status: int, success: bool, message: string, data: Payload<F>)

  /** An endpoint's answer: an envelope, or an HTTP error raised instead. */
  datatype Reply<F> = Body(envelope: Envelope<F>) | Raised(error: HttpError)

  /** A collection after a request, with the reply. */
  datatype Transition<F> = Transition(store: Store<F>, reply: Reply<F>)

  /** The envelope a non-owner receives; `verb` is "delete" or "change". */
  function Rejection<F>(kind: Kind, verb: string): Envelope<F>
  {
    Envelope(Unauthorized, false, "Cannot " + verb + " another person's " + kind.Noun(), Nothing)
  }

  /** The documents of one owner, with their keys. */
  function OwnedBy<F>(store: Store<F>, username: string): map<Key, Doc<F>>
  {
    map k | k in store && store[k].username == username :: store[k]
  }

  /**
   A request by `actor` (None: nobody authenticated) changed only what the
   actor owns: with no actor nothing changed; documents of anyone else are
   still there unchanged; no document changed owner; and every new document
   belongs to the actor.
   */
  ghost predicate Confined<F>(before: Store<F>, after: Store<F>, actor: Option<string>)
  {
    && (actor.None? ==> after == before)
    && (forall k :: k in before && (actor.None? || before[k].username != actor.value) ==>
                      k in after && after[k] == before[k])
    && (forall k :: k in before && k in after ==> after[k].username == before[k].username)
    && (forall k :: k in after && k !in before ==> actor.Some? && after[k].username == actor.value)
  }

  /** `GET /{resource}/{username}`: every document whose owner is `username`, and no other. */
  function List<F>(kind: Kind, store: Store<F>, username: string): (e: Envelope<F>)
    ensures e.status == OK && e.success && e.data.Listing?
    ensures forall k :: k in e.data.items <==> k in store && store[k].username == username
    ensures forall k :: k in e.data.items ==> e.data.items[k] == store[k]
  {
    Envelope(OK, true, "Fetch " + kind.Noun() + " success", Listing(OwnedBy(store, username)))
  }

  /** `POST /{resource}`: store the fields under a fresh key, owned by the principal. */
  function Create<F>(kind: Kind, store: Store<F>, principal: string, key: Key, fields: F): (t: Transition<F>)
    requires key !in store
    ensures t.store.Keys == store.Keys + {key}
    ensures t.store[key].username == principal && t.store[key].fields == fields
    ensures forall k :: k in store ==> t.store[k] == store[k]
    ensures t.reply == Body(Envelope(OK, true, kind.CreatedMessage(), Record(t.store[key])))
  {
    var doc := Doc(principal, fields);
    Transition(store[key := doc], Body(Envelope(OK, true, kind.CreatedMessage(), Record(doc))))
  }

  /** `DELETE /{resource}?key=`: fetch, guard, then remove the document and return it. */
  function Delete<F>(kind: Kind, store: Store<F>, principal: string, key: Key): (t: Transition<F>)
    ensures key !in store ==> t == Transition(store, Raised(MissingRecord))
    ensures key in store && store[key].username != principal ==>
              t == Transition(store, Body(Rejection(kind, "delete")))
    ensures key in store && store[key].username == principal ==>
              && t.store.Keys == store.Keys - {key}
              && (forall k :: k in t.store ==> t.store[k] == store[k])
              && t.reply == Body(Envelope(OK, true, "Delete " + kind.Noun() + " success", Keyed(key, store[key])))
  {
    if key !in store then Transition(store, Raised(MissingRecord))
    else
      var res := store[key];
      if res.username != principal then Transition(store, Body(Rejection(kind, "delete")))
      else Transition(store - {key}, Body(Envelope(OK, true, "Delete " + kind.Noun() + " success", Keyed(key, res))))
  }

  /** `PATCH /{resource}?key=`: fetch, guard, then overwrite the fields, keeping the owner. */
  function Update<F>(kind: Kind, store: Store<F>, principal: string, key: Key, fields: F): (t: Transition<F>)
    ensures key !in store ==> t == Transition(store, Raised(MissingRecord))
    ensures key in store && store[key].username != principal ==>
              t == Transition(store, Body(Rejection(kind, "change")))
    ensures key in store && store[key].username == principal ==>
              && t.store.Keys == store.Keys
              && t.store[key].username == store[key].username
              && t.store[key].fields == fields
              && (forall k :: k in store && k != key ==> t.store[k] == store[k])
              && t.reply == Body(Envelope(OK, true, "Update " + kind.Noun() + " success", Record(t.store[key])))
  {
    if key !in store then Transition(store, Raised(MissingRecord))
    else
      var res := store[key];
      if res.username != principal then Transition(store, Body(Rejection(kind, "change")))
      else
        var doc := Doc(principal, fields);
        Transition(store[key := doc], Body(Envelope(OK, true, "Update " + kind.Noun() + " success", Record(doc))))
  }

  /** Every document is listed under its owner, and under nobody else. */
  lemma ListingPartition<F>(kind: Kind, store: Store<F>, k: Key, username: string)
    requires k in store
    ensures k in List(kind, store, username).data.items <==> username == store[k].username
  {
  }

  /** Creating changes only the creator's listing, which gains exactly the new document. */
  lemma CreateThenList<F>(kind: Kind, store: Store<F>, principal: string, key: Key, fields: F, username: string)
    requires key !in store
    ensures var after := Create(kind, store, principal, key, fields).store;
            List(kind, after, username).data.items ==
              if username == principal then List(kind, store, username).data.items[key := Doc(principal, fields)]
              else List(kind, store, username).data.items
  {
  }

  /** An owner's delete takes exactly that document out of the owner's listing; other listings stay. */
  lemma DeleteThenList<F>(kind: Kind, store: Store<F>, principal: string, key: Key, username: string)
    requires key in store && store[key].username == principal
    ensures var after := Delete(kind, store, principal, key).store;
            List(kind, after, username).data.items == List(kind, store, username).data.items - {key}
  {
  }

  /** An owner's update moves no document between listings: every listing keeps its keys. */
  lemma UpdateThenList<F>(kind: Kind, store: Store<F>, principal: string, key: Key, fields: F, username: string)
    requires key in store && store[key].username == principal
    ensures var after := Update(kind, store, principal, key, fields).store;
            List(kind, after, username).data.items.Keys == List(kind, store, username).data.items.Keys
  {
  }

  /** Repeating an owner's update with the same fields changes nothing further. */
  lemma UpdateIdempotent<F>(kind: Kind, store: Store<F>, principal: string, key: Key, fields: F)
    requires key in store && store[key].username == principal
    ensures var once := Update(kind, store, principal, key, fields);
            Update(kind, once.store, principal, key, fields) == once
  {
  }

  /** A second delete of the same key finds nothing and fails like any missing key. */
  lemma DeleteTwice<F>(kind: Kind, store: Store<F>, principal: string, key: Key)
    requires key in store && store[key].username == principal
    ensures var once := Delete(kind, store, principal, key).store;
            Delete(kind, once, principal, key) == Transition(once, Raised(MissingRecord))
  {
  }
}
