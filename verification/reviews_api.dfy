/** The review endpoints of part3/app/api/v1/reviews.py: how POST, PUT and
    DELETE prepare the payload, who may change a review, and which status
    each outcome gets. The store is a map from review id to the stored
    review (its author and its fields); what the persistence layer answers
    to a create or an update (success or a `ValueError`), and how an update
    revises a stored review, are parameters. */
module ReviewsApi {
  import opened Basics

  /** A JSON value in a request body or in the JWT claims. Arrays and
      objects are only needed for their truthiness, so they keep their size. */
  datatype Value = Null | Bool(b: bool) | Number(n: int) | Str(s: string) | Compound(size: nat)

  /** Python truthiness. */
  predicate Truthy(v: Value)
  {
    match v
    case Null => false
    case Bool(b) => b
    case Number(n) => n != 0
    case Str(s) => s != ""
    case Compound(size) => size > 0
  }

  type Payload = map<string, Value>

  /** `bool(claims.get('is_admin', False))`. */
  predicate IsAdmin(claims: map<string, Value>)
  {
    "is_admin" in claims && Truthy(claims["is_admin"])
  }

  /** `dict(api.payload or {})`: an absent body is an empty payload. */
  function PayloadOf(body: Option<Payload>): Payload
  {
    match body
    case Some(p) => p
    case None => map[]
  }

  /** Older clients send `text`; it becomes `comment` unless `comment` is
      already there, in which case the payload is left as it is. */
  function NormalizeText(p: Payload): (r: Payload)
    ensures "comment" in p || "text" !in p ==> r == p
    ensures "text" in p && "comment" !in p ==>
              && r.Keys == p.Keys - {"text"} + {"comment"}
              && r["comment"] == p["text"]
              && (forall k :: k in p && k != "text" ==> r[k] == p[k])
  {
    if "text" in p && "comment" !in p then (p - {"text"})["comment" := p["text"]] else p
  }

  /** After normalisation a second pass changes nothing. */
  lemma NormalizeTextIdempotent(p: Payload)
    ensures NormalizeText(NormalizeText(p)) == NormalizeText(p)
    ensures "text" !in NormalizeText(p) || "comment" in NormalizeText(p)
  {
  }

  /** The author recorded for a new review: a non-admin always posts as
      itself; an admin may name another user, and a missing or falsy
      `user_id` falls back to the admin's own identity. */
  function AuthorOf(identity: string, claims: map<string, Value>, p: Payload): (v: Value)
    ensures !IsAdmin(claims) ==> v == Str(identity)
    ensures IsAdmin(claims) && "user_id" in p && Truthy(p["user_id"]) ==> v == p["user_id"]
    ensures IsAdmin(claims) && !("user_id" in p && Truthy(p["user_id"])) ==> v == Str(identity)
    ensures Truthy(v) <==> identity != "" || v != Str(identity)
  {
    if !IsAdmin(claims) then Str(identity)
    else if "user_id" in p && Truthy(p["user_id"]) then p["user_id"]
    else Str(identity)
  }

  /** What the persistence layer answers to a create or an update: the
      stored review, or a `ValueError` with its message. */
  datatype Attempt<R> = Done(value: R) | Invalid(message: string)

  /** A response body: the created review, `{'error': ...}` or `{'message': ...}`. */
  datatype Body<R> = Review(review: R) | Error(error: string) | Message(message: string)

  datatype Reply<R> = Reply(status: int, body: Body<R>)

  /** A call into the persistence layer. */
  datatype Call = Create(payload: Payload) | Update(id: string, payload: Payload) | Remove(id: string)

  /** A handled request: the persistence calls made, and the response. */
  datatype Handled<R> = Handled(calls: seq<Call>, reply: Reply<R>)

  /** POST /api/v1/reviews/: normalise the payload, set the author, create.
      A `ValueError` is a 400 with its message; success is a 201 with the
      stored review. */
  function Post<R>(identity: string, claims: map<string, Value>, body: Option<Payload>,
                   create: Payload -> Attempt<R>): (h: Handled<R>)
    ensures |h.calls| == 1 && h.calls[0].Create?
    ensures var sent := h.calls[0].payload;
            && sent.Keys == NormalizeText(PayloadOf(body)).Keys + {"user_id"}
            && sent["user_id"] == AuthorOf(identity, claims, NormalizeText(PayloadOf(body)))
            && (forall k :: k in NormalizeText(PayloadOf(body)) && k != "user_id" ==>
                  sent[k] == NormalizeText(PayloadOf(body))[k])
    ensures create(h.calls[0].payload).Done? ==> h.reply == Reply(201, Review(create(h.calls[0].payload).value))
    ensures create(h.calls[0].payload).Invalid? ==> h.reply == Reply(400, Error(create(h.calls[0].payload).message))
  {
    var p := NormalizeText(PayloadOf(body));
    var sent := p["user_id" := AuthorOf(identity, claims, p)];
    var reply := match create(sent)
      case Done(review) => Reply(201, Review(review))
      case Invalid(m) => Reply(400, Error(m));
    Handled([Create(sent)], reply)
  }

  /** What POST hands to the persistence layer is already normalised: a
      `text` field only survives next to a `comment`, and a non-admin's
      payload names the caller as author whatever `user_id` it carried. */
  lemma PostSendsNormalized<R>(identity: string, claims: map<string, Value>, body: Option<Payload>,
                               create: Payload -> Attempt<R>)
    ensures NormalizeText(Post(identity, claims, body, create).calls[0].payload)
            == Post(identity, claims, body, create).calls[0].payload
  {
    var p := NormalizeText(PayloadOf(body));
    var sent := Post(identity, claims, body, create).calls[0].payload;
    NormalizeTextIdempotent(PayloadOf(body));
    assert "text" in sent ==> "text" in p;
    assert "comment" in p ==> "comment" in sent;
  }

  /** A stored review: the id of the user who wrote it, and its fields. */
  datatype Stored = Stored(owner: string, fields: Payload)

  type Store = map<string, Stored>

  /** The gate PUT and DELETE share: the review must exist, then the caller
      must be an admin or the review's author. */
  datatype Access = NotFound | Forbidden | Allowed

  function AccessTo(store: Store, id: string, identity: string, claims: map<string, Value>): Access
  {
    if id !in store then NotFound
    else if !IsAdmin(claims) && store[id].owner != identity then Forbidden
    else Allowed
  }

  /** `api.abort(404, "Review not found")`. */
  function NotFoundReply<R>(): Reply<R>
  {
    Reply(404, Message("Review not found"))
  }

  function ForbiddenReply<R>(): Reply<R>
  {
    Reply(403, Error("Unauthorized action"))
  }

  /** PUT /api/v1/reviews/<id>: past the gate, the normalised payload goes
      to the persistence layer, whose answer (`None` on success, the
      `ValueError` message otherwise) decides between 200 and 400. The
      author is not rewritten on an update. */
  function Put(identity: string, claims: map<string, Value>, store: Store, id: string,
               body: Option<Payload>, update: Payload -> Option<string>): (h: Handled<()>)
    ensures AccessTo(store, id, identity, claims) != Allowed ==> h.calls == []
    ensures AccessTo(store, id, identity, claims) == Allowed ==>
              h.calls == [Update(id, NormalizeText(PayloadOf(body)))]
              && (update(NormalizeText(PayloadOf(body))).None? ==> h.reply == Reply(200, Message("Review updated successfully")))
              && (update(NormalizeText(PayloadOf(body))).Some? ==>
                    h.reply == Reply(400, Error(update(NormalizeText(PayloadOf(body))).value)))
    ensures AccessTo(store, id, identity, claims) == NotFound ==> h.reply == NotFoundReply()
    ensures AccessTo(store, id, identity, claims) == Forbidden ==> h.reply == ForbiddenReply()
    ensures h.reply.status == 404 <==> AccessTo(store, id, identity, claims) == NotFound
    ensures h.reply.status == 403 <==> AccessTo(store, id, identity, claims) == Forbidden
  {
    match AccessTo(store, id, identity, claims)
    case NotFound => Handled([], NotFoundReply())
    case Forbidden => Handled([], ForbiddenReply())
    case Allowed =>
      var p := NormalizeText(PayloadOf(body));
      var reply := match update(p)
        case None => Reply(200, Message("Review updated successfully"))
        case Some(m) => Reply(400, Error(m));
      Handled([Update(id, p)], reply)
  }

  /** DELETE /api/v1/reviews/<id>: past the gate, the review is removed. */
  function Delete(identity: string, claims: map<string, Value>, store: Store, id: string): (h: Handled<()>)
    ensures AccessTo(store, id, identity, claims) != Allowed ==> h.calls == []
    ensures AccessTo(store, id, identity, claims) == Allowed ==>
              h == Handled([Remove(id)], Reply(200, Message("Review deleted successfully")))
    ensures AccessTo(store, id, identity, claims) == NotFound ==> h.reply == NotFoundReply()
    ensures AccessTo(store, id, identity, claims) == Forbidden ==> h.reply == ForbiddenReply()
    ensures h.reply.status == 404 <==> AccessTo(store, id, identity, claims) == NotFound
    ensures h.reply.status == 403 <==> AccessTo(store, id, identity, claims) == Forbidden
  {
    match AccessTo(store, id, identity, claims)
    case NotFound => Handled([], NotFoundReply())
    case Forbidden => Handled([], ForbiddenReply())
    case Allowed => Handled([Remove(id)], Reply(200, Message("Review deleted successfully")))
  }

  /** The gate in terms of the store: an unknown review is a 404 whoever
      asks, and an existing one is refused exactly to a caller who is
      neither an admin nor its author. */
  lemma AccessDecision(store: Store, id: string, identity: string, claims: map<string, Value>)
    ensures AccessTo(store, id, identity, claims) == NotFound <==> id !in store
    ensures AccessTo(store, id, identity, claims) == Forbidden <==>
              id in store && !IsAdmin(claims) && store[id].owner != identity
    ensures AccessTo(store, id, identity, claims) == Allowed <==>
              id in store && (IsAdmin(claims) || store[id].owner == identity)
  {
  }

  /** The store after a run of update and removal calls, in the order they
      were made: an update of a stored review replaces it by `revise` of it
      and the payload, a removal drops it. Creation hands out a new id the
      persistence layer picks, so a create call is left out here. */
  function Apply(store: Store, calls: seq<Call>, revise: (Stored, Payload) -> Stored): (r: Store)
    ensures r.Keys <= store.Keys
    decreases |calls|
  {
    if |calls| == 0 then store
    else
      var next := match calls[0]
        case Update(id, p) => if id in store then store[id := revise(store[id], p)] else store
        case Remove(id) => store - {id}
        case Create(_) => store;
      Apply(next, calls[1..], revise)
  }

  /** A refused PUT or DELETE leaves every review as it was: the store
      after the calls it makes is the store before, however an update
      would have revised it. */
  lemma RefusedChangesNothing(identity: string, claims: map<string, Value>, store: Store, id: string,
                              body: Option<Payload>, update: Payload -> Option<string>,
                              revise: (Stored, Payload) -> Stored)
    requires AccessTo(store, id, identity, claims) != Allowed
    ensures Apply(store, Put(identity, claims, store, id, body, update).calls, revise) == store
    ensures Apply(store, Delete(identity, claims, store, id).calls, revise) == store
  {
  }

  /** A permitted PUT revises exactly the addressed review, with the
      normalised payload, and leaves every other review alone. */
  lemma AllowedPutRevises(identity: string, claims: map<string, Value>, store: Store, id: string,
                          body: Option<Payload>, update: Payload -> Option<string>,
                          revise: (Stored, Payload) -> Stored)
    requires AccessTo(store, id, identity, claims) == Allowed
    ensures var after := Apply(store, Put(identity, claims, store, id, body, update).calls, revise);
            && after.Keys == store.Keys
            && after[id] == revise(store[id], NormalizeText(PayloadOf(body)))
            && (forall k :: k in store && k != id ==> after[k] == store[k])
  {
    var calls := Put(identity, claims, store, id, body, update).calls;
    assert calls[1..] == [];
  }

  /** A permitted DELETE removes exactly the addressed review. */
  lemma AllowedDeleteRemoves(identity: string, claims: map<string, Value>, store: Store, id: string,
                             revise: (Stored, Payload) -> Stored)
    requires AccessTo(store, id, identity, claims) == Allowed
    ensures var after := Apply(store, Delete(identity, claims, store, id).calls, revise);
            && after.Keys == store.Keys - {id}
            && (forall k :: k in after ==> after[k] == store[k])
  {
    var calls := Delete(identity, claims, store, id).calls;
    assert calls[1..] == [];
  }

  /** A token without an `is_admin` claim counts as a non-admin: it posts
      as itself whatever `user_id` it sends, and cannot touch someone
      else's review. */
  lemma MissingClaimIsNotAdmin(identity: string, claims: map<string, Value>, store: Store,
                               id: string, body: Option<Payload>, create: Payload -> Attempt<()>)
    requires "is_admin" !in claims
    ensures Post(identity, claims, body, create).calls[0].payload["user_id"] == Str(identity)
    ensures id in store && store[id].owner != identity ==>
              Delete(identity, claims, store, id).reply == Reply(403, Error("Unauthorized action"))
  {
  }
}
