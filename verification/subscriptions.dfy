/** The technical subscriptions of an app: the store
    (apps/backend/src/modules/subscriptions/subscriptions.store.ts) and its
    routes (subscriptions.routes.ts). A subscription names the card that
    pays for a provider; only the last four digits are kept. The routes
    read the inventory's app store to check that the app exists. */
module Subscriptions {
  import opened Wrappers
  import opened Text
  import opened Js
  import opened OrderedMap
  import opened Ids
  import opened HttpTypes
  import opened Errors
  import Audit
  import opened Routing
  import opened AuthMiddleware
  import opened RecordStore

  const Prefix: string := "sub"
  const Resource: string := "subscriptions"
  const UnknownApp: HttpError := NotFound("App nao encontrado")
  const NoSuchSubscription: HttpError := NotFound("Assinatura nao encontrada")
  const MissingFields: HttpError := Validation("provider, cardHolderName e cardLast4(4 digitos) sao obrigatorios")

  /** `/^\d{4}$/`: exactly four ASCII digits. */
  predicate IsCardLast4(t: string) {
    |t| == 4 && AllDigits(t)
  }

  /** `"anual"` when asked for exactly, `"mensal"` otherwise. */
  function Recurrence(v: JsValue): string {
    ExactOr(v, "anual", "mensal")
  }

  /** A subscription's own fields, before the store adds its id and
      instants. */
  function SubscriptionFields(appId: JsValue, provider: JsValue, cardHolderName: JsValue, cardLast4: JsValue,
                              recurrence: JsValue): (r: Record)
    ensures "id" !in r && "createdAt" !in r && "updatedAt" !in r
    ensures Get(r, "appId") == appId && Get(r, "provider") == provider && Get(r, "cardHolderName") == cardHolderName
    ensures Get(r, "cardLast4") == cardLast4 && Get(r, "recurrence") == recurrence
  {
    map["appId" := appId, "provider" := provider, "cardHolderName" := cardHolderName, "cardLast4" := cardLast4,
        "recurrence" := recurrence]
  }

  /** The record `POST /subscriptions` stores: trimmed texts and the
      recurrence. */
  function SubscriptionInput(req: Request, appId: string): (r: Record)
    ensures "id" !in r && "createdAt" !in r && "updatedAt" !in r
    ensures Get(r, "appId") == Str(appId)
    ensures Get(r, "provider") == Str(TrimmedField(req, "provider"))
    ensures Get(r, "cardHolderName") == Str(TrimmedField(req, "cardHolderName"))
    ensures Get(r, "cardLast4") == Str(TrimmedField(req, "cardLast4"))
    ensures Get(r, "recurrence") == Str(Recurrence(Field(req, "recurrence")))
  {
    SubscriptionFields(Str(appId), Str(TrimmedField(req, "provider")), Str(TrimmedField(req, "cardHolderName")),
                       Str(TrimmedField(req, "cardLast4")), Str(Recurrence(Field(req, "recurrence"))))
  }

  /** The three checks of a create body. */
  predicate ValidBody(req: Request) {
    TrimmedField(req, "provider") != "" && TrimmedField(req, "cardHolderName") != ""
    && IsCardLast4(TrimmedField(req, "cardLast4"))
  }

  /** The audit input of a mutation of one subscription. */
  function SubscriptionEvent(user: AuthUser, action: Audit.Action, id: JsValue): Audit.AuditInput {
    ActorEvent(user, action, Resource, id)
  }

  /** `GET /subscriptions`: every subscription for an empty `appId`,
      otherwise exactly those of that app. */
  function ListRoute(subs: Store, req: Request): Outcome<Store, seq<Record>> {
    ListStoreRoute(subs, req)
  }

  /** `POST /subscriptions`: admin or editor; an unknown app is 404 before
      the body is checked. */
  function CreateRoute(subs: Store, apps: Store, user: AuthUser, req: Request, now: string, random: Random6)
    : (o: Outcome<Store, Record>)
    ensures user.role !in Writers ==> o == Refuse(subs, RequireRole(Writers, Some(user), req.path))
    ensures user.role in Writers && !Has(apps, TrimmedField(req, "appId")) ==> o == Reject(subs, UnknownApp)
    ensures user.role in Writers && Has(apps, TrimmedField(req, "appId")) && !ValidBody(req) ==>
      o == Reject(subs, MissingFields)
    ensures o.reply.Ok? <==> user.role in Writers && Has(apps, TrimmedField(req, "appId")) && ValidBody(req)
    ensures o.reply.Ok? ==>
      var id := CreateId(Prefix, random);
      && o.reply.status == 201
      && Get(o.reply.body, "id") == Str(id)
      && Get(o.reply.body, "createdAt") == Str(now) && Get(o.reply.body, "updatedAt") == Str(now)
      && BelongsTo(o.reply.body, Str(TrimmedField(req, "appId")))
      && (forall k :: k in SubscriptionInput(req, TrimmedField(req, "appId")) ==>
            Get(o.reply.body, k) == SubscriptionInput(req, TrimmedField(req, "appId"))[k])
      && Find(o.state, id) == Some(o.reply.body)
      && (forall k :: k != id ==> Find(o.state, k) == Find(subs, k))
      && o.events == [SubscriptionEvent(user, Audit.Create, Str(id))]
    ensures !o.reply.Ok? ==> o.state == subs
  {
    var gate := RequireRole(Writers, Some(user), req.path);
    if gate.Deny? then Refuse(subs, gate)
    else
      var appId := TrimmedField(req, "appId");
      if !Has(apps, appId) then Reject(subs, UnknownApp)
      else if !ValidBody(req) then Reject(subs, MissingFields)
      else
        var (subs', item) := Insert(subs, Prefix, SubscriptionInput(req, appId), now, random, true);
        Outcome(subs', [SubscriptionEvent(user, Audit.Create, Get(item, "id"))], Ok(201, item))
  }

  /** A created subscription keeps a four-digit card and one of the two
      recurrences. */
  lemma CreatedCardIsFourDigits(subs: Store, apps: Store, user: AuthUser, req: Request, now: string,
                                random: Random6)
    requires CreateRoute(subs, apps, user, req, now, random).reply.Ok?
    ensures var item := CreateRoute(subs, apps, user, req, now, random).reply.body;
      && Get(item, "cardLast4").Str? && IsCardLast4(Get(item, "cardLast4").s)
      && Get(item, "recurrence") in [Str("mensal"), Str("anual")]
  {
    var input := SubscriptionInput(req, TrimmedField(req, "appId"));
    assert "cardLast4" in input && "recurrence" in input;
  }

  /** `PUT /subscriptions/:id` with a given patch: admin or editor; 404
      for an unknown id. */
  function UpdateWith(subs: Store, user: AuthUser, req: Request, patch: Record, now: string)
    : (o: Outcome<Store, Record>)
    ensures user.role !in Writers ==> o == Refuse(subs, RequireRole(Writers, Some(user), req.path))
    ensures user.role in Writers && !Has(subs, PathId(req)) ==> o == Reject(subs, NoSuchSubscription)
    ensures o.reply.Ok? <==> user.role in Writers && Has(subs, PathId(req))
    ensures o.reply.Ok? ==>
      var prev := subs.entries[PathId(req)];
      && o.reply.status == 200
      && Get(o.reply.body, "updatedAt") == Str(now)
      && (forall k :: k in patch && k != "updatedAt" ==> Get(o.reply.body, k) == patch[k])
      && (forall k :: k !in patch && k != "updatedAt" ==> Get(o.reply.body, k) == Get(prev, k))
      && Find(o.state, PathId(req)) == Some(o.reply.body)
      && (forall k :: k != PathId(req) ==> Find(o.state, k) == Find(subs, k))
      && o.events == [SubscriptionEvent(user, Audit.Update, Get(o.reply.body, "id"))]
    ensures !o.reply.Ok? ==> o.state == subs
  {
    var gate := RequireRole(Writers, Some(user), req.path);
    if gate.Deny? then Refuse(subs, gate)
    else
      match Update(subs, PathId(req), patch, now)
      case None => Reject(subs, NoSuchSubscription)
      case Some((subs', item)) => Outcome(subs', [SubscriptionEvent(user, Audit.Update, Get(item, "id"))], Ok(200, item))
  }

  /** `PUT /subscriptions/:id` as written: the whole body is spread over
      the record, `id` and `createdAt` included, and nothing in it is
      checked. */
  function UpdateRouteAsWritten(subs: Store, user: AuthUser, req: Request, now: string): (o: Outcome<Store, Record>)
    ensures o.reply.Ok? <==> user.role in Writers && Has(subs, PathId(req))
    ensures o.reply.Ok? ==> forall k :: k in BodyPatch(req) && k != "updatedAt" ==> Get(o.reply.body, k) == BodyPatch(req)[k]
  {
    UpdateWith(subs, user, req, BodyPatch(req), now)
  }

  /** `PUT /subscriptions/:id` as evidently intended: the body cannot
      overwrite the id or the creation instant, so the record stays under
      its own id and the audit names the edited subscription. */
  function UpdateRoute(subs: Store, user: AuthUser, req: Request, now: string): (o: Outcome<Store, Record>)
    ensures o.reply.Ok? <==> user.role in Writers && Has(subs, PathId(req))
    ensures o.reply.Ok? ==>
      var prev := subs.entries[PathId(req)];
      && Get(o.reply.body, "id") == Get(prev, "id")
      && Get(o.reply.body, "createdAt") == Get(prev, "createdAt")
      && o.events == [SubscriptionEvent(user, Audit.Update, Get(prev, "id"))]
  {
    UpdateWith(subs, user, req, Editable(BodyPatch(req)), now)
  }

  /** As written, a body carrying another `id` leaves the subscription
      under a key that is not its id, and the audit names the body's id. */
  lemma UpdateWithIdBreaksKeying(subs: Store, user: AuthUser, req: Request, now: string, other: string)
    requires user.role in Writers && Has(subs, PathId(req))
    requires req.body == Obj(map["id" := Str(other)]) && other != PathId(req)
    ensures !KeyedById(UpdateRouteAsWritten(subs, user, req, now).state)
    ensures UpdateRouteAsWritten(subs, user, req, now).events == [SubscriptionEvent(user, Audit.Update, Str(other))]
  {
    UpdateWithIdBreaksKeyedById(subs, PathId(req), BodyPatch(req), now);
  }

  /** An edit does not re-run the create checks: any `cardLast4` the body
      carries is stored as is. */
  lemma UpdateSkipsCardCheck(subs: Store, user: AuthUser, req: Request, now: string, card: JsValue)
    requires user.role in Writers && Has(subs, PathId(req))
    requires req.body == Obj(map["cardLast4" := card])
    ensures Get(UpdateRoute(subs, user, req, now).reply.body, "cardLast4") == card
  {
    assert "cardLast4" in Editable(BodyPatch(req));
  }

  /** `DELETE /subscriptions/:id`: admin only; an unknown id is 404 with
      no event. */
  function DeleteRoute(subs: Store, user: AuthUser, req: Request): (o: Outcome<Store, ()>)
    ensures user.role != Admin ==> o == Refuse(subs, RequireRole(Admins, Some(user), req.path))
    ensures user.role == Admin && !Has(subs, PathId(req)) ==> o == Reject(subs, NoSuchSubscription)
    ensures o.reply.Ok? <==> user.role == Admin && Has(subs, PathId(req))
    ensures o.reply.Ok? ==>
      && o.reply.status == 204
      && !Has(o.state, PathId(req))
      && (forall k :: k != PathId(req) ==> Find(o.state, k) == Find(subs, k))
      && o.events == [SubscriptionEvent(user, Audit.Delete, Str(PathId(req)))]
    ensures !o.reply.Ok? ==> o.state == subs
  {
    var gate := RequireRole(Admins, Some(user), req.path);
    if gate.Deny? then Refuse(subs, gate)
    else
      var (subs', ok) := Remove(subs, PathId(req));
      if !ok then Reject(subs, NoSuchSubscription)
      else Outcome(subs', [SubscriptionEvent(user, Audit.Delete, Str(PathId(req)))], Ok(204, ()))
  }

  /** A created subscription is listed under its app. */
  lemma CreatedIsListed(subs: Store, apps: Store, user: AuthUser, req: Request, now: string, random: Random6,
                        path: string)
    requires CreateRoute(subs, apps, user, req, now, random).reply.Ok?
    requires NoWhitespace(TrimmedField(req, "appId"))
    ensures var o := CreateRoute(subs, apps, user, req, now, random);
      o.reply.body in ListRoute(o.state, ForApp(path, TrimmedField(req, "appId"))).reply.body
  {
    var o := CreateRoute(subs, apps, user, req, now, random);
    ForAppQuery(path, TrimmedField(req, "appId"));
    StoredIsListed(o.state, CreateId(Prefix, random), o.reply.body, Str(TrimmedField(req, "appId")));
  }

  /** The listing keeps insertion order: a new subscription comes last
      among its app's. */
  lemma CreatedIsListedLast(subs: Store, apps: Store, user: AuthUser, req: Request, now: string,
                            random: Random6, path: string)
    requires CreateRoute(subs, apps, user, req, now, random).reply.Ok?
    requires !Has(subs, CreateId(Prefix, random))
    ensures var o := CreateRoute(subs, apps, user, req, now, random);
      var q := ForApp(path, TrimmedField(req, "appId"));
      ListRoute(o.state, q).reply.body == ListRoute(subs, q).reply.body + [o.reply.body]
  {
    var o := CreateRoute(subs, apps, user, req, now, random);
    var appId := TrimmedField(req, "appId");
    assert QueryText(ForApp(path, appId), "appId") == appId by { TrimIdempotent(StringOrEmpty(Field(req, "appId"))); }
    assert o.state == Set(subs, CreateId(Prefix, random), o.reply.body);
    ListByAppAfterInsert(subs, CreateId(Prefix, random), o.reply.body, Str(appId));
  }

  /** A deleted subscription is no longer listed. */
  lemma DeletedIsNotListed(subs: Store, user: AuthUser, req: Request, x: Record)
    requires KeyedById(subs) && DeleteRoute(subs, user, req).reply.Ok?
    requires Get(x, "id") == Str(PathId(req))
    ensures x !in ListRoute(DeleteRoute(subs, user, req).state, ForApp("/subscriptions", "")).reply.body
  {
    var s' := DeleteRoute(subs, user, req).state;
    RemoveKeepsKeyedById(subs, PathId(req));
    InValues(s', x);
  }

  /** A reader can change nothing. */
  lemma ReaderCannotWrite(subs: Store, apps: Store, user: AuthUser, req: Request, now: string, random: Random6)
    requires user.role == Leitor
    ensures CreateRoute(subs, apps, user, req, now, random).state == subs
    ensures UpdateRoute(subs, user, req, now).state == subs
    ensures UpdateRouteAsWritten(subs, user, req, now).state == subs
    ensures DeleteRoute(subs, user, req).state == subs
    ensures CreateRoute(subs, apps, user, req, now, random).reply == Fail(Http(Forbidden(NoPermission)))
  {
  }

  /** The creating, corrected editing and deleting routes keep every
      subscription under its own id. */
  lemma RoutesKeepKeyedById(subs: Store, apps: Store, user: AuthUser, req: Request, now: string, random: Random6)
    requires KeyedById(subs)
    ensures KeyedById(CreateRoute(subs, apps, user, req, now, random).state)
    ensures KeyedById(UpdateRoute(subs, user, req, now).state)
    ensures KeyedById(DeleteRoute(subs, user, req).state)
  {
    CreateKeepsKeyedById(subs, apps, user, req, now, random);
    UpdateKeepsKeying(subs, user, req, now);
    RemoveKeepsKeyedById(subs, PathId(req));
  }

  lemma CreateKeepsKeyedById(subs: Store, apps: Store, user: AuthUser, req: Request, now: string, random: Random6)
    requires KeyedById(subs)
    ensures KeyedById(CreateRoute(subs, apps, user, req, now, random).state)
  {
    if CreateRoute(subs, apps, user, req, now, random).reply.Ok? {
      InsertKeepsKeyedById(subs, Prefix, SubscriptionInput(req, TrimmedField(req, "appId")), now, random, true);
    }
  }

  lemma UpdateKeepsKeying(subs: Store, user: AuthUser, req: Request, now: string)
    requires KeyedById(subs)
    ensures KeyedById(UpdateRoute(subs, user, req, now).state)
  {
    UpdateKeepsKeyedById(subs, PathId(req), Editable(BodyPatch(req)), now);
  }
}
