/** What every route handler sees and produces. A request is reduced to
    the parts handlers read; a handler's effect is its new store state,
    the audit inputs it recorded (in order), and its reply, where a thrown
    error is a `Fail` that the error handler in apps/backend/src/index.ts
    turns into a response. */
module Routing {
  import opened Wrappers
  import opened Text
  import opened Js
  import opened Errors
  import opened Audit
  import opened HttpTypes
  import opened SharedHttp
  import opened OrderedMap
  import opened RecordStore

  /** `req.path`, `req.params`, `req.query` and the parsed JSON `req.body`
      (`Undefined` when there is none). */
  datatype Request = Request(path: string, params: Record, query: Record, body: JsValue)

  datatype Reply<+B> = Ok(status: int, body: B) | Fail(failure: Failure)

  datatype Outcome<+S, +B> = Outcome(state: S, events: seq<AuditInput>, reply: Reply<B>)

  /** `req.body?.<field>`. */
  function Field(req: Request, name: string): JsValue {
    Prop(req.body, name)
  }

  /** `String(req.body?.<field> ?? "").trim()`. */
  function TrimmedField(req: Request, name: string): string {
    Trim(StringOrEmpty(Field(req, name)))
  }

  /** A thrown `HttpError` that leaves the state as it was and records
      nothing. */
  function Reject<S, B>(state: S, e: HttpError): (o: Outcome<S, B>)
    ensures o.state == state && o.events == [] && o.reply == Fail(Http(e))
  {
    Outcome(state, [], Fail(Http(e)))
  }

  /** The audit input of a mutation by the authenticated user:
      `{ actorId: req.user?.id, actorEmail: req.user?.email, action,
      resource, resourceId }`. */
  function ActorEvent(user: AuthUser, action: Action, resource: string, resourceId: JsValue): AuditInput {
    AuditInput(Some(user.id), Some(user.email), action, resource, resourceId, None)
  }

  /** `asString(req.params.id)`. */
  function PathId(req: Request): string {
    AsString(Get(req.params, "id"))
  }

  /** `asString(req.query.<name>).trim()`. */
  function QueryText(req: Request, name: string): string {
    Trim(AsString(Get(req.query, name)))
  }

  /** `req.body ?? {}` as a patch: the properties of an object body. */
  function BodyPatch(req: Request): Record {
    if req.body.Obj? then req.body.props else map[]
  }

  /** A listing request for one app's records, `GET <path>?appId=<appId>`. */
  function ForApp(path: string, appId: string): Request {
    Request(path, map[], map["appId" := Str(appId)], Undefined)
  }

  lemma ForAppQuery(path: string, appId: string)
    requires NoWhitespace(appId)
    ensures QueryText(ForApp(path, appId), "appId") == appId
  {
    TrimNoWhitespace(appId);
  }

  /** The listing route of a record store, `list(appId || undefined)` with
      `appId` read from the query and trimmed: every record for an empty
      `appId`, otherwise exactly that app's. Any authenticated user may
      list; nothing changes and nothing is audited. */
  function ListStoreRoute(s: Store, req: Request): (o: Outcome<Store, seq<Record>>)
    ensures o.state == s && o.events == [] && o.reply.Ok? && o.reply.status == 200
    ensures QueryText(req, "appId") == "" ==> o.reply.body == Values(s)
    ensures QueryText(req, "appId") != "" ==> forall x :: x in o.reply.body <==>
      x in Values(s) && BelongsTo(x, Str(QueryText(req, "appId")))
    ensures QueryText(req, "appId") != "" ==>
      forall x :: multiset(o.reply.body)[x] == (if BelongsTo(x, Str(QueryText(req, "appId"))) then multiset(Values(s))[x] else 0)
    ensures IsSubsequence(o.reply.body, Values(s))
  {
    ListByAppInOrder(s, Str(QueryText(req, "appId")));
    Outcome(s, [], Ok(200, ListByApp(s, Str(QueryText(req, "appId")))))
  }
}
