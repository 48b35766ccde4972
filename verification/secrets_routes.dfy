/** The secret routes (apps/backend/src/modules/secrets/secrets.routes.ts).
    Every route runs after `requireAuth`, so the handler sees the
    authenticated user. Create and update admit admins and editors; reveal
    and delete admit admins only. The handlers' store is the vault; the
    create route also reads the app store to check that the app exists. */
module SecretsRoutes {
  import opened Wrappers
  import opened Octets
  import opened Text
  import opened Js
  import opened Primitives
  import opened OrderedMap
  import opened Ids
  import opened HttpTypes
  import opened Errors
  import Audit
  import opened Routing
  import opened AuthMiddleware
  import opened SecretsService
  import RecordStore

  const NoSuchSecret: HttpError := NotFound("Segredo nao encontrado")
  const UnknownApp: HttpError := NotFound("App nao encontrado")

  /** The create response: the public fields, never the payload. */
  datatype Summary = Summary(id: string, appId: string, kind: Kind, labelText: string, createdAt: string, updatedAt: string)

  datatype Revelation = Revelation(id: string, value: string)

  datatype Touched = Touched(id: string, updatedAt: string)

  function SecretEvent(user: AuthUser, action: Audit.Action, id: string): Audit.AuditInput {
    ActorEvent(user, action, "secrets", Str(id))
  }

  /** `GET /secrets?appId=…`: any authenticated user; the trimmed app id
      is required. */
  function ListRoute(v: Vault, req: Request): (o: Outcome<Vault, seq<SecretView>>)
    ensures o.state == v && o.events == []
    ensures o.reply.Fail? <==> QueryText(req, "appId") == ""
    ensures o.reply.Fail? ==> o.reply.failure == Http(Validation("appId e obrigatorio"))
    ensures o.reply.Ok? ==>
      o.reply.status == 200 && o.reply.body == ListByApp(v, QueryText(req, "appId"))
  {
    var appId := QueryText(req, "appId");
    if appId == "" then Reject(v, Validation("appId e obrigatorio"))
    else Outcome(v, [], Ok(200, ListByApp(v, appId)))
  }

  /** The fields of a create body, trimmed. */
  function Label(req: Request): string {
    TrimmedField(req, "label")
  }

  function PlainValue(req: Request): string {
    TrimmedField(req, "plainValue")
  }

  /** `POST /secrets`: admin or editor; an unknown app is 404 before the
      fields are checked; the stored value is the trimmed plain value and
      `metadata` defaults to `{}`; one `create` event on success. */
  function CreateRoute(c: Crypto, key: Bytes, v: Vault, apps: RecordStore.Store, user: AuthUser, req: Request,
                       now: string, random: Random6, iv: Iv): (o: Outcome<Vault, Summary>)
    ensures RequireRole(Writers, Some(user), req.path).Deny? ==>
      o == Refuse(v, RequireRole(Writers, Some(user), req.path))
    ensures user.role in Writers && !Has(apps, TrimmedField(req, "appId")) ==> o == Reject(v, UnknownApp)
    ensures (user.role in Writers && Has(apps, TrimmedField(req, "appId")) &&
      (Label(req) == "" || PlainValue(req) == "" || ParseKind(Field(req, "kind")).None?)) ==>
      o == Reject(v, Validation("kind, label e plainValue sao obrigatorios"))
    ensures o.reply.Ok? <==>
      && user.role in Writers && Has(apps, TrimmedField(req, "appId"))
      && Label(req) != "" && PlainValue(req) != "" && ParseKind(Field(req, "kind")).Some? && |key| == 32
    ensures (&& user.role in Writers && Has(apps, TrimmedField(req, "appId"))
             && Label(req) != "" && PlainValue(req) != "" && ParseKind(Field(req, "kind")).Some? && |key| != 32) ==>
      o.state == v && o.events == [] && o.reply.Fail? && o.reply.failure.Internal?
    ensures o.reply.Ok? ==>
      var id := CreateId("sec", random);
      && o.reply.status == 201
      && Has(o.state, id)
      && o.reply.body == Summary(id, TrimmedField(req, "appId"), ParseKind(Field(req, "kind")).value, Label(req), now, now)
      && o.state.entries[id].id == id
      && o.state.entries[id].appId == TrimmedField(req, "appId")
      && o.state.entries[id].kind == ParseKind(Field(req, "kind")).value
      && o.state.entries[id].labelText == Label(req)
      && o.state.entries[id].metadata == Coalesce(Field(req, "metadata"), Obj(map[]))
      && Some(o.state.entries[id].encryptedPayload) == Encrypt(c, key, iv, PlainValue(req))
      && o.state.entries[id].createdAt == now && o.state.entries[id].updatedAt == now
      && (forall k :: k != id ==> Find(o.state, k) == Find(v, k))
      && o.events == [SecretEvent(user, Audit.Create, id)]
    ensures !o.reply.Ok? ==> o.state == v
  {
    var gate := RequireRole(Writers, Some(user), req.path);
    if gate.Deny? then Refuse(v, gate)
    else
      var appId := TrimmedField(req, "appId");
      if !Has(apps, appId) then Reject(v, UnknownApp)
      else
        var labelText := Label(req);
        var plain := PlainValue(req);
        match ParseKind(Field(req, "kind"))
        case None => Reject(v, Validation("kind, label e plainValue sao obrigatorios"))
        case Some(kind) =>
          if labelText == "" || plain == "" then Reject(v, Validation("kind, label e plainValue sao obrigatorios"))
          else
            var metadata := Coalesce(Field(req, "metadata"), Obj(map[]));
            match SecretsService.Create(c, key, v, appId, kind, labelText, plain, metadata, now, random, iv)
            case Failure(e) => Outcome(v, [], Fail(Internal(e)))
            case Success((v', rec)) =>
              Outcome(v', [SecretEvent(user, Audit.Create, rec.id)],
                      Ok(201, Summary(rec.id, rec.appId, rec.kind, rec.labelText, rec.createdAt, rec.updatedAt)))
  }

  /** `GET /secrets/:id/reveal`: admin only; an unknown id, or a value that
      decrypts to the empty string, is 404 with no event; a payload that
      does not open is an internal error; otherwise one `view_secret`
      event and the value. */
  function RevealRoute(c: Crypto, key: Bytes, v: Vault, user: AuthUser, req: Request): (o: Outcome<Vault, Revelation>)
    ensures o.state == v
    ensures user.role != Admin ==> o == Refuse(v, RequireRole(Admins, Some(user), req.path))
    ensures user.role == Admin && !Has(v, PathId(req)) ==> o == Reject(v, NoSuchSecret)
    ensures o.reply.Ok? <==>
      && user.role == Admin
      && Reveal(c, key, v, PathId(req)).Plain?
      && Reveal(c, key, v, PathId(req)).text != ""
    ensures o.reply.Ok? ==>
      && o.reply == Ok(200, Revelation(PathId(req), Reveal(c, key, v, PathId(req)).text))
      && o.events == [SecretEvent(user, Audit.ViewSecret, PathId(req))]
    ensures o.reply.Fail? && o.reply.failure.Http? && o.reply.failure.err.statusCode == 404 ==> o.events == []
  {
    var gate := RequireRole(Admins, Some(user), req.path);
    if gate.Deny? then Refuse(v, gate)
    else
      var id := PathId(req);
      match Reveal(c, key, v, id)
      case Corrupt => Outcome(v, [], Fail(Internal("Error: Unsupported state or unable to authenticate data")))
      case Absent => Reject(v, NoSuchSecret)
      case Plain(text) =>
        if text == "" then Reject(v, NoSuchSecret)
        else Outcome(v, [SecretEvent(user, Audit.ViewSecret, id)], Ok(200, Revelation(id, text)))
  }

  /** `PUT /secrets/:id`: admin or editor; an empty value is 400 before the
      id is looked up; the response is only the id and the new
      `updatedAt`. */
  function UpdateRoute(c: Crypto, key: Bytes, v: Vault, user: AuthUser, req: Request, now: string, iv: Iv)
    : (o: Outcome<Vault, Touched>)
    ensures user.role !in Writers ==> o == Refuse(v, RequireRole(Writers, Some(user), req.path))
    ensures user.role in Writers && PlainValue(req) == "" ==>
      o == Reject(v, Validation("plainValue e obrigatorio"))
    ensures user.role in Writers && PlainValue(req) != "" && !Has(v, PathId(req)) ==>
      o == Reject(v, NoSuchSecret)
    ensures o.reply.Ok? <==>
      user.role in Writers && PlainValue(req) != "" && Has(v, PathId(req)) && |key| == 32
    ensures o.reply.Ok? ==>
      var id := PathId(req);
      && o.reply == Ok(200, Touched(v.entries[id].id, now))
      && o.state == SecretsService.Update(c, key, v, id, PlainValue(req), now, iv).vault
      && o.events == [SecretEvent(user, Audit.Update, id)]
    ensures !o.reply.Ok? ==> o.state == v
  {
    var gate := RequireRole(Writers, Some(user), req.path);
    if gate.Deny? then Refuse(v, gate)
    else
      var plain := PlainValue(req);
      if plain == "" then Reject(v, Validation("plainValue e obrigatorio"))
      else
        var id := PathId(req);
        match SecretsService.Update(c, key, v, id, plain, now, iv)
        case Missing => Reject(v, NoSuchSecret)
        case Crashed(e) => Outcome(v, [], Fail(Internal(e)))
        case Changed(v', item) => Outcome(v', [SecretEvent(user, Audit.Update, id)], Ok(200, Touched(item.id, item.updatedAt)))
  }

  /** `DELETE /secrets/:id`: admin only; unknown id is 404 with no event;
      otherwise 204 and one `delete` event. */
  function DeleteRoute(v: Vault, user: AuthUser, req: Request): (o: Outcome<Vault, ()>)
    ensures user.role != Admin ==> o == Refuse(v, RequireRole(Admins, Some(user), req.path))
    ensures user.role == Admin && !Has(v, PathId(req)) ==> o == Reject(v, NoSuchSecret)
    ensures o.reply.Ok? <==> user.role == Admin && Has(v, PathId(req))
    ensures o.reply.Ok? ==>
      && o.reply.status == 204
      && !Has(o.state, PathId(req))
      && (forall k :: k != PathId(req) ==> Find(o.state, k) == Find(v, k))
      && o.events == [SecretEvent(user, Audit.Delete, PathId(req))]
    ensures !o.reply.Ok? ==> o.state == v
  {
    var gate := RequireRole(Admins, Some(user), req.path);
    if gate.Deny? then Refuse(v, gate)
    else
      var id := PathId(req);
      var (v', ok) := DeleteSecret(v, id);
      if !ok then Reject(v, NoSuchSecret)
      else Outcome(v', [SecretEvent(user, Audit.Delete, id)], Ok(204, ()))
  }

  /** A request addressed to one secret. */
  function ForId(id: string): Request {
    Request("/secrets/" + id, map["id" := Str(id)], map[], Undefined)
  }

  /** Round trip through the routes: an admin who creates a secret and
      then reveals it gets back the trimmed value, and the reveal is
      audited once. */
  lemma RevealAfterCreateRoute(c: Crypto, key: Bytes, v: Vault, apps: RecordStore.Store, admin: AuthUser,
                               req: Request, now: string, random: Random6, iv: Iv)
    requires Lawful(c) && |key| == 32 && admin.role == Admin
    requires CreateRoute(c, key, v, apps, admin, req, now, random, iv).reply.Ok?
    ensures var created := CreateRoute(c, key, v, apps, admin, req, now, random, iv);
      var id := created.reply.body.id;
      var revealed := RevealRoute(c, key, created.state, admin, ForId(id));
      revealed.reply == Ok(200, Revelation(id, PlainValue(req))) &&
      revealed.events == [SecretEvent(admin, Audit.ViewSecret, id)]
  {
    var appId := TrimmedField(req, "appId");
    var kind := ParseKind(Field(req, "kind")).value;
    var metadata := Coalesce(Field(req, "metadata"), Obj(map[]));
    RevealAfterCreate(c, key, v, appId, kind, Label(req), PlainValue(req), metadata, now, random, iv);
    var id := CreateId("sec", random);
    assert PathId(ForId(id)) == id;
  }

  /** Only an admin ever sees a value: every other role is refused with
      403, and the refusal is audited. */
  lemma RevealIsAdminOnly(c: Crypto, key: Bytes, v: Vault, user: AuthUser, req: Request)
    requires user.role != Admin
    ensures RevealRoute(c, key, v, user, req).reply == Fail(Http(Forbidden(NoPermission)))
    ensures |RevealRoute(c, key, v, user, req).events| == 1
    ensures RevealRoute(c, key, v, user, req).events[0].action == Audit.AccessDenied
  {
  }
}
