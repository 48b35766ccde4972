/** The inventory routes (apps/backend/src/modules/inventory/inventory.routes.ts).
    Every route runs after `requireAuth`, so the handler sees the
    authenticated user. Reads are open to every role; creating and editing
    admit admins and editors; deleting admits admins only. */
module InventoryRoutes {
  import opened Wrappers
  import opened Text
  import opened Js
  import opened OrderedMap
  import opened Ids
  import opened HttpTypes
  import opened Errors
  import Audit
  import opened Routing
  import opened AuthMiddleware
  import opened SharedHttp
  import opened RecordStore
  import opened InventoryStore

  /** The audited resource name of each collection. */
  function Resource(c: Collection): string {
    match c
    case Apps => "apps"
    case Hostings => "hostings"
    case Domains => "domains"
    case Integrations => "integrations"
  }

  /** The 404 of each collection. */
  function Unknown(c: Collection): HttpError {
    match c
    case Apps => NotFound("App nao encontrado")
    case Hostings => NotFound("Hosting nao encontrado")
    case Domains => NotFound("Dominio nao encontrado")
    case Integrations => NotFound("Integracao nao encontrada")
  }

  /** The audit input of a mutation of one record. */
  function ItemEvent(user: AuthUser, action: Audit.Action, c: Collection, id: JsValue): Audit.AuditInput {
    ActorEvent(user, action, Resource(c), id)
  }

  /** Every stored app keeps its tags as an array, which is what the
      search needs. */
  predicate TagsAreArrays(apps: Store) {
    forall k :: k in apps.entries ==> Get(apps.entries[k], "tags").Arr?
  }

  // ---------------------------------------------------------------- apps

  /** `GET /apps?search=…`: the trimmed term, empty meaning no search. A
      stored app without array tags makes a search throw, which the error
      handler turns into a 500. */
  function ListAppsRoute(inv: Inventory, req: Request): (o: Outcome<Inventory, seq<Record>>)
    ensures o.state == inv && o.events == []
    ensures QueryText(req, "search") == "" ==> o.reply == Ok(200, Values(inv.apps))
    ensures o.reply.Ok? <==>
      QueryText(req, "search") == "" || forall i :: 0 <= i < Size(inv.apps) ==> Get(Values(inv.apps)[i], "tags").Arr?
    ensures o.reply.Fail? ==> o.reply.failure.Internal?
    ensures o.reply.Ok? ==> o.reply.status == 200 && forall x :: x in o.reply.body ==> x in Values(inv.apps)
    ensures o.reply.Ok? && QueryText(req, "search") != "" ==> forall x :: x in o.reply.body <==>
      x in Values(inv.apps) && Contains(Haystack(x).value, ToLower(QueryText(req, "search")))
    ensures o.reply.Ok? && QueryText(req, "search") != "" ==>
      o.reply.body == Filter(Values(inv.apps), MatchesTerm(ToLower(QueryText(req, "search"))))
    ensures o.reply.Ok? ==> IsSubsequence(o.reply.body, Values(inv.apps))
  {
    match ListApps(inv, QueryText(req, "search"))
    case Failure(e) => Outcome(inv, [], Fail(Internal(e)))
    case Success(items) => Outcome(inv, [], Ok(200, items))
  }

  /** `req.body.tags.map(String)` for an array, `[]` otherwise. */
  function TagStrings(v: JsValue): (r: seq<JsValue>)
    ensures v.Arr? ==> |r| == |v.items| && forall i :: 0 <= i < |r| ==> r[i] == Str(ToStr(v.items[i]))
    ensures !v.Arr? ==> r == []
  {
    if v.Arr? then seq(|v.items|, i requires 0 <= i < |v.items| => Str(ToStr(v.items[i]))) else []
  }

  /** The text fields of an app; with `tags` they are what a client
      edits. */
  const AppTextFields: set<string> := {"name", "commercialName", "description", "status", "owner"}

  /** An app record's own fields, before the store adds its id and
      instants. */
  function AppFields(name: JsValue, commercialName: JsValue, description: JsValue, status: JsValue,
                     tags: JsValue, owner: JsValue): (r: Record)
    ensures "id" !in r && "createdAt" !in r && "updatedAt" !in r
    ensures Get(r, "name") == name && Get(r, "commercialName") == commercialName
    ensures Get(r, "description") == description && Get(r, "status") == status
    ensures Get(r, "tags") == tags && Get(r, "owner") == owner
    ensures forall k :: k in r <==> k in AppTextFields || k == "tags"
  {
    map["name" := name, "commercialName" := commercialName, "description" := description, "status" := status,
        "tags" := tags, "owner" := owner]
  }

  /** `"inativo"` when asked for exactly, `"ativo"` otherwise. */
  function AppStatus(v: JsValue): string {
    ExactOr(v, "inativo", "ativo")
  }

  /** The record `POST /apps` stores: trimmed names, optional texts that
      are absent when blank, the status, and tags as strings. */
  function AppInput(req: Request): (r: Record)
    ensures "id" !in r && "createdAt" !in r && "updatedAt" !in r
    ensures Get(r, "name") == Str(TrimmedField(req, "name"))
    ensures Get(r, "commercialName") == Str(TrimmedField(req, "commercialName"))
    ensures Get(r, "description") == OptionalText(Field(req, "description"))
    ensures Get(r, "owner") == OptionalText(Field(req, "owner"))
    ensures Get(r, "status") == Str(AppStatus(Field(req, "status")))
    ensures Get(r, "tags") == Arr(TagStrings(Field(req, "tags")))
  {
    AppFields(Str(TrimmedField(req, "name")), Str(TrimmedField(req, "commercialName")),
              OptionalText(Field(req, "description")), Str(AppStatus(Field(req, "status"))),
              Arr(TagStrings(Field(req, "tags"))), OptionalText(Field(req, "owner")))
  }

  /** `POST /apps`: admin or editor; both names are required. */
  function CreateAppRoute(inv: Inventory, user: AuthUser, req: Request, now: string, random: Random6)
    : (o: Outcome<Inventory, Record>)
    ensures user.role !in Writers ==> o == Refuse(inv, RequireRole(Writers, Some(user), req.path))
    ensures user.role in Writers && (TrimmedField(req, "name") == "" || TrimmedField(req, "commercialName") == "") ==>
      o == Reject(inv, Validation("name e commercialName sao obrigatorios"))
    ensures o.reply.Ok? <==>
      user.role in Writers && TrimmedField(req, "name") != "" && TrimmedField(req, "commercialName") != ""
    ensures o.reply.Ok? ==>
      var id := CreateId(Prefix(Apps), random);
      && o.reply.status == 201
      && Get(o.reply.body, "id") == Str(id)
      && Get(o.reply.body, "createdAt") == Str(now) && Get(o.reply.body, "updatedAt") == Str(now)
      && (forall k :: k in AppInput(req) ==> Get(o.reply.body, k) == AppInput(req)[k])
      && Find(o.state.apps, id) == Some(o.reply.body)
      && (forall k :: k != id ==> Find(o.state.apps, k) == Find(inv.apps, k))
      && (forall d :: d != Apps ==> StoreOf(o.state, d) == StoreOf(inv, d))
      && o.events == [ItemEvent(user, Audit.Create, Apps, Str(id))]
    ensures !o.reply.Ok? ==> o.state == inv
  {
    var gate := RequireRole(Writers, Some(user), req.path);
    if gate.Deny? then Refuse(inv, gate)
    else if TrimmedField(req, "name") == "" || TrimmedField(req, "commercialName") == "" then
      Reject(inv, Validation("name e commercialName sao obrigatorios"))
    else
      var (inv', item) := CreateIn(inv, Apps, AppInput(req), now, random);
      Outcome(inv', [ItemEvent(user, Audit.Create, Apps, Get(item, "id"))], Ok(201, item))
  }

  /** The body of `GET /apps/:id`. */
  datatype AppDetail = AppDetail(app: Record, hostings: seq<Record>, domains: seq<Record>, integrations: seq<Record>)

  /** `GET /apps/:id`: the app and its children, listed by the stored
      app's own `id` field. */
  function GetAppRoute(inv: Inventory, req: Request): (o: Outcome<Inventory, AppDetail>)
    ensures o.state == inv && o.events == []
    ensures o.reply.Ok? <==> Has(inv.apps, PathId(req))
    ensures o.reply.Fail? ==> o.reply.failure == Http(Unknown(Apps))
    ensures o.reply.Ok? ==>
      && o.reply.status == 200
      && o.reply.body.app == inv.apps.entries[PathId(req)]
      && o.reply.body.hostings == ListIn(inv, Hostings, Get(o.reply.body.app, "id"))
      && o.reply.body.domains == ListIn(inv, Domains, Get(o.reply.body.app, "id"))
      && o.reply.body.integrations == ListIn(inv, Integrations, Get(o.reply.body.app, "id"))
  {
    match Find(inv.apps, PathId(req))
    case None => Reject(inv, Unknown(Apps))
    case Some(app) =>
      var appId := Get(app, "id");
      Outcome(inv, [], Ok(200, AppDetail(app, ListIn(inv, Hostings, appId), ListIn(inv, Domains, appId),
                                         ListIn(inv, Integrations, appId))))
  }

  /** In a consistent inventory the detail lists exactly the children
      whose `appId` is the requested id. */
  lemma GetAppListsItsChildren(inv: Inventory, req: Request, c: Collection, x: Record)
    requires Consistent(inv) && Has(inv.apps, PathId(req)) && PathId(req) != "" && c != Apps
    ensures var d := GetAppRoute(inv, req).reply.body;
      x in (if c == Hostings then d.hostings else if c == Domains then d.domains else d.integrations) <==>
      x in Values(StoreOf(inv, c)) && BelongsTo(x, Str(PathId(req)))
  {
    assert KeyedById(StoreOf(inv, Apps));
  }

  /** The six fields `PUT /apps/:id` passes, each `req.body?.<field>`:
      a field the body leaves out is passed as `undefined`. */
  function AppPatchAsWritten(req: Request): (r: Record)
    ensures "id" !in r
    ensures forall k :: k in r <==> k in AppTextFields || k == "tags"
    ensures forall k :: k in r ==> r[k] == Field(req, k)
  {
    AppFields(Field(req, "name"), Field(req, "commercialName"), Field(req, "description"), Field(req, "status"),
              Field(req, "tags"), Field(req, "owner"))
  }

  /** The patch `PUT /apps/:id` evidently intends: the text fields the
      body supplies, and the tags only when they are an array, normalised
      as on create. */
  function AppPatch(req: Request): (r: Record)
    ensures "id" !in r && "createdAt" !in r && "updatedAt" !in r
    ensures forall k :: k in r ==> k in AppTextFields || k == "tags"
    ensures forall k :: k in AppTextFields ==> (k in r <==> !Field(req, k).Undefined?)
    ensures forall k :: k in AppTextFields && k in r ==> r[k] == Field(req, k)
    ensures "tags" in r <==> Field(req, "tags").Arr?
    ensures "tags" in r ==> r["tags"] == Arr(TagStrings(Field(req, "tags")))
  {
    var text := map k | k in AppTextFields && !Field(req, k).Undefined? :: Field(req, k);
    if Field(req, "tags").Arr? then text["tags" := Arr(TagStrings(Field(req, "tags")))] else text
  }

  /** `PUT /apps/:id` with a given patch: admin or editor; 404 for an
      unknown app. */
  function UpdateAppWith(inv: Inventory, user: AuthUser, req: Request, patch: Record, now: string)
    : (o: Outcome<Inventory, Record>)
    requires "id" !in patch
    ensures user.role !in Writers ==> o == Refuse(inv, RequireRole(Writers, Some(user), req.path))
    ensures user.role in Writers && !Has(inv.apps, PathId(req)) ==> o == Reject(inv, Unknown(Apps))
    ensures o.reply.Ok? <==> user.role in Writers && Has(inv.apps, PathId(req))
    ensures o.reply.Ok? ==>
      var id := PathId(req);
      && o.reply.status == 200
      && Get(o.reply.body, "updatedAt") == Str(now)
      && Get(o.reply.body, "id") == Get(inv.apps.entries[id], "id")
      && (forall k :: k in patch && k != "updatedAt" ==> Get(o.reply.body, k) == patch[k])
      && (forall k :: k !in patch && k != "updatedAt" ==> Get(o.reply.body, k) == Get(inv.apps.entries[id], k))
      && Find(o.state.apps, id) == Some(o.reply.body)
      && (forall k :: k != id ==> Find(o.state.apps, k) == Find(inv.apps, k))
      && (forall d :: d != Apps ==> StoreOf(o.state, d) == StoreOf(inv, d))
      && o.events == [ItemEvent(user, Audit.Update, Apps, Get(inv.apps.entries[id], "id"))]
    ensures !o.reply.Ok? ==> o.state == inv
  {
    var gate := RequireRole(Writers, Some(user), req.path);
    if gate.Deny? then Refuse(inv, gate)
    else
      match UpdateIn(inv, Apps, PathId(req), patch, now)
      case None => Reject(inv, Unknown(Apps))
      case Some((inv', item)) =>
        Outcome(inv', [ItemEvent(user, Audit.Update, Apps, Get(item, "id"))], Ok(200, item))
  }

  /** `PUT /apps/:id` as written: all six fields, absent ones as
      `undefined`. */
  function UpdateAppRouteAsWritten(inv: Inventory, user: AuthUser, req: Request, now: string)
    : (o: Outcome<Inventory, Record>)
    ensures o.reply.Ok? <==> user.role in Writers && Has(inv.apps, PathId(req))
    ensures o.reply.Ok? ==> forall k :: k in AppTextFields || k == "tags" ==> Get(o.reply.body, k) == Field(req, k)
  {
    UpdateAppWith(inv, user, req, AppPatchAsWritten(req), now)
  }

  /** `PUT /apps/:id` as evidently intended: only the supplied fields
      change, and tags stay an array. */
  function UpdateAppRoute(inv: Inventory, user: AuthUser, req: Request, now: string)
    : (o: Outcome<Inventory, Record>)
    ensures o.reply.Ok? <==> user.role in Writers && Has(inv.apps, PathId(req))
    ensures o.reply.Ok? ==> forall k :: k in AppTextFields ==>
      Get(o.reply.body, k) == (if Field(req, k).Undefined? then Get(inv.apps.entries[PathId(req)], k) else Field(req, k))
    ensures o.reply.Ok? ==>
      Get(o.reply.body, "tags") == (if Field(req, "tags").Arr? then Arr(TagStrings(Field(req, "tags"))) else Get(inv.apps.entries[PathId(req)], "tags"))
  {
    UpdateAppWith(inv, user, req, AppPatch(req), now)
  }

  /** A stored app without array tags makes every non-empty search
      answer an error. */
  lemma SearchRouteFails(inv: Inventory, id: string, term: string)
    requires Has(inv.apps, id) && !Get(inv.apps.entries[id], "tags").Arr?
    requires term != "" && NoWhitespace(term)
    ensures ListAppsRoute(inv, SearchFor(term)).reply.Fail?
  {
    SearchQuery(term);
    SearchFailsOnMissingTags(inv, id, term);
  }

  /** As written, editing an app with a body that carries no tags array
      stores non-array tags, and from then on every search of the app list
      answers an error. */
  lemma UpdateWithoutTagsBreaksSearch(inv: Inventory, user: AuthUser, req: Request, now: string, term: string)
    requires user.role in Writers && Has(inv.apps, PathId(req)) && !Field(req, "tags").Arr?
    requires term != "" && NoWhitespace(term)
    ensures ListAppsRoute(UpdateAppRouteAsWritten(inv, user, req, now).state, SearchFor(term)).reply.Fail?
  {
    var o := UpdateAppRouteAsWritten(inv, user, req, now);
    assert Get(o.state.apps.entries[PathId(req)], "tags") == Field(req, "tags");
    SearchRouteFails(o.state, PathId(req), term);
  }

  /** The smallest such body: `{ "name": "X" }`. */
  lemma RenameBreaksSearch(inv: Inventory, user: AuthUser, id: string, now: string)
    requires user.role in Writers && Has(inv.apps, id)
    ensures var req := Request("/apps/" + id, map["id" := Str(id)], map[], Obj(map["name" := Str("X")]));
      && UpdateAppRouteAsWritten(inv, user, req, now).reply.Ok?
      && ListAppsRoute(UpdateAppRouteAsWritten(inv, user, req, now).state, SearchFor("X")).reply.Fail?
  {
    var req := Request("/apps/" + id, map["id" := Str(id)], map[], Obj(map["name" := Str("X")]));
    assert PathId(req) == id;
    assert Field(req, "tags") == Undefined;
    UpdateWithoutTagsBreaksSearch(inv, user, req, now, "X");
  }

  /** A search request for a term. */
  function SearchFor(term: string): Request {
    Request("/apps", map[], map["search" := Str(term)], Undefined)
  }

  lemma SearchQuery(term: string)
    requires NoWhitespace(term)
    ensures QueryText(SearchFor(term), "search") == term
  {
    TrimNoWhitespace(term);
  }

  /** Creating an app keeps every stored app's tags an array. */
  lemma CreateAppKeepsTagsArrays(inv: Inventory, user: AuthUser, req: Request, now: string, random: Random6)
    requires TagsAreArrays(inv.apps)
    ensures TagsAreArrays(CreateAppRoute(inv, user, req, now, random).state.apps)
  {
    var o := CreateAppRoute(inv, user, req, now, random);
    forall k | k in o.state.apps.entries
      ensures Get(o.state.apps.entries[k], "tags").Arr?
    {
      if o.reply.Ok? && k != CreateId(Prefix(Apps), random) {
        assert Find(o.state.apps, k) == Find(inv.apps, k);
      }
    }
  }

  /** So does the corrected edit, whatever the body. */
  lemma UpdateAppKeepsTagsArrays(inv: Inventory, user: AuthUser, req: Request, now: string)
    requires TagsAreArrays(inv.apps)
    ensures TagsAreArrays(UpdateAppRoute(inv, user, req, now).state.apps)
  {
    var o := UpdateAppRoute(inv, user, req, now);
    forall k | k in o.state.apps.entries
      ensures Get(o.state.apps.entries[k], "tags").Arr?
    {
      if o.reply.Ok? && k != PathId(req) {
        assert Find(o.state.apps, k) == Find(inv.apps, k);
      }
    }
  }

  /** The listing of a store whose apps all have array tags has array
      tags throughout. */
  lemma TagsArraysListed(apps: Store)
    requires TagsAreArrays(apps)
    ensures forall i :: 0 <= i < Size(apps) ==> Get(Values(apps)[i], "tags").Arr?
  {
    forall i | 0 <= i < Size(apps)
      ensures Get(Values(apps)[i], "tags").Arr?
    {
      assert apps.order[i] in apps.entries;
    }
  }

  /** With every app's tags an array the search never fails. */
  lemma SearchSucceeds(inv: Inventory, req: Request)
    requires TagsAreArrays(inv.apps)
    ensures ListAppsRoute(inv, req).reply.Ok?
  {
    TagsArraysListed(inv.apps);
  }

  /** A stored app is found by searching for its name, whatever the case
      of the term, as long as every stored app has array tags. */
  lemma FoundByName(inv: Inventory, id: string, name: string, term: string)
    requires TagsAreArrays(inv.apps) && Has(inv.apps, id) && Get(inv.apps.entries[id], "name") == Str(name)
    requires term != "" && NoWhitespace(term) && ToLower(term) == ToLower(name)
    ensures ListAppsRoute(inv, SearchFor(term)).reply.Ok?
    ensures inv.apps.entries[id] in ListAppsRoute(inv, SearchFor(term)).reply.body
  {
    var app := inv.apps.entries[id];
    TagsArraysListed(inv.apps);
    SearchQuery(term);
    assert Get(app, "tags").Arr?;
    assert ElementString(Str(name)) == ToStr(Str(name)) == name;
    assert HaystackParts(app)[0] == name;
    assert |ToLower(term)| == |term| == |name| == |ToLower(name)|;
    assert OccursAt(ToLower(name), ToLower(term), 0);
    SearchFindsByField(inv, id, term, 0);
  }

  /** A created app is found by searching for its name. */
  lemma CreatedAppIsFoundByName(inv: Inventory, user: AuthUser, req: Request, now: string, random: Random6,
                                term: string)
    requires TagsAreArrays(inv.apps)
    requires CreateAppRoute(inv, user, req, now, random).reply.Ok?
    requires NoWhitespace(term) && ToLower(term) == ToLower(TrimmedField(req, "name"))
    ensures var o := CreateAppRoute(inv, user, req, now, random);
      var found := ListAppsRoute(o.state, SearchFor(term));
      found.reply.Ok? && o.reply.body in found.reply.body
  {
    var o := CreateAppRoute(inv, user, req, now, random);
    var id := CreateId(Prefix(Apps), random);
    var name := TrimmedField(req, "name");
    CreateAppKeepsTagsArrays(inv, user, req, now, random);
    assert |term| > 0 by { assert |ToLower(term)| == |ToLower(name)|; }
    assert Get(o.reply.body, "name") == Str(name) by {
      assert "name" in AppInput(req);
    }
    FoundByName(o.state, id, name, term);
  }

  /** `DELETE /apps/:id`: admin only. The cascade over the children runs
      whether or not the app existed; an unknown app is then a 404 with no
      event. */
  function DeleteAppRoute(inv: Inventory, user: AuthUser, req: Request): (o: Outcome<Inventory, ()>)
    ensures user.role != Admin ==> o == Refuse(inv, RequireRole(Admins, Some(user), req.path))
    ensures o.reply.Ok? <==> user.role == Admin && Has(inv.apps, PathId(req))
    ensures user.role == Admin ==>
      && !Has(o.state.apps, PathId(req))
      && (forall k :: k != PathId(req) ==> Find(o.state.apps, k) == Find(inv.apps, k))
      && Cascaded(inv.hostings, o.state.hostings, PathId(req))
      && Cascaded(inv.domains, o.state.domains, PathId(req))
      && Cascaded(inv.integrations, o.state.integrations, PathId(req))
    ensures user.role == Admin && o.reply.Fail? ==> o.reply.failure == Http(Unknown(Apps)) && o.events == []
    ensures o.reply.Ok? ==> o.reply.status == 204 && o.events == [ItemEvent(user, Audit.Delete, Apps, Str(PathId(req)))]
  {
    var gate := RequireRole(Admins, Some(user), req.path);
    if gate.Deny? then Refuse(inv, gate)
    else
      var (inv', ok) := DeleteApp(inv, PathId(req));
      if !ok then Outcome(inv', [], Fail(Http(Unknown(Apps))))
      else Outcome(inv', [ItemEvent(user, Audit.Delete, Apps, Str(PathId(req)))], Ok(204, ()))
  }

  /** Deleting an app that does not exist still removes the records that
      name it, and answers 404. */
  lemma DeleteUnknownAppPurgesOrphans(inv: Inventory, user: AuthUser, req: Request, k: string)
    requires user.role == Admin && !Has(inv.apps, PathId(req))
    requires Has(inv.hostings, k) && BelongsTo(inv.hostings.entries[k], Str(PathId(req)))
    ensures DeleteAppRoute(inv, user, req).reply == Fail(Http(Unknown(Apps)))
    ensures !Has(DeleteAppRoute(inv, user, req).state.hostings, k)
  {
  }

  // ---------------------------------------------------------------- children

  /** The two required fields of a child create, and the message when one
      is blank. */
  function RequiredFields(c: Collection): (string, string) {
    match c
    case Apps => ("name", "commercialName")
    case Hostings => ("provider", "ip")
    case Domains => ("domain", "registrar")
    case Integrations => ("provider", "integrationName")
  }

  function RequiredMessage(c: Collection): string {
    match c
    case Apps => "name e commercialName sao obrigatorios"
    case Hostings => "provider e ip sao obrigatorios"
    case Domains => "domain e registrar sao obrigatorios"
    case Integrations => "provider e integrationName sao obrigatorios"
  }

  predicate HasRequired(c: Collection, req: Request) {
    TrimmedField(req, RequiredFields(c).0) != "" && TrimmedField(req, RequiredFields(c).1) != ""
  }

  /** The hosting `type`: `"Provedor"` when asked for exactly, `"VPS"`
      otherwise. */
  function HostingType(v: JsValue): string {
    ExactOr(v, "Provedor", "VPS")
  }

  /** The domain `status`: `"expirado"` or `"pendente"` when asked for
      exactly, `"ativo"` otherwise. */
  function DomainStatus(v: JsValue): (r: string)
    ensures v == Str("expirado") || v == Str("pendente") ==> Str(r) == v
    ensures !(v == Str("expirado") || v == Str("pendente")) ==> r == "ativo"
  {
    ExactOr(v, "expirado", ExactOr(v, "pendente", "ativo"))
  }

  /** A hosting's own fields. */
  function HostingFields(appId: JsValue, provider: JsValue, ip: JsValue, kind: JsValue, notes: JsValue,
                         region: JsValue): (r: Record)
    ensures "id" !in r && "createdAt" !in r && "updatedAt" !in r
    ensures Get(r, "appId") == appId && Get(r, "provider") == provider && Get(r, "ip") == ip
    ensures Get(r, "type") == kind && Get(r, "notes") == notes && Get(r, "region") == region
  {
    map["appId" := appId, "provider" := provider, "ip" := ip, "type" := kind, "notes" := notes, "region" := region]
  }

  /** A domain's own fields. */
  function DomainFields(appId: JsValue, domain: JsValue, registrar: JsValue, status: JsValue, expiresAt: JsValue)
    : (r: Record)
    ensures "id" !in r && "createdAt" !in r && "updatedAt" !in r
    ensures Get(r, "appId") == appId && Get(r, "domain") == domain && Get(r, "registrar") == registrar
    ensures Get(r, "status") == status && Get(r, "expiresAt") == expiresAt
  {
    map["appId" := appId, "domain" := domain, "registrar" := registrar, "status" := status, "expiresAt" := expiresAt]
  }

  /** An integration's own fields. */
  function IntegrationFields(appId: JsValue, provider: JsValue, integrationName: JsValue, scope: JsValue,
                             secretRefId: JsValue): (r: Record)
    ensures "id" !in r && "createdAt" !in r && "updatedAt" !in r
    ensures Get(r, "appId") == appId && Get(r, "provider") == provider && Get(r, "integrationName") == integrationName
    ensures Get(r, "scope") == scope && Get(r, "secretRefId") == secretRefId
  {
    map["appId" := appId, "provider" := provider, "integrationName" := integrationName, "scope" := scope,
        "secretRefId" := secretRefId]
  }

  /** The record `POST /hostings` stores. */
  function HostingInput(req: Request, appId: string): (r: Record)
    ensures "id" !in r && "createdAt" !in r && "updatedAt" !in r
    ensures Get(r, "appId") == Str(appId)
    ensures Get(r, "provider") == Str(TrimmedField(req, "provider")) && Get(r, "ip") == Str(TrimmedField(req, "ip"))
    ensures Get(r, "type") == Str(HostingType(Field(req, "type")))
    ensures Get(r, "notes") == OptionalText(Field(req, "notes"))
    ensures Get(r, "region") == OptionalText(Field(req, "region"))
  {
    HostingFields(Str(appId), Str(TrimmedField(req, "provider")), Str(TrimmedField(req, "ip")),
                  Str(HostingType(Field(req, "type"))), OptionalText(Field(req, "notes")),
                  OptionalText(Field(req, "region")))
  }

  /** The record `POST /domains` stores. */
  function DomainInput(req: Request, appId: string): (r: Record)
    ensures "id" !in r && "createdAt" !in r && "updatedAt" !in r
    ensures Get(r, "appId") == Str(appId)
    ensures Get(r, "domain") == Str(TrimmedField(req, "domain"))
    ensures Get(r, "registrar") == Str(TrimmedField(req, "registrar"))
    ensures Get(r, "status") == Str(DomainStatus(Field(req, "status")))
    ensures Get(r, "expiresAt") == OptionalText(Field(req, "expiresAt"))
  {
    DomainFields(Str(appId), Str(TrimmedField(req, "domain")), Str(TrimmedField(req, "registrar")),
                 Str(DomainStatus(Field(req, "status"))), OptionalText(Field(req, "expiresAt")))
  }

  /** The record `POST /integrations` stores. */
  function IntegrationInput(req: Request, appId: string): (r: Record)
    ensures "id" !in r && "createdAt" !in r && "updatedAt" !in r
    ensures Get(r, "appId") == Str(appId)
    ensures Get(r, "provider") == Str(TrimmedField(req, "provider"))
    ensures Get(r, "integrationName") == Str(TrimmedField(req, "integrationName"))
    ensures Get(r, "scope") == OptionalText(Field(req, "scope"))
    ensures Get(r, "secretRefId") == OptionalText(Field(req, "secretRefId"))
  {
    IntegrationFields(Str(appId), Str(TrimmedField(req, "provider")), Str(TrimmedField(req, "integrationName")),
                      OptionalText(Field(req, "scope")), OptionalText(Field(req, "secretRefId")))
  }

  /** The record a child create stores: its app and the two required
      fields, trimmed, among the collection's own fields. */
  function ChildInput(c: Collection, req: Request, appId: string): (r: Record)
    requires c != Apps
    ensures "id" !in r && "createdAt" !in r && "updatedAt" !in r
    ensures Get(r, "appId") == Str(appId)
    ensures Get(r, RequiredFields(c).0) == Str(TrimmedField(req, RequiredFields(c).0))
    ensures Get(r, RequiredFields(c).1) == Str(TrimmedField(req, RequiredFields(c).1))
  {
    match c
    case Hostings => HostingInput(req, appId)
    case Domains => DomainInput(req, appId)
    case Integrations => IntegrationInput(req, appId)
  }

  /** `GET /hostings`, `/domains`, `/integrations`: every record for an
      empty `appId`, otherwise exactly the stored records of that app. */
  function ListChildRoute(inv: Inventory, c: Collection, req: Request): (o: Outcome<Inventory, seq<Record>>)
    requires c != Apps
    ensures o.state == inv && o.events == [] && o.reply.Ok? && o.reply.status == 200
    ensures QueryText(req, "appId") == "" ==> o.reply.body == Values(StoreOf(inv, c))
    ensures QueryText(req, "appId") != "" ==> forall x :: x in o.reply.body <==>
      x in Values(StoreOf(inv, c)) && BelongsTo(x, Str(QueryText(req, "appId")))
    ensures QueryText(req, "appId") != "" ==>
      forall x :: multiset(o.reply.body)[x] == (if BelongsTo(x, Str(QueryText(req, "appId"))) then multiset(Values(StoreOf(inv, c)))[x] else 0)
    ensures IsSubsequence(o.reply.body, Values(StoreOf(inv, c)))
  {
    ListByAppInOrder(StoreOf(inv, c), Str(QueryText(req, "appId")));
    Outcome(inv, [], Ok(200, ListIn(inv, c, Str(QueryText(req, "appId")))))
  }

  /** `POST /hostings`, `/domains`, `/integrations`: admin or editor; an
      unknown app is 404 before the required fields are checked. */
  function CreateChildRoute(inv: Inventory, c: Collection, user: AuthUser, req: Request, now: string, random: Random6)
    : (o: Outcome<Inventory, Record>)
    requires c != Apps
    ensures user.role !in Writers ==> o == Refuse(inv, RequireRole(Writers, Some(user), req.path))
    ensures user.role in Writers && !Has(inv.apps, TrimmedField(req, "appId")) ==> o == Reject(inv, Unknown(Apps))
    ensures user.role in Writers && Has(inv.apps, TrimmedField(req, "appId")) && !HasRequired(c, req) ==>
      o == Reject(inv, Validation(RequiredMessage(c)))
    ensures o.reply.Ok? <==> user.role in Writers && Has(inv.apps, TrimmedField(req, "appId")) && HasRequired(c, req)
    ensures o.reply.Ok? ==>
      var id := CreateId(Prefix(c), random);
      && o.reply.status == 201
      && Get(o.reply.body, "id") == Str(id)
      && BelongsTo(o.reply.body, Str(TrimmedField(req, "appId")))
      && (forall k :: k in ChildInput(c, req, TrimmedField(req, "appId")) ==>
            Get(o.reply.body, k) == ChildInput(c, req, TrimmedField(req, "appId"))[k])
      && Find(StoreOf(o.state, c), id) == Some(o.reply.body)
      && (forall k :: k != id ==> Find(StoreOf(o.state, c), k) == Find(StoreOf(inv, c), k))
      && (forall d :: d != c ==> StoreOf(o.state, d) == StoreOf(inv, d))
      && o.events == [ItemEvent(user, Audit.Create, c, Str(id))]
    ensures !o.reply.Ok? ==> o.state == inv
  {
    var gate := RequireRole(Writers, Some(user), req.path);
    if gate.Deny? then Refuse(inv, gate)
    else
      var appId := TrimmedField(req, "appId");
      if !Has(inv.apps, appId) then Reject(inv, Unknown(Apps))
      else if !HasRequired(c, req) then Reject(inv, Validation(RequiredMessage(c)))
      else
        var (inv', item) := CreateIn(inv, c, ChildInput(c, req, appId), now, random);
        Outcome(inv', [ItemEvent(user, Audit.Create, c, Get(item, "id"))], Ok(201, item))
  }

  /** `PUT /hostings/:id`, `/domains/:id`, `/integrations/:id` as written:
      the whole body is spread over the record, so a body `id` replaces
      the stored one, and the audit names the body's id. */
  function UpdateChildRouteAsWritten(inv: Inventory, c: Collection, user: AuthUser, req: Request, now: string)
    : (o: Outcome<Inventory, Record>)
    requires c != Apps
    ensures user.role !in Writers ==> o == Refuse(inv, RequireRole(Writers, Some(user), req.path))
    ensures user.role in Writers && !Has(StoreOf(inv, c), PathId(req)) ==> o == Reject(inv, Unknown(c))
    ensures o.reply.Ok? <==> user.role in Writers && Has(StoreOf(inv, c), PathId(req))
    ensures o.reply.Ok? ==>
      var prev := StoreOf(inv, c).entries[PathId(req)];
      && o.reply.status == 200
      && Find(StoreOf(o.state, c), PathId(req)) == Some(o.reply.body)
      && Get(o.reply.body, "updatedAt") == Str(now)
      && (forall k :: k in BodyPatch(req) && k != "updatedAt" ==> Get(o.reply.body, k) == BodyPatch(req)[k])
      && (forall k :: k !in BodyPatch(req) && k != "updatedAt" ==> Get(o.reply.body, k) == Get(prev, k))
      && (forall k :: k != PathId(req) ==> Find(StoreOf(o.state, c), k) == Find(StoreOf(inv, c), k))
      && (forall d :: d != c ==> StoreOf(o.state, d) == StoreOf(inv, d))
      && o.events == [ItemEvent(user, Audit.Update, c, Get(o.reply.body, "id"))]
    ensures !o.reply.Ok? ==> o.state == inv
  {
    var gate := RequireRole(Writers, Some(user), req.path);
    if gate.Deny? then Refuse(inv, gate)
    else
      match UpdateIn(inv, c, PathId(req), BodyPatch(req), now)
      case None => Reject(inv, Unknown(c))
      case Some((inv', item)) => Outcome(inv', [ItemEvent(user, Audit.Update, c, Get(item, "id"))], Ok(200, item))
  }

  /** The child update as evidently intended: identity and creation
      instant cannot be overwritten, and the audit names the path id. */
  function UpdateChildRoute(inv: Inventory, c: Collection, user: AuthUser, req: Request, now: string)
    : (o: Outcome<Inventory, Record>)
    requires c != Apps
    ensures user.role !in Writers ==> o == Refuse(inv, RequireRole(Writers, Some(user), req.path))
    ensures user.role in Writers && !Has(StoreOf(inv, c), PathId(req)) ==> o == Reject(inv, Unknown(c))
    ensures o.reply.Ok? <==> user.role in Writers && Has(StoreOf(inv, c), PathId(req))
    ensures o.reply.Ok? ==>
      var prev := StoreOf(inv, c).entries[PathId(req)];
      && o.reply.status == 200
      && Find(StoreOf(o.state, c), PathId(req)) == Some(o.reply.body)
      && Get(o.reply.body, "id") == Get(prev, "id")
      && Get(o.reply.body, "createdAt") == Get(prev, "createdAt")
      && Get(o.reply.body, "updatedAt") == Str(now)
      && (forall k :: k in BodyPatch(req) && k !in ["id", "createdAt", "updatedAt"] ==>
            Get(o.reply.body, k) == BodyPatch(req)[k])
      && (forall k :: k !in BodyPatch(req) && k != "updatedAt" ==> Get(o.reply.body, k) == Get(prev, k))
      && (forall k :: k != PathId(req) ==> Find(StoreOf(o.state, c), k) == Find(StoreOf(inv, c), k))
      && (forall d :: d != c ==> StoreOf(o.state, d) == StoreOf(inv, d))
      && o.events == [ItemEvent(user, Audit.Update, c, Get(prev, "id"))]
    ensures !o.reply.Ok? ==> o.state == inv
  {
    var gate := RequireRole(Writers, Some(user), req.path);
    if gate.Deny? then Refuse(inv, gate)
    else
      match UpdateIn(inv, c, PathId(req), Editable(BodyPatch(req)), now)
      case None => Reject(inv, Unknown(c))
      case Some((inv', item)) => Outcome(inv', [ItemEvent(user, Audit.Update, c, Get(item, "id"))], Ok(200, item))
  }

  /** As written, a body carrying another `id` leaves the record under a
      key that is not its id, and the audit records the body's id instead
      of the edited one. */
  lemma UpdateChildWithIdBreaksConsistency(inv: Inventory, c: Collection, user: AuthUser, req: Request, now: string,
                                           other: string)
    requires c != Apps && user.role in Writers && Has(StoreOf(inv, c), PathId(req))
    requires req.body == Obj(map["id" := Str(other)]) && other != PathId(req)
    ensures !Consistent(UpdateChildRouteAsWritten(inv, c, user, req, now).state)
    ensures UpdateChildRouteAsWritten(inv, c, user, req, now).events == [ItemEvent(user, Audit.Update, c, Str(other))]
  {
    var id := PathId(req);
    UpdateWithIdBreaksKeyedById(StoreOf(inv, c), id, BodyPatch(req), now);
  }

  /** `DELETE /hostings/:id`, `/domains/:id`, `/integrations/:id`: admin
      only; an unknown id is 404 with no event. */
  function DeleteChildRoute(inv: Inventory, c: Collection, user: AuthUser, req: Request): (o: Outcome<Inventory, ()>)
    requires c != Apps
    ensures user.role != Admin ==> o == Refuse(inv, RequireRole(Admins, Some(user), req.path))
    ensures user.role == Admin && !Has(StoreOf(inv, c), PathId(req)) ==> o == Reject(inv, Unknown(c))
    ensures o.reply.Ok? <==> user.role == Admin && Has(StoreOf(inv, c), PathId(req))
    ensures o.reply.Ok? ==>
      && o.reply.status == 204
      && !Has(StoreOf(o.state, c), PathId(req))
      && (forall k :: k != PathId(req) ==> Find(StoreOf(o.state, c), k) == Find(StoreOf(inv, c), k))
      && (forall d :: d != c ==> StoreOf(o.state, d) == StoreOf(inv, d))
      && o.events == [ItemEvent(user, Audit.Delete, c, Str(PathId(req)))]
    ensures !o.reply.Ok? ==> o.state == inv
  {
    var gate := RequireRole(Admins, Some(user), req.path);
    if gate.Deny? then Refuse(inv, gate)
    else
      var (inv', ok) := DeleteIn(inv, c, PathId(req));
      if !ok then Reject(inv, Unknown(c))
      else Outcome(inv', [ItemEvent(user, Audit.Delete, c, Str(PathId(req)))], Ok(204, ()))
  }

  // ---------------------------------------------------------------- across routes

  /** A created child is listed under its app. */
  lemma CreatedChildIsListed(inv: Inventory, c: Collection, user: AuthUser, req: Request, now: string,
                             random: Random6, path: string)
    requires c != Apps
    requires CreateChildRoute(inv, c, user, req, now, random).reply.Ok?
    ensures var o := CreateChildRoute(inv, c, user, req, now, random);
      o.reply.body in ListChildRoute(o.state, c, ForApp(path, TrimmedField(req, "appId"))).reply.body
  {
    var o := CreateChildRoute(inv, c, user, req, now, random);
    var appId := TrimmedField(req, "appId");
    var trimmed := Trim(AsString(Str(appId)));
    assert trimmed == appId by { TrimIdempotent(StringOrEmpty(Field(req, "appId"))); }
    InValues(StoreOf(o.state, c), o.reply.body);
    assert Find(StoreOf(o.state, c), CreateId(Prefix(c), random)) == Some(o.reply.body);
  }

  /** The listing keeps insertion order: a new child comes last among its
      app's. */
  lemma CreatedChildIsListedLast(inv: Inventory, c: Collection, user: AuthUser, req: Request, now: string,
                                 random: Random6, path: string)
    requires c != Apps
    requires CreateChildRoute(inv, c, user, req, now, random).reply.Ok?
    requires !Has(StoreOf(inv, c), CreateId(Prefix(c), random))
    ensures var o := CreateChildRoute(inv, c, user, req, now, random);
      var q := ForApp(path, TrimmedField(req, "appId"));
      ListChildRoute(o.state, c, q).reply.body == ListChildRoute(inv, c, q).reply.body + [o.reply.body]
  {
    var o := CreateChildRoute(inv, c, user, req, now, random);
    var appId := TrimmedField(req, "appId");
    assert Trim(AsString(Str(appId))) == appId by { TrimIdempotent(StringOrEmpty(Field(req, "appId"))); }
    assert StoreOf(o.state, c) == Set(StoreOf(inv, c), CreateId(Prefix(c), random), o.reply.body);
    ListByAppAfterInsert(StoreOf(inv, c), CreateId(Prefix(c), random), o.reply.body, Str(appId));
  }

  /** After an app is deleted, none of its children is listed. */
  lemma DeletedAppHasNoChildren(inv: Inventory, user: AuthUser, req: Request, c: Collection, path: string)
    requires user.role == Admin && c != Apps && PathId(req) != "" && NoWhitespace(PathId(req))
    ensures ListChildRoute(DeleteAppRoute(inv, user, req).state, c, ForApp(path, PathId(req))).reply.body == []
  {
    var id := PathId(req);
    ForAppQuery(path, id);
    assert Str(id + "_") != Str(id) by { assert |id + "_"| != |id|; }
    DeleteAppOrphansNothing(inv, id, c, Str(id + "_"));
    assert DeleteAppRoute(inv, user, req).state == DeleteApp(inv, id).0;
  }

  /** A reader can change nothing: every writing route refuses with 403,
      audits the refusal, and leaves the inventory as it was. */
  lemma ReaderCannotWriteApps(inv: Inventory, user: AuthUser, req: Request, now: string, random: Random6)
    requires user.role == Leitor
    ensures CreateAppRoute(inv, user, req, now, random) == Refuse(inv, RequireRole(Writers, Some(user), req.path))
    ensures UpdateAppRoute(inv, user, req, now) == Refuse(inv, RequireRole(Writers, Some(user), req.path))
    ensures DeleteAppRoute(inv, user, req) == Refuse(inv, RequireRole(Admins, Some(user), req.path))
    ensures RequireRole(Writers, Some(user), req.path).error.statusCode == 403
  {
  }

  lemma ReaderCannotWriteChildren(inv: Inventory, c: Collection, user: AuthUser, req: Request, now: string,
                                  random: Random6)
    requires user.role == Leitor && c != Apps
    ensures CreateChildRoute(inv, c, user, req, now, random) == Refuse(inv, RequireRole(Writers, Some(user), req.path))
    ensures UpdateChildRoute(inv, c, user, req, now) == Refuse(inv, RequireRole(Writers, Some(user), req.path))
    ensures DeleteChildRoute(inv, c, user, req) == Refuse(inv, RequireRole(Admins, Some(user), req.path))
  {
  }

  /** The writing routes keep every record under its own id. */
  lemma CreateRoutesKeepConsistent(inv: Inventory, c: Collection, user: AuthUser, req: Request, now: string,
                                   random: Random6)
    requires Consistent(inv) && c != Apps
    ensures Consistent(CreateAppRoute(inv, user, req, now, random).state)
    ensures Consistent(CreateChildRoute(inv, c, user, req, now, random).state)
  {
    if CreateAppRoute(inv, user, req, now, random).reply.Ok? {
      CreateKeepsConsistent(inv, Apps, AppInput(req), now, random);
    }
    if CreateChildRoute(inv, c, user, req, now, random).reply.Ok? {
      CreateKeepsConsistent(inv, c, ChildInput(c, req, TrimmedField(req, "appId")), now, random);
    }
  }

  lemma UpdateRoutesKeepConsistent(inv: Inventory, c: Collection, user: AuthUser, req: Request, now: string)
    requires Consistent(inv) && c != Apps
    ensures Consistent(UpdateAppRoute(inv, user, req, now).state)
    ensures Consistent(UpdateAppRouteAsWritten(inv, user, req, now).state)
    ensures Consistent(UpdateChildRoute(inv, c, user, req, now).state)
  {
    UpdateKeepsConsistent(inv, Apps, PathId(req), AppPatch(req), now);
    UpdateKeepsConsistent(inv, Apps, PathId(req), AppPatchAsWritten(req), now);
    UpdateKeepsConsistent(inv, c, PathId(req), Editable(BodyPatch(req)), now);
  }

  lemma DeleteRoutesKeepConsistent(inv: Inventory, c: Collection, user: AuthUser, req: Request)
    requires Consistent(inv) && c != Apps
    ensures Consistent(DeleteAppRoute(inv, user, req).state)
    ensures Consistent(DeleteChildRoute(inv, c, user, req).state)
  {
    DeleteAppKeepsConsistent(inv, PathId(req));
    DeleteKeepsConsistent(inv, c, PathId(req));
  }
}
