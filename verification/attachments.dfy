/** The documents attached to an app: the store
    (apps/backend/src/modules/attachments/attachments.store.ts) and its
    routes (attachments.routes.ts). An attachment records a file's name,
    type, size and storage path; unlike the other stores it keeps no
    update instant and has no edit route. The storage path's timestamp is
    the clock reading in milliseconds, a parameter. */
module Attachments {
  import opened Wrappers
  import opened Text
  import opened Js
  import opened OrderedMap
  import opened Ids
  import opened HttpTypes
  import opened Errors
  import Audit
  import opened Routing
  import opened AuthMiddleware
  import opened RecordStore

  const Prefix: string := "att"
  const Resource: string := "attachments"
  const UnknownApp: HttpError := NotFound("App nao encontrado")
  const NoSuchAttachment: HttpError := NotFound("Anexo nao encontrado")
  const MissingFields: HttpError := Validation("fileName, mimeType e sizeBytes sao obrigatorios")
  const TooLarge: HttpError := Validation("Arquivo excede limite de 15MB")
  const MimeRefused: HttpError := Validation("mimeType nao permitido")

  /** 15 MiB. */
  const MaxBytes: int := 15 * 1024 * 1024

  /** The accepted media types. */
  const AllowedMime: seq<string> := ["application/pdf", "text/plain", "image/png", "image/jpeg"]

  /** `Number(req.body?.sizeBytes ?? 0)`. */
  function SizeOf(req: Request): (r: JsValue)
    ensures r.Num? || r.NaN?
    ensures Field(req, "sizeBytes").Num? ==> r == Field(req, "sizeBytes")
    ensures IsNullish(Field(req, "sizeBytes")) ==> r == Num(0)
  {
    ToNumber(Coalesce(Field(req, "sizeBytes"), Num(0)))
  }

  /** `sizeBytes <= 0`: a comparison with `NaN` is false. */
  predicate NotPositive(size: JsValue) {
    size.Num? && size.n <= 0
  }

  /** `sizeBytes > 15 * 1024 * 1024`: false for `NaN` as well. */
  predicate OverLimit(size: JsValue) {
    size.Num? && size.n > MaxBytes
  }

  /** `storagePath`: `documents/<appId>/<ms>_<fileName>`, each whitespace
      run of the file name replaced by one underscore. */
  function StoragePath(appId: string, nowMs: int, fileName: string): string {
    "documents" + "/" + (appId + "/" + (IntToString(nowMs) + "_" + UnderscoreWhitespace(fileName)))
  }

  /** The path names its folder, app and stamped file as separate
      segments when neither the app id nor the file name holds a slash,
      and the stamped file name holds no whitespace. */
  lemma StoragePathSegments(appId: string, nowMs: nat, fileName: string)
    requires '/' !in appId && '/' !in fileName
    ensures Split(StoragePath(appId, nowMs, fileName), '/') ==
      ["documents", appId, NatToString(nowMs) + "_" + UnderscoreWhitespace(fileName)]
    ensures NoWhitespace(Split(StoragePath(appId, nowMs, fileName), '/')[2])
  {
    var stamp := NatToString(nowMs);
    var file := stamp + "_" + UnderscoreWhitespace(fileName);
    UnderscoreNoSlash(fileName);
    StampFree(stamp);
    assert '/' !in file;
    ThreeSegments("documents", appId, file);
  }

  /** A decimal stamp holds neither a slash nor whitespace. */
  lemma StampFree(stamp: string)
    requires AllDigits(stamp)
    ensures '/' !in stamp && NoWhitespace(stamp)
  {
    forall i | 0 <= i < |stamp|
      ensures stamp[i] != '/' && !IsWhitespace(stamp[i])
    {
      assert IsDigit(stamp[i]);
    }
  }

  lemma ThreeSegments(a: string, b: string, c: string)
    requires '/' !in a && '/' !in b && '/' !in c
    ensures Split(a + "/" + (b + "/" + c), '/') == [a, b, c]
  {
    SplitWithoutSeparator(c, '/');
    SplitAtFirstSeparator(b, '/', c);
    SplitAtFirstSeparator(a, '/', b + ['/'] + c);
  }

  /** Replacing whitespace adds no slash. */
  lemma {:induction false} UnderscoreNoSlash(s: string)
    requires '/' !in s
    ensures '/' !in UnderscoreWhitespace(s)
    decreases |s|
  {
    if |s| > 0 {
      if IsWhitespace(s[0]) {
        var rest := s[LeadingWhitespace(s)..];
        assert forall c :: c in rest ==> c in s;
        UnderscoreNoSlash(rest);
      } else {
        assert forall c :: c in s[1..] ==> c in s;
        UnderscoreNoSlash(s[1..]);
      }
    }
  }

  /** An attachment's own fields, before the store adds its id and
      creation instant. */
  function AttachmentFields(appId: JsValue, fileName: JsValue, mimeType: JsValue, sizeBytes: JsValue,
                            storagePath: JsValue, uploadedBy: JsValue, content: JsValue): (r: Record)
    ensures "id" !in r && "createdAt" !in r && "updatedAt" !in r
    ensures Get(r, "appId") == appId && Get(r, "fileName") == fileName && Get(r, "mimeType") == mimeType
    ensures Get(r, "sizeBytes") == sizeBytes && Get(r, "storagePath") == storagePath
    ensures Get(r, "uploadedBy") == uploadedBy && Get(r, "fileContentBase64") == content
  {
    map["appId" := appId, "fileName" := fileName, "mimeType" := mimeType, "sizeBytes" := sizeBytes,
        "storagePath" := storagePath, "uploadedBy" := uploadedBy, "fileContentBase64" := content]
  }

  /** `typeof req.body?.fileContentBase64 === "string" ? … : undefined`. */
  function Content(v: JsValue): (r: JsValue)
    ensures v.Str? ==> r == v
    ensures !v.Str? ==> r == Undefined
  {
    if v.Str? then v else Undefined
  }

  /** The record `POST /attachments` stores: trimmed names, the size as a
      number, the storage path, the uploader's email and the optional
      base64 content. */
  function AttachmentInput(req: Request, user: AuthUser, appId: string, nowMs: int): (r: Record)
    ensures "id" !in r && "createdAt" !in r && "updatedAt" !in r
    ensures Get(r, "appId") == Str(appId)
    ensures Get(r, "fileName") == Str(TrimmedField(req, "fileName"))
    ensures Get(r, "mimeType") == Str(TrimmedField(req, "mimeType"))
    ensures Get(r, "sizeBytes") == SizeOf(req)
    ensures Get(r, "storagePath") == Str(StoragePath(appId, nowMs, TrimmedField(req, "fileName")))
    ensures Get(r, "uploadedBy") == Str(user.email)
    ensures Get(r, "fileContentBase64") == Content(Field(req, "fileContentBase64"))
  {
    AttachmentFields(Str(appId), Str(TrimmedField(req, "fileName")), Str(TrimmedField(req, "mimeType")), SizeOf(req),
                     Str(StoragePath(appId, nowMs, TrimmedField(req, "fileName"))), Str(user.email),
                     Content(Field(req, "fileContentBase64")))
  }

  /** The audit input of a mutation of one attachment. */
  function AttachmentEvent(user: AuthUser, action: Audit.Action, id: JsValue): Audit.AuditInput {
    ActorEvent(user, action, Resource, id)
  }

  /** The first failing body check of a create, given how the size test
      treats the parsed size: missing fields (with `tooSmall`), then the
      limit, then the media type. */
  function BodyError(req: Request, tooSmall: bool): (r: Option<HttpError>)
    ensures r.None? <==>
      TrimmedField(req, "fileName") != "" && TrimmedField(req, "mimeType") != "" && !tooSmall
      && !OverLimit(SizeOf(req)) && TrimmedField(req, "mimeType") in AllowedMime
    ensures TrimmedField(req, "fileName") == "" || TrimmedField(req, "mimeType") == "" || tooSmall ==>
      r == Some(MissingFields)
  {
    var fileName := TrimmedField(req, "fileName");
    var mimeType := TrimmedField(req, "mimeType");
    if fileName == "" || mimeType == "" || tooSmall then Some(MissingFields)
    else if OverLimit(SizeOf(req)) then Some(TooLarge)
    else if mimeType !in AllowedMime then Some(MimeRefused)
    else None
  }

  /** Storing an accepted upload: the record under a fresh `att` id with
      its creation instant and no update instant. */
  function Upload(atts: Store, user: AuthUser, req: Request, appId: string, now: string, nowMs: int, random: Random6)
    : (r: (Store, Record))
    ensures var (atts', item) := r;
      var input := AttachmentInput(req, user, appId, nowMs);
      && Get(item, "id") == Str(CreateId(Prefix, random))
      && Get(item, "createdAt") == Str(now)
      && "updatedAt" !in item
      && (forall k :: k in input ==> Get(item, k) == input[k])
      && Find(atts', CreateId(Prefix, random)) == Some(item)
      && (forall k :: k != CreateId(Prefix, random) ==> Find(atts', k) == Find(atts, k))
  {
    Insert(atts, Prefix, AttachmentInput(req, user, appId, nowMs), now, random, false)
  }

  /** `POST /attachments` with the given size test: admin or editor; an
      unknown app is 404 before the body is checked. */
  function CreateWith(atts: Store, apps: Store, user: AuthUser, req: Request, tooSmall: bool, now: string,
                      nowMs: int, random: Random6): (o: Outcome<Store, Record>)
    ensures user.role !in Writers ==> o == Refuse(atts, RequireRole(Writers, Some(user), req.path))
    ensures user.role in Writers && !Has(apps, TrimmedField(req, "appId")) ==> o == Reject(atts, UnknownApp)
    ensures user.role in Writers && Has(apps, TrimmedField(req, "appId")) && BodyError(req, tooSmall).Some? ==>
      o == Reject(atts, BodyError(req, tooSmall).value)
    ensures o.reply.Ok? <==>
      user.role in Writers && Has(apps, TrimmedField(req, "appId")) && BodyError(req, tooSmall).None?
    ensures o.reply.Ok? ==>
      var id := CreateId(Prefix, random);
      var input := AttachmentInput(req, user, TrimmedField(req, "appId"), nowMs);
      && o.reply.status == 201
      && Get(o.reply.body, "id") == Str(id)
      && Get(o.reply.body, "createdAt") == Str(now)
      && "updatedAt" !in o.reply.body
      && (forall k :: k in input ==> Get(o.reply.body, k) == input[k])
      && Find(o.state, id) == Some(o.reply.body)
      && (forall k :: k != id ==> Find(o.state, k) == Find(atts, k))
      && o.events == [AttachmentEvent(user, Audit.Create, Str(id))]
    ensures !o.reply.Ok? ==> o.state == atts
  {
    var gate := RequireRole(Writers, Some(user), req.path);
    if gate.Deny? then Refuse(atts, gate)
    else
      var appId := TrimmedField(req, "appId");
      if !Has(apps, appId) then Reject(atts, UnknownApp)
      else
        match BodyError(req, tooSmall)
        case Some(e) => Reject(atts, e)
        case None =>
          var (atts', item) := Upload(atts, user, req, appId, now, nowMs, random);
          Outcome(atts', [AttachmentEvent(user, Audit.Create, Get(item, "id"))], Ok(201, item))
  }

  /** `POST /attachments` as written: `sizeBytes <= 0` lets `NaN`
      through. */
  function CreateRouteAsWritten(atts: Store, apps: Store, user: AuthUser, req: Request, now: string, nowMs: int,
                                random: Random6): (o: Outcome<Store, Record>)
    ensures o.reply.Ok? <==>
      user.role in Writers && Has(apps, TrimmedField(req, "appId")) && BodyError(req, NotPositive(SizeOf(req))).None?
    ensures o.reply.Ok? ==> Get(o.reply.body, "sizeBytes") == SizeOf(req)
  {
    CreateWith(atts, apps, user, req, NotPositive(SizeOf(req)), now, nowMs, random)
  }

  /** `POST /attachments` as evidently intended: the size must be a
      positive number, so `NaN` is refused like a missing size. */
  function CreateRoute(atts: Store, apps: Store, user: AuthUser, req: Request, now: string, nowMs: int,
                       random: Random6): (o: Outcome<Store, Record>)
    ensures o.reply.Ok? <==>
      (user.role in Writers && Has(apps, TrimmedField(req, "appId"))
       && BodyError(req, !(SizeOf(req).Num? && SizeOf(req).n > 0)).None?)
    ensures o.reply.Ok? ==> Get(o.reply.body, "sizeBytes") == SizeOf(req)
  {
    CreateWith(atts, apps, user, req, !(SizeOf(req).Num? && SizeOf(req).n > 0), now, nowMs, random)
  }

  /** Every size the corrected route stores is a whole number of bytes
      between 1 and 15 MiB, and the media type is one of the four. */
  lemma CreatedSizeInRange(atts: Store, apps: Store, user: AuthUser, req: Request, now: string, nowMs: int,
                           random: Random6)
    requires CreateRoute(atts, apps, user, req, now, nowMs, random).reply.Ok?
    ensures var item := CreateRoute(atts, apps, user, req, now, nowMs, random).reply.body;
      && Get(item, "sizeBytes").Num? && 0 < Get(item, "sizeBytes").n <= MaxBytes
      && Get(item, "mimeType").Str? && Get(item, "mimeType").s in AllowedMime
  {
    var input := AttachmentInput(req, user, TrimmedField(req, "appId"), nowMs);
    assert "mimeType" in input;
  }

  /** A request naming an app, file and type, with the given size. */
  function UploadOf(appId: string, size: JsValue): Request {
    Request("/attachments", map[], map[],
            Obj(map["appId" := Str(appId), "fileName" := Str("a.pdf"), "mimeType" := Str("application/pdf"),
                    "sizeBytes" := size]))
  }

  lemma UploadFields(appId: string, size: JsValue)
    requires NoWhitespace(appId)
    ensures TrimmedField(UploadOf(appId, size), "appId") == appId
    ensures TrimmedField(UploadOf(appId, size), "fileName") == "a.pdf"
    ensures TrimmedField(UploadOf(appId, size), "mimeType") == "application/pdf"
    ensures SizeOf(UploadOf(appId, size)) == ToNumber(Coalesce(size, Num(0)))
  {
    var req := UploadOf(appId, size);
    assert Field(req, "appId") == Str(appId);
    assert Field(req, "fileName") == Str("a.pdf");
    assert Field(req, "mimeType") == Str("application/pdf");
    assert Field(req, "sizeBytes") == size;
    TrimNoWhitespace(appId);
    TrimmedLiterals();
  }

  lemma TrimmedLiterals()
    ensures Trim("a.pdf") == "a.pdf" && Trim("application/pdf") == "application/pdf" && Trim("abc") == "abc"
  {
    TrimmedLiteral("abc");
    TrimmedLiteral("a.pdf");
    TrimmedLiteral("application/pdf");
  }

  lemma TrimmedLiteral(s: string)
    requires s == "abc" || s == "a.pdf" || s == "application/pdf"
    ensures Trim(s) == s
  {
    forall i | 0 <= i < |s|
      ensures !IsWhitespace(s[i])
    {
      assert '!' <= s[i] <= '~';
    }
    TrimNoWhitespace(s);
  }

  /** As written, a size of `"abc"` is accepted and `NaN` is stored as the
      file's size; the corrected route refuses it with the missing-fields
      400. */
  lemma TextSizeAccepted(atts: Store, apps: Store, user: AuthUser, appId: string, now: string, nowMs: int,
                         random: Random6)
    requires user.role in Writers && Has(apps, appId) && NoWhitespace(appId)
    ensures var o := CreateRouteAsWritten(atts, apps, user, UploadOf(appId, Str("abc")), now, nowMs, random);
      o.reply.Ok? && Get(o.reply.body, "sizeBytes") == NaN
    ensures CreateRoute(atts, apps, user, UploadOf(appId, Str("abc")), now, nowMs, random).reply
      == Fail(Http(MissingFields))
  {
    UploadFields(appId, Str("abc"));
    TextIsNaN();
  }

  /** `Number("abc")` is `NaN`. */
  lemma TextIsNaN()
    ensures ToNumber(Coalesce(Str("abc"), Num(0))) == NaN
  {
    TrimmedLiterals();
    assert !IsDigit("abc"[0]);
    assert !AllDigits("abc");
  }

  /** The limit is inclusive: exactly 15 MiB is accepted, one byte more is
      refused. */
  lemma LimitIsInclusive(atts: Store, apps: Store, user: AuthUser, appId: string, now: string, nowMs: int,
                         random: Random6)
    requires user.role in Writers && Has(apps, appId) && NoWhitespace(appId)
    ensures CreateRoute(atts, apps, user, UploadOf(appId, Num(MaxBytes)), now, nowMs, random).reply.Ok?
    ensures CreateRoute(atts, apps, user, UploadOf(appId, Num(MaxBytes + 1)), now, nowMs, random).reply
      == Fail(Http(TooLarge))
  {
    LimitAccepted(atts, apps, user, appId, now, nowMs, random);
    LimitExceeded(atts, apps, user, appId, now, nowMs, random);
  }

  lemma LimitAccepted(atts: Store, apps: Store, user: AuthUser, appId: string, now: string, nowMs: int,
                      random: Random6)
    requires user.role in Writers && Has(apps, appId) && NoWhitespace(appId)
    ensures CreateRoute(atts, apps, user, UploadOf(appId, Num(MaxBytes)), now, nowMs, random).reply.Ok?
  {
    UploadFields(appId, Num(MaxBytes));
  }

  lemma LimitExceeded(atts: Store, apps: Store, user: AuthUser, appId: string, now: string, nowMs: int,
                      random: Random6)
    requires user.role in Writers && Has(apps, appId) && NoWhitespace(appId)
    ensures CreateRoute(atts, apps, user, UploadOf(appId, Num(MaxBytes + 1)), now, nowMs, random).reply
      == Fail(Http(TooLarge))
  {
    UploadFields(appId, Num(MaxBytes + 1));
  }

  /** The app check comes first: for an unknown app the answer is 404 even
      when the body is empty. */
  lemma UnknownAppBeforeBody(atts: Store, apps: Store, user: AuthUser, req: Request, now: string, nowMs: int,
                             random: Random6)
    requires user.role in Writers && !Has(apps, TrimmedField(req, "appId"))
    ensures CreateRoute(atts, apps, user, req, now, nowMs, random).reply == Fail(Http(UnknownApp))
    ensures CreateRouteAsWritten(atts, apps, user, req, now, nowMs, random).reply == Fail(Http(UnknownApp))
  {
  }

  /** `GET /attachments`: every attachment for an empty `appId`, otherwise
      exactly those of that app. */
  function ListRoute(atts: Store, req: Request): Outcome<Store, seq<Record>> {
    ListStoreRoute(atts, req)
  }

  /** `DELETE /attachments/:id`: admin or editor; an unknown id is 404
      with no event. */
  function DeleteRoute(atts: Store, user: AuthUser, req: Request): (o: Outcome<Store, ()>)
    ensures user.role !in Writers ==> o == Refuse(atts, RequireRole(Writers, Some(user), req.path))
    ensures user.role in Writers && !Has(atts, PathId(req)) ==> o == Reject(atts, NoSuchAttachment)
    ensures o.reply.Ok? <==> user.role in Writers && Has(atts, PathId(req))
    ensures o.reply.Ok? ==>
      && o.reply.status == 204
      && !Has(o.state, PathId(req))
      && (forall k :: k != PathId(req) ==> Find(o.state, k) == Find(atts, k))
      && o.events == [AttachmentEvent(user, Audit.Delete, Str(PathId(req)))]
    ensures !o.reply.Ok? ==> o.state == atts
  {
    var gate := RequireRole(Writers, Some(user), req.path);
    if gate.Deny? then Refuse(atts, gate)
    else
      var (atts', ok) := Remove(atts, PathId(req));
      if !ok then Reject(atts, NoSuchAttachment)
      else Outcome(atts', [AttachmentEvent(user, Audit.Delete, Str(PathId(req)))], Ok(204, ()))
  }

  /** A created attachment is listed under its app. */
  lemma CreatedIsListed(atts: Store, apps: Store, user: AuthUser, req: Request, now: string, nowMs: int,
                        random: Random6, path: string)
    requires CreateRoute(atts, apps, user, req, now, nowMs, random).reply.Ok?
    requires NoWhitespace(TrimmedField(req, "appId"))
    ensures var o := CreateRoute(atts, apps, user, req, now, nowMs, random);
      o.reply.body in ListRoute(o.state, ForApp(path, TrimmedField(req, "appId"))).reply.body
  {
    var o := CreateRoute(atts, apps, user, req, now, nowMs, random);
    ForAppQuery(path, TrimmedField(req, "appId"));
    StoredIsListed(o.state, CreateId(Prefix, random), o.reply.body, Str(TrimmedField(req, "appId")));
  }

  /** A reader can neither upload nor delete. */
  lemma ReaderCannotWrite(atts: Store, apps: Store, user: AuthUser, req: Request, now: string, nowMs: int,
                          random: Random6)
    requires user.role == Leitor
    ensures CreateRoute(atts, apps, user, req, now, nowMs, random).state == atts
    ensures DeleteRoute(atts, user, req).state == atts
    ensures DeleteRoute(atts, user, req).reply == Fail(Http(Forbidden(NoPermission)))
  {
  }

  /** Uploading and deleting keep every attachment under its own id. */
  lemma RoutesKeepKeyedById(atts: Store, apps: Store, user: AuthUser, req: Request, now: string, nowMs: int,
                            random: Random6)
    requires KeyedById(atts)
    ensures KeyedById(CreateRoute(atts, apps, user, req, now, nowMs, random).state)
    ensures KeyedById(DeleteRoute(atts, user, req).state)
  {
    if CreateRoute(atts, apps, user, req, now, nowMs, random).reply.Ok? {
      InsertKeepsKeyedById(atts, Prefix, AttachmentInput(req, user, TrimmedField(req, "appId"), nowMs), now, random,
                           false);
    }
    RemoveKeepsKeyedById(atts, PathId(req));
  }
}
