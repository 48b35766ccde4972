/** The system users routes (apps/backend/src/modules/users/users.routes.ts):
    admin-only management of the accounts kept by Supabase Auth. The
    remote admin API is not modelled; each route records the call it makes
    (the state is the list of calls issued so far) and takes the remote
    answer as a parameter. Whether a Supabase service client is configured
    is a parameter too. */
module Users {
  import opened Wrappers
  import opened Text
  import opened Js
  import opened HttpTypes
  import opened Errors
  import Audit
  import opened Routing
  import opened AuthMiddleware

  const Resource: string := "users"
  const NotConfigured: HttpError :=
    HttpError(400, "Operacao disponivel apenas com Supabase configurado", "CONFIG_ERROR")
  const InvalidRole: HttpError := Validation("role invalido")
  const MissingFields: HttpError := Validation("email, name e password sao obrigatorios")
  const InvalidId: HttpError := Validation("id invalido")
  const NothingToUpdate: HttpError := Validation("Nenhum campo para atualizar")
  const SelfDelete: HttpError := Validation("Nao e permitido excluir o proprio usuario logado")

  /** An error reported by the remote admin API, with the given status. */
  function RemoteError(status: int, message: string): HttpError {
    HttpError(status, message, "SUPABASE_ERROR")
  }

  /** The fields `PUT /users/:id` may send; an absent field is not sent. */
  datatype UserPatch = UserPatch(email: Option<string>, password: Option<string>, role: Option<Role>,
                                 name: Option<string>)

  /** A call to the remote admin API. */
  datatype AdminCall =
    | ListUsers
    | CreateUser(email: string, password: string, role: Role, name: string)
    | UpdateUser(id: string, patch: UserPatch)
    | DeleteUser(id: string)

  /** What the remote API answers: the user (or users) it returns, and the
      message of its error, if any. */
  datatype UserAnswer = UserAnswer(user: Option<Record>, error: Option<string>)
  datatype ListAnswer = ListAnswer(users: Option<seq<Record>>, error: Option<string>)

  /** The account as the routes return it. */
  datatype SystemUser = SystemUser(id: string, email: string, name: string, role: Role, emailConfirmed: bool,
                                   createdAt: string, lastSignInAt: Option<string>)

  // ---------------------------------------------------------------- roles

  /** A value read as a role: one of the three names, `leitor` otherwise. */
  function RoleOf(v: JsValue): (r: Role)
    ensures v.Str? && ParseRoleName(v.s).Some? ==> r == ParseRoleName(v.s).value
    ensures !(v.Str? && ParseRoleName(v.s).Some?) ==> r == Leitor
  {
    if v.Str? && ParseRoleName(v.s).Some? then ParseRoleName(v.s).value else Leitor
  }

  /** `roleFromMeta`: the app metadata's role, else the user metadata's,
      else `leitor`. The first one present decides: an unknown role in the
      app metadata gives `leitor` without looking at the user metadata. */
  function RoleFromMeta(appMeta: JsValue, userMeta: JsValue): (r: Role)
    ensures !IsNullish(Prop(appMeta, "role")) ==> r == RoleOf(Prop(appMeta, "role"))
    ensures IsNullish(Prop(appMeta, "role")) ==> r == RoleOf(Prop(userMeta, "role"))
  {
    RoleOf(Coalesce(Coalesce(Prop(appMeta, "role"), Prop(userMeta, "role")), Str("leitor")))
  }

  /** The metadata `POST /users` writes, `{ role }`, is read back as the
      same role whatever the user metadata says. */
  lemma RoleMetaRoundTrip(role: Role, userMeta: JsValue)
    ensures RoleFromMeta(Obj(map["role" := Str(RoleName(role))]), userMeta) == role
  {
    RoleNameRoundTrip(role, RoleName(role));
  }

  /** No fall-through: an unknown app-metadata role hides an admin role in
      the user metadata. */
  lemma UnknownAppRoleHidesUserRole()
    ensures RoleFromMeta(Obj(map["role" := Str("root")]), Obj(map["role" := Str("admin")])) == Leitor
  {
  }

  /** `parseRole`: one of the three names, or a 400. */
  function ParseRole(v: JsValue): (r: Result<Role, HttpError>)
    ensures r.Success? <==> v == Str("admin") || v == Str("editor") || v == Str("leitor")
    ensures r.Success? ==> v == Str(RoleName(r.value))
    ensures r.Failure? ==> r.error == InvalidRole
  {
    if v.Str? && ParseRoleName(v.s).Some? then
      RoleNameRoundTrip(ParseRoleName(v.s).value, v.s);
      Success(ParseRoleName(v.s).value)
    else Failure(InvalidRole)
  }

  lemma ParseRoleRoundTrip(role: Role)
    ensures ParseRole(Str(RoleName(role))) == Success(role)
  {
    RoleNameRoundTrip(role, RoleName(role));
  }

  // ---------------------------------------------------------------- mapUser

  /** `mapUser` as written: the display name is `userMeta.name ?? email ??
      "Usuario"`, and since `email` is always a string the last fallback is
      never reached; an account without name and e-mail gets the empty
      name. `now` stands for `new Date().toISOString()`. */
  function MapUserAsWritten(raw: Record, now: string): (u: SystemUser)
    ensures u.email == StringOrEmpty(Get(raw, "email"))
    ensures IsNullish(Prop(Meta(raw, "user_metadata"), "name")) ==> u.name == u.email
  {
    var userMeta := Meta(raw, "user_metadata");
    var email := StringOrEmpty(Get(raw, "email"));
    var name := ToStr(Coalesce(Coalesce(Prop(userMeta, "name"), Str(email)), Str("Usuario")));
    Account(raw, email, name, now)
  }

  /** `mapUser` with the fallback the last `?? "Usuario"` evidently means:
      without a name, the e-mail, and `"Usuario"` when the e-mail is empty
      too. */
  function MapUser(raw: Record, now: string): (u: SystemUser)
    ensures u.email == StringOrEmpty(Get(raw, "email"))
    ensures IsNullish(Prop(Meta(raw, "user_metadata"), "name")) ==>
      u.name == if u.email == "" then "Usuario" else u.email
  {
    var userMeta := Meta(raw, "user_metadata");
    var email := StringOrEmpty(Get(raw, "email"));
    var fallback := if email == "" then "Usuario" else email;
    var name := ToStr(Coalesce(Prop(userMeta, "name"), Str(fallback)));
    Account(raw, email, name, now)
  }

  /** `raw.<key> ?? {}`. */
  function Meta(raw: Record, key: string): JsValue {
    Coalesce(Get(raw, key), Obj(map[]))
  }

  /** The fields `mapUser` reads besides the name. */
  function Account(raw: Record, email: string, name: string, now: string): (u: SystemUser)
    ensures u.id == ToStr(Get(raw, "id")) && u.email == email && u.name == name
    ensures u.role == RoleFromMeta(Meta(raw, "app_metadata"), Meta(raw, "user_metadata"))
    ensures u.emailConfirmed <==> Truthy(Get(raw, "email_confirmed_at"))
    ensures !IsNullish(Get(raw, "created_at")) ==> u.createdAt == ToStr(Get(raw, "created_at"))
    ensures IsNullish(Get(raw, "created_at")) ==> u.createdAt == now
    ensures u.lastSignInAt.Some? <==> Truthy(Get(raw, "last_sign_in_at"))
    ensures u.lastSignInAt.Some? ==> u.lastSignInAt.value == ToStr(Get(raw, "last_sign_in_at"))
  {
    var lastSignIn := Get(raw, "last_sign_in_at");
    SystemUser(ToStr(Get(raw, "id")), email, name, RoleFromMeta(Meta(raw, "app_metadata"), Meta(raw, "user_metadata")),
               Truthy(Get(raw, "email_confirmed_at")), ToStr(Coalesce(Get(raw, "created_at"), Str(now))),
               if Truthy(lastSignIn) then Some(ToStr(lastSignIn)) else None)
  }

  /** As written, an account with neither name nor e-mail is named `""`;
      the corrected mapping names it `"Usuario"`. */
  lemma NamelessAccount(now: string)
    ensures MapUserAsWritten(map["id" := Str("u1")], now).name == ""
    ensures MapUser(map["id" := Str("u1")], now).name == "Usuario"
  {
  }

  /** Without a name in its metadata, an account the corrected mapping
      returns is never nameless. */
  lemma MappedNameIsNonEmpty(raw: Record, now: string)
    requires IsNullish(Prop(Meta(raw, "user_metadata"), "name"))
    ensures MapUser(raw, now).name != ""
  {
  }

  /** The account Supabase returns for a create call it accepted, with the
      fields that call sent. */
  function Created(id: string, call: AdminCall, confirmedAt: string): Record
    requires call.CreateUser?
  {
    map["id" := Str(id), "email" := Str(call.email), "app_metadata" := Obj(map["role" := Str(RoleName(call.role))]),
        "user_metadata" := Obj(map["name" := Str(call.name)]), "email_confirmed_at" := Str(confirmedAt),
        "created_at" := Str(confirmedAt)]
  }

  /** What is created is what is mapped back: the e-mail, name and role the
      create call sends come back from `mapUser` unchanged. */
  lemma CreatedAccountRoundTrip(id: string, call: AdminCall, confirmedAt: string, now: string)
    requires call.CreateUser? && call.name != "" && confirmedAt != ""
    ensures var u := MapUser(Created(id, call, confirmedAt), now);
      && u.id == id && u.email == call.email && u.name == call.name && u.role == call.role
      && u.emailConfirmed && u.createdAt == confirmedAt && u.lastSignInAt == None
  {
    var raw := Created(id, call, confirmedAt);
    assert Get(raw, "email") == Str(call.email);
    assert Prop(Meta(raw, "user_metadata"), "name") == Str(call.name);
    RoleMetaRoundTrip(call.role, Meta(raw, "user_metadata"));
  }

  // ---------------------------------------------------------------- ordering

  /** Lexicographic order on strings by Unicode code point (Dafny `char`s
      are scalar values), the stand-in for `localeCompare`. */
  predicate TextLe(a: string, b: string)
    decreases |a|
  {
    |a| == 0 || (|b| > 0 && (a[0] < b[0] || (a[0] == b[0] && TextLe(a[1..], b[1..]))))
  }

  lemma {:induction false} TextLeTotal(a: string, b: string)
    ensures TextLe(a, b) || TextLe(b, a)
    decreases |a|
  {
    if |a| > 0 && |b| > 0 && a[0] == b[0] {
      TextLeTotal(a[1..], b[1..]);
    }
  }

  predicate SortedByEmail(us: seq<SystemUser>) {
    forall i, j :: 0 <= i < j < |us| ==> TextLe(us[i].email, us[j].email)
  }

  /** `u` placed before the first account it does not follow. */
  function InsertByEmail(u: SystemUser, us: seq<SystemUser>): (r: seq<SystemUser>)
    ensures |r| == |us| + 1
    ensures multiset(r) == multiset(us) + multiset{u}
    decreases |us|
  {
    if |us| == 0 || TextLe(u.email, us[0].email) then [u] + us
    else
      assert us == [us[0]] + us[1..];
      [us[0]] + InsertByEmail(u, us[1..])
  }

  lemma {:induction false} InsertByEmailSorted(u: SystemUser, us: seq<SystemUser>)
    requires SortedByEmail(us)
    ensures SortedByEmail(InsertByEmail(u, us))
    decreases |us|
  {
    var r := InsertByEmail(u, us);
    if |us| == 0 || TextLe(u.email, us[0].email) {
      forall i, j | 0 <= i < j < |r|
        ensures TextLe(r[i].email, r[j].email)
      {
        if i == 0 && j > 1 {
          TextLeTrans(u.email, us[0].email, us[j - 1].email);
        }
      }
    } else {
      InsertByEmailSorted(u, us[1..]);
      TextLeTotal(u.email, us[0].email);
      var tail := InsertByEmail(u, us[1..]);
      forall j | 0 <= j < |tail|
        ensures TextLe(us[0].email, tail[j].email)
      {
        assert tail[j] in multiset(tail);
        assert tail[j] == u || tail[j] in multiset(us[1..]);
        if tail[j] != u {
          var k :| 0 <= k < |us[1..]| && us[1..][k] == tail[j];
          assert us[k + 1] == tail[j];
        }
      }
      forall i, j | 0 <= i < j < |r|
        ensures TextLe(r[i].email, r[j].email)
      {
        if i > 0 {
          assert r[i] == tail[i - 1] && r[j] == tail[j - 1];
        } else {
          assert r[j] == tail[j - 1];
        }
      }
    }
  }

  lemma {:induction false} TextLeTrans(a: string, b: string, c: string)
    requires TextLe(a, b) && TextLe(b, c)
    ensures TextLe(a, c)
    decreases |a|
  {
    if |a| > 0 && a[0] == b[0] && b[0] == c[0] {
      TextLeTrans(a[1..], b[1..], c[1..]);
    }
  }

  /** The accounts ordered by e-mail, equal e-mails keeping their order. */
  function SortByEmail(us: seq<SystemUser>): (r: seq<SystemUser>)
    ensures multiset(r) == multiset(us)
    decreases |us|
  {
    if |us| == 0 then []
    else
      assert us == [us[0]] + us[1..];
      InsertByEmail(us[0], SortByEmail(us[1..]))
  }

  lemma {:induction false} SortByEmailSorted(us: seq<SystemUser>)
    ensures SortedByEmail(SortByEmail(us))
    decreases |us|
  {
    if |us| > 0 {
      SortByEmailSorted(us[1..]);
      InsertByEmailSorted(us[0], SortByEmail(us[1..]));
    }
  }

  /** The mapped accounts of a listing, in the order Supabase gave them. */
  function MapAll(raws: seq<Record>, now: string): (r: seq<SystemUser>)
    ensures |r| == |raws|
    ensures forall i :: 0 <= i < |raws| ==> r[i] == MapUser(raws[i], now)
  {
    seq(|raws|, i requires 0 <= i < |raws| => MapUser(raws[i], now))
  }

  // ---------------------------------------------------------------- routes

  /** The audit input of a mutation of one account. */
  function UserEvent(user: AuthUser, action: Audit.Action, id: JsValue): Audit.AuditInput {
    ActorEvent(user, action, Resource, id)
  }

  /** `String(req.params.id ?? "").trim()`. */
  function UserId(req: Request): string {
    Trim(StringOrEmpty(Get(req.params, "id")))
  }

  /** `GET /users`: admin only; the accounts, mapped and ordered by e-mail;
      a remote error is a 500 carrying its message. */
  function ListRoute(calls: seq<AdminCall>, user: AuthUser, configured: bool, req: Request, answer: ListAnswer,
                     now: string): (o: Outcome<seq<AdminCall>, seq<SystemUser>>)
    ensures user.role != Admin ==> o == Refuse(calls, RequireRole(Admins, Some(user), req.path))
    ensures user.role == Admin && !configured ==> o == Reject(calls, NotConfigured)
    ensures user.role == Admin && configured ==> o.state == calls + [ListUsers] && o.events == []
    ensures user.role == Admin && configured && answer.error.Some? ==>
      o.reply == Fail(Http(RemoteError(500, answer.error.value)))
    ensures o.reply.Ok? <==> user.role == Admin && configured && answer.error.None?
    ensures o.reply.Ok? ==>
      && o.reply.status == 200
      && SortedByEmail(o.reply.body)
      && multiset(o.reply.body) == multiset(MapAll(answer.users.GetOr([]), now))
  {
    var gate := RequireRole(Admins, Some(user), req.path);
    if gate.Deny? then Refuse(calls, gate)
    else if !configured then Reject(calls, NotConfigured)
    else
      var calls' := calls + [ListUsers];
      if answer.error.Some? then Reject(calls', RemoteError(500, answer.error.value))
      else
        var items := MapAll(answer.users.GetOr([]), now);
        SortByEmailSorted(items);
        Outcome(calls', [], Ok(200, SortByEmail(items)))
  }

  /** The create call a `POST /users` body asks for, or the validation
      error: the role is checked before the required fields. */
  function CreateCall(req: Request): (r: Result<AdminCall, HttpError>)
    ensures ParseRole(Field(req, "role")).Failure? ==> r == Failure(InvalidRole)
    ensures r.Success? <==>
      (ParseRole(Field(req, "role")).Success? && ToLower(TrimmedField(req, "email")) != ""
       && TrimmedField(req, "name") != "" && StringOrEmpty(Field(req, "password")) != "")
    ensures r.Failure? ==> r.error == InvalidRole || r.error == MissingFields
    ensures r.Success? ==> r.value == CreateUser(ToLower(TrimmedField(req, "email")),
      StringOrEmpty(Field(req, "password")), ParseRole(Field(req, "role")).value, TrimmedField(req, "name"))
  {
    var email := ToLower(TrimmedField(req, "email"));
    var name := TrimmedField(req, "name");
    var role :- ParseRole(Field(req, "role"));
    var password := StringOrEmpty(Field(req, "password"));
    if email == "" || name == "" || password == "" then Failure(MissingFields)
    else Success(CreateUser(email, password, role, name))
  }

  /** `POST /users`: admin only; the remote call is made only for a valid
      body; a refusal from Supabase, or an answer without a user, is a 400. */
  function CreateRoute(calls: seq<AdminCall>, user: AuthUser, configured: bool, req: Request, answer: UserAnswer,
                       now: string): (o: Outcome<seq<AdminCall>, SystemUser>)
    ensures user.role != Admin ==> o == Refuse(calls, RequireRole(Admins, Some(user), req.path))
    ensures user.role == Admin && !configured ==> o == Reject(calls, NotConfigured)
    ensures user.role == Admin && configured && CreateCall(req).Failure? ==> o == Reject(calls, CreateCall(req).error)
    ensures user.role == Admin && configured && CreateCall(req).Success? ==> o.state == calls + [CreateCall(req).value]
    ensures user.role == Admin && configured && CreateCall(req).Success? && answer.error.Some? ==>
      o.reply == Fail(Http(RemoteError(400, answer.error.value)))
    ensures user.role == Admin && configured && CreateCall(req).Success? && answer.error.None? && answer.user.None? ==>
      o.reply == Fail(Http(RemoteError(400, "Falha ao criar usuario")))
    ensures o.reply.Ok? <==>
      user.role == Admin && configured && CreateCall(req).Success? && answer.error.None? && answer.user.Some?
    ensures o.reply.Ok? ==>
      && o.reply.status == 201
      && o.reply.body == MapUser(answer.user.value, now)
      && o.events == [UserEvent(user, Audit.Create, Get(answer.user.value, "id"))]
    ensures !o.reply.Ok? ==> o.events == [] || user.role != Admin
  {
    var gate := RequireRole(Admins, Some(user), req.path);
    if gate.Deny? then Refuse(calls, gate)
    else if !configured then Reject(calls, NotConfigured)
    else
      match CreateCall(req)
      case Failure(e) => Reject(calls, e)
      case Success(call) =>
        var calls' := calls + [call];
        if answer.error.Some? then Reject(calls', RemoteError(400, answer.error.value))
        else if answer.user.None? then Reject(calls', RemoteError(400, "Falha ao criar usuario"))
        else
          var raw := answer.user.value;
          Outcome(calls', [UserEvent(user, Audit.Create, Get(raw, "id"))], Ok(201, MapUser(raw, now)))
  }

  /** An unknown role is reported even when the required fields are
      missing too. */
  lemma RoleCheckedFirst(path: string)
    ensures CreateCall(Request(path, map[], map[], Obj(map["role" := Str("root")]))) == Failure(InvalidRole)
  {
  }

  /** The patch of a `PUT /users/:id` body: each truthy field, normalised
      as on create, or the role error. */
  function PatchOf(req: Request): (r: Result<UserPatch, HttpError>)
    ensures Truthy(Field(req, "role")) && ParseRole(Field(req, "role")).Failure? ==> r == Failure(InvalidRole)
    ensures r.Failure? ==> r.error == InvalidRole
    ensures r.Success? ==>
      && (r.value.email.Some? <==> Truthy(Field(req, "email")))
      && (r.value.password.Some? <==> Truthy(Field(req, "password")))
      && (r.value.role.Some? <==> Truthy(Field(req, "role")))
      && (r.value.name.Some? <==> Truthy(Field(req, "name")))
      && (r.value.email.Some? ==> r.value.email.value == ToLower(Trim(ToStr(Field(req, "email")))))
      && (r.value.password.Some? ==> r.value.password.value == ToStr(Field(req, "password")))
      && (r.value.role.Some? ==> Field(req, "role") == Str(RoleName(r.value.role.value)))
      && (r.value.name.Some? ==> r.value.name.value == Trim(ToStr(Field(req, "name"))))
  {
    if Truthy(Field(req, "role")) && ParseRole(Field(req, "role")).Failure? then Failure(InvalidRole)
    else
      var role := if Truthy(Field(req, "role")) then Some(ParseRole(Field(req, "role")).value) else None;
      Success(UserPatch(EmailIfGiven(Field(req, "email")), PasswordIfGiven(Field(req, "password")), role,
                        NameIfGiven(Field(req, "name"))))
  }

  /** The e-mail, password and name of a patch: sent only when truthy. */
  function EmailIfGiven(v: JsValue): Option<string> {
    if Truthy(v) then Some(ToLower(Trim(ToStr(v)))) else None
  }

  function PasswordIfGiven(v: JsValue): Option<string> {
    if Truthy(v) then Some(ToStr(v)) else None
  }

  function NameIfGiven(v: JsValue): Option<string> {
    if Truthy(v) then Some(Trim(ToStr(v))) else None
  }

  predicate EmptyPatch(p: UserPatch) {
    p.email.None? && p.password.None? && p.role.None? && p.name.None?
  }

  /** A patch already in the form `PUT /users/:id` produces: trimmed
      lower-case e-mail, trimmed name, and no empty text. */
  predicate NormalPatch(p: UserPatch) {
    && (p.email.Some? ==> p.email.value != "" && Trim(p.email.value) == p.email.value && HasNoUpper(p.email.value))
    && (p.password.Some? ==> p.password.value != "")
    && (p.name.Some? ==> p.name.value != "" && Trim(p.name.value) == p.name.value)
  }

  /** The request body that asks for a patch: one property per field
      present. */
  function PatchBody(p: UserPatch): JsValue {
    Obj(map k | k in PatchKeys && Sent(p, k) :: SentValue(p, k))
  }

  const PatchKeys: set<string> := {"email", "password", "role", "name"}

  predicate Sent(p: UserPatch, key: string) {
    if key == "email" then p.email.Some?
    else if key == "password" then p.password.Some?
    else if key == "role" then p.role.Some?
    else key == "name" && p.name.Some?
  }

  function SentValue(p: UserPatch, key: string): JsValue
    requires Sent(p, key)
  {
    if key == "email" then Str(p.email.value)
    else if key == "password" then Str(p.password.value)
    else if key == "role" then Str(RoleName(p.role.value))
    else Str(p.name.value)
  }

  lemma BodyField(p: UserPatch, path: string, params: Record, key: string)
    requires key in PatchKeys
    ensures Field(Request(path, params, map[], PatchBody(p)), key) == if Sent(p, key) then SentValue(p, key) else Undefined
  {
  }

  /** Sending the body of a normal patch asks for exactly that patch. */
  lemma PatchRoundTrip(p: UserPatch, path: string, params: Record)
    requires NormalPatch(p)
    ensures PatchOf(Request(path, params, map[], PatchBody(p))) == Success(p)
  {
    var req := Request(path, params, map[], PatchBody(p));
    assert EmailIfGiven(Field(req, "email")) == p.email by {
      BodyField(p, path, params, "email");
      if p.email.Some? {
        EmailRoundTrip(p.email.value);
      }
    }
    assert PasswordIfGiven(Field(req, "password")) == p.password by {
      BodyField(p, path, params, "password");
      if p.password.Some? {
        PasswordRoundTrip(p.password.value);
      }
    }
    assert NameIfGiven(Field(req, "name")) == p.name by {
      BodyField(p, path, params, "name");
      if p.name.Some? {
        NameRoundTrip(p.name.value);
      }
    }
    assert Truthy(Field(req, "role")) <==> p.role.Some? by {
      BodyField(p, path, params, "role");
    }
    if p.role.Some? {
      assert Field(req, "role") == Str(RoleName(p.role.value)) by {
        BodyField(p, path, params, "role");
      }
      ParseRoleRoundTrip(p.role.value);
    }
  }

  /** A normal e-mail, password or name is sent back as itself. */
  lemma EmailRoundTrip(e: string)
    requires e != "" && Trim(e) == e && HasNoUpper(e)
    ensures EmailIfGiven(Str(e)) == Some(e)
  {
    assert ToStr(Str(e)) == e;
    ToLowerFixesLower(e);
  }

  lemma PasswordRoundTrip(pw: string)
    requires pw != ""
    ensures PasswordIfGiven(Str(pw)) == Some(pw)
  {
  }

  lemma NameRoundTrip(n: string)
    requires n != "" && Trim(n) == n
    ensures NameIfGiven(Str(n)) == Some(n)
  {
    assert ToStr(Str(n)) == n;
  }

  /** `PUT /users/:id`: admin only; a blank id, an unknown role or a body
      with nothing to change is a 400 before any remote call. */
  function UpdateRoute(calls: seq<AdminCall>, user: AuthUser, configured: bool, req: Request, answer: UserAnswer,
                       now: string): (o: Outcome<seq<AdminCall>, SystemUser>)
    ensures user.role != Admin ==> o == Refuse(calls, RequireRole(Admins, Some(user), req.path))
    ensures user.role == Admin && !configured ==> o == Reject(calls, NotConfigured)
    ensures user.role == Admin && configured && UserId(req) == "" ==> o == Reject(calls, InvalidId)
    ensures user.role == Admin && configured && UserId(req) != "" && PatchOf(req).Failure? ==>
      o == Reject(calls, InvalidRole)
    ensures user.role == Admin && configured && UserId(req) != "" && PatchOf(req).Success? && EmptyPatch(PatchOf(req).value)
      ==> o == Reject(calls, NothingToUpdate)
    ensures o.state != calls ==>
      && PatchOf(req).Success? && !EmptyPatch(PatchOf(req).value)
      && o.state == calls + [UpdateUser(UserId(req), PatchOf(req).value)]
    ensures (&& user.role == Admin && configured && UserId(req) != ""
             && PatchOf(req).Success? && !EmptyPatch(PatchOf(req).value)) ==>
      o.state == calls + [UpdateUser(UserId(req), PatchOf(req).value)]
    ensures (&& user.role == Admin && configured && UserId(req) != ""
             && PatchOf(req).Success? && !EmptyPatch(PatchOf(req).value) && answer.error.Some?) ==>
      o.reply == Fail(Http(RemoteError(400, answer.error.value))) && o.events == []
    ensures (&& user.role == Admin && configured && UserId(req) != ""
             && PatchOf(req).Success? && !EmptyPatch(PatchOf(req).value) && answer.error.None? && answer.user.None?) ==>
      o.reply == Fail(Http(RemoteError(400, "Falha ao atualizar usuario"))) && o.events == []
    ensures o.reply.Ok? <==>
      (user.role == Admin && configured && UserId(req) != "" && PatchOf(req).Success?
       && !EmptyPatch(PatchOf(req).value) && answer.error.None? && answer.user.Some?)
    ensures o.reply.Ok? ==>
      && o.reply.status == 200
      && o.reply.body == MapUser(answer.user.value, now)
      && o.events == [UserEvent(user, Audit.Update, Str(UserId(req)))]
  {
    var gate := RequireRole(Admins, Some(user), req.path);
    if gate.Deny? then Refuse(calls, gate)
    else if !configured then Reject(calls, NotConfigured)
    else
      var id := UserId(req);
      if id == "" then Reject(calls, InvalidId)
      else
        match PatchOf(req)
        case Failure(e) => Reject(calls, e)
        case Success(patch) =>
          if EmptyPatch(patch) then Reject(calls, NothingToUpdate)
          else
            var calls' := calls + [UpdateUser(id, patch)];
            if answer.error.Some? then Reject(calls', RemoteError(400, answer.error.value))
            else if answer.user.None? then Reject(calls', RemoteError(400, "Falha ao atualizar usuario"))
            else Outcome(calls', [UserEvent(user, Audit.Update, Str(id))], Ok(200, MapUser(answer.user.value, now)))
  }

  /** A body whose fields are all falsy changes nothing and reaches no
      remote call. */
  lemma FalsyBodyIsRefused(calls: seq<AdminCall>, user: AuthUser, req: Request, answer: UserAnswer, now: string)
    requires user.role == Admin && UserId(req) != ""
    requires !Truthy(Field(req, "email")) && !Truthy(Field(req, "password")) && !Truthy(Field(req, "role"))
    requires !Truthy(Field(req, "name"))
    ensures UpdateRoute(calls, user, true, req, answer, now) == Reject(calls, NothingToUpdate)
  {
  }

  /** `DELETE /users/:id`: admin only; a blank id and the caller's own id
      are refused before the remote call. */
  function DeleteRoute(calls: seq<AdminCall>, user: AuthUser, configured: bool, req: Request, error: Option<string>)
    : (o: Outcome<seq<AdminCall>, ()>)
    ensures user.role != Admin ==> o == Refuse(calls, RequireRole(Admins, Some(user), req.path))
    ensures user.role == Admin && !configured ==> o == Reject(calls, NotConfigured)
    ensures user.role == Admin && configured && UserId(req) == "" ==> o == Reject(calls, InvalidId)
    ensures user.role == Admin && configured && UserId(req) != "" && UserId(req) == user.id ==>
      o == Reject(calls, SelfDelete)
    ensures o.state != calls ==> UserId(req) != "" && UserId(req) != user.id && o.state == calls + [DeleteUser(UserId(req))]
    ensures user.role == Admin && configured && UserId(req) != "" && UserId(req) != user.id ==>
      o.state == calls + [DeleteUser(UserId(req))]
    ensures o.reply.Ok? <==>
      user.role == Admin && configured && UserId(req) != "" && UserId(req) != user.id && error.None?
    ensures o.reply.Ok? ==> o.reply.status == 204 && o.events == [UserEvent(user, Audit.Delete, Str(UserId(req)))]
    ensures user.role == Admin && configured && UserId(req) != "" && UserId(req) != user.id && error.Some? ==>
      o.reply == Fail(Http(RemoteError(400, error.value))) && o.events == []
  {
    var gate := RequireRole(Admins, Some(user), req.path);
    if gate.Deny? then Refuse(calls, gate)
    else if !configured then Reject(calls, NotConfigured)
    else
      var id := UserId(req);
      if id == "" then Reject(calls, InvalidId)
      else if user.id == id then Reject(calls, SelfDelete)
      else
        var calls' := calls + [DeleteUser(id)];
        if error.Some? then Reject(calls', RemoteError(400, error.value))
        else Outcome(calls', [UserEvent(user, Audit.Delete, Str(id))], Ok(204, ()))
  }

  /** No account can delete itself, whatever the remote API would say. */
  lemma NoSelfDelete(calls: seq<AdminCall>, user: AuthUser, configured: bool, req: Request, error: Option<string>)
    requires UserId(req) == user.id
    ensures DeleteRoute(calls, user, configured, req, error).state == calls
    ensures !DeleteRoute(calls, user, configured, req, error).reply.Ok?
  {
  }

  /** Only an admin reaches the remote API. */
  lemma OnlyAdminsCall(calls: seq<AdminCall>, user: AuthUser, configured: bool, req: Request, answer: UserAnswer,
                       list: ListAnswer, now: string)
    requires user.role != Admin
    ensures ListRoute(calls, user, configured, req, list, now).state == calls
    ensures CreateRoute(calls, user, configured, req, answer, now).state == calls
    ensures UpdateRoute(calls, user, configured, req, answer, now).state == calls
    ensures DeleteRoute(calls, user, configured, req, answer.error).state == calls
    ensures CreateRoute(calls, user, configured, req, answer, now).reply == Fail(Http(Forbidden(NoPermission)))
  {
  }
}
