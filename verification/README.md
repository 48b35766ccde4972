# controleapps backend core, in Dafny

A model of the backend of *controleapps*, an inventory of applications.
It records where each app is hosted, its domains, AI/API integrations,
technical subscriptions, attached documents and secrets, behind a
token-authenticated, role-gated HTTP API. The model covers:

- **Secret vault.** AES-256-GCM envelopes of `iv(12) ‖ tag(16) ‖ ciphertext`
  under a key chosen at start-up. The store lists records without their
  ciphertext. The routes reveal and delete for admins only.
- **Token authority and access gate.** Tokens are
  `base64url(JSON) "." base64url(HMAC-SHA256)`, with a strict expiry and a
  claim-shape check. Login checks a fixed table of development users.
  `requireAuth` and `requireRole` (401 against 403, and one `access_denied`
  audit event per refusal). The global error handler.
- **Record stores and their routes.** Apps, hostings, domains,
  integrations, subscriptions and attachments live in insertion-ordered
  maps with spread-merge updates. The app search is case-insensitive, and
  deleting an app cascades to its children. Every writing route checks the
  role first and records its audit event only after the change. The
  order of the remaining checks differs per route, and each route's
  contract states it. For example, the `POST` routes that take an `appId`
  look up the app (404) before validating the body (400), and
  `PUT /secrets/:id` validates the value (400) before the lookup (404).
  The `PUT` edits of apps, hostings, domains, integrations and
  subscriptions validate nothing and answer 404 only for an unknown id.
  The user routes check the remote configuration, then the id and the
  body, and only then call the remote API.
- **Derived views and helpers.** The alerts view, the in-memory audit log,
  the Supabase user routes, `env`, `asString`, `createId`, and the
  build-number script.

Everything outside the process is a parameter:
- the clock, and the random bytes of ids and ivs;
- the Supabase answers, and whether a service client is configured;
- the crypto, base64, UTF-8 and JSON primitives. These are the fields of a
  `Crypto` value. The properties the model relies on are stated as laws
  (`Primitives.Lawful`) and required by the lemmas that use them.

A route handler is a function from the store state and the request to an
`Outcome`: the new state, the audit inputs recorded in order, and a reply.
The reply is either a status with a body, or a thrown failure. That
failure is an `HttpError`, or an internal exception that
`Errors.Respond` turns into the fixed 500.

Six places where the code does not do what it evidently means are listed
under "Findings". Each is modelled twice: as written, and corrected. The
rest of the model uses the corrected member.

## Model

| member | source | states |
|---|---|---|
| Errors.Unauthorized | apps/backend/src/core/http/errors.ts:11-15 | `UnauthorizedError` is a 401 with code `UNAUTHORIZED` carrying the given message |
| Errors.Forbidden | apps/backend/src/core/http/errors.ts:17-21 | `ForbiddenError` is a 403 with code `FORBIDDEN` carrying the given message |
| Errors.Respond | apps/backend/src/index.ts:31-47 | an `HttpError` answers with its own status, code and message; any other exception answers 500 `INTERNAL_SERVER_ERROR` "Erro interno" |
| Errors.RespondKeepsHttpError | apps/backend/src/core/http/errors.ts:1-9 | the response determines the `HttpError`: status, message and code are all kept unaltered |
| Errors.RespondHidesInternalDetail | apps/backend/src/index.ts:41-47 | two different internal exceptions give the same 500 response, so no detail leaks |
| Errors.AuthErrorResponses | apps/backend/src/core/http/errors.ts:11-21 | the default 401 and 403 responses carry "Nao autenticado" and "Sem permissao" |
| HttpTypes.ParseRoleName | apps/backend/src/core/http/types.ts:3 | a string names a role exactly when it is `admin`, `editor` or `leitor` |
| HttpTypes.RoleNameRoundTrip | apps/backend/src/core/http/types.ts:3 | role names and roles correspond one to one |
| SharedHttp.AsString | apps/backend/src/shared/http.ts:1-7 | a string is kept, `undefined`/`null` and an empty array give `""`, an array gives its first element's string, anything else its `String` |
| Ids.CreateId | apps/backend/src/shared/id.ts:3-5 | an id is the prefix, `_`, then 12 lower-case hex digits, so its length is the prefix's plus 13 |
| Ids.PrefixBeforeLastUnderscore | apps/backend/src/shared/id.ts:4 | the text before an id's last `_` is its prefix, whatever the prefix contains |
| Ids.DistinctPrefixesNeverCollide | apps/backend/src/shared/id.ts:4 | ids minted under different prefixes differ, whatever their random bytes |
| Ids.SamePrefixDistinctRandom | apps/backend/src/shared/id.ts:4 | under one prefix, different random bytes give different ids |
| Hex.Encode | apps/backend/src/shared/id.ts:4 | hex encoding writes two lower-case hex digits per byte |
| Hex.DecodeEncode | apps/backend/src/modules/secrets/secrets.service.ts:16 | decoding the hex of some bytes gives the bytes back |
| Hex.EncodeDecode | apps/backend/src/modules/secrets/secrets.service.ts:16 | re-encoding decoded well-formed hex gives the input in lower case |
| Hex.DecodeFullLength | apps/backend/src/modules/secrets/secrets.service.ts:16 | an even-length string decodes to half as many bytes exactly when it is all hex digits |
| Js.StringOrEmpty | apps/backend/src/modules/inventory/inventory.routes.ts:18 | `String(v ?? "")` keeps a string and turns `undefined`/`null` into `""` |
| Js.ExactOr | apps/backend/src/modules/inventory/inventory.routes.ts:28 | the `x === v ? v : d` defaults of app status, hosting type (:114), domain status (:156) and recurrence (subscriptions.routes.ts:33): the alternative exactly when the body names it verbatim; a different case or a non-string gives the default |
| Js.OptionalText | apps/backend/src/modules/inventory/inventory.routes.ts:27 | an optional text is `undefined` exactly when its trimmed string is empty, else that non-empty trimmed string |
| Js.NumberOfDecimal | apps/backend/src/config/env.ts:15 | `Number` of a decimal numeral is its value |
| Primitives.Base64UrlHasNoDot | apps/backend/src/modules/auth/auth.service.ts:45-55 | base64url output has no `.`, the token's segment separator |
| Audit.ActionNamesDistinct | apps/backend/src/modules/audit/audit.service.ts:3-10 | the seven actions are recorded under seven distinct names |
| Audit.Record | apps/backend/src/modules/audit/audit.service.ts:25-49 | recording appends exactly one event, carrying the caller's fields and the timestamp, and keeps the earlier log; the remote table gains that event exactly when the insert succeeds |
| Audit.RecordIgnoresRemote | apps/backend/src/modules/audit/audit.service.ts:33-49 | whether remote persistence is absent, succeeds or fails, the log and the returned event are the same; a failed insert leaves the remote table as if there were no client |
| Audit.RecordAll | apps/backend/src/modules/audit/audit.service.ts:25-31 | recording a route's inputs in turn appends one event per input, in order |
| Audit.List | apps/backend/src/modules/audit/audit.service.ts:77 | the local listing is the log newest first |
| Audit.ListAfterRecord | apps/backend/src/modules/audit/audit.service.ts:25-77 | after a record, the listing is the new event followed by the earlier listing |
| Audit.ListTwice | apps/backend/src/modules/audit/audit.service.ts:77 | listing is an involution: reversing the listing restores recording order |
| AuthService.Sign | apps/backend/src/modules/auth/auth.service.ts:44-52 | splitting a signed token on `.` gives exactly the payload segment and the MAC of that segment |
| AuthService.Segments | apps/backend/src/modules/auth/auth.service.ts:55 | the destructured segments are the first two dot-separated parts, a missing second one read as `""` |
| AuthService.Verify | apps/backend/src/modules/auth/auth.service.ts:54-74 | a missing segment is refused; an accepted token's signature equals the recomputed MAC and its payload parses and is unexpired; a mismatching signature is never accepted |
| AuthService.ClaimsUser | apps/backend/src/modules/auth/auth.service.ts:111-129 | a payload names a user exactly when `sub`, `email`, `name` are strings and `role` is a role name; the user carries those values |
| AuthService.Claims | apps/backend/src/modules/auth/auth.service.ts:85-91 | the signed payload is a flat JSON object |
| AuthService.ClaimsRoundTrip | apps/backend/src/modules/auth/auth.service.ts:85-129 | the claims of a user read back as that user; they expire strictly after `exp`, not at it |
| AuthService.VerifyToken | apps/backend/src/modules/auth/auth.service.ts:105-130 | a user is returned exactly when verification accepts and the claims have the right shape; a throw in verification propagates |
| AuthService.FindByEmail | apps/backend/src/modules/auth/auth.service.ts:78 | the first table user with exactly that email, or none when no user has it |
| AuthService.DevEmailsDistinct | apps/backend/src/modules/auth/auth.service.ts:20-42 | no two development users share an email |
| AuthService.Login | apps/backend/src/modules/auth/auth.service.ts:77-103 | login succeeds exactly on a table user's exact email and password; the result is that user, `expiresIn` is the ttl, and the token signs the user's claims with `exp = now + ttl*1000` |
| AuthService.LoginTableUser | apps/backend/src/modules/auth/auth.service.ts:20-103 | every table user logs in with their own email and password, as themselves |
| AuthService.VerifySigned | apps/backend/src/modules/auth/auth.service.ts:44-74 | a token signed over a flat payload verifies to that payload until it expires, and is refused after |
| AuthService.LoginTokenVerifies | apps/backend/src/modules/auth/auth.service.ts:83-129 | the token of a login names the logged-in user at every instant up to its expiry, and nobody after |
| AuthMiddleware.ExtractToken | apps/backend/src/core/http/auth.middleware.ts:8 | the token is the header with its first "Bearer " removed, trimmed; no header gives `""` |
| AuthMiddleware.ExtractBearer | apps/backend/src/core/http/auth.middleware.ts:8 | a `Bearer` header carries a whitespace-free token back out unchanged |
| AuthMiddleware.RequireAuth | apps/backend/src/core/http/auth.middleware.ts:7-25 | corrected gate: an empty token is 401 "Nao autenticado", a refused one 401 "Token invalido ou expirado", a throw is internal, and only a verified user passes, as that user |
| AuthMiddleware.RequireAuthAsWritten | apps/backend/src/core/http/auth.middleware.ts:14-24 | as written: an empty token is 401, and every non-empty token ends in an internal error |
| AuthMiddleware.SignedTokenHasNoWhitespace | apps/backend/src/core/http/auth.middleware.ts:8 | a signed token survives the middleware's trim: it has no whitespace |
| AuthMiddleware.BearerLoginRoundTrip | apps/backend/src/core/http/auth.middleware.ts:7-25 | the bearer header of a fresh login admits the logged-in user until expiry; as written the same header is answered with 500 |
| AuthMiddleware.RequireRole | apps/backend/src/core/http/auth.middleware.ts:27-47 | no user is 401 with no event; a role outside the list is 403 after exactly one `access_denied` event; an allowed role passes silently |
| AuthMiddleware.Refuse | apps/backend/src/core/http/auth.middleware.ts:33-43 | a refused request changes no state, records the gate's events and throws the gate's error |
| AuthMiddleware.RoleGateStatuses | apps/backend/src/core/http/auth.middleware.ts:29-43 | 401 exactly when there is no user, 403 exactly when the role is not admitted, and an event exactly for the 403 |
| AuthRoutes.LoginRoute | apps/backend/src/modules/auth/auth.routes.ts:10-38 | a blank email or password is 400 with no event; success exactly on table credentials, answering `login`'s own result with 200 after one `login_success` event; any other non-blank pair is 401 `INVALID_CREDENTIALS` after one `login_failed` event naming the normalised email, and nothing else |
| AuthRoutes.LoginIgnoresEmailCase | apps/backend/src/modules/auth/auth.routes.ts:11 | any spelling of a table email that trims and lower-cases to it logs that user in |
| AuthRoutes.LoginPasswordVerbatim | apps/backend/src/modules/auth/auth.routes.ts:12 | the password is not trimmed: the admin password with a trailing space is refused and audited |
| AuthRoutes.MeRoute | apps/backend/src/modules/auth/auth.routes.ts:40-42 | `/me` answers 200 with exactly the user `requireAuth` attached, and otherwise its error |
| AuthRoutes.MeAfterLogin | apps/backend/src/modules/auth/auth.routes.ts:40-42 | after logging in, `/me` with the bearer token answers the logged-in user |
| SecretsService.SelectKey | apps/backend/src/modules/secrets/secrets.service.ts:15-16 | the configured hex is used exactly when it is 64 characters long; otherwise the SHA-256 of "dev-key-change-me" |
| SecretsService.SelectKeyLength | apps/backend/src/modules/secrets/secrets.service.ts:16 | the fallback key is 256 bits; a configured one is 256 bits exactly when all 64 characters are hex |
| SecretsService.ConfiguredKeyIsUsed | apps/backend/src/modules/secrets/secrets.service.ts:15-16 | configuring the hex of a 256-bit key selects that key |
| SecretsService.Unpack | apps/backend/src/modules/secrets/secrets.service.ts:27-30 | the fixed-offset split covers the blob, its parts concatenating back to it |
| SecretsService.UnpackPack | apps/backend/src/modules/secrets/secrets.service.ts:19-30 | a 12-byte iv, a 16-byte tag and any data, packed, split back into the same three parts |
| SecretsService.Encrypt | apps/backend/src/modules/secrets/secrets.service.ts:18-24 | encryption yields a value exactly when the key is 256 bits |
| SecretsService.Decrypt | apps/backend/src/modules/secrets/secrets.service.ts:26-34 | decryption fails under a key that is not 256 bits |
| SecretsService.DecryptEncrypt | apps/backend/src/modules/secrets/secrets.service.ts:18-34 | under a lawful cipher and a 256-bit key, decrypting an encryption gives the plaintext back |
| SecretsService.ParseKind | apps/backend/src/modules/secrets/secrets.routes.ts:24-25 | a kind is accepted exactly when it is `ssh`, `domain` or `api_key`, and it names itself back |
| SecretsService.ViewDropsOnlyPayload | apps/backend/src/modules/secrets/secrets.service.ts:42 | two records have the same view exactly when they differ at most in their ciphertext |
| SecretsService.ListByApp | apps/backend/src/modules/secrets/secrets.service.ts:39-43 | a listing has no more entries than the vault |
| SecretsService.Views | apps/backend/src/modules/secrets/secrets.service.ts:42 | each listed entry is the view of the record at the same position |
| SecretsService.ListAfterInsert | apps/backend/src/modules/secrets/secrets.service.ts:39-59 | listing follows insertion order: a secret stored under a new key is listed last among its app's, and other apps' listings do not change |
| SecretsService.ListByAppExact | apps/backend/src/modules/secrets/secrets.service.ts:39-43 | the listing holds exactly the views of the stored records of that app |
| SecretsService.Create | apps/backend/src/modules/secrets/secrets.service.ts:45-59 | one record under a `sec` id with the given fields, `createdAt == updatedAt`, and the encryption of the value; every other record unchanged |
| SecretsService.Reveal | apps/backend/src/modules/secrets/secrets.service.ts:61-65 | absent exactly for an unknown id; otherwise the decryption of the stored payload |
| SecretsService.Update | apps/backend/src/modules/secrets/secrets.service.ts:67-77 | unknown id changes nothing; otherwise only the ciphertext and `updatedAt` change, and every other record stays |
| OrderedMap.Delete | apps/backend/src/modules/secrets/secrets.service.ts:79-81 | the `delete` of the vault (`SecretsService.DeleteSecret`) and of the record stores (`RecordStore.Remove`, subscriptions.store.ts:37-39): true exactly when the key was present; it is absent after and every other key keeps its value |
| SecretsService.RevealAfterCreate | apps/backend/src/modules/secrets/secrets.service.ts:45-65 | a created secret reveals as its value |
| SecretsService.RevealAfterUpdate | apps/backend/src/modules/secrets/secrets.service.ts:61-77 | an updated secret reveals as its new value |
| SecretsService.RevealAfterDelete | apps/backend/src/modules/secrets/secrets.service.ts:61-81 | a deleted secret reveals nothing |
| SecretsService.OperationsKeepKeyedById | apps/backend/src/modules/secrets/secrets.service.ts:45-81 | create, update and delete keep every record under its own id |
| SecretsRoutes.ListRoute | apps/backend/src/modules/secrets/secrets.routes.ts:12-16 | 400 exactly when the trimmed `appId` is empty; otherwise 200 with that app's views; nothing changes |
| SecretsRoutes.CreateRoute | apps/backend/src/modules/secrets/secrets.routes.ts:18-32 | writers only; an unknown app is 404 before the field check; a key that is not 32 bytes is an internal error with no change (`createCipheriv` throws, secrets.service.ts:18-24); success stores the trimmed value encrypted, with the kind, label, metadata and equal instants, under a new id, leaves every other secret as it was, answers only the public fields, and records one `create` |
| SecretsRoutes.RevealRoute | apps/backend/src/modules/secrets/secrets.routes.ts:34-41 | admins only; an unknown id is 404 with no event; success answers `{id, value}` after one `view_secret` event |
| SecretsRoutes.UpdateRoute | apps/backend/src/modules/secrets/secrets.routes.ts:43-52 | writers only; an empty value is 400 before the 404; success answers only `{id, updatedAt}` after one `update` event |
| SecretsRoutes.DeleteRoute | apps/backend/src/modules/secrets/secrets.routes.ts:54-60 | admins only; an unknown id is 404 with no event; success is 204, removes only that secret, and records one `delete` |
| SecretsRoutes.RevealAfterCreateRoute | apps/backend/src/modules/secrets/secrets.routes.ts:18-41 | an admin who creates a secret and reveals it gets back the trimmed value, audited once |
| SecretsRoutes.RevealIsAdminOnly | apps/backend/src/modules/secrets/secrets.routes.ts:34 | any other role is refused with 403 and one `access_denied` event |
| RecordStore.ListByApp | apps/backend/src/modules/subscriptions/subscriptions.store.ts:17-20 | a falsy app id lists everything in insertion order; otherwise exactly the stored records of that app, whose order and multiplicity `RecordStore.ListByAppInOrder` and `RecordStore.ListByAppAfterInsert` state |
| RecordStore.ListByAppInOrder | apps/backend/src/modules/subscriptions/subscriptions.store.ts:17-20 | the listing is a subsequence of the stored values, and lists each record of the app exactly as often as the store does and nothing else; the only such subsequence is the `filter` result |
| RecordStore.ListByAppAfterInsert | apps/backend/src/modules/inventory/inventory.store.ts:55-63 | after a create under a new id, the app's listing is the old one followed by the new record when it belongs to the app, and unchanged otherwise |
| OrderedMap.FilterKeeps | apps/backend/src/modules/subscriptions/subscriptions.store.ts:17-20 | `values().filter(keep)` is a subsequence of the values holding each kept value as often as listed and no other value |
| OrderedMap.FilterConcat | apps/backend/src/modules/inventory/inventory.store.ts:14-19 | filtering a concatenation is the concatenation of the filtered parts, so `filter` keeps the relative order |
| RecordStore.ListByAppExact | apps/backend/src/modules/attachments/attachments.store.ts:17-20 | with an app id, a record is listed exactly when some key stores it and it belongs to the app |
| RecordStore.StoredIsListed | apps/backend/src/modules/attachments/attachments.store.ts:17-20 | a stored record is listed under its app and in the unfiltered listing |
| RecordStore.ListAfterInsert | apps/backend/src/modules/subscriptions/subscriptions.store.ts:17-27 | after a create under a new id, the unfiltered listing is the old one followed by the new record |
| RecordStore.Insert | apps/backend/src/modules/subscriptions/subscriptions.store.ts:22-27 | the new record has the generated id and instant(s) and every input field, and only that key changes |
| RecordStore.Update | apps/backend/src/modules/subscriptions/subscriptions.store.ts:29-35 | unknown id changes nothing; otherwise every patch key (even `undefined`) lands, other fields stay, `updatedAt` is refreshed, under the same key |
| RecordStore.PurgeKeys | apps/backend/src/modules/inventory/inventory.store.ts:43-51 | walking a snapshot of keys removes exactly the visited records of the app and keeps the rest unchanged |
| RecordStore.PurgeApp | apps/backend/src/modules/inventory/inventory.store.ts:43-51 | the cascade on one store removes exactly the app's records |
| RecordStore.PurgeAppLeavesNone | apps/backend/src/modules/inventory/inventory.store.ts:43-58 | after the cascade nothing of the app is listed |
| RecordStore.InsertKeepsKeyedById | apps/backend/src/modules/subscriptions/subscriptions.store.ts:22-27 | creating keeps every record under its own id |
| RecordStore.RemoveKeepsKeyedById | apps/backend/src/modules/subscriptions/subscriptions.store.ts:37-39 | deleting keeps every record under its own id |
| RecordStore.PurgeKeepsKeyedById | apps/backend/src/modules/inventory/inventory.store.ts:43-51 | the cascade keeps every record under its own id |
| RecordStore.UpdateKeepsKeyedById | apps/backend/src/modules/subscriptions/subscriptions.store.ts:29-35 | a patch without `id` keeps every record under its own id |
| RecordStore.UpdateWithIdBreaksKeyedById | apps/backend/src/modules/subscriptions/subscriptions.store.ts:32-33 | a patch carrying another `id` leaves a record under a key that is not its id |
| RecordStore.Editable | apps/backend/src/modules/subscriptions/subscriptions.store.ts:29 | the patch the signature admits: the body without `id` and `createdAt`, every other key kept |
| InventoryStore.PrefixesDistinct | apps/backend/src/modules/inventory/inventory.store.ts:28-110 | the four collections mint ids under four distinct prefixes |
| InventoryStore.Haystack | apps/backend/src/modules/inventory/inventory.store.ts:14-18 | the searched text exists exactly when the tags are an array, and is the lower-cased join of name, commercial name, description and tags |
| InventoryStore.SearchApps | apps/backend/src/modules/inventory/inventory.store.ts:14-19 | the search succeeds exactly when every haystack does, and then equals `OrderedMap.Filter` of the matching predicate, which keeps order and multiplicity (`OrderedMap.FilterKeeps`); a failure is the `TypeError` of some app |
| InventoryStore.SearchAppsKeeps | apps/backend/src/modules/inventory/inventory.store.ts:14-19 | a successful search lists exactly the matching apps, as a subsequence of the apps, each as often as listed |
| InventoryStore.SearchAppsConcat | apps/backend/src/modules/inventory/inventory.store.ts:14-19 | searching two lists in a row succeeds exactly when both searches do, and the first list's matches come first |
| InventoryStore.SearchAppsAppend | apps/backend/src/modules/inventory/inventory.store.ts:14-19 | an app appended to the list comes last among the matches exactly when its haystack contains the term |
| InventoryStore.ListApps | apps/backend/src/modules/inventory/inventory.store.ts:10-20 | an empty search lists every app; otherwise the `filter` of the apps containing the lower-cased term, in order, failing exactly when a stored app lacks array tags |
| InventoryStore.ListAppsIgnoresCase | apps/backend/src/modules/inventory/inventory.store.ts:13-18 | searching for a term and for its lower case give the same answer |
| InventoryStore.SearchFailsOnMissingTags | apps/backend/src/modules/inventory/inventory.store.ts:15 | one app without array tags makes every non-empty search fail |
| InventoryStore.SearchFindsByField | apps/backend/src/modules/inventory/inventory.store.ts:14-19 | an app is found when its name, commercial name, description or joined tags contain the term, ignoring case |
| InventoryStore.ListIn | apps/backend/src/modules/inventory/inventory.store.ts:55-58 | a falsy app id lists the whole collection, in order |
| InventoryStore.ListInExact | apps/backend/src/modules/inventory/inventory.store.ts:55-58 | with an app id, a child listing holds exactly that app's stored records |
| InventoryStore.CreateIn | apps/backend/src/modules/inventory/inventory.store.ts:26-31 | one record with the collection's prefix, both instants equal, every input field; other collections unchanged |
| InventoryStore.UpdateIn | apps/backend/src/modules/inventory/inventory.store.ts:33-39 | unknown id changes nothing; otherwise the store update in one collection only |
| InventoryStore.DeleteIn | apps/backend/src/modules/inventory/inventory.store.ts:75-77 | true exactly when the child was present; it is gone and nothing else changes |
| InventoryStore.DeleteApp | apps/backend/src/modules/inventory/inventory.store.ts:41-53 | true exactly when the app existed; the app goes and, in every case, its hostings, domains and integrations go, and only they |
| InventoryStore.DeleteAppOrphansNothing | apps/backend/src/modules/inventory/inventory.store.ts:43-51 | after deleting an app none of its children is listed, and every other app's children still are |
| InventoryStore.CreateKeepsConsistent | apps/backend/src/modules/inventory/inventory.store.ts:26-31 | creating keeps every record of every collection under its own id |
| InventoryStore.UpdateKeepsConsistent | apps/backend/src/modules/inventory/inventory.store.ts:33-39 | an update whose patch has no `id` keeps every record under its own id |
| InventoryStore.DeleteKeepsConsistent | apps/backend/src/modules/inventory/inventory.store.ts:75-77 | deleting a child keeps every record under its own id |
| InventoryStore.DeleteAppKeepsConsistent | apps/backend/src/modules/inventory/inventory.store.ts:41-53 | the cascading delete keeps every record under its own id |
| InventoryRoutes.ListAppsRoute | apps/backend/src/modules/inventory/inventory.routes.ts:11-15 | an empty trimmed term lists all apps; a search answers the `filter` of the matching apps, a subsequence of the apps in their order, unless some app lacks array tags, which is a 500 |
| InventoryRoutes.TagStrings | apps/backend/src/modules/inventory/inventory.routes.ts:29 | an array becomes the strings of its elements, anything else `[]` |
| InventoryRoutes.AppInput | apps/backend/src/modules/inventory/inventory.routes.ts:24-31 | the stored app has trimmed names, optional texts absent when blank, the defaulted status and string tags |
| InventoryRoutes.CreateAppRoute | apps/backend/src/modules/inventory/inventory.routes.ts:17-42 | writers only; both names required; success stores the input under a new `app` id, answers 201 and records one `create` |
| InventoryRoutes.GetAppRoute | apps/backend/src/modules/inventory/inventory.routes.ts:44-55 | 404 exactly for an unknown app; otherwise the app and its three child listings |
| InventoryRoutes.GetAppListsItsChildren | apps/backend/src/modules/inventory/inventory.routes.ts:49-54 | in a consistent inventory the detail lists exactly the children of the requested app |
| InventoryRoutes.AppPatchAsWritten | apps/backend/src/modules/inventory/inventory.routes.ts:59-66 | the edit passes all six fields, an absent one as `undefined` |
| InventoryRoutes.AppPatch | apps/backend/src/modules/inventory/inventory.routes.ts:59-66 | corrected patch: only the text fields the body supplies, and tags only as an array of strings |
| InventoryRoutes.UpdateAppWith | apps/backend/src/modules/inventory/inventory.routes.ts:57-79 | writers only; unknown app is 404; success merges the patch, keeps the id, restamps, changes nothing else and records one `update` |
| InventoryRoutes.UpdateAppRouteAsWritten | apps/backend/src/modules/inventory/inventory.routes.ts:57-79 | as written, every edited field becomes the body's value, `undefined` when absent |
| InventoryRoutes.UpdateAppRoute | apps/backend/src/modules/inventory/inventory.routes.ts:57-79 | corrected: absent fields keep their value and tags stay an array |
| InventoryRoutes.SearchRouteFails | apps/backend/src/modules/inventory/inventory.routes.ts:11-15 | one stored app without array tags makes every search answer an error |
| InventoryRoutes.UpdateWithoutTagsBreaksSearch | apps/backend/src/modules/inventory/inventory.routes.ts:59-66 | as written, an edit without a tags array makes every later search answer an error |
| InventoryRoutes.RenameBreaksSearch | apps/backend/src/modules/inventory/inventory.routes.ts:59-66 | the body `{"name":"X"}` succeeds and then the search for `X` fails |
| InventoryRoutes.CreateAppKeepsTagsArrays | apps/backend/src/modules/inventory/inventory.routes.ts:29 | creating keeps every app's tags an array |
| InventoryRoutes.UpdateAppKeepsTagsArrays | apps/backend/src/modules/inventory/inventory.routes.ts:59-66 | the corrected edit keeps every app's tags an array |
| InventoryRoutes.SearchSucceeds | apps/backend/src/modules/inventory/inventory.routes.ts:11-15 | with array tags everywhere, searching never fails |
| InventoryRoutes.FoundByName | apps/backend/src/modules/inventory/inventory.routes.ts:11-15 | an app is found by its name in any letter case |
| InventoryRoutes.CreatedAppIsFoundByName | apps/backend/src/modules/inventory/inventory.routes.ts:17-42 | a created app is found by searching for its name |
| InventoryRoutes.DeleteAppRoute | apps/backend/src/modules/inventory/inventory.routes.ts:81-95 | admins only; the cascade runs for any id; 204 with one `delete` exactly for a stored app, else 404 with no event |
| InventoryRoutes.DeleteUnknownAppPurgesOrphans | apps/backend/src/modules/inventory/inventory.routes.ts:82-84 | deleting an unknown app still removes the hostings that name it, and answers 404 |
| InventoryRoutes.DomainStatus | apps/backend/src/modules/inventory/inventory.routes.ts:156 | `expirado` and `pendente` are kept; anything else is `ativo` |
| InventoryRoutes.HostingInput | apps/backend/src/modules/inventory/inventory.routes.ts:110-117 | the stored hosting: its app, trimmed provider and ip, the defaulted type, optional notes and region |
| InventoryRoutes.DomainInput | apps/backend/src/modules/inventory/inventory.routes.ts:152-158 | the stored domain: its app, trimmed domain and registrar, the defaulted status, optional expiry |
| InventoryRoutes.IntegrationInput | apps/backend/src/modules/inventory/inventory.routes.ts:195-201 | the stored integration: its app, trimmed provider and name, optional scope and secret reference |
| InventoryRoutes.ListChildRoute | apps/backend/src/modules/inventory/inventory.routes.ts:97-100 | every record for an empty `appId`, otherwise exactly the app's records as a subsequence of the stored ones, each as often as stored; nothing changes |
| InventoryRoutes.CreateChildRoute | apps/backend/src/modules/inventory/inventory.routes.ts:102-121 | writers only; unknown app is 404 before the 400 for a blank required field; success stores the record under the app, changes only that, and records one `create` |
| InventoryRoutes.UpdateChildRouteAsWritten | apps/backend/src/modules/inventory/inventory.routes.ts:123-129 | as written, every body key lands in the record, `id` included, absent keys keep their values, `updatedAt` is restamped, no other record or collection changes, and the audit names the resulting `id` |
| InventoryRoutes.UpdateChildRoute | apps/backend/src/modules/inventory/inventory.routes.ts:123-129 | corrected: `id` and `createdAt` are kept, other body keys land, absent ones stay, no other record or collection changes, and the audit names the edited id |
| InventoryRoutes.UpdateChildWithIdBreaksConsistency | apps/backend/src/modules/inventory/inventory.routes.ts:125-127 | as written, the body `{"id": other}` leaves the record under a key that is not its id and audits `other` |
| InventoryRoutes.DeleteChildRoute | apps/backend/src/modules/inventory/inventory.routes.ts:131-137 | admins only; unknown id is 404 with no event; success removes only that record and records one `delete` |
| InventoryRoutes.CreatedChildIsListed | apps/backend/src/modules/inventory/inventory.routes.ts:102-121 | a created child is listed under its app |
| InventoryRoutes.CreatedChildIsListedLast | apps/backend/src/modules/inventory/inventory.routes.ts:97-121 | after a create under a new id, the app's child listing is the old one followed by the new record |
| InventoryRoutes.DeletedAppHasNoChildren | apps/backend/src/modules/inventory/inventory.routes.ts:81-100 | after an admin deletes an app, no child of it is listed |
| InventoryRoutes.ReaderCannotWriteApps | apps/backend/src/modules/inventory/inventory.routes.ts:17-95 | a reader's create, edit and delete of apps are refused with 403 and change nothing |
| InventoryRoutes.ReaderCannotWriteChildren | apps/backend/src/modules/inventory/inventory.routes.ts:102-221 | a reader's create, edit and delete of children are refused and change nothing |
| InventoryRoutes.CreateRoutesKeepConsistent | apps/backend/src/modules/inventory/inventory.routes.ts:17-42 | the create routes keep every record under its own id |
| InventoryRoutes.UpdateRoutesKeepConsistent | apps/backend/src/modules/inventory/inventory.routes.ts:57-79 | the app edit, as written and corrected, and the corrected child edit keep every record under its own id |
| InventoryRoutes.DeleteRoutesKeepConsistent | apps/backend/src/modules/inventory/inventory.routes.ts:81-95 | the delete routes keep every record under its own id |
| Subscriptions.SubscriptionInput | apps/backend/src/modules/subscriptions/subscriptions.routes.ts:28-34 | the stored subscription: its app, trimmed texts and the defaulted recurrence |
| Routing.ListStoreRoute | apps/backend/src/modules/subscriptions/subscriptions.routes.ts:12-15 | the listing route of subscriptions and, identically, of attachments (attachments.routes.ts:12-15): any role, nothing changes, every record for an empty `appId`, otherwise exactly that app's, as a subsequence of the stored ones, each as often as stored |
| Subscriptions.CreateRoute | apps/backend/src/modules/subscriptions/subscriptions.routes.ts:17-38 | writers only; unknown app is 404 before the 400; success exactly for a provider, holder and four-digit card, stores under a new `sub` id and records one `create` |
| Subscriptions.CreatedCardIsFourDigits | apps/backend/src/modules/subscriptions/subscriptions.routes.ts:23-33 | a created subscription has a four-digit card and one of the two recurrences |
| Subscriptions.UpdateWith | apps/backend/src/modules/subscriptions/subscriptions.routes.ts:40-46 | writers only; unknown id is 404; success merges the patch, restamps, changes nothing else and records one `update` |
| Subscriptions.UpdateRouteAsWritten | apps/backend/src/modules/subscriptions/subscriptions.routes.ts:40-46 | as written, every body key lands in the record, `id` and `createdAt` included |
| Subscriptions.UpdateRoute | apps/backend/src/modules/subscriptions/subscriptions.routes.ts:40-46 | corrected: the id and creation instant are kept and the audit names the edited subscription |
| Subscriptions.UpdateWithIdBreaksKeying | apps/backend/src/modules/subscriptions/subscriptions.routes.ts:42-44 | as written, the body `{"id": other}` leaves the record under a foreign key and audits `other` |
| Subscriptions.UpdateSkipsCardCheck | apps/backend/src/modules/subscriptions/subscriptions.routes.ts:42 | an edit stores any `cardLast4` unchecked |
| Subscriptions.DeleteRoute | apps/backend/src/modules/subscriptions/subscriptions.routes.ts:48-54 | admins only; unknown id is 404 with no event; success removes only that subscription and records one `delete` |
| Subscriptions.CreatedIsListed | apps/backend/src/modules/subscriptions/subscriptions.routes.ts:12-38 | a created subscription is listed under its app |
| Subscriptions.CreatedIsListedLast | apps/backend/src/modules/subscriptions/subscriptions.routes.ts:12-38 | after a create under a new id, the app's listing is the old one followed by the new subscription |
| Subscriptions.DeletedIsNotListed | apps/backend/src/modules/subscriptions/subscriptions.routes.ts:12-54 | a deleted subscription is no longer listed |
| Subscriptions.ReaderCannotWrite | apps/backend/src/modules/subscriptions/subscriptions.routes.ts:17-54 | a reader's writes change nothing and creating is 403 |
| Subscriptions.RoutesKeepKeyedById | apps/backend/src/modules/subscriptions/subscriptions.routes.ts:17-54 | create, the corrected edit and delete keep every subscription under its own id |
| Subscriptions.CreateKeepsKeyedById | apps/backend/src/modules/subscriptions/subscriptions.routes.ts:17-38 | creating keeps every subscription under its own id |
| Subscriptions.UpdateKeepsKeying | apps/backend/src/modules/subscriptions/subscriptions.routes.ts:40-46 | the corrected edit keeps every subscription under its own id |
| Attachments.SizeOf | apps/backend/src/modules/attachments/attachments.routes.ts:23 | the size is a number or `NaN`; a number is kept and a missing size is 0 |
| Attachments.StoragePathSegments | apps/backend/src/modules/attachments/attachments.routes.ts:36 | the path splits into `documents`, the app id and the stamped file name, which has no whitespace |
| Attachments.Content | apps/backend/src/modules/attachments/attachments.routes.ts:44 | the base64 content is kept when it is a string, else `undefined` |
| Attachments.AttachmentInput | apps/backend/src/modules/attachments/attachments.routes.ts:37-45 | the stored attachment: app, trimmed names, parsed size, storage path, the uploader's email, optional content |
| Attachments.BodyError | apps/backend/src/modules/attachments/attachments.routes.ts:24-34 | the body passes exactly when names are given, the size is not too small, within 15 MiB, and the type allowed; missing fields are reported first |
| Attachments.Upload | apps/backend/src/modules/attachments/attachments.store.ts:22-30 | the record under a new `att` id with its creation instant, no update instant, every input field; nothing else changes |
| Attachments.CreateWith | apps/backend/src/modules/attachments/attachments.routes.ts:17-49 | writers only; unknown app is 404 before the body checks; success stores the upload and records one `create` |
| Attachments.CreateRouteAsWritten | apps/backend/src/modules/attachments/attachments.routes.ts:17-49 | as written, the size test is `sizeBytes <= 0`, which `NaN` passes |
| Attachments.CreateRoute | apps/backend/src/modules/attachments/attachments.routes.ts:17-49 | corrected: only a positive number passes the size test |
| Attachments.CreatedSizeInRange | apps/backend/src/modules/attachments/attachments.routes.ts:24-34 | every stored size is between 1 byte and 15 MiB and every media type is one of the four |
| Attachments.TextSizeAccepted | apps/backend/src/modules/attachments/attachments.routes.ts:23-24 | as written, the size `"abc"` is accepted and stored as `NaN`; corrected, it is the missing-fields 400 |
| Attachments.TextIsNaN | apps/backend/src/modules/attachments/attachments.routes.ts:23 | `Number("abc")` is `NaN` |
| Attachments.LimitIsInclusive | apps/backend/src/modules/attachments/attachments.routes.ts:27-29 | exactly 15 MiB is accepted and one byte more is the size 400 |
| Attachments.LimitAccepted | apps/backend/src/modules/attachments/attachments.routes.ts:27-29 | exactly 15 MiB is accepted |
| Attachments.LimitExceeded | apps/backend/src/modules/attachments/attachments.routes.ts:27-29 | one byte over 15 MiB is refused with "Arquivo excede limite de 15MB" |
| Attachments.UnknownAppBeforeBody | apps/backend/src/modules/attachments/attachments.routes.ts:18-19 | an unknown app is 404 whatever the body |
| Attachments.DeleteRoute | apps/backend/src/modules/attachments/attachments.routes.ts:51-57 | writers only; unknown id is 404 with no event; success removes only that attachment and records one `delete` |
| Attachments.CreatedIsListed | apps/backend/src/modules/attachments/attachments.routes.ts:12-49 | an uploaded attachment is listed under its app |
| Attachments.ReaderCannotWrite | apps/backend/src/modules/attachments/attachments.routes.ts:17-57 | a reader can neither upload nor delete |
| Attachments.RoutesKeepKeyedById | apps/backend/src/modules/attachments/attachments.routes.ts:17-57 | uploading and deleting keep every attachment under its own id |
| Alerts.SeverityOf | apps/backend/src/modules/alerts/alerts.routes.ts:15-58 | a missing hosting or domain is `alta`; the other three are `media` |
| Alerts.CodeRoundTrip | apps/backend/src/modules/alerts/alerts.routes.ts:15-58 | each code names its kind back, so no two kinds share a code |
| Alerts.AlertOfInjective | apps/backend/src/modules/alerts/alerts.routes.ts:15-58 | two alerts are equal exactly when they are for the same kind and app |
| Alerts.Raise | apps/backend/src/modules/alerts/alerts.routes.ts:15-58 | the alerts of the missing kinds, pushed by five checks in the fixed order hosting, domain, integration, subscription, attachment; at most five, all naming the app |
| Alerts.RaiseInCheckOrder | apps/backend/src/modules/alerts/alerts.routes.ts:15-58 | filtering the check list by the missing kinds gives the same alerts, in the same order, as the five sequential checks |
| Alerts.InOrderAppend | apps/backend/src/modules/alerts/alerts.routes.ts:15-58 | firing checks keep their relative order: the checks of a concatenation are the concatenation of the checks |
| Alerts.RaiseHas | apps/backend/src/modules/alerts/alerts.routes.ts:15-58 | a kind's alert is raised exactly when the kind is missing |
| Alerts.InOrder | apps/backend/src/modules/alerts/alerts.routes.ts:15-58 | a check fires exactly for a checked kind that is missing, and no more fire than there are checks |
| Alerts.AppAlerts | apps/backend/src/modules/alerts/alerts.routes.ts:12-60 | an app's alerts are the five checks in order, each firing exactly when the app's hosting, domain, integration, subscription or attachment listing is empty; at most five, each naming it |
| Alerts.AppAlertsMissing | apps/backend/src/modules/alerts/alerts.routes.ts:15-58 | an app raises a kind's alert exactly when it has no record of that kind |
| Alerts.CompleteAppIsQuiet | apps/backend/src/modules/alerts/alerts.routes.ts:12-60 | an app with every kind raises nothing |
| Alerts.BareAppRaisesAll | apps/backend/src/modules/alerts/alerts.routes.ts:12-60 | an app with none raises all five in check order, hosting and domain first and `alta` |
| Alerts.AllAlerts | apps/backend/src/modules/alerts/alerts.routes.ts:12-61 | `flatMap`: no apps give no alerts, and otherwise the first app's alerts come before the alerts of the rest |
| Alerts.AllAlertsAppend | apps/backend/src/modules/alerts/alerts.routes.ts:12-61 | the flattening keeps the apps' order |
| Alerts.AlertsRoute | apps/backend/src/modules/alerts/alerts.routes.ts:9-64 | 200, nothing changes; the body is the apps' alerts concatenated in listing order, at most five per app, each naming a listed app |
| Alerts.AlertIffMissing | apps/backend/src/modules/alerts/alerts.routes.ts:15-58 | for a stored app, the view holds a kind's alert exactly when the app has none of that kind |
| Alerts.AlertsNameStoredApps | apps/backend/src/modules/alerts/alerts.routes.ts:10-63 | in a consistent inventory every alert names a stored app by its key |
| Users.RoleOf | apps/backend/src/modules/users/users.routes.ts:21-24 | one of the three role names is that role; anything else is `leitor` |
| Users.RoleFromMeta | apps/backend/src/modules/users/users.routes.ts:19-25 | a present app-metadata role decides; otherwise the user-metadata role, else `leitor` |
| Users.RoleMetaRoundTrip | apps/backend/src/modules/users/users.routes.ts:19-25 | the `{ role }` metadata a create writes reads back as that role |
| Users.UnknownAppRoleHidesUserRole | apps/backend/src/modules/users/users.routes.ts:20-24 | an unknown app role gives `leitor` even over a user-metadata `admin` |
| Users.ParseRole | apps/backend/src/modules/users/users.routes.ts:43-46 | exactly the three role strings parse, naming themselves back; anything else is 400 "role invalido" |
| Users.ParseRoleRoundTrip | apps/backend/src/modules/users/users.routes.ts:43-46 | every role's name parses back to it |
| Users.MapUserAsWritten | apps/backend/src/modules/users/users.routes.ts:27-41 | as written, without a name the account is named by its email, empty or not |
| Users.MapUser | apps/backend/src/modules/users/users.routes.ts:27-41 | corrected: without a name, the email, and `Usuario` when the email is empty |
| Users.Account | apps/backend/src/modules/users/users.routes.ts:32-40 | the mapped id, role, confirmation (exactly when `email_confirmed_at` is truthy), creation instant and last sign-in (present exactly when truthy) |
| Users.NamelessAccount | apps/backend/src/modules/users/users.routes.ts:35 | an account with neither name nor email is named `""` as written and `Usuario` corrected |
| Users.MappedNameIsNonEmpty | apps/backend/src/modules/users/users.routes.ts:35 | without a metadata name, the corrected name is never empty |
| Users.CreatedAccountRoundTrip | apps/backend/src/modules/users/users.routes.ts:80-98 | the email, name and role a create sends come back from the mapping unchanged |
| Users.InsertByEmail | apps/backend/src/modules/users/users.routes.ts:64 | inserting adds exactly that account |
| Users.InsertByEmailSorted | apps/backend/src/modules/users/users.routes.ts:64 | inserting into a list ordered by email keeps it ordered |
| Users.SortByEmail | apps/backend/src/modules/users/users.routes.ts:64 | sorting is a permutation |
| Users.SortByEmailSorted | apps/backend/src/modules/users/users.routes.ts:64 | the sorted list is ordered by email |
| Users.MapAll | apps/backend/src/modules/users/users.routes.ts:62-63 | each listed account is mapped, in place |
| Users.ListRoute | apps/backend/src/modules/users/users.routes.ts:57-67 | admins only; unconfigured is 400; a remote error is 500; success is the mapped accounts, ordered by email, as a permutation |
| Users.CreateCall | apps/backend/src/modules/users/users.routes.ts:70-86 | the role is checked before the required fields; the call carries the trimmed lower-case email, the password verbatim, the role and the trimmed name |
| Users.CreateRoute | apps/backend/src/modules/users/users.routes.ts:69-99 | admins only; the remote call happens only for a valid body; a refusal or no user is 400; success is 201 with the mapped account and one `create` event |
| Users.RoleCheckedFirst | apps/backend/src/modules/users/users.routes.ts:73-78 | an unknown role is reported even with every required field missing |
| Users.PatchOf | apps/backend/src/modules/users/users.routes.ts:113-116 | a patch field is present exactly when the body field is truthy, normalised as on create; a truthy bad role is 400 |
| Users.PatchRoundTrip | apps/backend/src/modules/users/users.routes.ts:113-116 | the body of a normal patch asks for exactly that patch |
| Users.EmailRoundTrip | apps/backend/src/modules/users/users.routes.ts:113 | a normal email is sent as itself |
| Users.PasswordRoundTrip | apps/backend/src/modules/users/users.routes.ts:114 | a non-empty password is sent as itself |
| Users.NameRoundTrip | apps/backend/src/modules/users/users.routes.ts:116 | a trimmed non-empty name is sent as itself |
| Users.UpdateRoute | apps/backend/src/modules/users/users.routes.ts:101-134 | admins only; a blank id, a bad role or an empty patch is 400 before the remote call; a valid request makes exactly the `updateUserById` call with the patch; a remote error or a missing user is 400 `SUPABASE_ERROR` with no event; success is 200 with the mapped account and one `update` event naming the id |
| Users.FalsyBodyIsRefused | apps/backend/src/modules/users/users.routes.ts:113-120 | a body whose fields are all falsy is 400 "Nenhum campo para atualizar" with no remote call |
| Users.DeleteRoute | apps/backend/src/modules/users/users.routes.ts:136-157 | admins only; a blank id and the caller's own id are 400 before the remote call; any other id makes exactly the `deleteUser` call; a remote error is 400 `SUPABASE_ERROR` with no event; success is 204 with one `delete` event |
| Users.NoSelfDelete | apps/backend/src/modules/users/users.routes.ts:141-143 | an account never deletes itself and makes no remote call trying |
| Users.OnlyAdminsCall | apps/backend/src/modules/users/users.routes.ts:57-157 | no other role reaches the remote API |
| Env.Required | apps/backend/src/config/env.ts:5-11 | the variable when set, else the fallback; an empty result, including a variable set to `""`, is "Missing env var: name" |
| Env.NumberVar | apps/backend/src/config/env.ts:15-18 | a numeric setting is the number of the variable's text, else the default |
| Env.Load | apps/backend/src/config/env.ts:13-19 | start-up fails exactly when `TOKEN_SECRET` is set empty; every field is its variable or its default |
| Env.Defaults | apps/backend/src/config/env.ts:14-18 | with nothing set: `development`, port 3333, `controle-app-backend`, the development secret, 28800 s |
| Env.SetVariablesWin | apps/backend/src/config/env.ts:14-17 | a set variable wins over its default |
| Env.DecimalPort | apps/backend/src/config/env.ts:15 | a decimal `PORT` is read back as its value |
| Env.EmptySecretStops | apps/backend/src/config/env.ts:6-9 | an empty `TOKEN_SECRET` stops start-up instead of falling back |
| BumpBuild.Pad | scripts/bump-build.mjs:12 | the padded number is digits only, at least two long, exactly two below 100 |
| BumpBuild.PadRoundTrip | scripts/bump-build.mjs:12 | a padded number below 100 reads back as itself |
| BumpBuild.Bump | scripts/bump-build.mjs:9-19 | the build number goes up by one with major and minor unchanged, and the label and file are built from the new number |
| BumpBuild.RunsCount | scripts/bump-build.mjs:9 | two runs raise the build number by two |
| BumpBuild.StampRoundTrip | scripts/bump-build.mjs:13 | the stamp splits into a date and a time of three fields each, which read back as day, month (from 1), year, hours, minutes, seconds |
| BumpBuild.StampSplits | scripts/bump-build.mjs:13 | the stamp is `DD.MM.YYYY-HH.MM.SS` field by field |
| BumpBuild.VersionCarriesBuild | scripts/bump-build.mjs:15 | the label is `major.minor.build` of the new build, then `-`, then the stamp |

## Left out

- Network and persistence. The Supabase client (`apps/backend/src/integrations/supabase.ts` is not part of this model) and the remote branches of the audit service are left out. The user routes record the admin call they would make, and take its answer as a parameter.
- Crypto primitives. AES-256-GCM, SHA-256, HMAC-SHA256, base64, UTF-8 and JSON are abstract fields of `Crypto`, with round-trip laws. Tamper and wrong-key detection are cryptographic, so they are not proved.
- Clock and randomness. `Date.now`, `toISOString`, the iv and the id bytes are parameters.
- Audit.Record: the routes call `record` without awaiting it. The model appends each event at once, in the order the route issues it, because nothing observable depends on the timing.
- Reply wrappers. The listing routes answer `{ items }` and `GET /me` answers `{ user }`. The model's reply body is the wrapped value itself, since a single-key wrapper carries no information.
- Express wiring. Router mounting, CORS, JSON body parsing, `express-async-errors` and the health and audit routes are left out. Each handler is modelled as if mounted, with `requireAuth` already passed. A body that is not an object is read like `{}`.
- Audit listing route. `audit.routes.ts` passes an unawaited promise to `json`, and its behaviour depends on the Express serialiser, which is not modelled.
- Users.ListRoute: emails are ordered lexicographically by Unicode code point instead of by `localeCompare`, which depends on the locale.
- Users.ListRoute: replies through the corrected Users.MapUser, so an account with neither a metadata name nor an email is named `Usuario`; the code as written names it `""` (see Findings).
- Users.CreateRoute: replies through the corrected Users.MapUser; a created account whose remote record has neither name nor email is named `Usuario`, where the code names it `""`.
- Users.UpdateRoute: replies through the corrected Users.MapUser; an updated account whose remote record has neither name nor email is named `Usuario`, where the code names it `""`.
- Users.ListRoute: the `page: 1, perPage: 200` limit of the remote listing belongs to the remote API.
- Text.ToLower: only ASCII letters are lower-cased. Case mapping beyond ASCII needs Unicode tables.
- Js.StringToNumber: numbers are integers, and only optionally signed decimal digits are read; every other text is `NaN`. `Number` also reads fractions (`"1.5"`, `"8080.0"`), exponents (`"1e3"`), hex, octal and binary literals (`"0x10"`) and `Infinity`. Fractions need real numbers, and the other forms are rare in this program's inputs.
- Attachments.CreateRouteAsWritten: a `sizeBytes` text such as `"1e3"` or `"0x10"` is stored as `NaN`, where the code stores 1000 or 16, because Js.StringToNumber does not read those forms.
- Attachments.CreateRoute: a `sizeBytes` text such as `"1e3"` or `"0x10"` is refused with 400, where the code, and its correction, would accept 1000 or 16.
- Env.NumberVar: a `PORT` or `TOKEN_TTL_SECONDS` written `"8080.0"`, `"1e3"` or `"0x1F90"` reads as `NaN`, where Node reads a number.
- Attachments.SizeOf: a fractional size is outside the model, since numbers are integers.
- Id collisions. Two creates that draw the same random bytes overwrite each other, as `Map.set` does. No lemma rules this out; the random bytes are a parameter.
- Strict equality. `===` is modelled as value equality. The two differ only for `NaN` and for distinct objects, and neither is an id being compared.
- Env: loading `.env` through `dotenv` is left out; the environment is a parameter.
- BumpBuild: reading and writing `build-meta.json` and `buildInfo.ts`, and the console log, are left out. `JSON.stringify` formatting is not modelled. The meta fields are taken to be integers.

## Findings

| source | as written | input that shows it | evidently intended | confidence | as-written member | corrected member |
|---|---|---|---|---|---|---|
| apps/backend/src/core/http/auth.middleware.ts:14-24 | `requireAuth` calls `.then` on the synchronous result of `verifyToken`. That result is a user or `null`, neither of which has a `then`, so every non-empty token ends in a 500. | the bearer header of a fresh admin login (`AuthMiddleware.BearerLoginRoundTrip`) | a verified user is attached and passes; a refused token is 401 "Token invalido ou expirado" | high; not executed | AuthMiddleware.RequireAuthAsWritten | AuthMiddleware.RequireAuth |
| apps/backend/src/modules/inventory/inventory.routes.ts:59-66 | the app edit always passes all six fields. A body without `tags` stores `tags: undefined`, and from then on every app search throws on `tags.join`. | `PUT /apps/:id` with `{"name":"X"}`, then `GET /apps?search=X` (`InventoryRoutes.RenameBreaksSearch`) | absent fields keep their value, and tags stay an array | medium; not executed | InventoryRoutes.UpdateAppRouteAsWritten | InventoryRoutes.UpdateAppRoute |
| apps/backend/src/modules/inventory/inventory.routes.ts:125-127 | the child edits spread the whole body, so a body `id` replaces the record's id under the old key, and the audit names the body's id | `PUT /hostings/:id` with `{"id":"other"}` (`InventoryRoutes.UpdateChildWithIdBreaksConsistency`) | `id` and `createdAt` cannot be edited, as the store's `Partial<Omit<…, "id" \| "createdAt">>` signature says | medium; not executed | InventoryRoutes.UpdateChildRouteAsWritten | InventoryRoutes.UpdateChildRoute |
| apps/backend/src/modules/subscriptions/subscriptions.routes.ts:42-44 | the subscription edit spreads the whole body, with the same effect on `id` | `PUT /subscriptions/:id` with `{"id":"other"}` (`Subscriptions.UpdateWithIdBreaksKeying`) | `id` and `createdAt` cannot be edited | medium; not executed | Subscriptions.UpdateRouteAsWritten | Subscriptions.UpdateRoute |
| apps/backend/src/modules/attachments/attachments.routes.ts:23-24 | `Number("abc")` is `NaN`, and `NaN <= 0` and `NaN > 15728640` are both false, so the upload is stored with size `NaN` | `sizeBytes: "abc"` (`Attachments.TextSizeAccepted`) | only a positive size is accepted | high; not executed | Attachments.CreateRouteAsWritten | Attachments.CreateRoute |
| apps/backend/src/modules/users/users.routes.ts:35 | `userMeta.name ?? email ?? "Usuario"`: `email` is always a string, so `"Usuario"` is never reached and an account without name or email is named `""` | a Supabase user `{ id: "u1" }` (`Users.NamelessAccount`) | `"Usuario"` when there is neither a name nor an email | medium; not executed | Users.MapUserAsWritten | Users.MapUser |
