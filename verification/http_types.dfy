/** Roles and the authenticated user (apps/backend/src/core/http/types.ts). */
module HttpTypes {
  import opened Wrappers

  datatype Role = Admin | Editor | Leitor

  /** The role as it travels in tokens, metadata and request bodies. */
  function RoleName(r: Role): string {
    match r
    case Admin => "admin"
    case Editor => "editor"
    case Leitor => "leitor"
  }

  /** The role a string names, if any. */
  function ParseRoleName(s: string): (r: Option<Role>)
    ensures r.Some? <==> s == "admin" || s == "editor" || s == "leitor"
  {
    if s == "admin" then Some(Admin)
    else if s == "editor" then Some(Editor)
    else if s == "leitor" then Some(Leitor)
    else None
  }

  /** Names and roles correspond one to one. */
  lemma RoleNameRoundTrip(r: Role, s: string)
    ensures ParseRoleName(RoleName(r)) == Some(r)
    ensures ParseRoleName(s) == Some(r) ==> RoleName(r) == s
  {
  }

  datatype AuthUser = AuthUser(id: string, email: string, role: Role, name: string)
}
