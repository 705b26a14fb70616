/** The role enumeration of the user schema, and its text form. */
module Roles {
  import opened Results

  /** The four values of the schema's `role` enum, named as they are stored. */
  datatype Role = SUPERADMIN | USER | ADMIN | CLIENT

  /** The string a role is stored and compared as. */
  function RoleName(r: Role): string {
    match r
    case SUPERADMIN => "SUPERADMIN"
    case USER => "USER"
    case ADMIN => "ADMIN"
    case CLIENT => "CLIENT"
  }

  /** The role a string names; exact, case-sensitive comparison as in `enum` and `includes`. */
  function ParseRole(s: string): (r: Option<Role>)
    ensures r.Some? ==> RoleName(r.value) == s
  {
    if s == "SUPERADMIN" then Some(SUPERADMIN)
    else if s == "USER" then Some(USER)
    else if s == "ADMIN" then Some(ADMIN)
    else if s == "CLIENT" then Some(CLIENT)
    else None
  }

  /** Every role is read back from its name. */
  lemma ParseRoleName(r: Role)
    ensures ParseRole(RoleName(r)) == Some(r)
  {
  }

  /** A role name holds only capital letters, so never a space or a dot. */
  lemma RoleNameLetters(r: Role)
    ensures forall k :: 0 <= k < |RoleName(r)| ==> 'A' <= RoleName(r)[k] <= 'Z'
  {
  }
}
