/** The role gates the pages apply to the signed-in user's cached profile
    (`user?.role === ...`). The cached user is a document whose `role` field
    holds one of the role names; a signed-out visitor has no user. */
module Access {
  import opened Common

  /** `user?.role`: the role field of the cached user, when it is a string. */
  function UserRole(user: Option<Doc>): Option<string>
  {
    if user.Some? then StrField(user.value, "role") else None
  }

  /** `user?.role === 'Admin' || user?.role === 'Editor'`: may create and edit
      entries. */
  predicate CanEdit(user: Option<Doc>)
  {
    UserRole(user) == Some("Admin") || UserRole(user) == Some("Editor")
  }

  /** `user?.role === 'Admin'`. */
  predicate IsAdminUser(user: Option<Doc>)
  {
    UserRole(user) == Some("Admin")
  }

  /** The role the cached user's role field names, if it names one. */
  function RoleOf(user: Option<Doc>): (r: Option<Role>)
    ensures r.Some? ==> UserRole(user) == Some(RoleName(r.value))
  {
    if UserRole(user).Some? then ParseRole(UserRole(user).value) else None
  }

  /** Editing is open to exactly the Admin and Editor roles: viewers, a role
      field naming no role and signed-out visitors are all refused. */
  lemma CanEditIffRole(user: Option<Doc>)
    ensures CanEdit(user) <==> RoleOf(user) == Some(Admin) || RoleOf(user) == Some(Editor)
    ensures IsAdminUser(user) <==> RoleOf(user) == Some(Admin)
  {
  }

  /** Whoever sees the admin link may also edit. */
  lemma AdminCanEdit(user: Option<Doc>)
    requires IsAdminUser(user)
    ensures CanEdit(user)
  {
  }
}
