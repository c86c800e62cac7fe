/** The custom user model: a login account carrying a free-text role
    column whose default is "employee". */
module Users {
  import opened Common

  const EmployeeRole := "employee"
  const DirectorRole := "director"

  datatype User = User(id: UserId, userType: string)

  /** Whoever sent a request: nobody logged in, or an account. */
  datatype Actor = Anonymous | Member(user: User)

  predicate IsDirector(u: User)
  {
    u.userType == DirectorRole
  }

  predicate IsEmployee(u: User)
  {
    u.userType == EmployeeRole
  }

  /** An account created without naming a role gets the column default. */
  function NewUser(id: UserId): (u: User)
    ensures u.id == id
    ensures IsEmployee(u) && !IsDirector(u)
  {
    User(id, EmployeeRole)
  }

  /** The two role predicates never hold together (a role column outside the
      two choices makes both false). */
  lemma RolesExclusive(u: User)
    ensures !(IsDirector(u) && IsEmployee(u))
    ensures IsDirector(u) <==> u.userType == "director"
    ensures IsEmployee(u) <==> u.userType == "employee"
  {
  }
}
