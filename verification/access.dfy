/** Who may do what: the per-view permission tests, the inline
    owner-or-director checks, which projects a listing shows, and the
    role-based middleware that runs before every view. */
module Access {
  import opened Common
  import opened Text
  import opened Users
  import opened Records

  /** The inline check shared by the work-log view, `submit_project` and the
      kanban status update, and the detail view's permission test: directors
      oversee every project, everyone else only their own. */
  predicate OwnerOrDirector(u: User, p: Project)
  {
    IsDirector(u) || u.id == p.owner
  }

  /** The project-creation view's permission test: directors may not create. */
  predicate CanCreateProject(u: User)
  {
    !IsDirector(u)
  }

  /** The permission test of the update view (and of the submit view): only
      the owner, and only before submission. */
  predicate CanEditProject(u: User, p: Project)
  {
    u.id == p.owner && !p.isSubmitted
  }

  /** The projects a listing shows (the list, kanban and timeline querysets):
      directors see every project, everyone else the projects they own. */
  function VisibleProjects(u: User, projects: map<ProjectId, Project>): (ids: set<ProjectId>)
    ensures ids <= projects.Keys
    ensures IsDirector(u) ==> ids == projects.Keys
    ensures !IsDirector(u) ==>
      forall id :: id in projects ==> (id in ids <==> projects[id].owner == u.id)
  {
    if IsDirector(u) then projects.Keys
    else set id | id in projects && projects[id].owner == u.id
  }

  /** Facts the permission tests promise together: a director can never
      create, a submitted project is read-only to everybody, whoever may edit
      may also view, and the detail view admits exactly the listed projects. */
  lemma PermissionFacts(u: User, p: Project, id: ProjectId, projects: map<ProjectId, Project>)
    ensures IsDirector(u) ==> !CanCreateProject(u)
    ensures p.isSubmitted ==> !CanEditProject(u, p)
    ensures CanEditProject(u, p) ==> OwnerOrDirector(u, p)
    ensures u.id == p.owner ==> OwnerOrDirector(u, p)
    ensures id in projects ==>
      (id in VisibleProjects(u, projects) <==> OwnerOrDirector(u, projects[id]))
  {
  }

  /** Why the middleware turned a request away; each reason carries its own
      flash message. */
  datatype RedirectReason = DirectorOnlyPage | DirectorsCannotCreate

  /** `None` lets the request through; `Some(reason)` redirects to the list. */
  type MiddlewareDecision = Option<RedirectReason>

  const DirectorOnlyNeedle := "adminsite"
  const EmployeeOnlyNeedle := "projectcreate"

  /** The middleware's decision for a view, from the view function's name. */
  function ProcessView(actor: Actor, viewName: string): (d: MiddlewareDecision)
    ensures actor.Anonymous? ==> d == None
    ensures d == Some(DirectorOnlyPage) <==>
      actor.Member? && !IsDirector(actor.user)
      && Occurs(DirectorOnlyNeedle, Lower(viewName))
    ensures d == Some(DirectorsCannotCreate) <==>
      actor.Member? && IsDirector(actor.user)
      && Occurs(EmployeeOnlyNeedle, Lower(viewName))
  {
    match actor
    case Anonymous => None
    case Member(u) =>
      var name := Lower(viewName);
      if Contains(DirectorOnlyNeedle, name) && !IsDirector(u) then Some(DirectorOnlyPage)
      else if Contains(EmployeeOnlyNeedle, name) && IsDirector(u) then Some(DirectorsCannotCreate)
      else None
  }

  /** Matching ignores letter case: names that lower-case alike are treated
      alike, and in particular a name and its lower-cased form. */
  lemma ProcessViewIgnoresCase(actor: Actor, a: string, b: string)
    requires Lower(a) == Lower(b)
    ensures ProcessView(actor, a) == ProcessView(actor, b)
    ensures ProcessView(actor, a) == ProcessView(actor, Lower(a))
  {
    LowerIdempotent(a);
  }

  /** The middleware only ever redirects a director away from the creation
      page and a non-director away from the admin page; in every other case
      (for instance the project list) it lets the request through. */
  lemma ProcessViewRedirectsOnlyByRole(actor: Actor, viewName: string)
    ensures ProcessView(actor, viewName).Some? ==> actor.Member?
    ensures actor.Member? && IsDirector(actor.user) ==>
      ProcessView(actor, viewName) != Some(DirectorOnlyPage)
    ensures actor.Member? && !IsDirector(actor.user) ==>
      ProcessView(actor, viewName) != Some(DirectorsCannotCreate)
  {
  }
}
