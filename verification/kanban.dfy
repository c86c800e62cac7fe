/** The kanban board's status update: who may move a card, and which
    completion flag each column implies. The flag is not a stored column,
    so the update never changes what is persisted; only the decision is
    modelled. */
module Kanban {
  import opened Common
  import opened Users
  import opened Records
  import opened Access

  const CompletedStatus := "completed"
  const NotStartedStatus := "not_started"
  const InProgressStatus := "in_progress"

  /** The request body: `Unparsable` when it is not a JSON object, otherwise
      its optional `status` entry. */
  datatype StatusBody = Unparsable | Parsed(status: Option<string>)

  datatype StatusResponse =
    | StatusNotFound                        // 404
    | StatusDenied                          // 403
    | StatusBadRequest                      // 400
    | StatusSaved(isCompleted: Option<bool>)  // the flag set on the project, if any

  /** The completion flag a column implies; any other status sets none. */
  function CompletionFor(status: Option<string>): (r: Option<bool>)
    ensures status == Some(CompletedStatus) ==> r == Some(true)
    ensures status == Some(NotStartedStatus) || status == Some(InProgressStatus) ==> r == Some(false)
    ensures r.Some? ==>
      status.Some? && status.value in {CompletedStatus, NotStartedStatus, InProgressStatus}
  {
    if status == Some(CompletedStatus) then Some(true)
    else if status == Some(NotStartedStatus) || status == Some(InProgressStatus) then Some(false)
    else None
  }

  /** The status update: lookup first, then permission, then the body. */
  function UpdateProjectStatus(s: Store, u: User, pid: ProjectId, body: StatusBody): (r: StatusResponse)
    ensures r == StatusNotFound <==> pid !in s.projects
    ensures r == StatusDenied <==> pid in s.projects && !OwnerOrDirector(u, s.projects[pid])
    ensures r == StatusBadRequest <==>
      pid in s.projects && OwnerOrDirector(u, s.projects[pid]) && body.Unparsable?
    ensures r.StatusSaved? ==> body.Parsed? && r.isCompleted == CompletionFor(body.status)
  {
    if pid !in s.projects then StatusNotFound
    else if !OwnerOrDirector(u, s.projects[pid]) then StatusDenied
    else match body
      case Unparsable => StatusBadRequest
      case Parsed(status) => StatusSaved(CompletionFor(status))
  }

  /** A column name outside the three leaves the flag alone, and so does a
      body without a status. */
  lemma OtherStatusSetsNothing(s: Store, u: User, pid: ProjectId, status: Option<string>)
    requires pid in s.projects && OwnerOrDirector(u, s.projects[pid])
    requires status.None? || status.value !in {CompletedStatus, NotStartedStatus, InProgressStatus}
    ensures UpdateProjectStatus(s, u, pid, Parsed(status)) == StatusSaved(None)
  {
  }
}
