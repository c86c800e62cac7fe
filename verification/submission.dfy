/** Creating, editing and submitting projects: the create and update views,
    the two live submission paths (`submit_project` and the detail view's
    POST), and the submit view whose shadowed methods keep it from
    submitting. */
module Submission {
  import opened Common
  import opened Users
  import opened Records
  import opened Access

  datatype Response =
    | NotFound      // 404
    | Forbidden     // 403
    | Done          // the success redirect or JSON
    | ServerError   // an exception escaped the view

  /** The project `pid` was replaced by `p`; nothing else in the store moved. */
  predicate OnlyProjectChanged(s: Store, s': Store, pid: ProjectId, p: Project)
  {
    pid in s.projects && s' == s.(projects := s.projects[pid := p])
  }

  /** The project creation view: anyone but a director; the new project is
      owned by its creator and takes the next key. */
  function CreateProject(s: Store, u: User, f: ProjectFields, now: Instant): (r: (Store, Response))
    requires WellFormed(s)
    ensures r.1 == Forbidden <==> IsDirector(u)
    ensures r.1 == Done <==> !IsDirector(u)
    ensures r.1 != Done ==> r.0 == s
    ensures r.1 == Done ==>
      var id := s.nextProjectId;
      && id !in s.projects
      && r.0.projects == s.projects[id := NewProject(u.id, f, now)]
      && r.0.nextProjectId == id + 1
      && r.0.logs == s.logs && r.0.tokens == s.tokens
    ensures r.1 == Done ==>
      (s.nextProjectId in r.0.projects
       && r.0.projects[s.nextProjectId].owner == u.id
       && !r.0.projects[s.nextProjectId].isSubmitted
       && !r.0.projects[s.nextProjectId].clientConfirmedCompleted)
  {
    if !CanCreateProject(u) then (s, Forbidden)
    else
      var id := s.nextProjectId;
      (s.(projects := s.projects[id := NewProject(u.id, f, now)], nextProjectId := id + 1), Done)
  }

  /** The update view: the owner, before submission, replaces the form's
      fields; ownership, submission state and client feedback stay. */
  function UpdateProject(s: Store, u: User, pid: ProjectId, f: ProjectFields): (r: (Store, Response))
    ensures pid !in s.projects ==> r == (s, NotFound)
    ensures r.1 == Forbidden <==> pid in s.projects && !CanEditProject(u, s.projects[pid])
    ensures r.1 == Done <==> pid in s.projects && CanEditProject(u, s.projects[pid])
    ensures r.1 != Done ==> r.0 == s
    ensures r.1 == Done ==>
      pid in s.projects && pid in r.0.projects &&
      var p := s.projects[pid];
      var q := r.0.projects[pid];
      && OnlyProjectChanged(s, r.0, pid, q)
      && FieldsOf(q) == f
      && q.owner == p.owner && q.isSubmitted == p.isSubmitted == false
      && q.submissionDate == p.submissionDate && q.createdAt == p.createdAt
      && q.clientEmail == p.clientEmail && q.clientFeedback == p.clientFeedback
      && q.clientConfirmedCompleted == p.clientConfirmedCompleted
  {
    if pid !in s.projects then (s, NotFound)
    else
      var p := s.projects[pid];
      if !CanEditProject(u, p) then (s, Forbidden)
      else
        var q := p.(name := f.name, category := f.category, tenderAwardDate := f.tenderAwardDate,
                    completionDate := f.completionDate, company := f.company,
                    location := f.location, description := f.description);
        (s.(projects := s.projects[pid := q]), Done)
  }

  /** `submit_project`: owner or director marks the project submitted and
      stamps the submission time, whether or not it was submitted before. */
  function SubmitProject(s: Store, u: User, pid: ProjectId, now: Instant): (r: (Store, Response))
    ensures pid !in s.projects ==> r == (s, NotFound)
    ensures r.1 == Forbidden <==> pid in s.projects && !OwnerOrDirector(u, s.projects[pid])
    ensures r.1 == Done <==> pid in s.projects && OwnerOrDirector(u, s.projects[pid])
    ensures r.1 != Done ==> r.0 == s
    ensures r.1 == Done ==>
      pid in s.projects && pid in r.0.projects &&
      var p := s.projects[pid];
      var q := r.0.projects[pid];
      && OnlyProjectChanged(s, r.0, pid, q)
      && q.isSubmitted && q.submissionDate == Some(now)
      && q.(isSubmitted := p.isSubmitted, submissionDate := p.submissionDate) == p
  {
    if pid !in s.projects then (s, NotFound)
    else
      var p := s.projects[pid];
      if !OwnerOrDirector(u, p) then (s, Forbidden)
      else (s.(projects := s.projects[pid := p.(isSubmitted := true, submissionDate := Some(now))]), Done)
  }

  /** The detail view's POST: its permission test admits owner or director;
      only the owner's POST on an unsubmitted project submits it, and this
      path leaves the submission time untouched. Everyone admitted is
      redirected back to the page. */
  function DetailPost(s: Store, u: User, pid: ProjectId): (r: (Store, Response))
    ensures pid !in s.projects ==> r == (s, NotFound)
    ensures r.1 == Forbidden <==> pid in s.projects && !OwnerOrDirector(u, s.projects[pid])
    ensures r.1 == Done <==> pid in s.projects && OwnerOrDirector(u, s.projects[pid])
    ensures r.0 != s <==> pid in s.projects && CanEditProject(u, s.projects[pid])
    ensures r.0 != s ==>
      pid in s.projects && pid in r.0.projects &&
      var p := s.projects[pid];
      var q := r.0.projects[pid];
      OnlyProjectChanged(s, r.0, pid, q) && q == p.(isSubmitted := true)
  {
    if pid !in s.projects then (s, NotFound)
    else
      var p := s.projects[pid];
      if !OwnerOrDirector(u, p) then (s, Forbidden)
      else if !p.isSubmitted && u.id == p.owner then
        assert s.projects[pid := p.(isSubmitted := true)][pid] != p;
        (s.(projects := s.projects[pid := p.(isSubmitted := true)]), Done)
      else (s, Done)
  }

  /** The submit view as the class reads: the later `form_valid` (which
      sets nothing) shadows the one that submits, and the later
      `get_success_url` asks the project for a `project` attribute it does
      not have, so an admitted POST saves the project unchanged and fails. */
  function SubmitViewAsWritten(s: Store, u: User, pid: ProjectId): (r: (Store, Response))
    ensures r.0 == s
    ensures pid !in s.projects ==> r.1 == NotFound
    ensures r.1 == Forbidden <==> pid in s.projects && !CanEditProject(u, s.projects[pid])
    ensures r.1 == ServerError <==> pid in s.projects && CanEditProject(u, s.projects[pid])
  {
    if pid !in s.projects then (s, NotFound)
    else if !CanEditProject(u, s.projects[pid]) then (s, Forbidden)
    else (s, ServerError)
  }

  /** The owner's POST through the submit view leaves the project
      unsubmitted. */
  lemma SubmitViewNeverSubmits(s: Store, u: User, pid: ProjectId)
    requires pid in s.projects && CanEditProject(u, s.projects[pid])
    ensures var r := SubmitViewAsWritten(s, u, pid);
      !r.0.projects[pid].isSubmitted && r.1 == ServerError
  {
  }

  /** The submit view as its first `form_valid` and `get_success_url`
      intend: the owner's POST on an unsubmitted project submits it and
      redirects to the detail page. */
  function SubmitViewIntended(s: Store, u: User, pid: ProjectId): (r: (Store, Response))
    ensures pid !in s.projects ==> r == (s, NotFound)
    ensures r.1 == Forbidden <==> pid in s.projects && !CanEditProject(u, s.projects[pid])
    ensures r.1 != Done ==> r.0 == s
    ensures r.1 == Done <==> pid in s.projects && CanEditProject(u, s.projects[pid])
    ensures r.1 == Done ==>
      pid in s.projects && pid in r.0.projects &&
      var q := r.0.projects[pid];
      OnlyProjectChanged(s, r.0, pid, q) && q == s.projects[pid].(isSubmitted := true)
  {
    if pid !in s.projects then (s, NotFound)
    else
      var p := s.projects[pid];
      if !CanEditProject(u, p) then (s, Forbidden)
      else (s.(projects := s.projects[pid := p.(isSubmitted := true)]), Done)
  }

  /** The intended submit view does submit, and agrees with the detail
      view's POST for the owner of an unsubmitted project. */
  lemma SubmitViewIntendedSubmits(s: Store, u: User, pid: ProjectId)
    requires pid in s.projects && CanEditProject(u, s.projects[pid])
    ensures var r := SubmitViewIntended(s, u, pid);
      r.1 == Done && r.0.projects[pid].isSubmitted && r == DetailPost(s, u, pid)
  {
  }

  /** After submission the owner can no longer edit, but `submit_project`
      still accepts a second call and moves the submission time. */
  lemma ResubmitMovesSubmissionTime(s: Store, u: User, pid: ProjectId, f: ProjectFields,
                                    now: Instant)
    requires pid in s.projects && s.projects[pid].isSubmitted && u.id == s.projects[pid].owner
    ensures UpdateProject(s, u, pid, f) == (s, Forbidden)
    ensures var r := SubmitProject(s, u, pid, now);
      r.1 == Done && r.0.projects[pid].submissionDate == Some(now)
  {
  }
}
