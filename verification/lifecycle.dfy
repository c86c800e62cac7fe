/** The store across a sequence of requests: every writing view keeps the
    schema's constraints, and the one-way flags (a project's submission, a
    token's use) never go back. */
module Lifecycle {
  import opened Common
  import opened Users
  import opened Records
  import opened WorkLogForms
  import opened Submission
  import opened Feedback

  /** The requests that write to the database. */
  datatype Request =
    | Create(u: User, fields: ProjectFields, now: Instant)
    | Update(u: User, pid: ProjectId, fields: ProjectFields)
    | Submit(u: User, pid: ProjectId, now: Instant)
    | DetailSubmit(u: User, pid: ProjectId)
    | SubmitViewPost(u: User, pid: ProjectId)
    | LogWork(u: User, pid: ProjectId, input: WorkLogInput, today: Day, ajax: bool)
    | AskFeedback(u: User, pid: ProjectId, freshId: TokenId, now: Instant, delivered: bool)
    | Redeem(id: TokenId, req: RedeemRequest)

  /** A token in a later state: the same token, or the same token used. */
  predicate TokenSuccessor(t: FeedbackToken, t': FeedbackToken)
  {
    t' == t || t' == MarkUsed(t)
  }

  /** How a store may move forward: no project is deleted, changes hands or
      goes back to unsubmitted; logs are only appended; tokens are only
      appended or marked used. */
  predicate Evolves(s: Store, s': Store)
  {
    && s.nextProjectId <= s'.nextProjectId
    && (forall pid :: pid in s.projects ==>
          && pid in s'.projects
          && s'.projects[pid].owner == s.projects[pid].owner
          && (s.projects[pid].isSubmitted ==> s'.projects[pid].isSubmitted))
    && s.logs <= s'.logs
    && |s.tokens| <= |s'.tokens|
    && (forall i :: 0 <= i < |s.tokens| ==> TokenSuccessor(s.tokens[i], s'.tokens[i]))
  }

  lemma EvolvesTransitive(s1: Store, s2: Store, s3: Store)
    requires Evolves(s1, s2) && Evolves(s2, s3)
    ensures Evolves(s1, s3)
  {
    forall i | 0 <= i < |s1.tokens|
      ensures TokenSuccessor(s1.tokens[i], s3.tokens[i])
    {
      MarkUsedIdempotent(s1.tokens[i]);
    }
  }

  lemma LogWorkEvolves(s: Store, u: User, pid: ProjectId, input: WorkLogInput, today: Day,
                       ajax: bool)
    requires WellFormed(s)
    ensures var s' := AddWorkLog(s, u, pid, input, today, ajax).0;
      WellFormed(s') && Evolves(s, s')
  {
    AddWorkLogKeepsWellFormed(s, u, pid, input, today, ajax);
  }

  lemma AskFeedbackEvolves(s: Store, u: User, pid: ProjectId, freshId: TokenId, now: Instant,
                           delivered: bool)
    requires WellFormed(s)
    ensures var s' := RequestFeedback(s, u, pid, freshId, now, delivered).0;
      WellFormed(s') && Evolves(s, s')
  {
    var s' := RequestFeedback(s, u, pid, freshId, now, delivered).0;
    assert forall i :: 0 <= i < |s.tokens| ==> s'.tokens[i] == s.tokens[i];
  }

  lemma RedeemEvolves(s: Store, id: TokenId, req: RedeemRequest)
    requires WellFormed(s)
    ensures var s' := RedeemToken(s, id, req).0;
      WellFormed(s') && Evolves(s, s')
  {
    RedeemKeepsWellFormed(s, id, req);
  }

  /** One request, as the view that serves it applies it to the store. */
  function Step(s: Store, q: Request): (s': Store)
    requires WellFormed(s)
    ensures WellFormed(s')
    ensures Evolves(s, s')
  {
    match q
    case Create(u, f, now) => CreateProject(s, u, f, now).0
    case Update(u, pid, f) => UpdateProject(s, u, pid, f).0
    case Submit(u, pid, now) => SubmitProject(s, u, pid, now).0
    case DetailSubmit(u, pid) => DetailPost(s, u, pid).0
    case SubmitViewPost(u, pid) => SubmitViewAsWritten(s, u, pid).0
    case LogWork(u, pid, input, today, ajax) =>
      LogWorkEvolves(s, u, pid, input, today, ajax);
      AddWorkLog(s, u, pid, input, today, ajax).0
    case AskFeedback(u, pid, freshId, now, delivered) =>
      AskFeedbackEvolves(s, u, pid, freshId, now, delivered);
      RequestFeedback(s, u, pid, freshId, now, delivered).0
    case Redeem(id, req) =>
      RedeemEvolves(s, id, req);
      RedeemToken(s, id, req).0
  }

  /** A run of requests, first to last. */
  function Run(s: Store, qs: seq<Request>): (s': Store)
    requires WellFormed(s)
    ensures WellFormed(s')
    ensures Evolves(s, s')
    decreases |qs|
  {
    if qs == [] then s
    else
      var s1 := Step(s, qs[0]);
      var s2 := Run(s1, qs[1..]);
      EvolvesTransitive(s, s1, s2);
      s2
  }

  /** Once used, a token shows the expired page for the rest of time, and
      its project's feedback can no longer be written through it. */
  lemma UsedTokenStaysExpired(s: Store, qs: seq<Request>, id: TokenId, req: RedeemRequest)
    requires WellFormed(s)
    requires exists i :: 0 <= i < |s.tokens| && s.tokens[i].id == id && s.tokens[i].used
    ensures var s' := Run(s, qs);
      RedeemToken(s', id, req) == (s', LinkExpired)
  {
    var s' := Run(s, qs);
    var i :| 0 <= i < |s.tokens| && s.tokens[i].id == id && s.tokens[i].used;
    assert TokenSuccessor(s.tokens[i], s'.tokens[i]);
    assert s'.tokens[i].id == id && s'.tokens[i].used;
  }

  /** Once submitted, a project stays closed to editing by anyone, whatever
      requests follow. */
  lemma SubmittedStaysLocked(s: Store, qs: seq<Request>, pid: ProjectId, u: User, f: ProjectFields)
    requires WellFormed(s)
    requires pid in s.projects && s.projects[pid].isSubmitted
    ensures var s' := Run(s, qs);
      pid in s'.projects && s'.projects[pid].isSubmitted
      && UpdateProject(s', u, pid, f) == (s', Forbidden)
  {
  }

  /** A logged day stays logged: the same user can never add a second log
      for that project and date, whatever requests came in between. */
  lemma LoggedDayStaysTaken(s: Store, qs: seq<Request>, w: WorkLog, u: User,
                            input: WorkLogInput, today: Day, ajax: bool)
    requires WellFormed(s)
    requires w in s.logs && u.id == w.user
    requires input.date == Some(w.date) && w.date <= today
    ensures var s' := Run(s, qs);
      var r := AddWorkLog(s', u, w.project, input, today, ajax);
      r.1.Rejected? && DuplicateLog in r.1.errors && r.0 == s'
  {
    var s' := Run(s, qs);
    var i :| 0 <= i < |s.logs| && s.logs[i] == w;
    assert s'.logs[i] == w;
    assert HasLog(s'.logs, LogKey(w.project, u.id, w.date)) by {
      assert KeyOf(s'.logs[i]) == LogKey(w.project, u.id, w.date);
    }
  }
}
