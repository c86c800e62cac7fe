/** The persisted entities (projects, work logs, feedback tokens) and the
    constraints the database enforces on them. */
module Records {
  import opened Common

  datatype Project = Project(
    owner: UserId,
    name: string,
    category: string,
    tenderAwardDate: Day,
    completionDate: Day,
    company: string,
    location: string,
    description: string,
    isSubmitted: bool,
    submissionDate: Option<Instant>,
    createdAt: Instant,
    clientEmail: Option<string>,
    clientFeedback: Option<string>,
    clientConfirmedCompleted: bool)

  /** The fields the project form edits; everything else is set by code. */
  datatype ProjectFields = ProjectFields(
    name: string,
    category: string,
    tenderAwardDate: Day,
    completionDate: Day,
    company: string,
    location: string,
    description: string)

  function FieldsOf(p: Project): ProjectFields
  {
    ProjectFields(p.name, p.category, p.tenderAwardDate, p.completionDate,
                  p.company, p.location, p.description)
  }

  /** A project as first saved: the form's fields, the creating user as
      owner, the creation time, and every other column at its default. */
  function NewProject(owner: UserId, f: ProjectFields, now: Instant): (p: Project)
    ensures p.owner == owner && FieldsOf(p) == f && p.createdAt == now
    ensures !p.isSubmitted && p.submissionDate == None
    ensures !p.clientConfirmedCompleted
    ensures p.clientEmail == None && p.clientFeedback == None
  {
    Project(owner, f.name, f.category, f.tenderAwardDate, f.completionDate,
            f.company, f.location, f.description,
            false, None, now, None, None, false)
  }

  datatype WorkLog = WorkLog(
    project: ProjectId,
    user: UserId,
    date: Day,
    description: string,
    hours: Tenths)

  /** The key of the (project, user, date) uniqueness constraint. */
  datatype LogKey = LogKey(project: ProjectId, user: UserId, date: Day)

  function KeyOf(l: WorkLog): LogKey
  {
    LogKey(l.project, l.user, l.date)
  }

  /** Some stored log already has this key. */
  predicate HasLog(logs: seq<WorkLog>, k: LogKey)
  {
    exists i :: 0 <= i < |logs| && KeyOf(logs[i]) == k
  }

  /** At most one work log per (project, user, date). */
  predicate UniqueLogs(logs: seq<WorkLog>)
  {
    forall i, j :: 0 <= i < j < |logs| ==> KeyOf(logs[i]) != KeyOf(logs[j])
  }

  datatype FeedbackToken = FeedbackToken(
    id: TokenId,
    project: ProjectId,
    createdAt: Instant,
    used: bool)

  /** A token as created: unused. */
  function NewToken(id: TokenId, project: ProjectId, now: Instant): (t: FeedbackToken)
    ensures t.id == id && t.project == project && t.createdAt == now
    ensures !t.used
  {
    FeedbackToken(id, project, now, false)
  }

  /** The token's `mark_used`: only the used flag changes, and it ends true. */
  function MarkUsed(t: FeedbackToken): (r: FeedbackToken)
    ensures r.used
    ensures r.id == t.id && r.project == t.project && r.createdAt == t.createdAt
  {
    t.(used := true)
  }

  /** Marking twice is marking once. */
  lemma MarkUsedIdempotent(t: FeedbackToken)
    ensures MarkUsed(MarkUsed(t)) == MarkUsed(t)
    ensures t.used ==> MarkUsed(t) == t
  {
  }

  /** No two tokens share an identity. */
  predicate UniqueTokens(ts: seq<FeedbackToken>)
  {
    forall i, j :: 0 <= i < j < |ts| ==> ts[i].id != ts[j].id
  }

  predicate HasToken(ts: seq<FeedbackToken>, id: TokenId)
  {
    exists i :: 0 <= i < |ts| && ts[i].id == id
  }

  /** The database: projects by primary key, the next key the auto-increment
      column hands out, and the work-log and token tables. */
  datatype Store = Store(
    projects: map<ProjectId, Project>,
    nextProjectId: ProjectId,
    logs: seq<WorkLog>,
    tokens: seq<FeedbackToken>)

  /** The constraints the schema enforces: unique keys, unique token
      identities, and foreign keys that point at existing projects. */
  predicate WellFormed(s: Store)
  {
    && (forall id :: id in s.projects ==> id < s.nextProjectId)
    && UniqueLogs(s.logs)
    && UniqueTokens(s.tokens)
    && (forall i :: 0 <= i < |s.logs| ==> s.logs[i].project in s.projects)
    && (forall i :: 0 <= i < |s.tokens| ==> s.tokens[i].project in s.projects)
  }

  /** Appending a log whose key is new keeps the keys unique. */
  lemma {:induction false} AppendKeepsUnique(logs: seq<WorkLog>, w: WorkLog)
    requires UniqueLogs(logs)
    requires !HasLog(logs, KeyOf(w))
    ensures UniqueLogs(logs + [w])
  {
    var ls := logs + [w];
    forall i, j | 0 <= i < j < |ls|
      ensures KeyOf(ls[i]) != KeyOf(ls[j])
    {
      if j == |logs| {
        assert ls[i] == logs[i];
      }
    }
  }
}
