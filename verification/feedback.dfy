/** The client-feedback workflow: the owner asks for feedback, which mints a
    one-time token and mails the client a link; the client redeems the link
    once, writing the feedback text and the completion confirmation onto the
    project. */
module Feedback {
  import opened Common
  import opened Text
  import opened Users
  import opened Records

  /** A client email is usable when it is set and not empty. */
  predicate HasClientEmail(p: Project)
  {
    p.clientEmail.Some? && p.clientEmail.value != ""
  }

  datatype IssueResponse =
    | IssueNotFound              // 404: no such project owned by the requester
    | MissingClientEmail         // 400: "Client email not set."
    | IssueIntegrityError        // the fresh identity collided with a stored one
    | MailFailed                 // the mail transport raised; the token stays stored
    | FeedbackRequested(token: TokenId)

  /** The feedback request. `freshId` stands for the random UUID and
      `mailDelivered` for the outcome of sending the mail. The lookup is
      restricted to the requester's own projects; the token is stored before
      the mail goes out. */
  function RequestFeedback(s: Store, u: User, pid: ProjectId, freshId: TokenId, now: Instant,
                           mailDelivered: bool): (r: (Store, IssueResponse))
    ensures pid !in s.projects || s.projects[pid].owner != u.id ==> r == (s, IssueNotFound)
    ensures r.1 == MissingClientEmail <==>
      pid in s.projects && s.projects[pid].owner == u.id && !HasClientEmail(s.projects[pid])
    ensures r.1 == IssueIntegrityError <==>
      pid in s.projects && s.projects[pid].owner == u.id && HasClientEmail(s.projects[pid])
      && HasToken(s.tokens, freshId)
    ensures r.1.FeedbackRequested? || r.1 == MailFailed ==>
      r.0 == s.(tokens := s.tokens + [NewToken(freshId, pid, now)])
    ensures r.1.FeedbackRequested? ==> r.1.token == freshId && mailDelivered
    ensures pid in s.projects && s.projects[pid].owner == u.id && HasClientEmail(s.projects[pid])
            && !HasToken(s.tokens, freshId) ==>
      r.1 == (if mailDelivered then FeedbackRequested(freshId) else MailFailed)
    ensures !(r.1.FeedbackRequested? || r.1 == MailFailed) ==> r.0 == s
    ensures WellFormed(s) ==> WellFormed(r.0)
  {
    if pid !in s.projects || s.projects[pid].owner != u.id then (s, IssueNotFound)
    else if !HasClientEmail(s.projects[pid]) then (s, MissingClientEmail)
    else if HasToken(s.tokens, freshId) then (s, IssueIntegrityError)
    else
      var s' := s.(tokens := s.tokens + [NewToken(freshId, pid, now)]);
      if mailDelivered then (s', FeedbackRequested(freshId)) else (s', MailFailed)
  }

  /** The position of the token with identity `id`, if any. */
  function FindToken(ts: seq<FeedbackToken>, id: TokenId): (r: Option<nat>)
    ensures r.None? <==> !HasToken(ts, id)
    ensures r.Some? ==> r.value < |ts| && ts[r.value].id == id
  {
    if |ts| == 0 then None
    else if ts[|ts| - 1].id == id then Some(|ts| - 1)
    else
      var r := FindToken(ts[..|ts| - 1], id);
      assert HasToken(ts[..|ts| - 1], id) ==> HasToken(ts, id) by {
        if HasToken(ts[..|ts| - 1], id) {
          var i :| 0 <= i < |ts| - 1 && ts[..|ts| - 1][i].id == id;
          assert ts[i].id == id;
        }
      }
      r
  }

  /** The feedback form's cleaned text: the form field strips surrounding
      whitespace and keeps a blank answer as the empty string. */
  function CleanFeedback(text: string): (r: string)
    ensures r == [] <==> AllSpace(text)
    ensures exists i, j :: Trimmed(text, i, j) && r == text[i..j]
  {
    StripEmptyIffAllSpace(text);
    Strip(text)
  }

  /** The feedback form's validity: both fields are optional, and the text
      field's null-character validator runs on the cleaned text (skipping an
      empty one), which holds a null character exactly when the input does. */
  function FeedbackFormValid(text: string): (r: bool)
    ensures r <==> NullChar !in text
  {
    StripKeepsNullChar(text);
    NullChar !in CleanFeedback(text)
  }

  /** What the client does with the link: open it, or post the form. */
  datatype RedeemRequest = ShowForm | SubmitForm(feedback: string, confirmed: bool)

  datatype RedeemResponse =
    | TokenNotFound   // 404
    | LinkExpired     // the "already used" page
    | FormShown
    | FormRejected    // the form shown again with its errors
    | ThankYou        // redirect to the thank-you page

  /** The token-gated feedback view. A used token never reaches the form; an
      invalid form is shown again and leaves the token unused; a valid posted
      form marks the token used and writes exactly the two feedback
      columns of the token's project. */
  function RedeemToken(s: Store, id: TokenId, req: RedeemRequest): (r: (Store, RedeemResponse))
    requires WellFormed(s)
    ensures r.1 == TokenNotFound <==> !HasToken(s.tokens, id)
    ensures r.1 != ThankYou ==> r.0 == s
    ensures r.0.logs == s.logs && r.0.nextProjectId == s.nextProjectId
    ensures r.0.projects.Keys == s.projects.Keys
    ensures forall pid :: pid in s.projects ==>
      r.0.projects[pid].owner == s.projects[pid].owner
      && r.0.projects[pid].isSubmitted == s.projects[pid].isSubmitted
    ensures |r.0.tokens| == |s.tokens|
    ensures forall j :: 0 <= j < |s.tokens| ==>
      r.0.tokens[j] == s.tokens[j] || r.0.tokens[j] == MarkUsed(s.tokens[j])
    ensures r.1 == LinkExpired <==>
      exists i :: 0 <= i < |s.tokens| && s.tokens[i].id == id && s.tokens[i].used
    ensures r.1 == FormShown <==>
      req.ShowForm? && exists i :: 0 <= i < |s.tokens| && s.tokens[i].id == id && !s.tokens[i].used
    ensures r.1 == FormRejected <==>
      req.SubmitForm? && !FeedbackFormValid(req.feedback)
      && exists i :: 0 <= i < |s.tokens| && s.tokens[i].id == id && !s.tokens[i].used
    ensures r.1 == ThankYou <==>
      req.SubmitForm? && FeedbackFormValid(req.feedback) && exists i :: 0 <= i < |s.tokens| && s.tokens[i].id == id && !s.tokens[i].used
    ensures r.1 == ThankYou ==>
      exists i :: 0 <= i < |s.tokens| && s.tokens[i].id == id && !s.tokens[i].used
        && var pid := s.tokens[i].project;
           var p := s.projects[pid];
           && pid in r.0.projects
           && r.0.tokens == s.tokens[i := MarkUsed(s.tokens[i])]
           && r.0.logs == s.logs && r.0.nextProjectId == s.nextProjectId
           && r.0.projects == s.projects[pid := r.0.projects[pid]]
           && r.0.projects[pid].clientFeedback == Some(CleanFeedback(req.feedback))
           && r.0.projects[pid].clientConfirmedCompleted == req.confirmed
           && r.0.projects[pid].(clientFeedback := p.clientFeedback,
                                 clientConfirmedCompleted := p.clientConfirmedCompleted) == p
  {
    match FindToken(s.tokens, id)
    case None => (s, TokenNotFound)
    case Some(i) =>
      var t := s.tokens[i];
      assert forall j :: 0 <= j < |s.tokens| && s.tokens[j].id == id ==> j == i;
      if t.used then (s, LinkExpired)
      else match req
        case ShowForm => (s, FormShown)
        case SubmitForm(text, confirmed) =>
          if !FeedbackFormValid(text) then (s, FormRejected)
          else (SaveFeedback(s, i, text, confirmed), ThankYou)
  }

  /** A valid submission on token `i`: its project's two feedback columns
      are written and the token is marked used; nothing else changes. */
  function SaveFeedback(s: Store, i: nat, text: string, confirmed: bool): (r: Store)
    requires WellFormed(s) && i < |s.tokens|
    ensures r.logs == s.logs && r.nextProjectId == s.nextProjectId
    ensures r.tokens == s.tokens[i := MarkUsed(s.tokens[i])]
    ensures r.projects.Keys == s.projects.Keys
    ensures forall pid :: pid in s.projects ==>
      r.projects[pid].owner == s.projects[pid].owner
      && r.projects[pid].isSubmitted == s.projects[pid].isSubmitted
    ensures var pid := s.tokens[i].project;
      var p := s.projects[pid];
      && r.projects == s.projects[pid := r.projects[pid]]
      && r.projects[pid].clientFeedback == Some(CleanFeedback(text))
      && r.projects[pid].clientConfirmedCompleted == confirmed
      && r.projects[pid].(clientFeedback := p.clientFeedback,
                          clientConfirmedCompleted := p.clientConfirmedCompleted) == p
  {
    var pid := s.tokens[i].project;
    var p := s.projects[pid];
    var q := p.(clientFeedback := Some(CleanFeedback(text)), clientConfirmedCompleted := confirmed);
    s.(projects := s.projects[pid := q], tokens := s.tokens[i := MarkUsed(s.tokens[i])])
  }

  /** Redemption is exactly-once: after a successful submission the same
      link, opened or posted again, shows the expired page and changes
      nothing. */
  lemma RedeemExactlyOnce(s: Store, id: TokenId, first: RedeemRequest, again: RedeemRequest)
    requires WellFormed(s)
    requires RedeemToken(s, id, first).1 == ThankYou
    ensures WellFormed(RedeemToken(s, id, first).0)
    ensures var s1 := RedeemToken(s, id, first).0;
      RedeemToken(s1, id, again) == (s1, LinkExpired)
  {
    var s1 := RedeemToken(s, id, first).0;
    RedeemKeepsWellFormed(s, id, first);
    var i :| 0 <= i < |s.tokens| && s.tokens[i].id == id && !s.tokens[i].used
             && s1.tokens == s.tokens[i := MarkUsed(s.tokens[i])];
    RedeemUsedToken(s1, id, again, i);
  }

  /** A link whose token is used answers with the expired page, whatever
      the request, and changes nothing. */
  lemma RedeemUsedToken(s: Store, id: TokenId, req: RedeemRequest, i: nat)
    requires WellFormed(s)
    requires i < |s.tokens| && s.tokens[i].id == id && s.tokens[i].used
    ensures RedeemToken(s, id, req) == (s, LinkExpired)
  {
  }

  /** Redemption keeps every database constraint. */
  lemma RedeemKeepsWellFormed(s: Store, id: TokenId, req: RedeemRequest)
    requires WellFormed(s)
    ensures WellFormed(RedeemToken(s, id, req).0)
  {
    var s1 := RedeemToken(s, id, req).0;
    forall j | 0 <= j < |s.tokens|
      ensures s1.tokens[j].id == s.tokens[j].id && s1.tokens[j].project == s.tokens[j].project
    {
      assert s1.tokens[j] == s.tokens[j] || s1.tokens[j] == MarkUsed(s.tokens[j]);
    }
    SameKeysKeepWellFormed(s, s1);
  }

  /** A store with the same projects' keys, the same logs and the same
      tokens up to their `used` flags keeps every database constraint. */
  lemma SameKeysKeepWellFormed(s: Store, s1: Store)
    requires WellFormed(s)
    requires s1.logs == s.logs && s1.nextProjectId == s.nextProjectId
    requires s1.projects.Keys == s.projects.Keys
    requires |s1.tokens| == |s.tokens|
    requires forall j :: 0 <= j < |s.tokens| ==>
      s1.tokens[j].id == s.tokens[j].id && s1.tokens[j].project == s.tokens[j].project
    ensures WellFormed(s1)
  {
  }

  /** A new request does not revoke earlier links: every token stored before
      is still stored, unchanged, and a still-unused one still redeems. */
  lemma RequestKeepsEarlierTokens(s: Store, u: User, pid: ProjectId, freshId: TokenId,
                                  now: Instant, mailDelivered: bool, earlier: TokenId)
    requires WellFormed(s)
    requires exists i :: 0 <= i < |s.tokens| && s.tokens[i].id == earlier && !s.tokens[i].used
    ensures var s1 := RequestFeedback(s, u, pid, freshId, now, mailDelivered).0;
      s.tokens <= s1.tokens && RedeemToken(s1, earlier, ShowForm).1 == FormShown
  {
    var s1 := RequestFeedback(s, u, pid, freshId, now, mailDelivered).0;
    var i :| 0 <= i < |s.tokens| && s.tokens[i].id == earlier && !s.tokens[i].used;
    assert s1.tokens[i] == s.tokens[i];
  }
}
