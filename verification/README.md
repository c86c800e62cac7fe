# Project management: a Dafny model of the dashboard, work-log, feedback and access logic

The application tracks projects owned by employees and overseen by directors:
- employees create projects, log daily work against them and submit them;
- directors see everything, but cannot create projects;
- a project's owner can email the client a one-time feedback link;
- a dashboard summarises the work logged on a project.

This model takes the logic out of the Django views and forms and states it over immutable values:
- the database becomes a `Store`: projects by key, the next auto-increment key, and the work-log and feedback-token tables as sequences;
- dates are integer day numbers;
- stored hours are integer tenths of an hour, which is exact for a `decimal_places=1` column;
- each view becomes a function from a store and a request to a new store and a response.

Modules:
- `Common` holds `Option`, `Result` and the sequence helpers.
- `Text` holds Python's `str.strip`, its substring test, and `str.lower` on ASCII letters.
- `Users` holds the role column and its predicates.
- `Records` holds the three tables and their schema constraints (`WellFormed`).
- `Access` holds the views' permission tests, the listing querysets and the role middleware.
- `WorkLogForms` holds the work-log form and create view. It models the `Decimal` hours value with its exponent, so Django's decimal validators behave as they do in the source.
- `Dashboard` holds `project_dashboard` and the timeline aggregation.
- `Kanban` holds the status-update endpoint.
- `Submission` holds project creation, editing and the submission paths.
- `Feedback` holds the token issue and redemption views.
- `Lifecycle` holds the store across any sequence of writing requests.

## Model

| member | source | states |
|---|---|---|
| Users.IsDirector | users/models.py:16-17 | A user is a director when the role column is "director" (the exact-match facts are stated in `RolesExclusive`). |
| Users.IsEmployee | users/models.py:19-20 | A user is an employee when the role column is "employee". |
| Users.NewUser | users/models.py:10 | A user created without a role is an employee and not a director. |
| Users.RolesExclusive | users/models.py:16-20 | `is_director` holds exactly when the role is "director", `is_employee` exactly when it is "employee", and never both. |
| Records.NewProject | projects/models.py:5-28 | A new project has the creator as owner, the form's fields and the creation time. It is not submitted, has no submission time, is not client-confirmed, and has no client email or feedback. |
| Records.NewToken | projects/models.py:58-62 | A new token belongs to its project, carries its identity and creation time, and starts unused. |
| Records.MarkUsed | projects/models.py:64-66 | `mark_used` leaves the token used and changes no other field. |
| Records.WellFormed | projects/models.py:5-66 | The schema's guarantees on a store. Every project key is below the next key the auto-increment column hands out. No two work logs share (project, user, date), as `unique_together` demands. No two tokens share a token value, as `unique=True` demands. Every log and every token points at a stored project, as the foreign keys demand. |
| Records.MarkUsedIdempotent | projects/models.py:64-66 | Marking twice is the same as marking once, and marking a used token changes nothing. |
| Records.AppendKeepsUnique | projects/models.py:49 | Adding a log whose (project, user, date) is new keeps that triple unique. |
| Text.Strip | projects/forms.py:18-27 | The stripped text is a middle slice of the input, with white space only on both sides, and it neither starts nor ends with white space. |
| Text.StripEmptyIffAllSpace | projects/forms.py:18-27 | A text field is blank after stripping exactly when the input is all white space. |
| Text.StripKeepsNullChar | projects/forms.py:18-27 | The stripped text holds a null character exactly when the input does, since a null character is not white space. |
| Text.Lower | projects/middleware/role_based_access.py:18 | Each ASCII capital becomes its small letter and every other character stays, one for one. |
| Text.Contains | projects/middleware/role_based_access.py:22 | The substring test is true exactly when the pattern occurs at some position. |
| Access.OwnerOrDirector | projects/views.py:147-149 | The detail view's test (also the inline check at line 218): the user is a director or owns the project. |
| Access.CanCreateProject | projects/views.py:93-94 | The create view's test: the user is not a director. |
| Access.CanEditProject | projects/views.py:107-109 | The update view's test: the user owns the project and it is not submitted. |
| Access.VisibleProjects | projects/views_kanban.py:14-17 | A director's listing holds every project. Anyone else's holds exactly the projects they own. |
| Access.PermissionFacts | projects/views.py:93-149 | A director may never create a project. No one may edit a submitted project. Whoever may edit may also view. The detail test admits exactly the projects in the user's listing. |
| Access.ProcessView | projects/middleware/role_based_access.py:13-32 | An anonymous request passes through. A non-director is sent away exactly when the lower-cased view name contains "adminsite". A director is sent away exactly when it contains "projectcreate". Everything else passes. |
| Access.ProcessViewIgnoresCase | projects/middleware/role_based_access.py:18 | Two view names that lower-case alike get the same decision. |
| Access.ProcessViewRedirectsOnlyByRole | projects/middleware/role_based_access.py:21-30 | A director is never sent away from the admin page. A non-director is never sent away from the creation page. Only authenticated requests are redirected. |
| Kanban.CompletionFor | projects/views_kanban.py:30-33 | "completed" sets the flag true. "not_started" and "in_progress" set it false. Any other status sets nothing. |
| Kanban.UpdateProjectStatus | projects/views_kanban.py:21-40 | The endpoint returns 404 exactly for a missing project, 403 exactly for a user who is neither owner nor director, and 400 exactly when the body does not parse. Otherwise it saves the flag its status implies. |
| Kanban.OtherStatusSetsNothing | projects/views_kanban.py:30-35 | An unknown status, or a body without one, saves nothing. |
| Submission.CreateProject | projects/views.py:87-99 | A director is refused. Every other user's request succeeds and gets a new project under the next key, owned by them, unsubmitted and unconfirmed. Nothing else changes. |
| Submission.UpdateProject | projects/views.py:101-109 | A missing project gives 404. The edit is refused exactly for a user who is not the owner, or when the project is submitted, and is applied in every other case. The edit replaces exactly the seven form fields and changes nothing else. |
| Submission.SubmitProject | projects/views.py:73-85 | An owner or a director marks the project submitted and stamps the current time. Only those two fields change. Anyone else gets 403 and the store is unchanged. |
| Submission.DetailPost | projects/views.py:147-195 | The detail view admits exactly owner or director. The store changes exactly when the owner posts on an unsubmitted project, and then only the submitted flag changes. |
| Submission.SubmitViewAsWritten | projects/views.py:279-302 | The submit view as written: an admitted post changes nothing and fails with a server error. |
| Submission.SubmitViewNeverSubmits | projects/views.py:297-302 | After the owner's post through the submit view, the project is still unsubmitted. |
| Submission.SubmitViewIntended | projects/views.py:284-295 | The submit view as intended: the owner's post on an unsubmitted project sets only the submitted flag. |
| Submission.SubmitViewIntendedSubmits | projects/views.py:288-295 | The intended view submits the project, with the same result as the detail view's POST. |
| Submission.ResubmitMovesSubmissionTime | projects/views.py:75-84 | After submission the owner can no longer edit, but `submit_project` still succeeds and moves the submission time. |
| WorkLogForms.HoursFieldAccepts | projects/forms.py:29-43 | The hours field accepts a value exactly when it is in [0.5, 24] with at most one decimal place. The half-hour step is not enforced. |
| WorkLogForms.ColumnAcceptsFormHours | projects/models.py:42 | Every value the form accepts fits the column (four digits, one decimal place), so the column validator never reports an error. |
| WorkLogForms.CleanHours | projects/forms.py:40-42 | An accepted value is exactly a whole number of tenths between 5 and 240. |
| WorkLogForms.HoursExamples | projects/forms.py:40-42 | "8.3" is accepted. "8.50" is refused for its places. "0.4" is refused as too small, "24.5" as too large. "2E1" is accepted as 20 hours. |
| WorkLogForms.CleanDate | projects/forms.py:49-70 | A date after today is refused as a future date. A new log with project and user set is refused as a duplicate exactly when that (project, user, date) is stored. Otherwise the date comes back unchanged. |
| WorkLogForms.FormErrorsFacts | projects/forms.py:6-70 | The form reports no error exactly when the log is admissible. It reports a future date, a duplicate, a blank description or a null character each exactly in its own situation, whatever the other fields hold. |
| WorkLogForms.ValidateWorkLog | projects/forms.py:6-70 | The form is valid exactly when the date is present and not in the future, is not a duplicate for a new log, the description is neither blank nor holds a null character, and the hours are accepted. A valid form yields the date, the stripped description and the hours in tenths. An invalid form reports a future date, a duplicate, a blank description or a null character exactly in those situations. |
| WorkLogForms.EditSkipsDuplicateCheck | projects/forms.py:57 | When an existing log is edited, the duplicate error never appears. |
| WorkLogForms.RejectionStatus | projects/views.py:254-270 | An AJAX client gets 409 when the date is already logged and 400 for any other error. A plain request gets the form page again. |
| WorkLogForms.InsertLog | projects/models.py:49 | The insert succeeds exactly when no stored log has the same (project, user, date). It appends the row and keeps the key unique. |
| WorkLogForms.AddWorkLog | projects/views.py:197-251 | A missing project gives 404. The form is checked before the permission test: an invalid form is rejected with its errors whoever posts it, and permission is denied exactly when the form is valid and the user is neither owner nor director. A log is added exactly when the form is valid and the user is the owner or a director. The added log is stamped with project and user and carries the posted date, which is no later than today. It stores the stripped description, and its hours are the posted decimal as an exact count of tenths, within range. Any other outcome leaves the store unchanged. |
| WorkLogForms.AddWorkLogKeepsWellFormed | projects/models.py:49 | Adding a work log keeps every schema constraint. |
| WorkLogForms.SecondSubmissionIsDuplicate | projects/forms.py:57-67 | Once a log is added, a second post for the same project, user and date is refused as a duplicate (409 over AJAX) and changes nothing. |
| Dashboard.TotalHours | projects/views.py:474 | The total is 0 without logs, and never negative when no log is. |
| Dashboard.TotalHoursAppend | projects/views.py:474 | The total of two runs of logs put together is the sum of their totals. |
| Dashboard.TotalHoursSnoc | projects/views.py:474 | Adding a log at the end adds its hours to the total. |
| Dashboard.TotalHoursWithout | projects/views.py:474 | Taking any one log out takes exactly its hours off the total. |
| Dashboard.TotalHoursPermutation | projects/views.py:474 | Two runs holding the same logs, in any order, have the same total, so the query's ordering cannot change `Sum`. |
| Dashboard.ActiveDays | projects/views.py:475 | There are never more active days than logs, and none exactly when there are no logs. |
| Dashboard.KeysOfBound | projects/views.py:475 | No grouping has more groups than there are logs. |
| Dashboard.ProjectLogs | projects/views.py:472 | The selection has no more rows than the table, is empty for an empty table, and contains exactly the stored logs of that project. |
| Dashboard.ProjectLogsCount | projects/views.py:472 | Each stored log of the project is selected exactly as many times as it is stored, and no log of another project is selected. |
| Dashboard.ProjectLogsAppend | projects/views.py:472 | Selecting from two runs of logs put together gives the two selections put together, so the selection keeps the rows' relative order. |
| Dashboard.PartitionSum | projects/views.py:478-479 | Summing the group totals over a duplicate-free list covering every group key gives the total hours. |
| Dashboard.SortedDates | projects/views.py:489 | The sorted distinct dates are strictly increasing, and their elements are exactly the logged dates. |
| Dashboard.InsertSorted | projects/views.py:489 | Inserting a date keeps the sequence strictly increasing and adds exactly that date. |
| Dashboard.DailyTrend | projects/views.py:479 | The trend has one entry per distinct date, in ascending order, covering exactly the logged dates. Each entry holds the hours logged on its date. |
| Dashboard.TrendSumsToTotal | projects/views.py:474-479 | The daily totals add up to the total hours. |
| Dashboard.WorkloadByUser | projects/views.py:478 | The workload has an entry exactly for each user who logged hours on the project, holding the hours that user logged. |
| Dashboard.WorkloadSumsToTotal | projects/views.py:474-478 | Each user's workload is the hours that user logged. Taken once per user, the shares add up to the total hours. |
| Dashboard.RoundHalfEven | projects/views.py:502 | The rounded quotient lies within half a unit of the exact ratio, and a tie goes to the even neighbour. |
| Dashboard.RoundHalfEvenUnique | projects/views.py:502 | Only one integer meets the rounding contract. |
| Dashboard.AvgDailyHours | projects/views.py:475-476 | The average is 0 without active days. Otherwise it is the total divided by the active days, rounded half-even to a tenth. |
| Dashboard.DaysLeft | projects/views.py:497 | Days left is absent exactly when there is no completion date. Otherwise today plus days left is the completion date, so it is negative exactly when the project is overdue. |
| Dashboard.CumulativeSeries | projects/views.py:481-485 | The series has one point per trend entry, with the same dates. The first point is the first day's total, and each later point adds that day's total to the previous point. |
| Dashboard.IdleDays | projects/views.py:487-495 | The loop returns exactly the gap records of the adjacent date pairs, and none for fewer than two dates. |
| Dashboard.GapsComeFromPairs | projects/views.py:490-495 | Every gap record comes from an adjacent pair of dates more than a day apart. It runs from the day after the first date to the day before the second, and counts the days between them. |
| Dashboard.PairsYieldGaps | projects/views.py:490-495 | Every adjacent pair more than a day apart produces a gap record. |
| Dashboard.GapsWellShaped | projects/views.py:491-495 | Every gap covers at least one day, and its count is the number of days from `from` to `to`. |
| Dashboard.GapsInsideSpan | projects/views.py:489-495 | No gap lies before the first active day or after the last one. |
| Dashboard.GapsCoverIdleDays | projects/views.py:487-495 | Between the first and the last active day, a day lies in some gap exactly when nothing was logged on it. |
| Dashboard.GapDaysFillSpan | projects/views.py:487-495 | Active days plus gap days fill the span from the first active day to the last. |
| Dashboard.GapsExample | projects/views.py:487-495 | Logs on days 1, 3 and 7 give gaps 2–2 (1 day) and 4–6 (3 days). |
| Dashboard.TrendFigures | projects/views.py:479-495 | The per-day trend has one ascending entry per logged date, holding that date's hours and summing to the total. The running total is taken over the trend's dates, and each point is the sum up to it, ending at the total. The idle gaps are the gaps of the trend's dates. All three are empty without logs. |
| Dashboard.ProjectDashboard | projects/views.py:468-510 | An unknown project gives 404. Otherwise the view returns all of the following at once: total hours; active days equal to the trend's length; the average; days left; one workload entry per logging user holding that user's hours; an ascending trend that covers the dates, gives each date its own hours and sums to the total; a cumulative series on the trend's dates whose every point is the running sum of the trend up to it, ending at the total; and the gaps of the trend's dates. With no logs, every figure is zero or empty. |
| Dashboard.Timeline | projects/views.py:447-461 | The timeline as intended has a row for exactly the projects the viewer may list. Each row holds that project's total hours, active days and days left, the same figures as its dashboard. |
| Dashboard.TimelineAsWritten | projects/views.py:440-464 | The timeline as written lists exactly the viewable projects, each reaching the page without figures. |
| Dashboard.TimelineLosesFigures | projects/views.py:447-454 | For every listed project, the page as written lacks the row the intended timeline gives it. |
| Feedback.RequestFeedback | projects/views.py:347-368 | A project the requester does not own gives 404. A project without a client email gives an error before any token is stored. For an owned project with an email and a fresh identity, one new unused token is stored and the answer is success or mail failure, as the mail went; the token stays stored either way. The schema constraints are kept. |
| Feedback.HasClientEmail | projects/views.py:350 | The request goes ahead only when the client email is set and not empty. |
| Feedback.FindToken | projects/views.py:400 | The lookup fails exactly when no token has the identity. Otherwise it finds one with that identity. |
| Feedback.CleanFeedback | projects/forms.py:175-178 | The stored feedback is the input with exactly its surrounding white space removed, and is empty exactly when the input was blank. |
| Feedback.FeedbackFormValid | projects/forms.py:175-178 | The feedback form is valid exactly when the text holds no null character; both fields are optional. |
| Feedback.RedeemToken | projects/views.py:393-415 | An unknown token gives 404. A used token shows the expired page and never reaches the form. An unused one shows the form. A post with a null character is shown again and leaves the token unused. On a valid post the token is marked used and exactly the two feedback columns of its project change. Whatever happens, no project is added or removed, no owner or submission flag changes, no work log changes, and every token either stays as it was or is marked used. |
| Feedback.SaveFeedback | projects/views.py:406-412 | A valid submission writes the stripped feedback and the confirmation to the token's project and marks that token used. Every other column of that project stays as it was. Projects, owners, submission flags, logs and other tokens are untouched. |
| Feedback.RedeemUsedToken | projects/views.py:399-402 | A link whose token is already used shows the expired page for any request and changes nothing. |
| Feedback.RedeemExactlyOnce | projects/views.py:399-412 | After one successful redemption, the same link shows the expired page and changes nothing. |
| Feedback.RedeemKeepsWellFormed | projects/views.py:409-412 | Redemption keeps every schema constraint. |
| Feedback.RequestKeepsEarlierTokens | projects/views.py:353-354 | A new request keeps every earlier token, so a link not yet used still opens the form. |
| Lifecycle.EvolvesTransitive | projects/models.py:64-66 | The forward-moving relation of stores is transitive, because marking a token used twice is marking it once. |
| Lifecycle.Step | projects/views.py:75-412 | Each writing view, the submit view as written included, keeps the schema constraints. It never deletes a project, changes its owner or unsubmits it. It only appends logs, and it only appends tokens or marks them used. |
| Lifecycle.Run | projects/views.py:75-412 | The same holds across any sequence of writing requests, each served by the view as written. |
| Lifecycle.UsedTokenStaysExpired | projects/views.py:399-404 | Once a token is used, whatever requests follow, it only ever shows the expired page. |
| Lifecycle.SubmittedStaysLocked | projects/views.py:107-109 | Once a project is submitted, whatever requests follow, it stays submitted and no one can edit it. |
| Lifecycle.LoggedDayStaysTaken | projects/models.py:49 | Once a day is logged, whatever requests follow, the same user's second log for that project and day is refused as a duplicate. |

## Left out

- Dashboard.ProjectDashboard takes no requesting user: `project_dashboard` has no login or permission check, so any request for an existing project gets its figures.
- Templates, flash messages, URL building, JSON bodies and debug output are not modelled. A response is a small datatype naming the outcome and its status.
- `send_mail` is a boolean parameter that says whether the mail went out. The token's UUID is a fresh identity given as a parameter, and a collision is a modelled integrity error. The clock is a `today`/`now` parameter.
- The view name the middleware inspects (`view_func.__name__`) is an input. Which class-based view produces which name is Django's business.
- Feedback.RequestFeedback: a failed mail leaves the token stored, because the view creates the token first and no transaction wraps the request. This follows the code rather than an all-or-nothing reading.
- WorkLogForms.HoursFieldAccepts: the half-hour step ('step': '0.5') is a widget hint only. The model accepts 8.3, as the form does.
- The `float()` accumulation in the cumulative series is modelled as exact integer tenths. Float rounding of long sums is not modelled.
- Dashboard.AvgDailyHours: the 28-digit precision of Python's decimal context is not modelled. The ratio is exact before rounding.
- Dashboard.WorkloadByUser groups by user identity, not by `user__username`. Usernames are unique, so the groups are the same.
- The workload is a map because the query gives no order. The grouping queries are taken to ignore `Meta.ordering`, as current Django does.
- The check-then-insert race on the unique key, and two clients redeeming one token at the same moment, are concurrency questions. They are not modelled. The insert itself does check the key (`InsertLog`).
- Kanban: `is_completed` is not a field of the project, so saving it persists nothing. The model returns the decision without storing it.
- Kanban: the 400 branch stands for any exception after the permission check. That covers a body that is not JSON and a JSON value without `.get`.
- The `WorkLogForm.__init__` today-check never fires and is not modelled. Neither are the shadowed first `form_invalid` and the duplicate `ProjectFilter`.
- Text.Lower: lowers ASCII letters only, one for one. Python's `str.lower` also folds non-ASCII letters and can lengthen a string. The only non-ASCII characters whose lower case holds an ASCII letter are U+0130 (to "i" followed by a combining dot) and U+212A (to "k"). Neither can complete "adminsite" or "projectcreate", so the middleware's decisions are the same.
- `ProjectFields` stands for the project form's cleaned data. The form's own checks (required fields, `max_length`, stripping) and the re-rendering of an invalid form in the create and update views are not modelled.
- The timeline's `order_by('created_at')` is dropped: its rows are a map keyed by project.
- Dashboard.ProjectLogs keeps the logs in store order rather than the model's default ordering (`-date`, `-created_at`). No figure depends on the order. The total is order-free (`TotalHoursPermutation`), the per-day and per-user figures are taken per date and per user, and the trend is sorted by date.
- The project list view's filters, the admin registration, the template filter, registration and login are not part of this model.
- `completion_date` is not nullable in the schema. Dashboard.DaysLeft still takes an optional date to mirror the view's guard, and the views always pass a present date.
- The client feedback form has two optional fields; its only check is the text field's null-character validator. A blank text is stored as the empty string, and an unticked box as false.

## Findings

| source | as written | input that shows it | evidently intended | confidence | as-written member | corrected member |
|---|---|---|---|---|---|---|
| projects/views.py:297-302 | `ProjectSubmitView` defines `get_success_url` and `form_valid` twice. The later definitions win: `form_valid` does not set `is_submitted`, and `get_success_url` reads `self.object.project.pk`, which a `Project` does not have. | The owner posts to the submit view for an unsubmitted project. The project is saved unchanged and the redirect raises `AttributeError`. | The first definitions (lines 288-295): set `is_submitted` and redirect to the project's detail page. | medium, not executed | Submission.SubmitViewNeverSubmits | Submission.SubmitViewIntendedSubmits |
| projects/views.py:447-454 | `ProjectTimelineView.get_context_data` sets `total_hours`, `active_days` and `days_left` on the projects of a fresh `self.get_queryset()`. The page renders `context['projects']`, the separate queryset `ListView` fetched earlier, whose instances never receive them. | Any viewer with at least one listed project: the rendered project carries none of the three figures, and the `pluck` filter yields `None` for each. | Every listed project reaches the page with its total hours, active days and days left. | medium, not executed | Dashboard.TimelineLosesFigures | Dashboard.Timeline |
