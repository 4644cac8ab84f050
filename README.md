# Work-Expo marketplace: a Dafny model

Work-Expo is a small job marketplace. Providers post jobs, seekers apply, a provider
selects one applicant, and either party completes the job with feedback. Notifications
tell each party what happened. The server is a FastAPI application over four MongoDB
collections. The client is a React application whose contexts cache what the server
returns.

This project models both halves.

- **The server state and its handlers.** `ServerStore.Store` is a class holding the four
  collections as maps from id to record, plus the next fresh id. It has one method per
  route handler. A handler returns an `Outcome`:
  - `Ok(value)`, or an error in place of `HTTPException`: `NotFound`, `Forbidden`,
    `BadRequest`.
  - `InternalError` when the handler would crash on a missing key.

  Every handler keeps `ServerRules.Consistent`:
  - records are stored under their own ids;
  - at most one application per (job, seeker);
  - `applicants` counts the applications filed;
  - at most one selected application per job;
  - an application is pending exactly while its job is open;
  - a job has an assignee exactly when it is no longer open, and that assignee is the
    seeker of its selected application.

  The rules themselves (filters, the records a handler builds, the select cascade)
  are functions in `ServerRules`.
- **The client caches.**
  - `JobContext.JobCache` models the job context: jobs, applications, and applications
    grouped by job.
  - `NotificationContext.NotificationCache` models the notification context:
    notifications and the unread counter.

  The server's HTTP replies are parameters (`Http<T>`: a body or an error status). An
  operation's own refusals and rethrown request errors become a `Completion`.
- **The pages and components.** Each one's derived values are functions and predicates:
  - who may complete a job or see contact details;
  - which badge and label an application shows;
  - the dashboards' filters, joins and option lists;
  - notification routing;
  - how the forms normalise skills.

  Where a component steps through local state, that state is a small class:
  - `JobCard.JobCardState`;
  - `Navbar.NavbarState`;
  - `SeekerDashboard.SeekerDashboardState`.
- **Shared pieces.**
  - `Text` models JavaScript's `split`, `trim`, `toLowerCase` and `join`, and the
    skill normalisation built from them.
  - `Common` holds `Option`, filters, first-match search and distinct values.
  - `Records` holds the stored records.

Cross-layer lemmas tie the client to the server:
- the cache's local cascade agrees with the server's;
- the job page offers completion exactly to the callers the server accepts;
- the application card's highlighting agrees with the server's skill matching;
- a seeker notified about a new job finds it among their matching jobs.

Ids are unbounded naturals drawn from a counter (`nextId`); MongoDB draws ObjectIds
instead. Statuses, roles and notification types are the strings the source compares
against.

## Model

| member | source | states |
|---|---|---|
| ServerRules.SerializeId | server/app.py:49-53 | `_id` is renamed to `id`; every other key is kept with its value; a document without `_id` is returned unchanged |
| ServerRules.SerializeIdIdempotent | server/app.py:49-53 | serialising an already serialised document changes nothing |
| ServerRules.MatchesQuery | server/app.py:285-291 | a job matches the `GET /jobs` query when it equals every filter that was supplied and is non-empty |
| ServerRules.SharesSkill | server/app.py:259 | MongoDB's `$in` on two lists: they have an element in common |
| ServerRules.MatchingSeekers | server/app.py:257-260 | the seekers sharing a skill with the job's required skills |
| ServerStore.Store.constructor | server/app.py:35-38 | the store starts with the registered users and no jobs, applications or notifications, and is consistent |
| ServerStore.Store.CreateJob | server/app.py:233-275 | a non-provider gets Forbidden and nothing changes. Otherwise the stored job is open, has 0 applicants and no assignee, and is owned by the caller. One unread match notice goes to every seeker sharing a required skill and to nobody else. The store stays consistent |
| ServerStore.Store.SendMatchNotices | server/app.py:257-271 | the fan-out loop inserts one "new-matching-job" notice per recipient under fresh ids, in some order, serving no recipient twice, and leaves earlier notifications as they were |
| ServerRules.MatchNoticesCount | server/app.py:262-271 | whatever the order, the fan-out inserts exactly as many notices as there are matching seekers |
| ServerRules.DistinctOrderCounts | server/app.py:262-271 | a duplicate-free sequence covering exactly a set has that set's size |
| ServerRules.NotifiedSeekerSeesMatch | server/app.py:257-260 | a seeker sent a match notice finds the new job among the jobs `GET /jobs/matching` returns to them |
| ServerRules.PostPreserves | server/app.py:245-254 | inserting the newly posted job under the next id keeps the store consistent |
| ServerStore.Store.GetJobs | server/app.py:277-295 | exactly the stored jobs equal to every supplied filter; an absent or empty filter imposes nothing |
| ServerStore.Store.GetProviderJobs | server/app.py:297-310 | Forbidden for a non-provider; otherwise exactly the caller's jobs |
| ServerStore.Store.GetMatchingJobs | server/app.py:312-328 | Forbidden for a non-seeker; otherwise exactly the open jobs sharing a required skill with the caller |
| ServerStore.Store.GetJob | server/app.py:330-342 | NotFound exactly for an unknown id; otherwise the stored job |
| ServerStore.Store.CreateApplication | server/app.py:344-414 | the checks run in order (seeker role, job exists, job open, not already applied) and the first failing one decides the error with nothing written. A request passing all four checks succeeds. On success there is one new pending application, the job's applicant count is one higher and the provider gets one notice |
| ServerStore.Store.FileApplication | server/app.py:381-410 | the writes of a successful application: the new state is exactly the old one plus the application, the `$inc` and the provider's notice, and it stays consistent |
| ServerRules.ApplyPreserves | server/app.py:381-400 | filing an application for an open job the seeker has not applied to keeps one application per (job, seeker), the applicant counts and the other invariants |
| ServerRules.AppliedAfterApply | server/app.py:369-378 | after a successful application the same seeker counts as having applied, so a second attempt is refused |
| ServerStore.Store.GetJobApplications | server/app.py:416-436 | NotFound for an unknown job; Forbidden for anyone but its provider; otherwise exactly its applications |
| ServerStore.Store.GetSeekerApplications | server/app.py:438-451 | Forbidden for a non-seeker; otherwise exactly the caller's applications |
| ServerStore.Store.SelectApplicant | server/app.py:453-526 | Forbidden for a non-provider; NotFound for an unknown application; Forbidden for another provider's job. The job's provider selecting an existing application always succeeds, whatever the job's status. On success the cascade is applied, the job is assigned to the chosen seeker (so a completed job goes back to assigned) and that seeker is notified. The store stays consistent |
| ServerStore.Store.RecordSelection | server/app.py:486-521 | the writes of a selection: the new state is the cascade, the assigned job and the seeker's notice, and it stays consistent |
| ServerRules.CascadeEffect | server/app.py:486-499 | the chosen application becomes selected; every other application of its job becomes rejected; applications of other jobs are untouched; only statuses change |
| ServerRules.Cascade | server/app.py:486-499 | the two status updates of `select_applicant`: the chosen application selected, the others of its job rejected |
| ServerRules.Assign | server/app.py:502-510 | the job becomes assigned to the chosen seeker |
| ServerRules.CascadeSelectsExactlyOne | server/app.py:486-499 | after the cascade the chosen application is the only selected one of its job, and every job keeps the same applications |
| ServerRules.SelectPreserves | server/app.py:486-510 | the cascade plus the assignment keeps the store consistent, on an open job and on an already decided one |
| ServerRules.ReselectAfterCompletion | server/app.py:486-510 | selecting another applicant of a completed job puts the job back to assigned and rejects the application that holds the completion feedback, keeping that feedback |
| ServerRules.DecidedJobHasOneSelected | server/app.py:570-574 | in a consistent store an assigned or completed job has an assignee and exactly one selected application, whose seeker is that assignee |
| ServerRules.OpenJobUndecided | server/app.py:486-510 | in a consistent store an open job has no assignee and all its applications are pending |
| ServerStore.Store.CompleteJob | server/app.py:531-656 | NotFound for an unknown job. A caller who is neither provider nor assignee gets Forbidden, or InternalError when the job has no assignee. A job that is not assigned gets BadRequest. Nothing is written on an error. On success the job is completed, the feedback is attached to its one selected application, unvalidated, and the other party is notified |
| ServerStore.Store.RecordCompletion | server/app.py:559-629 | the writes of a completion: the completed job, the feedback on the selected application and one notice to the given recipient; the store stays consistent |
| ServerRules.CompletePreserves | server/app.py:559-588 | completing an assigned job and attaching feedback to its selected application keeps the store consistent |
| ServerStore.Store.GetNotifications | server/app.py:658-664 | exactly the caller's notifications |
| ServerStore.Store.MarkNotificationRead | server/app.py:666-690 | NotFound exactly for an unknown id; Forbidden exactly for another user's notification. Otherwise only that notification becomes read |
| ServerStore.Store.MarkAllNotificationsRead | server/app.py:692-702 | every notification of the caller becomes read; the other users' notifications and everything else stay as they were |
| ServerStore.FreshId | server/app.py:207 | returns an id above every id in use |
| JobContext.MergedSpec | client/src/contexts/JobContext.jsx:65-75 | the merge by id keeps ids distinct. Existing entries keep their places, and those whose id is not fetched keep their value. The last fetched entry for each id is in the result. Entries after the old ones are new ids |
| JobContext.Merged | client/src/contexts/JobContext.jsx:65-75 | the list kept after a fetch: the previous entries loaded into a `Map` by id, then the fetched ones set over them |
| JobContext.MergeById | client/src/contexts/JobContext.jsx:67-74 | the `Map` loop computes exactly the merge |
| JobContext.UpsertAllKeys | client/src/contexts/JobContext.jsx:70-72 | `set` in a loop keeps existing keys in place, appends only new ones and keeps keys distinct |
| JobContext.UpsertAllKeepsOthers | client/src/contexts/JobContext.jsx:67-74 | an existing entry whose id is not fetched keeps its place and value |
| JobContext.UpsertAllTakesFetched | client/src/contexts/JobContext.jsx:67-74 | the last fetched entry for each id ends up in the merged list |
| JobContext.UpsertAllFromEmpty | client/src/contexts/JobContext.jsx:67-69 | loading a list with distinct ids into an empty `Map` gives the list back |
| JobContext.Upsert | client/src/contexts/JobContext.jsx:71 | one `Map.set`: an existing key keeps its place, and a new key is appended |
| JobContext.GroupByJob | client/src/contexts/JobContext.jsx:213-220 | one bucket per job id that occurs, holding that job's applications in input order |
| JobContext.BucketSizesSum | client/src/contexts/JobContext.jsx:213-220 | every application lands in exactly one bucket, so the bucket sizes add up to the number of applications |
| JobContext.LocalCascade | client/src/contexts/JobContext.jsx:318-326 | the chosen id becomes selected; the others of the same job become rejected; other jobs' applications are untouched; only statuses change |
| JobContext.LocalCascadeSelectsOne | client/src/contexts/JobContext.jsx:318-326 | with distinct ids, exactly one application of the job is selected afterwards |
| JobContext.LocalCascadeMirrorsServer | client/src/contexts/JobContext.jsx:318-326 | on server records the local cascade gives each application the record the server's cascade gives it |
| JobContext.RewriteBucket | client/src/contexts/JobContext.jsx:330-337 | in the cached bucket, the chosen application is selected and every other one is rejected |
| JobContext.RewriteBucketMirrorsServer | client/src/contexts/JobContext.jsx:330-337 | for a bucket of the chosen application's job, the rewrite agrees with the server's cascade |
| JobContext.BumpApplicants | client/src/contexts/JobContext.jsx:284-286 | one more applicant on the jobs with that id; the others are unchanged |
| JobContext.AssignLocally | client/src/contexts/JobContext.jsx:340-346 | the jobs with that id become assigned to the seeker; the others are unchanged |
| JobContext.CompleteLocally | client/src/contexts/JobContext.jsx:377-381 | the jobs with that id become completed; the others are unchanged |
| JobContext.AvailableJobsQuery | client/src/contexts/JobContext.jsx:122-125 | `status` is sent exactly when truthy; `location` and `category` exactly when truthy and not "all"; nothing else is sent |
| JobContext.AvailableJobsQueryFilters | client/src/contexts/JobContext.jsx:122-127 | the server lists a job for this query exactly when it matches the filters that were sent |
| JobContext.JobCache.constructor | client/src/contexts/JobContext.jsx:15-18 | the cache starts empty |
| JobContext.JobCache.UserChanged | client/src/contexts/JobContext.jsx:21-33 | signing out empties all three lists; signing in keeps them until the fetches replace them |
| JobContext.JobCache.FetchJobs | client/src/contexts/JobContext.jsx:35-53 | a reply replaces `jobs`; a failed request keeps the previous list and returns [] |
| JobContext.JobCache.GetProviderJobs | client/src/contexts/JobContext.jsx:56-84 | for anyone but a provider, or on an error: [] and nothing changes. Otherwise the reply is returned and merged by id into `jobs` |
| JobContext.JobCache.GetMatchingJobs | client/src/contexts/JobContext.jsx:87-115 | for anyone but a seeker, or on an error: [] and nothing changes. Otherwise the reply is returned and merged by id into `jobs` |
| JobContext.JobCache.GetAvailableJobs | client/src/contexts/JobContext.jsx:118-140 | sends the query above; a reply replaces `jobs`, and an error returns [] with `jobs` unchanged |
| JobContext.JobCache.GetJobApplications | client/src/contexts/JobContext.jsx:143-198 | a cached bucket goes to anyone, without a role check. Otherwise: a provider fetches, merges and caches; a seeker gets and caches the filter of their own applications; anybody else gets [] |
| JobContext.JobCache.GetSeekerApplications | client/src/contexts/JobContext.jsx:201-229 | for a seeker a reply replaces `applications`, and the buckets become its grouping by job; otherwise nothing changes |
| JobContext.JobCache.PostJob | client/src/contexts/JobContext.jsx:232-255 | refused to anyone but a provider; the created job is appended; an error is rethrown with nothing changed |
| JobContext.JobCache.ApplyForJob | client/src/contexts/JobContext.jsx:258-304 | refused to anyone but a seeker. A 400 gives false and any other error is rethrown, with nothing changed either way. On success the application is appended to the list and to its bucket, and only that job's applicant count rises |
| JobContext.JobCache.SelectApplicant | client/src/contexts/JobContext.jsx:307-358 | refused to anyone but a provider. On success the cascade is replayed on `applications`, the bucket is rewritten only if it was cached, and the job is assigned. An error is rethrown with nothing changed |
| JobContext.JobCache.CompleteJob | client/src/contexts/JobContext.jsx:361-393 | refused when nobody is signed in; on success the job is completed locally; an error is rethrown |
| NotificationContext.UnreadCount | client/src/contexts/NotificationContext.jsx:36 | at most the list's length, and 0 exactly when every notification is read |
| NotificationContext.MarkRead | client/src/contexts/NotificationContext.jsx:54-61 | the notifications with that id become read; all others are unchanged |
| NotificationContext.UnreadAfterMarkRead | client/src/contexts/NotificationContext.jsx:54-61 | with distinct ids, marking one read lowers the unread count by one exactly when it was unread |
| NotificationContext.MarkAllRead | client/src/contexts/NotificationContext.jsx:72 | every notification becomes read and nothing else changes |
| NotificationContext.Decremented | client/src/contexts/NotificationContext.jsx:62 | the counter goes one down, floored at 0 |
| NotificationContext.BadgeCanUndercount | client/src/contexts/NotificationContext.jsx:62 | clicking a notification already read still lowers the counter, which then shows fewer unread notifications than the list holds |
| NotificationContext.NotificationCache.constructor | client/src/contexts/NotificationContext.jsx:14-15 | empty list, counter 0 |
| NotificationContext.NotificationCache.UserChanged | client/src/contexts/NotificationContext.jsx:18-25 | signing out empties the list and zeroes the counter; signing in fetches |
| NotificationContext.NotificationCache.FetchNotifications | client/src/contexts/NotificationContext.jsx:27-48 | a reply replaces the list and the counter becomes its unread count; an error keeps both; nothing happens when nobody is signed in |
| NotificationContext.NotificationCache.MarkAsRead | client/src/contexts/NotificationContext.jsx:50-66 | on success that id is read and the counter is decremented, floored at 0; an error changes nothing; the counter never goes negative |
| NotificationContext.NotificationCache.MarkAllAsRead | client/src/contexts/NotificationContext.jsx:68-77 | on success everything is read and the counter is 0; an error changes nothing |
| JobDetails.JobOnPage | client/src/pages/JobDetails.jsx:18-20 | the cached job with the address's id that comes before every other one with that id, or none exactly when there is no such job |
| JobDetails.MyApplication | client/src/pages/JobDetails.jsx:35 | an application to this job by the viewer with no earlier one in the list; none exactly when nobody is signed in or there is no such application |
| JobDetails.SelectedApplication | client/src/pages/JobDetails.jsx:37 | a selected application to this job with no earlier one in the list; none exactly when there is none |
| JobDetails.IsJobOwner | client/src/pages/JobDetails.jsx:39 | `isJobOwner`: a provider is signed in and owns the job |
| JobDetails.IsAssignedSeeker | client/src/pages/JobDetails.jsx:40 | `isAssignedSeeker`: a seeker is signed in and the job is assigned to them |
| JobDetails.CanComplete | client/src/pages/JobDetails.jsx:41 | `canComplete`: the owner or the assigned seeker, while the job is assigned |
| JobDetails.ApplyButtonShown | client/src/pages/JobDetails.jsx:202 | "Apply Now" shows for a seeker on an open job with no cached application of theirs |
| JobDetails.CanViewContact | client/src/pages/JobDetails.jsx:42 | the owning provider at any status, or the assigned seeker only while the job is assigned |
| JobDetails.CanCompleteAgreesWithServer | client/src/pages/JobDetails.jsx:39-41 | the completion button shows exactly for the callers `complete_job` accepts |
| JobDetails.ApplyButtonAgreesWithServer | client/src/pages/JobDetails.jsx:202 | "Apply Now" is shown only to a seeker on an open job with no application of theirs, so the server will not answer "already applied" |
| JobDetails.SeekerLabel | client/src/pages/JobDetails.jsx:221-225 | "You were selected!" for selected, "Not selected" for rejected, otherwise "Application pending" |
| JobDetails.ApplyAlertAsWritten | client/src/pages/JobDetails.jsx:44-50 | as written: the success alert whatever the request did |
| JobDetails.ApplyAlertMisreports | client/src/pages/JobDetails.jsx:44-50 | a seeker the server refuses as already applied is told the application was submitted, where the awaited version says "already applied" |
| JobDetails.ApplyAlert | client/src/pages/JobDetails.jsx:44-50 | with the outcome awaited: success exactly when the application was filed, "already applied" exactly on a refusal, nothing on an error |
| JobDetails.CompletionView | client/src/pages/JobDetails.jsx:52-58 | with the outcome awaited: the form closes with the success alert exactly when the job was completed |
| JobDetails.CompletionViewAsWritten | client/src/pages/JobDetails.jsx:52-58 | as written: the form always closes with the success alert |
| JobDetails.CompletionViewMisreports | client/src/pages/JobDetails.jsx:52-58 | a completion the server rejects with status 400 (the job is no longer assigned) still closes the form with the success alert; the awaited version keeps it open with no alert |
| ApplicationCard.Badge | client/src/components/ApplicationCard.jsx:13-15 | "Selected" exactly for a selected application. Otherwise "Not Selected" exactly while the job is assigned, and "Pending" in every other case |
| ApplicationCard.IsSelected | client/src/components/ApplicationCard.jsx:13 | `isSelected`: the application's status is selected |
| ApplicationCard.IsRejected | client/src/components/ApplicationCard.jsx:14 | `isRejected`: the job is assigned and the application is not the selected one |
| ApplicationCard.IsCompleted | client/src/components/ApplicationCard.jsx:15 | `isCompleted`: the job is completed |
| ApplicationCard.SelectButtonShown | client/src/components/ApplicationCard.jsx:116 | the select button shows for a provider while the job is open |
| ApplicationCard.FeedbackShown | client/src/components/ApplicationCard.jsx:128 | feedback shows once the job is completed and the application carries feedback |
| ApplicationCard.Highlighted | client/src/components/ApplicationCard.jsx:76 | a seeker's skill is highlighted when the job requires exactly that skill |
| ApplicationCard.CompletedJobShowsRejectedAsPending | client/src/components/ApplicationCard.jsx:65 | on a completed job a rejected application is badged "Pending" |
| ApplicationCard.BadgeNamesAssignee | client/src/components/ApplicationCard.jsx:65 | in a consistent store on an assigned job, "Selected" is shown exactly for the assignee's application and "Not Selected" for every other one |
| ApplicationCard.SelectButtonOnlyBeforeDecision | client/src/components/ApplicationCard.jsx:116 | the select button appears only while no application of the job is selected |
| ApplicationCard.HighlightAgreesWithMatching | client/src/components/ApplicationCard.jsx:76 | some skill is highlighted exactly when the server's `$in` matching links the seeker's skills with the job's |
| ApplicationCard.FilledStars | client/src/components/ApplicationCard.jsx:30 | the number of filled stars is the rating's floor, kept within 0..5 |
| ApplicationCard.Stars | client/src/components/ApplicationCard.jsx:23-30 | five stars; star `i` is filled exactly when `i` is below the filled count |
| JobCard.ApplyButtonLabel | client/src/components/JobCard.jsx:162 | "Apply" exactly when the button is enabled; "Applying..." exactly while loading; "Applied" exactly when applied and not loading |
| JobCard.HasApplicationOf | client/src/components/JobCard.jsx:20 | some returned application belongs to the seeker |
| JobCard.ApplyButtonShown | client/src/components/JobCard.jsx:152 | the apply button shows for a seeker, when the card allows applying, on an open job |
| JobCard.ApplyButtonDisabled | client/src/components/JobCard.jsx:155 | the button is disabled once applied or while loading |
| JobCard.ApplyResultAlert | client/src/components/JobCard.jsx:37-46 | success exactly when filed, "already applied" exactly on a refusal, failure exactly when the request threw |
| JobCard.CardAgreesWithPage | client/src/components/JobCard.jsx:37-46 | for a request that settles without throwing, the card's alert matches the job page's awaited alert |
| JobCard.JobCardState.constructor | client/src/components/JobCard.jsx:11-12 | not applied, not loading |
| JobCard.JobCardState.CheckIfApplied | client/src/components/JobCard.jsx:15-29 | for a seeker, applied exactly when some returned application is theirs, and false when the lookup threw; otherwise unchanged |
| JobCard.JobCardState.BeginApply | client/src/components/JobCard.jsx:31-35 | a click while loading sends nothing; otherwise the card starts loading |
| JobCard.JobCardState.FinishApply | client/src/components/JobCard.jsx:36-49 | loading ends; only a filed application sets `hasApplied`; the button is enabled again exactly when nothing was filed |
| SeekerDashboard.EncodeComponent | client/src/pages/JobSeekerDashboard.jsx:28-29 | `encodeURIComponent`: unreserved characters are kept, and everything else becomes `%XX` bytes of its UTF-8 encoding. The result holds no `&`, `=` or `#` |
| SeekerDashboard.AvailableParams | client/src/pages/JobSeekerDashboard.jsx:27-29 | `status=open` first, then `location` and `category` exactly when not "all", each free of `&` |
| SeekerDashboard.AvailableJobsUrl | client/src/pages/JobSeekerDashboard.jsx:27-29 | the URL built by `+=` is the base query followed by the parameters joined with `&` |
| SeekerDashboard.AvailableUrlParameters | client/src/pages/JobSeekerDashboard.jsx:27-29 | splitting the query at `&` gives back exactly the parameters, so the server receives each filter intact |
| SeekerDashboard.MatchingView | client/src/pages/JobSeekerDashboard.jsx:40-45 | the matching jobs narrowed by location, then category, unless "all", preserving order |
| SeekerDashboard.JoinApplications | client/src/pages/JobSeekerDashboard.jsx:58-73 | one entry per application, in order: the first open job with its id, or a placeholder with status "unknown", each carrying the application's status |
| SeekerDashboard.FilterOptions | client/src/pages/JobSeekerDashboard.jsx:77-78 | "all" first, then each non-empty value once; of two options, the earlier one occurs in the values before the first occurrence of the later one |
| Common.DistinctInOrder | client/src/pages/JobSeekerDashboard.jsx:77-78 | `new Set` lists its elements in order of first appearance |
| Common.FilterKeepsOrder | client/src/pages/JobSeekerDashboard.jsx:77 | `filter` keeps the relative order of the elements it keeps |
| Common.DistinctFilterInOrder | client/src/pages/JobSeekerDashboard.jsx:77-78 | the distinct kept elements are in order of first appearance in the unfiltered values |
| SeekerDashboard.AllOfferedTwice | client/src/pages/JobSeekerDashboard.jsx:77-78 | a location literally named "all" is offered twice |
| SeekerDashboard.PlaceholdersAddNoOption | client/src/pages/JobSeekerDashboard.jsx:59-78 | every location offered in the applications view comes from an open job; placeholders add none |
| SeekerDashboard.SeekerDashboardState.constructor | client/src/pages/JobSeekerDashboard.jsx:13-17 | no entries; both option lists are just "all" |
| SeekerDashboard.SeekerDashboardState.Show | client/src/pages/JobSeekerDashboard.jsx:75-80 | the entries are replaced and both option lists are recomputed from them |
| SeekerDashboard.SeekerDashboardState.FetchData | client/src/pages/JobSeekerDashboard.jsx:19-89 | per view: the URL requested, the entries shown and the applications kept. Any failed request empties the entries and keeps the options |
| ProviderDashboard.StoredJobs | client/src/pages/JobProviderDashboard.jsx:23-30 | an array body is kept; a non-array body or a failed request gives [] |
| ProviderDashboard.FilteredJobs | client/src/pages/JobProviderDashboard.jsx:39 | "all" gives every job unchanged; any other filter gives exactly the jobs with that status, in order |
| ProviderDashboard.FilteredJobsIdempotent | client/src/pages/JobProviderDashboard.jsx:39 | filtering twice by the same status changes nothing |
| ProviderDashboard.StatusViewsPartition | client/src/pages/JobProviderDashboard.jsx:39 | when every job is open, assigned or completed, the three status views together hold every job once |
| Profile.InitialSkillsText | client/src/pages/Profile.jsx:16 | the skills joined by ", ", or "" when the user has none |
| Profile.InitialForm | client/src/pages/Profile.jsx:12-17 | the form starts with the user's name, location and bio and the skills joined by ", " |
| Profile.SubmittedProfile | client/src/pages/Profile.jsx:33-36 | name, location and bio pass through; a seeker's skills are the normalised text; anyone else keeps their current skills |
| Profile.UnchangedProfileKeepsSkills | client/src/pages/Profile.jsx:16-35 | saving the form unchanged gives a seeker back the same non-empty, normalised skills |
| Profile.EmptySkillsBecomeBlank | client/src/pages/Profile.jsx:16-35 | a seeker with no skills who saves unchanged gets one empty skill |
| Profile.JobCounts | client/src/pages/Profile.jsx:64-65 | completed and open counts; their sum is at most the number of jobs; completed is 0 exactly when no job is completed |
| Profile.ApplicationCounts | client/src/pages/Profile.jsx:77-78 | selected and pending counts; their sum is at most the number of applications |
| Profile.ProfileStars | client/src/pages/Profile.jsx:253-258 | five stars, the first `floor(rating or 0)` filled; none filled without a rating |
| Navbar.JobRefOf | client/src/components/Navbar.jsx:34 | the text read between the first and second ":" holds no ":" and is trimmed (or is "undefined") |
| Navbar.RouteFor | client/src/components/Navbar.jsx:31-40 | "new-application" goes to that job's applications; "job-selected" and "new-matching-job" go to /seeker; every other type goes nowhere |
| Navbar.BadgeShown | client/src/components/Navbar.jsx:139 | the unread badge shows exactly while the counter is positive |
| Navbar.ApplicationRouteUsesTitle | client/src/components/Navbar.jsx:32-35 | for a server-built "new-application" notice, the menu navigates using the job's title, not its id |
| Navbar.ColonInNameMisroutes | client/src/components/Navbar.jsx:32-35 | a ":" in the seeker's name makes the menu read part of the name instead |
| Navbar.NavbarState.constructor | client/src/components/Navbar.jsx:12 | the menu starts closed |
| Navbar.NavbarState.ToggleNotifications | client/src/components/Navbar.jsx:21-26 | the menu flips; everything is marked read exactly when it opens while the counter is positive |
| Navbar.NavbarState.HandleNotificationClick | client/src/components/Navbar.jsx:28-43 | that one notification is marked read, the menu closes and the route is as above |
| Register.SubmitRegistration | client/src/pages/Register.jsx:28-49 | mismatched passwords are reported first, then a missing user type. Otherwise every field passes through, the rating is 0, and a seeker's skills are normalised while anyone else gets [] |
| Register.SeekerSkillsNormalised | client/src/pages/Register.jsx:46-47 | a registered seeker has one trimmed, lower-case skill per comma plus one |
| Register.AfterRegisterAsWritten | client/src/pages/Register.jsx:51-52 | as written: every new user goes to /seeker |
| Register.ProviderLandsOnSeekerDashboard | client/src/pages/Register.jsx:51-52 | a new provider lands on /seeker, where the awaited version sends them to /provider |
| Register.AfterRegister | client/src/pages/Register.jsx:51-55 | with the promise awaited: a provider goes to /provider, anyone else to /seeker, and a failure shows the error |
| PostJob.ProcessedJob | client/src/pages/PostJob.jsx:34-37 | one required skill per comma plus one, in input order, each trimmed and lower-case; every other field passes through |
| PostJob.EmptyPiecesKept | client/src/pages/PostJob.jsx:36 | "a,,b" posts the skills "a", "" and "b" |
| PostJob.ServerMatchIsCaseSensitive | server/app.py:257-260 | the server's matching is exact: "React" does not match "react" |
| PostJob.NormalisedSkillsMeet | client/src/pages/PostJob.jsx:36 | a posted skill piece and a registered one whose trimmed texts agree letter by letter once lower-cased make the server's `$in` matching succeed |
| Text.Split | client/src/pages/PostJob.jsx:36 | `split(",")`: one piece per separator plus one, none holding the separator |
| Text.SplitThenJoin | client/src/pages/PostJob.jsx:36 | joining the pieces with the separator gives back the text |
| Text.JoinThenSplit | client/src/pages/Profile.jsx:16 | splitting a join of separator-free pieces gives back the pieces |
| Text.Trim | client/src/pages/PostJob.jsx:36 | `trim()`: no leading or trailing whitespace, and an already trimmed string is kept |
| Text.Lower | client/src/pages/PostJob.jsx:36 | `toLowerCase()` on ASCII: each character is lower-cased in place, so the length is kept, no capital letter is left, and whitespace and commas stay where they were |
| Text.NormalizeSkills | client/src/pages/PostJob.jsx:36 | one entry per comma plus one, each trimmed, lower-case and comma-free |
| Text.CaseAndSpacingInsensitive | client/src/pages/PostJob.jsx:36 | two pieces that differ only in letter case and surrounding whitespace normalise to the same skill |
| Text.NormalizeJoinRoundTrip | client/src/pages/Profile.jsx:16-35 | normalising the ", "-join of normalised, comma-free skills gives them back |
| Text.NormalizeCommaJoin | client/src/pages/PostJob.jsx:36 | normalising the ","-join of normalised, comma-free skills gives them back, empty ones included |

## Findings

| source | as written | input that shows it | evidently intended | confidence | as-written member | corrected member |
|---|---|---|---|---|---|---|
| client/src/pages/JobDetails.jsx:44-50 | `if (applyForJob(id))` tests the promise, which is always truthy | a seeker who already applied: the request answers 400 and the page still says "Application submitted successfully!" | await the outcome; report success only when an application was filed | high, not executed | JobDetails.ApplyAlertAsWritten (lemma JobDetails.ApplyAlertMisreports) | JobDetails.ApplyAlert |
| client/src/pages/JobDetails.jsx:52-58 | `if (completeJob(...))` tests the promise, which is always truthy | a refused or failed completion still closes the form with the success alert | await the outcome; close the form only on success | high, not executed | JobDetails.CompletionViewAsWritten (lemma JobDetails.CompletionViewMisreports) | JobDetails.CompletionView |
| client/src/pages/Register.jsx:51-52 | `register(userData)` is not awaited, so `user.userType` is undefined | a new provider is sent to /seeker | await the registration and route by the returned user's role | high, not executed | Register.AfterRegisterAsWritten (lemma Register.ProviderLandsOnSeekerDashboard) | Register.AfterRegister |

## Left out

- Authentication is not modelled: JWT, password hashing, `/token`, `/register`, `/users/me` and the client's auth context. The caller is a `User` parameter, and the pages take the signed-in user as an `Option<User>`.
- `update_user` (server/app.py:217-231) is a plain `$set` of the submitted fields and is not modelled.
- MongoDB and HTTP are replaced. Collections are maps, and a query's result is a map, so cursor order is not modelled. ObjectIds are naturals from a counter. HTTP replies are parameters, and a `null` body (`response.data || []`) is not distinguished from an empty list.
- Timestamps (`createdAt`, `appliedAt`, `completedAt`, `timestamp`) are left out; nothing in the model reads them.
- The rating recomputation in `complete_job` (server/app.py:603-652) is left out. It averages floats over the database, and no other handler reads the rating.
- `seed_data` (server/app.py:705-1004) is left out. It is fixture data that does not satisfy the invariants.
- Requests are modelled one at a time. The three separate writes of `select_applicant` are one step, and races between requests are not modelled.
- The order of the `create_job` fan-out is left open. `SendMatchNotices` picks any remaining recipient, and its contract holds for every order.
- On a job without an assignee, a caller who is not the provider makes `complete_job` read `job["assignedTo"]`, a key `create_job` never writes. Python then raises `KeyError`, which FastAPI answers with status 500. `CompleteJob` returns `InternalError` there rather than `Forbidden`.
- Two branches of the handlers cannot happen in a consistent store, so they have no counterpart in the model. A selected application whose job is missing cannot occur. Neither can a completed job without a selected application. The methods that use these facts require `Valid()`.
- `select_applicant` accepting a completed job and `complete_job` accepting any rating are kept as the code behaves; see `ReselectAfterCompletion` and `CompleteJob`.
- Text.Lower: `toLowerCase` is modelled for ASCII letters only; other characters are kept as they are, so `Text.NormalizeSkills` does not lower-case non-ASCII capitals.
- Loading flags, JSX markup, styling, the fabricated contact details and `App.jsx`'s routes are not modelled. Neither is client/src/pages/Applications.jsx, which only fetches and renders.
- The alert text of the pages is modelled only where it tells the user an outcome (JobCard, JobDetails, Register).
- `refreshNotifications` calls from the job context are not modelled as state changes of the notification cache; the cache's `FetchNotifications` is the same operation.
- `Navbar.JobRefOf`: models `split(":")[1]?.trim()`, including the "undefined" text of a message without a ":".
