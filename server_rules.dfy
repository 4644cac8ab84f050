/** The rules behind the server's handlers, stated on values: the query filters,
    the records the handlers build, the select-applicant cascade, and the
    consistency invariant every handler preserves. */
module ServerRules {
  import opened Common
  import opened Records
  import Text

  /** How a handler ends: its response body, or the HTTP error it raises
      (404, 403, 400, or a 500 from an unguarded key lookup). */
  datatype Outcome<T> = Ok(value: T) | NotFound | Forbidden | BadRequest | InternalError

  /** `serialize_id`: a stored document's `_id` becomes its `id`; every other key stays. */
  function SerializeId<V>(doc: map<string, V>): (r: map<string, V>)
    ensures "_id" !in r
    ensures "_id" in doc ==> "id" in r && r["id"] == doc["_id"]
    ensures "_id" !in doc ==> r == doc
    ensures forall k :: k in doc && k != "_id" && k != "id" ==> k in r && r[k] == doc[k]
    ensures forall k :: k in r ==> k == "id" || k in doc
  {
    if "_id" in doc then (doc - {"_id"})["id" := doc["_id"]] else doc
  }

  /** Serialising a serialised document changes nothing. */
  lemma SerializeIdIdempotent<V>(doc: map<string, V>)
    ensures SerializeId(SerializeId(doc)) == SerializeId(doc)
  {
  }

  // ---------------------------------------------------------------- queries

  /** A query parameter takes part in `GET /jobs` only when it is present and non-empty. */
  predicate Supplied(p: Option<string>)
  {
    p.Some? && p.value != ""
  }

  /** The `GET /jobs` filter: each supplied parameter must equal the job's field. */
  predicate MatchesQuery(j: Job, status: Option<string>, location: Option<string>, category: Option<string>)
  {
    (Supplied(status) ==> j.status == status.value) &&
    (Supplied(location) ==> j.location == location.value) &&
    (Supplied(category) ==> j.category == category.value)
  }

  /** MongoDB's `$in` between two arrays: they have an element in common. */
  predicate SharesSkill(a: seq<string>, b: seq<string>)
  {
    exists s :: s in a && s in b
  }

  /** The `GET /jobs/matching` filter for a seeker with the given skills. */
  predicate MatchesSkills(j: Job, skills: seq<string>)
  {
    j.status == Open && SharesSkill(j.requiredSkills, skills)
  }

  /** The seekers `create_job` notifies: every seeker holding one of the required skills. */
  function MatchingSeekers(users: map<Id, User>, required: seq<string>): set<Id>
  {
    set u | u in users && users[u].userType == Seeker && SharesSkill(users[u].skills, required)
  }

  /** Whether `seeker` has already filed an application for `job`. */
  predicate Applied(apps: map<Id, Application>, job: Id, seeker: Id)
  {
    exists a :: a in apps && apps[a].jobId == job && apps[a].seekerId == seeker
  }

  /** The checks `complete_job` makes of a stored job before recording feedback: the caller
      is its provider or its assigned seeker, and the job is assigned. */
  predicate CompletionAccepted(j: Job, caller: Id)
  {
    (j.providerId == caller || j.assignedTo == Some(caller)) && j.status == Assigned
  }

  // ---------------------------------------------------------------- records the handlers build

  /** The job `create_job` stores: open, no applicants, nobody assigned, owned by the caller. */
  function PostedJob(id: Id, spec: JobSpec, provider: User): Job
  {
    Job(id, spec.title, spec.description, spec.location, spec.category, spec.requiredSkills,
        spec.payment, spec.duration, provider.id, provider.name, Open, 0, None)
  }

  /** The application `create_application` stores, with a snapshot of the seeker's profile. */
  function PendingApplication(id: Id, job: Id, seeker: User): Application
  {
    Application(id, job, seeker.id, seeker.name, Pending,
                SeekerProfile(seeker.skills, seeker.rating, seeker.bio), None)
  }

  function MatchNotice(id: Id, seeker: Id, title: string): Notification
  {
    Notification(id, seeker, NewMatchingJob, "New Job Match",
                 "A new job matching your skills has been posted: " + title, false)
  }

  function ApplicationNotice(id: Id, job: Job, seeker: User): Notification
  {
    Notification(id, job.providerId, NewApplication, "New Application",
                 seeker.name + " has applied for your job: " + job.title, false)
  }

  function SelectionNotice(id: Id, seeker: Id, job: Job): Notification
  {
    Notification(id, seeker, JobSelected, "Job Offer", "You've been selected for the job: " + job.title, false)
  }

  function FeedbackNotice(id: Id, recipient: Id, fb: Feedback, job: Job): Notification
  {
    Notification(id, recipient, JobFeedback, "Job Feedback",
                 "You received a " + Text.IntToString(fb.rating) + "-star rating for the job: " +
                 job.title + ". Feedback: " + fb.comment, false)
  }

  /** The `$inc` of `create_application`. */
  function Bumped(j: Job): Job
  {
    j.(applicants := j.applicants + 1)
  }

  /** The job update of `select_applicant`. */
  function Assign(j: Job, seeker: Id): Job
  {
    j.(status := Assigned, assignedTo := Some(seeker))
  }

  /** The two application updates of `select_applicant`. */
  function Cascade(apps: map<Id, Application>, chosen: Id): map<Id, Application>
    requires chosen in apps
  {
    map a | a in apps ::
      if a == chosen then apps[a].(status := Selected)
      else if apps[a].jobId == apps[chosen].jobId then apps[a].(status := Rejected)
      else apps[a]
  }

  /** The chosen application is selected, every other application for the same job is
      rejected, applications for other jobs are untouched, and nothing but a status changes. */
  lemma CascadeEffect(apps: map<Id, Application>, chosen: Id)
    requires chosen in apps
    ensures Cascade(apps, chosen).Keys == apps.Keys
    ensures Cascade(apps, chosen)[chosen].status == Selected
    ensures forall a :: a in apps && a != chosen && apps[a].jobId == apps[chosen].jobId ==>
      Cascade(apps, chosen)[a].status == Rejected
    ensures forall a :: a in apps && apps[a].jobId != apps[chosen].jobId ==> Cascade(apps, chosen)[a] == apps[a]
    ensures forall a :: a in apps ==> Cascade(apps, chosen)[a] == apps[a].(status := Cascade(apps, chosen)[a].status)
  {
  }

  /** The applications filed for a job. */
  ghost function ApplicationsFor(apps: map<Id, Application>, job: Id): set<Id>
  {
    set a | a in apps && apps[a].jobId == job
  }

  /** The selected applications of a job. */
  ghost function SelectedFor(apps: map<Id, Application>, job: Id): set<Id>
  {
    set a | a in apps && apps[a].jobId == job && apps[a].status == Selected
  }

  /** After the cascade the chosen application is the only selected one of its job,
      and the job keeps the same applications. */
  lemma CascadeSelectsExactlyOne(apps: map<Id, Application>, chosen: Id)
    requires chosen in apps
    ensures SelectedFor(Cascade(apps, chosen), apps[chosen].jobId) == {chosen}
    ensures forall j :: ApplicationsFor(Cascade(apps, chosen), j) == ApplicationsFor(apps, j)
  {
    var r := Cascade(apps, chosen);
    SameJobsSameApplications(apps, r);
  }

  lemma SameJobsSameApplications(apps: map<Id, Application>, r: map<Id, Application>)
    requires r.Keys == apps.Keys
    requires forall a :: a in apps ==> r[a].jobId == apps[a].jobId
    ensures forall j :: ApplicationsFor(r, j) == ApplicationsFor(apps, j)
  {
  }

  // ---------------------------------------------------------------- the invariant

  /** Every record is stored under its own id, and every id is below the next fresh one. */
  ghost predicate Identified(users: map<Id, User>, jobs: map<Id, Job>, apps: map<Id, Application>, next: Id)
  {
    (forall u :: u in users ==> u < next && users[u].id == u) &&
    (forall j :: j in jobs ==> j < next && jobs[j].id == j) &&
    (forall a :: a in apps ==> a < next && apps[a].id == a)
  }

  ghost predicate NoticesIdentified(notes: map<Id, Notification>, next: Id)
  {
    forall n :: n in notes ==> n < next && notes[n].id == n
  }

  /** Each seeker applies at most once to a job. */
  ghost predicate OneApplicationPerSeeker(apps: map<Id, Application>)
  {
    forall a, b ::
      (a in apps && b in apps && apps[a].jobId == apps[b].jobId && apps[a].seekerId == apps[b].seekerId) ==> a == b
  }

  /** A job's `applicants` is the number of applications filed for it. */
  ghost predicate ApplicantsCounted(jobs: map<Id, Job>, apps: map<Id, Application>)
  {
    forall j :: j in jobs ==> jobs[j].applicants == |ApplicationsFor(apps, j)|
  }

  ghost predicate AtMostOneSelected(apps: map<Id, Application>)
  {
    forall a, b ::
      (a in apps && b in apps && apps[a].jobId == apps[b].jobId && apps[a].status == Selected && apps[b].status == Selected) ==> a == b
  }

  /** Statuses come from the documented sets; an application refers to a stored job and
      is pending exactly while that job is open. */
  ghost predicate Lifecycle(jobs: map<Id, Job>, apps: map<Id, Application>)
  {
    (forall j :: j in jobs ==> jobs[j].status == Open || jobs[j].status == Assigned || jobs[j].status == Completed) &&
    (forall a :: a in apps ==>
      (apps[a].status == Pending || apps[a].status == Selected || apps[a].status == Rejected) &&
      apps[a].jobId in jobs &&
      (apps[a].status == Pending <==> jobs[apps[a].jobId].status == Open))
  }

  /** A job has an assignee exactly when it is no longer open, the assignee is the seeker of
      a selected application for it, and a selected application's seeker is its job's assignee. */
  ghost predicate AssignedToSelected(jobs: map<Id, Job>, apps: map<Id, Application>)
  {
    (forall j :: j in jobs ==> (jobs[j].assignedTo.Some? <==> jobs[j].status != Open)) &&
    (forall j :: j in jobs && jobs[j].status != Open ==>
      exists a :: a in apps && apps[a].jobId == j && apps[a].status == Selected) &&
    (forall a :: a in apps && apps[a].status == Selected && apps[a].jobId in jobs ==>
      jobs[apps[a].jobId].assignedTo == Some(apps[a].seekerId))
  }

  ghost predicate Consistent(users: map<Id, User>, jobs: map<Id, Job>, apps: map<Id, Application>, next: Id)
  {
    Identified(users, jobs, apps, next) &&
    OneApplicationPerSeeker(apps) &&
    ApplicantsCounted(jobs, apps) &&
    AtMostOneSelected(apps) &&
    Lifecycle(jobs, apps) &&
    AssignedToSelected(jobs, apps)
  }

  /** A job that is assigned or completed has exactly one selected application, and its
      seeker is the job's assignee. */
  lemma DecidedJobHasOneSelected(users: map<Id, User>, jobs: map<Id, Job>, apps: map<Id, Application>, next: Id, j: Id)
    requires Consistent(users, jobs, apps, next)
    requires j in jobs && jobs[j].status != Open
    ensures jobs[j].assignedTo.Some?
    ensures exists a :: a in apps && SelectedFor(apps, j) == {a} && apps[a].seekerId == jobs[j].assignedTo.value
  {
    var a :| a in apps && apps[a].jobId == j && apps[a].status == Selected;
    assert SelectedFor(apps, j) == {a};
  }

  /** An open job has no assignee and all its applications are still pending. */
  lemma OpenJobUndecided(users: map<Id, User>, jobs: map<Id, Job>, apps: map<Id, Application>, next: Id, j: Id)
    requires Consistent(users, jobs, apps, next)
    requires j in jobs && jobs[j].status == Open
    ensures jobs[j].assignedTo == None
    ensures forall a :: a in ApplicationsFor(apps, j) ==> apps[a].status == Pending
  {
  }

  /** The notifications after a run of match notices under the ids from `lo` on, one for each
      seeker of `order` in turn: the earlier notifications stay as they were. */
  ghost predicate NoticesInOrder(before: map<Id, Notification>, after: map<Id, Notification>,
                                 lo: Id, order: seq<Id>, title: string)
  {
    (forall n :: n in after <==> n in before || lo <= n < lo + |order|) &&
    (forall n :: n in before ==> after[n] == before[n]) &&
    (forall i :: 0 <= i < |order| ==> after[lo + i] == MatchNotice(lo + i, order[i], title))
  }

  /** The notices the `create_job` fan-out inserts between ids `lo` and `hi`: the earlier
      notifications stay as they were and the new ids hold one match notice for the job's
      title per recipient, in some order, with no recipient served twice. */
  ghost predicate MatchNoticesSent(before: map<Id, Notification>, after: map<Id, Notification>,
                                   lo: Id, hi: Id, recipients: set<Id>, title: string)
  {
    exists order: seq<Id> ::
      lo + |order| == hi && NoDuplicates(order) && (forall u :: u in order <==> u in recipients) &&
      NoticesInOrder(before, after, lo, order, title)
  }

  /** One round of the fan-out: a notice to the next recipient, under the next id. */
  lemma FanOutStep(before: map<Id, Notification>, notes: map<Id, Notification>, lo: Id, order: seq<Id>,
                   u: Id, title: string, after: map<Id, Notification>)
    requires NoticesInOrder(before, notes, lo, order, title)
    requires forall n :: n in before ==> n < lo
    requires after == notes[lo + |order| := MatchNotice(lo + |order|, u, title)]
    ensures NoticesInOrder(before, after, lo, order + [u], title)
  {
    var order' := order + [u];
    forall i | 0 <= i < |order'|
      ensures after[lo + i] == MatchNotice(lo + i, order'[i], title)
    {
      if i < |order| {
        assert order'[i] == order[i];
      }
    }
  }

  /** One step of the fan-out: the recipient taken from the pending ones is appended to the
      order, which stays duplicate-free and keeps covering exactly the recipients served. */
  lemma OrderStep<T>(order: seq<T>, recipients: set<T>, pending: set<T>, u: T)
    requires NoDuplicates(order) && (forall v :: v in order <==> v in recipients && v !in pending)
    requires pending <= recipients && u in pending
    ensures NoDuplicates(order + [u])
    ensures forall v :: v in order + [u] <==> v in recipients && v !in pending - {u}
  {
    assert u !in order;
  }

  /** Under a consistent store the fan-out sends each matching seeker exactly one notice:
      there are as many new notices as recipients. */
  lemma {:induction false} DistinctOrderCounts<T>(order: seq<T>, recipients: set<T>)
    requires NoDuplicates(order) && (forall u :: u in order <==> u in recipients)
    ensures |order| == |recipients|
    decreases |order|
  {
    if |order| > 0 {
      var last := order[|order| - 1];
      var init := order[..|order| - 1];
      assert forall u :: u in init <==> u in recipients - {last} by {
        forall u ensures u in init <==> u in recipients - {last} {
          if u in init {
            var k :| 0 <= k < |init| && init[k] == u;
            assert order[k] == u && k < |order| - 1;
          }
          if u in order && u != last {
            var k :| 0 <= k < |order| && order[k] == u;
            assert init[k] == u;
          }
        }
      }
      DistinctOrderCounts(init, recipients - {last});
    } else {
      assert forall u :: u !in recipients;
    }
  }

  /** However the fan-out orders its recipients, it inserts one notice per recipient. */
  lemma MatchNoticesCount(before: map<Id, Notification>, after: map<Id, Notification>,
                          lo: Id, hi: Id, recipients: set<Id>, title: string)
    requires MatchNoticesSent(before, after, lo, hi, recipients, title)
    ensures hi - lo == |recipients|
  {
    var order: seq<Id> :| lo + |order| == hi && NoDuplicates(order) && (forall u :: u in order <==> u in recipients) &&
      NoticesInOrder(before, after, lo, order, title);
    DistinctOrderCounts(order, recipients);
  }

  lemma AddNotice(notes: map<Id, Notification>, next: Id, n: Notification)
    requires NoticesIdentified(notes, next) && n.id == next
    ensures NoticesIdentified(notes[next := n], next + 1)
  {
  }

  /** A seeker notified about a new job finds it among their matching jobs. */
  lemma NotifiedSeekerSeesMatch(users: map<Id, User>, u: Id, id: Id, spec: JobSpec, provider: User)
    requires u in MatchingSeekers(users, spec.requiredSkills)
    ensures MatchesSkills(PostedJob(id, spec, provider), users[u].skills)
  {
    var s :| s in users[u].skills && s in spec.requiredSkills;
    assert s in PostedJob(id, spec, provider).requiredSkills;
  }

  // ---------------------------------------------------------------- preservation

  lemma RaiseBound(users: map<Id, User>, jobs: map<Id, Job>, apps: map<Id, Application>, next: Id, next': Id)
    requires Consistent(users, jobs, apps, next) && next <= next'
    ensures Consistent(users, jobs, apps, next')
  {
  }

  /** `create_job` keeps the store consistent. */
  lemma PostPreserves(users: map<Id, User>, jobs: map<Id, Job>, apps: map<Id, Application>, next: Id, job: Job)
    requires Consistent(users, jobs, apps, next)
    requires job.id == next && job.status == Open && job.applicants == 0 && job.assignedTo == None
    ensures Consistent(users, jobs[next := job], apps, next + 1)
  {
    PostKeepsIdentity(users, jobs, apps, next, job);
    PostKeepsCounts(jobs, apps, next, job);
    PostKeepsLifecycle(jobs, apps, next, job);
    PostKeepsAssignee(jobs, apps, next, job);
  }

  lemma PostKeepsIdentity(users: map<Id, User>, jobs: map<Id, Job>, apps: map<Id, Application>, next: Id, job: Job)
    requires Identified(users, jobs, apps, next) && job.id == next
    ensures Identified(users, jobs[next := job], apps, next + 1)
  {
  }

  lemma PostKeepsCounts(jobs: map<Id, Job>, apps: map<Id, Application>, next: Id, job: Job)
    requires ApplicantsCounted(jobs, apps) && (forall a :: a in apps ==> apps[a].jobId in jobs)
    requires next !in jobs && job.applicants == 0
    ensures ApplicantsCounted(jobs[next := job], apps)
  {
    assert ApplicationsFor(apps, next) == {};
  }

  lemma PostKeepsLifecycle(jobs: map<Id, Job>, apps: map<Id, Application>, next: Id, job: Job)
    requires Lifecycle(jobs, apps) && next !in jobs && job.status == Open
    ensures Lifecycle(jobs[next := job], apps)
  {
  }

  lemma PostKeepsAssignee(jobs: map<Id, Job>, apps: map<Id, Application>, next: Id, job: Job)
    requires AssignedToSelected(jobs, apps) && (forall a :: a in apps ==> apps[a].jobId in jobs)
    requires next !in jobs && job.status == Open && job.assignedTo == None
    ensures AssignedToSelected(jobs[next := job], apps)
  {
  }

  lemma InsertApplication(apps: map<Id, Application>, n: Id, x: Application)
    requires n !in apps
    ensures |ApplicationsFor(apps[n := x], x.jobId)| == |ApplicationsFor(apps, x.jobId)| + 1
    ensures forall j :: j != x.jobId ==> ApplicationsFor(apps[n := x], j) == ApplicationsFor(apps, j)
  {
    assert ApplicationsFor(apps[n := x], x.jobId) == ApplicationsFor(apps, x.jobId) + {n};
  }

  /** `create_application` keeps the store consistent when its checks pass. */
  lemma ApplyPreserves(users: map<Id, User>, jobs: map<Id, Job>, apps: map<Id, Application>, next: Id, job: Id, seeker: User)
    requires Consistent(users, jobs, apps, next)
    requires job in jobs && jobs[job].status == Open && !Applied(apps, job, seeker.id)
    ensures Consistent(users, jobs[job := Bumped(jobs[job])], apps[next := PendingApplication(next, job, seeker)], next + 1)
  {
    ApplyKeepsIdentity(users, jobs, apps, next, job, seeker);
    ApplyKeepsCounts(jobs, apps, next, job, seeker);
    ApplyKeepsLifecycle(jobs, apps, next, job, seeker);
    ApplyKeepsAssignee(jobs, apps, next, job, seeker);
  }

  lemma ApplyKeepsIdentity(users: map<Id, User>, jobs: map<Id, Job>, apps: map<Id, Application>, next: Id, job: Id, seeker: User)
    requires Identified(users, jobs, apps, next) && OneApplicationPerSeeker(apps) && AtMostOneSelected(apps)
    requires job in jobs && !Applied(apps, job, seeker.id)
    ensures Identified(users, jobs[job := Bumped(jobs[job])], apps[next := PendingApplication(next, job, seeker)], next + 1)
    ensures OneApplicationPerSeeker(apps[next := PendingApplication(next, job, seeker)])
    ensures AtMostOneSelected(apps[next := PendingApplication(next, job, seeker)])
  {
  }

  lemma ApplyKeepsCounts(jobs: map<Id, Job>, apps: map<Id, Application>, next: Id, job: Id, seeker: User)
    requires ApplicantsCounted(jobs, apps) && job in jobs && next !in apps
    ensures ApplicantsCounted(jobs[job := Bumped(jobs[job])], apps[next := PendingApplication(next, job, seeker)])
  {
    InsertApplication(apps, next, PendingApplication(next, job, seeker));
  }

  lemma ApplyKeepsLifecycle(jobs: map<Id, Job>, apps: map<Id, Application>, next: Id, job: Id, seeker: User)
    requires Lifecycle(jobs, apps) && job in jobs && jobs[job].status == Open
    ensures Lifecycle(jobs[job := Bumped(jobs[job])], apps[next := PendingApplication(next, job, seeker)])
  {
  }

  lemma ApplyKeepsAssignee(jobs: map<Id, Job>, apps: map<Id, Application>, next: Id, job: Id, seeker: User)
    requires AssignedToSelected(jobs, apps) && job in jobs && jobs[job].status == Open && next !in apps
    ensures AssignedToSelected(jobs[job := Bumped(jobs[job])], apps[next := PendingApplication(next, job, seeker)])
  {
    var apps' := apps[next := PendingApplication(next, job, seeker)];
    var jobs' := jobs[job := Bumped(jobs[job])];
    forall j | j in jobs' && jobs'[j].status != Open
      ensures exists a :: a in apps' && apps'[a].jobId == j && apps'[a].status == Selected
    {
      var a :| a in apps && apps[a].jobId == j && apps[a].status == Selected;
      assert apps'[a] == apps[a];
    }
  }

  /** `select_applicant` keeps the store consistent, whatever the job's status was. */
  lemma SelectPreserves(users: map<Id, User>, jobs: map<Id, Job>, apps: map<Id, Application>, next: Id, chosen: Id)
    requires Consistent(users, jobs, apps, next)
    requires chosen in apps
    ensures apps[chosen].jobId in jobs
    ensures Consistent(users, jobs[apps[chosen].jobId := Assign(jobs[apps[chosen].jobId], apps[chosen].seekerId)],
                       Cascade(apps, chosen), next)
  {
    CascadeKeepsIdentity(users, jobs, apps, next, chosen);
    CascadeKeepsCounts(jobs, apps, chosen);
    CascadeKeepsOneSelected(apps, chosen);
    CascadeKeepsLifecycle(jobs, apps, chosen);
    CascadeKeepsAssignee(jobs, apps, chosen);
  }

  lemma CascadeKeepsIdentity(users: map<Id, User>, jobs: map<Id, Job>, apps: map<Id, Application>, next: Id, chosen: Id)
    requires Identified(users, jobs, apps, next) && OneApplicationPerSeeker(apps) && chosen in apps && apps[chosen].jobId in jobs
    ensures Identified(users, jobs[apps[chosen].jobId := Assign(jobs[apps[chosen].jobId], apps[chosen].seekerId)], Cascade(apps, chosen), next)
    ensures OneApplicationPerSeeker(Cascade(apps, chosen))
  {
  }

  lemma CascadeKeepsCounts(jobs: map<Id, Job>, apps: map<Id, Application>, chosen: Id)
    requires ApplicantsCounted(jobs, apps) && chosen in apps && apps[chosen].jobId in jobs
    ensures ApplicantsCounted(jobs[apps[chosen].jobId := Assign(jobs[apps[chosen].jobId], apps[chosen].seekerId)], Cascade(apps, chosen))
  {
    CascadeSelectsExactlyOne(apps, chosen);
  }

  lemma CascadeKeepsOneSelected(apps: map<Id, Application>, chosen: Id)
    requires AtMostOneSelected(apps) && chosen in apps
    ensures AtMostOneSelected(Cascade(apps, chosen))
  {
    var apps' := Cascade(apps, chosen);
    var job := apps[chosen].jobId;
    forall a, b | a in apps' && b in apps' && apps'[a].jobId == apps'[b].jobId &&
      apps'[a].status == Selected && apps'[b].status == Selected
      ensures a == b
    {
      if apps[a].jobId == job {
        assert a == chosen && b == chosen;
      } else {
        assert apps'[a] == apps[a] && apps'[b] == apps[b];
      }
    }
  }

  lemma CascadeKeepsLifecycle(jobs: map<Id, Job>, apps: map<Id, Application>, chosen: Id)
    requires Lifecycle(jobs, apps) && chosen in apps
    ensures Lifecycle(jobs[apps[chosen].jobId := Assign(jobs[apps[chosen].jobId], apps[chosen].seekerId)], Cascade(apps, chosen))
  {
  }

  lemma CascadeKeepsAssignee(jobs: map<Id, Job>, apps: map<Id, Application>, chosen: Id)
    requires Lifecycle(jobs, apps) && AssignedToSelected(jobs, apps) && chosen in apps
    ensures AssignedToSelected(jobs[apps[chosen].jobId := Assign(jobs[apps[chosen].jobId], apps[chosen].seekerId)], Cascade(apps, chosen))
  {
    var c := apps[chosen];
    var apps' := Cascade(apps, chosen);
    var jobs' := jobs[c.jobId := Assign(jobs[c.jobId], c.seekerId)];
    CascadeKeepsDecidedSelected(jobs, apps, chosen, jobs', apps');
    CascadeKeepsSelectedAssigned(jobs, apps, chosen, jobs', apps');
  }

  lemma CascadeKeepsDecidedSelected(jobs: map<Id, Job>, apps: map<Id, Application>, chosen: Id,
                                    jobs': map<Id, Job>, apps': map<Id, Application>)
    requires AssignedToSelected(jobs, apps) && chosen in apps && apps[chosen].jobId in jobs
    requires jobs' == jobs[apps[chosen].jobId := Assign(jobs[apps[chosen].jobId], apps[chosen].seekerId)]
    requires apps' == Cascade(apps, chosen)
    ensures forall j :: j in jobs' ==> (jobs'[j].assignedTo.Some? <==> jobs'[j].status != Open)
    ensures forall j :: j in jobs' && jobs'[j].status != Open ==>
      exists a :: a in apps' && apps'[a].jobId == j && apps'[a].status == Selected
  {
    forall j | j in jobs' && jobs'[j].status != Open
      ensures exists a :: a in apps' && apps'[a].jobId == j && apps'[a].status == Selected
    {
      if j == apps[chosen].jobId {
        assert apps'[chosen].jobId == j && apps'[chosen].status == Selected;
      } else {
        var a :| a in apps && apps[a].jobId == j && apps[a].status == Selected;
        assert apps'[a] == apps[a];
      }
    }
  }

  lemma CascadeKeepsSelectedAssigned(jobs: map<Id, Job>, apps: map<Id, Application>, chosen: Id,
                                     jobs': map<Id, Job>, apps': map<Id, Application>)
    requires Lifecycle(jobs, apps) && AssignedToSelected(jobs, apps) && chosen in apps
    requires jobs' == jobs[apps[chosen].jobId := Assign(jobs[apps[chosen].jobId], apps[chosen].seekerId)]
    requires apps' == Cascade(apps, chosen)
    ensures forall a :: a in apps' && apps'[a].status == Selected && apps'[a].jobId in jobs' ==>
      jobs'[apps'[a].jobId].assignedTo == Some(apps'[a].seekerId)
  {
  }

  /** `complete_job` keeps the store consistent when the job is assigned and the feedback
      goes to its selected application. */
  lemma CompletePreserves(users: map<Id, User>, jobs: map<Id, Job>, apps: map<Id, Application>, next: Id,
                          job: Id, chosen: Id, fb: Feedback)
    requires Consistent(users, jobs, apps, next)
    requires job in jobs && jobs[job].status == Assigned
    requires chosen in apps && apps[chosen].jobId == job && apps[chosen].status == Selected
    ensures Consistent(users, jobs[job := jobs[job].(status := Completed)],
                       apps[chosen := apps[chosen].(feedback := Some(fb))], next)
  {
    CompleteKeepsIdentity(users, jobs, apps, next, job, chosen, fb);
    CompleteKeepsCounts(jobs, apps, job, chosen, fb);
    CompleteKeepsLifecycle(jobs, apps, job, chosen, fb);
    CompleteKeepsAssignee(jobs, apps, job, chosen, fb);
  }

  lemma CompleteKeepsIdentity(users: map<Id, User>, jobs: map<Id, Job>, apps: map<Id, Application>, next: Id,
                              job: Id, chosen: Id, fb: Feedback)
    requires Identified(users, jobs, apps, next) && OneApplicationPerSeeker(apps) && AtMostOneSelected(apps)
    requires job in jobs && chosen in apps
    ensures Identified(users, jobs[job := jobs[job].(status := Completed)], apps[chosen := apps[chosen].(feedback := Some(fb))], next)
    ensures OneApplicationPerSeeker(apps[chosen := apps[chosen].(feedback := Some(fb))])
    ensures AtMostOneSelected(apps[chosen := apps[chosen].(feedback := Some(fb))])
  {
  }

  lemma CompleteKeepsCounts(jobs: map<Id, Job>, apps: map<Id, Application>, job: Id, chosen: Id, fb: Feedback)
    requires ApplicantsCounted(jobs, apps) && job in jobs && chosen in apps
    ensures ApplicantsCounted(jobs[job := jobs[job].(status := Completed)], apps[chosen := apps[chosen].(feedback := Some(fb))])
  {
    SameJobsSameApplications(apps, apps[chosen := apps[chosen].(feedback := Some(fb))]);
  }

  lemma CompleteKeepsLifecycle(jobs: map<Id, Job>, apps: map<Id, Application>, job: Id, chosen: Id, fb: Feedback)
    requires Lifecycle(jobs, apps) && job in jobs && jobs[job].status == Assigned && chosen in apps
    ensures Lifecycle(jobs[job := jobs[job].(status := Completed)], apps[chosen := apps[chosen].(feedback := Some(fb))])
  {
  }

  lemma CompleteKeepsAssignee(jobs: map<Id, Job>, apps: map<Id, Application>, job: Id, chosen: Id, fb: Feedback)
    requires AssignedToSelected(jobs, apps)
    requires job in jobs && jobs[job].status == Assigned && chosen in apps
    ensures AssignedToSelected(jobs[job := jobs[job].(status := Completed)], apps[chosen := apps[chosen].(feedback := Some(fb))])
  {
    var apps' := apps[chosen := apps[chosen].(feedback := Some(fb))];
    var jobs' := jobs[job := jobs[job].(status := Completed)];
    forall j | j in jobs' && jobs'[j].status != Open
      ensures exists a :: a in apps' && apps'[a].jobId == j && apps'[a].status == Selected
    {
      var a :| a in apps && apps[a].jobId == j && apps[a].status == Selected;
      assert apps'[a].jobId == j && apps'[a].status == Selected;
    }
  }

  /** Applying is refused the second time: after a successful application the same seeker
      counts as having applied to the job. */
  lemma AppliedAfterApply(apps: map<Id, Application>, next: Id, job: Id, seeker: User)
    ensures Applied(apps[next := PendingApplication(next, job, seeker)], job, seeker.id)
  {
    assert apps[next := PendingApplication(next, job, seeker)][next].jobId == job;
  }

  /** `select_applicant` does not look at the job's status: selecting another applicant of a
      completed job puts the job back to assigned and rejects the application that already
      carries the completion feedback. */
  lemma ReselectAfterCompletion(users: map<Id, User>, jobs: map<Id, Job>, apps: map<Id, Application>, next: Id,
                                chosen: Id, rated: Id)
    requires Consistent(users, jobs, apps, next)
    requires chosen in apps && rated in apps && chosen != rated
    requires apps[rated].jobId == apps[chosen].jobId && apps[rated].feedback.Some?
    requires jobs[apps[chosen].jobId].status == Completed
    ensures Assign(jobs[apps[chosen].jobId], apps[chosen].seekerId).status == Assigned
    ensures Cascade(apps, chosen)[rated].status == Rejected
    ensures Cascade(apps, chosen)[rated].feedback == apps[rated].feedback
  {
  }
}
