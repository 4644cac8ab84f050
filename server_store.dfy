/** The FastAPI server's state and handlers: the users, jobs, applications and
    notifications collections as maps from id to record, one method per handler,
    each keeping the store consistent. */
module ServerStore {
  import opened Common
  import opened Records
  import opened ServerRules

  /** An id greater than every id in `ids` (MongoDB draws fresh ObjectIds instead). */
  method FreshId(ids: set<Id>) returns (n: Id)
    ensures forall k :: k in ids ==> k < n
  {
    n := 0;
    var rest := ids;
    while rest != {}
      invariant rest <= ids
      invariant forall k :: k in ids && k !in rest ==> k < n
      decreases rest
    {
      var k :| k in rest;
      if k >= n {
        n := k + 1;
      }
      rest := rest - {k};
    }
  }

  class Store {
    var users: map<Id, User>
    var jobs: map<Id, Job>
    var applications: map<Id, Application>
    var notifications: map<Id, Notification>
    var nextId: Id

    ghost predicate Valid()
      reads this
    {
      Consistent(users, jobs, applications, nextId) && NoticesIdentified(notifications, nextId)
    }

    /** A store holding the registered users and nothing else. */
    constructor (registered: map<Id, User>)
      requires forall u :: u in registered ==> registered[u].id == u
      ensures Valid()
      ensures users == registered && jobs == map[] && applications == map[] && notifications == map[]
    {
      var firstId := FreshId(registered.Keys);
      users := registered;
      jobs := map[];
      applications := map[];
      notifications := map[];
      nextId := firstId;
    }

    /** `POST /jobs`: a provider posts a job, and every seeker holding one of its required
        skills is sent one match notice. */
    method CreateJob(caller: User, spec: JobSpec) returns (r: Outcome<Job>)
      requires Valid()
      modifies this
      ensures Valid()
      ensures users == old(users) && applications == old(applications)
      ensures caller.userType != Provider ==>
        r == Forbidden && jobs == old(jobs) && notifications == old(notifications) && nextId == old(nextId)
      ensures caller.userType == Provider ==>
        r == Ok(PostedJob(old(nextId), spec, caller)) &&
        jobs == old(jobs)[old(nextId) := r.value] &&
        MatchNoticesSent(old(notifications), notifications, old(nextId) + 1, nextId,
                         MatchingSeekers(users, spec.requiredSkills), spec.title)
    {
      if caller.userType != Provider {
        return Forbidden;
      }
      var job := PostedJob(nextId, spec, caller);
      ghost var jobs0, next0 := jobs, nextId;
      jobs, nextId := jobs[nextId := job], nextId + 1;
      PostStep(users, jobs0, applications, notifications, next0, job, jobs, nextId);
      ghost var first := nextId;
      SendMatchNotices(MatchingSeekers(users, spec.requiredSkills), spec.title);
      RaiseBound(users, jobs, applications, first, nextId);
      r := Ok(job);
    }

    /** The fan-out loop of `POST /jobs`: one match notice per recipient, under fresh ids. */
    method SendMatchNotices(recipients: set<Id>, title: string)
      requires NoticesIdentified(notifications, nextId)
      modifies this
      ensures users == old(users) && jobs == old(jobs) && applications == old(applications)
      ensures NoticesIdentified(notifications, nextId)
      ensures MatchNoticesSent(old(notifications), notifications, old(nextId), nextId, recipients, title)
    {
      ghost var before := notifications;
      ghost var order: seq<Id> := [];
      var pending := recipients;
      while pending != {}
        invariant pending <= recipients
        invariant users == old(users) && jobs == old(jobs) && applications == old(applications)
        invariant nextId == old(nextId) + |order|
        invariant NoticesIdentified(before, old(nextId)) && NoticesIdentified(notifications, nextId)
        invariant NoDuplicates(order) && forall u :: u in order <==> u in recipients && u !in pending
        invariant NoticesInOrder(before, notifications, old(nextId), order, title)
        decreases pending
      {
        var u :| u in pending;
        var notice := MatchNotice(nextId, u, title);
        ghost var notes0 := notifications;
        notifications := notifications[nextId := notice];
        AddNotice(notes0, nextId, notice);
        FanOutStep(before, notes0, old(nextId), order, u, title, notifications);
        OrderStep(order, recipients, pending, u);
        order := order + [u];
        nextId := nextId + 1;
        pending := pending - {u};
      }
    }

    /** `GET /jobs`: the jobs matching every supplied filter. */
    method GetJobs(status: Option<string>, location: Option<string>, category: Option<string>) returns (r: map<Id, Job>)
      ensures forall j :: j in r <==> j in jobs && MatchesQuery(jobs[j], status, location, category)
      ensures forall j :: j in r ==> r[j] == jobs[j]
    {
      r := map j | j in jobs && MatchesQuery(jobs[j], status, location, category) :: jobs[j];
    }

    /** `GET /jobs/provider`: a provider's own jobs. */
    method GetProviderJobs(caller: User) returns (r: Outcome<map<Id, Job>>)
      ensures caller.userType != Provider <==> r == Forbidden
      ensures r.Ok? ==> forall j :: (j in r.value <==> j in jobs && jobs[j].providerId == caller.id) &&
                                    (j in r.value ==> r.value[j] == jobs[j])
    {
      if caller.userType != Provider {
        return Forbidden;
      }
      r := Ok(map j | j in jobs && jobs[j].providerId == caller.id :: jobs[j]);
    }

    /** `GET /jobs/matching`: the open jobs sharing a skill with the calling seeker. */
    method GetMatchingJobs(caller: User) returns (r: Outcome<map<Id, Job>>)
      ensures caller.userType != Seeker <==> r == Forbidden
      ensures r.Ok? ==> forall j :: (j in r.value <==> j in jobs && MatchesSkills(jobs[j], caller.skills)) &&
                                    (j in r.value ==> r.value[j] == jobs[j])
    {
      if caller.userType != Seeker {
        return Forbidden;
      }
      r := Ok(map j | j in jobs && MatchesSkills(jobs[j], caller.skills) :: jobs[j]);
    }

    /** `GET /jobs/{job_id}` */
    method GetJob(job: Id) returns (r: Outcome<Job>)
      ensures job !in jobs <==> r == NotFound
      ensures job in jobs ==> r == Ok(jobs[job])
    {
      if job !in jobs {
        return NotFound;
      }
      r := Ok(jobs[job]);
    }

    /** `POST /applications`: checks, in this order, the caller's role, the job's existence,
        that it is open and that the seeker has not applied; then files a pending application,
        counts it on the job and notifies the job's provider. */
    method CreateApplication(caller: User, job: Id) returns (r: Outcome<Application>)
      requires Valid()
      modifies this
      ensures Valid()
      ensures users == old(users)
      ensures caller.userType != Seeker ==> r == Forbidden
      ensures caller.userType == Seeker && job !in old(jobs) ==> r == NotFound
      ensures caller.userType == Seeker && job in old(jobs) && old(jobs)[job].status != Open ==> r == BadRequest
      ensures (caller.userType == Seeker && job in old(jobs) && old(jobs)[job].status == Open &&
               Applied(old(applications), job, caller.id)) ==> r == BadRequest
      ensures (caller.userType == Seeker && job in old(jobs) && old(jobs)[job].status == Open &&
               !Applied(old(applications), job, caller.id)) ==> r.Ok?
      ensures !r.Ok? ==> jobs == old(jobs) && applications == old(applications) &&
                         notifications == old(notifications) && nextId == old(nextId)
      ensures r.Ok? ==>
        caller.userType == Seeker && job in old(jobs) && old(jobs)[job].status == Open &&
        !Applied(old(applications), job, caller.id) &&
        r.value == PendingApplication(old(nextId), job, caller) &&
        applications == old(applications)[old(nextId) := r.value] &&
        jobs == old(jobs)[job := Bumped(old(jobs)[job])] &&
        notifications == old(notifications)[old(nextId) + 1 := ApplicationNotice(old(nextId) + 1, old(jobs)[job], caller)] &&
        nextId == old(nextId) + 2
    {
      if caller.userType != Seeker {
        return Forbidden;
      }
      if job !in jobs {
        return NotFound;
      }
      if jobs[job].status != Open {
        return BadRequest;
      }
      if exists a :: a in applications && applications[a].jobId == job && applications[a].seekerId == caller.id {
        return BadRequest;
      }
      r := FileApplication(caller, job);
    }

    /** The updates of an application whose checks passed: a pending application under the
        next id, the job's applicant count raised and a notice to its provider. */
    method FileApplication(caller: User, job: Id) returns (r: Outcome<Application>)
      requires Valid()
      requires job in jobs && jobs[job].status == Open && !Applied(applications, job, caller.id)
      modifies this
      ensures Valid()
      ensures users == old(users)
      ensures r == Ok(PendingApplication(old(nextId), job, caller))
      ensures applications == old(applications)[old(nextId) := r.value]
      ensures jobs == old(jobs)[job := Bumped(old(jobs)[job])]
      ensures notifications == old(notifications)[old(nextId) + 1 := ApplicationNotice(old(nextId) + 1, old(jobs)[job], caller)]
      ensures nextId == old(nextId) + 2
    {
      var application := PendingApplication(nextId, job, caller);
      var posted := jobs[job];
      ghost var jobs0, applications0, notifications0, next0 := jobs, applications, notifications, nextId;
      jobs, applications, notifications, nextId :=
        jobs[job := Bumped(posted)], applications[nextId := application],
        notifications[nextId + 1 := ApplicationNotice(nextId + 1, posted, caller)], nextId + 2;
      ApplyStep(users, jobs0, applications0, notifications0, next0, job, caller,
                jobs, applications, notifications, nextId);
      r := Ok(application);
    }

    /** `GET /applications/job/{job_id}`: the applications for a job, for its provider only. */
    method GetJobApplications(caller: User, job: Id) returns (r: Outcome<map<Id, Application>>)
      ensures job !in jobs <==> r == NotFound
      ensures r == Forbidden <==> job in jobs && jobs[job].providerId != caller.id
      ensures r.Ok? ==> forall a :: (a in r.value <==> a in applications && applications[a].jobId == job) &&
                                    (a in r.value ==> r.value[a] == applications[a])
    {
      if job !in jobs {
        return NotFound;
      }
      if jobs[job].providerId != caller.id {
        return Forbidden;
      }
      r := Ok(map a | a in applications && applications[a].jobId == job :: applications[a]);
    }

    /** `GET /applications/seeker`: the calling seeker's applications. */
    method GetSeekerApplications(caller: User) returns (r: Outcome<map<Id, Application>>)
      ensures caller.userType != Seeker <==> r == Forbidden
      ensures r.Ok? ==> forall a :: (a in r.value <==> a in applications && applications[a].seekerId == caller.id) &&
                                    (a in r.value ==> r.value[a] == applications[a])
    {
      if caller.userType != Seeker {
        return Forbidden;
      }
      r := Ok(map a | a in applications && applications[a].seekerId == caller.id :: applications[a]);
    }

    /** `PUT /applications/{application_id}/select`: the job's provider selects an applicant;
        the others are rejected, the job is assigned and the seeker notified. The job's
        status is not checked. */
    method SelectApplicant(caller: User, chosen: Id) returns (r: Outcome<Application>)
      requires Valid()
      modifies this
      ensures Valid()
      ensures users == old(users)
      ensures caller.userType != Provider ==> r == Forbidden
      ensures caller.userType == Provider && chosen !in old(applications) ==> r == NotFound
      ensures (caller.userType == Provider && chosen in old(applications) &&
               old(jobs)[old(applications)[chosen].jobId].providerId != caller.id) ==> r == Forbidden
      ensures (caller.userType == Provider && chosen in old(applications) &&
               old(jobs)[old(applications)[chosen].jobId].providerId == caller.id) ==> r.Ok?
      ensures !r.Ok? ==> jobs == old(jobs) && applications == old(applications) &&
                         notifications == old(notifications) && nextId == old(nextId)
      ensures r.Ok? ==>
        caller.userType == Provider && chosen in old(applications) &&
        var job := old(applications)[chosen].jobId;
        var seeker := old(applications)[chosen].seekerId;
        old(jobs)[job].providerId == caller.id &&
        applications == Cascade(old(applications), chosen) &&
        r.value == applications[chosen] &&
        jobs == old(jobs)[job := Assign(old(jobs)[job], seeker)] &&
        notifications == old(notifications)[old(nextId) := SelectionNotice(old(nextId), seeker, old(jobs)[job])] &&
        nextId == old(nextId) + 1
    {
      if caller.userType != Provider {
        return Forbidden;
      }
      if chosen !in applications {
        return NotFound;
      }
      var application := applications[chosen];
      var job := jobs[application.jobId];
      if job.providerId != caller.id {
        return Forbidden;
      }
      r := RecordSelection(chosen);
    }

    /** The updates of a selection whose checks passed: the cascade over the job's
        applications, the job assigned to the chosen seeker and a notice to that seeker. */
    method RecordSelection(chosen: Id) returns (r: Outcome<Application>)
      requires Valid()
      requires chosen in applications
      modifies this
      ensures Valid()
      ensures users == old(users)
      ensures applications == Cascade(old(applications), chosen)
      ensures r == Ok(applications[chosen])
      ensures jobs == old(jobs)[old(applications)[chosen].jobId :=
                     Assign(old(jobs)[old(applications)[chosen].jobId], old(applications)[chosen].seekerId)]
      ensures notifications == old(notifications)[old(nextId) := SelectionNotice(old(nextId),
                old(applications)[chosen].seekerId, old(jobs)[old(applications)[chosen].jobId])]
      ensures nextId == old(nextId) + 1
    {
      var application := applications[chosen];
      var job := jobs[application.jobId];
      ghost var jobs0, applications0, notifications0, next0 := jobs, applications, notifications, nextId;
      jobs, applications, notifications, nextId :=
        jobs[application.jobId := Assign(job, application.seekerId)], Cascade(applications, chosen),
        notifications[nextId := SelectionNotice(nextId, application.seekerId, job)], nextId + 1;
      SelectStep(users, jobs0, applications0, notifications0, next0, chosen,
                 jobs, applications, notifications, nextId);
      r := Ok(applications[chosen]);
    }

    /** `PUT /jobs/{job_id}/complete`: the job's provider or its assigned seeker completes an
        assigned job; the feedback is attached to the selected application and the other
        party is notified. A caller who is not the provider of a job without an assignee
        meets the unguarded `job["assignedTo"]` lookup. */
    method CompleteJob(caller: User, job: Id, fb: Feedback) returns (r: Outcome<Job>)
      requires Valid()
      modifies this
      ensures Valid()
      ensures users == old(users)
      ensures job !in old(jobs) ==> r == NotFound
      ensures job in old(jobs) && old(jobs)[job].providerId != caller.id && old(jobs)[job].assignedTo == None ==>
        r == InternalError
      ensures (job in old(jobs) && old(jobs)[job].providerId != caller.id && old(jobs)[job].assignedTo.Some? &&
               old(jobs)[job].assignedTo.value != caller.id) ==> r == Forbidden
      ensures (job in old(jobs) && (old(jobs)[job].providerId == caller.id || old(jobs)[job].assignedTo == Some(caller.id)) &&
               old(jobs)[job].status != Assigned) ==> r == BadRequest
      ensures !r.Ok? ==> jobs == old(jobs) && applications == old(applications) &&
                         notifications == old(notifications) && nextId == old(nextId)
      ensures r.Ok? <==> job in old(jobs) && CompletionAccepted(old(jobs)[job], caller.id)
      ensures r.Ok? ==>
        job in old(jobs) && old(jobs)[job].status == Assigned && old(jobs)[job].assignedTo.Some? &&
        (old(jobs)[job].providerId == caller.id || old(jobs)[job].assignedTo == Some(caller.id)) &&
        r.value == old(jobs)[job].(status := Completed) &&
        jobs == old(jobs)[job := r.value] &&
        (exists a :: a in old(applications) && SelectedFor(old(applications), job) == {a} &&
                     applications == old(applications)[a := old(applications)[a].(feedback := Some(fb))]) &&
        notifications == old(notifications)[old(nextId) := FeedbackNotice(old(nextId),
          if caller.userType == Provider then old(jobs)[job].assignedTo.value else old(jobs)[job].providerId,
          fb, old(jobs)[job])] &&
        nextId == old(nextId) + 1
    {
      if job !in jobs {
        return NotFound;
      }
      var stored := jobs[job];
      if stored.providerId != caller.id {
        if stored.assignedTo == None {
          return InternalError;
        }
        if stored.assignedTo.value != caller.id {
          return Forbidden;
        }
      }
      if stored.status != Assigned {
        return BadRequest;
      }
      DecidedJobHasOneSelected(users, jobs, applications, nextId, job);
      var a :| a in applications && applications[a].jobId == job && applications[a].status == Selected;
      assert SelectedFor(applications, job) == {a} by {
        assert a in SelectedFor(applications, job);
      }
      assert stored.assignedTo.Some?;
      var recipient := if caller.userType == Provider then stored.assignedTo.value else stored.providerId;
      r := RecordCompletion(job, a, fb, recipient);
    }

    /** The updates of a completion whose checks passed: the job is completed, the feedback
        goes to its selected application and the other party is notified. */
    method RecordCompletion(job: Id, a: Id, fb: Feedback, recipient: Id) returns (r: Outcome<Job>)
      requires Valid()
      requires job in jobs && jobs[job].status == Assigned
      requires a in applications && applications[a].jobId == job && applications[a].status == Selected
      modifies this
      ensures Valid()
      ensures users == old(users)
      ensures r == Ok(old(jobs)[job].(status := Completed))
      ensures jobs == old(jobs)[job := r.value]
      ensures applications == old(applications)[a := old(applications)[a].(feedback := Some(fb))]
      ensures notifications == old(notifications)[old(nextId) := FeedbackNotice(old(nextId), recipient, fb, old(jobs)[job])]
      ensures nextId == old(nextId) + 1
    {
      var stored := jobs[job];
      ghost var jobs0, applications0, notifications0, next0 := jobs, applications, notifications, nextId;
      jobs, applications, notifications, nextId :=
        jobs[job := stored.(status := Completed)], applications[a := applications[a].(feedback := Some(fb))],
        notifications[nextId := FeedbackNotice(nextId, recipient, fb, stored)], nextId + 1;
      CompleteStep(users, jobs0, applications0, notifications0, next0, job, a, fb, recipient,
                   jobs, applications, notifications, nextId);
      r := Ok(jobs[job]);
    }

    /** `GET /notifications`: the caller's notifications. */
    method GetNotifications(caller: User) returns (r: map<Id, Notification>)
      ensures forall n :: n in r <==> n in notifications && notifications[n].userId == caller.id
      ensures forall n :: n in r ==> r[n] == notifications[n]
    {
      r := map n | n in notifications && notifications[n].userId == caller.id :: notifications[n];
    }

    /** `PUT /notifications/{notification_id}/read`: marks one of the caller's notifications read. */
    method MarkNotificationRead(caller: User, note: Id) returns (r: Outcome<string>)
      requires Valid()
      modifies this
      ensures Valid()
      ensures users == old(users) && jobs == old(jobs) && applications == old(applications) && nextId == old(nextId)
      ensures note !in old(notifications) <==> r == NotFound
      ensures r == Forbidden <==> note in old(notifications) && old(notifications)[note].userId != caller.id
      ensures !r.Ok? ==> notifications == old(notifications)
      ensures r.Ok? ==> r.value == "Notification marked as read" &&
                        notifications == old(notifications)[note := old(notifications)[note].(read := true)]
    {
      if note !in notifications {
        return NotFound;
      }
      if notifications[note].userId != caller.id {
        return Forbidden;
      }
      notifications := notifications[note := notifications[note].(read := true)];
      r := Ok("Notification marked as read");
    }

    /** `PUT /notifications/read-all`: every notification of the caller becomes read; the
        other users' notifications are untouched. */
    method MarkAllNotificationsRead(caller: User) returns (message: string)
      requires Valid()
      modifies this
      ensures Valid()
      ensures users == old(users) && jobs == old(jobs) && applications == old(applications) && nextId == old(nextId)
      ensures notifications.Keys == old(notifications).Keys
      ensures forall n :: n in notifications && notifications[n].userId == caller.id ==>
        notifications[n] == old(notifications)[n].(read := true)
      ensures forall n :: n in notifications && notifications[n].userId != caller.id ==>
        notifications[n] == old(notifications)[n]
      ensures message == "All notifications marked as read"
    {
      notifications := map n | n in notifications ::
        if notifications[n].userId == caller.id then notifications[n].(read := true) else notifications[n];
      message := "All notifications marked as read";
    }
  }


  // ---------------------------------------------------------------- whole-store steps

  /** The store after a job is posted is consistent. */
  lemma PostStep(users: map<Id, User>, jobs: map<Id, Job>, apps: map<Id, Application>,
                 notes: map<Id, Notification>, next: Id, job: Job, jobs': map<Id, Job>, next': Id)
    requires Consistent(users, jobs, apps, next) && NoticesIdentified(notes, next)
    requires job.id == next && job.status == Open && job.applicants == 0 && job.assignedTo == None
    requires jobs' == jobs[next := job] && next' == next + 1
    ensures Consistent(users, jobs', apps, next') && NoticesIdentified(notes, next')
  {
    PostPreserves(users, jobs, apps, next, job);
  }

  /** The store after a successful `create_application` is consistent. */
  lemma ApplyStep(users: map<Id, User>, jobs: map<Id, Job>, apps: map<Id, Application>,
                  notes: map<Id, Notification>, next: Id, job: Id, seeker: User,
                  jobs': map<Id, Job>, apps': map<Id, Application>, notes': map<Id, Notification>, next': Id)
    requires Consistent(users, jobs, apps, next) && NoticesIdentified(notes, next)
    requires job in jobs && jobs[job].status == Open && !Applied(apps, job, seeker.id)
    requires jobs' == jobs[job := Bumped(jobs[job])] && apps' == apps[next := PendingApplication(next, job, seeker)]
    requires notes' == notes[next + 1 := ApplicationNotice(next + 1, jobs[job], seeker)] && next' == next + 2
    ensures Consistent(users, jobs', apps', next') && NoticesIdentified(notes', next')
  {
    ApplyPreserves(users, jobs, apps, next, job, seeker);
    RaiseBound(users, jobs', apps', next + 1, next');
  }

  /** The store after a successful `select_applicant` is consistent. */
  lemma SelectStep(users: map<Id, User>, jobs: map<Id, Job>, apps: map<Id, Application>,
                   notes: map<Id, Notification>, next: Id, chosen: Id,
                   jobs': map<Id, Job>, apps': map<Id, Application>, notes': map<Id, Notification>, next': Id)
    requires Consistent(users, jobs, apps, next) && NoticesIdentified(notes, next)
    requires chosen in apps && apps[chosen].jobId in jobs
    requires jobs' == jobs[apps[chosen].jobId := Assign(jobs[apps[chosen].jobId], apps[chosen].seekerId)]
    requires apps' == Cascade(apps, chosen)
    requires notes' == notes[next := SelectionNotice(next, apps[chosen].seekerId, jobs[apps[chosen].jobId])]
    requires next' == next + 1
    ensures Consistent(users, jobs', apps', next') && NoticesIdentified(notes', next')
  {
    SelectPreserves(users, jobs, apps, next, chosen);
    RaiseBound(users, jobs', apps', next, next');
  }

  /** The store after a successful `complete_job` is consistent. */
  lemma CompleteStep(users: map<Id, User>, jobs: map<Id, Job>, apps: map<Id, Application>,
                     notes: map<Id, Notification>, next: Id, job: Id, a: Id, fb: Feedback, recipient: Id,
                     jobs': map<Id, Job>, apps': map<Id, Application>, notes': map<Id, Notification>, next': Id)
    requires Consistent(users, jobs, apps, next) && NoticesIdentified(notes, next)
    requires job in jobs && jobs[job].status == Assigned
    requires a in apps && apps[a].jobId == job && apps[a].status == Selected
    requires jobs' == jobs[job := jobs[job].(status := Completed)]
    requires apps' == apps[a := apps[a].(feedback := Some(fb))]
    requires notes' == notes[next := FeedbackNotice(next, recipient, fb, jobs[job])] && next' == next + 1
    ensures Consistent(users, jobs', apps', next') && NoticesIdentified(notes', next')
  {
    CompletePreserves(users, jobs, apps, next, job, a, fb);
    RaiseBound(users, jobs', apps', next, next');
  }
}
