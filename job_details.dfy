/** The job details page (`JobDetails`): which of the cached applications belong to the
    viewer, who owns or holds the job, what the viewer may do with it, and the alerts
    shown after applying or completing. */
module JobDetails {
  import opened Common
  import opened Records
  import opened Auth
  import ServerRules
  import opened JobContext

  const ApplySucceeded := "Application submitted successfully!"
  const AlreadyApplied := "You have already applied for this job."
  const CompleteSucceeded := "Job marked as completed and feedback submitted!"

  /** The job the page shows: the first cached job with the id in the address, if any. */
  function JobOnPage(jobs: seq<Job>, id: Id): (r: Option<Job>)
    ensures r.None? <==> forall i :: 0 <= i < |jobs| ==> jobs[i].id != id
    ensures r.Some? ==> r.value.id == id
    ensures r.Some? ==>
      exists i :: 0 <= i < |jobs| && jobs[i] == r.value && forall k :: 0 <= k < i ==> jobs[k].id != id
  {
    Find(jobs, (j: Job) => j.id == id)
  }

  /** The viewer's own application to the job: none when nobody is signed in. */
  function MyApplication(apps: seq<Application>, job: Id, user: Option<User>): (r: Option<Application>)
    ensures r.Some? ==> r.value.jobId == job && user.Some? && r.value.seekerId == user.value.id
    ensures r.Some? ==>
      exists i :: 0 <= i < |apps| && apps[i] == r.value &&
        forall k :: 0 <= k < i ==> !(apps[k].jobId == job && apps[k].seekerId == user.value.id)
    ensures r.None? <==> user.None? || forall i :: 0 <= i < |apps| ==> !(apps[i].jobId == job && apps[i].seekerId == user.value.id)
  {
    if user.None? then None
    else Find(apps, (a: Application) => a.jobId == job && a.seekerId == user.value.id)
  }

  /** The selected application of the job among the cached ones, if any. */
  function SelectedApplication(apps: seq<Application>, job: Id): (r: Option<Application>)
    ensures r.Some? ==> r.value.jobId == job && r.value.status == Selected
    ensures r.Some? ==>
      exists i :: 0 <= i < |apps| && apps[i] == r.value &&
        forall k :: 0 <= k < i ==> !(apps[k].jobId == job && apps[k].status == Selected)
    ensures r.None? <==> forall i :: 0 <= i < |apps| ==> !(apps[i].jobId == job && apps[i].status == Selected)
  {
    Find(apps, (a: Application) => a.jobId == job && a.status == Selected)
  }

  predicate IsJobOwner(user: Option<User>, job: Job)
  {
    IsProvider(user) && job.providerId == user.value.id
  }

  predicate IsAssignedSeeker(user: Option<User>, job: Job)
  {
    IsSeeker(user) && job.assignedTo == Some(user.value.id)
  }

  /** The "Mark as Completed" button: the owner or the assigned seeker of an assigned job. */
  predicate CanComplete(user: Option<User>, job: Job)
  {
    (IsJobOwner(user, job) || IsAssignedSeeker(user, job)) && job.status == Assigned
  }

  /** Contact details are shown to the owner at any time and to the assigned seeker only
      while the job is assigned; nobody else sees them. */
  function CanViewContact(user: Option<User>, job: Job): (r: bool)
    ensures r <==> (user.Some? &&
      ((user.value.userType == Provider && job.providerId == user.value.id) ||
       (user.value.userType == Seeker && job.assignedTo == Some(user.value.id) && job.status == Assigned)))
  {
    IsJobOwner(user, job) || (IsAssignedSeeker(user, job) && job.status == Assigned)
  }

  /** The "Apply Now" button: a seeker, an open job, and no application of theirs cached. */
  predicate ApplyButtonShown(user: Option<User>, job: Job, apps: seq<Application>)
  {
    IsSeeker(user) && job.status == Open && MyApplication(apps, job.id, user).None?
  }

  /** The label of the seeker's own application. */
  function SeekerLabel(app: Application): (r: string)
    ensures r == "You were selected!" <==> app.status == Selected
    ensures r == "Not selected" <==> app.status == Rejected
    ensures r == "Application pending" <==> app.status != Selected && app.status != Rejected
  {
    if app.status == Selected then "You were selected!"
    else if app.status == Rejected then "Not selected"
    else "Application pending"
  }

  /** The page offers completion exactly to the callers the server accepts, for any user
      whose role matches their part in the job. */
  lemma CanCompleteAgreesWithServer(u: User, job: Job)
    requires job.providerId == u.id ==> u.userType == Provider
    requires job.assignedTo == Some(u.id) ==> u.userType == Seeker
    ensures CanComplete(Some(u), job) <==> ServerRules.CompletionAccepted(job, u.id)
  {
  }

  /** While the seeker's cached applications include all of theirs on the server, the
      "Apply Now" button is shown only for jobs the server has no application of theirs
      for, so the server will not answer "already applied". */
  lemma ApplyButtonAgreesWithServer(u: User, job: Job, local: seq<Application>, server: map<Id, Application>)
    requires forall k :: k in server && server[k].seekerId == u.id ==> server[k] in local
    requires ApplyButtonShown(Some(u), job, local)
    ensures !ServerRules.Applied(server, job.id, u.id)
  {
  }

  // ---------------------------------------------------------------- alerts after an action

  /** `handleApply` as written: `applyForJob` returns a promise, which is always truthy, so the
      success alert appears whatever the request did. */
  function ApplyAlertAsWritten(result: Completion<bool>): (r: Option<string>)
    ensures r == Some(ApplySucceeded)
  {
    Some(ApplySucceeded)
  }

  /** `handleApply` with the outcome awaited: success only when the application was filed,
      the "already applied" alert when the server refused it, and nothing when it failed. */
  function ApplyAlert(result: Completion<bool>): (r: Option<string>)
    ensures r == Some(ApplySucceeded) <==> result == Returns(true)
    ensures r == Some(AlreadyApplied) <==> result == Returns(false)
    ensures r.None? <==> result.Throws?
  {
    match result
    case Returns(filed) => if filed then Some(ApplySucceeded) else Some(AlreadyApplied)
    case Throws(_) => None
  }

  /** A seeker who has already applied is told the application was submitted. */
  lemma ApplyAlertMisreports()
    ensures ApplyAlertAsWritten(Returns(false)) == Some(ApplySucceeded)
    ensures ApplyAlert(Returns(false)) == Some(AlreadyApplied)
  {
  }

  /** What the feedback form looks like after submitting it: whether it is still open and
      the alert shown, if any. */
  datatype FormView = FormView(formOpen: bool, alert: Option<string>)

  /** `handleComplete` as written: the promise returned by `completeJob` is truthy, so the
      form always closes with the success alert. */
  function CompletionViewAsWritten(result: Completion<bool>): (r: FormView)
    ensures r == FormView(false, Some(CompleteSucceeded))
  {
    FormView(false, Some(CompleteSucceeded))
  }

  /** `handleComplete` with the outcome awaited: the form closes with the success alert
      exactly when the job was completed, and stays open otherwise. */
  function CompletionView(result: Completion<bool>): (r: FormView)
    ensures !r.formOpen <==> result == Returns(true)
    ensures r.alert == Some(CompleteSucceeded) <==> result == Returns(true)
    ensures r.alert.None? <==> result != Returns(true)
  {
    if result == Returns(true) then FormView(false, Some(CompleteSucceeded)) else FormView(true, None)
  }

  /** A completion the server rejects with status 400 (the job is no longer assigned) still
      closes the form with the success alert. */
  lemma CompletionViewMisreports()
    ensures CompletionViewAsWritten(Throws(Rethrown(Some(400)))) == FormView(false, Some(CompleteSucceeded))
    ensures CompletionView(Throws(Rethrown(Some(400)))) == FormView(true, None)
  {
  }
}
