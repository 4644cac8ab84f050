/** The card a provider sees for one application (`ApplicationCard`): its status badge,
    the star rows, the highlighted skills, and when the select button and the feedback
    are shown. */
module ApplicationCard {
  import opened Common
  import opened Records
  import ServerRules

  /** The number of filled stars in a row of five for a rating: its floor, kept within 0..5. */
  function FilledStars(rating: real): (r: nat)
    ensures r <= 5
    ensures 0 < r < 5 ==> r == rating.Floor
    ensures r == 0 <==> rating < 1.0
    ensures r == 5 <==> rating >= 5.0
  {
    if rating.Floor <= 0 then 0 else if rating.Floor >= 5 then 5 else rating.Floor
  }

  /** `renderStars`: five stars, star `i` filled when `i < Math.floor(rating)`; the filled
      ones come first. */
  function Stars(rating: real): (r: seq<bool>)
    ensures |r| == 5
    ensures forall i :: 0 <= i < 5 ==> (r[i] <==> i < FilledStars(rating))
  {
    seq(5, i requires 0 <= i < 5 => i < rating.Floor)
  }

  predicate IsSelected(app: Application) { app.status == Selected }

  /** `isRejected`: the job is assigned and this application is not the selected one. */
  predicate IsRejected(app: Application, job: Job) { job.status == Assigned && app.status != Selected }

  predicate IsCompleted(job: Job) { job.status == Completed }

  /** The status badge: "Selected" for the selected application, "Not Selected" for the others
      while the job is assigned, and "Pending" in every other case. */
  function Badge(app: Application, job: Job): (r: string)
    ensures r == "Selected" <==> app.status == Selected
    ensures r == "Not Selected" <==> app.status != Selected && job.status == Assigned
    ensures r == "Pending" <==> app.status != Selected && job.status != Assigned
  {
    if IsSelected(app) then "Selected" else if IsRejected(app, job) then "Not Selected" else "Pending"
  }

  /** The "Select Applicant" button: a provider looking at an open job. */
  predicate SelectButtonShown(viewer: User, job: Job)
  {
    viewer.userType == Provider && job.status == Open
  }

  /** The feedback block: the job is completed and the application carries feedback. */
  predicate FeedbackShown(app: Application, job: Job)
  {
    IsCompleted(job) && app.feedback.Some?
  }

  /** A skill of the applicant is highlighted when the job requires it. */
  predicate Highlighted(skill: string, job: Job)
  {
    skill in job.requiredSkills
  }

  /** The card highlights some skill of the applicant exactly when the server's skill match
      links the applicant's skills with the job's. */
  lemma HighlightAgreesWithMatching(app: Application, job: Job)
    ensures (exists i :: 0 <= i < |app.seekerProfile.skills| && Highlighted(app.seekerProfile.skills[i], job))
            <==> ServerRules.SharesSkill(job.requiredSkills, app.seekerProfile.skills)
  {
    var skills := app.seekerProfile.skills;
    if ServerRules.SharesSkill(job.requiredSkills, skills) {
      var s :| s in job.requiredSkills && s in skills;
      var i :| 0 <= i < |skills| && skills[i] == s;
      assert Highlighted(skills[i], job);
    }
  }

  /** On an assigned job of a consistent store the badge reads "Selected" exactly for the
      application of the assigned seeker, and "Not Selected" for every other one. */
  lemma BadgeNamesAssignee(jobs: map<Id, Job>, apps: map<Id, Application>, k: Id)
    requires ServerRules.OneApplicationPerSeeker(apps)
    requires ServerRules.Lifecycle(jobs, apps) && ServerRules.AssignedToSelected(jobs, apps)
    requires k in apps && apps[k].jobId in jobs && jobs[apps[k].jobId].status == Assigned
    ensures Badge(apps[k], jobs[apps[k].jobId]) == "Selected" <==> jobs[apps[k].jobId].assignedTo == Some(apps[k].seekerId)
    ensures Badge(apps[k], jobs[apps[k].jobId]) != "Selected" ==> Badge(apps[k], jobs[apps[k].jobId]) == "Not Selected"
  {
    var j := apps[k].jobId;
    if jobs[j].assignedTo == Some(apps[k].seekerId) {
      var s :| s in apps && apps[s].jobId == j && apps[s].status == Selected;
      assert jobs[j].assignedTo == Some(apps[s].seekerId);
      assert s == k;
    }
  }

  /** Once a job is completed, its rejected applications are badged "Pending" again. */
  lemma CompletedJobShowsRejectedAsPending(app: Application, job: Job)
    requires job.status == Completed && app.status == Rejected
    ensures Badge(app, job) == "Pending"
  {
  }

  /** In a consistent store the select button appears only while every application of the
      job is still pending, so selecting from the card never replaces an earlier choice. */
  lemma SelectButtonOnlyBeforeDecision(users: map<Id, User>, jobs: map<Id, Job>, apps: map<Id, Application>,
                                       next: Id, viewer: User, j: Id)
    requires ServerRules.Consistent(users, jobs, apps, next)
    requires j in jobs && SelectButtonShown(viewer, jobs[j])
    ensures ServerRules.SelectedFor(apps, j) == {}
  {
    ServerRules.OpenJobUndecided(users, jobs, apps, next, j);
  }
}
