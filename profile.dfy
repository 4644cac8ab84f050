/** The profile page (`Profile`): the editable form seeded from the signed-in user, the
    update it submits, the activity counts and the rating stars. */
module Profile {
  import opened Common
  import opened Records
  import opened Text
  import ApplicationCard

  /** The form: the skills are edited as one comma-separated text. */
  datatype ProfileForm = ProfileForm(name: string, location: string, bio: string, skills: string)

  /** The update sent to the server; `skills` is `None` when the user record had none. */
  datatype ProfileUpdate = ProfileUpdate(name: string, location: string, bio: string, skills: Option<seq<string>>)

  /** The skills text the form starts with: the user's skills joined by ", ", or "" when the
      record has none. */
  function InitialSkillsText(skills: Option<seq<string>>): (r: string)
    ensures skills.None? ==> r == ""
    ensures skills.Some? ==> r == Join(skills.value, ", ")
  {
    if skills.Some? then Join(skills.value, ", ") else ""
  }

  function InitialForm(user: User, skills: Option<seq<string>>): (r: ProfileForm)
    ensures r == ProfileForm(user.name, user.location, user.bio, InitialSkillsText(skills))
  {
    ProfileForm(user.name, user.location, user.bio, InitialSkillsText(skills))
  }

  /** `userData`: the form, with a seeker's skills text normalised into a list and every
      other user's skills left as the record had them. */
  function SubmittedProfile(form: ProfileForm, isSeeker: bool, current: Option<seq<string>>): (r: ProfileUpdate)
    ensures r.name == form.name && r.location == form.location && r.bio == form.bio
    ensures isSeeker ==> r.skills == Some(NormalizeSkills(form.skills))
    ensures !isSeeker ==> r.skills == current
  {
    ProfileUpdate(form.name, form.location, form.bio, if isSeeker then Some(NormalizeSkills(form.skills)) else current)
  }

  /** Saving the form unchanged gives a seeker back the skills they had, provided they had at
      least one and each was already trimmed, lower-case and comma-free. */
  lemma UnchangedProfileKeepsSkills(user: User, skills: seq<string>)
    requires |skills| >= 1
    requires forall i :: 0 <= i < |skills| ==> Trimmed(skills[i]) && HasNoUpper(skills[i]) && ',' !in skills[i]
    ensures SubmittedProfile(InitialForm(user, Some(skills)), true, Some(skills)).skills == Some(skills)
  {
    NormalizeJoinRoundTrip(skills);
  }

  /** A seeker with no skills who saves the form unchanged gets one empty skill. */
  lemma EmptySkillsBecomeBlank(user: User)
    ensures SubmittedProfile(InitialForm(user, Some([])), true, Some([])).skills == Some([""])
  {
    assert InitialSkillsText(Some([])) == "";
    var r := NormalizeSkills("");
    assert Occurrences("", ',') == 0;
    assert |r| == 1;
    NormalizeSkillsPieces("");
    assert Split("", ',')[0] == "";
    assert Trimmed("") && HasNoUpper("");
    assert r[0] == "";
    assert r == [""];
  }

  function JobHasStatus(status: string): Job -> bool { (j: Job) => j.status == status }

  function ApplicationHasStatus(status: string): Application -> bool { (a: Application) => a.status == status }

  /** `completedJobs` and `openJobs`: how many of the provider's jobs have each status; they
      never add up to more than the jobs there are. */
  function JobCounts(jobs: seq<Job>): (r: (nat, nat))
    ensures r.0 == |Filter(jobs, JobHasStatus(Completed))| && r.1 == |Filter(jobs, JobHasStatus(Open))|
    ensures r.0 + r.1 <= |jobs|
    ensures r.0 == 0 <==> forall i :: 0 <= i < |jobs| ==> jobs[i].status != Completed
  {
    FilterDisjointCounts(jobs, JobHasStatus(Completed), JobHasStatus(Open));
    var completed := Filter(jobs, JobHasStatus(Completed));
    assert |completed| > 0 ==> completed[0] in jobs;
    assert (forall i :: 0 <= i < |jobs| ==> jobs[i].status != Completed) ==> |completed| == 0 by {
      if |completed| > 0 {
        var k :| 0 <= k < |jobs| && jobs[k] == completed[0];
      }
    }
    (|completed|, |Filter(jobs, JobHasStatus(Open))|)
  }

  /** `acceptedApplications` and `pendingApplications`: how many of the seeker's applications
      are selected and pending; they never add up to more than the applications there are. */
  function ApplicationCounts(apps: seq<Application>): (r: (nat, nat))
    ensures r.0 == |Filter(apps, ApplicationHasStatus(Selected))| && r.1 == |Filter(apps, ApplicationHasStatus(Pending))|
    ensures r.0 + r.1 <= |apps|
  {
    FilterDisjointCounts(apps, ApplicationHasStatus(Selected), ApplicationHasStatus(Pending));
    (|Filter(apps, ApplicationHasStatus(Selected))|, |Filter(apps, ApplicationHasStatus(Pending))|)
  }

  /** The stars of the profile: five of them, the first `floor(rating || 0)` (kept within
      0..5) filled; a missing rating draws five empty stars. */
  function ProfileStars(rating: Option<real>): (r: seq<bool>)
    ensures |r| == 5
    ensures rating.None? ==> forall i :: 0 <= i < 5 ==> !r[i]
    ensures rating.Some? ==> forall i :: 0 <= i < 5 ==> (r[i] <==> i < ApplicationCard.FilledStars(rating.value))
  {
    ApplicationCard.Stars(if rating.Some? then rating.value else 0.0)
  }
}
