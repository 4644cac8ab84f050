/** The job card of the listings (`JobCard`): whether the signed-in seeker has applied,
    the apply button with its label, and the apply action guarded against double
    submission. */
module JobCard {
  import opened Common
  import opened Records
  import opened Auth
  import opened JobContext
  import JobDetails

  const Applied := "Application submitted successfully!"
  const AlreadyApplied := "You have already applied for this job."
  const ApplyFailed := "Failed to apply for job. Please try again."

  /** `applications.some(app => app.seekerId === seeker)`. */
  predicate HasApplicationOf(apps: seq<Application>, seeker: Id)
  {
    exists i :: 0 <= i < |apps| && apps[i].seekerId == seeker
  }

  /** The apply button is offered to a seeker on an open job when the card allows it. */
  predicate ApplyButtonShown(user: Option<User>, showApply: bool, job: Job)
  {
    IsSeeker(user) && showApply && job.status == Open
  }

  predicate ApplyButtonDisabled(hasApplied: bool, loading: bool)
  {
    hasApplied || loading
  }

  /** The button's label: "Apply" exactly when it can be pressed. */
  function ApplyButtonLabel(hasApplied: bool, loading: bool): (r: string)
    ensures r == "Apply" <==> !ApplyButtonDisabled(hasApplied, loading)
    ensures r == "Applying..." <==> loading
    ensures r == "Applied" <==> hasApplied && !loading
  {
    if loading then "Applying..." else if hasApplied then "Applied" else "Apply"
  }

  /** The alert after the apply request settles: success only when an application was
      filed, "already applied" when the context reports a refusal, failure when it threw. */
  function ApplyResultAlert(result: Completion<bool>): (r: string)
    ensures r == Applied <==> result == Returns(true)
    ensures r == AlreadyApplied <==> result == Returns(false)
    ensures r == ApplyFailed <==> result.Throws?
  {
    match result
    case Returns(filed) => if filed then Applied else AlreadyApplied
    case Throws(_) => ApplyFailed
  }

  /** The card's alert agrees with the job page's awaited alert whenever the request settled
      without throwing. */
  lemma CardAgreesWithPage(result: Completion<bool>)
    requires result.Returns?
    ensures JobDetails.ApplyAlert(result) == Some(ApplyResultAlert(result))
  {
  }

  class JobCardState {
    var hasApplied: bool
    var loading: bool

    constructor ()
      ensures !hasApplied && !loading
    {
      hasApplied := false;
      loading := false;
    }

    /** `checkIfApplied`: for a seeker, records whether the job's applications include one of
        theirs, or false when the lookup threw; for anyone else nothing changes. */
    method CheckIfApplied(user: Option<User>, lookup: Completion<seq<Application>>)
      modifies this
      ensures loading == old(loading)
      ensures IsSeeker(user) && lookup.Returns? ==> hasApplied == HasApplicationOf(lookup.value, user.value.id)
      ensures IsSeeker(user) && lookup.Throws? ==> !hasApplied
      ensures !IsSeeker(user) ==> hasApplied == old(hasApplied)
    {
      if IsSeeker(user) {
        match lookup {
          case Returns(apps) =>
            hasApplied := HasApplicationOf(apps, user.value.id);
          case Throws(_) =>
            hasApplied := false;
        }
      }
    }

    /** The start of `handleApply`: a click while a request is in flight does nothing;
        otherwise the card enters its loading state and the request is sent. */
    method BeginApply() returns (sent: bool)
      modifies this
      ensures sent <==> !old(loading)
      ensures loading && hasApplied == old(hasApplied)
    {
      if loading {
        return false;
      }
      loading := true;
      sent := true;
    }

    /** The end of `handleApply`: a filed application marks the card as applied; the alert
        reports the outcome and the loading state ends, after which the button can be
        pressed again only if no application was filed. */
    method FinishApply(result: Completion<bool>) returns (alert: string)
      requires loading
      modifies this
      ensures !loading
      ensures hasApplied == (old(hasApplied) || result == Returns(true))
      ensures alert == ApplyResultAlert(result)
      ensures !ApplyButtonDisabled(hasApplied, loading) <==> !old(hasApplied) && result != Returns(true)
    {
      if result == Returns(true) {
        hasApplied := true;
      }
      alert := ApplyResultAlert(result);
      loading := false;
    }
  }
}
