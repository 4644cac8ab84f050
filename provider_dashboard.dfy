/** The provider's dashboard (`JobProviderDashboard`): the provider's jobs as fetched, and
    the view narrowed by the status filter. */
module ProviderDashboard {
  import opened Common
  import opened Records

  const AllStatuses := "all"

  /** The body of a successful response: a JSON array of jobs, or any other JSON value. */
  datatype Body = JobArray(jobs: seq<Job>) | OtherJson

  /** The list the page keeps after its fetch: the jobs of a successful array response, and
      the empty list for a failed request, a non-success status or a non-array body. */
  function StoredJobs(reply: Http<Body>): (r: seq<Job>)
    ensures reply.Reply? && reply.body.JobArray? ==> r == reply.body.jobs
    ensures reply.HttpError? ==> r == []
    ensures reply.Reply? && reply.body.OtherJson? ==> r == []
  {
    match reply
    case Reply(body) => if body.JobArray? then body.jobs else []
    case HttpError(_) => []
  }

  function HasStatus(status: string): Job -> bool { (j: Job) => j.status == status }

  /** `filteredJobs`: every job for "all", otherwise the jobs with that status, in order. */
  function FilteredJobs(jobs: seq<Job>, statusFilter: string): (r: seq<Job>)
    ensures statusFilter == AllStatuses ==> r == jobs
    ensures statusFilter != AllStatuses ==> r == Filter(jobs, HasStatus(statusFilter))
    ensures forall j :: j in r <==> j in jobs && (statusFilter == AllStatuses || j.status == statusFilter)
  {
    if statusFilter == AllStatuses then jobs else Filter(jobs, HasStatus(statusFilter))
  }

  /** Applying the same status filter twice changes nothing more. */
  lemma FilteredJobsIdempotent(jobs: seq<Job>, statusFilter: string)
    ensures FilteredJobs(FilteredJobs(jobs, statusFilter), statusFilter) == FilteredJobs(jobs, statusFilter)
  {
    if statusFilter != AllStatuses {
      var p := HasStatus(statusFilter);
      FilterFilter(jobs, p, p);
      FilterExt(jobs, Both(p, p), p);
    }
  }

  /** When every job is open, assigned or completed, the three status views together hold
      each job exactly once. */
  lemma {:induction false} StatusViewsPartition(jobs: seq<Job>)
    requires forall i :: 0 <= i < |jobs| ==> jobs[i].status in {Open, Assigned, Completed}
    ensures |FilteredJobs(jobs, Open)| + |FilteredJobs(jobs, Assigned)| + |FilteredJobs(jobs, Completed)| == |jobs|
    decreases |jobs|
  {
    if |jobs| > 0 {
      StatusViewsPartition(jobs[1..]);
    }
  }
}
