/** The records the marketplace stores and exchanges: users, jobs, applications
    and notifications, as the server writes them into its four collections and
    as the client receives them (with `_id` already renamed to `id`). */
module Records {
  import opened Common

  /** Database identifiers (MongoDB ObjectIds, sent to the client as strings). */
  type Id = nat

  // The role of a user (`userType`).
  const Provider := "provider"
  const Seeker := "seeker"

  // The status of a job.
  const Open := "open"
  const Assigned := "assigned"
  const Completed := "completed"

  // The status of an application.
  const Pending := "pending"
  const Selected := "selected"
  const Rejected := "rejected"

  // The `type` of a notification.
  const NewMatchingJob := "new-matching-job"
  const NewApplication := "new-application"
  const JobSelected := "job-selected"
  const JobFeedback := "job-feedback"

  datatype User = User(
    id: Id,
    name: string,
    email: string,
    userType: string,
    location: string,
    bio: string,
    skills: seq<string>,
    rating: real)

  /** The body of a job posting (`JobCreate`). */
  datatype JobSpec = JobSpec(
    title: string,
    description: string,
    location: string,
    category: string,
    requiredSkills: seq<string>,
    payment: string,
    duration: string)

  /** A stored job (`JobResponse`); `assignedTo` is `None` until a seeker is selected. */
  datatype Job = Job(
    id: Id,
    title: string,
    description: string,
    location: string,
    category: string,
    requiredSkills: seq<string>,
    payment: string,
    duration: string,
    providerId: Id,
    providerName: string,
    status: string,
    applicants: nat,
    assignedTo: Option<Id>)

  /** The snapshot of the seeker copied into an application when it is filed. */
  datatype SeekerProfile = SeekerProfile(skills: seq<string>, rating: real, experience: string)

  datatype Feedback = Feedback(rating: int, comment: string)

  datatype Application = Application(
    id: Id,
    jobId: Id,
    seekerId: Id,
    seekerName: string,
    status: string,
    seekerProfile: SeekerProfile,
    feedback: Option<Feedback>)

  /** A notification; `kind` is the record's `type` field. */
  datatype Notification = Notification(
    id: Id,
    userId: Id,
    kind: string,
    title: string,
    message: string,
    read: bool)
}
