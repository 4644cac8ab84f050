/** The two role tests the authentication context offers every page. */
module Auth {
  import opened Common
  import opened Records

  /** `isProvider`: someone is signed in and is a job provider. */
  predicate IsProvider(user: Option<User>)
  {
    user.Some? && user.value.userType == Provider
  }

  /** `isSeeker`: someone is signed in and is a job seeker. */
  predicate IsSeeker(user: Option<User>)
  {
    user.Some? && user.value.userType == Seeker
  }
}
