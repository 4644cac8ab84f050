/** The registration form (`Register`): the two checks made before anything is sent, the
    record sent to the server, and where the new user is taken afterwards. */
module Register {
  import opened Common
  import opened Records
  import opened Text
  import opened JobContext

  const PasswordsDiffer := "Passwords do not match"
  const NoUserType := "Please select a user type"
  const RegistrationFailed := "Failed to create an account"

  datatype RegisterForm = RegisterForm(
    name: string,
    email: string,
    password: string,
    confirmPassword: string,
    userType: string,
    location: string,
    skills: string,
    bio: string)

  /** `userData`: every form field (the password confirmation included), the skills as a
      list and a starting rating. */
  datatype Registration = Registration(
    name: string,
    email: string,
    password: string,
    confirmPassword: string,
    userType: string,
    location: string,
    skills: seq<string>,
    bio: string,
    rating: int)

  datatype Submission = Invalid(message: string) | Submit(data: Registration)

  /** `handleSubmit` up to the request: mismatched passwords are reported first, then a
      missing user type; otherwise the form is sent with rating 0, a seeker's skills
      normalised and every other user's skills empty. */
  function SubmitRegistration(form: RegisterForm): (r: Submission)
    ensures r == Invalid(PasswordsDiffer) <==> form.password != form.confirmPassword
    ensures r == Invalid(NoUserType) <==> form.password == form.confirmPassword && form.userType == ""
    ensures r.Submit? <==> form.password == form.confirmPassword && form.userType != ""
    ensures r.Submit? ==>
      r.data.rating == 0 &&
      r.data.name == form.name && r.data.email == form.email && r.data.password == form.password &&
      r.data.confirmPassword == form.confirmPassword && r.data.userType == form.userType &&
      r.data.location == form.location && r.data.bio == form.bio &&
      r.data.skills == (if form.userType == Seeker then NormalizeSkills(form.skills) else [])
  {
    if form.password != form.confirmPassword then Invalid(PasswordsDiffer)
    else if form.userType == "" then Invalid(NoUserType)
    else
      var skills := if form.userType == Seeker then NormalizeSkills(form.skills) else [];
      Submit(Registration(form.name, form.email, form.password, form.confirmPassword, form.userType,
                          form.location, skills, form.bio, 0))
  }

  /** A registered seeker's skills are trimmed, lower-case pieces, one per comma plus one. */
  lemma SeekerSkillsNormalised(form: RegisterForm)
    requires form.password == form.confirmPassword && form.userType == Seeker
    ensures var r := SubmitRegistration(form);
      r.Submit? && |r.data.skills| == Occurrences(form.skills, ',') + 1 &&
      forall i :: 0 <= i < |r.data.skills| ==> Trimmed(r.data.skills[i]) && HasNoUpper(r.data.skills[i])
  {
  }

  /** What follows a submission: a page to go to, or an error on the form. */
  datatype AfterSubmit = Navigate(route: string) | ShowError(message: string)

  /** As written: `register` returns a promise that is not awaited, so `user.userType` is
      undefined and every new user is sent to the seeker dashboard; a failed registration
      is never caught. */
  function AfterRegisterAsWritten(result: Completion<User>): (r: AfterSubmit)
    ensures r == Navigate("/seeker")
  {
    Navigate("/seeker")
  }

  /** With the promise awaited: a provider goes to the provider dashboard, anyone else to
      the seeker dashboard, and a failure is reported on the form. */
  function AfterRegister(result: Completion<User>): (r: AfterSubmit)
    ensures r == Navigate("/provider") <==> result.Returns? && result.value.userType == Provider
    ensures r == Navigate("/seeker") <==> result.Returns? && result.value.userType != Provider
    ensures r == ShowError(RegistrationFailed) <==> result.Throws?
  {
    match result
    case Returns(user) => Navigate(if user.userType == Provider then "/provider" else "/seeker")
    case Throws(_) => ShowError(RegistrationFailed)
  }

  /** A new provider is taken to the seeker dashboard. */
  lemma ProviderLandsOnSeekerDashboard(u: User)
    requires u.userType == Provider
    ensures AfterRegisterAsWritten(Returns(u)) == Navigate("/seeker")
    ensures AfterRegister(Returns(u)) == Navigate("/provider")
  {
  }
}
