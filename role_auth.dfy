/** The login form. Submitting it builds the profile of the person who logs in; no
    credential is checked, and every submission yields a profile. */
module RoleAuth {
  import opened Text

  /** The four roles the form offers. */
  datatype Role = Member | Owner | Trainer | Brand

  /** The role as the application writes it into an attendance record. */
  function RoleName(r: Role): string {
    match r
    case Member => "Member"
    case Owner => "Owner"
    case Trainer => "Trainer"
    case Brand => "Brand"
  }

  /** The gym every new member is subscribed to and every new owner owns, and the
      gym an attendance record falls back to. */
  const DefaultGym: string := "Pulse Arena Gym"

  /** A logged-in profile; `subscriptions` matter for members, `gyms` for owners. */
  datatype User = User(
    id: string,
    name: string,
    email: string,
    role: Role,
    subscriptions: seq<string>,
    gyms: seq<string>)

  /** The form's state: the two text inputs and the selected role button. */
  datatype AuthForm = AuthForm(name: string, email: string, role: Role)

  /** The form as it is first shown: both inputs empty, the Member role selected. */
  const InitialForm: AuthForm := AuthForm("", "", Member)

  /** The profile a submission builds; `now` stands for `Date.now()`. An empty name or
      email is replaced by a default, and the role decides which seed association the
      profile starts with. */
  function Submit(form: AuthForm, now: nat): (u: User)
    ensures u.id == "u_" + DecimalString(now)
    ensures u.name != "" && (form.name != "" ==> u.name == form.name)
    ensures form.name == "" ==> u.name == "Guest"
    ensures u.email != "" && (form.email != "" ==> u.email == form.email)
    ensures form.email == "" ==> u.email == "guest@example.com"
    ensures u.role == form.role
    ensures u.subscriptions == (if form.role == Member then [DefaultGym] else [])
    ensures u.gyms == (if form.role == Owner then [DefaultGym] else [])
    ensures u.subscriptions != [] <==> form.role == Member
    ensures u.gyms != [] <==> form.role == Owner
    ensures u.subscriptions == [] || u.gyms == []
    ensures forall g :: g in u.subscriptions + u.gyms ==> g == DefaultGym
  {
    User(
      "u_" + DecimalString(now),
      if form.name != "" then form.name else "Guest",
      if form.email != "" then form.email else "guest@example.com",
      form.role,
      if form.role == Member then [DefaultGym] else [],
      if form.role == Owner then [DefaultGym] else [])
  }

  /** Submitting the untouched form logs in a member called Guest who is subscribed to
      the default gym. */
  lemma SubmitInitialForm(now: nat)
    ensures Submit(InitialForm, now).name == "Guest"
    ensures Submit(InitialForm, now).email == "guest@example.com"
    ensures Submit(InitialForm, now).role == Member
    ensures Submit(InitialForm, now).subscriptions == [DefaultGym]
    ensures Submit(InitialForm, now).gyms == []
  {
  }
}
