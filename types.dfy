/** The shared shapes the modelled handlers use: the user roles and statuses, the parts of a
    service page the editor builds, and the parts of a blog post the editor builds. */
module Types {
  import opened Wrappers

  /** `UserRole`: exactly three roles. */
  datatype UserRole = Admin | Editor | Doctor

  /** `User.status`: exactly two statuses. */
  datatype UserStatus = Active | Inactive

  function RoleName(r: UserRole): string {
    match r
    case Admin => "ADMIN"
    case Editor => "EDITOR"
    case Doctor => "DOCTOR"
  }

  /** The role a wire string names, if it names one. */
  function ParseRole(s: string): Option<UserRole> {
    if s == "ADMIN" then Some(Admin)
    else if s == "EDITOR" then Some(Editor)
    else if s == "DOCTOR" then Some(Doctor)
    else None
  }

  function StatusName(s: UserStatus): string {
    match s
    case Active => "ACTIVE"
    case Inactive => "INACTIVE"
  }

  function ParseStatus(s: string): Option<UserStatus> {
    if s == "ACTIVE" then Some(Active) else if s == "INACTIVE" then Some(Inactive) else None
  }

  /** The wire names are exactly the three roles: each role reads back as itself, and a string
      reads as a role only if it is that role's name. */
  lemma RoleNamesRoundTrip(r: UserRole, s: string)
    ensures ParseRole(RoleName(r)) == Some(r)
    ensures ParseRole(s) == Some(r) <==> s == RoleName(r)
  {
  }

  /** The same for the two statuses. */
  lemma StatusNamesRoundTrip(st: UserStatus, s: string)
    ensures ParseStatus(StatusName(st)) == Some(st)
    ensures ParseStatus(s) == Some(st) <==> s == StatusName(st)
  {
  }

  /** A condition treated on a service page. */
  datatype ServiceCondition = ServiceCondition(title: string, description: string, symptoms: seq<string>, image: string)

  /** The "ideal candidate" section of a treatment. */
  datatype IdealCandidate = IdealCandidate(title: string, description: string, steps: seq<string>)

  /** The "evaluation process" section of a treatment. */
  datatype EvaluationProcess = EvaluationProcess(title: string, description: string, steps: seq<string>,
                                                 bottomDescription: string)

  /** A heading/description section of a blog post. */
  datatype ExtraField = ExtraField(heading: string, description: string)

  /** A blog post tag. */
  datatype Tag = Tag(name: string)
}
