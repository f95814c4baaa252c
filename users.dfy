/**
 * The user registry: users are appended with a time-derived id and the full
 * creation timestamp, and their role is shown as a label on a badge.
 */
module Users {
  import opened Common
  import opened Text

  /** `'admin' | 'user'`. */
  datatype Role = Admin | RegularUser

  datatype User = User(
    id: string,
    name: string,
    email: string,
    role: Role,
    department: Option<string>,
    createdAt: string)

  /** What the add-user dialog submits: a `User` without `id` and `createdAt`. */
  datatype UserDraft = UserDraft(name: string, email: string, role: Role, department: Option<string>)

  function NewUser(draft: UserDraft, stamp: nat, isoNow: string): (u: User)
    ensures u.name == draft.name && u.email == draft.email && u.role == draft.role
    ensures u.department == draft.department
    ensures u.id == NatToString(stamp) && u.createdAt == isoNow
  {
    User(NatToString(stamp), draft.name, draft.email, draft.role, draft.department, isoNow)
  }

  /** `handleAddUser`: the new user goes at the end; the others are kept as
      they are and in order. */
  function AddUser(users: seq<User>, draft: UserDraft, stamp: nat, isoNow: string): (r: seq<User>)
    ensures |r| == |users| + 1
    ensures r[..|users|] == users
    ensures r[|users|] == NewUser(draft, stamp, isoNow)
  {
    users + [NewUser(draft, stamp, isoNow)]
  }

  /** A user keeps the whole timestamp, time of day included, where accounts
      and contacts keep only the part before 'T'. */
  lemma UserKeepsTimeOfDay(draft: UserDraft, stamp: nat, date: string, time: string)
    requires 'T' !in date
    ensures NewUser(draft, stamp, date + "T" + time).createdAt != DatePart(date + "T" + time)
  {
    DatePartOfTimestamp(date, time);
    assert |date + "T" + time| > |date|;
  }

  datatype BadgeVariant = Destructive | Secondary

  /** `getRoleBadgeVariant`. */
  function RoleBadgeVariant(role: Role): (v: BadgeVariant)
    ensures v == Destructive <==> role == Admin
  {
    match role
    case Admin => Destructive
    case RegularUser => Secondary
  }

  /** `getRoleLabel`. */
  function RoleLabel(role: Role): (text: string)
    ensures text == "Administrador" <==> role == Admin
    ensures text == "Usuário" <==> role == RegularUser
  {
    match role
    case Admin => "Administrador"
    case RegularUser => "Usuário"
  }

  /** Badge colour and label agree, and the label tells the role. */
  lemma LabelAndVariantAgree(a: Role, b: Role)
    ensures RoleBadgeVariant(a) == Destructive <==> RoleLabel(a) == "Administrador"
    ensures RoleLabel(a) == RoleLabel(b) ==> a == b
  {
  }
}
