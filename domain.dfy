/** The authentication domain model: users, roles, their closed enumerations
    and the defaults their builders and constructors apply. */
module Domain {
  import opened Common

  /** java.time.Instant, counted in nanoseconds since the epoch. */
  datatype Instant = Instant(epochNanos: int)

  /** Instant.toEpochMilli: whole milliseconds, rounded toward negative infinity. */
  function ToEpochMilli(i: Instant): (ms: int)
    ensures ms * 1_000_000 <= i.epochNanos < ms * 1_000_000 + 1_000_000
  {
    i.epochNanos / 1_000_000
  }

  /** Instant.ofEpochMilli. */
  function OfEpochMilli(ms: int): (i: Instant)
    ensures ToEpochMilli(i) == ms
    ensures i.epochNanos % 1_000_000 == 0
  {
    Instant(ms * 1_000_000)
  }

  /** Account state; only Active accounts may log in or refresh. */
  datatype UserStatus = Active | Inactive | Suspended | PendingVerification

  /** The closed set of built-in role codes. */
  datatype RoleCode = Admin | Owner | Viewer | Editor

  /** The code string of a built-in role: its enum constant's name. */
  function Code(c: RoleCode): string {
    match c
    case Admin => "ADMIN"
    case Owner => "OWNER"
    case Viewer => "VIEWER"
    case Editor => "EDITOR"
  }

  /** The fixed human description of a built-in role. */
  function Description(c: RoleCode): string {
    match c
    case Admin => "System administrator"
    case Owner => "Resource owner"
    case Viewer => "Read-only access"
    case Editor => "Read and write access"
  }

  /** RoleCode.values(), in declaration order. */
  const AllRoleCodes: seq<RoleCode> := [Admin, Owner, Viewer, Editor]

  /** Every built-in code is listed exactly once, and distinct codes have distinct strings. */
  lemma RoleCodesDistinct()
    ensures forall c: RoleCode :: c in AllRoleCodes
    ensures forall i, j :: 0 <= i < j < |AllRoleCodes| ==> Code(AllRoleCodes[i]) != Code(AllRoleCodes[j])
    ensures forall a: RoleCode, b: RoleCode :: Code(a) == Code(b) ==> a == b
  {
    forall c: RoleCode
      ensures c in AllRoleCodes
    {
      match c
      case Admin => assert AllRoleCodes[0] == c;
      case Owner => assert AllRoleCodes[1] == c;
      case Viewer => assert AllRoleCodes[2] == c;
      case Editor => assert AllRoleCodes[3] == c;
    }
  }

  /** A user record. A null role set (never loaded or never assigned) is NoRoles. */
  datatype User = User(
    id: Option<int>,
    email: string,
    passwordHash: Option<string>,
    name: string,
    locale: string,
    status: UserStatus,
    roles: NullableRoles,
    createdAt: Option<Instant>,
    updatedAt: Option<Instant>)

  datatype NullableRoles = NoRoles | Roles(items: set<Role>)

  /** A role record; `users` is the reverse side of the user-role relation. */
  datatype Role = Role(
    id: Option<int>,
    code: Option<string>,
    description: string,
    users: NullableUsers,
    createdAt: Option<Instant>,
    updatedAt: Option<Instant>)

  datatype NullableUsers = NoUsers | Users(items: set<User>)

  /** User.builder().email(e).passwordHash(h).name(n).build(): every field the
      builder is not given takes its default (locale "en", status ACTIVE, both
      timestamps the current instant) or stays null (id, roles). */
  function BuildUser(email: string, passwordHash: Option<string>, name: string, now: Instant): (u: User)
    ensures u.email == email && u.passwordHash == passwordHash && u.name == name
    ensures u.locale == "en" && u.status == Active
    ensures u.id == None && u.roles == NoRoles
    ensures u.createdAt == Some(now) && u.updatedAt == Some(now)
  {
    User(None, email, passwordHash, name, "en", Active, NoRoles, Some(now), Some(now))
  }

  /** The two-argument constructor `new Role(code, description)`: it sets only
      those two fields. As an explicit constructor it bypasses the builder, so
      the builder's timestamp defaults do not apply either. */
  function NewRole(code: string, description: string): (r: Role)
    ensures r.code == Some(code) && r.description == description
    ensures r.id == None && r.users == NoUsers
    ensures r.createdAt == None && r.updatedAt == None
  {
    Role(None, Some(code), description, NoUsers, None, None)
  }
}
