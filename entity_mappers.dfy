/** UserEntityMapper and RoleEntityMapper: conversions between the domain
    records and the table rows. The two `toEntity` conversions call each other
    (a user's roles, a role's users), so both mappers live in one module. */
module EntityMappers {
  import opened Common
  import opened Domain
  import opened Entities

  /** `new Timestamp(instant.toEpochMilli())`, keeping null as null. */
  function ToTimestamp(i: Option<Instant>): (t: Option<Timestamp>)
    ensures t.Some? <==> i.Some?
    ensures t.Some? ==> t.value.millis * 1_000_000 <= i.value.epochNanos < t.value.millis * 1_000_000 + 1_000_000
  {
    match i
    case None => None
    case Some(x) => Some(Timestamp(ToEpochMilli(x)))
  }

  /** `Instant.ofEpochMilli(timestamp.getTime())`, keeping null as null. */
  function ToInstant(t: Option<Timestamp>): (i: Option<Instant>)
    ensures i.Some? <==> t.Some?
    ensures ToTimestamp(i) == t
  {
    match t
    case None => None
    case Some(x) => Some(OfEpochMilli(x.millis))
  }

  /** An instant cut down to whole milliseconds, which is all a Timestamp keeps. */
  function TruncateToMillis(i: Option<Instant>): (r: Option<Instant>)
    ensures r.Some? <==> i.Some?
    ensures r.Some? ==> r.value.epochNanos <= i.value.epochNanos < r.value.epochNanos + 1_000_000
    ensures r.Some? ==> r.value.epochNanos % 1_000_000 == 0
  {
    match i
    case None => None
    case Some(x) => Some(OfEpochMilli(ToEpochMilli(x)))
  }

  /** UserEntityMapper.toEntity: copies every field and maps a non-null role set
      element by element through RoleEntityMapper.toEntity. */
  function UserToEntity(u: User): (e: UserEntity)
    ensures e.id == u.id && e.email == u.email && e.passwordHash == u.passwordHash
    ensures e.name == u.name && e.locale == u.locale && e.status == u.status
    ensures e.createdAt == ToTimestamp(u.createdAt) && e.updatedAt == ToTimestamp(u.updatedAt)
    ensures e.roles.NoRoleEntities? <==> u.roles.NoRoles?
    ensures u.roles.Roles? ==> e.roles.items == set r | r in u.roles.items :: RoleToEntity(r)
  {
    UserEntity(
      u.id, u.email, u.passwordHash, u.name, u.locale, u.status,
      ToTimestamp(u.createdAt), ToTimestamp(u.updatedAt),
      match u.roles
      case NoRoles => NoRoleEntities
      case Roles(rs) => RoleEntities(set r | r in rs :: RoleToEntity(r)))
  }

  /** RoleEntityMapper.toEntity: copies every field and maps a non-null user set
      element by element through UserEntityMapper.toEntity. */
  function RoleToEntity(r: Role): (e: RoleEntity)
    ensures e.id == r.id && e.code == r.code && e.description == r.description
    ensures e.createdAt == ToTimestamp(r.createdAt) && e.updatedAt == ToTimestamp(r.updatedAt)
    ensures e.users.NoUserEntities? <==> r.users.NoUsers?
    ensures r.users.Users? ==> e.users.items == set u | u in r.users.items :: UserToEntity(u)
  {
    RoleEntity(
      r.id, r.code, r.description,
      match r.users
      case NoUsers => NoUserEntities
      case Users(us) => UserEntities(set u | u in us :: UserToEntity(u)),
      ToTimestamp(r.createdAt), ToTimestamp(r.updatedAt))
  }

  /** UserEntityMapper.toModel: copies the scalar fields and converts the
      timestamps; it never sets the role set. */
  function UserToModel(e: UserEntity): (u: User)
    ensures u.id == e.id && u.email == e.email && u.passwordHash == e.passwordHash
    ensures u.name == e.name && u.locale == e.locale && u.status == e.status
    ensures u.createdAt == ToInstant(e.createdAt) && u.updatedAt == ToInstant(e.updatedAt)
    ensures u.roles == NoRoles
  {
    User(e.id, e.email, e.passwordHash, e.name, e.locale, e.status, NoRoles,
         ToInstant(e.createdAt), ToInstant(e.updatedAt))
  }

  /** RoleEntityMapper.toModel: copies id, code, description and timestamps;
      it never sets the user set. */
  function RoleToModel(e: RoleEntity): (r: Role)
    ensures r.id == e.id && r.code == e.code && r.description == e.description
    ensures r.createdAt == ToInstant(e.createdAt) && r.updatedAt == ToInstant(e.updatedAt)
    ensures r.users == NoUsers
  {
    Role(e.id, e.code, e.description, NoUsers, ToInstant(e.createdAt), ToInstant(e.updatedAt))
  }

  /** The user a role's user set is loaded as by toModelWithUsers: the password
      hash and the roles are never set. */
  function UserWithoutCredentials(e: UserEntity): (u: User)
    ensures u.passwordHash == None && u.roles == NoRoles
    ensures u.id == e.id && u.email == e.email && u.name == e.name && u.locale == e.locale && u.status == e.status
    ensures u.createdAt == ToInstant(e.createdAt) && u.updatedAt == ToInstant(e.updatedAt)
  {
    UserToModel(e).(passwordHash := None)
  }

  /** UserEntityMapper.toModelWithRoles: as toModel, and when the row's role
      set is non-null and non-empty, each linked role is copied into a new set. */
  method UserToModelWithRoles(e: UserEntity) returns (u: User)
    ensures u.roles.Roles? <==> e.roles.RoleEntities? && e.roles.items != {}
    ensures u.(roles := NoRoles) == UserToModel(e)
    ensures u.roles.Roles? ==> u.roles.items == set re | re in e.roles.items :: RoleToModel(re)
  {
    u := UserToModel(e);
    if e.roles.RoleEntities? && e.roles.items != {} {
      var rest := e.roles.items;
      var roles: set<Role> := {};
      while rest != {}
        invariant rest <= e.roles.items
        invariant roles == set re | re in e.roles.items - rest :: RoleToModel(re)
        decreases rest
      {
        var re :| re in rest;
        roles := roles + {RoleToModel(re)};
        rest := rest - {re};
      }
      u := u.(roles := Roles(roles));
    }
  }

  /** RoleEntityMapper.toModelWithUsers: as toModel, and when the row's user
      set is non-null and non-empty, each linked user is copied without its
      password hash into a new set. */
  method RoleToModelWithUsers(e: RoleEntity) returns (r: Role)
    ensures r.users.Users? <==> e.users.UserEntities? && e.users.items != {}
    ensures r.(users := NoUsers) == RoleToModel(e)
    ensures r.users.Users? ==> r.users.items == set ue | ue in e.users.items :: UserWithoutCredentials(ue)
    ensures r.users.Users? ==> forall u :: u in r.users.items ==> u.passwordHash == None
  {
    r := RoleToModel(e);
    if e.users.UserEntities? && e.users.items != {} {
      var rest := e.users.items;
      var users: set<User> := {};
      while rest != {}
        invariant rest <= e.users.items
        invariant users == set ue | ue in e.users.items - rest :: UserWithoutCredentials(ue)
        decreases rest
      {
        var ue :| ue in rest;
        users := users + {UserWithoutCredentials(ue)};
        rest := rest - {ue};
      }
      r := r.(users := Users(users));
    }
  }

  /** A user written to a row and read back with toModel keeps every scalar
      field, keeps its timestamps to the millisecond, and loses its roles. */
  lemma UserRoundTrip(u: User)
    ensures UserToModel(UserToEntity(u)) ==
      u.(roles := NoRoles, createdAt := TruncateToMillis(u.createdAt), updatedAt := TruncateToMillis(u.updatedAt))
  {
  }

  /** A row read with toModel and written back is the same row, less its role set. */
  lemma UserEntityRoundTrip(e: UserEntity)
    ensures UserToEntity(UserToModel(e)) == e.(roles := NoRoleEntities)
  {
  }

  /** A role written to a row and read back keeps id, code and description,
      keeps its timestamps to the millisecond, and loses its users. */
  lemma RoleRoundTrip(r: Role)
    ensures RoleToModel(RoleToEntity(r)) ==
      r.(users := NoUsers, createdAt := TruncateToMillis(r.createdAt), updatedAt := TruncateToMillis(r.updatedAt))
  {
  }
}
