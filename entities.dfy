/** The persistence-side records the mappers convert to and from: the rows of
    the `users` and `roles` tables with their many-to-many link. */
module Entities {
  import opened Common
  import opened Domain

  /** java.sql.Timestamp as built from and read back through epoch milliseconds. */
  datatype Timestamp = Timestamp(millis: int)

  datatype UserEntity = UserEntity(
    id: Option<int>,
    email: string,
    passwordHash: Option<string>,
    name: string,
    locale: string,
    status: UserStatus,
    createdAt: Option<Timestamp>,
    updatedAt: Option<Timestamp>,
    roles: NullableRoleEntities)

  datatype NullableRoleEntities = NoRoleEntities | RoleEntities(items: set<RoleEntity>)

  datatype RoleEntity = RoleEntity(
    id: Option<int>,
    code: Option<string>,
    description: string,
    users: NullableUserEntities,
    createdAt: Option<Timestamp>,
    updatedAt: Option<Timestamp>)

  datatype NullableUserEntities = NoUserEntities | UserEntities(items: set<UserEntity>)
}
