/** The persistence adapters: the `users` and `roles` tables behind the JPA
    repositories, the lookups UserRepositoryImpl and RoleRepositoryImpl make
    over them, and the writes `createUser` and `createRole`.

    A table is a sequence of rows in insertion order; a derived query returns
    the first row that matches. */
module Repository {
  import opened Common
  import opened Domain
  import opened Entities
  import opened EntityMappers

  /** The IllegalStateExceptions of the role-resolution rule, and the
      NullPointerException RoleEntityMapper.toModel raises on a null row. */
  datatype RepoError =
    | RoleIdNotFound(id: int)        // "Role with ID <id> not found"
    | RoleCodeNotFound(code: string) // "Role with code <code> not found"
    | RoleWithoutKey                 // "Role must have either ID or code"
    | NullPointer

  /** The first row, in table order, that satisfies `p`. */
  function First<T>(rows: seq<T>, p: T -> bool): (r: Option<T>)
    ensures r.None? <==> forall k :: 0 <= k < |rows| ==> !p(rows[k])
    ensures r.Some? ==>
      exists k :: 0 <= k < |rows| && rows[k] == r.value && p(rows[k]) &&
        forall j :: 0 <= j < k ==> !p(rows[j])
  {
    if |rows| == 0 then None
    else if p(rows[0]) then Some(rows[0])
    else
      var r := First(rows[1..], p);
      assert forall k :: 1 <= k < |rows| ==> rows[k] == rows[1..][k - 1];
      r
  }

  // ---------------------------------------------------------------- queries

  /** findByEmail / findByEmailWithRoles: the row with that email. */
  function FindUserByEmail(users: seq<UserEntity>, email: string): (r: Option<UserEntity>)
    ensures r.None? <==> forall k :: 0 <= k < |users| ==> users[k].email != email
    ensures r.Some? ==> r.value in users && r.value.email == email
  {
    First(users, (e: UserEntity) => e.email == email)
  }

  /** findByIdWithRoles: the row with that id. The query compares `u.id = :id`,
      which no row satisfies when the parameter is null. */
  function FindUserById(users: seq<UserEntity>, id: Option<int>): (r: Option<UserEntity>)
    ensures r.None? <==> id.None? || forall k :: 0 <= k < |users| ==> users[k].id != id
    ensures r.Some? ==> r.value in users && r.value.id == id
  {
    if id.None? then None else First(users, (e: UserEntity) => e.id == id)
  }

  /** findById on the roles table. */
  function FindRoleById(roles: seq<RoleEntity>, id: int): (r: Option<RoleEntity>)
    ensures r.None? <==> forall k :: 0 <= k < |roles| ==> roles[k].id != Some(id)
    ensures r.Some? ==> r.value in roles && r.value.id == Some(id)
  {
    First(roles, (e: RoleEntity) => e.id == Some(id))
  }

  /** findByCode on the roles table. */
  function FindRoleByCode(roles: seq<RoleEntity>, code: string): (r: Option<RoleEntity>)
    ensures r.Some? ==> r.value in roles && r.value.code == Some(code)
  {
    First(roles, (e: RoleEntity) => e.code == Some(code))
  }

  /** existsByCode. */
  function ExistsByCode(roles: seq<RoleEntity>, code: string): (b: bool)
    ensures b <==> exists k :: 0 <= k < |roles| && roles[k].code == Some(code)
  {
    FindRoleByCode(roles, code).Some?
  }

  /** UserRepositoryImpl.getUserByEmail: the row with that email through
      UserEntityMapper.toModel, or null. */
  function GetUserByEmail(users: seq<UserEntity>, email: string): (u: Option<User>)
    ensures u.None? <==> forall k :: 0 <= k < |users| ==> users[k].email != email
    ensures u.Some? ==>
      u.value.email == email && u.value.roles == NoRoles &&
      exists k :: 0 <= k < |users| && u.value == UserToModel(users[k]) &&
        forall j :: 0 <= j < k ==> users[j].email != email
  {
    match FindUserByEmail(users, email)
    case None => None
    case Some(e) => Some(UserToModel(e))
  }

  /** UserRepositoryImpl.getUserByEmailWithRoles. The query fetches the role
      set, but the row is then mapped with toModel, which drops it: the result
      is the same user getUserByEmail returns, with a null role set. */
  function GetUserByEmailWithRoles(users: seq<UserEntity>, email: string): (u: Option<User>)
    ensures u == GetUserByEmail(users, email)
    ensures u.Some? ==> u.value.roles == NoRoles
  {
    match FindUserByEmail(users, email)
    case None => None
    case Some(e) => Some(UserToModel(e))
  }

  /** UserRepositoryImpl.getUserByIdWithRoles: as above, by id, and again with
      a null role set. */
  function GetUserByIdWithRoles(users: seq<UserEntity>, id: Option<int>): (u: Option<User>)
    ensures u.None? <==> id.None? || forall k :: 0 <= k < |users| ==> users[k].id != id
    ensures u.Some? ==>
      u.value.id == id && u.value.roles == NoRoles &&
      exists k :: 0 <= k < |users| && u.value == UserToModel(users[k]) &&
        forall j :: 0 <= j < k ==> users[j].id != id
  {
    match FindUserById(users, id)
    case None => None
    case Some(e) => Some(UserToModel(e))
  }

  /** RoleRepositoryImpl.getRoleByCode: the row is passed to toModel even when
      the lookup found nothing, so a missing code is a NullPointerException
      rather than a null result. */
  function GetRoleByCode(roles: seq<RoleEntity>, code: string): (r: Result<Role, RepoError>)
    ensures r.Success? <==> ExistsByCode(roles, code)
    ensures r.Failure? ==> r.error == NullPointer
    ensures r.Success? ==> r.value.code == Some(code) && r.value.users == NoUsers && r.value.id == FindRoleByCode(roles, code).value.id
  {
    match FindRoleByCode(roles, code)
    case None => Failure(NullPointer)
    case Some(e) => Success(RoleToModel(e))
  }

  /** getExistingRoleEntity: a role with an id resolves by id alone (its code
      is not consulted); one without an id resolves by code; one with neither
      is an error. */
  function GetExistingRoleEntity(roles: seq<RoleEntity>, role: Role): (r: Result<RoleEntity, RepoError>)
    ensures r.Success? ==> r.value in roles
    ensures role.id.Some? ==>
      (r.Success? <==> exists k :: 0 <= k < |roles| && roles[k].id == role.id) &&
      (r.Success? ==> r.value.id == role.id) &&
      (r.Failure? ==> r.error == RoleIdNotFound(role.id.value))
    ensures role.id.None? && role.code.Some? ==>
      (r.Success? <==> exists k :: 0 <= k < |roles| && roles[k].code == role.code) &&
      (r.Success? ==> r.value.code == role.code) &&
      (r.Failure? ==> r.error == RoleCodeNotFound(role.code.value))
    ensures role.id.None? && role.code.None? ==> r == Failure(RoleWithoutKey)
  {
    if role.id.Some? then
      match FindRoleById(roles, role.id.value)
      case None => Failure(RoleIdNotFound(role.id.value))
      case Some(e) => Success(e)
    else if role.code.Some? then
      match FindRoleByCode(roles, role.code.value)
      case None => Failure(RoleCodeNotFound(role.code.value))
      case Some(e) => Success(e)
    else
      Failure(RoleWithoutKey)
  }

  /** The rows a role set resolves to, when every role in it resolves. */
  function ResolvedRoles(roles: seq<RoleEntity>, rs: set<Role>): set<RoleEntity> {
    set role | role in rs && GetExistingRoleEntity(roles, role).Success? :: GetExistingRoleEntity(roles, role).value
  }

  // ------------------------------------------------------------ table shape

  /** Every row has an id, all ids are distinct, and all lie below the next
      value the identity column will hand out. */
  predicate UserIdsValid(users: seq<UserEntity>, nextId: int) {
    (forall k :: 0 <= k < |users| ==> users[k].id.Some? && users[k].id.value < nextId) &&
    (forall i, j :: 0 <= i < j < |users| ==> users[i].id != users[j].id)
  }

  predicate RoleIdsValid(roles: seq<RoleEntity>, nextId: int) {
    (forall k :: 0 <= k < |roles| ==> roles[k].id.Some? && roles[k].id.value < nextId) &&
    (forall i, j :: 0 <= i < j < |roles| ==> roles[i].id != roles[j].id)
  }

  /** With distinct ids, the lookup by id of a row's own id finds that row. */
  lemma FindUserByOwnId(users: seq<UserEntity>, nextId: int, k: int)
    requires UserIdsValid(users, nextId)
    requires 0 <= k < |users|
    ensures FindUserById(users, users[k].id) == Some(users[k])
  {
    var r := FindUserById(users, users[k].id);
    var j :| 0 <= j < |users| && users[j] == r.value && users[j].id == users[k].id &&
             forall i :: 0 <= i < j ==> users[i].id != users[k].id;
    assert j == k;
  }

  // ------------------------------------------------------------------ saves

  /** Whether a row with this id is already stored. */
  predicate HasUserId(users: seq<UserEntity>, id: Option<int>) {
    id.Some? && exists k :: 0 <= k < |users| && users[k].id == id
  }

  predicate HasRoleId(roles: seq<RoleEntity>, id: Option<int>) {
    id.Some? && exists k :: 0 <= k < |roles| && roles[k].id == id
  }

  /** The row `save` stores: a row whose id is already present keeps it (an
      update); any other row is inserted under the next identity value. */
  function SavedUser(users: seq<UserEntity>, e: UserEntity, nextId: int): (s: UserEntity)
    ensures s == e.(id := s.id) && s.id.Some?
    ensures HasUserId(users, e.id) ==> s.id == e.id
    ensures !HasUserId(users, e.id) ==> s.id == Some(nextId)
  {
    if HasUserId(users, e.id) then e else e.(id := Some(nextId))
  }

  /** The users table after `save(e)`: an update replaces the row with that id
      in place; an insert appends. */
  function UsersAfterSave(users: seq<UserEntity>, e: UserEntity, nextId: int): (rows: seq<UserEntity>)
    ensures HasUserId(users, e.id) ==> |rows| == |users|
    ensures !HasUserId(users, e.id) ==> rows == users + [SavedUser(users, e, nextId)]
    ensures HasUserId(users, e.id) ==> forall k :: 0 <= k < |users| ==> rows[k] == (if users[k].id == SavedUser(users, e, nextId).id then SavedUser(users, e, nextId) else users[k])
  {
    var s := SavedUser(users, e, nextId);
    if HasUserId(users, e.id) then
      seq(|users|, k requires 0 <= k < |users| => if users[k].id == s.id then s else users[k])
    else
      users + [s]
  }

  function SavedRole(roles: seq<RoleEntity>, e: RoleEntity, nextId: int): (s: RoleEntity)
    ensures s == e.(id := s.id) && s.id.Some?
    ensures HasRoleId(roles, e.id) ==> s.id == e.id
    ensures !HasRoleId(roles, e.id) ==> s.id == Some(nextId)
  {
    if HasRoleId(roles, e.id) then e else e.(id := Some(nextId))
  }

  function RolesAfterSave(roles: seq<RoleEntity>, e: RoleEntity, nextId: int): (rows: seq<RoleEntity>)
    ensures HasRoleId(roles, e.id) ==> |rows| == |roles|
    ensures !HasRoleId(roles, e.id) ==> rows == roles + [SavedRole(roles, e, nextId)]
    ensures HasRoleId(roles, e.id) ==> forall k :: 0 <= k < |roles| ==> rows[k] == (if roles[k].id == SavedRole(roles, e, nextId).id then SavedRole(roles, e, nextId) else roles[k])
  {
    var s := SavedRole(roles, e, nextId);
    if HasRoleId(roles, e.id) then
      seq(|roles|, k requires 0 <= k < |roles| => if roles[k].id == s.id then s else roles[k])
    else
      roles + [s]
  }

  /** Saving keeps the ids distinct and below the identity counter, and the
      saved row is then what a lookup by its id finds. */
  lemma SaveUserKeepsIdsValid(users: seq<UserEntity>, e: UserEntity, nextId: int)
    requires UserIdsValid(users, nextId)
    ensures var next := if HasUserId(users, e.id) then nextId else nextId + 1;
      UserIdsValid(UsersAfterSave(users, e, nextId), next)
    ensures FindUserById(UsersAfterSave(users, e, nextId), SavedUser(users, e, nextId).id) == Some(SavedUser(users, e, nextId))
  {
    var rows := UsersAfterSave(users, e, nextId);
    var s := SavedUser(users, e, nextId);
    var next := if HasUserId(users, e.id) then nextId else nextId + 1;
    assert UserIdsValid(rows, next);
    var k :| 0 <= k < |rows| && rows[k] == s by {
      if HasUserId(users, e.id) {
        var i :| 0 <= i < |users| && users[i].id == e.id;
        assert rows[i] == s;
      } else {
        assert rows[|users|] == s;
      }
    }
    FindUserByOwnId(rows, next, k);
  }

  lemma SaveRoleKeepsIdsValid(roles: seq<RoleEntity>, e: RoleEntity, nextId: int)
    requires RoleIdsValid(roles, nextId)
    ensures var next := if HasRoleId(roles, e.id) then nextId else nextId + 1;
      RoleIdsValid(RolesAfterSave(roles, e, nextId), next)
  {
  }

  // --------------------------------------------------------------- database

  /** The two tables and their identity counters. */
  class Database {
    var users: seq<UserEntity>
    var roles: seq<RoleEntity>
    var nextUserId: int
    var nextRoleId: int

    ghost predicate Valid()
      reads this
    {
      UserIdsValid(users, nextUserId) && RoleIdsValid(roles, nextRoleId)
    }

    /** An empty schema; identity columns start at 1. */
    constructor ()
      ensures Valid()
      ensures users == [] && roles == []
    {
      users := [];
      roles := [];
      nextUserId := 1;
      nextRoleId := 1;
    }

    /** userEntityJpaRepository.save. */
    method SaveUser(e: UserEntity) returns (saved: UserEntity)
      requires Valid()
      modifies this
      ensures Valid()
      ensures saved == SavedUser(old(users), e, old(nextUserId))
      ensures users == UsersAfterSave(old(users), e, old(nextUserId))
      ensures roles == old(roles) && nextRoleId == old(nextRoleId)
    {
      SaveUserKeepsIdsValid(users, e, nextUserId);
      var update := HasUserId(users, e.id);
      saved := SavedUser(users, e, nextUserId);
      users := UsersAfterSave(users, e, nextUserId);
      if !update {
        nextUserId := nextUserId + 1;
      }
    }

    /** roleEntityJpaRepository.save. */
    method SaveRole(e: RoleEntity) returns (saved: RoleEntity)
      requires Valid()
      modifies this
      ensures Valid()
      ensures saved == SavedRole(old(roles), e, old(nextRoleId))
      ensures roles == RolesAfterSave(old(roles), e, old(nextRoleId))
      ensures users == old(users) && nextUserId == old(nextUserId)
    {
      SaveRoleKeepsIdsValid(roles, e, nextRoleId);
      var update := HasRoleId(roles, e.id);
      saved := SavedRole(roles, e, nextRoleId);
      roles := RolesAfterSave(roles, e, nextRoleId);
      if !update {
        nextRoleId := nextRoleId + 1;
      }
    }

    /** RoleRepositoryImpl.createRole: toEntity, save, toModel. */
    method CreateRole(role: Role) returns (r: Role)
      requires Valid()
      modifies this
      ensures Valid()
      ensures roles == RolesAfterSave(old(roles), RoleToEntity(role), old(nextRoleId))
      ensures users == old(users)
      ensures r == RoleToModel(SavedRole(old(roles), RoleToEntity(role), old(nextRoleId)))
      ensures r.id.Some? && r.code == role.code && r.description == role.description && r.users == NoUsers
    {
      var saved := SaveRole(RoleToEntity(role));
      r := RoleToModel(saved);
    }

    /** UserRepositoryImpl.createUser: a non-empty role set is first resolved,
        role by role, to existing rows; the first role that does not resolve
        aborts before anything is saved. The row is then saved and read back
        with toModel. */
    method CreateUser(user: User) returns (r: Result<User, RepoError>)
      requires Valid()
      modifies this
      ensures Valid()
      ensures r.Failure? <==>
        user.roles.Roles? && exists role :: role in user.roles.items && GetExistingRoleEntity(old(roles), role).Failure?
      ensures r.Failure? ==>
        users == old(users) && roles == old(roles) && nextUserId == old(nextUserId) && nextRoleId == old(nextRoleId)
      ensures r.Failure? ==>
        exists role :: role in user.roles.items && GetExistingRoleEntity(old(roles), role) == Failure(r.error)
      ensures r.Success? ==>
        var row := UserToEntity(user).(roles := LinkedRoles(old(roles), user));
        users == UsersAfterSave(old(users), row, old(nextUserId)) &&
        r.value == UserToModel(SavedUser(old(users), row, old(nextUserId)))
      ensures roles == old(roles)
    {
      var entity := UserToEntity(user);
      if user.roles.Roles? && user.roles.items != {} {
        var rest := user.roles.items;
        var resolved: set<RoleEntity> := {};
        while rest != {}
          invariant rest <= user.roles.items
          invariant forall role :: role in user.roles.items - rest ==> GetExistingRoleEntity(roles, role).Success?
          invariant resolved == ResolvedRoles(roles, user.roles.items - rest)
          decreases rest
        {
          var role :| role in rest;
          var res := GetExistingRoleEntity(roles, role);
          if res.Failure? {
            return Failure(res.error);
          }
          resolved := resolved + {res.value};
          rest := rest - {role};
        }
        assert user.roles.items - rest == user.roles.items;
        entity := entity.(roles := RoleEntities(resolved));
      }
      assert entity == UserToEntity(user).(roles := LinkedRoles(roles, user));
      var saved := SaveUser(entity);
      r := Success(UserToModel(saved));
    }
  }

  /** The role set createUser links a user's row to: the resolved existing
      rows for a non-empty role set, otherwise what toEntity made of it. */
  function LinkedRoles(roles: seq<RoleEntity>, user: User): (linked: NullableRoleEntities)
    ensures linked.NoRoleEntities? <==> user.roles.NoRoles?
    ensures user.roles.Roles? && user.roles.items != {} ==>
      linked.items == ResolvedRoles(roles, user.roles.items) && forall re :: re in linked.items ==> re in roles
  {
    if user.roles.Roles? && user.roles.items != {} then RoleEntities(ResolvedRoles(roles, user.roles.items))
    else UserToEntity(user).roles
  }
}
