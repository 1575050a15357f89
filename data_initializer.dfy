/** DataInitializer: the start-up runner that seeds the built-in roles and
    then, unless it already exists, the administrator account. */
module Bootstrap {
  import opened Common
  import opened Domain
  import opened Entities
  import opened EntityMappers
  import opened Repository
  import opened Passwords
  import opened Jwt
  import opened Auth

  const AdminEmail: string := "admin@example.com"
  const AdminPassword: string := "admin@123"
  const AdminName: string := "Administrator"

  /** The row the administrator is stored as: the fixed email, name and
      locale, an active account, the hash of the fixed password, and a role
      set of exactly one existing row, the ADMIN role. */
  predicate AdminRow(row: UserEntity, hasher: PasswordHasher, roles: seq<RoleEntity>) {
    row.email == AdminEmail && row.name == AdminName && row.locale == "en" && row.status == Active &&
    row.passwordHash == Some(HashPassword(hasher, AdminPassword)) &&
    row.roles.RoleEntities? && |row.roles.items| == 1 &&
    forall re :: re in row.roles.items ==> re in roles && re.code == Some(Code(Admin))
  }

  /** With distinct ids, the lookup by id of a role row's own id finds that row. */
  lemma FindRoleByOwnId(roles: seq<RoleEntity>, nextId: int, k: int)
    requires RoleIdsValid(roles, nextId)
    requires 0 <= k < |roles|
    ensures FindRoleById(roles, roles[k].id.value) == Some(roles[k])
  {
    var r := FindRoleById(roles, roles[k].id.value);
    var j :| 0 <= j < |roles| && roles[j] == r.value && roles[j].id == roles[k].id &&
             forall i :: 0 <= i < j ==> roles[i].id != roles[k].id;
    assert j == k;
  }

  /** The role getRoleByCode returns for a stored code resolves back to the
      row it was read from. */
  lemma StoredRoleResolves(roles: seq<RoleEntity>, nextId: int, code: string)
    requires RoleIdsValid(roles, nextId)
    requires ExistsByCode(roles, code)
    ensures var role := GetRoleByCode(roles, code).value;
      GetExistingRoleEntity(roles, role) == Success(FindRoleByCode(roles, code).value)
  {
    var e := FindRoleByCode(roles, code).value;
    var k :| 0 <= k < |roles| && roles[k] == e && roles[k].code == Some(code) &&
             forall j :: 0 <= j < k ==> roles[j].code != Some(code);
    FindRoleByOwnId(roles, nextId, k);
  }

  /** An administrator seeded into a table that had no account with that
      email can log in with the fixed password, provided the password hasher
      is sound. */
  lemma SeededAdminCanLogIn(cfg: JwtConfig, hasher: PasswordHasher, users: seq<UserEntity>, row: UserEntity,
                            roles: seq<RoleEntity>, sessions: SessionStore, rememberMe: bool, now: int)
    requires Sound(hasher)
    requires forall k :: 0 <= k < |users| ==> users[k].email != AdminEmail
    requires AdminRow(row, hasher, roles)
    ensures LoginStep(cfg, hasher, users + [row], sessions, AdminEmail, AdminPassword, rememberMe, now).result.Success?
  {
    var table := users + [row];
    assert table[|users|] == row;
    var u := GetUserByEmailWithRoles(table, AdminEmail).value;
    var k :| 0 <= k < |table| && u == UserToModel(table[k]) && forall j :: 0 <= j < k ==> table[j].email != AdminEmail;
    assert k == |users|;
  }

  class DataInitializer {
    const authService: AuthService
    const db: Database
    const hasher: PasswordHasher

    constructor (authService: AuthService, hasher: PasswordHasher)
      ensures this.authService == authService && this.db == authService.db && this.hasher == hasher
    {
      this.authService := authService;
      this.db := authService.db;
      this.hasher := hasher;
    }

    /** initializeAdminUser: nothing happens when an account with the admin
        email exists. Otherwise the ADMIN role is read by code (a missing
        role fails inside getRoleByCode, before the null check after it is
        reached), and the administrator is built and stored with createUser.
        Returns the created user, or None when there was nothing to do. */
    method InitializeAdminUser(now: Instant) returns (r: Result<Option<User>, RepoError>)
      requires db.Valid()
      modifies db
      ensures db.Valid()
      ensures db.roles == old(db.roles)
      ensures GetUserByEmail(old(db.users), AdminEmail).Some? ==>
        r == Success(None) && db.users == old(db.users)
      ensures GetUserByEmail(old(db.users), AdminEmail).None? && !ExistsByCode(old(db.roles), Code(Admin)) ==>
        r == Failure(RepoError.NullPointer) && db.users == old(db.users)
      ensures GetUserByEmail(old(db.users), AdminEmail).None? && ExistsByCode(old(db.roles), Code(Admin)) ==>
        r.Success? && r.value.Some? && r.value.value.email == AdminEmail &&
        |db.users| == |old(db.users)| + 1 && db.users[..|old(db.users)|] == old(db.users) &&
        AdminRow(db.users[|old(db.users)|], hasher, db.roles)
      ensures ExistsByCode(old(db.roles), Code(Admin)) ==> GetUserByEmail(db.users, AdminEmail).Some?
    {
      var user := GetUserByEmail(db.users, AdminEmail);
      if user.Some? {
        return Success(None);
      }
      var adminRole := GetRoleByCode(db.roles, Code(Admin));
      if adminRole.Failure? {
        return Failure(adminRole.error);
      }
      var admin := BuildUser(AdminEmail, Some(HashPassword(hasher, AdminPassword)), AdminName, now)
        .(locale := "en", roles := Roles({adminRole.value}));
      StoredRoleResolves(db.roles, db.nextRoleId, Code(Admin));
      ghost var before := db.users;
      ghost var linked := LinkedRoles(db.roles, admin);
      assert linked == RoleEntities({FindRoleByCode(db.roles, Code(Admin)).value});
      var saved := db.CreateUser(admin);
      assert saved.Success?;
      ghost var row := db.users[|before|];
      assert db.users == before + [row];
      assert db.users[|before|] == row;
      r := Success(Some(saved.value));
    }

    /** run: the roles first, then the administrator. Afterwards every
        built-in role and the administrator exist, so a second run changes
        nothing. */
    method Run(now: Instant) returns (r: Result<Option<User>, RepoError>)
      requires db.Valid() && db == authService.db
      modifies db
      ensures db.Valid()
      ensures r.Success?
      ensures forall c: RoleCode :: ExistsByCode(db.roles, Code(c))
      ensures GetUserByEmail(db.users, AdminEmail).Some?
      ensures ((forall c: RoleCode :: ExistsByCode(old(db.roles), Code(c))) &&
               GetUserByEmail(old(db.users), AdminEmail).Some?) ==>
        db.users == old(db.users) && db.roles == old(db.roles) && r == Success(None)
    {
      authService.InitializeDefaultRoles();
      r := InitializeAdminUser(now);
    }
  }
}
