/** UserDetailsServiceImpl: the bridge from the user store to the security
    framework's user details, with one granted authority per role. */
module UserDetailsService {
  import opened Common
  import opened Domain
  import opened Entities
  import opened Repository

  const RolePrefix: string := "ROLE_"

  /** The framework's user details: username, password and authority names. */
  datatype UserDetails = UserDetails(username: string, password: string, authorities: set<string>)

  /** What loadUserByUsername can throw: UsernameNotFoundException, the
      NullPointerException of streaming a null role set, and the
      IllegalArgumentException the framework's builder raises on a null
      password or an empty username. */
  datatype LoadError =
    | UsernameNotFound(message: string)
    | NullRoleSet      // the NullPointerException of streaming a null role set
    | IllegalArgument

  /** How string concatenation renders a possibly-null String. */
  function NullableText(s: Option<string>): string {
    match s
    case None => "null"
    case Some(t) => t
  }

  /** new SimpleGrantedAuthority("ROLE_" + role.getCode()). */
  function Authority(role: Role): (a: string)
    ensures |a| >= |RolePrefix| && a[..|RolePrefix|] == RolePrefix
    ensures a[|RolePrefix|..] == NullableText(role.code)
  {
    RolePrefix + NullableText(role.code)
  }

  /** The authority of every role in the set; nothing else. */
  function Authorities(roles: set<Role>): (auths: set<string>)
    ensures forall role :: role in roles ==> Authority(role) in auths
    ensures forall a :: a in auths ==> exists role :: role in roles && a == Authority(role)
  {
    set role | role in roles :: Authority(role)
  }

  /** The details built for a found user: the email as username, the stored
      hash as password, and the role set streamed into authorities, which
      fails on a null role set. */
  function UserDetailsOf(u: User): (r: Result<UserDetails, LoadError>)
    ensures u.passwordHash.None? ==> r == Failure(IllegalArgument)
    ensures u.passwordHash.Some? && u.roles.NoRoles? ==> r == Failure(NullRoleSet)
    ensures u.passwordHash.Some? && u.roles.Roles? && u.email == "" ==> r == Failure(IllegalArgument)
    ensures r.Success? <==> u.passwordHash.Some? && u.roles.Roles? && u.email != ""
    ensures r.Success? ==>
      r.value.username == u.email && r.value.password == u.passwordHash.value &&
      r.value.authorities == Authorities(u.roles.items)
    ensures r.Success? ==> forall a :: a in r.value.authorities ==> a[..|RolePrefix|] == RolePrefix
  {
    if u.passwordHash.None? then Failure(IllegalArgument)
    else if u.roles.NoRoles? then Failure(NullRoleSet)
    else if u.email == "" then Failure(IllegalArgument)
    else Success(UserDetails(u.email, u.passwordHash.value, Authorities(u.roles.items)))
  }

  /** loadUserByUsername: the user with that email, looked up with its roles,
      turned into user details. */
  function LoadUserByUsername(users: seq<UserEntity>, email: string): (r: Result<UserDetails, LoadError>)
    ensures r == Failure(UsernameNotFound("User not found with email: " + email)) <==>
      forall k :: 0 <= k < |users| ==> users[k].email != email
  {
    match GetUserByEmailWithRoles(users, email)
    case None => Failure(UsernameNotFound("User not found with email: " + email))
    case Some(u) => UserDetailsOf(u)
  }

  /** As written, the lookup maps the row with toModel, which leaves the role
      set null, so no stored user ever loads: the framework rejects a null
      password, and otherwise streaming the null role set throws. */
  lemma LoadUserByUsernameNeverSucceeds(users: seq<UserEntity>, email: string)
    ensures LoadUserByUsername(users, email).Failure?
    ensures (exists k :: 0 <= k < |users| && users[k].email == email) ==>
      LoadUserByUsername(users, email).error in {NullRoleSet, IllegalArgument}
  {
  }

  /** Distinct codes give distinct authorities: the prefix can be stripped. */
  lemma AuthorityInjective(a: Role, b: Role)
    requires Authority(a) == Authority(b)
    ensures NullableText(a.code) == NullableText(b.code)
  {
  }

  /** The authorities of the built-in roles are their codes behind the prefix,
      and the four of them are distinct. */
  lemma BuiltInAuthorities(c: RoleCode, d: RoleCode)
    ensures Authority(NewRole(Code(c), Description(c))) == RolePrefix + Code(c)
    ensures c != d ==> Authority(NewRole(Code(c), Description(c))) != Authority(NewRole(Code(d), Description(d)))
  {
    RoleCodesDistinct();
    if c != d {
      var rc, rd := NewRole(Code(c), Description(c)), NewRole(Code(d), Description(d));
      if Authority(rc) == Authority(rd) {
        AuthorityInjective(rc, rd);
      }
    }
  }
}
