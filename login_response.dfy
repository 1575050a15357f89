/** LoginResponse: what a successful login or token refresh returns, and the
    UserInfo projection of a user that travels with it. */
module LoginResponses {
  import opened Common
  import opened Domain
  import opened Jwt

  /** The user as shown to the client. A null role set stays null (None). */
  datatype UserInfo = UserInfo(
    id: Option<int>,
    email: string,
    name: string,
    locale: string,
    roles: Option<set<Option<string>>>)

  datatype LoginResponse = LoginResponse(
    accessToken: Token,
    refreshToken: Token,
    tokenType: string,
    expiresIn: int,
    user: UserInfo)

  const Bearer: string := "Bearer"

  /** LoginResponse.builder()...build() without a token type: the builder
      default "Bearer" applies. */
  function BuildLoginResponse(accessToken: Token, refreshToken: Token, user: UserInfo, expiresIn: int): (r: LoginResponse)
    ensures r.tokenType == Bearer
    ensures r.accessToken == accessToken && r.refreshToken == refreshToken
    ensures r.user == user && r.expiresIn == expiresIn
  {
    LoginResponse(accessToken, refreshToken, Bearer, expiresIn, user)
  }

  /** The role codes of a set of roles, one entry per distinct code. */
  function RoleCodes(roles: set<Role>): set<Option<string>> {
    set r | r in roles :: r.code
  }

  /** new UserInfo(user): copies id, email, name and locale; when the role set
      is non-null, collects the codes of its roles into a set. */
  function UserInfoOf(u: User): (info: UserInfo)
    ensures info.id == u.id && info.email == u.email && info.name == u.name && info.locale == u.locale
    ensures info.roles.None? <==> u.roles.NoRoles?
    ensures info.roles.Some? ==>
      (forall c :: c in info.roles.value <==> exists r :: r in u.roles.items && r.code == c)
  {
    UserInfo(u.id, u.email, u.name, u.locale,
      match u.roles
      case NoRoles => None
      case Roles(rs) => Some(RoleCodes(rs)))
  }

  /** Collecting codes into a set: two roles sharing a code contribute one
      entry, so there are never more codes than roles. */
  lemma {:induction false} RoleCodesNoLarger(rs: set<Role>)
    ensures |RoleCodes(rs)| <= |rs|
  {
    if rs != {} {
      var r :| r in rs;
      var rest := rs - {r};
      RoleCodesNoLarger(rest);
      assert RoleCodes(rs) == RoleCodes(rest) + {r.code};
    }
  }

  /** The projected role set of a user has at most as many codes as roles. */
  lemma RoleCodesNoMoreThanRoles(u: User)
    requires u.roles.Roles?
    ensures UserInfoOf(u).roles.Some?
    ensures |UserInfoOf(u).roles.value| <= |u.roles.items|
  {
    RoleCodesNoLarger(u.roles.items);
  }
}
