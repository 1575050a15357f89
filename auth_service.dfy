/** AuthService: login, refresh-token rotation, logout and default-role
    seeding. The key-value session store holds, per user, the one refresh
    token that may currently be exchanged, under "refresh_token:" + userId,
    with a time-to-live in seconds.

    Each operation is specified by a pure step function over the user table
    and the session store (what the properties below are proved about); the
    methods of the AuthService class perform the same steps on the state and
    are proved to agree with them. */
module Auth {
  import opened Common
  import opened Domain
  import opened Entities
  import opened EntityMappers
  import opened Repository
  import opened Passwords
  import opened Jwt
  import opened LoginResponses

  const RefreshTokenPrefix: string := "refresh_token:"

  /** Duration.ofDays(30) and Duration.ofHours(7), in seconds. */
  const RememberMeTtl: nat := 30 * 24 * 60 * 60
  const DefaultTtl: nat := 7 * 60 * 60

  /** A stored refresh token and the time-to-live it was stored with. */
  datatype Session = Session(token: Token, ttlSeconds: nat)

  type SessionStore = map<string, Session>

  /** UsernameNotFoundException and BadCredentialsException, with their messages. */
  datatype AuthError = UsernameNotFound(message: string) | BadCredentials(message: string)

  /** The result of a step and the session store after it. */
  datatype Outcome = Outcome(result: Result<LoginResponse, AuthError>, sessions: SessionStore)

  /** REFRESH_TOKEN_PREFIX + userId, a null id rendering as "null". */
  function KeyFor(userId: Option<int>): (k: string)
    ensures |k| > |RefreshTokenPrefix| && k[..|RefreshTokenPrefix|] == RefreshTokenPrefix
    ensures userId.None? ==> k == "refresh_token:null"
    ensures userId.Some? ==> k[|RefreshTokenPrefix|..] == LongToString(userId.value)
  {
    RefreshTokenPrefix + NullableLongToString(userId)
  }

  /** Different users never share a session key. */
  lemma KeyForInjective(a: Option<int>, b: Option<int>)
    requires KeyFor(a) == KeyFor(b)
    ensures a == b
  {
    var n := |RefreshTokenPrefix|;
    assert NullableLongToString(a) == KeyFor(a)[n..] == KeyFor(b)[n..] == NullableLongToString(b);
    NullableLongToStringInjective(a, b);
  }

  /** The response both login and refresh build: the builder's "Bearer" token
      type and the access-token lifetime in whole seconds. */
  function Respond(cfg: JwtConfig, access: Token, refresh: Token, u: User): (r: LoginResponse)
    ensures r.tokenType == Bearer && r.accessToken == access && r.refreshToken == refresh
    ensures r.user == UserInfoOf(u)
    ensures r.expiresIn == JavaDiv(cfg.accessTokenExpiration, 1000)
    ensures cfg.accessTokenExpiration >= 0 ==> r.expiresIn * 1000 <= cfg.accessTokenExpiration < r.expiresIn * 1000 + 1000
  {
    BuildLoginResponse(access, refresh, UserInfoOf(u), JavaDiv(cfg.accessTokenExpiration, 1000))
  }

  // ------------------------------------------------------------------ login

  /** login: look the user up by email, check the password, then the status;
      only then issue both tokens and store the refresh token under the
      user's key, for 30 days with remember-me and 7 hours without. */
  function LoginStep(cfg: JwtConfig, hasher: PasswordHasher, users: seq<UserEntity>, sessions: SessionStore,
                     email: string, password: string, rememberMe: bool, now: int): (o: Outcome)
    ensures GetUserByEmailWithRoles(users, email).None? ==>
      o.result == Failure(UsernameNotFound("User not found with email: " + email))
    ensures GetUserByEmailWithRoles(users, email).Some? ==>
      var u := GetUserByEmailWithRoles(users, email).value;
      (!VerifyPassword(hasher, password, u.passwordHash) ==> o.result == Failure(BadCredentials("Invalid password"))) &&
      (VerifyPassword(hasher, password, u.passwordHash) && u.status != Active ==>
        o.result == Failure(BadCredentials("User is not active"))) &&
      (o.result.Success? <==> VerifyPassword(hasher, password, u.passwordHash) && u.status == Active)
    ensures o.result.Failure? ==> o.sessions == sessions
    ensures o.result.Success? ==>
      var u := GetUserByEmailWithRoles(users, email).value;
      var resp := o.result.value;
      resp == Respond(cfg, GenerateAccessToken(cfg, u.id, u.email, now), GenerateRefreshToken(cfg, u.id, u.email, now), u) &&
      o.sessions == sessions[KeyFor(u.id) := Session(resp.refreshToken, if rememberMe then RememberMeTtl else DefaultTtl)]
  {
    match GetUserByEmailWithRoles(users, email)
    case None => Outcome(Failure(UsernameNotFound("User not found with email: " + email)), sessions)
    case Some(u) =>
      if !VerifyPassword(hasher, password, u.passwordHash) then
        Outcome(Failure(BadCredentials("Invalid password")), sessions)
      else if u.status != Active then
        Outcome(Failure(BadCredentials("User is not active")), sessions)
      else
        var access := GenerateAccessToken(cfg, u.id, u.email, now);
        var refresh := GenerateRefreshToken(cfg, u.id, u.email, now);
        var ttl := if rememberMe then RememberMeTtl else DefaultTtl;
        Outcome(Success(Respond(cfg, access, refresh, u)), sessions[KeyFor(u.id) := Session(refresh, ttl)])
  }

  // ---------------------------------------------------------------- refresh

  /** Whether a refresh with `token` passes every check: it decodes, it is a
      refresh token, it is exactly the token stored for its user id, and that
      user exists and is active. */
  predicate RefreshAccepted(cfg: JwtConfig, users: seq<UserEntity>, sessions: SessionStore, token: Token, now: int) {
    ExtractAllClaims(cfg, token, now).Success? &&
    var uid := ExtractAllClaims(cfg, token, now).value.userId;
    IsRefreshToken(cfg, token, now) &&
    KeyFor(uid) in sessions && sessions[KeyFor(uid)].token == token &&
    GetUserByIdWithRoles(users, uid).Some? &&
    GetUserByIdWithRoles(users, uid).value.status == Active
  }

  /** refreshToken: the same checks in the source's order; every exception
      among them is caught and rethrown as BadCredentials("Invalid token").
      On success both tokens are reissued for the token's user id and the
      user's current email, and the stored refresh token is replaced, always
      with the 7-hour lifetime. */
  function RefreshStep(cfg: JwtConfig, users: seq<UserEntity>, sessions: SessionStore, token: Token, now: int): (o: Outcome)
    ensures o.result.Success? <==> RefreshAccepted(cfg, users, sessions, token, now)
    ensures o.result.Failure? ==> o.result.error == BadCredentials("Invalid token") && o.sessions == sessions
    ensures o.result.Success? ==>
      var uid := ExtractAllClaims(cfg, token, now).value.userId;
      var u := GetUserByIdWithRoles(users, uid).value;
      var resp := o.result.value;
      resp == Respond(cfg, GenerateAccessToken(cfg, uid, u.email, now), GenerateRefreshToken(cfg, uid, u.email, now), u) &&
      o.sessions == sessions[KeyFor(uid) := Session(resp.refreshToken, DefaultTtl)]
  {
    var invalid := Outcome(Failure(BadCredentials("Invalid token")), sessions);
    match ExtractUserId(cfg, token, now)
    case Failure(_) => invalid
    case Success(uid) =>
      if !IsRefreshToken(cfg, token, now) then invalid
      else if KeyFor(uid) !in sessions || sessions[KeyFor(uid)].token != token then invalid
      else
        match GetUserByIdWithRoles(users, uid)
        case None => invalid
        case Some(u) =>
          if u.status != Active then invalid
          else
            var access := GenerateAccessToken(cfg, uid, u.email, now);
            var refresh := GenerateRefreshToken(cfg, uid, u.email, now);
            Outcome(Success(Respond(cfg, access, refresh, u)), sessions[KeyFor(uid) := Session(refresh, DefaultTtl)])
  }

  // ----------------------------------------------------------------- logout

  /** logout: delete the user's key, present or not. */
  function LogoutStep(sessions: SessionStore, userId: Option<int>): (s: SessionStore)
    ensures KeyFor(userId) !in s
    ensures forall k :: k != KeyFor(userId) ==> (k in s <==> k in sessions) && (k in s ==> s[k] == sessions[k])
  {
    sessions - {KeyFor(userId)}
  }

  // ----------------------------------------------------- default role seeding

  /** The built-in codes not yet present in the roles table. */
  function MissingCodes(roles: seq<RoleEntity>, codes: seq<RoleCode>): seq<RoleCode> {
    if codes == [] then []
    else (if ExistsByCode(roles, Code(codes[0])) then [] else [codes[0]]) + MissingCodes(roles, codes[1..])
  }

  /** The missing codes are exactly the listed codes without a role. */
  lemma {:induction false} MissingCodesMembers(roles: seq<RoleEntity>, codes: seq<RoleCode>)
    ensures forall c :: c in MissingCodes(roles, codes) <==> c in codes && !ExistsByCode(roles, Code(c))
  {
    if codes != [] {
      MissingCodesMembers(roles, codes[1..]);
      assert codes == [codes[0]] + codes[1..];
    }
  }

  /** When every listed code has a role, none is missing. */
  lemma {:induction false} MissingCodesNone(roles: seq<RoleEntity>, codes: seq<RoleCode>)
    requires forall c :: c in codes ==> ExistsByCode(roles, Code(c))
    ensures MissingCodes(roles, codes) == []
  {
    if codes != [] {
      assert codes[0] in codes;
      MissingCodesNone(roles, codes[1..]);
    }
  }

  // --------------------------------------------------------------- properties

  /** The session store is only written by a successful login, and then only
      at the logged-in user's key. */
  lemma LoginTouchesOnlyItsKey(cfg: JwtConfig, hasher: PasswordHasher, users: seq<UserEntity>, sessions: SessionStore,
                                email: string, password: string, rememberMe: bool, now: int, key: string)
    requires key in sessions
    requires GetUserByEmailWithRoles(users, email).None? || key != KeyFor(GetUserByEmailWithRoles(users, email).value.id)
    ensures var o := LoginStep(cfg, hasher, users, sessions, email, password, rememberMe, now);
      key in o.sessions && o.sessions[key] == sessions[key]
  {
  }

  /** As written, the user a login reports carries no role codes: the lookup
      "with roles" maps the row with toModel, so UserInfo.roles stays null. */
  lemma LoginReportsNoRoles(cfg: JwtConfig, hasher: PasswordHasher, users: seq<UserEntity>, sessions: SessionStore,
                            email: string, password: string, rememberMe: bool, now: int)
    ensures var o := LoginStep(cfg, hasher, users, sessions, email, password, rememberMe, now);
      o.result.Success? ==> o.result.value.user.roles.None?
  {
  }

  /** A user who logs in can exchange the refresh token they received for as
      long as it lives, provided user ids are distinct and the password
      hasher is sound. */
  lemma LoginThenRefresh(cfg: JwtConfig, hasher: PasswordHasher, users: seq<UserEntity>, nextId: int, sessions: SessionStore,
                         email: string, password: string, rememberMe: bool, issued: int, now: int)
    requires UserIdsValid(users, nextId)
    requires LoginStep(cfg, hasher, users, sessions, email, password, rememberMe, issued).result.Success?
    requires now <= EpochSeconds(issued + cfg.refreshTokenExpiration) * 1000
    ensures var o := LoginStep(cfg, hasher, users, sessions, email, password, rememberMe, issued);
      RefreshStep(cfg, users, o.sessions, o.result.value.refreshToken, now).result.Success?
  {
    var o := LoginStep(cfg, hasher, users, sessions, email, password, rememberMe, issued);
    var u := GetUserByEmailWithRoles(users, email).value;
    var k :| 0 <= k < |users| && u == UserToModel(users[k]) && forall j :: 0 <= j < k ==> users[j].email != email;
    FindUserByOwnId(users, nextId, k);
    var t := o.result.value.refreshToken;
    assert t == GenerateRefreshToken(cfg, u.id, u.email, issued);
    IssuedTokenRoundTrip(cfg, u.id, u.email, issued, now);
    assert GetUserByIdWithRoles(users, u.id) == Some(u);
    assert RefreshAccepted(cfg, users, o.sessions, t, now);
  }

  /** Rotation: once a refresh succeeds, the token it consumed is no longer
      accepted, unless the new token is the very same one (see
      RefreshSameSecondKeepsToken). */
  lemma RefreshRotates(cfg: JwtConfig, users: seq<UserEntity>, sessions: SessionStore, token: Token, now: int, later: int)
    requires RefreshStep(cfg, users, sessions, token, now).result.Success?
    requires RefreshStep(cfg, users, sessions, token, now).result.value.refreshToken != token
    ensures var o := RefreshStep(cfg, users, sessions, token, now);
      RefreshStep(cfg, users, o.sessions, token, later).result.Failure?
  {
  }

  /** The refresh token a successful refresh stores differs from the one it
      consumed whenever that one was issued in a different second. */
  lemma RefreshIssuesNewToken(cfg: JwtConfig, users: seq<UserEntity>, sessions: SessionStore, token: Token, now: int)
    requires RefreshStep(cfg, users, sessions, token, now).result.Success?
    requires token.Jws? && token.claims.issuedAt != Some(EpochSeconds(now))
    ensures RefreshStep(cfg, users, sessions, token, now).result.value.refreshToken != token
  {
  }

  /** As written, a refresh in the same second as the token's issue (and with
      the expiry falling in the same second too), for a user whose email has
      not changed, reissues that very token: it is stored again and stays
      accepted, so no rotation takes place. */
  lemma RefreshSameSecondKeepsToken(cfg: JwtConfig, users: seq<UserEntity>, sessions: SessionStore,
                                    userId: Option<int>, email: string, issued: int, now: int)
    requires RefreshAccepted(cfg, users, sessions, GenerateRefreshToken(cfg, userId, email, issued), now)
    requires GetUserByIdWithRoles(users, userId).Some? && GetUserByIdWithRoles(users, userId).value.email == email
    requires EpochSeconds(issued) == EpochSeconds(now)
    requires EpochSeconds(issued + cfg.refreshTokenExpiration) == EpochSeconds(now + cfg.refreshTokenExpiration)
    ensures var t := GenerateRefreshToken(cfg, userId, email, issued);
      var o := RefreshStep(cfg, users, sessions, t, now);
      o.result.Success? && o.result.value.refreshToken == t && RefreshAccepted(cfg, users, o.sessions, t, now)
  {
  }

  /** After logout no refresh token of that user is accepted. */
  lemma LogoutThenRefreshFails(cfg: JwtConfig, users: seq<UserEntity>, sessions: SessionStore, userId: Option<int>, token: Token, now: int)
    requires ExtractUserId(cfg, token, now) == Success(userId)
    ensures RefreshStep(cfg, users, LogoutStep(sessions, userId), token, now).result.Failure?
  {
  }

  /** Logging out twice is logging out once, and logging out one user leaves
      every other user's session in place. */
  lemma LogoutIdempotentAndLocal(sessions: SessionStore, a: Option<int>, b: Option<int>)
    ensures LogoutStep(LogoutStep(sessions, a), a) == LogoutStep(sessions, a)
    ensures a != b && KeyFor(b) in sessions ==> KeyFor(b) in LogoutStep(sessions, a) && LogoutStep(sessions, a)[KeyFor(b)] == sessions[KeyFor(b)]
  {
    if a != b && KeyFor(a) == KeyFor(b) {
      KeyForInjective(a, b);
    }
  }

  // ---------------------------------------------------------------- service

  /** The service: the shared database, the token service's configuration,
      the password hasher, and the session store. */
  class AuthService {
    const db: Database
    const cfg: JwtConfig
    const hasher: PasswordHasher
    var sessions: SessionStore

    constructor (db: Database, cfg: JwtConfig, hasher: PasswordHasher)
      ensures this.db == db && this.cfg == cfg && this.hasher == hasher
      ensures sessions == map[]
    {
      this.db := db;
      this.cfg := cfg;
      this.hasher := hasher;
      sessions := map[];
    }

    method Login(email: string, password: string, rememberMe: bool, now: int) returns (r: Result<LoginResponse, AuthError>)
      modifies this
      ensures var o := LoginStep(cfg, hasher, db.users, old(sessions), email, password, rememberMe, now);
        r == o.result && sessions == o.sessions
    {
      var user := GetUserByEmailWithRoles(db.users, email);
      if user.None? {
        return Failure(UsernameNotFound("User not found with email: " + email));
      }
      var u := user.value;
      if !VerifyPassword(hasher, password, u.passwordHash) {
        return Failure(BadCredentials("Invalid password"));
      }
      if u.status != Active {
        return Failure(BadCredentials("User is not active"));
      }
      var access := GenerateAccessToken(cfg, u.id, u.email, now);
      var refresh := GenerateRefreshToken(cfg, u.id, u.email, now);
      if rememberMe {
        sessions := sessions[KeyFor(u.id) := Session(refresh, RememberMeTtl)];
      } else {
        sessions := sessions[KeyFor(u.id) := Session(refresh, DefaultTtl)];
      }
      r := Success(Respond(cfg, access, refresh, u));
    }

    method RefreshToken(token: Token, now: int) returns (r: Result<LoginResponse, AuthError>)
      modifies this
      ensures var o := RefreshStep(cfg, db.users, old(sessions), token, now);
        r == o.result && sessions == o.sessions
    {
      var invalid := Failure(BadCredentials("Invalid token"));
      var userId := ExtractUserId(cfg, token, now);
      if userId.Failure? {
        return invalid;
      }
      var uid := userId.value;
      if !IsRefreshToken(cfg, token, now) {
        return invalid;
      }
      var key := KeyFor(uid);
      if key !in sessions || sessions[key].token != token {
        return invalid;
      }
      var user := GetUserByIdWithRoles(db.users, uid);
      if user.None? || user.value.status != Active {
        return invalid;
      }
      var u := user.value;
      var access := GenerateAccessToken(cfg, uid, u.email, now);
      var refresh := GenerateRefreshToken(cfg, uid, u.email, now);
      sessions := sessions[key := Session(refresh, DefaultTtl)];
      r := Success(Respond(cfg, access, refresh, u));
    }

    method Logout(userId: Option<int>)
      modifies this
      ensures sessions == LogoutStep(old(sessions), userId)
    {
      sessions := sessions - {KeyFor(userId)};
    }

    /** One pass of initializeDefaultRoles: create the role of code `c`,
        with its fixed description, unless a role with that code exists. */
    method CreateRoleIfAbsent(c: RoleCode)
      requires db.Valid()
      modifies db
      ensures db.Valid()
      ensures db.users == old(db.users)
      ensures CreatedIfAbsent(old(db.roles), db.roles, c)
      ensures CodesAfterCreate(old(db.roles), db.roles, c)
    {
      if !ExistsByCode(db.roles, Code(c)) {
        var _ := db.CreateRole(NewRole(Code(c), Description(c)));
        ghost var row := db.roles[|old(db.roles)|];
        assert db.roles == old(db.roles) + [row];
        AppendedRowCodes(old(db.roles), row);
      }
    }

    /** initializeDefaultRoles: for each built-in code in declaration order,
        create the role with its fixed description unless a role with that
        code exists. Existing rows are never altered, exactly the missing
        codes are added (in order), and a second run adds nothing. */
    method InitializeDefaultRoles()
      requires db.Valid()
      modifies db
      ensures db.Valid()
      ensures db.users == old(db.users)
      ensures |db.roles| >= |old(db.roles)| && db.roles[..|old(db.roles)|] == old(db.roles)
      ensures SeededAfter(db.roles, |old(db.roles)|, MissingCodes(old(db.roles), AllRoleCodes))
      ensures forall c: RoleCode :: ExistsByCode(db.roles, Code(c))
      ensures (forall c: RoleCode :: ExistsByCode(old(db.roles), Code(c))) ==> db.roles == old(db.roles)
    {
      var i := 0;
      while i < |AllRoleCodes|
        invariant 0 <= i <= |AllRoleCodes|
        invariant db.Valid()
        invariant db.users == old(db.users)
        invariant SeedRows(old(db.roles), db.roles, i)
        invariant SeedCodes(old(db.roles), db.roles, i)
      {
        ghost var before := db.roles;
        CreateRoleIfAbsent(AllRoleCodes[i]);
        SeedStepRows(old(db.roles), before, db.roles, i);
        SeedStepCodes(old(db.roles), before, db.roles, i);
        i := i + 1;
      }
      SeedDoneRows(old(db.roles), db.roles);
      SeedDoneCodes(old(db.roles), db.roles);
    }
  }

  /** The table after one pass for code `c`: unchanged when the code was
      present, otherwise one row for `c` appended ... */
  ghost predicate CreatedIfAbsent(before: seq<RoleEntity>, after: seq<RoleEntity>, c: RoleCode) {
    (ExistsByCode(before, Code(c)) ==> after == before) &&
    (!ExistsByCode(before, Code(c)) ==>
      |after| == |before| + 1 && after[..|before|] == before && RowFor(after[|before|], c))
  }

  /** ... so that its codes are the old ones plus `c`. */
  ghost predicate CodesAfterCreate(before: seq<RoleEntity>, after: seq<RoleEntity>, c: RoleCode) {
    forall code :: ExistsByCode(after, code) <==> ExistsByCode(before, code) || code == Code(c)
  }

  /** The loop invariant of initializeDefaultRoles after the first `i` codes:
      the original rows are untouched and the rows of the codes found missing
      so far follow them in order; */
  ghost predicate SeedRows(orig: seq<RoleEntity>, roles: seq<RoleEntity>, i: int) {
    0 <= i <= |AllRoleCodes| &&
    |roles| >= |orig| && roles[..|orig|] == orig &&
    SeededAfter(roles, |orig|, MissingCodes(orig, AllRoleCodes[..i]))
  }

  /** the codes seen so far are present, and the codes still to come are
      present exactly when they were at the start. */
  ghost predicate SeedCodes(orig: seq<RoleEntity>, roles: seq<RoleEntity>, i: int) {
    0 <= i <= |AllRoleCodes| &&
    (forall j :: 0 <= j < i ==> ExistsByCode(roles, Code(AllRoleCodes[j]))) &&
    (forall j :: i <= j < |AllRoleCodes| ==>
      (ExistsByCode(roles, Code(AllRoleCodes[j])) <==> ExistsByCode(orig, Code(AllRoleCodes[j]))))
  }

  lemma SeedStepRows(orig: seq<RoleEntity>, before: seq<RoleEntity>, after: seq<RoleEntity>, i: int)
    requires 0 <= i < |AllRoleCodes|
    requires SeedRows(orig, before, i)
    requires ExistsByCode(before, Code(AllRoleCodes[i])) <==> ExistsByCode(orig, Code(AllRoleCodes[i]))
    requires CreatedIfAbsent(before, after, AllRoleCodes[i])
    ensures SeedRows(orig, after, i + 1)
  {
    var c := AllRoleCodes[i];
    var m := MissingCodes(orig, AllRoleCodes[..i]);
    MissingCodesSnoc(orig, AllRoleCodes, i);
    if !ExistsByCode(before, Code(c)) {
      assert MissingCodes(orig, AllRoleCodes[..i + 1]) == m + [c];
      var row := after[|before|];
      assert after == before + [row] by {
        assert after == after[..|before|] + [row];
      }
      SeededAppend(before, |orig|, m, row, c);
      assert after[..|orig|] == before[..|orig|];
    } else {
      assert MissingCodes(orig, AllRoleCodes[..i + 1]) == m;
    }
  }

  lemma SeedStepCodes(orig: seq<RoleEntity>, before: seq<RoleEntity>, after: seq<RoleEntity>, i: int)
    requires 0 <= i < |AllRoleCodes|
    requires SeedCodes(orig, before, i)
    requires CodesAfterCreate(before, after, AllRoleCodes[i])
    ensures SeedCodes(orig, after, i + 1)
  {
    forall j | i + 1 <= j < |AllRoleCodes|
      ensures ExistsByCode(after, Code(AllRoleCodes[j])) <==> ExistsByCode(orig, Code(AllRoleCodes[j]))
    {
      RoleCodesDistinct();
      assert Code(AllRoleCodes[j]) != Code(AllRoleCodes[i]);
    }
  }

  lemma SeedDoneCodes(orig: seq<RoleEntity>, roles: seq<RoleEntity>)
    requires SeedCodes(orig, roles, |AllRoleCodes|)
    ensures forall c: RoleCode :: ExistsByCode(roles, Code(c))
  {
    forall c: RoleCode
      ensures ExistsByCode(roles, Code(c))
    {
      match c
      case Admin => assert AllRoleCodes[0] == c;
      case Owner => assert AllRoleCodes[1] == c;
      case Viewer => assert AllRoleCodes[2] == c;
      case Editor => assert AllRoleCodes[3] == c;
    }
  }

  lemma SeedDoneRows(orig: seq<RoleEntity>, roles: seq<RoleEntity>)
    requires SeedRows(orig, roles, |AllRoleCodes|)
    ensures SeededAfter(roles, |orig|, MissingCodes(orig, AllRoleCodes))
    ensures (forall c: RoleCode :: ExistsByCode(orig, Code(c))) ==> roles == orig
  {
    assert AllRoleCodes[..|AllRoleCodes|] == AllRoleCodes;
    if forall c: RoleCode :: ExistsByCode(orig, Code(c)) {
      MissingCodesNone(orig, AllRoleCodes);
      assert |roles| == |orig|;
      assert roles == roles[..|orig|];
    }
  }

  /** The row createRole stores for a built-in code. */
  predicate RowFor(row: RoleEntity, c: RoleCode) {
    row.code == Some(Code(c)) && row.description == Description(c) && row.users == NoUserEntities
  }

  /** Past position `base`, the table holds one row per code of `codes`, in order. */
  predicate SeededAfter(roles: seq<RoleEntity>, base: nat, codes: seq<RoleCode>) {
    |roles| == base + |codes| && forall k :: 0 <= k < |codes| ==> RowFor(roles[base + k], codes[k])
  }

  lemma SeededAppend(roles: seq<RoleEntity>, base: nat, codes: seq<RoleCode>, row: RoleEntity, c: RoleCode)
    requires SeededAfter(roles, base, codes) && RowFor(row, c)
    ensures SeededAfter(roles + [row], base, codes + [c])
  {
    forall k | 0 <= k < |codes| + 1
      ensures RowFor((roles + [row])[base + k], (codes + [c])[k])
    {
      if k < |codes| {
        assert (roles + [row])[base + k] == roles[base + k];
      }
    }
  }

  /** Extending the scanned prefix of the codes by one extends the missing
      codes by that code exactly when it is missing. */
  lemma MissingCodesSnoc(roles: seq<RoleEntity>, codes: seq<RoleCode>, i: int)
    requires 0 <= i < |codes|
    ensures MissingCodes(roles, codes[..i + 1]) ==
      MissingCodes(roles, codes[..i]) + (if ExistsByCode(roles, Code(codes[i])) then [] else [codes[i]])
  {
    MissingCodesAppend(roles, codes[..i], [codes[i]]);
    assert codes[..i] + [codes[i]] == codes[..i + 1];
  }

  lemma {:induction false} MissingCodesAppend(roles: seq<RoleEntity>, a: seq<RoleCode>, b: seq<RoleCode>)
    ensures MissingCodes(roles, a + b) == MissingCodes(roles, a) + MissingCodes(roles, b)
  {
    if a != [] {
      var head := if ExistsByCode(roles, Code(a[0])) then [] else [a[0]];
      assert (a + b)[0] == a[0];
      assert (a + b)[1..] == a[1..] + b;
      assert MissingCodes(roles, a + b) == head + MissingCodes(roles, a[1..] + b);
      MissingCodesAppend(roles, a[1..], b);
      assert MissingCodes(roles, a) == head + MissingCodes(roles, a[1..]);
    } else {
      assert a + b == b;
    }
  }

  /** A table with one more row has exactly one more code: the row's. */
  lemma AppendedRowCodes(before: seq<RoleEntity>, row: RoleEntity)
    ensures forall code :: ExistsByCode(before + [row], code) <==> ExistsByCode(before, code) || row.code == Some(code)
  {
    var after := before + [row];
    forall code
      ensures ExistsByCode(after, code) <==> ExistsByCode(before, code) || row.code == Some(code)
    {
      if ExistsByCode(before, code) {
        var k :| 0 <= k < |before| && before[k].code == Some(code);
        assert after[k] == before[k];
      }
      if row.code == Some(code) {
        assert after[|before|] == row;
      }
      if ExistsByCode(after, code) {
        var k :| 0 <= k < |after| && after[k].code == Some(code);
        if k < |before| {
          assert before[k] == after[k];
        }
      }
    }
  }
}
