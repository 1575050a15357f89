# API gateway management: authentication core

A model of the authentication core of the API gateway management backend.

**Sessions.** `AuthService` logs a user in, rotates refresh tokens, logs a user out and seeds the built-in roles. It works over two things:
- the user and role tables;
- a key–value session store that holds one refresh token per user under `refresh_token:<userId>`, with a time-to-live.

**Tokens.** `JwtService` issues and inspects JSON Web Tokens (RFC 7519), signed with HMAC-SHA (RFC 7518 section 3.2):
- the subject (RFC 7519 section 4.1.2) is the user's email;
- `iat` and `exp` (sections 4.1.6 and 4.1.4) are whole seconds: jjwt cuts the milliseconds of the issue instant and of issue + lifetime;
- the private claims are `userId` and `type` (`access` or `refresh`).

**Around them:**
- the entity mappers and the persistence adapters, including the role-resolution rule of `createUser`;
- the `LoginResponse.UserInfo` projection and the `ROLE_`-prefixed authorities of `UserDetailsServiceImpl`;
- the start-up `DataInitializer`;
- the `KongServiceRequest` constraints and `KongServiceMapper`;
- `IndexController.formatUptime` and `getActiveProfiles`;
- the `ApiResponse` factories.

**Modelling choices:**
- The session store, the tables and their identity counters are fields of two classes, `Auth.AuthService` and `Repository.Database`, whose methods update them.
- Each state-changing operation is specified by a pure step function (`LoginStep`, `RefreshStep`, `LogoutStep`), and the properties are proved about those functions.
- A token is an abstract encoding of its claims. A signed token carries a symbolic HMAC that depends on exactly the key and the claims. Decoding takes the clock `now` (epoch milliseconds) as a parameter.
- Clocks are parameters everywhere.
- The password encoder is a pair of uninterpreted functions. Its one assumed property is that a password matches its own hash (`Passwords.Sound`).

**As written.** The model follows the code where it departs from the written description of the system:
- An inactive account fails login with a bad-credentials error ("User is not active"), the same kind of error as a wrong password. It is not a separate error kind.
- `isTokenExpired` rethrows a malformed-token failure rather than returning false.
- The "with roles" user lookups map rows through `UserEntityMapper.toModel`, so the role set is never populated. As a result:
  - the user a login reports has a null role list;
  - `loadUserByUsername` can never succeed.
- Tokens are deterministic and their times are whole seconds. A refresh in the same second as the token's issue, for a user whose email is unchanged, therefore returns and stores the very token it consumed, so that token stays valid (`Auth.RefreshSameSecondKeepsToken`).
- `RoleRepositoryImpl.getRoleByCode` passes a missing row to `toModel`. It therefore throws a null-pointer exception, and the "Admin role not found" check in `DataInitializer` is never reached.

## Model

All source paths are under `backend/src/main/java/io/github/haiphamcoder/gateway/`.

| member | source | states |
|---|---|---|
| Common.JavaDiv | backend/src/main/java/io/github/haiphamcoder/gateway/layer/application/service/AuthService.java:64 | Java's `/` on longs truncates toward zero: the quotient of a non-negative dividend is the floor quotient, and a negative dividend gives the negated quotient of its magnitude |
| Domain.ToEpochMilli | backend/src/main/java/io/github/haiphamcoder/gateway/layer/infrastructure/persistence/mysql/mapper/UserEntityMapper.java:33-38 | the whole milliseconds of an instant: the instant lies in the millisecond the result names |
| Domain.OfEpochMilli | backend/src/main/java/io/github/haiphamcoder/gateway/layer/infrastructure/persistence/mysql/mapper/UserEntityMapper.java:82-83 | inverse of `ToEpochMilli` on milliseconds; the instant has no sub-millisecond part |
| Domain.RoleCodesDistinct | backend/src/main/java/io/github/haiphamcoder/gateway/layer/application/domain/model/auth/Role.java:52-57 | every role code appears in `values()` once; the four code strings are pairwise distinct; equal code strings mean the same code |
| Domain.BuildUser | backend/src/main/java/io/github/haiphamcoder/gateway/layer/application/domain/model/auth/User.java:35-52 | a built user gets the given email, hash and name, locale "en", status ACTIVE, no id, a null role set, and both timestamps set to now |
| Domain.NewRole | backend/src/main/java/io/github/haiphamcoder/gateway/layer/application/domain/model/auth/Role.java:44-48 | the two-argument constructor sets code and description only: id, users and both timestamps stay null |
| EntityMappers.ToTimestamp | backend/src/main/java/io/github/haiphamcoder/gateway/layer/infrastructure/persistence/mysql/mapper/UserEntityMapper.java:33-38 | null stays null; otherwise the timestamp is the millisecond containing the instant |
| EntityMappers.ToInstant | backend/src/main/java/io/github/haiphamcoder/gateway/layer/infrastructure/persistence/mysql/mapper/UserEntityMapper.java:82-83 | null stays null, and converting the result back gives the original timestamp |
| EntityMappers.UserToEntity | backend/src/main/java/io/github/haiphamcoder/gateway/layer/infrastructure/persistence/mysql/mapper/UserEntityMapper.java:21-40 | copies every scalar field, converts timestamps, keeps a null role set null and maps a non-null one to exactly the image of its roles under `RoleToEntity` |
| EntityMappers.RoleToEntity | backend/src/main/java/io/github/haiphamcoder/gateway/layer/infrastructure/persistence/mysql/mapper/RoleEntityMapper.java:21-32 | copies id, code and description, converts timestamps, keeps a null user set null and maps a non-null one to exactly the image of its users under `UserToEntity` |
| EntityMappers.UserToModel | backend/src/main/java/io/github/haiphamcoder/gateway/layer/infrastructure/persistence/mysql/mapper/UserEntityMapper.java:74-85 | copies the scalar fields and timestamps and never sets the role set |
| EntityMappers.RoleToModel | backend/src/main/java/io/github/haiphamcoder/gateway/layer/infrastructure/persistence/mysql/mapper/RoleEntityMapper.java:34-42 | copies id, code, description and timestamps and never sets the user set |
| EntityMappers.UserWithoutCredentials | backend/src/main/java/io/github/haiphamcoder/gateway/layer/infrastructure/persistence/mysql/mapper/RoleEntityMapper.java:57-69 | a user loaded through a role carries no password hash and no roles, and copies id, email, name, locale, status and both timestamps |
| EntityMappers.UserToModelWithRoles | backend/src/main/java/io/github/haiphamcoder/gateway/layer/infrastructure/persistence/mysql/mapper/UserEntityMapper.java:42-72 | the loop sets roles exactly when the row's role set is non-null and non-empty, and then to the mapped image of every role row; everything else agrees with `toModel` |
| EntityMappers.RoleToModelWithUsers | backend/src/main/java/io/github/haiphamcoder/gateway/layer/infrastructure/persistence/mysql/mapper/RoleEntityMapper.java:44-75 | the loop sets users exactly when the row's user set is non-null and non-empty, to the credential-free image of every user row; no loaded user carries a hash |
| EntityMappers.UserRoundTrip | backend/src/main/java/io/github/haiphamcoder/gateway/layer/infrastructure/persistence/mysql/mapper/UserEntityMapper.java:21-85 | `toModel(toEntity(u))` is `u` with timestamps truncated to milliseconds and the role set dropped |
| EntityMappers.UserEntityRoundTrip | backend/src/main/java/io/github/haiphamcoder/gateway/layer/infrastructure/persistence/mysql/mapper/UserEntityMapper.java:21-85 | `toEntity(toModel(e))` is the row less its role set |
| EntityMappers.RoleRoundTrip | backend/src/main/java/io/github/haiphamcoder/gateway/layer/infrastructure/persistence/mysql/mapper/RoleEntityMapper.java:21-42 | `toModel(toEntity(r))` keeps id, code and description, truncates timestamps to milliseconds and drops the user set |
| Passwords.HashPassword | backend/src/main/java/io/github/haiphamcoder/gateway/layer/application/service/PasswordHasher.java:20-22 | under a sound encoder, a password verifies against its own hash |
| Passwords.VerifyPassword | backend/src/main/java/io/github/haiphamcoder/gateway/layer/application/service/PasswordHasher.java:31-33 | a null stored hash never matches |
| Jwt.CreateToken | backend/src/main/java/io/github/haiphamcoder/gateway/layer/application/service/JwtService.java:48-59 | a signed token whose subject is the email, whose `userId` and `type` are the given ones, with `iat` the second of now and `exp` the second of now + lifetime (milliseconds cut toward zero), signed with the configured key |
| Jwt.EpochSeconds | backend/src/main/java/io/github/haiphamcoder/gateway/layer/application/service/JwtService.java:49-56 | a Date claim is written as whole seconds: the millisecond instant lies in the second named, cut toward zero for instants before the epoch |
| Jwt.CreateTokenDeterministic | backend/src/main/java/io/github/haiphamcoder/gateway/layer/application/service/JwtService.java:48-59 | two tokens issued with the same arguments are identical exactly when their `iat` and `exp` fall in the same seconds |
| Jwt.ExtractAllClaims | backend/src/main/java/io/github/haiphamcoder/gateway/layer/application/service/JwtService.java:75-97 | decodes exactly when the signature verifies under the configured key and now is not past the `exp` second, returning the token's claims; otherwise each failure kind in both directions: Expired, Unsupported for an unsigned token, Malformed for non-blank garbage |
| Jwt.ExtractClaim | backend/src/main/java/io/github/haiphamcoder/gateway/layer/application/service/JwtService.java:99-102 | fails exactly when decoding fails, with the same failure, and otherwise applies the resolver to the claims |
| Jwt.ExtractEmail | backend/src/main/java/io/github/haiphamcoder/gateway/layer/application/service/JwtService.java:104-106 | fails exactly as decoding fails; otherwise the token's subject |
| Jwt.ExtractUserId | backend/src/main/java/io/github/haiphamcoder/gateway/layer/application/service/JwtService.java:108-110 | fails exactly as decoding fails; otherwise the token's `userId` claim |
| Jwt.ExtractTokenType | backend/src/main/java/io/github/haiphamcoder/gateway/layer/application/service/JwtService.java:112-114 | fails exactly as decoding fails; otherwise the token's `type` claim |
| Jwt.ExpiryMillis | backend/src/main/java/io/github/haiphamcoder/gateway/layer/application/service/JwtService.java:116-118 | `exp` read back as a Date: null exactly when absent, otherwise the `exp` second in milliseconds |
| Jwt.ExtractExpiration | backend/src/main/java/io/github/haiphamcoder/gateway/layer/application/service/JwtService.java:116-118 | fails exactly as decoding fails; otherwise the `exp` Date, which is never before now |
| Jwt.GenerateAccessToken | backend/src/main/java/io/github/haiphamcoder/gateway/layer/application/service/JwtService.java:61-66 | type "access", `iat` and `exp` the seconds of issue and of issue + access lifetime; decodes at a time exactly when that time is not past the `exp` second, and decodes to Expired after it |
| Jwt.GenerateRefreshToken | backend/src/main/java/io/github/haiphamcoder/gateway/layer/application/service/JwtService.java:68-73 | the same for type "refresh" and the refresh lifetime |
| Jwt.IsTokenExpired | backend/src/main/java/io/github/haiphamcoder/gateway/layer/application/service/JwtService.java:120-126 | true exactly on an Expired decode; false exactly when the token decodes with an `exp`; a missing `exp` throws; every other parse failure (Malformed, Unsupported, Invalid) is rethrown instead of returning false |
| Jwt.ValidateToken | backend/src/main/java/io/github/haiphamcoder/gateway/layer/application/service/JwtService.java:128-136 | true exactly when the token decodes, carries an `exp` and its subject is the email; every failure gives false |
| Jwt.IsAccessToken | backend/src/main/java/io/github/haiphamcoder/gateway/layer/application/service/JwtService.java:138-145 | true exactly when the token decodes with type "access"; false, never an exception, on a decode failure or a missing type |
| Jwt.IsRefreshToken | backend/src/main/java/io/github/haiphamcoder/gateway/layer/application/service/JwtService.java:147-154 | true exactly when the token decodes with type "refresh"; never true together with `IsAccessToken` |
| Jwt.ForeignKeyRejected | backend/src/main/java/io/github/haiphamcoder/gateway/layer/application/service/JwtService.java:44-59 | a token issued under one key decodes to Invalid under any other key |
| Jwt.IssuedKindsDiscriminated | backend/src/main/java/io/github/haiphamcoder/gateway/layer/application/service/JwtService.java:138-154 | while alive, an issued access token is an access token and not a refresh token, and the reverse for a refresh token; an access token validates for its email |
| Jwt.IssuedTokenRoundTrip | backend/src/main/java/io/github/haiphamcoder/gateway/layer/application/service/JwtService.java:104-114 | before expiry, extracting the email, the user id and the type of an issued token gives back the values it was issued with |
| LoginResponses.BuildLoginResponse | backend/src/main/java/io/github/haiphamcoder/gateway/layer/application/domain/model/auth/LoginResponse.java:29-31 | the token type defaults to "Bearer"; the other fields are the given ones |
| LoginResponses.UserInfoOf | backend/src/main/java/io/github/haiphamcoder/gateway/layer/application/domain/model/auth/LoginResponse.java:61-69 | copies id, email, name and locale; the role list is null exactly when the user's role set is; a code is in it exactly when some role of the user has that code |
| LoginResponses.RoleCodesNoLarger | backend/src/main/java/io/github/haiphamcoder/gateway/layer/application/domain/model/auth/LoginResponse.java:67 | collecting codes into a set never gives more codes than roles |
| LoginResponses.RoleCodesNoMoreThanRoles | backend/src/main/java/io/github/haiphamcoder/gateway/layer/application/domain/model/auth/LoginResponse.java:66-68 | a user with a role set gets a role list no larger than that set |
| Repository.FindUserByEmail | backend/src/main/java/io/github/haiphamcoder/gateway/layer/infrastructure/persistence/mysql/repository/jpa/UserEntityJpaRepository.java:15-20 | empty exactly when no row has the email; otherwise a row of the table with that email |
| Repository.FindUserById | backend/src/main/java/io/github/haiphamcoder/gateway/layer/infrastructure/persistence/mysql/repository/jpa/UserEntityJpaRepository.java:22-23 | empty exactly when the id is null or no row has it; otherwise a row of the table with that id |
| Repository.FindRoleById | backend/src/main/java/io/github/haiphamcoder/gateway/layer/infrastructure/persistence/mysql/repository/UserRepositoryImpl.java:63 | empty exactly when no role row has the id; otherwise a row of the table with that id |
| Repository.FindRoleByCode | backend/src/main/java/io/github/haiphamcoder/gateway/layer/infrastructure/persistence/mysql/repository/jpa/RoleEntityJpaRepository.java:13 | a row it finds belongs to the table and has that code (when it finds none is stated by `ExistsByCode`) |
| Repository.ExistsByCode | backend/src/main/java/io/github/haiphamcoder/gateway/layer/infrastructure/persistence/mysql/repository/RoleRepositoryImpl.java:19-22 | true exactly when some row has that code |
| Repository.GetUserByEmail | backend/src/main/java/io/github/haiphamcoder/gateway/layer/infrastructure/persistence/mysql/repository/UserRepositoryImpl.java:77-82 | null exactly when no row has that email; otherwise `toModel` of the first such row |
| Repository.GetUserByEmailWithRoles | backend/src/main/java/io/github/haiphamcoder/gateway/layer/infrastructure/persistence/mysql/repository/UserRepositoryImpl.java:27-32 | the same user as the plain lookup, and its role set is never populated |
| Repository.GetUserByIdWithRoles | backend/src/main/java/io/github/haiphamcoder/gateway/layer/infrastructure/persistence/mysql/repository/UserRepositoryImpl.java:34-39 | null exactly when the id is null or no row has it; otherwise `toModel` of the first such row, without roles |
| Repository.GetRoleByCode | backend/src/main/java/io/github/haiphamcoder/gateway/layer/infrastructure/persistence/mysql/repository/RoleRepositoryImpl.java:31-34 | succeeds exactly when the code exists, with that code and the row's id; a missing code throws a null-pointer exception instead of returning null |
| Repository.GetExistingRoleEntity | backend/src/main/java/io/github/haiphamcoder/gateway/layer/infrastructure/persistence/mysql/repository/UserRepositoryImpl.java:60-75 | a role with an id resolves by id alone, else fails naming the id; with no id but a code, it resolves by code, else fails naming the code; with neither, it fails |
| Repository.LinkedRoles | backend/src/main/java/io/github/haiphamcoder/gateway/layer/infrastructure/persistence/mysql/repository/UserRepositoryImpl.java:47-55 | a null role set stays null; a non-empty one is replaced by the rows its roles resolve to, all of them already in the roles table |
| Repository.SaveUserKeepsIdsValid | backend/src/main/java/io/github/haiphamcoder/gateway/layer/infrastructure/persistence/mysql/repository/UserRepositoryImpl.java:57 | saving a user row keeps every id present, distinct and below the identity counter, and the saved row is found by its id |
| Repository.SaveRoleKeepsIdsValid | backend/src/main/java/io/github/haiphamcoder/gateway/layer/infrastructure/persistence/mysql/repository/RoleRepositoryImpl.java:28 | the same for role rows |
| Repository.Database.SaveUser | backend/src/main/java/io/github/haiphamcoder/gateway/layer/infrastructure/persistence/mysql/repository/UserRepositoryImpl.java:57 | a row whose id is stored replaces that row in place; any other row is appended with the next identity; the roles table is untouched |
| Repository.Database.SaveRole | backend/src/main/java/io/github/haiphamcoder/gateway/layer/infrastructure/persistence/mysql/repository/RoleRepositoryImpl.java:28 | the same for the roles table, leaving the users table untouched |
| Repository.Database.CreateRole | backend/src/main/java/io/github/haiphamcoder/gateway/layer/infrastructure/persistence/mysql/repository/RoleRepositoryImpl.java:24-29 | stores the mapped role and returns it with an id, its code and description, and no users |
| Repository.Database.CreateUser | backend/src/main/java/io/github/haiphamcoder/gateway/layer/infrastructure/persistence/mysql/repository/UserRepositoryImpl.java:41-58 | fails exactly when some role of a non-empty role set does not resolve, and then stores nothing; otherwise stores the mapped user linked only to existing role rows; the roles table never changes |
| UserDetailsService.Authority | backend/src/main/java/io/github/haiphamcoder/gateway/layer/infrastructure/security/service/UserDetailsServiceImpl.java:26 | an authority is the prefix "ROLE_" followed by the role's code, a null code rendering as "null" |
| UserDetailsService.Authorities | backend/src/main/java/io/github/haiphamcoder/gateway/layer/infrastructure/security/service/UserDetailsServiceImpl.java:26-27 | exactly the authorities of the roles in the set |
| UserDetailsService.UserDetailsOf | backend/src/main/java/io/github/haiphamcoder/gateway/layer/infrastructure/security/service/UserDetailsServiceImpl.java:23-28 | a null hash or an empty email is an illegal argument and a null role set throws; otherwise the username is the email, the password is the hash, the authorities are those of the roles, all prefixed "ROLE_" |
| UserDetailsService.LoadUserByUsername | backend/src/main/java/io/github/haiphamcoder/gateway/layer/infrastructure/security/service/UserDetailsServiceImpl.java:17-29 | fails with "User not found with email: " + email exactly when no row has that email |
| UserDetailsService.LoadUserByUsernameNeverSucceeds | backend/src/main/java/io/github/haiphamcoder/gateway/layer/infrastructure/security/service/UserDetailsServiceImpl.java:19-28 | as written no lookup ever succeeds: a stored user fails with a null role set or an illegal argument |
| UserDetailsService.AuthorityInjective | backend/src/main/java/io/github/haiphamcoder/gateway/layer/infrastructure/security/service/UserDetailsServiceImpl.java:26 | equal authorities come from equally rendered codes |
| UserDetailsService.BuiltInAuthorities | backend/src/main/java/io/github/haiphamcoder/gateway/layer/infrastructure/security/service/UserDetailsServiceImpl.java:26 | a built-in role's authority is "ROLE_" + its code, and the four built-in authorities are distinct |
| Auth.KeyFor | backend/src/main/java/io/github/haiphamcoder/gateway/layer/application/service/AuthService.java:25 | the session key is "refresh_token:" followed by the user id as `Long.toString` writes it, or by "null" for a null id |
| Auth.KeyForInjective | backend/src/main/java/io/github/haiphamcoder/gateway/layer/application/service/AuthService.java:25 | two users, or a user and a null id, never share a session key |
| Auth.Respond | backend/src/main/java/io/github/haiphamcoder/gateway/layer/application/service/AuthService.java:60-65 | a "Bearer" response with the two tokens and the user's info; `expiresIn` is the access lifetime divided by 1000 with truncation, so it is the whole seconds of a non-negative lifetime |
| Auth.LoginStep | backend/src/main/java/io/github/haiphamcoder/gateway/layer/application/service/AuthService.java:36-67 | checks in order: unknown email ("User not found with email: "), wrong password ("Invalid password"), inactive ("User is not active"); a failure writes nothing; success sets only the user's key to the new refresh token, for 30 days with remember-me and 7 hours without |
| Auth.RefreshStep | backend/src/main/java/io/github/haiphamcoder/gateway/layer/application/service/AuthService.java:69-108 | succeeds exactly when the token decodes as a refresh token, the stored token for its user id equals it, and that user exists and is active; every failure is "Invalid token" and leaves the store unchanged; success stores a new refresh token for 7 hours and issues tokens with the user's current email |
| Auth.LogoutStep | backend/src/main/java/io/github/haiphamcoder/gateway/layer/application/service/AuthService.java:110-113 | the user's key is absent afterwards and every other key is unchanged |
| Auth.MissingCodesMembers | backend/src/main/java/io/github/haiphamcoder/gateway/layer/application/service/AuthService.java:116-117 | the codes seeding would create are exactly the listed codes without a row |
| Auth.LoginTouchesOnlyItsKey | backend/src/main/java/io/github/haiphamcoder/gateway/layer/application/service/AuthService.java:52-58 | every key other than the logged-in user's keeps its value |
| Auth.LoginReportsNoRoles | backend/src/main/java/io/github/haiphamcoder/gateway/layer/application/service/AuthService.java:38 | as written, a successful login reports a null role list |
| Auth.LoginThenRefresh | backend/src/main/java/io/github/haiphamcoder/gateway/layer/application/service/AuthService.java:36-108 | with distinct ids, the refresh token a login returns is accepted by refresh until it expires |
| Auth.RefreshRotates | backend/src/main/java/io/github/haiphamcoder/gateway/layer/application/service/AuthService.java:95-96 | once a refresh has stored a different token, the consumed token is refused |
| Auth.RefreshIssuesNewToken | backend/src/main/java/io/github/haiphamcoder/gateway/layer/application/service/AuthService.java:93 | a refresh in a different second than the consumed token's `iat` returns a different refresh token |
| Auth.RefreshSameSecondKeepsToken | backend/src/main/java/io/github/haiphamcoder/gateway/layer/application/service/AuthService.java:69-108 | as written, a refresh in the same second as the token's issue (with `exp` in the same second) for a user with an unchanged email returns and stores the very token it consumed, which stays accepted |
| Auth.LogoutThenRefreshFails | backend/src/main/java/io/github/haiphamcoder/gateway/layer/application/service/AuthService.java:78-81 | after logout no token of that user is accepted by refresh |
| Auth.LogoutIdempotentAndLocal | backend/src/main/java/io/github/haiphamcoder/gateway/layer/application/service/AuthService.java:110-113 | logging out twice is logging out once, and another user's session survives |
| Auth.AuthService.Login | backend/src/main/java/io/github/haiphamcoder/gateway/layer/application/service/AuthService.java:36-67 | the guard chain returns the result of `LoginStep` and leaves the store as it says |
| Auth.AuthService.RefreshToken | backend/src/main/java/io/github/haiphamcoder/gateway/layer/application/service/AuthService.java:69-108 | the guard chain returns the result of `RefreshStep` and leaves the store as it says |
| Auth.AuthService.Logout | backend/src/main/java/io/github/haiphamcoder/gateway/layer/application/service/AuthService.java:110-113 | the store becomes `LogoutStep` of the old store |
| Auth.AuthService.CreateRoleIfAbsent | backend/src/main/java/io/github/haiphamcoder/gateway/layer/application/service/AuthService.java:117-121 | a present code leaves the table as it was; a missing one appends exactly one row with that code and its description; the codes present grow by that code alone |
| Auth.AuthService.InitializeDefaultRoles | backend/src/main/java/io/github/haiphamcoder/gateway/layer/application/service/AuthService.java:115-123 | existing rows are kept as a prefix; exactly one row per missing code is appended, in declaration order; afterwards every code exists; when all existed, nothing changes, so a second run is a no-op |
| Bootstrap.StoredRoleResolves | backend/src/main/java/io/github/haiphamcoder/gateway/layer/infrastructure/persistence/mysql/repository/UserRepositoryImpl.java:62-65 | a role read by code resolves by its id back to the row it was read from |
| Bootstrap.SeededAdminCanLogIn | backend/src/main/java/io/github/haiphamcoder/gateway/config/DataInitializer.java:45-53 | under a sound encoder, the seeded administrator can log in with "admin@123" |
| Bootstrap.DataInitializer.InitializeAdminUser | backend/src/main/java/io/github/haiphamcoder/gateway/config/DataInitializer.java:38-58 | an existing admin email changes nothing; a missing ADMIN role throws a null-pointer exception and stores nothing; otherwise one row is appended with "admin@example.com", "Administrator", locale "en", ACTIVE, the hash of "admin@123" and exactly the ADMIN role |
| Bootstrap.DataInitializer.Run | backend/src/main/java/io/github/haiphamcoder/gateway/config/DataInitializer.java:27-31 | roles before the admin: afterwards every built-in role and the admin exist, and a run over that state changes nothing |
| KongServices.Valid | backend/src/main/java/io/github/haiphamcoder/gateway/layer/presentation/rest/dto/request/KongServiceRequest.java:24-53 | the bean-validation constraints of the request; a valid request has a non-empty name and URL, and retries, when set, between 0 and 10 |
| KongServices.Violations | backend/src/main/java/io/github/haiphamcoder/gateway/layer/presentation/rest/dto/request/KongServiceRequest.java:24-53 | no violation exactly when the request is valid; name and URL are required when null or blank; retries above 10 are reported |
| KongServices.BuildRequest | backend/src/main/java/io/github/haiphamcoder/gateway/layer/presentation/rest/dto/request/KongServiceRequest.java:31-53 | with the defaults 30000/30000/30000/5, a built request is valid exactly when its name and URL are |
| KongServices.PatternImpliesNotBlank | backend/src/main/java/io/github/haiphamcoder/gateway/layer/presentation/rest/dto/request/KongServiceRequest.java:24-26 | a name matching `[A-Za-z0-9.-]+` is never blank |
| KongServices.BlankNameReportsBoth | backend/src/main/java/io/github/haiphamcoder/gateway/layer/presentation/rest/dto/request/KongServiceRequest.java:24-26 | a non-null blank name violates both name constraints |
| KongServices.ToKongService | backend/src/main/java/io/github/haiphamcoder/gateway/layer/presentation/rest/mapper/KongServiceMapper.java:22-32 | copies name, url, the three timeouts, retries and tags; id, protocol, host, port, path and timestamps stay null |
| KongServices.ToKongServiceRequest | backend/src/main/java/io/github/haiphamcoder/gateway/layer/presentation/rest/mapper/KongServiceMapper.java:10-20 | copies the same seven fields back; a null stays null |
| KongServices.RequestRoundTrip | backend/src/main/java/io/github/haiphamcoder/gateway/layer/presentation/rest/mapper/KongServiceMapper.java:10-32 | request to service and back is the identity, so validity is kept |
| KongServices.ServiceRoundTrip | backend/src/main/java/io/github/haiphamcoder/gateway/layer/presentation/rest/mapper/KongServiceMapper.java:10-32 | service to request and back is the identity exactly when the fields the request lacks are null |
| IndexInfo.Parts | backend/src/main/java/io/github/haiphamcoder/gateway/layer/presentation/rest/controller/IndexController.java:127-131 | hours < 24, minutes < 60, seconds < 60, and days·86400 + hours·3600 + minutes·60 + seconds = the whole seconds |
| IndexInfo.Segments | backend/src/main/java/io/github/haiphamcoder/gateway/layer/presentation/rest/controller/IndexController.java:133-141 | one to four units, always ending with the seconds |
| IndexInfo.FormatUptime | backend/src/main/java/io/github/haiphamcoder/gateway/layer/presentation/rest/controller/IndexController.java:122-142 | "N/A" exactly for a non-positive uptime |
| IndexInfo.RenderJoinsSegments | backend/src/main/java/io/github/haiphamcoder/gateway/layer/presentation/rest/controller/IndexController.java:133-141 | each of the four format strings is its units joined by single spaces |
| IndexInfo.FormatUptimeSegments | backend/src/main/java/io/github/haiphamcoder/gateway/layer/presentation/rest/controller/IndexController.java:122-142 | the text is the largest non-zero unit followed by every smaller one, and splitting at spaces gives those units back |
| IndexInfo.LeadingUnitNonZero | backend/src/main/java/io/github/haiphamcoder/gateway/layer/presentation/rest/controller/IndexController.java:133-141 | for a second or more of uptime, the leading unit is non-zero |
| IndexInfo.SubSecondUptime | backend/src/main/java/io/github/haiphamcoder/gateway/layer/presentation/rest/controller/IndexController.java:122-142 | 1 to 999 ms formats as "0s" |
| IndexInfo.FormatUptimeInjective | backend/src/main/java/io/github/haiphamcoder/gateway/layer/presentation/rest/controller/IndexController.java:122-142 | two positive uptimes print alike only when they have the same whole seconds |
| IndexInfo.ActiveProfiles | backend/src/main/java/io/github/haiphamcoder/gateway/layer/presentation/rest/controller/IndexController.java:149-152 | "default" when no profile is active |
| IndexInfo.ActiveProfilesSplit | backend/src/main/java/io/github/haiphamcoder/gateway/layer/presentation/rest/controller/IndexController.java:149-152 | when profiles contain no comma, splitting the summary at commas gives the profiles back |
| ApiResponses.SuccessOf | backend/src/main/java/io/github/haiphamcoder/gateway/utility/common/ApiResponse.java:55-57 | success, code "OK", message "Operation completed successfully", no metadata; the general success factory with those arguments |
| ApiResponses.SuccessWithMetadata | backend/src/main/java/io/github/haiphamcoder/gateway/utility/common/ApiResponse.java:68-71 | the same with the given metadata |
| ApiResponses.SuccessWithMessage | backend/src/main/java/io/github/haiphamcoder/gateway/utility/common/ApiResponse.java:82-84 | success, code "OK", the given message, no metadata |
| ApiResponses.SuccessWithMessageAndMetadata | backend/src/main/java/io/github/haiphamcoder/gateway/utility/common/ApiResponse.java:98-100 | success, code "OK", and the given message, data and metadata |
| ApiResponses.ErrorOf | backend/src/main/java/io/github/haiphamcoder/gateway/utility/common/ApiResponse.java:110-112 | failure with the given code and message, no data and no metadata |
| ApiResponses.ErrorWithMetadata | backend/src/main/java/io/github/haiphamcoder/gateway/utility/common/ApiResponse.java:124-126 | failure with the given code, message and metadata, and no data |
| ApiResponses.ErrorWithData | backend/src/main/java/io/github/haiphamcoder/gateway/utility/common/ApiResponse.java:138-140 | failure with the given code, message and data, and no metadata |
| ApiResponses.ErrorWithDataAndMetadata | backend/src/main/java/io/github/haiphamcoder/gateway/utility/common/ApiResponse.java:153-155 | failure, keeping code, message, data and metadata |
| ApiResponses.SuccessAndErrorDisjoint | backend/src/main/java/io/github/haiphamcoder/gateway/utility/common/ApiResponse.java:55-155 | no error envelope equals a success envelope or has the success shape, even with the code "OK" |

## Left out

- JWT signing, HMAC key derivation, Base64url and JSON encoding, and jjwt parsing are foreign code. A token is an abstract claims record with a symbolic signature, so MAC forgery and collisions are not modelled.
- Expiry is decided by the clock `now` given to each call. The clock skew between parsing and the `new Date()` comparison in `isTokenExpired` is not modelled.
- Passwords: the encoder (bcrypt) is uninterpreted. Only "a password matches its own hash" is assumed.
- Redis: the stored time-to-live is recorded but never enforced over real time. Connection failures and concurrent refreshes (last writer wins) are not modelled.
- Repository.Database.CreateUser: states that a failed save reports the error of some unresolvable role, not which one. The source reports the first in hash-set iteration order, which Java leaves unspecified.
- The database's unique-email constraint, JPA auditing of timestamps, cascades and transaction rollback are not modelled. Lookups return the first matching row.
- `Instant.toEpochMilli` overflow (ArithmeticException) is not modelled. Integers are unbounded, and Java's `long` limits are never reached in the modelled flows.
- The cyclic user↔role object graph is cut to one level of nesting.
- `ApiResponse` takes non-null codes and messages; a null code or message argument is not modelled. Metadata values are kept as opaque strings.
- Logging, the HTTP controllers, exception handlers, security filters and the Kong admin client and its service are outside this model.
- `formatMemorySize` and `calculateMemoryUsagePercent` are floating point, and `buildServiceInfo` reads JVM state; all three are left out.
