# recipeak accounts and authentication, modelled in Dafny

This project models the account and authentication core of the recipeak
Spring Boot service. It covers:

- the user record (`AppUser`) and the repository of records;
- `UserService`: validity, password checks, authentication, creation,
  profile and password changes, paging;
- the two `JwtTokenProvider`s and the two `AppUserDetailsService`s;
- `AppUserDetails`;
- the two request filters (`JwtTokenFilter`, `UserValiditySecurityFilter`)
  acting on the security context;
- the user, login and base controllers;
- the exception-to-response mapping of `ResourceControllerAdvice`;
- the messages of `ResourceNotFoundException`.

The model makes these modelling choices:

- **Clock.** The clock is an explicit `now` parameter in milliseconds.
  `plusYears(1000)` is the constant `ThousandYears`.
- **Passwords.** BCrypt is a salted stand-in hash. The salt, which BCrypt
  draws at random, is a parameter. The only fact any proof uses is that a
  password matches its own encoding.
- **Tokens.** A JWT is a concrete text codec over its claims: subject,
  roles, issued-at and expiration. Decoding an encoded token is proved to
  return the same claims.
- **Repository.** The repository (`UserDAO`) is a class holding a map from
  id to record, the insertion order and the next generated id.
  - Usernames are unique by the type of the map, matching the unique
    username column.
  - `Saved` and `Deleted` define what `save` and `delete` do to that state.
- **Security context.** The security context is an object with one mutable
  `authentication` field.
  - The rest of the filter chain records the authentication it sees at each call.
  - `hasAuthority('ADMINISTRATOR')` is a precondition of the endpoints it guards.
- **Exceptions.** An exception is a `Failure` value inside `Result` or `Outcome`.
- **Kotlin runtime errors.** Kotlin's `!!` on null and a failing cast are
  the failures `NullPointer` and `ClassCast`.

## Model

| member | source | states |
|---|---|---|
| Users.Create | src/main/kotlin/com/micellaneous/recipeak/model/AppUser.kt:8-27 | a record carries the given id, username, hash, profile, type and window, and starts active |
| Users.NewUser | src/main/kotlin/com/micellaneous/recipeak/model/AppUser.kt:29-33 | the six-argument constructor gives id -1, starts active, and has validFrom = now < expireDate = now + 1000 years |
| Users.NewPlainUser | src/main/kotlin/com/micellaneous/recipeak/model/AppUser.kt:36-37 | the five-argument constructor is the six-argument one with type USER |
| Users.ToString | src/main/kotlin/com/micellaneous/recipeak/model/AppUser.kt:40-42 | the rendering lists id, username, password, name, surname and email in that order, inside braces |
| Users.ToStringIdentifiesId | src/main/kotlin/com/micellaneous/recipeak/model/AppUser.kt:40-42 | the rendering starts with the decimal id, so equal renderings have equal ids |
| Dto.NewUserInput | src/main/kotlin/com/micellaneous/recipeak/model/dto/input/UserDTOInput.kt:16-17 | the short constructor makes an active input with the given fields |
| Dto.Project | src/main/kotlin/com/micellaneous/recipeak/model/dto/output/UserDTOOutput.kt:13 | the output keeps id, username, name, surname and email of the record |
| Dto.ProjectAll | src/main/kotlin/com/micellaneous/recipeak/model/dto/output/UserDTOOutput.kt:5-13 | the output list projects each record to (id, username, name, surname, email), in order |
| Passwords.Encode | src/main/kotlin/com/micellaneous/recipeak/service/UserService.kt:39 | the BCrypt encode call, here and at lines 56 and 72: a password matches the hash made of it, which is what the matches call at lines 94-95 checks |
| NotFoundMessages.ForId | src/main/kotlin/com/micellaneous/recipeak/exception/ResourceNotFoundException.kt:4 | the message is the simple name, " #", the id and " not found" |
| NotFoundMessages.ForIdInjective | src/main/kotlin/com/micellaneous/recipeak/exception/ResourceNotFoundException.kt:4 | two messages for one class are equal exactly when the ids are |
| NotFoundMessages.ForIntId | src/main/kotlin/com/micellaneous/recipeak/exception/ResourceNotFoundException.kt:5 | the Int constructor is the string one on the decimal rendering, and the id parses back from the message |
| NotFoundMessages.ForIntIdInjective | src/main/kotlin/com/micellaneous/recipeak/exception/ResourceNotFoundException.kt:5 | distinct ids, negatives included, give distinct messages |
| NotFoundMessages.AppUserNotFound | src/main/kotlin/com/micellaneous/recipeak/service/UserService.kt:33 | the message for a missing AppUser starts "AppUser #", ends " not found", and holds the id |
| NotFoundMessages.AppUserMinusOne | src/main/kotlin/com/micellaneous/recipeak/exception/ResourceNotFoundException.kt:4-5 | the message for AppUser and -1 is "AppUser #-1 not found" |
| Persistence.FindById | src/main/kotlin/com/micellaneous/recipeak/dao/UserDAO.kt:6 | a record is found exactly when the id is stored, and it is the stored one |
| Persistence.FindByUsername | src/main/kotlin/com/micellaneous/recipeak/dao/UserDAO.kt:8 | a record is found exactly when one has that username, and it is stored |
| Persistence.Rows | src/main/kotlin/com/micellaneous/recipeak/dao/UserDAO.kt:6 | findAll lists the stored records in insertion order |
| Persistence.Saved | src/main/kotlin/com/micellaneous/recipeak/dao/UserDAO.kt:6 | save: a username held by another record is refused; a stored id is replaced; any other record is inserted under the next id |
| Persistence.Deleted | src/main/kotlin/com/micellaneous/recipeak/dao/UserDAO.kt:6 | delete: the record with that id leaves the map and the order |
| Persistence.SavedValid | src/main/kotlin/com/micellaneous/recipeak/dao/UserDAO.kt:6 | save keeps the repository invariant (ids below the generator, each listed once) |
| Persistence.SavedStoredRecord | src/main/kotlin/com/micellaneous/recipeak/service/UserService.kt:58 | saving a changed stored record replaces it and changes nothing else |
| Persistence.SavedNewRecord | src/main/kotlin/com/micellaneous/recipeak/controller/UserController.kt:50 | saving a record with a fresh username stores it under the next id and appends it to the order |
| Persistence.DeletedValid | src/main/kotlin/com/micellaneous/recipeak/controller/UserController.kt:65 | delete removes that id only and keeps the invariant |
| Persistence.UserDAO.Save | src/main/kotlin/com/micellaneous/recipeak/dao/UserDAO.kt:6 | the repository state after save is as Saved defines, with the invariant kept |
| Persistence.UserDAO.Delete | src/main/kotlin/com/micellaneous/recipeak/dao/UserDAO.kt:6 | the repository state after delete is as Deleted defines, with the invariant kept |
| Service.IsUserValid | src/main/kotlin/com/micellaneous/recipeak/service/UserService.kt:90-92 | an account is valid when active and now lies in [validFrom, expireDate], both ends included |
| Service.CheckPassword | src/main/kotlin/com/micellaneous/recipeak/service/UserService.kt:94-95 | the plaintext matches the stored hash |
| Service.PageContent | src/main/kotlin/com/micellaneous/recipeak/service/UserService.kt:21-24 | a page holds the rows from page*size up to (page+1)*size, cut at the end |
| Service.GetUsersPaged | src/main/kotlin/com/micellaneous/recipeak/service/UserService.kt:21-24 | a negative page or a size below one is refused with the paging errors; otherwise the page holds rows [p*s, min((p+1)*s, n)), the requested page number and size, and the total n |
| Service.PagesCoverRows | src/main/kotlin/com/micellaneous/recipeak/service/UserService.kt:21-24 | reading pages 0, 1, 2, ... lists every row exactly once, in insertion order |
| Service.GetUserByUsername | src/main/kotlin/com/micellaneous/recipeak/service/UserService.kt:26-29 | the stored record with that username, or NotFound("User X not found") |
| Service.GetUser | src/main/kotlin/com/micellaneous/recipeak/service/UserService.kt:31-34 | the stored record with that id, or NotFound with the AppUser message |
| Service.Authenticate | src/main/kotlin/com/micellaneous/recipeak/service/UserService.kt:76-88 | succeeds exactly when a stored user has the username, a matching password and a valid account, returning that user; every failure is BadCredentials("Invalid username/password supplied") |
| Service.RefusalsLookAlike | src/main/kotlin/com/micellaneous/recipeak/service/UserService.kt:79-85 | an unknown username, a wrong password, a disabled account and an account outside its window give the same error |
| Service.CreateUser | src/main/kotlin/com/micellaneous/recipeak/service/UserService.kt:36-47 | the new record is unsaved (id -1), with a hash matching the password, active as requested, and validFrom = now < expireDate |
| Service.WithProfile | src/main/kotlin/com/micellaneous/recipeak/service/UserService.kt:52-57 | active, email, name, surname and type are overwritten, the password is rehashed, and id, username and window are kept |
| Service.WithPassword | src/main/kotlin/com/micellaneous/recipeak/service/UserService.kt:72 | the hash matches the new password and no other field changes |
| Service.UserService.ModifyUser | src/main/kotlin/com/micellaneous/recipeak/service/UserService.kt:49-59 | an absent id gives NotFound with the store unchanged; otherwise exactly that record takes the new profile |
| Service.UserService.ModifyPasswordOfUser | src/main/kotlin/com/micellaneous/recipeak/service/UserService.kt:66-74 | a wrong old password gives BadRequest("Old password is incorrect") with the store unchanged; otherwise the record with the new hash is saved, replacing a stored user in place |
| Service.UserService.ModifyPasswordOfUserById | src/main/kotlin/com/micellaneous/recipeak/service/UserService.kt:61-64 | an absent id gives NotFound; otherwise the stored record is changed as the overload above does |
| Details.Authorities | src/main/kotlin/com/micellaneous/recipeak/config/security/AppUserDetails.kt:11-13 | the authorities of a user's details are the name of its type |
| Details.Password | src/main/kotlin/com/micellaneous/recipeak/config/security/AppUserDetails.kt:15-17 | the stored encoded password |
| Details.Username | src/main/kotlin/com/micellaneous/recipeak/config/security/AppUserDetails.kt:19-21 | the stored username |
| Details.IsAccountNonExpired | src/main/kotlin/com/micellaneous/recipeak/config/security/AppUserDetails.kt:23-25 | now lies inside the validity window, both ends included |
| Details.IsAccountNonLocked | src/main/kotlin/com/micellaneous/recipeak/config/security/AppUserDetails.kt:27-29 | the active flag |
| Details.IsCredentialsNonExpired | src/main/kotlin/com/micellaneous/recipeak/config/security/AppUserDetails.kt:31-33 | always true |
| Details.IsEnabled | src/main/kotlin/com/micellaneous/recipeak/config/security/AppUserDetails.kt:35-37 | the active flag |
| Details.AppUserDetailsReports | src/main/kotlin/com/micellaneous/recipeak/config/security/AppUserDetails.kt:11-37 | authorities are [type name]; username and password are the user's; non-expired means inside the window; non-locked and enabled are active; credentials never expire |
| Details.FlagsAgreeWithUserValidity | src/main/kotlin/com/micellaneous/recipeak/config/security/AppUserDetails.kt:23-37 | the four flags together hold exactly when isUserValid holds |
| Security.UserAuthentication | src/main/kotlin/com/micellaneous/recipeak/config/security/service/JwtTokenProvider.kt:45-48 | the authentication for a user's details carries those details' authorities |
| Security.AdministratorIffAdministratorType | src/main/kotlin/com/micellaneous/recipeak/controller/UserController.kt:26 | such an authentication has the ADMINISTRATOR authority exactly when the user's type is ADMINISTRATOR |
| Security.FilterChain.DoFilter | src/main/kotlin/com/micellaneous/recipeak/config/security/JwtTokenFilter.kt:20 | the rest of the chain is called once and sees the current authentication |
| ServiceUserLookup.LoadUserByUsername | src/main/kotlin/com/micellaneous/recipeak/config/security/service/AppUserDetailsService.kt:14-17 | the details wrap the stored user of that name, or UsernameNotFound("Username: X not found") |
| SecurityUserLookup.LoadUserByUsername | src/main/kotlin/com/micellaneous/recipeak/config/security/AppUserDetailsService.kt:13-16 | the details wrap the stored user of that name, or UsernameNotFound("Username: X not found") |
| SecurityUserLookup.LookupsAgree | src/main/kotlin/com/micellaneous/recipeak/config/security/AppUserDetailsService.kt:13-16 | the two details services give the same answer on every lookup |
| Jwt.DecodeEncode | src/main/kotlin/com/micellaneous/recipeak/config/security/service/JwtTokenProvider.kt:29-43 | decoding an issued token gives back its claims |
| Jwt.NoSeparatorNoToken | src/main/kotlin/com/micellaneous/recipeak/config/security/service/JwtTokenProvider.kt:61-68 | a fact of the stand-in codec, not of the JWT format: text without its ':' separator does not decode, so such text is refused as a malformed token |
| TokenParsing.ResolveToken | src/main/kotlin/com/micellaneous/recipeak/config/security/service/JwtTokenProvider.kt:54-59 | a token comes back exactly when the header is present and starts with "Bearer "; it is the header from index 7 |
| TokenParsing.ResolveBearer | src/main/kotlin/com/micellaneous/recipeak/config/security/service/JwtTokenProvider.kt:54-59 | "Bearer " followed by a token resolves to that token |
| TokenParsing.LowercaseBearerRefused | src/main/kotlin/com/micellaneous/recipeak/config/security/service/JwtTokenProvider.kt:56-58 | a "bearer " prefix in lower case resolves to nothing |
| TokenParsing.GetUsername | src/main/kotlin/com/micellaneous/recipeak/config/security/service/JwtTokenProvider.kt:50-52 | the subject of a readable, unexpired token; a malformed or expired token fails |
| TokenParsing.ValidateToken | src/main/kotlin/com/micellaneous/recipeak/config/security/service/JwtTokenProvider.kt:61-68 | true exactly when the token decodes and its expiration is after now, strictly; every parser failure reads as false (the copy at config/security/JwtTokenProvider.kt:56-63 is the same) |
| TokenParsing.ValidTokenHasUsername | src/main/kotlin/com/micellaneous/recipeak/config/security/service/JwtTokenProvider.kt:50-52 | a token validateToken accepts yields its subject |
| TokenParsing.GarbageRefused | src/main/kotlin/com/micellaneous/recipeak/config/security/service/JwtTokenProvider.kt:61-68 | a string that is not a token is refused without failing |
| ServiceTokens.CreateToken | src/main/kotlin/com/micellaneous/recipeak/config/security/service/JwtTokenProvider.kt:29-43 | the token carries the subject and roles, issuedAt = now and expiration = now + validity |
| ServiceTokens.CreateUserToken | src/main/kotlin/com/micellaneous/recipeak/config/security/service/JwtTokenProvider.kt:26-27 | a user's token has the username as subject and [type name] as roles |
| ServiceTokens.GetAuthentication | src/main/kotlin/com/micellaneous/recipeak/config/security/service/JwtTokenProvider.kt:45-48 | the principal is the details loaded for the token's subject, with empty credentials and those details' authorities; lookup and parse failures propagate |
| ServiceTokens.IssuedTokenLive | src/main/kotlin/com/micellaneous/recipeak/config/security/service/JwtTokenProvider.kt:61-68 | an issued token is valid exactly while now < issuedAt + validity |
| ServiceTokens.IssuedTokenNamesSubject | src/main/kotlin/com/micellaneous/recipeak/config/security/service/JwtTokenProvider.kt:50-52 | getUsername of an unexpired issued token is its username |
| ServiceTokens.IssuedTokenAuthenticates | src/main/kotlin/com/micellaneous/recipeak/config/security/service/JwtTokenProvider.kt:45-48 | the token of a stored user authenticates as that stored user |
| SecurityTokens.CreateToken | src/main/kotlin/com/micellaneous/recipeak/config/security/JwtTokenProvider.kt:27-38 | the token carries the subject and roles, issuedAt = now and expiration = now + validityInHours*60*60*1000 |
| SecurityTokens.CreateUserToken | src/main/kotlin/com/micellaneous/recipeak/config/security/JwtTokenProvider.kt:25 | a user's token has the username as subject and [type name] as roles |
| SecurityTokens.GetAuthentication | src/main/kotlin/com/micellaneous/recipeak/config/security/JwtTokenProvider.kt:40-43 | succeeds whenever the token yields a subject that is stored; the principal wraps that stored user, with its authorities; an unknown subject gives UsernameNotFound |
| SecurityTokens.ProvidersAgree | src/main/kotlin/com/micellaneous/recipeak/config/security/JwtTokenProvider.kt:27-38 | this provider issues the token the other one issues with its default validity |
| SecurityTokens.AuthenticationsAgree | src/main/kotlin/com/micellaneous/recipeak/config/security/JwtTokenProvider.kt:40-43 | both providers build the same authentication from any token |
| SecurityTokens.ZeroHoursDeadOnArrival | src/main/kotlin/com/micellaneous/recipeak/config/security/JwtTokenProvider.kt:31 | with validityInHours = 0 a token is invalid from its issue time on |
| SecurityTokens.IssuedTokenLive | src/main/kotlin/com/micellaneous/recipeak/config/security/JwtTokenProvider.kt:31 | an issued token is valid exactly while now < issuedAt + hours*3,600,000 |
| JwtFilter.TokenStep | src/main/kotlin/com/micellaneous/recipeak/config/security/JwtTokenFilter.kt:15-21 | without a valid bearer token the authentication is unchanged; with one it becomes the authentication of the stored user named by the subject, or the filter fails with UsernameNotFound when there is none |
| JwtFilter.BearerOfStoredUser | src/main/kotlin/com/micellaneous/recipeak/config/security/JwtTokenFilter.kt:16-18 | a live bearer token of a stored user authenticates the request as that user |
| JwtFilter.JwtTokenFilter.DoFilter | src/main/kotlin/com/micellaneous/recipeak/config/security/JwtTokenFilter.kt:15-21 | the context ends with the step's authentication and the chain is called once with it; on failure neither is touched |
| ValidityFilter.IsActive | src/main/kotlin/com/micellaneous/recipeak/config/security/filter/UserValiditySecurityFilter.kt:19-27 | no authentication is inactive; a non-UserDetails principal fails the cast; any other principal is active exactly when its four flags hold, which for AppUserDetails is isUserValid |
| ValidityFilter.Screened | src/main/kotlin/com/micellaneous/recipeak/config/security/filter/UserValiditySecurityFilter.kt:14-15 | the authentication is kept exactly when all four flags of its principal hold, and cleared otherwise; only a non-UserDetails principal fails |
| ValidityFilter.ScreenedIdempotent | src/main/kotlin/com/micellaneous/recipeak/config/security/filter/UserValiditySecurityFilter.kt:15 | screening twice equals screening once |
| ValidityFilter.AppUserKeptIffValid | src/main/kotlin/com/micellaneous/recipeak/config/security/filter/UserValiditySecurityFilter.kt:21-25 | a user's details are kept exactly when the account is valid |
| ValidityFilter.UserValiditySecurityFilter.DoFilter | src/main/kotlin/com/micellaneous/recipeak/config/security/filter/UserValiditySecurityFilter.kt:13-17 | the context holds the screened authentication and the chain is then called once with it |
| ValidityFilter.BothFilters | src/main/kotlin/com/micellaneous/recipeak/config/security/filter/UserValiditySecurityFilter.kt:13-17 | the token filter's step followed by the validity filter's step, with failures propagated |
| ValidityFilter.LiveTokenScreened | src/main/kotlin/com/micellaneous/recipeak/config/security/filter/UserValiditySecurityFilter.kt:13-17 | after both filters, a live token of a stored user leaves that user's authentication if the account is valid and none otherwise |
| BaseController.GetLoggedUser | src/main/kotlin/com/micellaneous/recipeak/controller/BaseController.kt:11-13 | the stored user with the principal's username; no authentication or no such user fails the null assertion, a non-UserDetails principal the cast |
| BaseController.IsAdmin | src/main/kotlin/com/micellaneous/recipeak/controller/BaseController.kt:16-18 | true exactly when the logged user's type is ADMINISTRATOR; failures of getLoggedUser propagate |
| BaseController.LoggedUserOfAuthentication | src/main/kotlin/com/micellaneous/recipeak/controller/BaseController.kt:11-13 | under a stored user's token authentication, the logged user is that user |
| BaseController.IsAdminAgreesWithAuthority | src/main/kotlin/com/micellaneous/recipeak/controller/BaseController.kt:16-18 | for such an authentication, isAdmin equals hasAuthority('ADMINISTRATOR') |
| UserEndpoints.ProjectPage | src/main/kotlin/com/micellaneous/recipeak/controller/UserController.kt:29 | the page keeps its number, size and total, and its content is projected |
| UserEndpoints.UserController.GetAllUsers | src/main/kotlin/com/micellaneous/recipeak/controller/UserController.kt:25-30 | for administrators, the projected page of rows [p*s, min((p+1)*s, n)) with the requested number and size and the total, or the paging errors |
| UserEndpoints.UserController.GetUserById | src/main/kotlin/com/micellaneous/recipeak/controller/UserController.kt:32-38 | the stored record, or NotFound("AppUser #id not found") |
| UserEndpoints.UserController.CreateUser | src/main/kotlin/com/micellaneous/recipeak/controller/UserController.kt:40-51 | a taken username gives AlreadyExists("user with username X already exists") with the store unchanged; otherwise exactly one record is added under the next id and its projection returned |
| UserEndpoints.UserController.ModifyUser | src/main/kotlin/com/micellaneous/recipeak/controller/UserController.kt:53-58 | NotFound with the store unchanged, or exactly that record with the new profile, projected |
| UserEndpoints.UserController.DeleteUser | src/main/kotlin/com/micellaneous/recipeak/controller/UserController.kt:60-67 | NotFound with the store unchanged, or the new state is the old one with that id deleted: every other record kept, the insertion order of the rest unchanged, the id generator kept |
| UserEndpoints.UserController.EnableUser | src/main/kotlin/com/micellaneous/recipeak/controller/UserController.kt:69-77 | NotFound with the store unchanged, or only that record's active flag set |
| UserEndpoints.UserController.GetMyDetails | src/main/kotlin/com/micellaneous/recipeak/controller/UserController.kt:81-86 | the projection of the logged user, or getLoggedUser's failure |
| UserEndpoints.UserController.ChangeMyPassword | src/main/kotlin/com/micellaneous/recipeak/controller/UserController.kt:89-94 | the password change applies to the logged user's record and no other |
| LoginEndpoints.Login | src/main/kotlin/com/micellaneous/recipeak/controller/LoginController.kt:25-31 | succeeds exactly when authentication does, returning the user's projection and a token for its username and [type name] with the default validity; otherwise it issues no token and gives BadCredentials |
| LoginEndpoints.LoginWithToken | src/main/kotlin/com/micellaneous/recipeak/controller/LoginController.kt:33-38 | reports valid exactly when the token is readable and its expiration is after now; a token that cannot be read yields false, not a failure |
| LoginEndpoints.DisabledUserRefused | src/main/kotlin/com/micellaneous/recipeak/controller/LoginController.kt:28 | a disabled user with the right password is refused with the same message |
| LoginEndpoints.LoginTokenLifetime | src/main/kotlin/com/micellaneous/recipeak/controller/LoginController.kt:36-37 | a login token is reported valid exactly until issuedAt + validity |
| LoginEndpoints.LoginTokenAuthenticates | src/main/kotlin/com/micellaneous/recipeak/controller/LoginController.kt:29-30 | a live login token, sent back as a bearer token, authenticates the request as the logged-in user |
| Advice.Handle | src/main/kotlin/com/micellaneous/recipeak/config/ResourceControllerAdvice.kt:17-50 | the five handled kinds map to a 4xx response whose message is the exception's own; other kinds have no handler |
| Advice.StatusDeterminesKind | src/main/kotlin/com/micellaneous/recipeak/config/ResourceControllerAdvice.kt:17-50 | distinct kinds get distinct statuses, and the status decides the logref |
| Advice.HandlerTable | src/main/kotlin/com/micellaneous/recipeak/config/ResourceControllerAdvice.kt:17-50 | the statuses and logrefs: 404 "Not Found Error", 409 "Already Exist Error", 400 "Bad Request", 403 "Forbidden", 401 "Bad credentials" |

## Left out

- JWT format: the signature, the HS256 secret key and the base64 encoding.
  A token is a plain length-prefixed text of its claims, not a real JWT.
- JWT timestamps: real JWTs store times in whole seconds.
  - Model: issuedAt and expiration are kept in milliseconds.
  - Effect: a real token can expire up to a second before the modelled one.
- BCrypt is replaced by a stand-in hash.
  - Nothing is claimed about two different passwords having different hashes.
  - The random salt is a parameter.
- Clock: `OffsetDateTime.now()` and `Date()` become a `now` parameter in milliseconds.
  - Model: `plusYears(1000)` adds a fixed 1000 mean Gregorian years.
  - Not modelled: calendar arithmetic and time zones.
- SecurityTokens.CreateToken: the 64-bit wrap-around of `validityInHours * 60 * 60 * 1000` is not modelled.
  - It needs more than 2,562,047,788,015 hours, which is far outside any configured validity.
  - ServiceTokens.CreateToken likewise does not model the overflow of `Duration.toMillis`.
- Spring wiring is not part of this model:
  - the `SecurityConfig` whitelist and filter registration, the `DaoAuthenticationProvider`, servlet requests and responses;
  - `@PreAuthorize` evaluation, which becomes a precondition;
  - the thread-local holder of the security context, which becomes one object.
- `SecurityConfig` registers only `JwtTokenFilter`.
  - `ValidityFilter.LiveTokenScreened` describes the two filters run one after the other.
  - That run does not happen in the configuration as written.
- Filter failures: an exception thrown inside a filter (`UsernameNotFound`, `ClassCast`) is returned as a failure.
  - What the servlet container then answers is not modelled.
  - `Advice.Handle` has no handler for these kinds, so it returns None for them.
- Controller responses: the advice's handlers are modelled.
  - Not modelled: Spring's default error responses for unhandled kinds, such as the paging `IllegalArgument`.
  - Not modelled: HTTP status codes of successful responses.
- No route answers "You don't have the rights to access user X information" for another user's password.
  - No such route or message exists in the controllers, so none is modelled.
- In-place mutation of JPA entities: `modifyUser`, `modifyPasswordOfUser` and `enableUser` change the fetched object before saving it.
  - The model builds the changed record as a value and saves it; the effect on the store is the same.
  - Aliasing of the caller's object is not modelled.
- Persistence: `save` of a record whose id is not stored inserts it under the next generated id, as a merge of an unknown id does.
  - Not modelled: transactions, concurrency and the two identical `UserDAO` interfaces, which are one repository here.
- PageRequest: sorting and the other page metadata beyond number, size and total are not modelled.
- Logging, including the plaintext password logged by `login`, is left out.
- `AppInitializer`, `RecipeakApplication`, `AliveController` and `ApiUrls` are not part of this model.
- Mutability: which `AppUser` fields are `val` is not a type-level fact here.
  - It is stated instead by the contracts of the operations that change records.
  - The operations that change a record keep id, username, validFrom and expireDate (`Users.SameIdentity`, `Service.WithPassword`).
