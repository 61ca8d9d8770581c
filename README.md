# Token store, validators and request gates of Simple-Django-API

This Dafny project models the part of the Django user API that decides things:

- `RedisService`, the cache-backed store. It keeps token payloads per user,
  blacklist marks per token string and session payloads per user.
- The account-field validators of the create, update and login serializers, and
  the create serializer's field policy.
- The password strength check.
- The `Result` value the service returns.
- The two decorators that gate views on the `Authorization: Bearer …` and
  `X-Refresh-Token` headers.

Time ("now") is an explicit parameter. The JWT library is an abstract decoder from
a token string to a token with an optional `exp` claim, or to a `TokenError`.
Django's `make_password`/`check_password` and `verify_password` are function
parameters. Database `exists` queries become sets of taken usernames and emails. The
login lookup becomes a map from email to user.

Modules: `Results` (result.py), `Cache` (the Django cache as the service uses it),
`Redis` (redis_service.py, class `RedisService`), `PasswordUtils`,
`UserSerializer`, `UpdateSerializer`, `LoginSerializer`, `RouteProtector`,
`ExtractRefreshToken`. Helper modules: `Ascii`, `Strings`, `Jwt`, `Http`,
`Models`, `Validation`. Django's module-level cache is one `Cache.SharedCache` object;
every `RedisService` built on it reads and writes the same entries.

Notes on the code's behaviour:

- Blacklist keys are "jwt_blacklist:" plus the whole token string, not a token id.
- The blacklist TTL is `max(exp - now, expires_in)`. This is a floor at `expires_in`
  (default 86400), not a clamp at zero.
- Missing tokens and sessions are error results ("Token not found", "Session not
  found"), not empty successes.
- Username length 30 is accepted although its message says "less than 30".

## Model

| member | source | states |
|---|---|---|
| `Results.SuccessIffNoError` | api/utils/result.py:11-14 | whatever is passed at construction, success holds exactly when there is no error; truthiness equals success |
| `Results.SuccessFields` | api/utils/result.py:16-19 | `success(d)` has data `d`, no error, and is a truthy success |
| `Results.ErrorFields` | api/utils/result.py:21-24 | `error(m)` has error `m`, no data, and is a falsy failure |
| `Results.ToStringTag` | api/utils/result.py:38-42 | successes print starting "Success(data="; errors print exactly "Error(error=" + message + ")" |
| `Results.ToStringDistinguishes` | api/utils/result.py:38-42 | a success and an error never print the same |
| `Strings.Split` | api/decorators/route_protector.py:14 | `split(" ")` always yields at least one part |
| `Strings.JoinSplit` | api/decorators/route_protector.py:14 | joining the split parts with the separator gives back the header |
| `Strings.SplitPartsSeparatorFree` | api/decorators/route_protector.py:14 | no split part contains the separator |
| `Strings.SplitHead` | api/decorators/route_protector.py:14 | the first part is the longest separator-free prefix |
| `Strings.SplitAfterWord` | api/decorators/route_protector.py:14 | a separator-free word then a space splits off as the first part, the rest splits on its own |
| `Ascii.LowerMatches` | api/serializers/user_serializer.py:36 | `value.lower()` equals a lowercase word exactly when each character is that word's letter in either case |
| `Cache.GetAfterSet` | api/services/redis_service.py:52 | a set value is readable until `now + timeout` and not after; other keys read as before |
| `Cache.GetAfterDelete` | api/services/redis_service.py:95 | a deleted key reads as missing; other keys read as before |
| `Redis.KeyNamespacesDisjoint` | api/services/redis_service.py:16-18 | token, blacklist and session keys never coincide, whatever the ids and token |
| `Redis.KeysInjective` | api/services/redis_service.py:22 | within each namespace, equal keys mean equal ids or tokens |
| `Redis.BlacklistTtl` | api/services/redis_service.py:45-49 | the TTL is the larger of `exp - now` (missing `exp` is 0) and `expires_in`, so never below `expires_in` |
| `Redis.SetPayloadWellTyped` | api/services/redis_service.py:23 | storing a payload keeps token and session keys holding payloads |
| `Redis.AfterBlacklistWellTyped` | api/services/redis_service.py:51-52 | writing a blacklist mark keeps token and session keys holding payloads |
| `Redis.StoreThenGetToken` | api/services/redis_service.py:20-37 | after `store_token(u, d, ttl)`, `get_token(u)` returns success `d` before the timeout and "Token not found" after |
| `Redis.StoreThenGetSession` | api/services/redis_service.py:70-87 | after `store_user_session(u, d, ttl)`, `get_user_session(u)` returns success `d` before the timeout and "Session not found" after |
| `Redis.StoreTokenIsolated` | api/services/redis_service.py:20-24 | storing a token changes no session, no blacklist answer and no other user's token |
| `Redis.StoreSessionIsolated` | api/services/redis_service.py:70-74 | storing a session changes no stored token, no blacklist answer and no other user's session |
| `Redis.BlacklistThenQuery` | api/services/redis_service.py:49-65 | after blacklisting, the token is reported exactly while `t < now + ttl`: at least `expires_in` seconds and at least until `exp` |
| `Redis.BlacklistIdempotent` | api/services/redis_service.py:42-53 | blacklisting the same token again later with the same `expires_in` keeps it reported wherever the first entry did |
| `Redis.BlacklistIsolated` | api/services/redis_service.py:51-52 | blacklisting a token changes no token, no session and no other token's answer |
| `Redis.DeleteSessionEffect` | api/services/redis_service.py:92-96 | after deleting `u`'s session it reads "Session not found"; every other answer is unchanged |
| `Redis.ClearUserDataEffect` | api/services/redis_service.py:101-109 | after clearing, `u`'s token and session read as missing; blacklist answers and other users' data are unchanged |
| `Redis.RedisService.constructor` | api/services/redis_service.py:14-18 | the service holds a reference to the shared cache object, so all services see the same entries |
| `Redis.RedisService.StoreToken` | api/services/redis_service.py:20-27 | writes the payload under "jwt_token:" + id with the given timeout, nothing else, and returns success(true) |
| `Redis.RedisService.GetToken` | api/services/redis_service.py:29-40 | succeeds exactly when a live entry exists, with its payload; otherwise error "Token not found" |
| `Redis.RedisService.BlacklistToken` | api/services/redis_service.py:42-59 | an undecodable token gives "Invalid token: " + reason and no write; otherwise one write of the mark under "jwt_blacklist:" + token with `BlacklistTtl` |
| `Redis.RedisService.IsTokenBlacklisted` | api/services/redis_service.py:61-68 | returns success of whether a live blacklist entry for the whole token string exists |
| `Redis.RedisService.StoreUserSession` | api/services/redis_service.py:70-77 | writes the payload under "user_sessions:" + id with the given timeout (default 3600), nothing else |
| `Redis.RedisService.GetUserSession` | api/services/redis_service.py:79-90 | succeeds exactly when a live entry exists, with its payload; otherwise error "Session not found" |
| `Redis.RedisService.DeleteUserSession` | api/services/redis_service.py:92-99 | removes exactly the user's session key |
| `Redis.RedisService.ClearAllUserData` | api/services/redis_service.py:101-112 | removes exactly the user's token key and session key |
| `PasswordUtils.StrengthErrorsMembership` | api/utils/password_utils.py:32-45 | each of the five messages is listed exactly when its rule is broken, and nothing else is listed |
| `PasswordUtils.StrengthErrorsOrdered` | api/utils/password_utils.py:30-45 | messages appear in the order length, digit, upper, lower, special, none twice, at most five |
| `PasswordUtils.AnyOf` | api/utils/password_utils.py:35 | the `any(...)` scan is true exactly when some character is in the class |
| `PasswordUtils.IsPasswordStrong` | api/utils/password_utils.py:28-47 | the appended list is the rule-by-rule error list, and the flag is true exactly when it is empty |
| `PasswordUtils.StrongIffAllRules` | api/utils/password_utils.py:30-47 | strong exactly when length >= 8 and a digit, an upper, a lower and a special character all occur |
| `PasswordUtils.SamplePasswordIsStrong` | api/utils/password_utils.py:28-47 | "StrongPassword123!" breaks no rule |
| `UserSerializer.ValidateUsername` | api/serializers/user_serializer.py:25-42 | accepted unchanged exactly when all five checks pass; otherwise the message of the first failing check in order min-length, max-length, alnum, not-admin, unused |
| `UserSerializer.UsernameAcceptance` | api/serializers/user_serializer.py:27-40 | accepted exactly when 3 <= length <= 30, alphanumeric, not "admin" in any case, and not taken |
| `UserSerializer.AdminRefusedAnyCase` | api/serializers/user_serializer.py:36-37 | every five-letter spelling of "admin" in any mix of cases is refused with the 'admin' message |
| `UserSerializer.ValidateEmail` | api/serializers/user_serializer.py:14-17 | refused with "Email already exists" exactly when taken; otherwise returned unchanged |
| `UserSerializer.ValidatePassword` | api/serializers/user_serializer.py:19-23 | refused exactly when the strength list is non-empty, with that list as the detail |
| `UserSerializer.Represent` | api/serializers/user_serializer.py:8-11 | the output has every declared field except the write-only `password` |
| `UserSerializer.WritableInput` | api/serializers/user_serializer.py:8-9 | input keeps only declared, non-read-only fields, values unchanged; `password` is kept |
| `UpdateSerializer.ValidateUsername` | api/serializers/update_serializer.py:11-30 | empty or the instance's current name is accepted unchanged without other checks; otherwise the account-creation rules decide |
| `UpdateSerializer.OwnUsernameAccepted` | api/serializers/update_serializer.py:12-13 | keeping one's own taken username passes, although the creation rules alone refuse it |
| `UpdateSerializer.ValidateEmail` | api/serializers/update_serializer.py:32-39 | refused exactly when non-empty, changed and already taken |
| `UpdateSerializer.ValidatePassword` | api/serializers/update_serializer.py:41-49 | refused exactly when non-empty, not the current password and not strong; the detail is the strength list |
| `UpdateSerializer.Validate` | api/serializers/update_serializer.py:51-64 | accepted unchanged exactly when password and confirmation are both given and equal or both absent; each other case has its own message |
| `UpdateSerializer.NoPasswordUpdateAccepted` | api/serializers/update_serializer.py:51-64 | data without either password field passes unchanged |
| `LoginSerializer.ValidateEmail` | api/serializers/login_serializer.py:10-13 | refused with "User not found" exactly when no user has the address |
| `LoginSerializer.Validate` | api/serializers/login_serializer.py:15-29 | accepted exactly when the user exists and the password verifies; every refusal is "User not found"; success adds key "user" |
| `LoginSerializer.FailuresIndistinguishable` | api/serializers/login_serializer.py:20-26 | an unknown address and a wrong password give the same outcome |
| `LoginSerializer.OtherKeysUnchanged` | api/serializers/login_serializer.py:28-29 | on success every key other than "user" is as in the input |
| `RouteProtector.BearerToken` | api/decorators/route_protector.py:14 | the token is the space-free word right after "Bearer ", ending at the next space or the end |
| `RouteProtector.BearerTokenExamples` | api/decorators/route_protector.py:14 | "Bearer a b" gives "a"; "Bearer " gives "" |
| `RouteProtector.Wrapper` | api/decorators/route_protector.py:9-23 | missing or non-"Bearer " header: 401 invalid header; undecodable token: 401 invalid token; otherwise the view is called, with the token as an extra argument exactly when `required` |
| `RouteProtector.PrefixIsExact` | api/decorators/route_protector.py:11-12 | the prefix test is case-sensitive and needs the space |
| `ExtractRefreshToken.Wrapper` | api/decorators/extract_refresh_token.py:9-19 | missing or empty header: 400 invalid header; undecodable token: 400 invalid refresh token; otherwise the view is called with the decoded token as `refresh_token` |

## Left out

- The login, refresh, logout and account-creation views are named in api/urls.py, but
  api/views.py defines only `user_list`. The token-lifecycle orchestration, including
  refresh rotation, is not in any of these files and is not modelled.
- JWT signing, signature and expiry checks are hidden in the abstract decoder, because
  that is a foreign library.
- `make_password`/`check_password` are parameters, because they are foreign hashing code.
  The pepper is read from an environment map passed in.
- The `except Exception` branches of `RedisService` are left out. They handle cache
  connectivity failures, and the model has no fault model.
- JSON encoding is left out: payloads are stored and read back as opaque values.
  Django cache internals and the real clock are left out too; time is a parameter.
- `isalnum`, `isdigit`, `isupper`, `islower` and `lower` are given their ASCII meaning,
  not their Unicode meaning.
- DRF field-level validation that runs before these validators is left out, because it
  is framework code: email format, and CharField's blank check.
- The debug `print` of credentials in the login validator is left out, because it is I/O.
- What the decorated view does is left out, because the views are not in these files.
  The gates' outcome records only whether the view is called, and with which token.
- ORM repositories, `UserService`, the injector decorators and URL wiring are left out,
  because they are framework plumbing.
- `LoginSerializer.Validate`: the user table is a map from email to user, so it assumes
  at most one user per address. The user model is not part of this model. If two users
  shared an address, `User.objects.get` would raise `MultipleObjectsReturned`, which the
  validator does not catch. That outcome is not modelled.
- `PasswordUtils.HashPassword`: hashing and verifying both append the pepper, but the
  user repository stores `make_password` of the bare password. That mismatch is recorded
  in a comment only; the repository is not part of this model.
- `Redis.RedisService.GetToken`, `GetUserSession`: the model assumes token and session
  keys hold JSON payloads, an invariant every service write keeps. Anything else stored
  there by other code, which `json.loads` would reject, is not modelled.
