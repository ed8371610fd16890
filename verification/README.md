# Movie manager access control, modelled in Dafny

This project models the request logic of `MovieManagerImpl`, the service of a
movie-streaming system that decides whether a user token may fetch a movie's
clips, a clip's data or an ad, and that records playback activity reports.

The manager's collaborators are modelled as an environment `Domain.Env` of pure
oracles. These are the authentication handler (token status, role membership,
`getUserOfToken`, `authenticate`), the movie store (a map from id to
`(enabled, clips)`) and the clip store. A role query answers `Some(b)`, or
`None` when the role lookup or the membership check throws. The activity
store is the activity log, a `seq<Activity>` that `sendActivity` threads
through.

Modules:

- `Domain` (`domain.dfy`) holds the entities, the failure kinds and the environment.
- `Access` (`access.dfy`) holds the access rule `userAllowedMovie`. The rule
  evaluates role queries with Java's short-circuit `||`, so the module also
  records which roles get queried.
- `JavaLong` (`java_long.dfy`) models `Long.parseLong`, which turns an
  activity's textual movie id into a movie key.
- `MovieManager` (`movie_manager.dfy`) holds the four entry points,
  `validateActivity`, and the append-only behaviour of the activity log.
- `Scenarios` (`scenarios.dfy`) rebuilds the unit tests' mock fixture as a
  concrete environment and derives, from the model, the outcome each test
  expects.

## How the model treats the code as written

The model follows the code in the first four points and departs from it in the
last one:

- `getAd` returns null once the token is valid. The tests expect more: the
  selected ad's clip data from clip storage (test file lines 376-388), and a
  `NoAdsException` for an empty or null ad pool (353-367) or for an ad whose
  clip cannot be resolved (390-402). The code does none of this, and the model
  follows the code.
- For a disabled movie the code asks about the reviewer role only when the
  administrator query answered a plain `false`, so a failing administrator
  lookup denies access even to a reviewer. No test exercises this path.
- After line 159, every path of the access rule returns false. The ad-provider,
  movie-provider and user queries cannot change the decision.
- A movie id that `Long.parseLong` rejects raises a NumberFormatException,
  which the code does not catch. The model reports it as its own failure,
  `MalformedMovieId`, and not as an invalid activity.
- Departure from the code: the code compares strings with `==` and `!=`
  (lines 83 and 133), which in Java compares object identity. The model
  compares string values, which is what the exception messages show was meant.
  The tests use interned literals, so they cannot tell the two apart. The
  entry on string identity under "## Left out" says what this leaves
  unmodelled.

## Model

| member | source | states |
|---|---|---|
| `Access.AnyInRole` | src/main/java/services/MovieManagerImpl.java:159 | The short-circuit disjunction of role queries is true iff some query answers true after only plain falses. It is false iff every query answers false. It threw iff some query throws after only plain falses. |
| `Access.Asked` | src/main/java/services/MovieManagerImpl.java:159-161 | The roles a disjunction queries form a prefix of its operands. Every queried role except the last answered false. Evaluation stops early only at an answer that is true or a throw. |
| `Access.UserAllowedMovie` | src/main/java/services/MovieManagerImpl.java:154-170 | An enabled movie is always allowed. Otherwise the movie is allowed iff the administrator query answers true, or it answers false and the reviewer query answers true. A failure at any evaluated step denies. |
| `Access.RolesConsulted` | src/main/java/services/MovieManagerImpl.java:155-161 | An enabled movie consults no role at all. A disabled movie consults a prefix of the order administrator, reviewer, ad provider, movie provider, user. The administrator is always asked. Each later role is asked iff every earlier answer was a plain false. |
| `Access.AnyInRoleDependsOnlyOnAsked` | src/main/java/services/MovieManagerImpl.java:159 | Two role oracles that agree on the roles a disjunction queries give the same value and the same queries. |
| `Access.AccessDependsOnlyOnConsulted` | src/main/java/services/MovieManagerImpl.java:154-170 | The access decision and the queries behind it depend only on the answers to the roles actually queried. |
| `Access.UnprivilegedRolesIrrelevant` | src/main/java/services/MovieManagerImpl.java:161-168 | Role oracles that agree on administrator and reviewer give the same decision, whatever they answer for the other three roles. |
| `Access.AccessByHeldRoles` | src/main/java/services/MovieManagerImpl.java:155-162 | When every lookup succeeds, a token may see a movie iff the movie is enabled or the token holds the administrator or reviewer role. Holding only ad-provider, movie-provider or user roles is denied on a disabled movie. |
| `Access.LookupFailureDenies` | src/main/java/services/MovieManagerImpl.java:163-168 | A disabled movie is denied when the administrator lookup throws. It is also denied when the reviewer lookup throws after a plain false for administrator. |
| `JavaLong.ParseLong` | src/main/java/services/MovieManagerImpl.java:139 | A parsed id lies in the signed 64-bit range, and the string is an optional sign followed by digits. An unsigned or '+'-signed digit run gives its value, and a '-'-signed one gives the negated value, when that value fits the range. Otherwise the result is a failure. The empty string and a lone sign are rejected. |
| `JavaLong.NatDigitsRoundTrip` | src/main/java/services/MovieManagerImpl.java:139 | The decimal digits of a natural number are all digits, and reading them back gives the number. |
| `JavaLong.ParseFormatRoundTrip` | src/main/java/services/MovieManagerImpl.java:139 | Parsing the decimal rendering of any 64-bit value gives that value back. |
| `MovieManager.TokenFailure` | src/main/java/services/MovieManagerImpl.java:54-57 | A malformed token maps to InvalidToken and an expired token maps to TokenExpired. The map is exact in both directions. |
| `MovieManager.ValidateUser` | src/main/java/services/MovieManagerImpl.java:115-117 | The token gate passes iff the token is valid. Otherwise it fails with InvalidToken for a malformed token or TokenExpired for an expired one. |
| `MovieManager.GetMovie` | src/main/java/services/MovieManagerImpl.java:44-58 | A bad token gives its token failure. The movie's clips come back unchanged exactly when the token is valid, the movie exists and the access rule allows. An absent id gives MovieNotFound and a denial gives UserNotAllowed. |
| `MovieManager.GetClipData` | src/main/java/services/MovieManagerImpl.java:63-72 | A bad token gives its token failure. With a valid token the result succeeds iff the clip store has the clip, and the store's data comes back unchanged. A missing clip gives ClipNotFound. |
| `MovieManager.GetAd` | src/main/java/services/MovieManagerImpl.java:97-106 | A bad token gives its token failure. A valid token always succeeds, with no ad (null). |
| `MovieManager.ValidateActivity` | src/main/java/services/MovieManagerImpl.java:127-144 | An activity passes iff it is acceptable. Acceptable means: the movie id is set and non-empty, the user is set, the id parses, the movie exists, and the access rule allows the token derived from the user. Failures come in that order. A missing id, user or movie gives ActivityInvalid. A parse failure gives MalformedMovieId. An existing movie the access rule denies gives UserNotAllowed. |
| `MovieManager.SendActivity` | src/main/java/services/MovieManagerImpl.java:77-92 | The call succeeds iff the token is valid, the activity is acceptable and the sender's email equals the activity user's email. On success the log grows by exactly the activity; on every failure the log is unchanged. Token failures come first, then activity failures, then an email mismatch as ActivityInvalid. MovieNotFound never occurs. |
| `MovieManager.SendAll` | src/main/java/services/MovieManagerImpl.java:86 | Over a series of calls the original log stays a prefix of the final log. The log grows by at most one entry per call. |
| `MovieManager.SendAllAppendsAccepted` | src/main/java/services/MovieManagerImpl.java:79-87 | After any series of calls, the log is the original log followed by exactly the accepted activities, in call order. |
| `MovieManager.TokenCheckedFirst` | src/main/java/services/MovieManagerImpl.java:44-106 | For a token that does not validate, every entry point gives the same result whatever the movie store, role oracle, clip store and other collaborators hold. sendActivity then leaves the log unchanged. |
| `MovieManager.ClipDataIgnoresAuthorization` | src/main/java/services/MovieManagerImpl.java:63-72 | getClipData depends only on the token status and the clip store's answer. The movie store and the role oracle make no difference. |
| `MovieManager.UnknownMovieIndependentOfRoles` | src/main/java/services/MovieManagerImpl.java:46-48 | With a valid token, an absent movie id gives MovieNotFound whatever the role oracle answers. |
| `Scenarios.GetMovieTests` | src/test/java/MovieManagerImplTest.java:117-193 | In the test fixture, every valid token sees enabled movie 1. Only the administrator and reviewer tokens see disabled movie 2. Movie 3 is not found. The malformed token gives InvalidToken and the expired one TokenExpired. |
| `Scenarios.GetClipDataTests` | src/test/java/MovieManagerImplTest.java:196-215 | Clip 1 is returned, clip 2 is not found, and a malformed token is rejected. |
| `Scenarios.SuccessfulUserSendActivity` | src/test/java/MovieManagerImplTest.java:218-233 | A user's activity on the enabled movie is appended to the log. |
| `Scenarios.SuccessfulAdminSendActivity` | src/test/java/MovieManagerImplTest.java:235-249 | An administrator's activity on the disabled movie is appended to the log. |
| `Scenarios.SendActivityDifferentUsers` | src/test/java/MovieManagerImplTest.java:251-264 | A sender whose email differs from the activity's user gets ActivityInvalid, and the log is unchanged. |
| `Scenarios.SendActivityMovieOrUserNotSet` | src/test/java/MovieManagerImplTest.java:266-290 | An activity without a movie id, with or without a user, gets ActivityInvalid, and the log is unchanged. |
| `Scenarios.SendActivityUserNotAllowed` | src/test/java/MovieManagerImplTest.java:292-305 | An activity on the disabled movie whose user derives a role-less token gets UserNotAllowed, and the log is unchanged. |
| `Scenarios.SendActivityBadTokens` | src/test/java/MovieManagerImplTest.java:307-335 | Malformed and expired tokens get InvalidToken and TokenExpired, and the log is unchanged. |
| `Scenarios.SendActivityNonExistentMovie` | src/test/java/MovieManagerImplTest.java:337-350 | An activity on an absent movie gets ActivityInvalid, not MovieNotFound, and the log is unchanged. |
| `Scenarios.GetAdTests` | src/main/java/services/MovieManagerImpl.java:97-106 | In the fixture a malformed token gets InvalidToken, and a valid token gets no ad. |

## Left out

- Ad selection: the tests expect the selected ad's clip data from clip storage (test file lines 376-388) and a NoAdsException for an empty or null ad pool (353-367) or an unresolvable ad clip (390-402). The code has none of this, so `GetAd` models the token gate and the null result only.
- Logging, the EJB annotations and the setter injection (lines 29-39 and 172-206) are wiring with no effect on outcomes.
- The collaborators' internals are out of scope: token issuance and validation, the role, movie and activity stores, and clip storage. Each appears only as an oracle or a map.
- A failure of the activity store while appending is not modelled. The model treats the append as always succeeding.
- Null arguments: the code never checks the `@NotNull` parameters. A null token, movie id or clip id goes straight to `validateToken`, `getMovieById` or `getClipDataById`, and what happens next is up to that collaborator. A null activity is dereferenced in `validateActivity` (line 128). The model's types exclude all of these, and also a null user returned by `getUserOfToken` and a null email.
- Exceptions a collaborator might throw, checked or not, other than those the code catches are not modelled. The caught ones are RoleNotFoundException and InvalidTokenException inside the access rule, and MovieNotFoundException inside `validateActivity`. In particular `getUserOfToken` may throw InvalidTokenException at line 83 even after `validateToken` returned true. `sendActivity` declares that exception, but `Env.userOf` is total, so in the model a token failure happens only when the token status is not Valid.
- The activity fields `position` and `time` are read at lines 129-130 but never checked. They are carried in `Activity` only.
- String identity: Java object identity for strings (lines 83 and 133) is replaced by value comparison. As written, an equal email held in a different String object would be rejected. A non-interned empty movie id would pass the emptiness test and then fail to parse.
- `JavaLong.ParseLong` accepts only ASCII digits. `Long.parseLong` also accepts other Unicode decimal digits.
- `Activity.movieId` is a string in the code, but the test file stubs it with numbers, and the test file calls setters the class does not have. The scenarios use the code's types.
