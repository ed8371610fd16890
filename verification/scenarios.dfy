/** The mock fixture of the manager's unit tests as a concrete environment, and
    the outcomes those tests expect, derived from the model. Unstubbed mock
    calls answer Mockito's defaults, `false` for booleans and null otherwise,
    except in two functions that use a stand-in of the result type instead of
    null: `FixtureUserOf` gives `User("")` and `FixtureClips` gives `None` (a
    missing clip). No scenario below reaches either stand-in. */
module Scenarios {
  import opened Domain
  import opened MovieManager

  const USER_EMAIL: string := "user@mail.com"
  const ADMIN_EMAIL: string := "admin@mail.com"

  function FixtureTokenStatus(t: Token): TokenStatus {
    if t in {"validTokenAdmin", "validTokenUser", "validTokenMovieProvider", "validTokenAdProvider", "validTokenReviewer"}
    then Valid
    else if t == "invalidToken" then Malformed
    else Expired  // an unstubbed validateToken answers false
  }

  /** Each fixture token holds exactly one role. */
  function FixtureRoles(t: Token, r: Role): Option<bool> {
    Some(match r
      case Administrator => t == "validTokenAdmin"
      case Reviewer => t == "validTokenReviewer"
      case AdProvider => t == "validTokenAdProvider"
      case MovieProvider => t == "validTokenMovieProvider"
      case UserRole => t == "validTokenUser")
  }

  function FixtureUserOf(t: Token): User {
    if t == "validTokenUser" then User(USER_EMAIL)
    else if t == "validTokenAdmin" then User(ADMIN_EMAIL)
    else User("")
  }

  /** Movie 1 is enabled, movie 2 disabled, both without clips; movie 3 is absent. */
  const FIXTURE_MOVIES: map<int, Movie> := map[1 := Movie(true, []), 2 := Movie(false, [])]

  /** `authenticate` as the successful activity tests stub it; any other user
      gets the unstubbed answer, a null token that holds no role. */
  function FixtureAuthenticate(u: User): Token {
    if u.email == USER_EMAIL then "validTokenUser"
    else if u.email == ADMIN_EMAIL then "validTokenAdmin"
    else ""
  }

  function FixtureClips(id: int): Option<ClipData> {
    if id == 1 then Some(ClipData(1, "clip-1")) else None
  }

  const FIXTURE: Env := Env(FixtureTokenStatus, FixtureRoles, FIXTURE_MOVIES, FixtureUserOf,
                            FixtureAuthenticate, FixtureClips)

  /** The fixture with `authenticate` left unstubbed for every user. */
  const UNSTUBBED_AUTH: Env := FIXTURE.(authenticate := (u: User) => "")

  /** The getMovie tests: every role sees the enabled movie, only
      administrators and reviewers see the disabled one, an absent movie is not
      found, and bad tokens are rejected first. */
  lemma GetMovieTests()
    ensures forall t :: FixtureTokenStatus(t) == Valid ==> GetMovie(FIXTURE, t, 1) == Ok([])
    ensures GetMovie(FIXTURE, "validTokenAdmin", 2) == Ok([])
    ensures GetMovie(FIXTURE, "validTokenReviewer", 2) == Ok([])
    ensures GetMovie(FIXTURE, "validTokenUser", 2) == Err(UserNotAllowed)
    ensures GetMovie(FIXTURE, "validTokenMovieProvider", 2) == Err(UserNotAllowed)
    ensures GetMovie(FIXTURE, "validTokenAdProvider", 2) == Err(UserNotAllowed)
    ensures GetMovie(FIXTURE, "validTokenUser", 3) == Err(MovieNotFound)
    ensures GetMovie(FIXTURE, "invalidToken", 1) == Err(InvalidToken)
    ensures GetMovie(FIXTURE, "expiredToken", 1) == Err(TokenExpired)
  {
  }

  /** The getClipData tests. */
  lemma GetClipDataTests()
    ensures GetClipData(FIXTURE, "validTokenUser", 1) == Ok(ClipData(1, "clip-1"))
    ensures GetClipData(FIXTURE, "validTokenUser", 2) == Err(ClipNotFound)
    ensures GetClipData(FIXTURE, "invalidToken", 1) == Err(InvalidToken)
  {
  }

  /** A user reporting on the enabled movie: the activity is recorded. */
  lemma SuccessfulUserSendActivity(log: seq<Activity>)
    ensures var a := Activity(Some("1"), 1, 140, Some(User(USER_EMAIL)));
      SendActivity(FIXTURE, "validTokenUser", a, log) == Sent(Ok(()), log + [a])
  {
  }

  /** An administrator reporting on the disabled movie: the activity is recorded. */
  lemma SuccessfulAdminSendActivity(log: seq<Activity>)
    ensures var a := Activity(Some("2"), 1, 140, Some(User(ADMIN_EMAIL)));
      SendActivity(FIXTURE, "validTokenAdmin", a, log) == Sent(Ok(()), log + [a])
  {
  }

  /** The sender's email differs from the activity's user: invalid activity. */
  lemma SendActivityDifferentUsers(log: seq<Activity>)
    ensures var a := Activity(Some("1"), 1, 140, Some(User("anotherUser@mail.com")));
      SendActivity(FIXTURE, "validTokenUser", a, log) == Sent(Err(ActivityInvalid), log)
  {
  }

  /** No movie id, or neither movie id nor user: invalid activity. */
  lemma SendActivityMovieOrUserNotSet(log: seq<Activity>)
    ensures var a := Activity(None, 1, 140, Some(User(USER_EMAIL)));
      SendActivity(FIXTURE, "validTokenUser", a, log) == Sent(Err(ActivityInvalid), log)
    ensures var a := Activity(None, 1, 140, None);
      SendActivity(FIXTURE, "validTokenUser", a, log) == Sent(Err(ActivityInvalid), log)
  {
  }

  /** A user whose derived token holds no role reporting on the disabled
      movie: not allowed. */
  lemma SendActivityUserNotAllowed(log: seq<Activity>)
    ensures var a := Activity(Some("2"), 1, 140, Some(User(USER_EMAIL)));
      SendActivity(UNSTUBBED_AUTH, "validTokenUser", a, log) == Sent(Err(UserNotAllowed), log)
  {
  }

  /** Bad tokens are rejected before the activity is looked at. */
  lemma SendActivityBadTokens(log: seq<Activity>)
    ensures var a := Activity(Some("1"), 1, 140, Some(User(USER_EMAIL)));
      SendActivity(FIXTURE, "invalidToken", a, log) == Sent(Err(InvalidToken), log)
    ensures var a := Activity(Some("1"), 1, 140, Some(User(USER_EMAIL)));
      SendActivity(FIXTURE, "expiredToken", a, log) == Sent(Err(TokenExpired), log)
  {
  }

  /** An activity on an absent movie: invalid activity, not MovieNotFound. */
  lemma SendActivityNonExistentMovie(log: seq<Activity>)
    ensures var a := Activity(Some("3"), 1, 140, Some(User(USER_EMAIL)));
      SendActivity(FIXTURE, "validTokenAdmin", a, log) == Sent(Err(ActivityInvalid), log)
  {
  }

  /** The getAd token test; the code as written then returns null. */
  lemma GetAdTests()
    ensures GetAd(FIXTURE, "invalidToken", 1) == Err(InvalidToken)
    ensures GetAd(FIXTURE, "validTokenUser", 1) == Ok(None)
  {
  }
}
