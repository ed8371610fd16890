/** The four entry points of `MovieManagerImpl`. Each is a fixed sequence of
    checks (token first) ending in a result or a specific failure; the only
    state effect is `sendActivity` appending one activity to the activity log,
    and only once every check has passed. */
module MovieManager {
  import opened Domain
  import opened Access
  import opened JavaLong

  /** The failure a token that does not validate ends a request with. */
  function TokenFailure(status: TokenStatus): (f: Failure)
    requires status != Valid
    ensures f == InvalidToken <==> status == Malformed
    ensures f == TokenExpired <==> status == Expired
  {
    match status
    case Malformed => InvalidToken
    case Expired => TokenExpired
  }

  /** `validateUser` together with the `else` branch every entry point pairs
      it with: malformed tokens throw InvalidTokenException, expired ones
      IllegalArgumentException. */
  function ValidateUser(env: Env, token: Token): (r: Outcome<()>)
    ensures r.Ok? <==> env.tokenStatus(token) == Valid
    ensures r.Err? ==> r.failure in {InvalidToken, TokenExpired}
    ensures env.tokenStatus(token) == Malformed ==> r == Err(InvalidToken)
    ensures env.tokenStatus(token) == Expired ==> r == Err(TokenExpired)
  {
    match env.tokenStatus(token)
    case Valid => Ok(())
    case Expired => Err(TokenExpired)
    case Malformed => Err(InvalidToken)
  }

  /** The access rule's answer for `token` on `movie`, stated through the two
      role answers that decide it. */
  predicate Permitted(env: Env, token: Token, movie: Movie) {
    AccessSpec(movie.enabled, env.inRole(token, Administrator), env.inRole(token, Reviewer))
  }

  /** `getMovie(token, movieId)`: the movie's clips, unchanged, exactly when the
      token is valid, the movie exists and the access rule allows. */
  function GetMovie(env: Env, token: Token, movieId: int): (r: Outcome<seq<Clip>>)
    ensures env.tokenStatus(token) != Valid ==> r == Err(TokenFailure(env.tokenStatus(token)))
    ensures r.Ok? <==>
      env.tokenStatus(token) == Valid && movieId in env.movies && Permitted(env, token, env.movies[movieId])
    ensures r.Ok? ==> r.value == env.movies[movieId].clips
    ensures env.tokenStatus(token) == Valid && movieId !in env.movies ==> r == Err(MovieNotFound)
    ensures env.tokenStatus(token) == Valid && movieId in env.movies && !Permitted(env, token, env.movies[movieId])
      ==> r == Err(UserNotAllowed)
  {
    match ValidateUser(env, token)
    case Err(f) => Err(f)
    case Ok(_) =>
      if movieId !in env.movies then Err(MovieNotFound)
      else
        var movie := env.movies[movieId];
        if UserAllowedMovie(env.inRole, token, movie) then Ok(movie.clips)
        else Err(UserNotAllowed)
  }

  /** `getClipData(token, clipId)`: a valid token passes the clip store's answer
      through unchanged, its not-found error included; no access rule applies. */
  function GetClipData(env: Env, token: Token, clipId: int): (r: Outcome<ClipData>)
    ensures env.tokenStatus(token) != Valid ==> r == Err(TokenFailure(env.tokenStatus(token)))
    ensures r.Ok? <==> env.tokenStatus(token) == Valid && env.clipStore(clipId).Some?
    ensures r.Ok? ==> env.clipStore(clipId) == Some(r.value)
    ensures env.tokenStatus(token) == Valid && env.clipStore(clipId).None? ==> r == Err(ClipNotFound)
  {
    match ValidateUser(env, token)
    case Err(f) => Err(f)
    case Ok(_) =>
      match env.clipStore(clipId)
      case None => Err(ClipNotFound)
      case Some(data) => Ok(data)
  }

  /** `getAd(token, movieId)` as written: a token gate that then returns null
      (`None`) without selecting any ad. */
  function GetAd(env: Env, token: Token, movieId: int): (r: Outcome<Option<ClipData>>)
    ensures env.tokenStatus(token) != Valid ==> r == Err(TokenFailure(env.tokenStatus(token)))
    ensures r.Ok? <==> env.tokenStatus(token) == Valid
    ensures r.Ok? ==> r.value == None
  {
    match ValidateUser(env, token)
    case Err(f) => Err(f)
    case Ok(_) => Ok(None)
  }

  /** The movie id is present and not the empty string. `validateActivity`
      tests emptiness with Java's `==`, which compares object identity; the
      model compares values. */
  predicate MovieIdSet(a: Activity) {
    a.movieId.Some? && a.movieId.value != ""
  }

  /** Everything `validateActivity` demands of an activity, stated directly. */
  predicate ActivityAcceptable(env: Env, a: Activity) {
    && MovieIdSet(a)
    && a.user.Some?
    && ParseLong(a.movieId.value).Some?
    && ParseLong(a.movieId.value).value in env.movies
    && Permitted(env, env.authenticate(a.user.value), env.movies[ParseLong(a.movieId.value).value])
  }

  /** `validateActivity(activity)`: in order, a missing or empty movie id, a
      missing user, an id `Long.parseLong` rejects, an unknown movie, and a
      denial of the access rule for the token `authenticate(user)` derives.
      An unknown movie is an invalid activity, never MovieNotFound. */
  function ValidateActivity(env: Env, a: Activity): (r: Outcome<()>)
    ensures r.Ok? <==> ActivityAcceptable(env, a)
    ensures r.Err? ==> r.failure in {ActivityInvalid, MalformedMovieId, UserNotAllowed}
    ensures !MovieIdSet(a) ==> r == Err(ActivityInvalid)
    ensures MovieIdSet(a) && a.user.None? ==> r == Err(ActivityInvalid)
    ensures MovieIdSet(a) && a.user.Some? && ParseLong(a.movieId.value).None? ==> r == Err(MalformedMovieId)
    ensures (MovieIdSet(a) && a.user.Some? && ParseLong(a.movieId.value).Some?
             && ParseLong(a.movieId.value).value !in env.movies) ==> r == Err(ActivityInvalid)
    ensures (MovieIdSet(a) && a.user.Some? && ParseLong(a.movieId.value).Some?
             && ParseLong(a.movieId.value).value in env.movies
             && !Permitted(env, env.authenticate(a.user.value), env.movies[ParseLong(a.movieId.value).value]))
            ==> r == Err(UserNotAllowed)
    ensures r == Err(UserNotAllowed) ==>
      MovieIdSet(a) && a.user.Some? && ParseLong(a.movieId.value).Some?
      && ParseLong(a.movieId.value).value in env.movies
  {
    if a.movieId == Some("") || a.movieId.None? then Err(ActivityInvalid)
    else if a.user.None? then Err(ActivityInvalid)
    else
      match ParseLong(a.movieId.value)
      case None => Err(MalformedMovieId)
      case Some(id) =>
        if id !in env.movies then Err(ActivityInvalid)
        else if !UserAllowedMovie(env.inRole, env.authenticate(a.user.value), env.movies[id]) then Err(UserNotAllowed)
        else Ok(())
  }

  /** A `sendActivity` call passes every check: valid token, acceptable
      activity, and the token's owner has the activity user's email. */
  predicate Accepted(env: Env, token: Token, a: Activity) {
    && env.tokenStatus(token) == Valid
    && ActivityAcceptable(env, a)
    && env.userOf(token).email == a.user.value.email
  }

  /** The outcome of `sendActivity` and the activity log after it. */
  datatype Sent = Sent(outcome: Outcome<()>, log: seq<Activity>)

  /** `sendActivity(token, activity)` against the activity log `log`. The
      sender check compares emails with Java's `!=`, which compares object
      identity; the model compares values. */
  function SendActivity(env: Env, token: Token, a: Activity, log: seq<Activity>): (r: Sent)
    ensures r.outcome.Ok? <==> Accepted(env, token, a)
    ensures r.outcome.Ok? ==> r.log == log + [a]
    ensures r.outcome.Err? ==> r.log == log
    ensures env.tokenStatus(token) != Valid ==> r.outcome == Err(TokenFailure(env.tokenStatus(token)))
    ensures env.tokenStatus(token) == Valid && ValidateActivity(env, a).Err? ==> r.outcome == ValidateActivity(env, a)
    ensures (env.tokenStatus(token) == Valid && ActivityAcceptable(env, a)
             && env.userOf(token).email != a.user.value.email) ==> r.outcome == Err(ActivityInvalid)
    ensures r.outcome != Err(MovieNotFound) && r.outcome != Err(ClipNotFound)
  {
    match ValidateUser(env, token)
    case Err(f) => Sent(Err(f), log)
    case Ok(_) =>
      match ValidateActivity(env, a)
      case Err(f) => Sent(Err(f), log)
      case Ok(_) =>
        if env.userOf(token).email != a.user.value.email then Sent(Err(ActivityInvalid), log)
        else Sent(Ok(()), log + [a])
  }

  /** The log after a series of `sendActivity` calls, one per request, in order. */
  function SendAll(env: Env, requests: seq<(Token, Activity)>, log: seq<Activity>): (final: seq<Activity>)
    ensures log <= final
    ensures |final| <= |log| + |requests|
    decreases |requests|
  {
    if |requests| == 0 then log
    else SendAll(env, requests[1..], SendActivity(env, requests[0].0, requests[0].1, log).log)
  }

  /** The activities of the accepted requests, in request order. */
  function AcceptedActivities(env: Env, requests: seq<(Token, Activity)>): seq<Activity>
    decreases |requests|
  {
    if |requests| == 0 then []
    else
      (if Accepted(env, requests[0].0, requests[0].1) then [requests[0].1] else [])
      + AcceptedActivities(env, requests[1..])
  }

  /** The activity log is append-only: after any series of calls it is the
      original log followed by exactly the accepted activities, in order. */
  lemma {:induction false} SendAllAppendsAccepted(env: Env, requests: seq<(Token, Activity)>, log: seq<Activity>)
    ensures SendAll(env, requests, log) == log + AcceptedActivities(env, requests)
    decreases |requests|
  {
    if |requests| > 0 {
      var (token, a) := requests[0];
      var next := SendActivity(env, token, a, log).log;
      SendAllAppendsAccepted(env, requests[1..], next);
      var head := if Accepted(env, token, a) then [a] else [];
      assert next == log + head;
      assert log + head + AcceptedActivities(env, requests[1..])
          == log + (head + AcceptedActivities(env, requests[1..]));
    }
  }

  /** The token is checked first: a token that does not validate ends every
      entry point with its token failure, whatever the movie store, the role
      oracle, the clip store and the other collaborators hold, and leaves the
      activity log unchanged. */
  lemma TokenCheckedFirst(env: Env, other: Env, token: Token, movieId: int, clipId: int, a: Activity, log: seq<Activity>)
    requires env.tokenStatus(token) != Valid
    requires other.tokenStatus(token) == env.tokenStatus(token)
    ensures GetMovie(env, token, movieId) == GetMovie(other, token, movieId)
    ensures GetClipData(env, token, clipId) == GetClipData(other, token, clipId)
    ensures GetAd(env, token, movieId) == GetAd(other, token, movieId)
    ensures SendActivity(env, token, a, log) == SendActivity(other, token, a, log)
    ensures SendActivity(env, token, a, log).log == log
  {
  }

  /** No access rule applies to clips: with the same token status and clip
      store answer, the movie store and role oracle make no difference. */
  lemma ClipDataIgnoresAuthorization(env: Env, other: Env, token: Token, clipId: int)
    requires other.tokenStatus(token) == env.tokenStatus(token)
    requires other.clipStore(clipId) == env.clipStore(clipId)
    ensures GetClipData(env, token, clipId) == GetClipData(other, token, clipId)
  {
  }

  /** An unknown movie id is MovieNotFound for a valid token whatever roles
      the token holds. */
  lemma UnknownMovieIndependentOfRoles(env: Env, roles: RoleOracle, token: Token, movieId: int)
    requires env.tokenStatus(token) == Valid
    requires movieId !in env.movies
    ensures GetMovie(env.(inRole := roles), token, movieId) == Err(MovieNotFound)
  {
  }
}
