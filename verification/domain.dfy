/** The entities the movie manager works on, and the environment of external
    collaborators (authentication handler, role and movie stores, clip storage)
    that it consults. Collaborators are modelled as pure oracles: whatever they
    answer for a given argument is fixed for the duration of one request. */
module Domain {

  /** Conventional optional value; `None` stands for Java's null or for a
      lookup that threw. */
  datatype Option<+T> = None | Some(value: T)

  /** The error kinds a request can end with. */
  datatype Failure =
    | InvalidToken       // InvalidTokenException: the token is malformed
    | TokenExpired       // IllegalArgumentException("User token has expired")
    | MovieNotFound      // MovieNotFoundException from the movie store
    | UserNotAllowed     // UserNotAllowedException
    | ActivityInvalid    // ValuesInActivityException
    | ClipNotFound       // the clip store's not-found error, passed through
    | MalformedMovieId   // NumberFormatException from Long.parseLong, uncaught

  /** The result of a request: a value or the failure it ended with. */
  datatype Outcome<+T> = Ok(value: T) | Err(failure: Failure)

  /** The roles of the role catalog, in the order the access rule queries them. */
  datatype Role = Administrator | Reviewer | AdProvider | MovieProvider | UserRole

  /** What the authentication handler says about a token: `validateToken`
      returns true (Valid), returns false (Expired) or throws (Malformed). */
  datatype TokenStatus = Valid | Expired | Malformed

  type Token = string

  datatype User = User(email: string)

  datatype Clip = Clip(id: int)

  datatype ClipData = ClipData(clipId: int, uri: string)

  datatype Movie = Movie(enabled: bool, clips: seq<Clip>)

  /** A playback-progress report. `movieId` and `user` may be absent (null);
      `position` and `time` are carried but never checked. */
  datatype Activity = Activity(movieId: Option<string>, position: int, time: int, user: Option<User>)

  /** Role-membership query: `None` means the role lookup or the membership
      check threw (RoleNotFoundException or InvalidTokenException). */
  type RoleOracle = (Token, Role) -> Option<bool>

  /** The collaborators one request can consult. */
  datatype Env = Env(
    tokenStatus: Token -> TokenStatus,
    inRole: RoleOracle,
    movies: map<int, Movie>,
    userOf: Token -> User,
    authenticate: User -> Token,
    clipStore: int -> Option<ClipData>)
}
