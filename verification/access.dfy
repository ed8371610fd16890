/** The movie-access rule `userAllowedMovie`: an enabled movie is open to
    everyone; a disabled one only to administrators and reviewers, with every
    failing role lookup read as a denial. Role queries are evaluated with Java's
    left-to-right short-circuit `||`, so which roles get consulted depends on
    the earlier answers. */
module Access {
  import opened Domain

  /** The roles the first disjunction of `userAllowedMovie` queries, in order. */
  const PRIVILEGED: seq<Role> := [Administrator, Reviewer]

  /** The roles the second disjunction of `userAllowedMovie` queries, in
      order, once the first one answered false. */
  const UNPRIVILEGED: seq<Role> := [AdProvider, MovieProvider, UserRole]

  /** Every answer before position `i` was a plain `false`. */
  predicate FalseBefore(inRole: RoleOracle, token: Token, roles: seq<Role>, i: int)
    requires 0 <= i <= |roles|
  {
    forall j :: 0 <= j < i ==> inRole(token, roles[j]) == Some(false)
  }

  /** Java's `q(r0) || q(r1) || ...` over role-membership queries that may
      throw: `Some(b)` is the value of the disjunction, `None` that some
      evaluated query threw. */
  function AnyInRole(inRole: RoleOracle, token: Token, roles: seq<Role>): (r: Option<bool>)
    ensures r == Some(false) <==> FalseBefore(inRole, token, roles, |roles|)
    ensures r == Some(true) <==>
      exists i :: 0 <= i < |roles| && inRole(token, roles[i]) == Some(true) && FalseBefore(inRole, token, roles, i)
    ensures r == None <==>
      exists i :: 0 <= i < |roles| && inRole(token, roles[i]) == None && FalseBefore(inRole, token, roles, i)
    decreases |roles|
  {
    if |roles| == 0 then Some(false)
    else
      match inRole(token, roles[0])
      case None => None
      case Some(true) => Some(true)
      case Some(false) =>
        var rest := AnyInRole(inRole, token, roles[1..]);
        assert forall i :: 0 <= i < |roles[1..]| ==>
          (FalseBefore(inRole, token, roles[1..], i) <==> FalseBefore(inRole, token, roles, i + 1));
        assert FalseBefore(inRole, token, roles[1..], |roles[1..]|) <==> FalseBefore(inRole, token, roles, |roles|);
        rest
  }

  /** The roles the disjunction actually queries, in order: it stops after the
      first answer that is not a plain `false`. */
  function Asked(inRole: RoleOracle, token: Token, roles: seq<Role>): (asked: seq<Role>)
    ensures asked <= roles
    ensures forall j :: 0 <= j < |asked| - 1 ==> inRole(token, asked[j]) == Some(false)
    ensures |asked| < |roles| ==> |asked| > 0 && inRole(token, asked[|asked| - 1]) != Some(false)
    decreases |roles|
  {
    if |roles| == 0 then []
    else if inRole(token, roles[0]) == Some(false) then [roles[0]] + Asked(inRole, token, roles[1..])
    else [roles[0]]
  }

  /** The access rule stated flatly, in terms of the two answers that can
      make a difference: an enabled movie is open; a disabled one is open when
      the administrator query answers true, or answers false and the reviewer
      query answers true. */
  predicate AccessSpec(enabled: bool, admin: Option<bool>, reviewer: Option<bool>) {
    enabled || admin == Some(true) || (admin == Some(false) && reviewer == Some(true))
  }

  /** `userAllowedMovie(token, movie)`. */
  function UserAllowedMovie(inRole: RoleOracle, token: Token, movie: Movie): (allowed: bool)
    ensures movie.enabled ==> allowed
    ensures allowed <==> AccessSpec(movie.enabled, inRole(token, Administrator), inRole(token, Reviewer))
  {
    if movie.enabled then true
    else
      match AnyInRole(inRole, token, PRIVILEGED)
      case Some(true) => true
      // The second disjunction then queries UNPRIVILEGED, but each of its
      // outcomes (true, false, or a caught exception) ends in `return false`.
      case Some(false) => false
      case None => false
  }

  /** The role queries `userAllowedMovie` issues, in order. */
  function RolesConsulted(inRole: RoleOracle, token: Token, movie: Movie): (consulted: seq<Role>)
    ensures movie.enabled ==> consulted == []
    ensures consulted <= PRIVILEGED + UNPRIVILEGED
    ensures !movie.enabled ==> |consulted| >= 1
    ensures |consulted| >= 2 <==> !movie.enabled && inRole(token, Administrator) == Some(false)
    ensures |consulted| >= 3 <==>
      !movie.enabled && inRole(token, Administrator) == Some(false) && inRole(token, Reviewer) == Some(false)
    ensures |consulted| >= 4 <==>
      !movie.enabled && inRole(token, Administrator) == Some(false) && inRole(token, Reviewer) == Some(false)
      && inRole(token, AdProvider) == Some(false)
    ensures |consulted| == 5 <==>
      !movie.enabled && inRole(token, Administrator) == Some(false) && inRole(token, Reviewer) == Some(false)
      && inRole(token, AdProvider) == Some(false) && inRole(token, MovieProvider) == Some(false)
  {
    if movie.enabled then []
    else if AnyInRole(inRole, token, PRIVILEGED) == Some(false) then
      assert Asked(inRole, token, PRIVILEGED) == PRIVILEGED;
      PRIVILEGED + Asked(inRole, token, UNPRIVILEGED)
    else Asked(inRole, token, PRIVILEGED)
  }

  /** The disjunction's value and the roles it queries depend only on the
      answers to the roles it queries. */
  lemma {:induction false} AnyInRoleDependsOnlyOnAsked(o1: RoleOracle, o2: RoleOracle, token: Token, roles: seq<Role>)
    requires forall r :: r in Asked(o1, token, roles) ==> o1(token, r) == o2(token, r)
    ensures AnyInRole(o1, token, roles) == AnyInRole(o2, token, roles)
    ensures Asked(o1, token, roles) == Asked(o2, token, roles)
    decreases |roles|
  {
    if |roles| > 0 {
      assert roles[0] in Asked(o1, token, roles);
      if o1(token, roles[0]) == Some(false) {
        var rest := roles[1..];
        assert forall r :: r in Asked(o1, token, rest) ==> r in Asked(o1, token, roles);
        AnyInRoleDependsOnlyOnAsked(o1, o2, token, rest);
      }
    }
  }

  /** `userAllowedMovie` depends on the role oracle only through the queries
      it issues: two oracles that agree on those give the same decision after
      the same queries. */
  lemma AccessDependsOnlyOnConsulted(o1: RoleOracle, o2: RoleOracle, token: Token, movie: Movie)
    requires forall r :: r in RolesConsulted(o1, token, movie) ==> o1(token, r) == o2(token, r)
    ensures UserAllowedMovie(o1, token, movie) == UserAllowedMovie(o2, token, movie)
    ensures RolesConsulted(o1, token, movie) == RolesConsulted(o2, token, movie)
  {
  }

  /** Only the administrator and reviewer answers matter: the ad-provider,
      movie-provider and user queries never change the decision. */
  lemma UnprivilegedRolesIrrelevant(o1: RoleOracle, o2: RoleOracle, token: Token, movie: Movie)
    requires o1(token, Administrator) == o2(token, Administrator)
    requires o1(token, Reviewer) == o2(token, Reviewer)
    ensures UserAllowedMovie(o1, token, movie) == UserAllowedMovie(o2, token, movie)
  {
  }

  /** The rule read as a function of the set of roles a token holds, when
      every role lookup succeeds: a disabled movie is open exactly to holders
      of the administrator or reviewer role, so holding only ad-provider,
      movie-provider or user roles is a denial. */
  lemma AccessByHeldRoles(held: set<Role>, token: Token, movie: Movie)
    ensures UserAllowedMovie((t, r) => Some(r in held), token, movie)
        <==> movie.enabled || Administrator in held || Reviewer in held
    ensures !movie.enabled && held <= {AdProvider, MovieProvider, UserRole} ==>
        !UserAllowedMovie((t, r) => Some(r in held), token, movie)
  {
  }

  /** A lookup failure at an evaluated step denies a disabled movie: a failing
      administrator query, or a failing reviewer query after a plain `false`
      for administrator. */
  lemma LookupFailureDenies(inRole: RoleOracle, token: Token, movie: Movie)
    requires !movie.enabled
    requires inRole(token, Administrator) == None
          || (inRole(token, Administrator) == Some(false) && inRole(token, Reviewer) == None)
    ensures !UserAllowedMovie(inRole, token, movie)
  {
  }
}
