/** A Spotify client for a user, refreshing the stored access token when it has
    expired. Times are seconds on the server clock. */
module SpotifyClientFactory {
  import opened Wrappers
  import opened Entities

  const USER_NOT_FOUND := "User not found"

  /** The tokens a client is built with. */
  datatype SpotifyClient = SpotifyClient(accessToken: Option<string>, refreshToken: Option<string>)

  /** A successful refresh answer; Spotify may or may not rotate the refresh token. */
  datatype Refreshed = Refreshed(accessToken: Option<string>, refreshToken: Option<string>, expiresIn: int)

  /** `isTokenExpired`: no expiry counts as expired; otherwise expired once `now` is
      strictly after it. */
  predicate IsTokenExpired(expiresAt: Option<int>, now: int) {
    expiresAt.None? || now > expiresAt.value
  }

  /** `u` and `v` differ at most in their three Spotify token fields. */
  predicate SameButTokens(u: User, v: User) {
    u.(spotifyAccessToken := v.spotifyAccessToken, spotifyRefreshToken := v.spotifyRefreshToken,
       spotifyTokenExpiresAt := v.spotifyTokenExpiresAt) == v
  }

  /** The user after a refresh: the new access token, the new expiry, and the new
      refresh token only when one was sent. */
  function RefreshedUser(u: User, t: Refreshed, now: int): (r: User)
    ensures SameButTokens(r, u)
    ensures r.spotifyAccessToken == t.accessToken
    ensures r.spotifyRefreshToken == (if t.refreshToken.Some? then t.refreshToken else u.spotifyRefreshToken)
    ensures t.expiresIn >= 0 ==> !IsTokenExpired(r.spotifyTokenExpiresAt, now)
  {
    u.(spotifyAccessToken := t.accessToken,
       spotifyTokenExpiresAt := Some(now + t.expiresIn),
       spotifyRefreshToken := if t.refreshToken.Some? then t.refreshToken else u.spotifyRefreshToken)
  }

  /** A stored refresh token is never lost by refreshing. */
  lemma RefreshKeepsRefreshToken(u: User, t: Refreshed, now: int)
    requires u.spotifyRefreshToken.Some?
    ensures RefreshedUser(u, t, now).spotifyRefreshToken.Some?
  {
  }

  /** Saving a refreshed user touches only the token fields, so the social graph and
      its invariant stay as they were. */
  lemma RefreshKeepsGraph(users: map<UserId, User>, userId: UserId, t: Refreshed, now: int)
    requires userId in users
    requires MatchesAreMutualLikes(users) && SocialClosed(users)
    ensures var after := users[userId := RefreshedUser(users[userId], t, now)];
      MatchesAreMutualLikes(after) && SocialClosed(after)
  {
  }

  /** `getClientForUser`: the client starts with the stored tokens; only an expired
      token is refreshed, and only a successful refresh changes the client and the
      stored user. `refresh` stands for the Spotify call made with the client's
      refresh token (`None` where it throws) and `now` for the clock. */
  method GetClientForUser(repo: UserRepository, userId: UserId, now: int, refresh: Option<string> -> Option<Refreshed>)
    returns (r: Result<SpotifyClient>)
    requires repo.Valid()
    modifies repo
    ensures repo.Valid()
    ensures userId !in old(repo.users) <==> r == Err(USER_NOT_FOUND)
    ensures r.Err? ==> repo.users == old(repo.users)
    ensures r.Ok? ==>
      var u := old(repo.users)[userId];
      var stored := SpotifyClient(u.spotifyAccessToken, u.spotifyRefreshToken);
      if IsTokenExpired(u.spotifyTokenExpiresAt, now) && refresh(u.spotifyRefreshToken).Some? then
        var t := refresh(u.spotifyRefreshToken).value;
        repo.users == old(repo.users)[userId := RefreshedUser(u, t, now)]
        && r.value == SpotifyClient(t.accessToken, RefreshedUser(u, t, now).spotifyRefreshToken)
      else
        repo.users == old(repo.users) && r.value == stored
  {
    var found := repo.FindById(userId);
    if found.None? {
      return Err(USER_NOT_FOUND);
    }
    var user := found.value;
    var client := SpotifyClient(user.spotifyAccessToken, user.spotifyRefreshToken);
    if IsTokenExpired(user.spotifyTokenExpiresAt, now) {
      var tokens := refresh(client.refreshToken);
      if tokens.Some? {
        var t := tokens.value;
        client := client.(accessToken := t.accessToken);
        if t.refreshToken.Some? {
          client := client.(refreshToken := t.refreshToken);
        }
        user := user.(spotifyAccessToken := t.accessToken, spotifyTokenExpiresAt := Some(now + t.expiresIn));
        if t.refreshToken.Some? {
          user := user.(spotifyRefreshToken := t.refreshToken);
        }
        repo.Save(user);
      }
    }
    r := Ok(client);
  }
}
