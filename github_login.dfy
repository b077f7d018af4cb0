/** Sign-in with GitHub: the passport verify callback that finds or creates
    the local account for a GitHub profile, the callback URL the strategy is
    registered with, and the redirect `GET /api/auth/github/callback` sends
    back to the client. */
module GithubLogin {
  import opened Base
  import opened Crypto
  import opened Users

  /** The fields of the passport profile the callback reads. `photos` is
      `None` when it is not an array; an element is `None` when it has no
      `value`. */
  datatype Profile = Profile(id: string, username: string, photos: Option<seq<Option<string>>>)

  /** `done(null, user)` or `done(err, null)`. */
  datatype Outcome = Done(user: User) | Failed

  /** `Array.isArray(photos) && photos.length ? photos[0].value : null` */
  function Avatar(photos: Option<seq<Option<string>>>): (url: Option<string>)
    ensures photos.None? || photos.value == [] ==> url.None?
    ensures photos.Some? && photos.value != [] ==> url == photos.value[0]
  {
    if photos.Some? && |photos.value| > 0 then photos.value[0] else None
  }

  /** Some account is linked to GitHub id `gid`. */
  predicate Linked(users: map<int, User>, gid: string) {
    exists uid :: uid in users && users[uid].githubId == Some(gid)
  }

  predicate UsernameTaken(users: map<int, User>, username: string) {
    exists uid :: uid in users && users[uid].username == username
  }

  /** The account a first GitHub sign-in creates: no email, no password. */
  function GithubUser(id: int, accessToken: string, profile: Profile, nowMs: int): User {
    User(id, profile.username, None, None, Some(profile.id), Avatar(profile.photos), Some(accessToken), nowMs)
  }

  /** The verify callback. A linked account gets the new access token and is
      returned as it was read, before the update. Otherwise a new account is
      inserted, unless the GitHub login is already somebody's username, which
      breaks the UNIQUE constraint and fails the callback. */
  method VerifyCallback(store: UserStore, accessToken: string, profile: Profile, nowMs: int)
    returns (outcome: Outcome)
    requires store.Valid()
    modifies store
    ensures store.Valid() && store.resets == old(store.resets) && store.nextResetId == old(store.nextResetId)
    ensures Linked(old(store.users), profile.id) ==>
      && store.users.Keys == old(store.users.Keys) && store.nextUserId == old(store.nextUserId)
      && (exists uid :: uid in old(store.users) && old(store.users)[uid].githubId == Some(profile.id)
            && outcome == Done(old(store.users)[uid])
            && store.users == old(store.users)[uid := old(store.users)[uid].(githubAccessToken := Some(accessToken))])
    ensures !Linked(old(store.users), profile.id) && UsernameTaken(old(store.users), profile.username) ==>
      outcome == Failed && store.users == old(store.users) && store.nextUserId == old(store.nextUserId)
    ensures !Linked(old(store.users), profile.id) && !UsernameTaken(old(store.users), profile.username) ==>
      && outcome == Done(GithubUser(old(store.nextUserId), accessToken, profile, nowMs))
      && store.users == old(store.users)[old(store.nextUserId) := outcome.user]
      && store.nextUserId == old(store.nextUserId) + 1
    ensures outcome.Done? ==>
      outcome.user.id in store.users && store.users[outcome.user.id].githubId == Some(profile.id)
  {
    if Linked(store.users, profile.id) {
      var uid :| uid in store.users && store.users[uid].githubId == Some(profile.id);
      var user := store.users[uid];
      store.SetAccessToken(uid, accessToken);
      return Done(user);
    }
    if UsernameTaken(store.users, profile.username) {
      return Failed;
    }
    var user := GithubUser(store.nextUserId, accessToken, profile, nowMs);
    store.Insert(user);
    outcome := Done(user);
  }

  /** Signing in with the same GitHub profile again finds the account the first
      sign-in created or found: the second call inserts no user. */
  method SignInTwice(store: UserStore, firstToken: string, secondToken: string, profile: Profile, nowMs: int)
    returns (first: Outcome, second: Outcome)
    requires store.Valid()
    modifies store
    ensures store.Valid()
    ensures first.Done? ==> second.Done? && second.user.id == first.user.id
    ensures first.Done? ==> old(store.users.Keys) + {first.user.id} == store.users.Keys
  {
    first := VerifyCallback(store, firstToken, profile, nowMs);
    ghost var between := store.users;
    second := VerifyCallback(store, secondToken, profile, nowMs);
    if first.Done? {
      assert store.users.Keys == between.Keys;
      forall a | a in between && between[a].githubId == Some(profile.id) ensures a == first.user.id {
      }
    }
  }

  /** The `callbackURL` the strategy is registered with: under `SERVER_URL`
      when that is set, else on localhost at `PORT`, by default 6969. */
  function CallbackUrl(serverUrl: Option<string>, port: Option<string>): (url: string)
  {
    if Truthy(serverUrl) then serverUrl.value + CallbackPath
    else "http://localhost:" + (if Truthy(port) then port.value else "6969") + CallbackPath
  }

  const CallbackPath := "/api/auth/github/callback"

  /** The URL always ends in the callback route; what precedes it is the
      configured server URL, or the localhost origin on the configured or
      default port. */
  lemma CallbackUrlShape(serverUrl: Option<string>, port: Option<string>)
    ensures var url := CallbackUrl(serverUrl, port);
      && |url| >= |CallbackPath| && url[|url| - |CallbackPath|..] == CallbackPath
      && (Truthy(serverUrl) ==> url[..|url| - |CallbackPath|] == serverUrl.value)
      && (!Truthy(serverUrl) && Truthy(port) ==> url[..|url| - |CallbackPath|] == "http://localhost:" + port.value)
      && (!Truthy(serverUrl) && !Truthy(port) ==> url[..|url| - |CallbackPath|] == "http://localhost:6969")
  {
    var host := if Truthy(serverUrl) then serverUrl.value
      else "http://localhost:" + (if Truthy(port) then port.value else "6969");
    var url := CallbackUrl(serverUrl, port);
    assert url == host + CallbackPath;
    assert url[|host|..] == CallbackPath;
    assert url[..|host|] == host;
  }

  /** How a template literal prints an environment variable: an unset one as
      "undefined". */
  function Interpolate(v: Option<string>): string {
    if v.None? then "undefined" else v.value
  }

  /** The redirect the `/github/callback` route sends once passport has the
      user: a fresh 30-day session token for that user's id, handed to the
      client's `/auth/callback` page as a query parameter. */
  function CallbackRedirect(clientUrl: Option<string>, signer: Signer, user: User, nowMs: nat): (location: string)
  {
    Interpolate(clientUrl) + "/auth/callback?token=" + Issue(signer, user.id, nowMs)
  }

  /** The token in the redirect verifies, for the signed-in user's id, for the
      next thirty days. */
  lemma RedirectCarriesSession(clientUrl: Option<string>, signer: Signer, user: User, issuedMs: nat, nowMs: nat)
    requires signer.Sound()
    requires Seconds(nowMs) < Seconds(issuedMs) + TokenLifetimeSeconds
    ensures var location := CallbackRedirect(clientUrl, signer, user, issuedMs);
      var prefix := Interpolate(clientUrl) + "/auth/callback?token=";
      && location[..|prefix|] == prefix
      && Verify(signer, Some(location[|prefix|..]), nowMs).Some?
      && Verify(signer, Some(location[|prefix|..]), nowMs).value.id == user.id
  {
    var prefix := Interpolate(clientUrl) + "/auth/callback?token=";
    var token := Issue(signer, user.id, issuedMs);
    assert CallbackRedirect(clientUrl, signer, user, issuedMs)[|prefix|..] == token;
    IssueThenVerify(signer, user.id, issuedMs, nowMs);
  }
}
