/** The `/api/auth` routes over the `users` and `password_resets` tables:
    register, login, the caller's own profile (read and update), the
    current-password check, and the forgot / validate / redeem steps of a
    password reset. */
module Users {
  import opened Base
  import opened Crypto
  import opened Sql

  datatype User = User(
    id: int,
    username: string,
    email: Option<string>,
    passwordHash: Option<Digest>,
    githubId: Option<string>,
    avatarUrl: Option<string>,
    githubAccessToken: Option<string>,
    createdAt: int)

  /** The columns `GET /me` and `PUT /me` send back: no hash, no GitHub
      access token. */
  datatype PublicUser = PublicUser(
    id: int,
    username: string,
    email: Option<string>,
    avatarUrl: Option<string>,
    githubId: Option<string>,
    createdAt: int)

  function Public(u: User): PublicUser {
    PublicUser(u.id, u.username, u.email, u.avatarUrl, u.githubId, u.createdAt)
  }

  /** A row of `password_resets`; the table is keyed by its unique token. */
  datatype ResetRecord = ResetRecord(id: int, userId: int, expiresAt: int, used: bool)

  /** A reset link is good for one hour. */
  const ResetLifetimeMs: int := 1000 * 60 * 60

  const ResetSentMessage := "If that email exists, a reset link has been sent"

  // ---------------------------------------------------------------------
  // Table constraints
  // ---------------------------------------------------------------------

  predicate UniqueUsernames(users: map<int, User>) {
    forall a, b :: a in users && b in users && users[a].username == users[b].username ==> a == b
  }

  /** `NULL` emails (GitHub accounts) never collide. */
  predicate UniqueEmails(users: map<int, User>) {
    forall a, b :: a in users && b in users && users[a].email.Some? && users[a].email == users[b].email ==> a == b
  }

  predicate UniqueGithubIds(users: map<int, User>) {
    forall a, b :: a in users && b in users && users[a].githubId.Some? && users[a].githubId == users[b].githubId
      ==> a == b
  }

  /** The `password_resets` primary key: no two tokens share a record id, so
      `WHERE id = $1` and `WHERE token = $1` name the same row. */
  predicate UniqueResetIds(resets: map<string, ResetRecord>) {
    forall t1, t2 :: t1 in resets && t2 in resets && resets[t1].id == resets[t2].id ==> t1 == t2
  }

  /** A row may replace user `id` without breaking a uniqueness constraint:
      no other user has its username, its email or its GitHub id. */
  predicate FreeFor(users: map<int, User>, id: int, u: User) {
    forall b :: b in users && b != id ==>
      && users[b].username != u.username
      && (u.email.Some? ==> users[b].email != u.email)
      && (u.githubId.Some? ==> users[b].githubId != u.githubId)
  }

  lemma PutKeepsUnique(users: map<int, User>, id: int, u: User)
    requires UniqueUsernames(users) && UniqueEmails(users) && UniqueGithubIds(users)
    requires FreeFor(users, id, u)
    ensures var users' := users[id := u];
      UniqueUsernames(users') && UniqueEmails(users') && UniqueGithubIds(users')
  {
  }

  /** A user has a way to sign in: a password hash or a linked GitHub
      account. */
  predicate CanSignIn(u: User) {
    Truthy(u.passwordHash) || u.githubId.Some?
  }

  /** `used` only ever goes from false to true, and a record is never removed
      or otherwise changed. */
  predicate UsedMonotone(before: map<string, ResetRecord>, after: map<string, ResetRecord>) {
    forall t :: t in before ==>
      && t in after
      && after[t].(used := before[t].used) == before[t]
      && (before[t].used ==> after[t].used)
  }

  // ---------------------------------------------------------------------
  // Decisions that read no state
  // ---------------------------------------------------------------------

  /** The checks `GET /reset/:token` and `POST /reset/:token` run on the record
      found for the token, in order: missing, used, expired. `None` means the
      token may be redeemed. The expiry test is `expires_at < now`, so a
      record expiring this very millisecond still passes. */
  function ResetRejection(rec: Option<ResetRecord>, nowMs: int): (r: Option<Response<()>>)
    ensures r.None? <==> rec.Some? && !rec.value.used && nowMs <= rec.value.expiresAt
    ensures r.Some? ==> r.value.status in {400, 404}
    ensures rec.None? ==> r == Some(Reply(404, "Invalid token"))
  {
    if rec.None? then Some(Reply(404, "Invalid token"))
    else if rec.value.used then Some(Reply(400, "Token already used"))
    else if rec.value.expiresAt < nowMs then Some(Reply(400, "Token expired"))
    else None
  }

  /** A used record is refused as used whatever the clock says, before its
      expiry is looked at. */
  lemma UsedBeatsExpired(rec: ResetRecord, nowMs: int)
    requires rec.used
    ensures ResetRejection(Some(rec), nowMs) == Some(Reply(400, "Token already used"))
  {
  }

  /** A fresh record is accepted up to and including its expiry instant and
      refused as expired from the next millisecond on. */
  lemma ResetWindow(rec: ResetRecord, nowMs: int)
    requires !rec.used
    ensures ResetRejection(Some(rec), nowMs).None? <==> nowMs <= rec.expiresAt
    ensures rec.expiresAt < nowMs ==> ResetRejection(Some(rec), nowMs) == Some(Reply(400, "Token expired"))
  {
  }

  /** The conflict test of `POST /register`:
      `WHERE email = $1 OR username = $2`. */
  predicate RegisterConflict(users: map<int, User>, username: string, email: string) {
    exists id :: id in users && (users[id].email == Some(email) || users[id].username == username)
  }

  /** The conflict test of `PUT /me`:
      `WHERE (username = $1 OR email = $2) AND id <> $3` with the fields
      that were not supplied sent as ''. A `NULL` email never equals ''. */
  predicate ProfileConflict(users: map<int, User>, userId: int, username: string, email: string) {
    exists id :: id in users && id != userId && (users[id].username == username || users[id].email == Some(email))
  }

  /** A user whose email is `email`, whose hash is truthy and matches. */
  predicate PasswordMatches(users: map<int, User>, hasher: Hasher, email: string, password: string, id: int) {
    && id in users && users[id].email == Some(email)
    && Truthy(users[id].passwordHash)
    && hasher.compare(password, users[id].passwordHash.value)
  }

  /** Why `PUT /me` refuses a request, if it does, in the order the handler
      checks: nothing supplied, a username or email another user holds, then
      the current-password gate of an account that has a password. */
  function ProfileRejection(users: map<int, User>, hasher: Hasher, userId: int, username: Option<string>,
                            email: Option<string>, password: Option<string>, currentPassword: Option<string>)
    : (r: Option<Response<Option<PublicUser>>>)
    ensures r.Some? ==> r.value.status in {400, 401}
    ensures r.None? ==> Truthy(username) || Truthy(email) || Truthy(password)
    ensures !Truthy(username) && !Truthy(email) && !Truthy(password) ==> r == Some(Reply(400, "No fields to update"))
  {
    if !Truthy(username) && !Truthy(email) && !Truthy(password) then
      Some(Reply(400, "No fields to update"))
    else if (Truthy(username) || Truthy(email)) && ProfileConflict(users, userId, OrEmpty(username), OrEmpty(email)) then
      Some(Reply(400, "Username or email already in use"))
    else if Truthy(password) && userId in users && Truthy(users[userId].passwordHash) then
      if !Truthy(currentPassword) then Some(Reply(400, "currentPassword is required to change password"))
      else if !hasher.compare(currentPassword.value, users[userId].passwordHash.value) then
        Some(Reply(401, "Current password is incorrect"))
      else None
    else None
  }

  /** Keeping one's own username or email is not a conflict: only other
      users' rows are compared. */
  lemma OwnRowNoConflict(users: map<int, User>, hasher: Hasher, userId: int)
    requires userId in users && UniqueUsernames(users) && UniqueEmails(users)
    requires users[userId].email.Some? && users[userId].email.value != ""
    ensures ProfileRejection(users, hasher, userId, Some(users[userId].username), users[userId].email, None, None)
      == None
  {
    var u := users[userId];
    forall id | id in users && id != userId
      ensures users[id].username != u.username && users[id].email != u.email
    {
    }
  }

  /** A username held by another user is refused. */
  lemma OtherRowConflict(users: map<int, User>, hasher: Hasher, userId: int, other: int,
                         password: Option<string>, currentPassword: Option<string>)
    requires other in users && other != userId && users[other].username != ""
    ensures ProfileRejection(users, hasher, userId, Some(users[other].username), None, password, currentPassword)
      == Some(Reply(400, "Username or email already in use"))
  {
  }

  /** An email held by another user is refused, whether or not a username
      is sent along. */
  lemma OtherEmailConflict(users: map<int, User>, hasher: Hasher, userId: int, other: int, username: Option<string>,
                           password: Option<string>, currentPassword: Option<string>)
    requires other in users && other != userId
    requires users[other].email.Some? && users[other].email.value != ""
    ensures ProfileRejection(users, hasher, userId, username, users[other].email, password, currentPassword)
      == Some(Reply(400, "Username or email already in use"))
  {
  }

  /** Changing only the password skips the uniqueness test altogether. */
  lemma PasswordOnlySkipsConflict(users: map<int, User>, hasher: Hasher, userId: int, password: string,
                                  currentPassword: Option<string>)
    requires password != ""
    requires userId in users ==> !Truthy(users[userId].passwordHash)
    ensures ProfileRejection(users, hasher, userId, None, None, Some(password), currentPassword) == None
  {
  }

  /** An account with a password needs the right current password to change
      it: none gives 400, a wrong one 401. */
  lemma PasswordGate(users: map<int, User>, hasher: Hasher, userId: int, password: string,
                     currentPassword: Option<string>)
    requires password != "" && userId in users && Truthy(users[userId].passwordHash)
    ensures !Truthy(currentPassword) ==>
      ProfileRejection(users, hasher, userId, None, None, Some(password), currentPassword)
        == Some(Reply(400, "currentPassword is required to change password"))
    ensures Truthy(currentPassword) && !hasher.compare(currentPassword.value, users[userId].passwordHash.value) ==>
      ProfileRejection(users, hasher, userId, None, None, Some(password), currentPassword)
        == Some(Reply(401, "Current password is incorrect"))
    ensures Truthy(currentPassword) && hasher.compare(currentPassword.value, users[userId].passwordHash.value) ==>
      ProfileRejection(users, hasher, userId, None, None, Some(password), currentPassword) == None
  {
  }

  // ---------------------------------------------------------------------
  // The SET list of PUT /me
  // ---------------------------------------------------------------------

  datatype UserColumn = UsernameCol | EmailCol | PasswordHashCol

  /** The columns `PUT /me` sets: those whose field is truthy, in the order
      username, email, password hash. */
  function ProfileColumns(username: Option<string>, email: Option<string>, password: Option<string>)
    : seq<UserColumn> {
    (if Truthy(username) then [UsernameCol] else []) + (if Truthy(email) then [EmailCol] else [])
    + (if Truthy(password) then [PasswordHashCol] else [])
  }

  /** The parameter `PUT /me` binds for a column: the new username, the new
      email, or the hash of the new password. */
  function ProfileParam(c: UserColumn, username: Option<string>, email: Option<string>, password: Option<string>,
                        hasher: Hasher): SqlValue {
    match c
    case UsernameCol => SqlText(OrEmpty(username))
    case EmailCol => SqlText(OrEmpty(email))
    case PasswordHashCol => SqlText(hasher.hash(OrEmpty(password)))
  }

  function ProfileParams(cols: seq<UserColumn>, username: Option<string>, email: Option<string>,
                         password: Option<string>, hasher: Hasher): (r: seq<SqlValue>)
    ensures |r| == |cols|
    ensures forall k :: 0 <= k < |cols| ==> r[k] == ProfileParam(cols[k], username, email, password, hasher)
  {
    seq(|cols|, k requires 0 <= k < |cols| => ProfileParam(cols[k], username, email, password, hasher))
  }

  lemma ProfileParamsSnoc(cols: seq<UserColumn>, c: UserColumn, username: Option<string>, email: Option<string>,
                          password: Option<string>, hasher: Hasher)
    ensures ProfileParams(cols + [c], username, email, password, hasher)
      == ProfileParams(cols, username, email, password, hasher) + [ProfileParam(c, username, email, password, hasher)]
  {
    var a := ProfileParams(cols + [c], username, email, password, hasher);
    var b := ProfileParams(cols, username, email, password, hasher) + [ProfileParam(c, username, email, password, hasher)];
    assert |a| == |b|;
    forall k | 0 <= k < |a| ensures a[k] == b[k] {
      if k < |cols| { assert (cols + [c])[k] == cols[k]; }
    }
  }

  /** One `if (field) { fields.push(`col = $${idx++}`); params.push(v); }` of
      the `PUT /me` builder. */
  method PushIfTruthy(present: bool, c: UserColumn, v: SqlValue,
                      fields: seq<Assignment<UserColumn>>, params: seq<SqlValue>, idx: nat,
                      ghost cols: seq<UserColumn>, ghost username: Option<string>, ghost email: Option<string>,
                      ghost password: Option<string>, ghost hasher: Hasher)
    returns (fields': seq<Assignment<UserColumn>>, params': seq<SqlValue>, idx': nat)
    requires fields == Numbering(cols) && params == ProfileParams(cols, username, email, password, hasher)
    requires idx == |cols| + 1
    requires present ==> v == ProfileParam(c, username, email, password, hasher)
    ensures fields' == Numbering(cols + (if present then [c] else []))
    ensures params' == ProfileParams(cols + (if present then [c] else []), username, email, password, hasher)
    ensures idx' == |fields'| + 1
  {
    fields', params', idx' := fields, params, idx;
    if present {
      NumberingSnoc(cols, c);
      ProfileParamsSnoc(cols, c, username, email, password, hasher);
      fields' := fields' + [Assignment(c, idx')];
      idx' := idx' + 1;
      params' := params' + [v];
    } else {
      assert cols + [] == cols;
    }
  }

  /** The field builder of `PUT /me`: one item per truthy field, numbered
      $1..$n, then the caller's id as $n+1. */
  method BuildProfileUpdate(username: Option<string>, email: Option<string>, password: Option<string>,
                            hasher: Hasher, userId: int)
    returns (fields: seq<Assignment<UserColumn>>, params: seq<SqlValue>, idIndex: nat)
    ensures fields == Numbering(ProfileColumns(username, email, password))
    ensures params == ProfileParams(ProfileColumns(username, email, password), username, email, password, hasher)
                      + [SqlInt(userId)]
    ensures idIndex == |fields| + 1
  {
    fields, params := [], [];
    var idx := 1;
    ghost var cols: seq<UserColumn> := [];
    fields, params, idx := PushIfTruthy(Truthy(username), UsernameCol, SqlText(OrEmpty(username)), fields, params,
                                        idx, cols, username, email, password, hasher);
    cols := if Truthy(username) then [UsernameCol] else [];
    fields, params, idx := PushIfTruthy(Truthy(email), EmailCol, SqlText(OrEmpty(email)), fields, params,
                                        idx, cols, username, email, password, hasher);
    cols := cols + (if Truthy(email) then [EmailCol] else []);
    var hash := if Truthy(password) then hasher.hash(password.value) else "";
    fields, params, idx := PushIfTruthy(Truthy(password), PasswordHashCol, SqlText(hash), fields, params,
                                        idx, cols, username, email, password, hasher);
    cols := cols + (if Truthy(password) then [PasswordHashCol] else []);
    params := params + [SqlInt(userId)];
    idIndex := idx;
  }

  /** What the database does with the `SET` list on one user row. */
  function ApplyProfileSet(u: User, fields: seq<Assignment<UserColumn>>, params: seq<SqlValue>): User {
    u.(username := match AssignedValue(fields, params, UsernameCol)
                   case Some(SqlText(s)) => s
                   case _ => u.username,
       email := match AssignedValue(fields, params, EmailCol)
                case Some(SqlText(s)) => Some(s)
                case _ => u.email,
       passwordHash := match AssignedValue(fields, params, PasswordHashCol)
                       case Some(SqlText(s)) => Some(s)
                       case _ => u.passwordHash)
  }

  /** The row as `PUT /me` means to leave it: each truthy field replaced, the
      password by its hash, everything else kept. */
  function ProfileEdited(u: User, username: Option<string>, email: Option<string>, password: Option<string>,
                         hasher: Hasher): User {
    u.(username := if Truthy(username) then username.value else u.username,
       email := if Truthy(email) then email else u.email,
       passwordHash := if Truthy(password) then Some(hasher.hash(password.value)) else u.passwordHash)
  }

  lemma ProfileColumnsMembers(username: Option<string>, email: Option<string>, password: Option<string>)
    ensures UsernameCol in ProfileColumns(username, email, password) <==> Truthy(username)
    ensures EmailCol in ProfileColumns(username, email, password) <==> Truthy(email)
    ensures PasswordHashCol in ProfileColumns(username, email, password) <==> Truthy(password)
  {
    var a := if Truthy(username) then [UsernameCol] else [];
    var b := if Truthy(email) then [EmailCol] else [];
    var c := if Truthy(password) then [PasswordHashCol] else [];
    assert ProfileColumns(username, email, password) == a + b + c;
    forall x: UserColumn ensures x in a + b + c <==> x in a || x in b || x in c {
    }
  }

  /** Run against the caller's row, the list `BuildProfileUpdate` produces
      changes exactly the supplied fields. */
  lemma ProfileSetMeaning(u: User, username: Option<string>, email: Option<string>, password: Option<string>,
                          hasher: Hasher, extra: seq<SqlValue>)
    ensures var cols := ProfileColumns(username, email, password);
      ApplyProfileSet(u, Numbering(cols), ProfileParams(cols, username, email, password, hasher) + extra)
        == ProfileEdited(u, username, email, password, hasher)
  {
    var cols := ProfileColumns(username, email, password);
    var vals := ProfileParams(cols, username, email, password, hasher);
    ProfileColumnsMembers(username, email, password);
    AssignedValueOf(cols, vals, extra, UsernameCol);
    AssignedValueOf(cols, vals, extra, EmailCol);
    AssignedValueOf(cols, vals, extra, PasswordHashCol);
  }

  /** A profile edit that passed the conflict test breaks no uniqueness
      constraint: a changed username or email was compared against every
      other row, and an unchanged one was unique already. */
  lemma EditedIsFree(users: map<int, User>, userId: int, username: Option<string>, email: Option<string>,
                     password: Option<string>, hasher: Hasher)
    requires userId in users && UniqueUsernames(users) && UniqueEmails(users) && UniqueGithubIds(users)
    requires Truthy(username) || Truthy(email) ==> !ProfileConflict(users, userId, OrEmpty(username), OrEmpty(email))
    ensures FreeFor(users, userId, ProfileEdited(users[userId], username, email, password, hasher))
  {
  }

  // ---------------------------------------------------------------------
  // The store
  // ---------------------------------------------------------------------

  class UserStore {
    const hasher: Hasher
    const signer: Signer
    var users: map<int, User>
    var nextUserId: int
    var resets: map<string, ResetRecord>
    var nextResetId: int

    /** Rows are keyed by their SERIAL id, below the next one handed out;
        usernames, emails and GitHub ids are unique; every user can sign in
        somehow; every reset record belongs to an existing user, and reset
        record ids are unique. */
    ghost predicate Valid()
      reads this
    {
      && hasher.Sound()
      && (forall id :: id in users ==> users[id].id == id && id < nextUserId)
      && UniqueUsernames(users) && UniqueEmails(users) && UniqueGithubIds(users)
      && (forall id :: id in users ==> CanSignIn(users[id]))
      && (forall t :: t in resets ==> resets[t].userId in users && resets[t].id < nextResetId)
      && UniqueResetIds(resets)
    }

    constructor (hasher: Hasher, signer: Signer)
      requires hasher.Sound()
      ensures Valid() && this.hasher == hasher && this.signer == signer
      ensures users == map[] && resets == map[]
    {
      this.hasher := hasher;
      this.signer := signer;
      users := map[];
      nextUserId := 1;
      resets := map[];
      nextResetId := 1;
    }

    /** `SELECT ... FROM users WHERE email = $1` */
    function WithEmail(email: string): (ids: set<int>)
      reads this
      ensures forall id :: id in ids <==> id in users && users[id].email == Some(email)
    {
      set id | id in users && users[id].email == Some(email)
    }

    /** `INSERT INTO users ... RETURNING *` with the next SERIAL id. */
    method Insert(u: User)
      requires Valid() && u.id == nextUserId && FreeFor(users, u.id, u) && CanSignIn(u)
      modifies this
      ensures Valid() && users == old(users)[old(nextUserId) := u] && nextUserId == old(nextUserId) + 1
      ensures resets == old(resets) && nextResetId == old(nextResetId)
    {
      PutKeepsUnique(users, u.id, u);
      users := users[u.id := u];
      nextUserId := nextUserId + 1;
    }

    /** `UPDATE users SET github_access_token = $1 WHERE github_id = $2`: the
        GitHub id is unique, so this is the one row of user `uid`. */
    method SetAccessToken(uid: int, accessToken: string)
      requires Valid() && uid in users
      modifies this
      ensures Valid() && users == old(users)[uid := old(users)[uid].(githubAccessToken := Some(accessToken))]
      ensures nextUserId == old(nextUserId) && resets == old(resets) && nextResetId == old(nextResetId)
    {
      PutKeepsUnique(users, uid, users[uid].(githubAccessToken := Some(accessToken)));
      users := users[uid := users[uid].(githubAccessToken := Some(accessToken))];
    }

    /** `POST /api/auth/register` */
    method Register(username: Option<string>, email: Option<string>, password: Option<string>, nowMs: nat)
      returns (r: Response<string>)
      requires Valid()
      modifies this
      ensures Valid() && resets == old(resets)
      ensures !(Truthy(username) && Truthy(email) && Truthy(password)) ==>
        r == Reply(400, "username, email and password are required") && users == old(users)
      ensures Truthy(username) && Truthy(email) && Truthy(password) ==>
        if RegisterConflict(old(users), username.value, email.value) then
          r == Reply(400, "User with that email or username already exists") && users == old(users)
        else
          && users == old(users)[old(nextUserId) := User(old(nextUserId), username.value, email,
                                                         Some(hasher.hash(password.value)), None, None, None, nowMs)]
          && r == Ok(Issue(signer, old(nextUserId), nowMs))
    {
      if !Truthy(username) || !Truthy(email) || !Truthy(password) {
        return Reply(400, "username, email and password are required");
      }
      if RegisterConflict(users, username.value, email.value) {
        return Reply(400, "User with that email or username already exists");
      }
      var u := User(nextUserId, username.value, email, Some(hasher.hash(password.value)), None, None, None, nowMs);
      Insert(u);
      r := Ok(Issue(signer, u.id, nowMs));
    }

    /** `POST /api/auth/login`: an unknown email, an account without a
        password and a wrong password all get the same 401. */
    method Login(email: Option<string>, password: Option<string>, nowMs: nat) returns (r: Response<string>)
      requires Valid()
      ensures !(Truthy(email) && Truthy(password)) ==> r == Reply(400, "email and password are required")
      ensures Truthy(email) && Truthy(password) ==>
        && (r.status == 200 <==> exists id :: PasswordMatches(users, hasher, email.value, password.value, id))
        && (r.status != 200 ==> r == Reply(401, "Invalid credentials"))
      ensures r.status == 200 ==>
        exists id :: PasswordMatches(users, hasher, email.value, password.value, id) && r == Ok(Issue(signer, id, nowMs))
    {
      if !Truthy(email) || !Truthy(password) {
        return Reply(400, "email and password are required");
      }
      if !exists id :: id in users && users[id].email == email {
        return Reply(401, "Invalid credentials");
      }
      var id :| id in users && users[id].email == email;
      var user := users[id];
      if !Truthy(user.passwordHash) || !hasher.compare(password.value, user.passwordHash.value) {
        forall other | PasswordMatches(users, hasher, email.value, password.value, other)
          ensures other == id
        {
        }
        return Reply(401, "Invalid credentials");
      }
      assert PasswordMatches(users, hasher, email.value, password.value, id);
      r := Ok(Issue(signer, id, nowMs));
    }

    /** `GET /api/auth/me` */
    method GetMe(userId: int) returns (r: Response<PublicUser>)
      ensures userId in users ==> r == Ok(Public(users[userId]))
      ensures userId !in users ==> r == Reply(404, "User not found")
    {
      if userId !in users {
        return Reply(404, "User not found");
      }
      r := Ok(Public(users[userId]));
    }

    /** `PUT /api/auth/me` */
    method UpdateMe(userId: int, username: Option<string>, email: Option<string>, password: Option<string>,
                    currentPassword: Option<string>)
      returns (r: Response<Option<PublicUser>>)
      requires Valid()
      modifies this
      ensures Valid() && resets == old(resets) && nextUserId == old(nextUserId)
      ensures var rejection := ProfileRejection(old(users), hasher, userId, username, email, password, currentPassword);
        if rejection.Some? then
          r == rejection.value && users == old(users)
        else if userId in old(users) then
          && users == old(users)[userId := ProfileEdited(old(users)[userId], username, email, password, hasher)]
          && r == Ok(Some(Public(users[userId])))
        else
          users == old(users) && r == Ok(None)
    {
      var rejection := ProfileRejection(users, hasher, userId, username, email, password, currentPassword);
      if rejection.Some? {
        return rejection.value;
      }
      r := SaveProfile(userId, username, email, password);
    }

    /** The `UPDATE users SET ... WHERE id = $n+1 RETURNING ...` of `PUT /me`,
        once the checks have passed: the row, if there is one, takes the built
        `SET` list. */
    method SaveProfile(userId: int, username: Option<string>, email: Option<string>, password: Option<string>)
      returns (r: Response<Option<PublicUser>>)
      requires Valid()
      requires Truthy(username) || Truthy(email) ==> !ProfileConflict(users, userId, OrEmpty(username), OrEmpty(email))
      modifies this
      ensures Valid() && resets == old(resets) && nextUserId == old(nextUserId) && nextResetId == old(nextResetId)
      ensures userId in old(users) ==>
        && users == old(users)[userId := ProfileEdited(old(users)[userId], username, email, password, hasher)]
        && r == Ok(Some(Public(users[userId])))
      ensures userId !in old(users) ==> users == old(users) && r == Ok(None)
    {
      var fields, params, idIndex := BuildProfileUpdate(username, email, password, hasher, userId);
      var whereId := Param(params, idIndex).i;
      if whereId in users {
        ProfileSetMeaning(users[whereId], username, email, password, hasher, [SqlInt(userId)]);
        var updated := ApplyProfileSet(users[whereId], fields, params);
        EditedIsFree(users, userId, username, email, password, hasher);
        PutKeepsUnique(users, whereId, updated);
        users := users[whereId := updated];
        r := Ok(Some(Public(updated)));
      } else {
        r := Ok(None);
      }
    }

    /** `POST /api/auth/verify-password` */
    method VerifyPassword(userId: int, currentPassword: Option<string>) returns (r: Response<()>)
      ensures !Truthy(currentPassword) ==> r == Reply(400, "currentPassword required")
      ensures r == Ok(()) <==>
        && Truthy(currentPassword) && userId in users && Truthy(users[userId].passwordHash)
        && hasher.compare(currentPassword.value, users[userId].passwordHash.value)
      ensures Truthy(currentPassword) && (userId !in users || !Truthy(users[userId].passwordHash)) ==>
        r == Reply(400, "No password set for this account")
      ensures Truthy(currentPassword) && r != Ok(()) && userId in users && Truthy(users[userId].passwordHash) ==>
        r == Reply(401, "Current password is incorrect")
    {
      if !Truthy(currentPassword) {
        return Reply(400, "currentPassword required");
      }
      if userId !in users || !Truthy(users[userId].passwordHash) {
        return Reply(400, "No password set for this account");
      }
      if !hasher.compare(currentPassword.value, users[userId].passwordHash.value) {
        return Reply(401, "Current password is incorrect");
      }
      r := Ok(());
    }

    /** `POST /api/auth/forgot`: known and unknown emails get the same reply;
        only a known one gets a record. `token` is the fresh random token;
        one that collides with a stored token breaks the UNIQUE constraint
        and the handler answers 500. */
    method Forgot(email: Option<string>, token: string, nowMs: int) returns (r: Response<()>)
      requires Valid()
      modifies this
      ensures Valid() && users == old(users) && UsedMonotone(old(resets), resets)
      ensures !Truthy(email) ==> r == Reply(400, "email is required") && resets == old(resets)
      ensures Truthy(email) && old(WithEmail(email.value)) == {} ==>
        r == Reply(200, ResetSentMessage) && resets == old(resets)
      ensures Truthy(email) && old(WithEmail(email.value)) != {} && token in old(resets) ==>
        r == Response(500, ServerError) && resets == old(resets)
      ensures Truthy(email) && old(WithEmail(email.value)) != {} && token !in old(resets) ==>
        && r == Reply(200, ResetSentMessage)
        && exists id :: id in old(WithEmail(email.value)) &&
             resets == old(resets)[token := ResetRecord(old(nextResetId), id, nowMs + ResetLifetimeMs, false)]
    {
      if !Truthy(email) {
        return Reply(400, "email is required");
      }
      if !exists id :: id in users && users[id].email == email {
        return Reply(200, ResetSentMessage);
      }
      var id :| id in users && users[id].email == email;
      if token in resets {
        return Response(500, ServerError);
      }
      resets := resets[token := ResetRecord(nextResetId, id, nowMs + ResetLifetimeMs, false)];
      nextResetId := nextResetId + 1;
      r := Reply(200, ResetSentMessage);
    }

    /** The record `SELECT ... FROM password_resets WHERE token = $1` finds. */
    function FindReset(token: string): (rec: Option<ResetRecord>)
      reads this
      ensures rec.Some? <==> token in resets
      ensures rec.Some? ==> rec.value == resets[token]
    {
      if token in resets then Some(resets[token]) else None
    }

    /** `GET /api/auth/reset/:token` */
    method ValidateReset(token: string, nowMs: int) returns (r: Response<()>)
      ensures r == Ok(()) <==> token in resets && !resets[token].used && nowMs <= resets[token].expiresAt
      ensures r != Ok(()) ==> r == ResetRejection(FindReset(token), nowMs).value
    {
      var rejection := ResetRejection(FindReset(token), nowMs);
      if rejection.Some? {
        return rejection.value;
      }
      r := Ok(());
    }

    /** `POST /api/auth/reset/:token`: the same checks as validation, then
        the user's hash is replaced and the record marked used, so the token
        cannot be redeemed again. */
    method Redeem(token: string, password: Option<string>, nowMs: int) returns (r: Response<()>)
      requires Valid()
      modifies this
      ensures Valid() && nextUserId == old(nextUserId) && UsedMonotone(old(resets), resets)
      ensures !Truthy(password) ==>
        r == Reply(400, "password is required") && users == old(users) && resets == old(resets)
      ensures Truthy(password) && ResetRejection(old(FindReset(token)), nowMs).Some? ==>
        r == ResetRejection(old(FindReset(token)), nowMs).value && users == old(users) && resets == old(resets)
      ensures Truthy(password) && ResetRejection(old(FindReset(token)), nowMs).None? ==>
        var uid := old(resets)[token].userId;
        && r == Reply(200, "Password has been reset")
        && resets == old(resets)[token := old(resets)[token].(used := true)]
        && users == old(users)[uid := old(users)[uid].(passwordHash := Some(hasher.hash(password.value)))]
        && hasher.compare(password.value, users[uid].passwordHash.value)
      ensures r.status == 200 ==> forall t :: ResetRejection(FindReset(token), t) == Some(Reply(400, "Token already used"))
    {
      if !Truthy(password) {
        return Reply(400, "password is required");
      }
      var rejection := ResetRejection(FindReset(token), nowMs);
      if rejection.Some? {
        return rejection.value;
      }
      var rec := resets[token];
      var hash := hasher.hash(password.value);
      var u := users[rec.userId].(passwordHash := Some(hash));
      PutKeepsUnique(users, rec.userId, u);
      users := users[rec.userId := u];
      resets := resets[token := rec.(used := true)];
      r := Reply(200, "Password has been reset");
    }
  }
}
