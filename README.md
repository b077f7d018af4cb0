# DevBlog authentication and authorization, modelled in Dafny

DevBlog is a blogging application: an Express server over Postgres and a
React client. This project models the server's account, session and
authorization logic. It also models the small string and list helpers that
logic uses. Everything runs over an in-memory store, and the properties the
code promises are proved about that model.

What is modelled, module by module:

- `Base`: optional values, JavaScript truthiness of request fields (`undefined`, `null` and `''` are falsy), and the shape of a JSON reply (status plus message, payload or 500 body).
- `JsText`: the JavaScript built-ins the handlers rely on. These are `trim`, `split` on one character, `join`, `startsWith`, `toLowerCase` (on ASCII letters only), `parseInt(s, 10)`, number-to-string, `filter(Boolean)` and `Array.from(new Set(xs))`.
- `Crypto`: bcrypt and jsonwebtoken as uninterpreted functions carried in datatypes, each with the one law the code relies on. A password matches its own hash. Signed claims decode to themselves. Expiry follows jsonwebtoken's whole-second clock and 30-day lifetime.
- `AuthMiddleware`: the `protect` bearer-header gate.
- `Users`: the `users` and `password_resets` tables as maps in the class `UserStore`, and the handlers of `/api/auth`:
  - register and login;
  - `GET`/`PUT /me`, with the `SET`-list builder of `PUT /me`;
  - verify-password;
  - forgot-password, and reset validation and redemption.
- `Sql`: what an `UPDATE ... SET col = $k` list does with its parameters, and the $1..$n numbering the builders produce.
- `PostTags`: the JSON values a request body carries, `!!v`, `String(v)`, and tag normalisation.
- `Posts`: the `posts` table (class `PostTable`) and its routes:
  - the feed, tag, search and my-drafts queries;
  - the draft guard of `GET /:id`;
  - create, `PUT /:id` with its `SET`-list builder, and publish.
- `GithubLogin`:
  - the passport verify callback, which finds the account by GitHub id or creates it;
  - the callback URL;
  - the redirect that hands the session token to the client.
- `Server`: `normalizeOrigin`, the CORS allowlist and the origin decision, and the `/api` rewrite shim, which is a method on a `Request` object.
- `TagInput`: the client tag editor. Adding, removing and the Enter, comma and Backspace keys are functions on the tag list and the typed text.

The store's invariant (`UserStore.Valid`) holds two promises about users.
Username, email and GitHub id are each unique. Every user has a way to sign
in: a password hash or a GitHub id. No DDL for the users table appears in the
source, so both are intended behaviour rather than database constraints. Every
write is proved to keep them. The invariant also carries the `password_resets`
primary key (`id SERIAL PRIMARY KEY`, `server/routes/auth.js:209`): no two
tokens share a record id, so `Redeem` marking the record found by token is the
same as the source's `UPDATE ... WHERE id = $1`. Updates are proved against a reference definition of the intended
edit:

- `Edited` for a post;
- `ProfileEdited` for a profile.

The lemmas `PostSetMeaning` and `ProfileSetMeaning` show that running the
built `SET` list against the row gives exactly that edit. So only the
supplied fields change, the placeholders are $1..$n, and the ids come at
$n+1 (and $n+2).

Where the code and the intended behaviour differ, the model follows the
code:

- A reset token whose expiry instant equals the current time is still
  accepted (`expires_at < now` is the rejection test; see
  `Users.ResetWindow`).
- `normalizeOrigin` removes only one trailing slash, so it is not idempotent
  (`Server.NormalizeOriginNotIdempotent`).
- The `/api` shim's prefix test also catches paths such as `/postsfoo`.
- A first GitHub sign-in whose GitHub login is already a local username
  breaks the assumed uniqueness of usernames, and the callback fails.

## Model

| member | source | states |
|---|---|---|
| `Base.OrEmpty` | server/routes/auth.js:117 | `field \|\| ''` is empty exactly when the field is falsy, and is the field otherwise |
| `Crypto.Issue` | server/routes/auth.js:79 | with a sound signer, the token is non-empty, holds no space, and decodes to the user's id, the issue second and an expiry 30 days (2592000 s) later |
| `Crypto.Verify` | server/middleware/authMiddleware.js:10 | a missing or empty token, one that does not decode, and one whose `exp` is at or before the current second are all rejected; accepted claims are the token's decoded claims |
| `Crypto.IssueThenVerify` | server/routes/auth.js:79 | a token issued for an id verifies, with that id, exactly while the current second is before issue time plus 30 days |
| `AuthMiddleware.Protect` | server/middleware/authMiddleware.js:2-20 | the handler runs exactly when the header is truthy, starts with "Bearer" and its second space-separated word verifies; it then runs as the decoded id; every rejection is a 401 |
| `AuthMiddleware.NoTokenProvided` | server/middleware/authMiddleware.js:4-19 | no header, or one not starting with "Bearer", gives 401 "No token provided" |
| `AuthMiddleware.BareBearer` | server/middleware/authMiddleware.js:9-15 | a bare "Bearer" has no second word and gives 401 "Token verification failed" |
| `AuthMiddleware.BearerRejected` | server/middleware/authMiddleware.js:13-16 | a "Bearer..." header whose token does not verify gives 401 "Token verification failed" |
| `AuthMiddleware.ProtectAcceptsIssuedToken` | server/middleware/authMiddleware.js:9-12 | "Bearer " plus a token the server issued lets the handler run as that token's user until it expires |
| `JsText.Trim` | server/server.js:33 | `trim` leaves the input minus a whitespace prefix and suffix, starting and ending with non-whitespace |
| `JsText.TrimIdempotent` | client/src/components/TagInput.jsx:7 | trimming twice is trimming once |
| `JsText.TrimOfPadded` | server/server.js:33 | `trim` removes exactly any whitespace around a string that neither starts nor ends with whitespace |
| `JsText.ToLower` | server/server.js:48 | ASCII capitals are replaced by their lower-case letters and every other character is kept, so the length is kept and no ASCII capital is left (non-ASCII case mapping is listed under Left out) |
| `JsText.StartsWith` | server/server.js:77 | definition: `s.startsWith(p)` holds exactly when `p` is a prefix of `s`; `RewrittenCases` and `RewrittenIdempotent` rely on it |
| `JsText.Split` | server/server.js:42 | `split(sep)` gives at least one piece and no piece holds the separator |
| `JsText.Join` | server/routes/posts.js:137 | definition of `parts.join(sep)`, which `String` of an array performs with ",": one separator between neighbours; `JoinSplit` and `SplitJoin` prove it inverts `Split` |
| `JsText.JoinSplit` | server/routes/posts.js:138 | joining the pieces of a split with the separator gives the string back |
| `JsText.SplitJoin` | server/routes/posts.js:138 | splitting a join of separator-free pieces gives the pieces back |
| `JsText.SplitTwo` | server/routes/posts.js:101-102 | `s.split(' ')` is exactly `[word, t]` iff `s` is `word + " " + t` with no space in `t` |
| `JsText.ParseInt` | server/routes/posts.js:82 | a string with no decimal digit is NaN, and a negative result needs a '-' in the input; `ParseIntOfIntToString` gives the round trip |
| `JsText.ParseIntOfIntToString` | server/routes/posts.js:82 | `parseInt` reads back the decimal form of any integer |
| `JsText.NonEmpty` | server/server.js:44 | `filter(Boolean)` keeps exactly the non-empty strings, never lengthens the list |
| `JsText.NonEmptyConcat` | server/server.js:44 | `filter` works piecewise over a concatenation, so it keeps the order and the repeats of the kept strings |
| `JsText.Unique` | server/server.js:49 | `Array.from(new Set(s))` holds each element of `s` once and nothing else |
| `JsText.UniqueFirstOccurrenceOrder` | server/routes/posts.js:141 | the Set keeps first-occurrence order |
| `JsText.UniqueOfNoDuplicates` | server/routes/posts.js:141 | a duplicate-free list goes through the Set unchanged |
| `Sql.Numbering` | server/routes/posts.js:182 | the `SET` list built for a column list names those columns in order, numbered $1..$n |
| `Sql.NumberingSnoc` | server/routes/posts.js:182 | one more `push` with `idx++` adds one item numbered next |
| `Sql.AssignedValueOf` | server/routes/posts.js:200 | with values bound first, a named column receives its own value and an unnamed column none |
| `PostTags.JsString` | server/routes/posts.js:137 | `String(v)` gives a string its own text and a number a decimal form that `parseInt` reads back as that number (numbers are exact integers; see "Left out") |
| `PostTags.RawTags` | server/routes/posts.js:136-139 | an array gives one raw tag per element, a string gives only non-empty pieces, and anything else gives none |
| `PostTags.NormalizeTags` | server/routes/posts.js:136-141 | normalised tags are non-empty, duplicate-free and hold no ASCII capital (non-ASCII case mapping is listed under Left out) |
| `PostTags.NormalizeTagsMembers` | server/routes/posts.js:136-140 | a tag is kept exactly when it is the non-empty lower-casing of a raw tag: `String` of an array element, or a trimmed non-empty comma piece of a non-blank string; other inputs give none |
| `PostTags.NormalizeTagsOrder` | server/routes/posts.js:141 | tags keep the order of their first occurrence |
| `PostTags.NormalizeTagsIdempotent` | server/routes/posts.js:136-141 | normalising the normalised tags again changes nothing |
| `PostTags.StringTagsTrimmed` | server/routes/posts.js:138 | every tag read from a comma-separated string is trimmed and comma-free |
| `Posts.Where` | server/routes/posts.js:11 | a `WHERE` keeps exactly the rows satisfying it, each as many times as it occurs in the table |
| `Posts.SortNewestFirst` | server/routes/posts.js:11 | `ORDER BY created_at DESC` gives a newest-first permutation of its input |
| `Posts.Feed` | server/routes/posts.js:8-18 | the feed is exactly the published posts, each row once per table occurrence (a permutation of the filtered rows), newest first |
| `Posts.ByTag` | server/routes/posts.js:62-74 | a tag page is exactly the published posts with that tag, with their table multiplicity, newest first |
| `Posts.MyDrafts` | server/routes/posts.js:50-59 | my-drafts is exactly the caller's drafts, with their table multiplicity, newest first |
| `Posts.MyPosts` | server/routes/auth.js:160-170 | my-posts is exactly the caller's published posts, with their table multiplicity, newest first |
| `Posts.Search` | server/routes/posts.js:21-47 | an empty `q` gives 400; otherwise the result is exactly the published posts whose title or content contains `q` ignoring case (and which carry `tag` when given), with their table multiplicity, newest first |
| `Posts.IndexOfId` | server/routes/posts.js:88 | the position of the row with that id, or -1 exactly when none has it |
| `Posts.FindPost` | server/routes/posts.js:87-93 | finds a row with the id, or none exactly when no row has it |
| `Posts.DraftAuthorized` | server/routes/posts.js:100-112 | definition of the draft guard: the header splits on ' ' into "Bearer" and a token verifying to the author; its meaning is `DraftAuthorizedMeaning` |
| `Posts.GetPost` | server/routes/posts.js:77-127 | the reply is 404 "Post Not Found" or the row with the parsed id, which, if a draft, passed the bearer/author guard |
| `Posts.DraftAuthorizedMeaning` | server/routes/posts.js:100-112 | the guard accepts exactly a header "Bearer " plus a space-free token verifying to the author's id |
| `Posts.PublishedIgnoresHeader` | server/routes/posts.js:95-122 | a published post is returned whatever the Authorization header |
| `Posts.HiddenDraftLooksMissing` | server/routes/posts.js:91-118 | to anyone but its author a draft answers exactly as a missing post |
| `Posts.AuthorSeesDraft` | server/routes/posts.js:106-114 | the author, with a token the server issued, sees the draft |
| `Posts.BuildPostUpdate` | server/routes/posts.js:179-200 | the builder names the defined fields in the order title, content, draft, tags, numbered $1..$n, binds their values, then the post id at $n+1 and the caller at $n+2 |
| `Posts.PushIfDefined` | server/routes/posts.js:182-194 | one `if (... !== undefined)` step appends the next numbered item and its value exactly when the field is defined |
| `Posts.SetColumnsMembers` | server/routes/posts.js:182-194 | a column is named exactly when its field is defined |
| `Posts.PostSetMeaning` | server/routes/posts.js:182-201 | applying the built list to a row changes exactly the defined fields, to the coerced values |
| `Posts.PostTable.Create` | server/routes/posts.js:130-152 | one row is appended, with a fresh id, `!!draft` and normalised tags, and returned |
| `Posts.PostTable.Replace` | server/routes/posts.js:201 | an `UPDATE` rewrites one row in place and keeps ids unique |
| `Posts.PostTable.Update` | server/routes/posts.js:171-208 | a NaN id gives 404; no defined field gives 400; the caller's own post becomes its edited form; any other gives 404 and no change |
| `Posts.PostTable.Publish` | server/routes/posts.js:155-168 | a NaN id gives 404; the caller's own post, draft or not, gets `draft = false`; any other gives 404 "Draft not found" and no change |
| `Users.ResetRejection` | server/routes/auth.js:260-264 | a token is accepted exactly when found, unused and `now <= expires_at`; an unknown token gets 404 "Invalid token"; every refusal is 400 or 404 (the used and expired cases are `UsedBeatsExpired` and `ResetWindow`) |
| `Users.UsedBeatsExpired` | server/routes/auth.js:263-264 | a used record is refused as "Token already used" whatever the time |
| `Users.ResetWindow` | server/routes/auth.js:264 | a fresh record is accepted up to and including its expiry instant, then "Token expired" |
| `Users.ProfileRejection` | server/routes/auth.js:109-134 | a request that supplies no field gets 400 "No fields to update"; a request let through supplies a field; every refusal is 400 or 401 (the other cases are the lemmas below) |
| `Users.OwnRowNoConflict` | server/routes/auth.js:115-118 | keeping one's own username and email is not a conflict |
| `Users.OtherRowConflict` | server/routes/auth.js:114-121 | another user's username gives 400 "Username or email already in use" |
| `Users.OtherEmailConflict` | server/routes/auth.js:114-121 | another user's email gives 400 "Username or email already in use", whatever username is sent |
| `Users.PasswordOnlySkipsConflict` | server/routes/auth.js:114-134 | a password-only change on an account without a hash passes every check |
| `Users.PasswordGate` | server/routes/auth.js:125-134 | with a stored hash, a missing current password gives 400, a wrong one 401, a right one passes |
| `Users.PushIfTruthy` | server/routes/auth.js:140-147 | one `if (field)` step appends the next numbered item and its value exactly when the field is truthy |
| `Users.BuildProfileUpdate` | server/routes/auth.js:137-150 | the builder names the truthy fields in order, numbered $1..$n, binds their values (the password hashed), then the user id at $n+1 |
| `Users.ProfileColumnsMembers` | server/routes/auth.js:140-147 | a column is named exactly when its field is truthy |
| `Users.ProfileSetMeaning` | server/routes/auth.js:140-151 | applying the built list changes exactly the supplied fields, the password to its hash |
| `Users.EditedIsFree` | server/routes/auth.js:114-122 | an edit that passed the conflict test breaks no uniqueness constraint |
| `Users.UserStore.Insert` | server/routes/auth.js:46-49 | an insert adds one row under the next id; given a free username, email and GitHub id and a way to sign in, it keeps the invariant |
| `Users.UserStore.SetAccessToken` | config/passport.js:33 | only the token of the linked row changes |
| `Users.UserStore.Register` | server/routes/auth.js:30-57 | a missing field gives 400 and no change; an email or username in use gives 400 and no change; otherwise one user with the hashed password is inserted and a token for its id returned |
| `Users.UserStore.Login` | server/routes/auth.js:61-85 | missing fields give 400; success exactly when a user with the email has a hash matching the password, with a token for that user; every other failure is the same 401 "Invalid credentials" |
| `Users.UserStore.GetMe` | server/routes/auth.js:89-100 | the caller's public fields, or 404 "User not found" |
| `Users.UserStore.UpdateMe` | server/routes/auth.js:103-157 | a refused request changes nothing; otherwise the caller's row becomes its edited form and its public fields are returned |
| `Users.UserStore.SaveProfile` | server/routes/auth.js:137-152 | once the checks passed, the caller's row takes the edit, and no other row changes |
| `Users.UserStore.VerifyPassword` | server/routes/auth.js:173-192 | 400 without a current password or without a stored hash, 401 on a mismatch, `ok` exactly on a match; nothing changes |
| `Users.UserStore.Forgot` | server/routes/auth.js:195-254 | missing email gives 400; unknown and known emails get the same 200; only a known one gets a record, unused and expiring in 3600000 ms; a colliding token gives 500; `used` flags never revert |
| `Users.UserStore.ValidateReset` | server/routes/auth.js:257-270 | `ok` exactly for a stored, unused, unexpired token; otherwise the ordered refusal |
| `Users.UserStore.Redeem` | server/routes/auth.js:273-298 | no password gives 400; a refused token changes nothing; a good one sets the user's hash (which then matches the new password) and marks the record used, so later attempts are "Token already used" |
| `GithubLogin.VerifyCallback` | config/passport.js:24-47 | a linked account gets only the new access token and is returned as read; otherwise one account is inserted with username, GitHub id, avatar and token and no email or hash; a username clash fails; the result is linked to the profile id |
| `GithubLogin.SignInTwice` | config/passport.js:29-35 | a second sign-in with the same profile finds the same account and inserts nothing |
| `GithubLogin.CallbackUrlShape` | config/passport.js:7-9 | the callback URL is `SERVER_URL` or `http://localhost:` plus `PORT` (default 6969), followed by `/api/auth/github/callback` |
| `GithubLogin.CallbackUrl` | config/passport.js:7-9 | definition of `callbackURL`; its shape is `CallbackUrlShape` |
| `GithubLogin.RedirectCarriesSession` | server/routes/auth.js:17-27 | the redirect is the client's `/auth/callback?token=` plus a token that verifies to the signed-in user for 30 days |
| `GithubLogin.CallbackRedirect` | server/routes/auth.js:24-25 | definition of the redirect location; `RedirectCarriesSession` proves what it carries |
| `Server.NormalizeOrigin` | server/server.js:30-39 | a falsy value gives ''; otherwise the result is the trimmed value or that minus one final "/", and a trailing slash never survives when nothing was removed |
| `Server.NormalizeOriginOfNormal` | server/server.js:33-35 | an origin without surrounding blanks or trailing slash is unchanged |
| `Server.NormalizeOriginIgnoresBlanks` | server/server.js:33 | any whitespace around an origin is dropped |
| `Server.NormalizeOriginIgnoresSlash` | server/server.js:33-35 | any whitespace around an origin followed by one slash is dropped with that slash |
| `Server.NormalizeOriginNotIdempotent` | server/server.js:35 | "x//" normalises to "x/", which normalises to "x" |
| `Server.NormalizeKeepsOut` | server/server.js:30-39 | normalising only removes characters: one absent from the value is absent from the result |
| `Server.EnvAllowed` | server/server.js:41-44 | every origin read from the environment is non-empty and comma-free |
| `Server.IsDev` | server/server.js:47-48 | definition: development unless `NODE_ENV` lower-cases to "production"; see `UnsetIsDev` and `ProductionSpellings` |
| `Server.EnvAllowedMembers` | server/server.js:41-44 | an origin is env-allowed exactly when it is the non-empty normalisation of a comma piece |
| `Server.UnsetIsDev` | server/server.js:47-48 | an unset or empty `NODE_ENV` is development |
| `Server.ProductionSpellings` | server/server.js:48 | every spelling of "production" with each letter in either case turns development off |
| `Server.Allowlist` | server/server.js:49 | the allowlist has no duplicates |
| `Server.AllowlistMembers` | server/server.js:46-49 | listed exactly: the env origins, plus the dev origin in development; none empty |
| `Server.DecideOrigin` | server/server.js:52-61 | allowed exactly when there is no origin or its normalisation is listed; a rejection names the origin as sent |
| `Server.DevOriginAllowed` | server/server.js:46-58 | in development `http://localhost:5173`, with or without a trailing slash, is allowed |
| `Server.DevOriginRefused` | server/server.js:46-60 | in production that origin is refused unless listed |
| `Server.ListedOriginAllowed` | server/server.js:41-58 | an origin equal, after normalisation, to a piece of `ALLOWED_ORIGINS` is allowed |
| `Server.PathOf` | server/server.js:76 | `req.path` is the URL up to its first "?" |
| `Server.RewrittenIdempotent` | server/server.js:75-81 | the shim applied twice is the shim applied once; a rewritten path is under `/api/` |
| `Server.RewrittenCases` | server/server.js:77-78 | `/api/...` and paths outside `/posts` and `/auth` are untouched; otherwise exactly "/api" is prefixed |
| `Server.RewrittenKeepsQuery` | server/server.js:78 | the query string is carried along |
| `Server.Rewritten` | server/server.js:75-81 | definition of the shim's effect on a URL; its cases are `RewrittenCases` |
| `Server.Request.RewriteApiPrefix` | server/server.js:75-81 | the request's URL becomes the shim's rewriting of it |
| `TagInput.RemoveTag` | client/src/components/TagInput.jsx:15-18 | exactly the elements other than the tag remain |
| `TagInput.AddTag` | client/src/components/TagInput.jsx:6-13 | the state either stays as it was or gains the trimmed text at the end with the input cleared; blank or listed text leaves it as it was |
| `TagInput.OnKeyDown` | client/src/components/TagInput.jsx:20-31 | keys other than Enter, "," and Backspace change nothing; Backspace keeps the typed text and leaves a prefix of the list |
| `TagInput.AddTagEffect` | client/src/components/TagInput.jsx:6-13 | the list changes exactly when the trimmed text is non-blank and new, by appending it and clearing the input; otherwise nothing changes |
| `TagInput.AddTagKeepsNoDuplicates` | client/src/components/TagInput.jsx:9-10 | a duplicate-free list stays duplicate-free |
| `TagInput.AddTagTrimmed` | client/src/components/TagInput.jsx:7-10 | added tags are trimmed and non-empty |
| `TagInput.RemoveTagConcat` | client/src/components/TagInput.jsx:16 | removal works piecewise, keeping the order of the rest |
| `TagInput.RemoveAbsent` | client/src/components/TagInput.jsx:16 | removing an absent tag changes nothing |
| `TagInput.RemoveAfterAdd` | client/src/components/TagInput.jsx:6-18 | removing a just-added tag restores the list |
| `TagInput.BackspaceUndoesEnter` | client/src/components/TagInput.jsx:20-29 | Enter on a new tag then Backspace restores the list |
| `TagInput.BackspaceDropsLast` | client/src/components/TagInput.jsx:24-27 | Backspace on an empty input drops the last tag of any non-empty list |
| `TagInput.BackspaceNoop` | client/src/components/TagInput.jsx:24-29 | Backspace with text typed, or on an empty list, does nothing |
| `TagInput.EnterRejected` | client/src/components/TagInput.jsx:21-23 | Enter or "," on blank or listed text changes nothing |

## Left out

- bcrypt, jsonwebtoken and `crypto.randomBytes` are foreign. `Hasher` and `Signer` are parameters with only the laws stated in `Crypto`. The reset token is an argument of `Forgot`. Salts, signatures and entropy are not modelled.
- `Date.now()` and `new Date()` are the `nowMs` argument. Database defaults such as `created_at` take that same value.
- Database failures are not modelled, except a reset-token collision under the UNIQUE constraint of `password_resets.token`, which gives 500, and a first GitHub sign-in whose username is taken, which fails the callback. Every other `catch` that answers 500 is left out, and so is the production/development choice of that 500's message.
- `JsText.ToLower`: only ASCII capitals are lowered. JavaScript's `toLowerCase` maps every cased letter, and can change the length ("İ" becomes two code units). The model has no Unicode case tables. The same reading applies to the case-insensitive match of `Posts.Search` and to the `NODE_ENV` test.
- `PostTags.NormalizeTags`: because of that, tags differing only in a non-ASCII capital ("É" and "é") stay distinct in the model, while the code merges them. "Lower-case" in its contract means "no ASCII capital".
- Uniqueness of username, email and GitHub id is assumed. The users table's DDL is not part of the source (the only DDL is `password_resets` in `server/routes/auth.js:208-213`). `UserStore.Valid` and the failing GitHub insert rest on this assumption.
- The handlers read and then write in separate queries. The model is sequential and claims nothing about concurrent registrations or concurrent redemptions of one token.
- `PostTags.JsString`: a number tag is printed as its full decimal form. That matches JavaScript's `String(n)` in `server/routes/posts.js:137` only for safe integers (|n| ≤ 2^53). `JSON.parse` rounds larger integers to the nearest double, so `9007199254740993` becomes the tag `"9007199254740992"`. From 10^21 on, `String(n)` prints exponent form (`1e21` becomes `"1e+21"`, which `parseInt` reads as 1). The model claims the round trip through `parseInt` for all integers and so says nothing true about these two ranges. The model has no floating point.
- `Server.PathOf`: Express's `req.path` is the pathname of the parsed URL. The model takes it to be the URL up to its first "?", which is right only for an origin-form request target (one starting with "/") with no "#". For an absolute-form target such as `http://h/api/posts` (section 5.3.2 of RFC 7230), `server/server.js:76` sees `/api/posts` and leaves it alone, while the model adds the prefix. A "#" also ends the pathname in the source, but not in the model.
- `ILIKE` is read as a case-insensitive substring test. `%` and `_` inside `q` are not treated as wildcards. `@>` is read as membership of one tag.
- A union of `undefined` and `null` stands for every body field and header. JSON `null` is distinguished only for `draft` and `tags`. So `PUT /api/posts/:id` with `"title": null`, which sets the column to NULL, is read as an absent title. Non-string usernames, emails and passwords are not modelled. JSON numbers are exact integers; fractions are not modelled.
- The `username` and `avatar_url` columns that the post queries join from `users` are not part of `Post`. Every post's author is assumed to exist, so the inner `JOIN users` drops no row. Posts are created under a verified user id, and users are never deleted.
- Login reads `rows[0]`; the model takes any user with that email. Under the UNIQUE constraint on email these are the same.
- The SQL text, `CREATE TABLE IF NOT EXISTS`, the `pg` pool, env loading, `app.listen`, the debug routes and the mail transport are I/O. So are the static CORS options (methods, headers, status 204) and the OAuth exchange done by passport, including its `failureRedirect`.
- `TagInput`: the parent is assumed to pass an `onChange` and to store the list it receives. Typing into the text box and `preventDefault` are not modelled.
- All other client pages and contexts are rendering and navigation.
- `protect` and the handlers are modelled separately. Each handler takes the user id that `protect` would have set.
