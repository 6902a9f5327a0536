# readThis backend core in Dafny

A model of the decision logic and store updates inside the readThis
book-sharing backend (an Express and Prisma server):

- password accounts: registration with its validation order, token
  generation, and the per-user refresh-token list that login appends to,
  logout prunes and refresh rotates (`Users`);
- the bearer-token middleware in front of protected routes (`AuthMiddleware`);
- Google sign-in: find-or-create by email and username derivation (`Google`);
- posts: create with an uploaded image or a catalogue cover, owner-only
  delete and update, like and unlike, comments (`Posts`, `Covers`);
- the paged feed: query defaults, skip and page count, and image-URL
  normalisation (`Feed`);
- book recommendations split into lines (`Books`) and the upload filter
  (`FileFilter`).

The relational store is one class, `Db.Database`. Its maps of users, posts
and comments change in place through methods that stand for the ORM calls
the handlers make. Its `Valid()` invariant keeps ids below the
auto-increment counters, emails and usernames unique, and foreign keys
pointing at existing rows. Every handler that writes is a method with
`modifies db`. Its `ensures` clauses give each status code and the whole
new state: the three tables and the three id counters. Pure rules are functions with lemmas about them.

Services outside the server are inputs:
- what the object store, the catalogues, the image download and the chat
  service answer;
- token signing and verification;
- password hashing and comparison;
- `Math.random` and `Date.now`.

The string and number built-ins the handlers rely on are written out
(`Text`, `Numbers`): `\s`, `trim`, `split`, `startsWith`, unanchored
search, `toLowerCase`, `Number` and `parseInt`. A number is NaN or an
exact integer; the model does not round large integers as doubles do.

## Model

| member | source | states |
|---|---|---|
| Text.Trim | readThis-BE/src/services/books_service.ts:34 | the text with a whitespace-only prefix and suffix cut off; the result is empty exactly when the text is all whitespace, otherwise it neither starts nor ends with whitespace, and text without surrounding whitespace is unchanged |
| Text.Split | readThis-BE/src/common/auth_middleware.ts:26 | `split` on one character gives at least one part, no part holds the separator, and joining the parts gives the text back |
| Text.SplitJoin | readThis-BE/src/common/auth_middleware.ts:26 | splitting parts joined with a separator they do not hold gives the parts back |
| Text.ContainsIffOccurs | readThis-BE/src/common/file_middleware.ts:10-12 | the unanchored search succeeds exactly when the word occurs at some position |
| Text.RemoveSpacesEmptyIffBlank | readThis-BE/src/controllers/google_controller.ts:29 | removing all whitespace leaves nothing exactly when the text was all whitespace |
| Text.RemoveSpaces | readThis-BE/src/controllers/google_controller.ts:29 | no whitespace is left, and every other character occurs as often as in the text |
| Text.RemoveSpacesConcat | readThis-BE/src/controllers/google_controller.ts:29 | removal works piece by piece, so the kept characters keep their order |
| Text.ToLower | readThis-BE/src/common/file_middleware.ts:12 | lower-casing keeps the length and maps each character on its own |
| Numbers.NumberOfIntString | readThis-BE/src/controllers/users_controller.ts:202 | `Number(String(n))` is `n` for every integer id |
| Numbers.ParseIntWithoutDigits | readThis-BE/src/controllers/post_controller.ts:89-90 | `parseInt` is NaN when no decimal digit follows the leading whitespace and one optional sign |
| Numbers.ParseIntWithDigits | readThis-BE/src/controllers/post_controller.ts:89-90 | `parseInt` is a number when a decimal digit follows the leading whitespace and optional sign, unless it is the "0" of a "0x" prefix |
| Numbers.ParseIntOfDecimal | readThis-BE/src/controllers/post_controller.ts:89-90 | `parseInt` of a number's decimal digits is that number, for numbers up to `Number.MAX_SAFE_INTEGER` |
| Storage.BaseUrl | readThis-BE/src/controllers/post_controller.ts:104 | the bucket's base URL starts with "https://" |
| Storage.ObjectUrl | readThis-BE/src/controllers/post_controller.ts:48 | an object's URL is the base URL followed by exactly its key |
| Storage.DefaultCover | readThis-BE/src/controllers/post_controller.ts:369-371 | the placeholder URL is never empty: an https URL whose key is `posts/DefaultBook.png` |
| Storage.PostImageKeysDistinct | readThis-BE/src/controllers/post_controller.ts:38-39 | two different posts never share an image key |
| Storage.PostImageKeyIsNotDefault | readThis-BE/src/controllers/post_controller.ts:353 | no post's image key is the placeholder's key |
| Storage.OwnImageIsNotDefault | readThis-BE/src/controllers/post_controller.ts:353-371 | a post's own image URL is never the placeholder's URL |
| Db.Database.FindByUsername | readThis-BE/src/controllers/users_controller.ts:120 | finds a user exactly when one has the username, and it has it |
| Db.Database.FindByEmail | readThis-BE/src/controllers/google_controller.ts:26 | finds a user exactly when one has the email, and it has it |
| Db.Database.FindByRefreshToken | readThis-BE/src/controllers/users_controller.ts:166 | finds a user exactly when some user's list holds the token, and that user's list holds it |
| Db.Database.CreateUser | readThis-BE/src/controllers/users_controller.ts:58-65 | refused, with nothing changed, exactly when the email or username is taken; otherwise one new row under the next id with an empty token list, and only the user counter advances |
| Db.Database.SetUserImage | readThis-BE/src/controllers/users_controller.ts:79-82 | only that user's image changes; the other tables and the id counters stay as they were |
| Db.Database.SetRefreshTokens | readThis-BE/src/controllers/users_controller.ts:142-145 | only that user's token list changes, to exactly the given list; the other tables and the id counters stay as they were |
| Db.Database.CreatePost | readThis-BE/src/controllers/post_controller.ts:26-33 | refused, with nothing changed, exactly when the owner id names no user; otherwise one new post under the next id with no likers, and only the post counter advances |
| Db.Database.UpdatePost | readThis-BE/src/controllers/post_controller.ts:295-298 | an absent title or content keeps the stored one; the image is replaced; nothing else changes, the id counters included |
| Db.Database.DeletePost | readThis-BE/src/controllers/post_controller.ts:79 | the post is removed exactly when no comment points at it; otherwise nothing changes; the id counters never change |
| Db.Database.Connect | readThis-BE/src/controllers/post_controller.ts:196-199 | the liker set gains the user exactly when the user exists; otherwise nothing changes; the id counters never change |
| Db.Database.Disconnect | readThis-BE/src/controllers/post_controller.ts:223-226 | the liker set loses the user, nothing else changes, the id counters included |
| Db.Database.CreateComment | readThis-BE/src/controllers/post_controller.ts:240-247 | refused, with nothing changed, exactly when the owner or the post is missing; otherwise one new comment under the next id, and only the comment counter advances |
| AuthMiddleware.BearerToken | readThis-BE/src/common/auth_middleware.ts:26-32 | a token exactly when the header's second space-separated segment exists and is non-empty, and then it is that segment, holding no space |
| AuthMiddleware.ClaimedId | readThis-BE/src/common/auth_middleware.ts:43-52 | a truthy `_id` claim decides alone: the id is its `Number` value when that is truthy, and there is none otherwise; only when `_id` is falsy does a truthy `id` claim decide in the same way; with both falsy there is no id; an id is never 0 |
| AuthMiddleware.Authenticate | readThis-BE/src/common/auth_middleware.ts:19-59 | 401 "No token provided" without a header, 401 "Invalid token" without a bearer token, 401 "Token expired or invalid" when verification fails, 401 "Invalid user id in token" without a usable id claim; otherwise `next` with the claimed id and the payload's email, username and image |
| AuthMiddleware.TokenIsSecondSegment | readThis-BE/src/common/auth_middleware.ts:26 | any scheme word, a space and a token yield that token; the scheme word is not checked |
| AuthMiddleware.HeaderWithoutSpaceHasNoToken | readThis-BE/src/common/auth_middleware.ts:26-32 | a header without a space carries no token |
| AuthMiddleware.UnderscoreIdShadowsLegacyId | readThis-BE/src/common/auth_middleware.ts:44-48 | when `_id` is truthy the `id` claim plays no part, even if `_id` is unusable |
| AuthMiddleware.IssuedClaimsName | readThis-BE/src/controllers/users_controller.ts:100-101 | the id a signed token carries is read back as the same id |
| AuthMiddleware.IssuedTokenAuthenticates | readThis-BE/src/common/auth_middleware.ts:44-59 | a token signed for a user and sent as `Bearer <token>` passes with that user's id |
| Users.ValidEmailMatchesPattern | readThis-BE/src/controllers/users_controller.ts:25-30 | the email test accepts exactly the strings `^[^\s@]+@[^\s@]+\.[^\s@]+$` matches |
| Users.Register | readThis-BE/src/controllers/users_controller.ts:17-88 | 400 in source order for missing fields, a bad email, a missing image, and a taken email or username, each with no user created; success exactly when all pass and the upload works, with the new row holding the hash and the `profile/<id>.png` URL; a failed upload answers 400 and leaves the new row behind with an empty image URL |
| Users.CreateAccount | readThis-BE/src/controllers/users_controller.ts:58-84 | the row is created under the next id with an empty image URL; after a successful upload it holds the `profile/<id>.png` URL and is sent back, after a failed one it stays with the empty URL and the answer is 400 |
| Users.GenerateToken | readThis-BE/src/controllers/users_controller.ts:95-113 | no tokens exactly when the secret is unset |
| Users.Without | readThis-BE/src/controllers/users_controller.ts:168 | the filtered list no longer holds the token and is no longer than before |
| Users.WithoutKeepsOthers | readThis-BE/src/controllers/users_controller.ts:168 | every other token survives the filter as often as it occurred |
| Users.WithoutConcat | readThis-BE/src/controllers/users_controller.ts:168 | the filter works piece by piece, so the surviving tokens keep their order |
| Users.WithoutAbsent | readThis-BE/src/controllers/users_controller.ts:166-173 | filtering out a token the list does not hold changes nothing |
| Users.Rotated | readThis-BE/src/controllers/users_controller.ts:216-217 | after rotation the presented token is gone (when distinct from the new one) and the new token is last |
| Users.Login | readThis-BE/src/controllers/users_controller.ts:115-155 | 400 for a body without a username, 400 for an unknown username, 400 for a body without a password, 401 for a wrong password, 500 without a secret, each with no change; on success the list is the old list with exactly the new refresh token appended |
| Users.Logout | readThis-BE/src/controllers/users_controller.ts:157-179 | 400 with no token; otherwise 200 always, every copy of the token removed from the list of a user holding it, nothing changed when nobody holds it |
| Users.RefreshOwner | readThis-BE/src/controllers/users_controller.ts:195-206 | the owner is exactly the user the verified `_id` names, when that user exists and holds the presented token; nobody otherwise |
| Users.Refresh | readThis-BE/src/controllers/users_controller.ts:181-228 | 400 with no token, 500 without a secret, 401 when verification fails or the owner's list lacks the token, each with no change; success exactly otherwise, with the list rotated |
| Users.RefreshTokenIsSingleUse | readThis-BE/src/controllers/users_controller.ts:203-217 | login, refresh with its token, then a replay of that token: the replay is refused with 401 |
| Covers.OpenLibraryCoverUrl | readThis-BE/src/controllers/post_controller.ts:331 | the Open Library cover URL starts with "http", so it passes the download check |
| Covers.GoogleCandidate | readThis-BE/src/controllers/post_controller.ts:314-318 | the candidate is the thumbnail when present, else the small thumbnail, else the placeholder |
| Covers.DownloadAndUpload | readThis-BE/src/controllers/post_controller.ts:342-367 | the post's own image URL exactly when the URL starts with "http" and fetching and uploading work; the placeholder otherwise |
| Covers.CoverUrl | readThis-BE/src/controllers/post_controller.ts:305-340 | the post's own image or the placeholder, never empty; with a Google Books hit, its own image exactly when the Google candidate starts with "http" and was fetched; otherwise exactly when Open Library has a truthy cover id whose cover was fetched |
| Covers.GoogleHitDecides | readThis-BE/src/controllers/post_controller.ts:313-320 | once Google Books has a first result with volume info, Open Library is not consulted |
| Covers.PlaceholderIsCopiedWhenNoThumbnail | readThis-BE/src/controllers/post_controller.ts:315-319 | a Google result without thumbnails makes the placeholder the candidate, which is then stored again under the post's key |
| Feed.PostImage | readThis-BE/src/controllers/post_controller.ts:107 | the served post image starts with "http": a URL starting with "http" passes through, anything else (even "") is a path under the bucket's base URL |
| Feed.Avatar | readThis-BE/src/controllers/post_controller.ts:110 | an absent or empty avatar stays absent; one starting with "http" passes through; any other becomes the object URL for that path |
| Feed.NormalisePost | readThis-BE/src/controllers/post_controller.ts:105-119 | the post image is rewritten as `PostImage` and the owner's and each commenter's avatar as `Avatar`; nothing else changes, comments keep their count and order, and every URL is absolute |
| Feed.NormaliseAll | readThis-BE/src/controllers/post_controller.ts:105-119 | post by post, the same posts in the same order, each with its image rewritten as `PostImage`, its owner's and commenters' avatars as `Avatar`, and nothing else changed |
| Feed.NormaliseKeepsAbsolute | readThis-BE/src/controllers/post_controller.ts:107-116 | a post whose URLs are already absolute is left as it is |
| Feed.NormaliseIdempotent | readThis-BE/src/controllers/post_controller.ts:105-119 | rewriting twice is rewriting once |
| Feed.QueryNumber | readThis-BE/src/controllers/post_controller.ts:89-90 | `parseInt(q) \|\| fallback`: the parsed number when the parameter is present and parses to a truthy number, the fallback otherwise; never 0 when the fallback is not |
| Feed.QueryOfDecimal | readThis-BE/src/controllers/post_controller.ts:89-90 | a positive number up to `Number.MAX_SAFE_INTEGER` written in decimal is read as itself |
| Feed.QueryDefaults | readThis-BE/src/controllers/post_controller.ts:89-90 | an absent parameter, "0" and "abc" give the default |
| Feed.QueryWithoutDigitsDefaults | readThis-BE/src/controllers/post_controller.ts:89-90 | any parameter with no decimal digit after its leading whitespace and optional sign gives the default |
| Feed.TotalPages | readThis-BE/src/controllers/post_controller.ts:120 | the page count is the ceiling: enough pages for all posts, and the last page is not empty |
| Feed.Skip | readThis-BE/src/controllers/post_controller.ts:91 | for a positive limit the skip is non-negative exactly when the page is at least 1 |
| Feed.Window | readThis-BE/src/controllers/post_controller.ts:93-96 | the window holds `PageLength` posts, at most `take`, the `k`-th being post `skip + k` |
| Feed.GetAllPaged | readThis-BE/src/controllers/post_controller.ts:87-126 | 200 exactly when page and limit are at least 1, with the posts from `skip` on as many as fit in `limit`, each the matching newest-first post with absolute URLs, and the ceiling page count; 500 otherwise |
| Feed.PagesCoverFeed | readThis-BE/src/controllers/post_controller.ts:89-120 | every post is on page `i / limit + 1` at position `i % limit`, and that page is within the page count |
| Feed.PageEmptyIffBeyondCount | readThis-BE/src/controllers/post_controller.ts:91-120 | a page is empty exactly when it is beyond the page count |
| Feed.PageAt | readThis-BE/src/controllers/post_controller.ts:92-121 | the page holds exactly the posts from `skip` on, as many as fit in `limit` (`PageLength`), the `k`-th being the post `skip + k` places into the newest-first feed with its image URLs made absolute, next to the ceiling page count |
| Feed.TwelvePostsMakeThreePages | readThis-BE/src/controllers/post_controller.ts:89-120 | twelve posts with the defaults make three pages, the first with the five newest and the third with the last two |
| Posts.NewPostImage | readThis-BE/src/controllers/post_controller.ts:35-52 | with an uploaded file, the post's `posts/<id>.png` URL; without one, the catalogue cover; an https URL either way |
| Posts.CreatePost | readThis-BE/src/controllers/post_controller.ts:17-64 | 400 and no change unless title, content and owner are all non-empty; 500 and no change for an owner naming no user; 201 exactly when the upload (if any) works, with the new post holding the uploaded or cover URL; a failed upload leaves the row with an empty image |
| Posts.DeletePost | readThis-BE/src/controllers/post_controller.ts:66-85 | 401 without a user, 400 unless the caller owns the post, each with no change; the post is removed exactly when the owner asks and no comment points at it |
| Posts.UpdatePost | readThis-BE/src/controllers/post_controller.ts:267-303 | 401 without a user, 404 unless the caller owns the post, each with no change; 500 when a file's upload fails; on success absent fields keep their values, and the image changes only with a file, to `posts/<id>-<now>.png` |
| Posts.LikePost | readThis-BE/src/controllers/post_controller.ts:179-204 | 401 without a user, 404 for a missing post, 406 for an existing liker; 500 when the caller names no user; success exactly otherwise, the liker set becoming old ∪ {user} |
| Posts.UnlikePost | readThis-BE/src/controllers/post_controller.ts:206-231 | 401 without a user, 404 for a missing post, 406 for a non-liker; success exactly otherwise, the liker set becoming old \ {user} |
| Posts.AddCommentToPost | readThis-BE/src/controllers/post_controller.ts:233-252 | 400 without text or user; 201 exactly when post and user exist, with the new comment and its owner's name and avatar; 500 and no change otherwise |
| Posts.LikeUnlikeRoundTrip | readThis-BE/src/controllers/post_controller.ts:179-231 | like, like again, unlike: 200, 406, 200, and the posts are as before |
| Google.Username | readThis-BE/src/controllers/google_controller.ts:29 | a usable display name gives that name with its whitespace removed and lower-cased, which is non-empty with no whitespace and no upper-case letter; otherwise the part of the email before its first "@" |
| Google.DisplayNameUsername | readThis-BE/src/controllers/google_controller.ts:29 | a display name "First Last" gives "firstlast": the two words run together and lower-cased, in their order |
| Google.NameUsable | readThis-BE/src/controllers/google_controller.ts:29 | the name-derived username is non-empty exactly when the name has a non-whitespace character |
| Google.NameDecidesUsername | readThis-BE/src/controllers/google_controller.ts:29 | with a usable display name the email plays no part |
| Google.BlankNameFallsBackToEmail | readThis-BE/src/controllers/google_controller.ts:29 | an all-whitespace display name behaves as a missing one |
| Google.GoogleAuth | readThis-BE/src/controllers/google_controller.ts:9-53 | 500 when verification fails, 401 without an email, each with no change; an existing email reuses that user unchanged; otherwise one new user with the derived username, password "google-auth" and the picture, or 500 when the username is taken; the token pair is answered but not stored |
| Google.FindOrCreateUser | readThis-BE/src/controllers/google_controller.ts:26-39 | an existing email gives that user with no change; otherwise the next id, holding one new user with the derived username, password "google-auth", the picture and no refresh tokens, or no user and no change when the username is taken |
| Google.GoogleAuthKeepingRefreshToken | readThis-BE/src/controllers/google_controller.ts:9-53 | corrected sign-in: 500 without a verified payload and 401 without an email, each with no change; an existing email answers that user's session and appends the issued refresh token to that user's list only; a new email adds one user with the derived username, password "google-auth", the picture and the issued refresh token as its list, or answers 500 with no change when the username is taken; posts, comments and the other counters are unchanged |
| Google.SignUpKeepingRefreshToken | readThis-BE/src/controllers/google_controller.ts:28-49 | corrected sign-in for an unknown email: the new user at the next id with the issued refresh token as its list and its session answered, or 500 with no change when the username is taken |
| Google.KeepSession | readThis-BE/src/controllers/google_controller.ts:41-49 | corrected last step: the user's session answered from their row, the issued refresh token appended to their list and nothing else changed |
| Google.GoogleSessionCannotRefresh | readThis-BE/src/controllers/google_controller.ts:41-49 | a new user's first Google sign-in, then a refresh with the issued token: refused with 401 |
| Google.KeptGoogleSessionRefreshes | readThis-BE/src/controllers/google_controller.ts:41-49 | the same sequence with the corrected sign-in: the refresh succeeds for that user |
| Books.NonBlankLines | readThis-BE/src/services/books_service.ts:41 | kept lines are non-blank lines of the input, and every non-blank line is kept |
| Books.NonBlankLinesConcat | readThis-BE/src/services/books_service.ts:41 | the filter works piece by piece, so kept lines keep their order |
| Books.Recommendations | readThis-BE/src/services/books_service.ts:9-46 | never empty and never a blank line; with a key and a non-blank answer, exactly the non-blank lines of the trimmed answer; the fallback without a key, on failure, or for an absent or blank answer |
| Books.FallbackNotBlank | readThis-BE/src/services/books_service.ts:36-44 | the fallback line is not blank |
| Books.FirstLineNotBlank | readThis-BE/src/services/books_service.ts:34-41 | a trimmed non-empty answer keeps at least its first line |
| Books.OneLineAnswer | readThis-BE/src/services/books_service.ts:34-41 | a one-line answer comes back as that line |
| Books.TwoLineAnswer | readThis-BE/src/services/books_service.ts:41 | two lines come back untrimmed and in the order written |
| FileFilter.Filter | readThis-BE/src/common/file_middleware.ts:10-18 | accepted exactly when both the MIME type as sent and the lower-cased name contain "jpeg", "jpg" or "png"; a rejection carries "Only JPEG, JPG, and PNG files are allowed!" |
| FileFilter.FirstLetterMissing | readThis-BE/src/common/file_middleware.ts:10-12 | a word whose first letter is absent from the text is not found |
| FileFilter.UpperCaseMimetypeRejected | readThis-BE/src/common/file_middleware.ts:12 | the MIME type is not lower-cased: "IMAGE/PNG" is refused whatever the name |
| FileFilter.UpperCaseFileNameAccepted | readThis-BE/src/common/file_middleware.ts:12 | the name is lower-cased: "COVER.PNG" sent as "image/png" is accepted |
| FileFilter.WordAnywhereInNameAccepted | readThis-BE/src/common/file_middleware.ts:10-12 | the pattern is unanchored: "png-notes.txt" sent as "image/jpeg" is accepted |
| FileFilter.NameCaseIgnored | readThis-BE/src/common/file_middleware.ts:12 | lower-casing the name beforehand never changes the decision |

## Left out

- Prisma, S3, the HTTP calls to Google Books, Open Library and the chat service, and image resizing are not modelled as code. Their outcomes are inputs: an upload's success, a catalogue's first result, whether a download and re-upload worked, the chat answer.
- Token signing, token verification, Google identity-token verification and bcrypt are not modelled either. They are inputs: a `verify` function, the minted token pair, the password hash, a `compare` function.
- `Math.random` and `Date.now` are inputs.
- Races between concurrent requests are not modelled: each handler runs alone on the store. This covers the read-modify-write of token lists and liker sets, and the two reads `Promise.all` runs together in the feed.
- Which user `findFirst` returns when several hold the same refresh token is left open, as the database leaves it.
- A NaN id read from a path, a body or a token matches no row in the model. Prisma's own validation error for a NaN id is not modelled. In the post handlers that error would reach the surrounding `catch` and answer 500.
- Users.Refresh: a verified token whose `_id` is not a number gives 401 in the model. In the source, `findUnique` runs inside the callback passed to `jwt.verify`, so its rejection escapes the handler's `try`/`catch` and no reply is sent at all.
- Numbers.NumberOfIntString: numbers are unbounded integers, while a JavaScript number is a double that holds every integer exactly only up to `Number.MAX_SAFE_INTEGER` (2^53 - 1). The round trip is proved for every integer; database ids are 32-bit integers, well inside that range.
- Db.Database.DeletePost: it takes the schema's default referential action, which refuses to delete a post that comments still point at. The schema is not part of this model.
- Several 500 and 400 replies echo the text of a thrown error. A constant stands for that text (`Posts.ServiceErrorMessage`, `Users.StoreErrorMessage`, `Users.MissingCredentialMessage`, `Google.GoogleErrorMessage`).
- Numbers.StringToNumber: covers trimmed signed decimal integers and unsigned "0x"/"0o"/"0b" literals. Fractions, exponents and "Infinity" give NaN in the model, though JavaScript gives a number. Ids are integers, so only malformed ids are affected.
- Text.ToLower: lowers ASCII letters only. Other Unicode case mappings are not modelled.
- Feed.GetAllPaged: answers 500 for a negative limit. Prisma's meaning of a negative `take` is not modelled.
- Feed.GetAllPaged: the posts arrive already sorted newest first. `createdAt` is not modelled, and neither is a query parameter given as an array.
- Covers.CoverUrl: a Google result whose thumbnail is not a string is not modelled, and neither is the URL-encoding of the title in the catalogue queries.
- Users.Register: the `findFirst` with OR finds a user exactly when the email or the username is taken. What the caught error object looks like when sent with 400 is not modelled.
- AuthMiddleware.Authenticate: a token whose payload decodes to a plain string rather than an object is not modelled.
- FileFilter.Filter: how the upload library reports a file over the size limit is not modelled; only the limit itself is.
- `getAllPosts`, `getPostById` and `getMyPosts` in post_controller.ts are plain reads and are not part of this model.
- The routes, the server setup, the passport strategy, the thin comment, upload and recommendation controllers, and the frontend are not part of this model.

## Findings

| source | as written | input that shows it | evidently intended | confidence | as-written member | corrected member |
|---|---|---|---|---|---|---|
| readThis-BE/src/controllers/google_controller.ts:41-49 | Google sign-in answers with a fresh token pair but never adds the refresh token to the user's stored list. `refresh` accepts only tokens on that list (users_controller.ts:203), so a Google session can never be refreshed. | First Google sign-in of a new user, then `POST /auth/refresh` with the refresh token it returned: 401 "Invalid refresh token". | Append the refresh token to the user's list, as `login` does (users_controller.ts:141-145). The web client stores this token (readThis-FE/src/Utils/user_service.ts:140) and replays it to `/auth/refresh` (readThis-FE/src/Utils/post_service.ts:60-61). | high; not executed | Google.GoogleAuth, Google.GoogleSessionCannotRefresh | Google.GoogleAuthKeepingRefreshToken, Google.KeptGoogleSessionRefreshes |
