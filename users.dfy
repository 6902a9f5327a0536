/**
 * Password accounts and their sessions: registration with its validation
 * order, token generation, and the per-user list of refresh tokens that
 * login appends to, logout prunes and refresh rotates.
 */
module Users {
  import opened Outcomes
  import opened Text
  import opened Numbers
  import opened Jwt
  import opened Storage
  import opened Db

  // ---------------------------------------------------------------------
  // Registration

  /** A character the email pattern's `[^\s@]` admits. */
  predicate PlainChar(c: char)
  {
    !IsSpace(c) && c != '@'
  }

  predicate AllPlain(s: string)
  {
    forall i :: 0 <= i < |s| ==> PlainChar(s[i])
  }

  /**
   * `s` matches `^[^\s@]+@[^\s@]+\.[^\s@]+$` with the "@" at `at` and the
   * literal "." at `dot`: three non-empty runs of characters that are neither
   * whitespace nor "@" (the middle and last runs may hold dots of their own).
   */
  ghost predicate EmailShape(s: string, at: int, dot: int)
  {
    && 0 < at && at + 1 < dot && dot + 1 < |s|
    && s[at] == '@' && s[dot] == '.'
    && AllPlain(s[..at]) && AllPlain(s[at + 1..dot]) && AllPlain(s[dot + 1..])
  }

  ghost predicate MatchesEmailPattern(s: string)
  {
    exists at, dot :: EmailShape(s, at, dot)
  }

  /**
   * The email test: one "@" preceded by plain characters, followed by plain
   * characters among which a "." has at least one character on each side.
   */
  predicate ValidEmail(s: string)
  {
    var at := IndexOf(s, '@');
    if at == 0 || at == |s| || !AllPlain(s[..at]) then false
    else
      var rest := s[at + 1..];
      |rest| >= 3 && AllPlain(rest) && 1 + IndexOf(rest[1..], '.') < |rest| - 1
  }

  /** The email test accepts exactly the strings the regular expression matches. */
  lemma ValidEmailMatchesPattern(s: string)
    ensures ValidEmail(s) <==> MatchesEmailPattern(s)
  {
    if ValidEmail(s) {
      var at, dot := AcceptedEmailShape(s);
    }
    if MatchesEmailPattern(s) {
      var a, d :| EmailShape(s, a, d);
      MatchedEmailAccepted(s, a, d);
    }
  }

  /** An accepted address has the shape of the pattern: "@" first, then the first "." after one character. */
  lemma AcceptedEmailShape(s: string) returns (at: int, dot: int)
    requires ValidEmail(s)
    ensures EmailShape(s, at, dot)
  {
    at := IndexOf(s, '@');
    var rest := s[at + 1..];
    var j := IndexOf(rest[1..], '.');
    dot := at + 2 + j;
    assert s[dot] == rest[1..][j];
    var middle, last := s[at + 1..dot], s[dot + 1..];
    forall k | 0 <= k < |middle|
      ensures PlainChar(middle[k])
    {
      assert middle[k] == rest[k];
    }
    forall k | 0 <= k < |last|
      ensures PlainChar(last[k])
    {
      assert last[k] == rest[k + 2 + j];
    }
  }

  /** A string of the pattern's shape passes the email test. */
  lemma MatchedEmailAccepted(s: string, a: int, d: int)
    requires EmailShape(s, a, d)
    ensures ValidEmail(s)
  {
    assert '@' !in s[..a];
    IndexOfAt(s, '@', a);
    var at := IndexOf(s, '@');
    var rest := s[at + 1..];
    assert AllPlain(rest) by {
      forall i | 0 <= i < |rest| ensures PlainChar(rest[i]) {
        if i < d - a - 1 {
          assert rest[i] == s[a + 1..d][i];
        } else if i > d - a - 1 {
          assert rest[i] == s[d + 1..][i - (d - a)];
        }
      }
    }
    assert rest[1..][d - a - 2] == '.';
  }

  /** A registered account: its id and its row. */
  datatype Account = Account(id: int, user: User)

  const MissingFieldsMessage := "All fields are required: email, username, password."
  const InvalidEmailMessage := "Invalid email format."
  const MissingImageMessage := "Profile image is required."
  const TakenMessage := "Username or Email already exists. Please try a different one."
  /** Stands for the thrown error the catch-all sends with status 400. */
  const StoreErrorMessage := "object store error"

  /**
   * `register`: the checks in source order (fields, email pattern, image,
   * uniqueness), then the user row is created with an empty image, the
   * picture is uploaded under `profile/<id>.png`, and the row gets its URL.
   * `hashed` is the bcrypt hash of the password; `uploaded` is whether the
   * upload succeeded.
   */
  method Register(db: Database, bucket: Bucket, email: Option<string>, username: Option<string>,
                  password: Option<string>, hasImage: bool, hashed: string, uploaded: bool)
    returns (reply: Reply<Account>)
    requires db.Valid()
    modifies db
    ensures db.Valid()
    ensures !(Present(email) && Present(username) && Present(password)) ==>
      reply == Error(400, MissingFieldsMessage) && unchanged(db)
    ensures Present(email) && Present(username) && Present(password) && !ValidEmail(email.value) ==>
      reply == Error(400, InvalidEmailMessage) && unchanged(db)
    ensures Present(email) && Present(username) && Present(password) && ValidEmail(email.value) && !hasImage ==>
      reply == Error(400, MissingImageMessage) && unchanged(db)
    ensures Present(email) && Present(username) && Present(password) && ValidEmail(email.value) && hasImage
            && old(db.EmailTaken(email.value) || db.UsernameTaken(username.value)) ==>
      reply == Error(400, TakenMessage) && unchanged(db)
    ensures reply.Ok? <==>
      && Present(email) && Present(username) && Present(password) && ValidEmail(email.value) && hasImage
      && !old(db.EmailTaken(email.value) || db.UsernameTaken(username.value)) && uploaded
    ensures reply.Ok? ==>
      var id := old(db.nextUserId);
      && db.users == old(db.users)[id := User(email.value, username.value, hashed,
                                              Some(ObjectUrl(bucket, ProfileImageKey(id))), [])]
      && reply == Ok(200, Account(id, db.users[id]))
      && db.nextUserId == id + 1
    ensures !reply.Ok? ==> reply.status == 400
    ensures Present(email) && Present(username) && Present(password) && ValidEmail(email.value) && hasImage
            && !old(db.EmailTaken(email.value) || db.UsernameTaken(username.value)) && !uploaded ==>
      && reply == Error(400, StoreErrorMessage)
      && db.users == old(db.users)[old(db.nextUserId) := User(email.value, username.value, hashed, Some(""), [])]
      && db.nextUserId == old(db.nextUserId) + 1
    ensures db.posts == old(db.posts) && db.comments == old(db.comments)
    ensures db.nextPostId == old(db.nextPostId) && db.nextCommentId == old(db.nextCommentId)
  {
    if !(Present(email) && Present(username) && Present(password)) {
      return Error(400, MissingFieldsMessage);
    }
    if !ValidEmail(email.value) {
      return Error(400, InvalidEmailMessage);
    }
    var existing := db.EmailTaken(email.value) || db.UsernameTaken(username.value);
    if !hasImage {
      return Error(400, MissingImageMessage);
    }
    if existing {
      return Error(400, TakenMessage);
    }
    reply := CreateAccount(db, bucket, email.value, username.value, hashed, uploaded);
  }

  /**
   * The tail of `register` once every check has passed: the row is created
   * with an empty image URL, the picture uploaded under `profile/<id>.png`,
   * and the row updated with the picture's URL. A failed upload leaves the
   * row with its empty image URL behind.
   */
  method CreateAccount(db: Database, bucket: Bucket, email: string, username: string, hashed: string,
                       uploaded: bool)
    returns (reply: Reply<Account>)
    requires db.Valid() && !db.EmailTaken(email) && !db.UsernameTaken(username)
    modifies db
    ensures db.Valid()
    ensures var id := old(db.nextUserId);
      && id !in old(db.users)
      && db.nextUserId == id + 1
      && (!uploaded ==>
            && reply == Error(400, StoreErrorMessage)
            && db.users == old(db.users)[id := User(email, username, hashed, Some(""), [])])
      && (uploaded ==>
            && db.users == old(db.users)[id := User(email, username, hashed,
                                                    Some(ObjectUrl(bucket, ProfileImageKey(id))), [])]
            && reply == Ok(200, Account(id, db.users[id])))
    ensures db.posts == old(db.posts) && db.comments == old(db.comments)
    ensures db.nextPostId == old(db.nextPostId) && db.nextCommentId == old(db.nextCommentId)
  {
    var created := db.CreateUser(email, username, hashed, Some(""));
    var id := created.value;
    if !uploaded {
      return Error(400, StoreErrorMessage);
    }
    var row := User(email, username, hashed, Some(ObjectUrl(bucket, ProfileImageKey(id))), []);
    db.SetUserImage(id, row.imageUrl);
    assert db.users == old(db.users)[id := row];
    reply := Ok(200, Account(id, db.users[id]));
  }

  // ---------------------------------------------------------------------
  // Tokens

  /**
   * `generateToken`: null when no signing secret is configured, otherwise
   * the pair `minted` that signing produced (signing and its random salt are
   * outside the model).
   */
  function GenerateToken(secret: Option<string>, minted: TokenPair): (tokens: Option<TokenPair>)
    ensures tokens.None? <==> !Present(secret)
    ensures tokens.Some? ==> tokens.value == minted
  {
    if !Present(secret) then None else Some(minted)
  }

  /** `tokens.filter(t => t !== token)`. */
  function Without(tokens: seq<string>, token: string): (r: seq<string>)
    ensures token !in r
    ensures |r| <= |tokens|
  {
    if |tokens| == 0 then []
    else (if tokens[0] == token then [] else [tokens[0]]) + Without(tokens[1..], token)
  }

  /** Filtering keeps every other token as often as it occurred. */
  lemma {:induction false} WithoutKeepsOthers(tokens: seq<string>, token: string, other: string)
    requires other != token
    ensures multiset(Without(tokens, token))[other] == multiset(tokens)[other]
    decreases |tokens|
  {
    if |tokens| > 0 {
      WithoutKeepsOthers(tokens[1..], token, other);
      assert tokens == [tokens[0]] + tokens[1..];
    }
  }

  /** Filtering works piece by piece, so the surviving tokens keep their order. */
  lemma {:induction false} WithoutConcat(a: seq<string>, b: seq<string>, token: string)
    ensures Without(a + b, token) == Without(a, token) + Without(b, token)
    decreases |a|
  {
    if |a| > 0 {
      assert (a + b)[1..] == a[1..] + b;
      WithoutConcat(a[1..], b, token);
    } else {
      assert a + b == b;
    }
  }

  /** Filtering out a token nobody holds changes nothing. */
  lemma {:induction false} WithoutAbsent(tokens: seq<string>, token: string)
    requires token !in tokens
    ensures Without(tokens, token) == tokens
    decreases |tokens|
  {
    if |tokens| > 0 {
      WithoutAbsent(tokens[1..], token);
      assert tokens == [tokens[0]] + tokens[1..];
    }
  }

  /** The list after a refresh: the presented token gone, the new one at the end. */
  function Rotated(tokens: seq<string>, presented: string, issued: string): (r: seq<string>)
    ensures presented != issued ==> presented !in r
    ensures issued in r && r[|r| - 1] == issued
  {
    Without(tokens, presented) + [issued]
  }

  /** What `login` and `refresh` answer with. */
  datatype Session = Session(accessToken: string, refreshToken: string, id: int)

  const UserNotFoundMessage := "User not found"
  const WrongPasswordMessage := "Wrong username or password"
  const ServerErrorMessage := "Server Error"
  const TokenRequiredMessage := "Refresh token is required"
  const InvalidRefreshMessage := "Invalid refresh token"
  /**
   * Stands for the error thrown when the body lacks a field: Prisma's for a
   * lookup without a username, bcrypt's for a comparison without a password.
   * The catch-all sends it with status 400.
   */
  const MissingCredentialMessage := "missing credential"

  /**
   * `login`: the user found by username, the password checked with
   * `compare` (bcrypt's comparison), tokens generated, and the new refresh
   * token appended to the user's list. A body field that is absent
   * (`undefined`) makes the lookup or the comparison throw.
   */
  method Login(db: Database, username: Option<string>, password: Option<string>,
               compare: (string, string) -> bool, secret: Option<string>, minted: TokenPair)
    returns (reply: Reply<Session>)
    requires db.Valid()
    modifies db
    ensures db.Valid()
    ensures username.None? ==> reply == Error(400, MissingCredentialMessage) && unchanged(db)
    ensures username.Some? && !old(db.UsernameTaken(username.value)) ==>
      reply == Error(400, UserNotFoundMessage) && unchanged(db)
    ensures forall id :: username.Some? && id in old(db.users) && old(db.users)[id].username == username.value ==>
      && (password.None? ==> reply == Error(400, MissingCredentialMessage) && unchanged(db))
      && (password.Some? && !compare(password.value, old(db.users)[id].password) ==>
            reply == Error(401, WrongPasswordMessage) && unchanged(db))
      && (password.Some? && compare(password.value, old(db.users)[id].password) && !Present(secret) ==>
            reply == Error(500, ServerErrorMessage) && unchanged(db))
      && (password.Some? && compare(password.value, old(db.users)[id].password) && Present(secret) ==>
            && reply == Ok(200, Session(minted.accessToken, minted.refreshToken, id))
            && db.users == old(db.users)[id := old(db.users)[id].(
                 refreshTokens := old(db.users)[id].refreshTokens + [minted.refreshToken])])
    ensures db.posts == old(db.posts) && db.comments == old(db.comments)
    ensures db.Counters() == old(db.Counters())
  {
    if username.None? {
      return Error(400, MissingCredentialMessage);
    }
    var found := db.FindByUsername(username.value);
    if found.None? {
      return Error(400, UserNotFoundMessage);
    }
    var id := found.value;
    if password.None? {
      return Error(400, MissingCredentialMessage);
    }
    if !compare(password.value, db.users[id].password) {
      return Error(401, WrongPasswordMessage);
    }
    var tokens := GenerateToken(secret, minted);
    if tokens.None? {
      return Error(500, ServerErrorMessage);
    }
    db.SetRefreshTokens(id, db.users[id].refreshTokens + [tokens.value.refreshToken]);
    reply := Ok(200, Session(tokens.value.accessToken, tokens.value.refreshToken, id));
  }

  /**
   * `logout`: every copy of the token removed from the list of the user the
   * database finds holding it; "Success" even when no user holds it.
   */
  method Logout(db: Database, token: Option<string>) returns (reply: Reply<string>)
    requires db.Valid()
    modifies db
    ensures db.Valid()
    ensures !Present(token) ==> reply == Error(400, TokenRequiredMessage) && unchanged(db)
    ensures Present(token) ==> reply == Ok(200, "Success")
    ensures Present(token) && (forall id :: id in old(db.users) ==> token.value !in old(db.users)[id].refreshTokens) ==>
      unchanged(db)
    ensures Present(token) && (exists id :: id in old(db.users) && token.value in old(db.users)[id].refreshTokens) ==>
      exists id :: id in old(db.users) && token.value in old(db.users)[id].refreshTokens &&
        db.users == old(db.users)[id := old(db.users)[id].(
          refreshTokens := Without(old(db.users)[id].refreshTokens, token.value))]
    ensures db.posts == old(db.posts) && db.comments == old(db.comments)
    ensures db.Counters() == old(db.Counters())
  {
    if !Present(token) {
      return Error(400, TokenRequiredMessage);
    }
    var found := db.FindByRefreshToken(token.value);
    if found.Some? {
      var id := found.value;
      db.SetRefreshTokens(id, Without(db.users[id].refreshTokens, token.value));
    }
    reply := Ok(200, "Success");
  }

  /**
   * The user a presented refresh token belongs to, if any: the id its
   * verified `_id` claim names, provided that user exists and still holds
   * the token in its list.
   */
  function RefreshOwner(users: map<int, User>, token: string, verify: string -> Option<Claims>): (owner: Option<int>)
    ensures owner.Some? ==> owner.value in users && token in users[owner.value].refreshTokens
    ensures owner.Some? ==> verify(token).Some? && ToNumber(verify(token).value.underscoreId) == Int(owner.value)
    ensures forall id ::
      (verify(token).Some? && ToNumber(verify(token).value.underscoreId) == Int(id)
       && id in users && token in users[id].refreshTokens) ==> owner == Some(id)
  {
    match verify(token)
    case None => None
    case Some(c) =>
      var n := ToNumber(c.underscoreId);
      if n.Int? && n.value in users && token in users[n.value].refreshTokens then Some(n.value) else None
  }

  /**
   * `refresh`: the presented token must verify and still be in its owner's
   * list; it is then removed (every copy) and the new refresh token appended.
   */
  method Refresh(db: Database, token: Option<string>, secret: Option<string>,
                 verify: string -> Option<Claims>, minted: TokenPair)
    returns (reply: Reply<Session>)
    requires db.Valid()
    modifies db
    ensures db.Valid()
    ensures !Present(token) ==> reply == Error(400, TokenRequiredMessage)
    ensures Present(token) && !Present(secret) ==> reply == Error(500, ServerErrorMessage)
    ensures Present(token) && Present(secret) && old(RefreshOwner(db.users, token.value, verify)).None? ==>
      reply == Error(401, InvalidRefreshMessage)
    ensures !reply.Ok? ==> unchanged(db)
    ensures reply.Ok? <==>
      Present(token) && Present(secret) && old(RefreshOwner(db.users, token.value, verify)).Some?
    ensures reply.Ok? ==>
      var id := old(RefreshOwner(db.users, token.value, verify)).value;
      && reply == Ok(200, Session(minted.accessToken, minted.refreshToken, id))
      && db.users == old(db.users)[id := old(db.users)[id].(
           refreshTokens := Rotated(old(db.users)[id].refreshTokens, token.value, minted.refreshToken))]
    ensures db.posts == old(db.posts) && db.comments == old(db.comments)
    ensures db.Counters() == old(db.Counters())
  {
    if !Present(token) {
      return Error(400, TokenRequiredMessage);
    }
    if !Present(secret) {
      return Error(500, ServerErrorMessage);
    }
    var owner := RefreshOwner(db.users, token.value, verify);
    if owner.None? {
      return Error(401, InvalidRefreshMessage);
    }
    var id := owner.value;
    // The secret was checked above, so generateToken cannot return null here.
    var tokens := GenerateToken(secret, minted);
    db.SetRefreshTokens(id, Rotated(db.users[id].refreshTokens, token.value, tokens.value.refreshToken));
    reply := Ok(200, Session(tokens.value.accessToken, tokens.value.refreshToken, id));
  }

  /**
   * One-time use of refresh tokens: a login, a refresh with the token it
   * issued, then a second refresh with that same (still correctly signed)
   * token. The first two succeed and the replay is refused.
   */
  method RefreshTokenIsSingleUse(db: Database, username: string, password: string,
                                 compare: (string, string) -> bool, secret: Option<string>,
                                 verify: string -> Option<Claims>, first: TokenPair, second: TokenPair)
    returns (login: Reply<Session>, refreshed: Reply<Session>, replayed: Reply<Session>)
    requires db.Valid() && Present(secret)
    requires forall id :: id in db.users && db.users[id].username == username ==>
      compare(password, db.users[id].password) && verify(first.refreshToken) == Some(IssuedClaims(id))
    requires db.UsernameTaken(username)
    requires first.refreshToken != "" && first.refreshToken != second.refreshToken
    modifies db
    ensures login.Ok? && refreshed.Ok? && refreshed.body.id == login.body.id
    ensures replayed == Error(401, InvalidRefreshMessage)
  {
    ghost var id :| id in db.users && db.users[id].username == username;
    login := Login(db, Some(username), Some(password), compare, secret, first);
    assert login.body.id == id;
    NumberOfIntString(id);
    assert RefreshOwner(db.users, first.refreshToken, verify) == Some(id);
    refreshed := Refresh(db, Some(first.refreshToken), secret, verify, second);
    assert first.refreshToken !in db.users[id].refreshTokens;
    assert RefreshOwner(db.users, first.refreshToken, verify) == None;
    replayed := Refresh(db, Some(first.refreshToken), secret, verify, second);
  }
}
