/**
 * Sign-in with a Google identity token: the verified payload's email finds
 * the user, or a new user is created with a username derived from the
 * display name or the email, and a token pair is issued.
 */
module Google {
  import opened Outcomes
  import opened Text
  import opened Numbers
  import opened Jwt
  import opened Db
  import opened Users

  /** The fields of a verified Google payload the handler reads; all optional. */
  datatype Payload = Payload(email: Option<string>, name: Option<string>, picture: Option<string>)

  /** The 200 answer: the user's fields and, when tokens could be generated, the token pair. */
  datatype GoogleSession = GoogleSession(
    id: int, username: string, email: string, imageUrl: Option<string>, tokens: Option<TokenPair>)

  const EmailMissingMessage := "Email missing from Google token"
  /** Stands for the text of the error raised when the identity token does not verify or the user cannot be created. */
  const GoogleErrorMessage := "google sign-in error"
  /** The password a user created through Google sign-in is stored with. */
  const GooglePassword := "google-auth"

  /**
   * The username of a new Google user: the display name with every
   * whitespace character removed and lower-cased, unless that is empty or
   * there is no name; then the part of the email before its first "@".
   */
  function Username(name: Option<string>, email: string): (u: string)
    ensures name.Some? && !IsBlank(name.value) ==>
      u != "" && (forall i :: 0 <= i < |u| ==> !IsSpace(u[i]) && !('A' <= u[i] <= 'Z'))
    ensures name.Some? && !IsBlank(name.value) ==> u == ToLower(RemoveSpaces(name.value))
    ensures !(name.Some? && !IsBlank(name.value)) ==>
      '@' !in u && StartsWith(email, u) && (|u| == |email| || email[|u|] == '@')
  {
    NameUsable(name);
    if name.Some? && ToLower(RemoveSpaces(name.value)) != "" then
      LowerKeepsNonSpace(RemoveSpaces(name.value));
      ToLower(RemoveSpaces(name.value))
    else
      var parts := Split(email, '@');
      var k := IndexOf(email, '@');
      assert k < |email| ==> parts[0] == email[..k];
      assert k == |email| ==> parts == [email];
      parts[0]
  }

  /** The name-derived username is non-empty exactly when the name has a non-whitespace character. */
  lemma NameUsable(name: Option<string>)
    ensures (name.Some? && ToLower(RemoveSpaces(name.value)) != "") <==> (name.Some? && !IsBlank(name.value))
  {
    if name.Some? {
      RemoveSpacesEmptyIffBlank(name.value);
    }
  }

  /** Lower-casing keeps every non-whitespace character non-whitespace and leaves no upper-case letter. */
  lemma LowerKeepsNonSpace(s: string)
    requires forall i :: 0 <= i < |s| ==> !IsSpace(s[i])
    ensures forall i :: 0 <= i < |ToLower(s)| ==> !IsSpace(ToLower(s)[i]) && !('A' <= ToLower(s)[i] <= 'Z')
  {
  }

  /** With a usable display name the email plays no part in the username. */
  lemma NameDecidesUsername(name: string, email1: string, email2: string)
    requires !IsBlank(name)
    ensures Username(Some(name), email1) == Username(Some(name), email2)
  {
    RemoveSpacesEmptyIffBlank(name);
  }

  /** A two-word display name gives the two words run together and lower-cased, in their order. */
  lemma DisplayNameUsername(first: string, last: string, email: string)
    requires first != "" && forall i :: 0 <= i < |first| ==> !IsSpace(first[i])
    requires forall i :: 0 <= i < |last| ==> !IsSpace(last[i])
    ensures Username(Some(first + " " + last), email) == ToLower(first + last)
  {
    var name := first + " " + last;
    RemoveSpacesOfPlain(first);
    RemoveSpacesOfPlain(last);
    assert RemoveSpaces(" ") == "" by { assert IsSpace(" "[0]) && " "[1..] == ""; }
    RemoveSpacesConcat(first, " ");
    assert RemoveSpaces(first + " ") == first;
    RemoveSpacesConcat(first + " ", last);
    assert RemoveSpaces(name) == first + last;
    assert !IsBlank(name) by { assert name[0] == first[0]; }
  }

  /** A display name of only whitespace falls back to the email, as a missing name does. */
  lemma BlankNameFallsBackToEmail(name: string, email: string)
    requires IsBlank(name)
    ensures Username(Some(name), email) == Username(None, email)
  {
    RemoveSpacesEmptyIffBlank(name);
  }

  /**
   * The user the sign-in continues with: the one holding the payload's
   * email, unchanged, or else a new user with the derived username, the
   * fixed password "google-auth" and the payload's picture. None when the
   * store refuses the new user because the username is taken.
   */
  method FindOrCreateUser(db: Database, p: Payload) returns (id: Option<int>)
    requires db.Valid() && Present(p.email)
    modifies db
    ensures db.Valid()
    ensures old(db.EmailTaken(p.email.value)) ==>
      && id.Some? && id.value in old(db.users) && old(db.users)[id.value].email == p.email.value
      && unchanged(db)
    ensures !old(db.EmailTaken(p.email.value)) ==>
      var username := Username(p.name, p.email.value);
      var n := old(db.nextUserId);
      && (old(db.UsernameTaken(username)) ==> id.None? && unchanged(db))
      && (!old(db.UsernameTaken(username)) ==>
            && id == Some(n) && n !in old(db.users)
            && db.users == old(db.users)[n := User(p.email.value, username, GooglePassword, p.picture, [])]
            && db.nextUserId == n + 1)
    ensures db.posts == old(db.posts) && db.comments == old(db.comments)
    ensures db.nextPostId == old(db.nextPostId) && db.nextCommentId == old(db.nextCommentId)
  {
    var email := p.email.value;
    var found := db.FindByEmail(email);
    if found.Some? {
      return found;
    }
    id := db.CreateUser(email, Username(p.name, email), GooglePassword, p.picture);
  }

  /**
   * `googleAuth`: `verified` is the payload of the identity token, None when
   * verification throws. The user with the payload's email is reused as it
   * is; otherwise a user is created, which the store refuses when the
   * derived username is taken. The issued refresh token is not stored.
   */
  method GoogleAuth(db: Database, verified: Option<Payload>, secret: Option<string>, minted: TokenPair)
    returns (reply: Reply<GoogleSession>)
    requires db.Valid()
    modifies db
    ensures db.Valid()
    ensures verified.None? ==> reply == Error(500, GoogleErrorMessage) && unchanged(db)
    ensures verified.Some? && !Present(verified.value.email) ==>
      reply == Error(401, EmailMissingMessage) && unchanged(db)
    ensures verified.Some? && Present(verified.value.email) && old(db.EmailTaken(verified.value.email.value)) ==>
      && unchanged(db)
      && reply.Ok? && reply.status == 200
      && reply.body.id in db.users && db.users[reply.body.id].email == verified.value.email.value
      && reply.body == GoogleSession(reply.body.id, db.users[reply.body.id].username, verified.value.email.value,
                                     db.users[reply.body.id].imageUrl, GenerateToken(secret, minted))
    ensures verified.Some? && Present(verified.value.email) && !old(db.EmailTaken(verified.value.email.value)) ==>
      var p := verified.value;
      var username := Username(p.name, p.email.value);
      var id := old(db.nextUserId);
      && (old(db.UsernameTaken(username)) ==> reply == Error(500, GoogleErrorMessage) && unchanged(db))
      && (!old(db.UsernameTaken(username)) ==>
            && db.users == old(db.users)[id := User(p.email.value, username, GooglePassword, p.picture, [])]
            && reply == Ok(200, GoogleSession(id, username, p.email.value, p.picture, GenerateToken(secret, minted)))
            && db.nextUserId == id + 1)
    ensures db.posts == old(db.posts) && db.comments == old(db.comments)
    ensures db.nextPostId == old(db.nextPostId) && db.nextCommentId == old(db.nextCommentId)
  {
    if verified.None? {
      return Error(500, GoogleErrorMessage);
    }
    var p := verified.value;
    if !Present(p.email) {
      return Error(401, EmailMissingMessage);
    }
    var signedIn := FindOrCreateUser(db, p);
    if signedIn.None? {
      return Error(500, GoogleErrorMessage);
    }
    var id := signedIn.value;
    var user := db.users[id];
    reply := Ok(200, GoogleSession(id, user.username, user.email, user.imageUrl, GenerateToken(secret, minted)));
  }

  /**
   * `googleAuth` as sign-in evidently intends it, the way `login` does it:
   * the same steps and the same answer, and on success with tokens the
   * issued refresh token appended to the user's list.
   */
  method GoogleAuthKeepingRefreshToken(db: Database, verified: Option<Payload>, secret: Option<string>,
                                       minted: TokenPair)
    returns (reply: Reply<GoogleSession>)
    requires db.Valid()
    modifies db
    ensures db.Valid()
    ensures !reply.Ok? ==> unchanged(db)
    ensures verified.None? ==> reply == Error(500, GoogleErrorMessage)
    ensures verified.Some? && !Present(verified.value.email) ==> reply == Error(401, EmailMissingMessage)
    ensures verified.Some? && Present(verified.value.email) && old(db.EmailTaken(verified.value.email.value)) ==>
      && reply.Ok? && reply.status == 200
      && var id := reply.body.id;
         && id in old(db.users) && old(db.users)[id].email == verified.value.email.value
         && reply.body == GoogleSession(id, old(db.users)[id].username, verified.value.email.value,
                                        old(db.users)[id].imageUrl, GenerateToken(secret, minted))
         && db.users == old(db.users)[id := old(db.users)[id].(
              refreshTokens := old(db.users)[id].refreshTokens
                               + (if Present(secret) then [minted.refreshToken] else []))]
    ensures verified.Some? && Present(verified.value.email) && !old(db.EmailTaken(verified.value.email.value)) ==>
      var p := verified.value;
      var username := Username(p.name, p.email.value);
      var id := old(db.nextUserId);
      && (old(db.UsernameTaken(username)) ==> reply == Error(500, GoogleErrorMessage))
      && (!old(db.UsernameTaken(username)) ==>
            && db.users == old(db.users)[id := User(p.email.value, username, GooglePassword, p.picture,
                                                    if Present(secret) then [minted.refreshToken] else [])]
            && reply == Ok(200, GoogleSession(id, username, p.email.value, p.picture, GenerateToken(secret, minted))))
    ensures reply.Ok? <==>
      && verified.Some? && Present(verified.value.email)
      && (old(db.EmailTaken(verified.value.email.value))
          || !old(db.UsernameTaken(Username(verified.value.name, verified.value.email.value))))
    ensures db.nextUserId ==
      if reply.Ok? && !old(db.EmailTaken(verified.value.email.value)) then old(db.nextUserId) + 1 else old(db.nextUserId)
    ensures db.posts == old(db.posts) && db.comments == old(db.comments)
    ensures db.nextPostId == old(db.nextPostId) && db.nextCommentId == old(db.nextCommentId)
  {
    if verified.None? {
      return Error(500, GoogleErrorMessage);
    }
    var p := verified.value;
    if !Present(p.email) {
      return Error(401, EmailMissingMessage);
    }
    var found := db.FindByEmail(p.email.value);
    if found.Some? {
      reply := KeepSession(db, found.value, secret, minted);
    } else {
      reply := SignUpKeepingRefreshToken(db, p.email.value, Username(p.name, p.email.value), p.picture, secret, minted);
    }
  }

  /** The corrected sign-in for an email no user has yet: create the user, then keep the session. */
  method SignUpKeepingRefreshToken(db: Database, email: string, username: string, picture: Option<string>,
                                   secret: Option<string>, minted: TokenPair)
    returns (reply: Reply<GoogleSession>)
    requires db.Valid() && !db.EmailTaken(email)
    modifies db
    ensures db.Valid()
    ensures old(db.UsernameTaken(username)) ==> reply == Error(500, GoogleErrorMessage) && unchanged(db)
    ensures !old(db.UsernameTaken(username)) ==>
      var id := old(db.nextUserId);
      && db.users == old(db.users)[id := User(email, username, GooglePassword, picture,
                                              if Present(secret) then [minted.refreshToken] else [])]
      && reply == Ok(200, GoogleSession(id, username, email, picture, GenerateToken(secret, minted)))
      && db.nextUserId == id + 1
    ensures db.posts == old(db.posts) && db.comments == old(db.comments)
    ensures db.nextPostId == old(db.nextPostId) && db.nextCommentId == old(db.nextCommentId)
  {
    ghost var before := db.users;
    var created := db.CreateUser(email, username, GooglePassword, picture);
    if created.None? {
      return Error(500, GoogleErrorMessage);
    }
    var id := created.value;
    ghost var row := User(email, username, GooglePassword, picture, []);
    ghost var kept := row.(refreshTokens := if Present(secret) then [minted.refreshToken] else []);
    assert row.(refreshTokens := row.refreshTokens + kept.refreshTokens) == kept;
    reply := KeepSession(db, id, secret, minted);
    assert db.users == before[id := row][id := kept];
    assert before[id := row][id := kept] == before[id := kept];
  }

  /**
   * The last step of the corrected sign-in for a found or created user: the
   * issued refresh token, if tokens were issued, appended to the user's
   * list, and the session answered; nothing else changes.
   */
  method KeepSession(db: Database, id: int, secret: Option<string>, minted: TokenPair)
    returns (reply: Reply<GoogleSession>)
    requires db.Valid() && id in db.users
    modifies db
    ensures db.Valid()
    ensures reply == Ok(200, GoogleSession(id, old(db.users)[id].username, old(db.users)[id].email,
                                           old(db.users)[id].imageUrl, GenerateToken(secret, minted)))
    ensures db.users == old(db.users)[id := old(db.users)[id].(
      refreshTokens := old(db.users)[id].refreshTokens + (if Present(secret) then [minted.refreshToken] else []))]
    ensures db.posts == old(db.posts) && db.comments == old(db.comments)
    ensures db.Counters() == old(db.Counters())
  {
    var user := db.users[id];
    var tokens := GenerateToken(secret, minted);
    if tokens.Some? {
      db.SetRefreshTokens(id, user.refreshTokens + [tokens.value.refreshToken]);
    } else {
      assert user.(refreshTokens := user.refreshTokens + []) == user;
      assert db.users[id := user] == db.users;
    }
    reply := Ok(200, GoogleSession(id, user.username, user.email, user.imageUrl, tokens));
  }

  /**
   * A first Google sign-in followed by a refresh with the refresh token it
   * issued: the token is correctly signed for the new user, yet `refresh`
   * refuses it, because the list it is checked against never received it.
   */
  method GoogleSessionCannotRefresh(db: Database, p: Payload, secret: Option<string>,
                                    verify: string -> Option<Claims>, minted: TokenPair, next: TokenPair)
    returns (signin: Reply<GoogleSession>, refreshed: Reply<Session>)
    requires db.Valid() && Present(secret) && Present(p.email)
    requires !db.EmailTaken(p.email.value) && !db.UsernameTaken(Username(p.name, p.email.value))
    requires minted.refreshToken != ""
    requires verify(minted.refreshToken) == Some(IssuedClaims(db.nextUserId))
    modifies db
    ensures signin.Ok? && signin.body.tokens == Some(minted)
    ensures refreshed == Error(401, InvalidRefreshMessage)
  {
    ghost var id := db.nextUserId;
    signin := GoogleAuth(db, Some(p), secret, minted);
    assert id in db.users && db.users[id].refreshTokens == [];
    EmptyListOwnsNoToken(db.users, id, minted.refreshToken, verify);
    refreshed := Refresh(db, Some(minted.refreshToken), secret, verify, next);
  }

  /** A token signed for a user whose list is empty has no owner. */
  lemma EmptyListOwnsNoToken(users: map<int, User>, id: int, token: string, verify: string -> Option<Claims>)
    requires id in users && users[id].refreshTokens == []
    requires verify(token) == Some(IssuedClaims(id))
    ensures RefreshOwner(users, token, verify) == None
  {
    NumberOfIntString(id);
  }

  /** The same sequence with the corrected sign-in: the refresh succeeds for the new user. */
  method KeptGoogleSessionRefreshes(db: Database, p: Payload, secret: Option<string>,
                                    verify: string -> Option<Claims>, minted: TokenPair, next: TokenPair)
    returns (signin: Reply<GoogleSession>, refreshed: Reply<Session>)
    requires db.Valid() && Present(secret) && Present(p.email)
    requires !db.EmailTaken(p.email.value) && !db.UsernameTaken(Username(p.name, p.email.value))
    requires minted.refreshToken != ""
    requires verify(minted.refreshToken) == Some(IssuedClaims(db.nextUserId))
    modifies db
    ensures signin.Ok? && signin.body.tokens == Some(minted)
    ensures refreshed.Ok? && refreshed.body.id == signin.body.id
  {
    ghost var id := db.nextUserId;
    NumberOfIntString(id);
    signin := GoogleAuthKeepingRefreshToken(db, Some(p), secret, minted);
    assert signin.body.id == id;
    assert db.users[id].refreshTokens == [minted.refreshToken];
    assert RefreshOwner(db.users, minted.refreshToken, verify) == Some(id);
    refreshed := Refresh(db, Some(minted.refreshToken), secret, verify, next);
  }
}
