/**
 * The relational store behind the handlers, seen through the ORM calls they
 * make: rows of users, posts and comments under auto-incremented ids, the
 * unique email and username of a user, the foreign keys from posts and
 * comments, and the many-to-many liker relation of a post.
 */
module Db {
  import opened Outcomes

  /** A user row; `refreshTokens` is the list of refresh tokens still accepted for this user. */
  datatype User = User(
    email: string,
    username: string,
    password: string,
    imageUrl: Option<string>,
    refreshTokens: seq<string>)

  /** A post row together with the set of ids of the users who like it. */
  datatype Post = Post(title: string, content: string, ownerId: int, imageUrl: string, likers: set<int>)

  /** A comment row. */
  datatype Comment = Comment(text: string, ownerId: int, postId: int)

  /** No two users share an email, and no two share a username. */
  ghost predicate UniqueIdentities(users: map<int, User>)
  {
    forall a, b :: a in users && b in users && a != b ==>
      users[a].email != users[b].email && users[a].username != users[b].username
  }

  class Database {
    var users: map<int, User>
    var posts: map<int, Post>
    var comments: map<int, Comment>
    var nextUserId: int
    var nextPostId: int
    var nextCommentId: int

    /** The constraints the database enforces on every row. */
    ghost predicate Valid()
      reads this
    {
      && 0 < nextUserId && 0 < nextPostId && 0 < nextCommentId
      && (forall id :: id in users ==> 0 < id < nextUserId)
      && UniqueIdentities(users)
      && (forall id :: id in posts ==>
            0 < id < nextPostId && posts[id].ownerId in users && posts[id].likers <= users.Keys)
      && (forall id :: id in comments ==>
            0 < id < nextCommentId && comments[id].ownerId in users && comments[id].postId in posts)
    }

    constructor ()
      ensures Valid()
      ensures users == map[] && posts == map[] && comments == map[]
    {
      users, posts, comments := map[], map[], map[];
      nextUserId, nextPostId, nextCommentId := 1, 1, 1;
    }

    /** The three auto-increment counters, so that a caller can frame them in one clause. */
    function Counters(): (int, int, int)
      reads this
    {
      (nextUserId, nextPostId, nextCommentId)
    }

    /** A user with this email exists. */
    predicate EmailTaken(email: string)
      reads this
    {
      exists id :: id in users && users[id].email == email
    }

    /** A user with this username exists. */
    predicate UsernameTaken(username: string)
      reads this
    {
      exists id :: id in users && users[id].username == username
    }

    /** `user.findUnique({ where: { username } })`. */
    method FindByUsername(username: string) returns (found: Option<int>)
      requires Valid()
      ensures found.Some? <==> UsernameTaken(username)
      ensures found.Some? ==> found.value in users && users[found.value].username == username
    {
      if id :| id in users && users[id].username == username {
        found := Some(id);
      } else {
        found := None;
      }
    }

    /** `user.findUnique({ where: { email } })`. */
    method FindByEmail(email: string) returns (found: Option<int>)
      requires Valid()
      ensures found.Some? <==> EmailTaken(email)
      ensures found.Some? ==> found.value in users && users[found.value].email == email
    {
      if id :| id in users && users[id].email == email {
        found := Some(id);
      } else {
        found := None;
      }
    }

    /**
     * `user.findFirst({ where: { refreshToken: { has: token } } })`: some user
     * whose list holds the token; which one, when several do, is the
     * database's choice.
     */
    method FindByRefreshToken(token: string) returns (found: Option<int>)
      ensures found.Some? <==> exists id :: id in users && token in users[id].refreshTokens
      ensures found.Some? ==> found.value in users && token in users[found.value].refreshTokens
    {
      if id :| id in users && token in users[id].refreshTokens {
        found := Some(id);
      } else {
        found := None;
      }
    }

    /** `user.create`: refused (None) when the email or the username is already taken. */
    method CreateUser(email: string, username: string, password: string, imageUrl: Option<string>)
      returns (created: Option<int>)
      requires Valid()
      modifies this
      ensures Valid()
      ensures created.None? <==> old(EmailTaken(email) || UsernameTaken(username))
      ensures created.None? ==> unchanged(this)
      ensures created.Some? ==>
        && created.value == old(nextUserId) && created.value !in old(users)
        && users == old(users)[created.value := User(email, username, password, imageUrl, [])]
        && posts == old(posts) && comments == old(comments)
        && nextUserId == old(nextUserId) + 1
      ensures nextPostId == old(nextPostId) && nextCommentId == old(nextCommentId)
    {
      if EmailTaken(email) || UsernameTaken(username) {
        created := None;
      } else {
        var id := nextUserId;
        users := users[id := User(email, username, password, imageUrl, [])];
        nextUserId := nextUserId + 1;
        created := Some(id);
      }
    }

    /** `user.update({ where: { id }, data: { imageUrl } })`. */
    method SetUserImage(id: int, imageUrl: Option<string>)
      requires Valid() && id in users
      modifies this
      ensures Valid()
      ensures users == old(users)[id := old(users[id]).(imageUrl := imageUrl)]
      ensures posts == old(posts) && comments == old(comments)
      ensures nextUserId == old(nextUserId) && nextPostId == old(nextPostId) && nextCommentId == old(nextCommentId)
    {
      users := users[id := users[id].(imageUrl := imageUrl)];
    }

    /** `user.update({ where: { id }, data: { refreshToken } })`. */
    method SetRefreshTokens(id: int, tokens: seq<string>)
      requires Valid() && id in users
      modifies this
      ensures Valid()
      ensures users == old(users)[id := old(users[id]).(refreshTokens := tokens)]
      ensures posts == old(posts) && comments == old(comments)
      ensures nextUserId == old(nextUserId) && nextPostId == old(nextPostId) && nextCommentId == old(nextCommentId)
    {
      users := users[id := users[id].(refreshTokens := tokens)];
    }

    /** `post.create`: refused (None) when the owner id names no user. */
    method CreatePost(title: string, content: string, ownerId: int, imageUrl: string)
      returns (created: Option<int>)
      requires Valid()
      modifies this
      ensures Valid()
      ensures created.None? <==> ownerId !in users
      ensures created.None? ==> unchanged(this)
      ensures created.Some? ==>
        && created.value == old(nextPostId) && created.value !in old(posts)
        && posts == old(posts)[created.value := Post(title, content, ownerId, imageUrl, {})]
        && users == old(users) && comments == old(comments)
        && nextPostId == old(nextPostId) + 1
      ensures nextUserId == old(nextUserId) && nextCommentId == old(nextCommentId)
    {
      if ownerId !in users {
        created := None;
      } else {
        var id := nextPostId;
        posts := posts[id := Post(title, content, ownerId, imageUrl, {})];
        nextPostId := nextPostId + 1;
        created := Some(id);
      }
    }

    /**
     * `post.update({ where: { id }, data: { title, content, imageUrl } })`: an
     * absent title or content leaves that column as it was.
     */
    method UpdatePost(id: int, title: Option<string>, content: Option<string>, imageUrl: string)
      requires Valid() && id in posts
      modifies this
      ensures Valid()
      ensures posts == old(posts)[id := old(posts[id]).(
        title := if title.Some? then title.value else old(posts[id].title),
        content := if content.Some? then content.value else old(posts[id].content),
        imageUrl := imageUrl)]
      ensures users == old(users) && comments == old(comments)
      ensures nextUserId == old(nextUserId) && nextPostId == old(nextPostId) && nextCommentId == old(nextCommentId)
    {
      var p := posts[id];
      posts := posts[id := p.(
        title := if title.Some? then title.value else p.title,
        content := if content.Some? then content.value else p.content,
        imageUrl := imageUrl)];
    }

    /** The post still has comments pointing at it. */
    predicate HasComments(postId: int)
      reads this
    {
      exists c :: c in comments && comments[c].postId == postId
    }

    /**
     * `post.delete`: with the default referential action a post that still
     * has comments cannot be deleted (false); its likes go with it.
     */
    method DeletePost(id: int) returns (deleted: bool)
      requires Valid() && id in posts
      modifies this
      ensures Valid()
      ensures deleted <==> !old(HasComments(id))
      ensures deleted ==> posts == old(posts) - {id}
      ensures !deleted ==> unchanged(this)
      ensures users == old(users) && comments == old(comments)
      ensures nextUserId == old(nextUserId) && nextPostId == old(nextPostId) && nextCommentId == old(nextCommentId)
    {
      if HasComments(id) {
        deleted := false;
      } else {
        posts := posts - {id};
        deleted := true;
      }
    }

    /** `usersWhoLiked: { connect: { id: userId } }`: refused (false) when no such user exists. */
    method Connect(postId: int, userId: int) returns (connected: bool)
      requires Valid() && postId in posts
      modifies this
      ensures Valid()
      ensures connected <==> userId in users
      ensures !connected ==> unchanged(this)
      ensures posts == if connected
        then old(posts)[postId := old(posts[postId]).(likers := old(posts[postId].likers) + {userId})]
        else old(posts)
      ensures users == old(users) && comments == old(comments)
      ensures nextUserId == old(nextUserId) && nextPostId == old(nextPostId) && nextCommentId == old(nextCommentId)
    {
      connected := userId in users;
      if connected {
        posts := posts[postId := posts[postId].(likers := posts[postId].likers + {userId})];
      }
    }

    /** `usersWhoLiked: { disconnect: { id: userId } }`. */
    method Disconnect(postId: int, userId: int)
      requires Valid() && postId in posts
      modifies this
      ensures Valid()
      ensures posts == old(posts)[postId := old(posts[postId]).(likers := old(posts[postId].likers) - {userId})]
      ensures users == old(users) && comments == old(comments)
      ensures nextUserId == old(nextUserId) && nextPostId == old(nextPostId) && nextCommentId == old(nextCommentId)
    {
      posts := posts[postId := posts[postId].(likers := posts[postId].likers - {userId})];
    }

    /** `comment.create`: refused (None) when the owner or the post does not exist. */
    method CreateComment(text: string, ownerId: int, postId: int) returns (created: Option<int>)
      requires Valid()
      modifies this
      ensures Valid()
      ensures created.None? <==> ownerId !in users || postId !in posts
      ensures created.None? ==> unchanged(this)
      ensures created.Some? ==>
        && created.value == old(nextCommentId) && created.value !in old(comments)
        && comments == old(comments)[created.value := Comment(text, ownerId, postId)]
        && users == old(users) && posts == old(posts)
        && nextCommentId == old(nextCommentId) + 1
      ensures nextUserId == old(nextUserId) && nextPostId == old(nextPostId)
    {
      if ownerId !in users || postId !in posts {
        created := None;
      } else {
        var id := nextCommentId;
        comments := comments[id := Comment(text, ownerId, postId)];
        nextCommentId := nextCommentId + 1;
        created := Some(id);
      }
    }
  }
}
