/**
 * The post handlers that change the store: create (with an uploaded image
 * or a catalogue cover), delete and update by the owner, like and unlike,
 * and commenting. Each takes the id of the authenticated caller (None when
 * the request carries no user) and the post id from the path as `Number`
 * read it; a NaN id matches no row.
 */
module Posts {
  import opened Outcomes
  import opened Text
  import opened Numbers
  import opened Storage
  import opened Covers
  import opened Feed
  import opened Db

  const RequiredMessage := "Title, content, and owner are required."
  const CreateFailedMessage := "Failed to create post."
  const UnauthorizedMessage := "Unauthorized"
  const NotOwnedMessage := "Post not found or unauthorized"
  const DeletedMessage := "Post deleted successfully."
  const NotLoggedInMessage := "Unauthorized: User not logged in"
  const PostNotFoundMessage := "Post not found"
  const AlreadyLikedMessage := "User already liked this post"
  const NotLikedMessage := "User has not liked this post"
  const LikedMessage := "Post liked"
  const UnlikedMessage := "Post unliked"
  const CommentFieldsMessage := "Missing required fields."
  const CommentFailedMessage := "Failed to add comment."
  /** Stands for the text of the error the database client or the object store raised. */
  const ServiceErrorMessage := "service error"

  /** A stored post and its id. */
  datatype PostRow = PostRow(id: int, post: Post)

  /** A stored comment, its id, and its owner's name and avatar. */
  datatype CommentRow = CommentRow(id: int, comment: Comment, owner: Owner)

  /** The catalogue answers and the image pipeline a cover lookup would meet. */
  datatype CoverSources = CoverSources(google: Lookup<Option<Volume>>, openLibrary: Lookup<Doc>, fetched: string -> bool)

  /** A post with this id exists. */
  predicate Exists(posts: map<int, Post>, postId: Num)
  {
    postId.Int? && postId.value in posts
  }

  /** `findFirst({ where: { id, ownerId } })` finds a row: the post exists and `userId` owns it. */
  predicate OwnedBy(posts: map<int, Post>, postId: Num, userId: int)
  {
    Exists(posts, postId) && posts[postId.value].ownerId == userId
  }

  /** The owner field names an existing user. */
  predicate KnownOwner(users: map<int, User>, owner: string)
  {
    StringToNumber(owner).Int? && StringToNumber(owner).value in users
  }

  /** The image a new post ends up with: its uploaded file under `posts/<id>.png`, or the cover lookup's result. */
  function NewPostImage(b: Bucket, postId: int, file: bool, sources: CoverSources): (url: string)
    ensures StartsWith(url, "https://")
    ensures url == ObjectUrl(b, PostImageKey(postId)) || url == DefaultCover(b)
    ensures file ==> url == ObjectUrl(b, PostImageKey(postId))
    ensures !file ==> url == CoverUrl(b, postId, sources.google, sources.openLibrary, sources.fetched)
  {
    if file then ObjectUrl(b, PostImageKey(postId))
    else CoverUrl(b, postId, sources.google, sources.openLibrary, sources.fetched)
  }

  /**
   * `createPost`: the three body fields are checked, the row is created
   * with an empty image, then the uploaded file (`file`, `uploaded` being
   * whether the upload succeeded) or the cover lookup gives its image URL.
   * A failed upload leaves the row behind with the empty image.
   */
  method CreatePost(db: Database, b: Bucket, title: Option<string>, content: Option<string>,
                    owner: Option<string>, file: bool, uploaded: bool, sources: CoverSources)
    returns (reply: Reply<PostRow>)
    requires db.Valid()
    modifies db
    ensures db.Valid()
    ensures !(Present(title) && Present(content) && Present(owner)) ==>
      reply == Error(400, RequiredMessage) && unchanged(db)
    ensures Present(title) && Present(content) && Present(owner) && !KnownOwner(old(db.users), owner.value) ==>
      reply == Error(500, CreateFailedMessage) && unchanged(db)
    ensures reply.Ok? <==>
      Present(title) && Present(content) && Present(owner) && KnownOwner(old(db.users), owner.value) && (file ==> uploaded)
    ensures Present(title) && Present(content) && Present(owner) && KnownOwner(old(db.users), owner.value) ==>
      var id := old(db.nextPostId);
      var row := Post(title.value, content.value, StringToNumber(owner.value).value, "", {});
      && (file && !uploaded ==> reply == Error(500, CreateFailedMessage) && db.posts == old(db.posts)[id := row])
      && (reply.Ok? ==>
            && db.posts == old(db.posts)[id := row.(imageUrl := NewPostImage(b, id, file, sources))]
            && reply == Ok(201, PostRow(id, db.posts[id])))
      && db.nextPostId == id + 1
    ensures reply.Ok? ==> StartsWith(reply.body.post.imageUrl, "https://")
    ensures db.nextUserId == old(db.nextUserId) && db.nextCommentId == old(db.nextCommentId)
    ensures db.users == old(db.users) && db.comments == old(db.comments)
  {
    if !(Present(title) && Present(content) && Present(owner)) {
      return Error(400, RequiredMessage);
    }
    var ownerId := StringToNumber(owner.value);
    if ownerId.NaN? {
      return Error(500, CreateFailedMessage);
    }
    var created := db.CreatePost(title.value, content.value, ownerId.value, "");
    if created.None? {
      return Error(500, CreateFailedMessage);
    }
    var id := created.value;
    if file && !uploaded {
      return Error(500, CreateFailedMessage);
    }
    db.UpdatePost(id, None, None, NewPostImage(b, id, file, sources));
    reply := Ok(201, PostRow(id, db.posts[id]));
  }

  /**
   * `deletePost`: only the owner may delete; a post that still has
   * comments is refused by the store.
   */
  method DeletePost(db: Database, caller: Option<int>, postId: Num) returns (reply: Reply<string>)
    requires db.Valid()
    modifies db
    ensures db.Valid()
    ensures caller.None? ==> reply == Error(401, UnauthorizedMessage) && unchanged(db)
    ensures caller.Some? && !OwnedBy(old(db.posts), postId, caller.value) ==>
      reply == Error(400, NotOwnedMessage) && unchanged(db)
    ensures caller.Some? && OwnedBy(old(db.posts), postId, caller.value) && old(db.HasComments(postId.value)) ==>
      reply == Error(500, ServiceErrorMessage) && unchanged(db)
    ensures reply.Ok? <==>
      caller.Some? && OwnedBy(old(db.posts), postId, caller.value) && !old(db.HasComments(postId.value))
    ensures reply.Ok? ==> reply == Ok(200, DeletedMessage) && db.posts == old(db.posts) - {postId.value}
    ensures db.users == old(db.users) && db.comments == old(db.comments)
    ensures db.Counters() == old(db.Counters())
  {
    if caller.None? {
      return Error(401, UnauthorizedMessage);
    }
    if !OwnedBy(db.posts, postId, caller.value) {
      return Error(400, NotOwnedMessage);
    }
    var deleted := db.DeletePost(postId.value);
    if !deleted {
      return Error(500, ServiceErrorMessage);
    }
    reply := Ok(200, DeletedMessage);
  }

  /** The key a replacement image is stored under: `posts/<postId>-<now>.png`. */
  function ReplacementImageKey(postId: int, now: int): string
  {
    "posts/" + IntString(postId) + "-" + IntString(now) + ".png"
  }

  /**
   * `updatePost`: only the owner may update; an absent title or content
   * keeps the stored one, and the image changes only when a file comes
   * with the request (`now` is `Date.now()` at the upload).
   */
  method UpdatePost(db: Database, b: Bucket, caller: Option<int>, postId: Num, title: Option<string>,
                    content: Option<string>, file: bool, uploaded: bool, now: int)
    returns (reply: Reply<Post>)
    requires db.Valid()
    modifies db
    ensures db.Valid()
    ensures caller.None? ==> reply == Error(401, UnauthorizedMessage) && unchanged(db)
    ensures caller.Some? && !OwnedBy(old(db.posts), postId, caller.value) ==>
      reply == Error(404, NotOwnedMessage) && unchanged(db)
    ensures reply.Ok? <==> caller.Some? && OwnedBy(old(db.posts), postId, caller.value) && (file ==> uploaded)
    ensures caller.Some? && OwnedBy(old(db.posts), postId, caller.value) && file && !uploaded ==>
      reply == Error(500, ServiceErrorMessage)
    ensures !reply.Ok? ==> unchanged(db)
    ensures reply.Ok? ==>
      var old_ := old(db.posts[postId.value]);
      && reply.status == 200
      && db.posts == old(db.posts)[postId.value := reply.body]
      && reply.body.title == (if title.Some? then title.value else old_.title)
      && reply.body.content == (if content.Some? then content.value else old_.content)
      && reply.body.imageUrl == (if file then ObjectUrl(b, ReplacementImageKey(postId.value, now)) else old_.imageUrl)
      && reply.body.ownerId == old_.ownerId && reply.body.likers == old_.likers
    ensures db.users == old(db.users) && db.comments == old(db.comments)
    ensures db.Counters() == old(db.Counters())
  {
    if caller.None? {
      return Error(401, UnauthorizedMessage);
    }
    if !OwnedBy(db.posts, postId, caller.value) {
      return Error(404, NotOwnedMessage);
    }
    var id := postId.value;
    var imageUrl := db.posts[id].imageUrl;
    if file {
      if !uploaded {
        return Error(500, ServiceErrorMessage);
      }
      imageUrl := ObjectUrl(b, ReplacementImageKey(id, now));
    }
    db.UpdatePost(id, title, content, imageUrl);
    reply := Ok(200, db.posts[id]);
  }

  /**
   * `likePost`: a logged-in caller who does not like the post yet is added
   * to its likers; the store refuses a caller id that names no user.
   */
  method LikePost(db: Database, caller: Option<int>, postId: Num) returns (reply: Reply<string>)
    requires db.Valid()
    modifies db
    ensures db.Valid()
    ensures caller.None? ==> reply == Error(401, NotLoggedInMessage)
    ensures caller.Some? && !Exists(old(db.posts), postId) ==> reply == Error(404, PostNotFoundMessage)
    ensures caller.Some? && Exists(old(db.posts), postId) && caller.value in old(db.posts[postId.value].likers) ==>
      reply == Error(406, AlreadyLikedMessage)
    ensures reply.Ok? <==>
      caller.Some? && Exists(old(db.posts), postId) && caller.value !in old(db.posts[postId.value].likers)
      && caller.value in old(db.users)
    ensures caller.Some? && Exists(old(db.posts), postId) && caller.value !in old(db.posts[postId.value].likers)
            && caller.value !in old(db.users) ==>
      reply == Error(500, ServiceErrorMessage)
    ensures reply.Ok? ==>
      && reply == Ok(200, LikedMessage)
      && db.posts == old(db.posts)[postId.value := old(db.posts[postId.value]).(
           likers := old(db.posts[postId.value].likers) + {caller.value})]
    ensures !reply.Ok? ==> unchanged(db)
    ensures db.users == old(db.users) && db.comments == old(db.comments)
    ensures db.Counters() == old(db.Counters())
  {
    if caller.None? {
      return Error(401, NotLoggedInMessage);
    }
    if !Exists(db.posts, postId) {
      return Error(404, PostNotFoundMessage);
    }
    if caller.value in db.posts[postId.value].likers {
      return Error(406, AlreadyLikedMessage);
    }
    var connected := db.Connect(postId.value, caller.value);
    if !connected {
      return Error(500, ServiceErrorMessage);
    }
    reply := Ok(200, LikedMessage);
  }

  /** `unlikePost`: a logged-in caller who likes the post is removed from its likers. */
  method UnlikePost(db: Database, caller: Option<int>, postId: Num) returns (reply: Reply<string>)
    requires db.Valid()
    modifies db
    ensures db.Valid()
    ensures caller.None? ==> reply == Error(401, NotLoggedInMessage)
    ensures caller.Some? && !Exists(old(db.posts), postId) ==> reply == Error(404, PostNotFoundMessage)
    ensures caller.Some? && Exists(old(db.posts), postId) && caller.value !in old(db.posts[postId.value].likers) ==>
      reply == Error(406, NotLikedMessage)
    ensures reply.Ok? <==>
      caller.Some? && Exists(old(db.posts), postId) && caller.value in old(db.posts[postId.value].likers)
    ensures reply.Ok? ==>
      && reply == Ok(200, UnlikedMessage)
      && db.posts == old(db.posts)[postId.value := old(db.posts[postId.value]).(
           likers := old(db.posts[postId.value].likers) - {caller.value})]
    ensures !reply.Ok? ==> unchanged(db)
    ensures db.users == old(db.users) && db.comments == old(db.comments)
    ensures db.Counters() == old(db.Counters())
  {
    if caller.None? {
      return Error(401, NotLoggedInMessage);
    }
    if !Exists(db.posts, postId) {
      return Error(404, PostNotFoundMessage);
    }
    if caller.value !in db.posts[postId.value].likers {
      return Error(406, NotLikedMessage);
    }
    db.Disconnect(postId.value, caller.value);
    reply := Ok(200, UnlikedMessage);
  }

  /**
   * `addCommentToPost`: a non-empty text from a logged-in caller becomes a
   * comment on the post; the store refuses a post or an owner that does
   * not exist.
   */
  method AddCommentToPost(db: Database, caller: Option<int>, postId: Num, text: Option<string>)
    returns (reply: Reply<CommentRow>)
    requires db.Valid()
    modifies db
    ensures db.Valid()
    ensures !Present(text) || caller.None? ==> reply == Error(400, CommentFieldsMessage)
    ensures reply.Ok? <==>
      Present(text) && caller.Some? && Exists(old(db.posts), postId) && caller.value in old(db.users)
    ensures Present(text) && caller.Some? && !reply.Ok? ==> reply == Error(500, CommentFailedMessage)
    ensures !reply.Ok? ==> unchanged(db)
    ensures reply.Ok? ==>
      var id := old(db.nextCommentId);
      var user := old(db.users[caller.value]);
      && db.comments == old(db.comments)[id := Comment(text.value, caller.value, postId.value)]
      && reply == Ok(201, CommentRow(id, db.comments[id], Owner(user.username, user.imageUrl)))
      && db.nextCommentId == id + 1
    ensures db.users == old(db.users) && db.posts == old(db.posts)
    ensures db.nextUserId == old(db.nextUserId) && db.nextPostId == old(db.nextPostId)
  {
    if !Present(text) || caller.None? {
      return Error(400, CommentFieldsMessage);
    }
    if postId.NaN? {
      return Error(500, CommentFailedMessage);
    }
    var created := db.CreateComment(text.value, caller.value, postId.value);
    if created.None? {
      return Error(500, CommentFailedMessage);
    }
    var id := created.value;
    var user := db.users[caller.value];
    reply := Ok(201, CommentRow(id, db.comments[id], Owner(user.username, user.imageUrl)));
  }

  /**
   * Liking twice is refused and changes nothing; unliking afterwards
   * restores the liker set the post had before the first like.
   */
  method LikeUnlikeRoundTrip(db: Database, userId: int, postId: int)
    returns (first: Reply<string>, second: Reply<string>, undone: Reply<string>)
    requires db.Valid() && postId in db.posts && userId in db.users && userId !in db.posts[postId].likers
    modifies db
    ensures first == Ok(200, LikedMessage)
    ensures second == Error(406, AlreadyLikedMessage)
    ensures undone == Ok(200, UnlikedMessage)
    ensures db.posts == old(db.posts) && db.users == old(db.users) && db.comments == old(db.comments)
    ensures db.Counters() == old(db.Counters())
  {
    ghost var before := db.posts[postId];
    first := LikePost(db, Some(userId), Int(postId));
    second := LikePost(db, Some(userId), Int(postId));
    undone := UnlikePost(db, Some(userId), Int(postId));
    assert db.posts[postId] == before;
  }
}
