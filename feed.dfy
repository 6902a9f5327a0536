/**
 * The paged home feed: query parameters read with `parseInt` and defaults,
 * the window of posts a page shows, the page count, and the rewriting of
 * stored image paths into absolute URLs on the way out.
 */
module Feed {
  import opened Outcomes
  import opened Text
  import opened Numbers
  import opened Storage

  /** The `owner: { username, imageUrl }` selection attached to posts and comments. */
  datatype Owner = Owner(username: string, imageUrl: Option<string>)

  /** A comment as the feed lists it, with its owner. */
  datatype CommentView = CommentView(id: int, text: string, ownerId: int, postId: int, owner: Owner)

  /** A post as the feed lists it, with its owner and its comments. */
  datatype PostView = PostView(
    id: int, title: string, content: string, imageUrl: string, ownerId: int,
    owner: Owner, comments: seq<CommentView>)

  /** One page of the feed and the number of pages there are. */
  datatype Page = Page(posts: seq<PostView>, totalPages: int)

  const FetchFailedMessage := "Failed to fetch posts"

  // ---------------------------------------------------------------------
  // Image URLs

  /** Anything appended to the bucket's base URL starts with "http". */
  lemma BasePrefixed(b: Bucket, path: string)
    ensures StartsWith(BaseUrl(b) + path, "http")
  {
    assert (BaseUrl(b) + path)[..4] == BaseUrl(b)[..8][..4] == "https://"[..4];
  }

  /**
   * The image a post is served with: a URL starting with "http" passes
   * through, anything else (the empty string included) is taken as a path
   * under the bucket's base URL.
   */
  function PostImage(b: Bucket, url: string): (r: string)
    ensures StartsWith(r, "http")
    ensures StartsWith(url, "http") ==> r == url
    ensures !StartsWith(url, "http") ==> StartsWith(r, BaseUrl(b)) && r[|BaseUrl(b)|..] == url
  {
    if url != "" && StartsWith(url, "http") then url
    else
      BasePrefixed(b, url);
      ObjectUrl(b, url)
  }

  /**
   * The avatar an owner is served with: absent when the stored value is
   * absent or empty, passed through when it starts with "http", and
   * otherwise prefixed with the bucket's base URL.
   */
  function Avatar(b: Bucket, url: Option<string>): (r: Option<string>)
    ensures r.None? <==> !Present(url)
    ensures r.Some? ==> StartsWith(r.value, "http")
    ensures Present(url) && StartsWith(url.value, "http") ==> r == url
    ensures Present(url) && !StartsWith(url.value, "http") ==> r == Some(ObjectUrl(b, url.value))
  {
    if !Present(url) then None
    else if StartsWith(url.value, "http") then url
    else
      BasePrefixed(b, url.value);
      Some(ObjectUrl(b, url.value))
  }

  /** The two views agree on everything but their image URLs. */
  predicate SameComment(a: CommentView, c: CommentView)
  {
    a.id == c.id && a.text == c.text && a.ownerId == c.ownerId && a.postId == c.postId
    && a.owner.username == c.owner.username
  }

  predicate SamePost(a: PostView, p: PostView)
  {
    && a.id == p.id && a.title == p.title && a.content == p.content && a.ownerId == p.ownerId
    && a.owner.username == p.owner.username
    && |a.comments| == |p.comments|
    && forall j :: 0 <= j < |a.comments| ==> SameComment(a.comments[j], p.comments[j])
  }

  /** Every image URL in the view is absolute (starts with "http"), where one is given at all. */
  predicate Absolute(p: PostView)
  {
    && StartsWith(p.imageUrl, "http")
    && (p.owner.imageUrl.Some? ==> StartsWith(p.owner.imageUrl.value, "http"))
    && forall j :: 0 <= j < |p.comments| ==>
         p.comments[j].owner.imageUrl.Some? ==> StartsWith(p.comments[j].owner.imageUrl.value, "http")
  }

  /** The rewriting `getAllPaged` applies to one post. */
  function NormalisePost(b: Bucket, p: PostView): (r: PostView)
    ensures SamePost(r, p) && Absolute(r)
    ensures r.imageUrl == PostImage(b, p.imageUrl) && r.owner.imageUrl == Avatar(b, p.owner.imageUrl)
    ensures forall j :: 0 <= j < |r.comments| ==>
      r.comments[j].owner.imageUrl == Avatar(b, p.comments[j].owner.imageUrl)
  {
    p.(imageUrl := PostImage(b, p.imageUrl),
       owner := p.owner.(imageUrl := Avatar(b, p.owner.imageUrl)),
       comments := seq(|p.comments|, j requires 0 <= j < |p.comments| =>
         p.comments[j].(owner := p.comments[j].owner.(imageUrl := Avatar(b, p.comments[j].owner.imageUrl)))))
  }

  /** The rewriting applied to a whole page: same posts, same order, absolute URLs. */
  function NormaliseAll(b: Bucket, posts: seq<PostView>): (r: seq<PostView>)
    ensures |r| == |posts|
    ensures forall i :: 0 <= i < |r| ==> SamePost(r[i], posts[i]) && Absolute(r[i])
    ensures forall i :: 0 <= i < |r| ==>
      && r[i].imageUrl == PostImage(b, posts[i].imageUrl)
      && r[i].owner.imageUrl == Avatar(b, posts[i].owner.imageUrl)
      && |r[i].comments| == |posts[i].comments|
      && forall j :: 0 <= j < |r[i].comments| ==>
           r[i].comments[j].owner.imageUrl == Avatar(b, posts[i].comments[j].owner.imageUrl)
  {
    seq(|posts|, i requires 0 <= i < |posts| => NormalisePost(b, posts[i]))
  }

  /** A view whose URLs are already absolute is left exactly as it is. */
  lemma NormaliseKeepsAbsolute(b: Bucket, p: PostView)
    requires Absolute(p)
    ensures NormalisePost(b, p) == p
  {
    var r := NormalisePost(b, p);
    assert r.comments == p.comments by {
      forall j | 0 <= j < |p.comments|
        ensures r.comments[j] == p.comments[j]
      {
        assert Avatar(b, p.comments[j].owner.imageUrl) == p.comments[j].owner.imageUrl;
      }
    }
  }

  /** Rewriting twice is rewriting once. */
  lemma NormaliseIdempotent(b: Bucket, posts: seq<PostView>)
    ensures NormaliseAll(b, NormaliseAll(b, posts)) == NormaliseAll(b, posts)
  {
    var once := NormaliseAll(b, posts);
    forall i | 0 <= i < |once|
      ensures NormalisePost(b, once[i]) == once[i]
    {
      NormaliseKeepsAbsolute(b, once[i]);
    }
  }

  // ---------------------------------------------------------------------
  // Paging

  /** `parseInt(q) || fallback`: the parsed value unless it is NaN or 0. */
  function QueryNumber(q: Option<string>, fallback: int): (n: int)
    ensures fallback != 0 ==> n != 0
    ensures q.Some? && Truthy(ParseInt(q.value)) ==> n == ParseInt(q.value).value
    ensures !(q.Some? && Truthy(ParseInt(q.value))) ==> n == fallback
  {
    if q.Some? && Truthy(ParseInt(q.value)) then ParseInt(q.value).value else fallback
  }

  /** A positive number written in decimal is read back as itself. */
  lemma QueryOfDecimal(n: nat, fallback: int)
    requires 0 < n <= MaxSafeInteger
    ensures QueryNumber(Some(DecimalString(n)), fallback) == n
  {
    ParseIntOfDecimal(n);
  }

  /** An absent parameter, "0" and "abc" all give the fallback. */
  lemma QueryDefaults(fallback: int)
    ensures QueryNumber(None, fallback) == fallback
    ensures QueryNumber(Some("0"), fallback) == fallback
    ensures QueryNumber(Some("abc"), fallback) == fallback
  {
    ParseIntOfDecimal(0);
    assert DecimalString(0) == "0";
    var s := "abc";
    assert LeadingSpaces(s) == 0 by { assert !IsSpace(s[0]); }
    assert s[0..] == s;
    QueryWithoutDigitsDefaults(s, fallback);
  }

  /**
   * A parameter with no decimal digit after its leading whitespace and
   * optional sign ("", "abc", "-x", " +") gives the fallback.
   */
  lemma QueryWithoutDigitsDefaults(q: string, fallback: int)
    requires AfterSign(q) == "" || !IsDigit(AfterSign(q)[0], 10)
    ensures QueryNumber(Some(q), fallback) == fallback
  {
    ParseIntWithoutDigits(q);
  }

  /** `Math.ceil(total / limit)`: the fewest pages of `limit` posts that hold `total` posts. */
  function TotalPages(total: nat, limit: nat): (pages: nat)
    requires limit > 0
    ensures total <= pages * limit
    ensures pages > 0 ==> (pages - 1) * limit < total
  {
    (total + limit - 1) / limit
  }

  /** How many of `total` posts a window of `take` posts starting `skip` posts in holds. */
  function PageLength(total: nat, skip: nat, take: nat): nat
  {
    if skip >= total then 0 else if total - skip < take then total - skip else take
  }

  /** `findMany({ skip, take })` over the posts, newest first. */
  function Window(posts: seq<PostView>, skip: nat, take: nat): (w: seq<PostView>)
    ensures |w| <= take && |w| == PageLength(|posts|, skip, take)
    ensures forall k :: 0 <= k < |w| ==> skip + k < |posts| && w[k] == posts[skip + k]
    ensures skip + take <= |posts| ==> |w| == take
    ensures skip <= |posts| < skip + take ==> |w| == |posts| - skip
  {
    var lo := if skip <= |posts| then skip else |posts|;
    var hi := if skip + take <= |posts| then skip + take else |posts|;
    posts[lo..hi]
  }

  /**
   * `getAllPaged` over the posts newest first: page and limit from the
   * query (defaults 1 and 5), `skip = (page - 1) * limit`; a negative skip
   * or a negative limit is refused by the query and answered with 500.
   */
  function GetAllPaged(b: Bucket, pageQuery: Option<string>, limitQuery: Option<string>,
                       newestFirst: seq<PostView>): (r: Reply<Page>)
    ensures r.Ok? <==> QueryNumber(pageQuery, 1) >= 1 && QueryNumber(limitQuery, 5) >= 1
    ensures r.Error? ==> r == Error(500, FetchFailedMessage)
    ensures r.Ok? ==>
      var limit := QueryNumber(limitQuery, 5);
      var skip := Skip(QueryNumber(pageQuery, 1), limit);
      && r.status == 200
      && |r.body.posts| <= limit
      && |r.body.posts| == PageLength(|newestFirst|, skip, limit)
      && r.body.totalPages == TotalPages(|newestFirst|, limit)
      && forall k :: 0 <= k < |r.body.posts| ==>
           skip + k < |newestFirst| && r.body.posts[k] == NormalisePost(b, newestFirst[skip + k])
  {
    var page := QueryNumber(pageQuery, 1);
    var limit := QueryNumber(limitQuery, 5);
    var skip := Skip(page, limit);
    if skip < 0 || limit < 0 then Error(500, FetchFailedMessage)
    else Ok(200, PageAt(b, newestFirst, skip, limit))
  }

  /** The page of at most `limit` posts starting `skip` posts in, with absolute image URLs and the page count. */
  function PageAt(b: Bucket, newestFirst: seq<PostView>, skip: nat, limit: nat): (p: Page)
    requires limit > 0
    ensures |p.posts| <= limit && p.totalPages == TotalPages(|newestFirst|, limit)
    ensures |p.posts| == PageLength(|newestFirst|, skip, limit)
    ensures forall k :: 0 <= k < |p.posts| ==>
      skip + k < |newestFirst| && p.posts[k] == NormalisePost(b, newestFirst[skip + k])
  {
    Page(NormaliseAll(b, Window(newestFirst, skip, limit)), TotalPages(|newestFirst|, limit))
  }

  /** `(page - 1) * limit`, which is never negative for a positive limit exactly when the page is at least 1. */
  function Skip(page: int, limit: int): (skip: int)
    ensures limit > 0 ==> (skip >= 0 <==> page >= 1)
  {
    if limit > 0 && page < 1 then
      assert (page - 1) * limit <= -limit;
      (page - 1) * limit
    else (page - 1) * limit
  }

  /**
   * Every post is on exactly one page: the `i`-th newest post is the
   * `(i % limit)`-th entry of page `i / limit + 1`, and that page is within
   * the page count.
   */
  lemma PagesCoverFeed(posts: seq<PostView>, limit: nat, i: nat)
    requires limit > 0 && i < |posts|
    ensures 1 <= i / limit + 1 <= TotalPages(|posts|, limit)
    ensures var w := Window(posts, (i / limit) * limit, limit);
            i % limit < |w| && w[i % limit] == posts[i]
  {
    EntryOfPage(i, limit);
    InWindow(posts, (i / limit) * limit, limit, i % limit);
    PageBelowCount(i, limit, |posts|);
  }

  /** Entry `i` sits `i % limit` places past the first entry of its page. */
  lemma EntryOfPage(i: nat, limit: nat)
    requires limit > 0
    ensures (i / limit) * limit + i % limit == i && i % limit < limit
  {
  }

  /** Entry `i` of `total` lies on a page before the page count. */
  lemma PageBelowCount(i: nat, limit: nat, total: nat)
    requires limit > 0 && i < total
    ensures i / limit < TotalPages(total, limit)
  {
    EntryOfPage(i, limit);
    FactorLess(i / limit, TotalPages(total, limit), limit);
  }

  /** An entry `r < take` places past `skip` that exists is the `r`-th entry of the window. */
  lemma InWindow(posts: seq<PostView>, skip: nat, take: nat, r: nat)
    requires r < take && skip + r < |posts|
    ensures r < |Window(posts, skip, take)| && Window(posts, skip, take)[r] == posts[skip + r]
  {
  }

  /** Dividing out a positive factor keeps a strict order. */
  lemma FactorLess(a: int, b: int, c: int)
    requires c > 0 && a * c < b * c
    ensures a < b
  {
    assert (b - a) * c == b * c - a * c;
  }

  /** Multiplying by a non-negative factor keeps a weak order. */
  lemma FactorLe(a: int, b: int, c: int)
    requires c >= 0 && a <= b
    ensures a * c <= b * c
  {
    assert (b - a) * c >= 0;
  }

  /** A page within the page count is never empty, and a page beyond it always is. */
  lemma PageEmptyIffBeyondCount(posts: seq<PostView>, limit: nat, page: nat)
    requires limit > 0 && page >= 1
    ensures Window(posts, (page - 1) * limit, limit) == [] <==> page > TotalPages(|posts|, limit)
  {
    var pages := TotalPages(|posts|, limit);
    var skip := (page - 1) * limit;
    if page <= pages {
      FactorLe(page - 1, pages - 1, limit);
      assert skip < |posts|;
      assert |Window(posts, skip, limit)| >= 1;
    } else {
      FactorLe(pages, page - 1, limit);
      assert skip >= |posts|;
    }
  }

  /** Twelve posts with the default limit: three pages, the first holds the five newest, the third the last two. */
  lemma TwelvePostsMakeThreePages(b: Bucket, posts: seq<PostView>)
    requires |posts| == 12
    ensures GetAllPaged(b, None, None, posts) == Ok(200, Page(NormaliseAll(b, posts[..5]), 3))
    ensures GetAllPaged(b, Some("3"), None, posts) == Ok(200, Page(NormaliseAll(b, posts[10..]), 3))
  {
    QueryDefaults(1);
    QueryDefaults(5);
    assert DecimalString(3) == "3";
    QueryOfDecimal(3, 1);
    assert Skip(1, 5) == 0 && Skip(3, 5) == 10;
    assert TotalPages(12, 5) == 3;
    assert Window(posts, 0, 5) == posts[..5];
    assert Window(posts, 10, 5) == posts[10..];
    assert PageAt(b, posts, 0, 5) == Page(NormaliseAll(b, posts[..5]), 3);
    assert PageAt(b, posts, 10, 5) == Page(NormaliseAll(b, posts[10..]), 3);
  }
}
