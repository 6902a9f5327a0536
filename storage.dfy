/** Where the handlers put images in the object store, and the URLs they hand out for them. */
module Storage {
  import opened Text
  import opened Numbers

  /** The bucket name and region the server reads from its environment. */
  datatype Bucket = Bucket(name: string, region: string)

  /** The public base URL of the bucket; every stored object lives below it. */
  function BaseUrl(b: Bucket): (url: string)
    ensures StartsWith(url, "https://")
  {
    "https://" + b.name + ".s3." + b.region + ".amazonaws.com/"
  }

  /** The public URL of the object stored under `key`. */
  function ObjectUrl(b: Bucket, key: string): (url: string)
    ensures StartsWith(url, BaseUrl(b)) && url[|BaseUrl(b)|..] == key
  {
    BaseUrl(b) + key
  }

  /** The key a post's image is stored under: `posts/<postId>.png`. */
  function PostImageKey(postId: int): string
  {
    "posts/" + IntString(postId) + ".png"
  }

  /** The key a user's profile picture is stored under: `profile/<userId>.png`. */
  function ProfileImageKey(userId: int): string
  {
    "profile/" + IntString(userId) + ".png"
  }

  /** The placeholder cover every failed cover lookup falls back to. */
  const DefaultCoverKey := "posts/DefaultBook.png"

  /** `getRandomImage`: always the placeholder's URL, never an empty string. */
  function DefaultCover(b: Bucket): (url: string)
    ensures StartsWith(url, BaseUrl(b)) && url[|BaseUrl(b)|..] == DefaultCoverKey
    ensures StartsWith(url, "https://")
  {
    var url := ObjectUrl(b, DefaultCoverKey);
    assert url[..8] == BaseUrl(b)[..8];
    url
  }

  /** Two different posts never share an image key, so one upload never overwrites another's image. */
  lemma PostImageKeysDistinct(a: int, b: int)
    requires a != b
    ensures PostImageKey(a) != PostImageKey(b)
  {
    var ka, kb := PostImageKey(a), PostImageKey(b);
    assert ka[6..|ka| - 4] == IntString(a);
    assert kb[6..|kb| - 4] == IntString(b);
    NumberOfIntString(a);
    NumberOfIntString(b);
  }

  /** No post's image key is the placeholder's key, so a post upload never replaces the placeholder. */
  lemma PostImageKeyIsNotDefault(postId: int)
    ensures PostImageKey(postId) != DefaultCoverKey
  {
    var k := PostImageKey(postId);
    var s := IntString(postId);
    if postId >= 0 {
      assert IsDigit(s[0], 10);
    } else {
      assert s[0] == '-';
    }
    assert k[6] == s[0];
    assert DefaultCoverKey[6] == 'D';
  }

  /** A post's own image URL is never the placeholder's URL. */
  lemma OwnImageIsNotDefault(b: Bucket, postId: int)
    ensures ObjectUrl(b, PostImageKey(postId)) != DefaultCover(b)
  {
    PostImageKeyIsNotDefault(postId);
    assert ObjectUrl(b, PostImageKey(postId))[|BaseUrl(b)|..] != DefaultCover(b)[|BaseUrl(b)|..];
  }
}
