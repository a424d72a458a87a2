/**
 * The badge image cache behind `loadBadge` (main.go:265-289): badge images
 * are fetched once per cache key and kept for the life of the process. The
 * HTTP GET and the PNG decoding are one abstract `fetch` from URL to image.
 */
module Badges {
  import opened Wrappers

  /** Where badge images are served from. */
  const BaseBadgeUrl: string := "https://media.retroachievements.org/Badge/"

  /** A decoded badge bitmap; its contents are opaque to the application. */
  datatype Image = Image(width: nat, height: nat, pixels: seq<int>)

  /** Why a badge could not be loaded: the GET failed, or its body was not a PNG. */
  datatype FetchError = RequestFailed(url: string) | DecodeFailed(url: string)

  /** The cache key, and file name, of a badge: earned and locked art are separate files. */
  function BadgeKey(name: string, earned: bool): (key: string)
    ensures |key| > |name| && key[..|name|] == name
    ensures earned ==> key[|name|..] == ".png"
    ensures !earned ==> key[|name|..] == "_lock.png"
  {
    name + (if earned then ".png" else "_lock.png")
  }

  /** The earned and the locked art of one badge never share a key. */
  lemma EarnedAndLockedKeysDiffer(name: string)
    ensures BadgeKey(name, true) != BadgeKey(name, false)
  {
    assert |BadgeKey(name, true)| != |BadgeKey(name, false)|;
  }

  /** Within one variant, the key determines the badge name. */
  lemma BadgeKeyInjective(a: string, b: string, earned: bool)
    requires BadgeKey(a, earned) == BadgeKey(b, earned)
    ensures a == b
  {
    var key := BadgeKey(a, earned);
    assert |a| == |b|;
    assert a == key[..|a|] == b;
  }

  /**
   * Across variants keys can meet: the earned art of a badge named "1_lock"
   * and the locked art of badge "1" have the same key.
   */
  lemma KeysOfDifferentBadgesMayCollide()
    ensures BadgeKey("1_lock", true) == BadgeKey("1", false)
  {
    assert "1_lock" + ".png" == "1" + "_lock.png";
  }

  /** The URL a key is fetched from: the base URL, from which the key is read back. */
  function BadgeUrl(key: string): (url: string)
    ensures |url| == |BaseBadgeUrl| + |key|
    ensures url[..|BaseBadgeUrl|] == BaseBadgeUrl && url[|BaseBadgeUrl|..] == key
  {
    BaseBadgeUrl + key
  }

  /** The process-wide map from badge key to image (the global `ImageCache`). */
  class ImageCache {
    var images: map<string, Image>
    /** The URLs fetched so far, in order: one entry per network request. */
    ghost var requests: seq<string>

    constructor ()
      ensures images == map[] && requests == []
    {
      images := map[];
      requests := [];
    }

    /**
     * The image of badge `name` in its earned or locked art. A cached key is
     * answered from the cache without a request; otherwise the badge is
     * fetched, and kept only if the fetch and the decoding both succeed.
     */
    method LoadBadge(name: string, earned: bool, fetch: string -> Result<Image, FetchError>)
      returns (r: Result<Image, FetchError>)
      modifies this
      ensures var key := BadgeKey(name, earned);
        if key in old(images) then
          r == Success(old(images)[key]) && images == old(images) && requests == old(requests)
        else
          && requests == old(requests) + [BadgeUrl(key)]
          && r == fetch(BadgeUrl(key))
          && images == (if r.Success? then old(images)[key := r.value] else old(images))
    {
      var fullName: string;
      if earned {
        fullName := name + ".png";
      } else {
        fullName := name + "_lock.png";
      }
      if fullName in images {
        r := Success(images[fullName]);
      } else {
        requests := requests + [BaseBadgeUrl + fullName];
        r := fetch(BaseBadgeUrl + fullName);
        if r.Success? {
          images := images[fullName := r.value];
        }
      }
    }
  }

  /**
   * Two loads of the same badge: after a successful first load they agree and
   * make at most one request between them, exactly one for an uncached badge;
   * a cached badge makes none, and two failures make two.
   */
  method LoadBadgeTwice(cache: ImageCache, name: string, earned: bool, fetch: string -> Result<Image, FetchError>)
    returns (first: Result<Image, FetchError>, second: Result<Image, FetchError>)
    modifies cache
    ensures first.Success? ==> second == first
    ensures first.Success? ==> |cache.requests| <= |old(cache.requests)| + 1
    ensures BadgeKey(name, earned) !in old(cache.images) && first.Success? ==>
              |cache.requests| == |old(cache.requests)| + 1
    ensures BadgeKey(name, earned) in old(cache.images) ==> cache.requests == old(cache.requests)
    ensures first.Failure? ==> |cache.requests| == |old(cache.requests)| + 2
  {
    first := cache.LoadBadge(name, earned, fetch);
    second := cache.LoadBadge(name, earned, fetch);
  }
}
