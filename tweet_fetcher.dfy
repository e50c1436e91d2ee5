/**
 * Tweet prefetching for a post: `fetchSingleTweet`'s cache policy and
 * `fetchTweetsFromContent`, which builds the id → tweet index a page is
 * rendered with. The tweet cache is abstract state; the two remote
 * lookups (`fetchTweet`, and `getTweet` as the fallback) are parameters.
 */
module TweetFetcher {
  import opened Wrappers
  import opened JsValue
  import opened Content
  import TweetIds

  /** A tweet as the syndication API returns it (an object, so always truthy). */
  datatype Tweet = Tweet(data: Value)

  /** `fetchTweet(id)`: `data`, a tombstone, not found, none of the three, or a thrown error. */
  datatype FetchReply = Data(tweet: Tweet) | Tombstone | NotFound | NoData | FetchThrew

  /** `getTweet(id)`: a tweet, `undefined`, or a thrown error. */
  datatype LookupReply = Found(tweet: Tweet) | Absent | LookupThrew

  datatype Remote = Remote(fetchTweet: string -> FetchReply, getTweet: string -> LookupReply)

  /** The result for `id` and the cache entry for `id` say the same thing. */
  predicate Agrees(id: string, t: Option<Tweet>, cache: map<string, Tweet>)
  {
    (t.Some? <==> id in cache) && (t.Some? ==> cache[id] == t.value)
  }

  /** `getCachedTweet(id)` */
  function Cached(cache: map<string, Tweet>, id: string): (t: Option<Tweet>)
    ensures Agrees(id, t, cache)
  {
    if id in cache then Some(cache[id]) else None
  }

  /** What the network gives for an uncached id: the tweet to return and cache, or nothing. */
  function RemoteResult(api: Remote, id: string): Option<Tweet>
  {
    match api.fetchTweet(id)
    case Data(t) => Some(t)
    case Tombstone => None
    case NotFound => None
    case NoData =>
      (match api.getTweet(id)
       case Found(t) => Some(t)
       case Absent => None
       case LookupThrew => None)
    case FetchThrew => None
  }

  /** The cache with `id` bound to `t`, or `id` absent. */
  function Record(cache: map<string, Tweet>, id: string, t: Option<Tweet>): (c: map<string, Tweet>)
    ensures Agrees(id, t, c)
    ensures forall k :: k != id ==> (k in c <==> k in cache) && (k in c ==> c[k] == cache[k])
  {
    if t.Some? then cache[id := t.value] else cache - {id}
  }

  /** What `fetchSingleTweet(id)` gives against `cache`: the cached tweet, or the network's result. */
  function FetchResult(cache: map<string, Tweet>, api: Remote, id: string): Option<Tweet>
  {
    if id in cache then Some(cache[id]) else RemoteResult(api, id)
  }

  /** The ids of `ids` that are not in `cache`, in order: those that cost a network request. */
  function Uncached(cache: map<string, Tweet>, ids: seq<string>): (r: seq<string>)
    ensures forall id :: id in r <==> id in ids && id !in cache
  {
    if ids == [] then []
    else Uncached(cache, ids[..|ids| - 1]) + (if ids[|ids| - 1] in cache then [] else [ids[|ids| - 1]])
  }

  /** A tweet fetched from the network is returned exactly when one of the two lookups produced one. */
  lemma RemoteResultCases(api: Remote, id: string)
    ensures RemoteResult(api, id).Some? <==>
      api.fetchTweet(id).Data? || (api.fetchTweet(id).NoData? && api.getTweet(id).Found?)
    ensures api.fetchTweet(id).Data? ==> RemoteResult(api, id) == Some(api.fetchTweet(id).tweet)
  {
  }

  class TweetCache {
    /** The cached tweets by id. */
    var cache: map<string, Tweet>
    /** The ids looked up over the network, in order. */
    var requests: seq<string>

    constructor(initial: map<string, Tweet>)
      ensures cache == initial && requests == []
    {
      cache := initial;
      requests := [];
    }

    /**
     * `fetchSingleTweet(id)`. A cached tweet is returned with no request.
     * Otherwise: fetched data is cached and returned; a tombstone or
     * not-found removes the entry and gives `null`; with neither, the
     * fallback's tweet is cached and returned, or `null`. A thrown error
     * gives the cached tweet, which is absent at that point.
     */
    method FetchSingleTweet(id: string, api: Remote) returns (t: Option<Tweet>)
      modifies this
      ensures id in old(cache) ==> t == Some(old(cache)[id]) && cache == old(cache) && requests == old(requests)
      ensures id !in old(cache) ==> t == RemoteResult(api, id) && requests == old(requests) + [id]
      ensures cache == Record(old(cache), id, t)
      ensures t == FetchResult(old(cache), api, id)
    {
      var cached := Cached(cache, id);
      if cached.Some? {
        assert cache[id := cache[id]] == cache;
        return cached;
      }
      assert cache - {id} == cache;
      requests := requests + [id];
      var reply := api.fetchTweet(id);
      match reply {
        case Data(data) =>
          cache := cache[id := data];
          return Some(data);
        case Tombstone =>
          cache := cache - {id};
          return None;
        case NotFound =>
          cache := cache - {id};
          return None;
        case NoData =>
          var fallback := api.getTweet(id);
          match fallback {
            case Found(tweet) =>
              cache := cache[id := tweet];
              return Some(tweet);
            case Absent =>
              return None;
            case LookupThrew =>
              t := Cached(cache, id);
          }
        case FetchThrew =>
          t := Cached(cache, id);
      }
    }

    /**
     * The `Promise.all` step: each id fetched in turn, paired with its
     * result. The ids are distinct, so each fetch sees the cache entry of
     * its id as it was before the first fetch.
     */
    method FetchAll(ids: seq<string>, api: Remote) returns (tweets: seq<(string, Option<Tweet>)>)
      requires TweetIds.NoDuplicates(ids)
      modifies this
      ensures |tweets| == |ids|
      ensures forall j :: 0 <= j < |ids| ==> tweets[j] == (ids[j], FetchResult(old(cache), api, ids[j]))
      ensures forall j :: 0 <= j < |ids| ==> Agrees(ids[j], FetchResult(old(cache), api, ids[j]), cache)
      ensures forall k :: k !in ids ==> (k in cache <==> k in old(cache)) && (k in cache ==> cache[k] == old(cache)[k])
      ensures requests == old(requests) + Uncached(old(cache), ids)
    {
      ghost var c0 := cache;
      ghost var r0 := requests;
      tweets := [];
      for i := 0 to |ids|
        invariant |tweets| == i
        invariant forall j :: 0 <= j < i ==> tweets[j] == (ids[j], FetchResult(c0, api, ids[j]))
        invariant FetchedPrefix(c0, api, ids, i, cache)
        invariant requests == r0 + Uncached(c0, ids[..i])
      {
        NextIdUntouched(c0, api, ids, i, cache);
        ghost var before := cache;
        ghost var sent := requests;
        var t := FetchSingleTweet(ids[i], api);
        FetchStep(c0, api, ids, i, before, t);
        RequestsStep(r0, c0, ids, i, sent, requests);
        tweets := Snoc(tweets, ids[i], t);
      }
      FetchedAll(c0, api, ids, cache);
      assert ids[..|ids|] == ids;
    }

    /**
     * `fetchTweetsFromContent(content)`: the ids of the post, each fetched
     * once, and the index of those whose fetch gave a tweet.
     */
    method FetchTweetsFromContent(content: Node, api: Remote) returns (index: map<string, Tweet>)
      modifies this
      ensures forall id :: id in index <==> id in TweetIds.Preorder(content) && FetchResult(old(cache), api, id).Some?
      ensures forall id :: id in index ==> index[id] == FetchResult(old(cache), api, id).value
      ensures requests == old(requests) + Uncached(old(cache), TweetIds.Dedup(TweetIds.Preorder(content)))
      ensures forall k :: k in TweetIds.Preorder(content) ==> Agrees(k, FetchResult(old(cache), api, k), cache)
      ensures forall k :: k !in TweetIds.Preorder(content) ==>
        (k in cache <==> k in old(cache)) && (k in cache ==> cache[k] == old(cache)[k])
      ensures TweetIds.Preorder(content) == [] ==> index == map[] && cache == old(cache) && requests == old(requests)
    {
      var ids := TweetIds.FindTweetIds(content);
      TweetIds.DedupSpec(TweetIds.Preorder(content));
      if |ids| == 0 {
        return map[];
      }
      ghost var c0 := cache;
      var tweets := FetchAll(ids, api);
      forall k | k in ids
        ensures Agrees(k, FetchResult(c0, api, k), cache)
      {
        var j :| 0 <= j < |ids| && ids[j] == k;
      }
      index := BuildIndex(ids, tweets, cache);
    }
  }

  /**
   * After fetching `ids[..i]` starting from `c0`: each fetched id's entry
   * agrees with its result, and every other entry is as in `c0`.
   */
  ghost predicate FetchedPrefix(c0: map<string, Tweet>, api: Remote, ids: seq<string>, i: nat, cache: map<string, Tweet>)
    requires i <= |ids|
  {
    (forall j :: 0 <= j < i ==> Agrees(ids[j], FetchResult(c0, api, ids[j]), cache)) &&
    (forall k :: k !in ids[..i] ==> (k in cache <==> k in c0) && (k in cache ==> cache[k] == c0[k]))
  }

  /** The next id has not been fetched yet, so the cache still gives it the result it had in `c0`. */
  lemma NextIdUntouched(c0: map<string, Tweet>, api: Remote, ids: seq<string>, i: nat, cache: map<string, Tweet>)
    requires TweetIds.NoDuplicates(ids) && i < |ids|
    requires FetchedPrefix(c0, api, ids, i, cache)
    ensures FetchResult(cache, api, ids[i]) == FetchResult(c0, api, ids[i])
    ensures ids[i] in cache <==> ids[i] in c0
  {
    assert ids[i] !in ids[..i] by {
      forall j | 0 <= j < i
        ensures ids[..i][j] != ids[i]
      {
        assert ids[..i][j] == ids[j];
      }
    }
  }

  /** Fetching the next id extends the fetched prefix by one. */
  lemma FetchStep(c0: map<string, Tweet>, api: Remote, ids: seq<string>, i: nat, cache: map<string, Tweet>, t: Option<Tweet>)
    requires TweetIds.NoDuplicates(ids) && i < |ids|
    requires FetchedPrefix(c0, api, ids, i, cache)
    requires t == FetchResult(c0, api, ids[i])
    ensures FetchedPrefix(c0, api, ids, i + 1, Record(cache, ids[i], t))
  {
    var c := Record(cache, ids[i], t);
    assert ids[..i + 1] == ids[..i] + [ids[i]];
    forall j | 0 <= j < i + 1
      ensures Agrees(ids[j], FetchResult(c0, api, ids[j]), c)
    {
      if j < i {
        assert ids[j] != ids[i];
      }
    }
  }

  /** Fetching the next id sends a request exactly when it was not cached in `c0`. */
  lemma RequestsStep(r0: seq<string>, c0: map<string, Tweet>, ids: seq<string>, i: nat, sent: seq<string>, requests: seq<string>)
    requires i < |ids|
    requires sent == r0 + Uncached(c0, ids[..i])
    requires ids[i] in c0 ==> requests == sent
    requires ids[i] !in c0 ==> requests == sent + [ids[i]]
    ensures requests == r0 + Uncached(c0, ids[..i + 1])
  {
    var prefix := ids[..i + 1];
    assert prefix[..|prefix| - 1] == ids[..i] && prefix[|prefix| - 1] == ids[i];
    if ids[i] !in c0 {
      assert r0 + Uncached(c0, ids[..i]) + [ids[i]] == r0 + (Uncached(c0, ids[..i]) + [ids[i]]);
    }
  }

  function Snoc(tweets: seq<(string, Option<Tweet>)>, id: string, t: Option<Tweet>): (r: seq<(string, Option<Tweet>)>)
    ensures |r| == |tweets| + 1 && r[|tweets|] == (id, t)
    ensures forall j :: 0 <= j < |tweets| ==> r[j] == tweets[j]
  {
    tweets + [(id, t)]
  }

  /** Once every id is fetched, the prefix is the whole list. */
  lemma FetchedAll(c0: map<string, Tweet>, api: Remote, ids: seq<string>, cache: map<string, Tweet>)
    requires FetchedPrefix(c0, api, ids, |ids|, cache)
    ensures forall j :: 0 <= j < |ids| ==> Agrees(ids[j], FetchResult(c0, api, ids[j]), cache)
    ensures forall k :: k !in ids ==> (k in cache <==> k in c0) && (k in cache ==> cache[k] == c0[k])
  {
    assert ids[..|ids|] == ids;
  }

  /** The `for` loop over the results: every id whose result is a tweet is entered with it. */
  method BuildIndex(ids: seq<string>, tweets: seq<(string, Option<Tweet>)>, cache: map<string, Tweet>)
    returns (index: map<string, Tweet>)
    requires |tweets| == |ids|
    requires forall j :: 0 <= j < |ids| ==> tweets[j].0 == ids[j] && Agrees(ids[j], tweets[j].1, cache)
    ensures index == (map id | id in ids && id in cache :: cache[id])
  {
    index := map[];
    for i := 0 to |tweets|
      invariant index == (map id | id in ids[..i] && id in cache :: cache[id])
    {
      assert ids[..i + 1] == ids[..i] + [ids[i]];
      if tweets[i].1.Some? {
        index := index[tweets[i].0 := tweets[i].1.value];
      }
    }
    assert ids[..|tweets|] == ids;
  }
}
