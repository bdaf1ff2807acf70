/** `ImageCache` (`Utilities/ImageLoader.swift`): decoded images and their
    raw bytes, each in its own dictionary keyed by URL. The decoded image
    type is a parameter; the actor's serialisation of calls is not
    modelled (every call runs to completion on its own). */
module ImageCache {
  import opened Wrappers

  /** One call that changes the cache. */
  datatype CacheOp<Image> = InsertOp(url: string, image: Image, data: seq<int>) | RemoveOp(url: string)

  /** The entries a cache holds after a run of inserts and removals. */
  function Replay<Image>(ops: seq<CacheOp<Image>>, m: map<string, (Image, seq<int>)>): map<string, (Image, seq<int>)> {
    if ops == [] then m
    else
      var m' := match ops[0]
        case InsertOp(u, i, d) => m[u := (i, d)]
        case RemoveOp(u) => m - {u};
      Replay(ops[1..], m')
  }

  /** The last operation on `url` decides its entry. */
  function LastOn<Image>(ops: seq<CacheOp<Image>>, url: string): (r: Option<CacheOp<Image>>)
    ensures r.Some? ==> r.value.url == url && r.value in ops
    ensures r.None? ==> forall k :: 0 <= k < |ops| ==> ops[k].url != url
  {
    if ops == [] then None
    else if ops[|ops| - 1].url == url then Some(ops[|ops| - 1])
    else
      var r := LastOn(ops[..|ops| - 1], url);
      assert forall k :: 0 <= k < |ops| - 1 ==> ops[k] == ops[..|ops| - 1][k];
      r
  }

  lemma {:induction false} ReplayAppend<Image>(ops: seq<CacheOp<Image>>, op: CacheOp<Image>, m: map<string, (Image, seq<int>)>)
    ensures Replay(ops + [op], m) == match op
      case InsertOp(u, i, d) => Replay(ops, m)[u := (i, d)]
      case RemoveOp(u) => Replay(ops, m) - {u}
  {
    if ops != [] {
      assert (ops + [op])[1..] == ops[1..] + [op];
      var m' := match ops[0]
        case InsertOp(u, i, d) => m[u := (i, d)]
        case RemoveOp(u) => m - {u};
      ReplayAppend(ops[1..], op, m');
    }
  }

  /** A URL is cached exactly when its last operation was an insert, and
      then with that insert's image and bytes. */
  lemma {:induction false} ReplayDecides<Image>(ops: seq<CacheOp<Image>>, url: string)
    ensures var m := Replay(ops, map[]);
      match LastOn(ops, url)
      case None => url !in m
      case Some(op) => (op.InsertOp? ==> url in m && m[url] == (op.image, op.data)) && (op.RemoveOp? ==> url !in m)
    decreases |ops|
  {
    if ops != [] {
      var init, last := ops[..|ops| - 1], ops[|ops| - 1];
      assert ops == init + [last];
      ReplayAppend(init, last, map[]);
      ReplayDecides(init, url);
    }
  }

  class ImageCache<Image> {
    var cache: map<string, Image>
    var dataCache: map<string, seq<int>>
    /** The inserts and removals since the cache was created or cleared. */
    ghost var history: seq<CacheOp<Image>>

    /** The two dictionaries hold the same URLs, and together they hold
        exactly what replaying the history gives. */
    ghost predicate Valid()
      reads this
    {
      var m := Replay(history, map[]);
      && cache.Keys == dataCache.Keys
      && m.Keys == cache.Keys
      && forall u :: u in m ==> m[u] == (cache[u], dataCache[u])
    }

    constructor()
      ensures Valid() && cache == map[] && dataCache == map[] && history == []
    {
      cache := map[];
      dataCache := map[];
      history := [];
    }

    /** `image(for:)`. */
    function ImageFor(url: string): (r: Option<Image>)
      reads this
      ensures r.Some? <==> url in cache
      ensures r.Some? ==> r.value == cache[url]
    {
      if url in cache then Some(cache[url]) else None
    }

    /** `data(for:)`. */
    function DataFor(url: string): (r: Option<seq<int>>)
      reads this
      ensures r.Some? <==> url in dataCache
      ensures r.Some? ==> r.value == dataCache[url]
    {
      if url in dataCache then Some(dataCache[url]) else None
    }

    /** `insert(_:data:for:)`: both entries for `url` are set, every other
        URL is untouched. */
    method Insert(image: Image, data: seq<int>, url: string)
      requires Valid()
      modifies this
      ensures Valid()
      ensures ImageFor(url) == Some(image) && DataFor(url) == Some(data)
      ensures forall u :: u != url ==> ImageFor(u) == old(ImageFor(u)) && DataFor(u) == old(DataFor(u))
      ensures cache == old(cache)[url := image] && dataCache == old(dataCache)[url := data]
      ensures history == old(history) + [InsertOp(url, image, data)]
    {
      ReplayAppend(history, InsertOp(url, image, data), map[]);
      cache := cache[url := image];
      dataCache := dataCache[url := data];
      history := history + [InsertOp(url, image, data)];
    }

    /** `removeImage(for:)`: `url` leaves both dictionaries, nothing else. */
    method RemoveImage(url: string)
      requires Valid()
      modifies this
      ensures Valid()
      ensures ImageFor(url).None? && DataFor(url).None?
      ensures cache == old(cache) - {url} && dataCache == old(dataCache) - {url}
      ensures history == old(history) + [RemoveOp(url)]
    {
      ReplayAppend(history, RemoveOp(url), map[]);
      cache := cache - {url};
      dataCache := dataCache - {url};
      history := history + [RemoveOp(url)];
    }

    /** `clearCache`. */
    method ClearCache()
      requires Valid()
      modifies this
      ensures Valid() && cache == map[] && dataCache == map[] && history == []
    {
      cache := map[];
      dataCache := map[];
      history := [];
    }
  }

  /** What a valid cache holds for a URL is decided by the last insert or
      removal of that URL since it was created or cleared. */
  lemma CacheFollowsLastOp<Image>(c: ImageCache<Image>, url: string)
    requires c.Valid()
    ensures match LastOn(c.history, url)
      case None => c.ImageFor(url).None? && c.DataFor(url).None?
      case Some(op) =>
        && (op.InsertOp? ==> c.ImageFor(url) == Some(op.image) && c.DataFor(url) == Some(op.data))
        && (op.RemoveOp? ==> c.ImageFor(url).None? && c.DataFor(url).None?)
  {
    ReplayDecides(c.history, url);
  }
}
