/** The service worker's Cache Storage policy (service-worker.js): network
    first, caching only status 200, falling back to the cache when the
    network fails, and deleting every other cache on activate. Cache
    Storage is the ordered list of named caches, each a map from request
    URL to response; caches.match searches them in creation order. */
module SwCache {
  import opened Js
  import opened ServiceWorker

  const CacheName := "job-email-generator-v2"

  datatype Response = Response(status: int, body: string)

  datatype NamedCache = NamedCache(name: string, entries: map<string, Response>)

  /** What fetch(event.request) settles with. */
  datatype NetworkResult = Fetched(response: Response) | FetchFailed

  function Names(cs: seq<NamedCache>): (ns: seq<string>)
    ensures |ns| == |cs| && forall i :: 0 <= i < |cs| ==> ns[i] == cs[i].name
  {
    if cs == [] then [] else [cs[0].name] + Names(cs[1..])
  }

  /** No two caches share a name. */
  ghost predicate UniqueNames(cs: seq<NamedCache>) {
    forall i, j :: 0 <= i < j < |cs| ==> cs[i].name != cs[j].name
  }

  /** Cache `i` holds the URL and no earlier cache does. */
  predicate FirstHolder(cs: seq<NamedCache>, url: string, i: int) {
    0 <= i < |cs| && url in cs[i].entries && forall k :: 0 <= k < i ==> url !in cs[k].entries
  }

  /** caches.match: the entry of the first cache that holds the URL. */
  function MatchIn(cs: seq<NamedCache>, url: string): (r: Option<Response>)
    ensures r.None? <==> forall i :: 0 <= i < |cs| ==> url !in cs[i].entries
    ensures r.Some? ==> exists i :: FirstHolder(cs, url, i) && cs[i].entries[url] == r.value
  {
    if cs == [] then None
    else if url in cs[0].entries then Some(cs[0].entries[url])
    else MatchIn(cs[1..], url)
  }

  /** caches.open(name) then cache.put(url, response): the named cache is
      created at the end if it does not exist yet. */
  function PutIn(cs: seq<NamedCache>, name: string, url: string, resp: Response): seq<NamedCache> {
    if cs == [] then [NamedCache(name, map[url := resp])]
    else if cs[0].name == name then [cs[0].(entries := cs[0].entries[url := resp])] + cs[1..]
    else [cs[0]] + PutIn(cs[1..], name, url, resp)
  }

  /** The caches whose names are not in `drop`, in their order. */
  function Without(cs: seq<NamedCache>, drop: set<string>): (r: seq<NamedCache>)
    ensures |r| <= |cs|
    ensures forall c :: c in r ==> c in cs && c.name !in drop
  {
    if cs == [] then []
    else (if cs[0].name in drop then [] else [cs[0]]) + Without(cs[1..], drop)
  }

  /** Without drops only what it is asked to: every cache whose name is not
      dropped is kept. */
  lemma {:induction false} WithoutKeepsOthers(cs: seq<NamedCache>, drop: set<string>, c: NamedCache)
    requires c in cs && c.name !in drop
    ensures c in Without(cs, drop)
  {
    if cs[0] != c {
      WithoutKeepsOthers(cs[1..], drop, c);
    }
  }

  /** The caches called `name`. */
  function Named(cs: seq<NamedCache>, name: string): seq<NamedCache> {
    if cs == [] then []
    else (if cs[0].name == name then [cs[0]] else []) + Named(cs[1..], name)
  }

  /** Writing to one cache leaves every other cache as it was. */
  lemma {:induction false} PutInKeepsOthers(cs: seq<NamedCache>, name: string, url: string, resp: Response, c: NamedCache)
    requires c in cs && c.name != name
    ensures c in PutIn(cs, name, url, resp)
  {
    if cs[0] != c {
      PutInKeepsOthers(cs[1..], name, url, resp, c);
    }
  }

  /** After activate only the current cache is left, so what is written to
      it is what a later fallback finds. */
  lemma {:induction false} PutThenMatch(cs: seq<NamedCache>, url: string, resp: Response)
    requires forall i :: 0 <= i < |cs| ==> cs[i].name == CacheName
    ensures MatchIn(PutIn(cs, CacheName, url, resp), url) == Some(resp)
  {
  }

  /** Dropping no name keeps every cache. */
  lemma {:induction false} WithoutNothing(cs: seq<NamedCache>)
    ensures Without(cs, {}) == cs
  {
    if cs != [] {
      WithoutNothing(cs[1..]);
    }
  }

  /** Dropping names one at a time drops their union. */
  lemma {:induction false} WithoutTwice(cs: seq<NamedCache>, drop: set<string>, name: string)
    ensures Without(Without(cs, drop), {name}) == Without(cs, drop + {name})
  {
    if cs != [] {
      WithoutTwice(cs[1..], drop, name);
      var rest := Without(cs[1..], drop);
      if cs[0].name in drop {
        assert Without(cs, drop) == rest;
      } else {
        assert Without(cs, drop) == [cs[0]] + rest;
        assert ([cs[0]] + rest)[1..] == rest;
      }
    }
  }

  /** Dropping every name but the current one keeps exactly the caches called
      by the current name. */
  lemma {:induction false} WithoutStaleIsNamed(cs: seq<NamedCache>, drop: set<string>)
    requires CacheName !in drop
    requires forall i :: 0 <= i < |cs| && cs[i].name != CacheName ==> cs[i].name in drop
    ensures Without(cs, drop) == Named(cs, CacheName)
  {
    if cs != [] {
      WithoutStaleIsNamed(cs[1..], drop);
    }
  }

  /** Without keeps order and so keeps names distinct. */
  lemma {:induction false} WithoutUnique(cs: seq<NamedCache>, drop: set<string>)
    requires UniqueNames(cs)
    ensures UniqueNames(Without(cs, drop))
  {
    if cs != [] {
      var rest := Without(cs[1..], drop);
      WithoutUnique(cs[1..], drop);
      if cs[0].name !in drop {
        KeptNamesFrom(cs[1..], drop, cs[0].name);
        var r := [cs[0]] + rest;
        forall i, j | 0 <= i < j < |r| ensures r[i].name != r[j].name {
          assert r[j] == rest[j - 1];
          if i > 0 {
            assert r[i] == rest[i - 1];
          }
        }
      }
    }
  }

  /** A name no cache carries is carried by no kept cache. */
  lemma KeptNamesFrom(cs: seq<NamedCache>, drop: set<string>, name: string)
    requires forall k :: 0 <= k < |cs| ==> cs[k].name != name
    ensures forall k :: 0 <= k < |Without(cs, drop)| ==> Without(cs, drop)[k].name != name
  {
    var r := Without(cs, drop);
    forall k | 0 <= k < |r| ensures r[k].name != name {
      assert r[k] in cs;
    }
  }

  /** Activate keeps only the current cache, untouched, and removes every
      other one. */
  lemma {:induction false} NamedKeepsCurrentOnly(cs: seq<NamedCache>, i: nat)
    requires UniqueNames(cs)
    ensures forall c :: c in Named(cs, CacheName) ==> c in cs && c.name == CacheName
    ensures i < |cs| && cs[i].name == CacheName ==> Named(cs, CacheName) == [cs[i]]
    ensures (forall k :: 0 <= k < |cs| ==> cs[k].name != CacheName) ==> Named(cs, CacheName) == []
  {
    if cs != [] {
      NamedKeepsCurrentOnly(cs[1..], if i > 0 then i - 1 else 0);
      if i < |cs| && cs[i].name == CacheName && i == 0 {
        NamedKeepsCurrentOnly(cs[1..], 0);
        assert forall k :: 0 <= k < |cs[1..]| ==> cs[1..][k].name != CacheName by {
          forall k | 0 <= k < |cs[1..]| ensures cs[1..][k].name != CacheName {
            assert cs[1..][k] == cs[k + 1];
          }
        }
      }
    }
  }

  class CacheStorage {
    var caches: seq<NamedCache>

    ghost predicate Valid()
      reads this
    {
      UniqueNames(caches)
    }

    constructor (caches: seq<NamedCache>)
      requires UniqueNames(caches)
      ensures Valid() && this.caches == caches
    {
      this.caches := caches;
    }

    /** caches.match over every cache, oldest first. */
    method Match(url: string) returns (r: Option<Response>)
      ensures r == MatchIn(caches, url)
    {
      var i := 0;
      while i < |caches|
        invariant 0 <= i <= |caches|
        invariant MatchIn(caches, url) == MatchIn(caches[i..], url)
      {
        if url in caches[i].entries {
          return Some(caches[i].entries[url]);
        }
        assert caches[i..][1..] == caches[i + 1..];
        i := i + 1;
      }
      r := None;
    }

    /** caches.open(name) followed by cache.put(url, response). */
    method Put(name: string, url: string, resp: Response)
      requires Valid()
      modifies this
      ensures Valid() && caches == PutIn(old(caches), name, url, resp)
    {
      var i := 0;
      while i < |caches| && caches[i].name != name
        invariant 0 <= i <= |caches|
        invariant forall j :: 0 <= j < i ==> caches[j].name != name
      {
        i := i + 1;
      }
      PutInAt(caches, name, url, resp, i);
      if i < |caches| {
        caches := caches[i := caches[i].(entries := caches[i].entries[url := resp])];
      } else {
        caches := caches + [NamedCache(name, map[url := resp])];
      }
    }

    /** caches.delete(name). */
    method Delete(name: string) returns (found: bool)
      requires Valid()
      modifies this
      ensures Valid() && caches == Without(old(caches), {name})
      ensures found == (name in Names(old(caches)))
      ensures forall c :: c in old(caches) && c.name != name ==> c in caches
    {
      WithoutUnique(caches, {name});
      forall c | c in caches && c.name != name ensures c in Without(caches, {name}) {
        WithoutKeepsOthers(caches, {name}, c);
      }
      found := name in Names(caches);
      caches := Without(caches, {name});
    }

    /** The network-first branch: the network's response is returned and, when
        its status is 200, written to the current cache; when the network
        fails, the cached entry for the request is the answer. */
    method HandleFetch(req: Request, net: NetworkResult) returns (r: Option<Response>)
      requires Valid()
      modifies this
      ensures Valid()
      ensures net.Fetched? ==> r == Some(net.response)
      ensures caches == if net.Fetched? && net.response.status == 200
        then PutIn(old(caches), CacheName, req.url, net.response) else old(caches)
      ensures net.FetchFailed? ==> r == MatchIn(old(caches), req.url)
    {
      match net
      case Fetched(response) =>
        if response.status == 200 {
          Put(CacheName, req.url, response);
        }
        r := Some(response);
      case FetchFailed =>
        r := Match(req.url);
    }

    /** The fetch listener: a share submission is answered by the share
        branch and never reaches the cache. */
    method OnFetch(req: Request, env: ShareEnv, net: NetworkResult) returns (share: Option<ShareTargetOutcome>, r: Option<Response>)
      requires Valid()
      modifies this
      ensures Valid()
      ensures share.Some? <==> RouteOf(req) == ShareTargetRoute
      ensures share.Some? ==> share.value == HandleShareTarget(env) && caches == old(caches)
      ensures share.None? ==> caches == (if net.Fetched? && net.response.status == 200
        then PutIn(old(caches), CacheName, req.url, net.response) else old(caches))
      ensures share.None? && net.Fetched? ==> r == Some(net.response)
      ensures share.None? && net.FetchFailed? ==> r == MatchIn(old(caches), req.url)
    {
      if req.verb == "POST" && req.pathname == ShareTargetPath {
        share := Some(HandleShareTarget(env));
        r := None;
      } else {
        share := None;
        r := HandleFetch(req, net);
      }
    }

    /** The activate listener: every cache not named CACHE_NAME is deleted. */
    method Activate()
      requires Valid()
      modifies this
      ensures Valid() && caches == Named(old(caches), CacheName)
    {
      var names := Names(caches);
      ghost var start := caches;
      ghost var dropped: set<string> := {};
      WithoutNothing(caches);
      var i := 0;
      while i < |names|
        invariant 0 <= i <= |names|
        invariant Valid()
        invariant CacheName !in dropped
        invariant forall k :: 0 <= k < i && names[k] != CacheName ==> names[k] in dropped
        invariant caches == Without(start, dropped)
      {
        if names[i] != CacheName {
          var _ := Delete(names[i]);
          WithoutTwice(start, dropped, names[i]);
          dropped := dropped + {names[i]};
        }
        i := i + 1;
      }
      assert forall k :: 0 <= k < |start| && start[k].name != CacheName ==> start[k].name in dropped by {
        forall k | 0 <= k < |start| && start[k].name != CacheName ensures start[k].name in dropped {
          assert names[k] == start[k].name;
        }
      }
      WithoutStaleIsNamed(start, dropped);
    }
  }

  /** What Put's search finds: the first cache called `name`, or the end. */
  lemma {:induction false} PutInAt(cs: seq<NamedCache>, name: string, url: string, resp: Response, i: nat)
    requires i <= |cs| && (i < |cs| ==> cs[i].name == name)
    requires forall j :: 0 <= j < i ==> cs[j].name != name
    ensures PutIn(cs, name, url, resp) ==
      if i < |cs| then cs[i := cs[i].(entries := cs[i].entries[url := resp])]
      else cs + [NamedCache(name, map[url := resp])]
  {
    if cs != [] && i > 0 {
      PutInAt(cs[1..], name, url, resp, i - 1);
    }
  }
}
