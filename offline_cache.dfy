/** The service worker of sw.js: a cache-first fetch handler over the
    browser's Cache Storage, filled at install time from a fixed list of
    URLs and pruned of other cache generations at activation. Cache Storage
    is a class holding the cache names in creation order and, per name, a
    map from request URL to response; the network's answer is an input. */
module OfflineCache {
  import opened Common

  /** The version tag of the current cache generation (sw.js:2). */
  const CACHE_NAME: string := "taskmaster-v2"

  /** The application shell cached at install time (sw.js:3-22): the pages
      and the manifest, then the icons, in the order the source lists them. */
  const URLS_TO_CACHE: seq<string> := SHELL_PAGES + SHELL_ICONS

  const SHELL_PAGES: seq<string> := ["/", "/index.html", "/styles.css", "/app.js", "/manifest.json"]

  const SHELL_ICONS: seq<string> := [
    "/icons/icon-72x72.png",
    "/icons/icon-96x96.png",
    "/icons/icon-128x128.png",
    "/icons/icon-144x144.png",
    "/icons/icon-152x152.png",
    "/icons/icon-192x192.png",
    "/icons/icon-384x384.png",
    "/icons/icon-512x512.png",
    "/icons/check-192x192.png",
    "/icons/list-192x192.png",
    "/icons/trash-192x192.png",
    "/icons/edit-192x192.png",
    "/icons/add-192x192.png"
  ]

  /** The page served to document requests when the network fails (sw.js:82). */
  const OFFLINE_PAGE: string := "/index.html"

  /** `Response.type`. */
  datatype ResponseType = Basic | Cors | Default | Error | Opaque | OpaqueRedirect

  datatype Response = Response(status: int, kind: ResponseType, body: string)

  /** What `fetch` settles to: rejected, or a response of any status. */
  datatype NetworkOutcome = Failed | Resp(response: Response)

  /** A request: its URL, the cache key, and its `destination`. */
  datatype Request = Request(url: string, destination: string)

  type Cache = map<string, Response>

  /** The test of sw.js:66 that a response may be cached: status 200 and
      same-origin (`basic`). */
  predicate Cacheable(r: Response) {
    r.status == 200 && r.kind == Basic
  }

  /** `Response.ok`, which `Cache.addAll` demands of every response. */
  predicate OkStatus(r: Response) {
    200 <= r.status <= 299
  }

  // ------------------------------------------------------------- lookup

  /** The position, in creation order, of the first cache that holds `url`. */
  function FirstHolding(order: seq<string>, caches: map<string, Cache>, url: string): (r: Option<nat>)
    ensures r.Some? ==> r.value < |order| && order[r.value] in caches && url in caches[order[r.value]]
    ensures r.Some? ==> forall j :: 0 <= j < r.value ==> !(order[j] in caches && url in caches[order[j]])
    ensures r.None? ==> forall j :: 0 <= j < |order| ==> !(order[j] in caches && url in caches[order[j]])
  {
    FirstIndex(order, (n: string) => n in caches && url in caches[n])
  }

  /** `caches.match(url)`: the response of the first cache, in creation
      order, that holds the URL (sw.js:54, 82). */
  function MatchIn(order: seq<string>, caches: map<string, Cache>, url: string): (r: Option<Response>)
    ensures r.None? <==> forall j :: 0 <= j < |order| ==> !(order[j] in caches && url in caches[order[j]])
    ensures r.Some? ==> exists j :: 0 <= j < |order| && order[j] in caches && url in caches[order[j]]
                                    && caches[order[j]][url] == r.value
  {
    match FirstHolding(order, caches, url)
    case None => None
    case Some(i) => Some(caches[order[i]][url])
  }

  /** A URL held by one cache only is matched to that cache's response. */
  lemma MatchOnlyHolder(order: seq<string>, caches: map<string, Cache>, url: string, name: string)
    requires name in order && name in caches && url in caches[name]
    requires forall n :: n in caches && n != name ==> url !in caches[n]
    ensures MatchIn(order, caches, url) == Some(caches[name][url])
  {
    var i := FirstHolding(order, caches, url);
    assert i.Some? by {
      var j :| 0 <= j < |order| && order[j] == name;
    }
  }

  /** A lookup that misses means no listed cache holds the URL. */
  lemma MatchMissHeldNowhere(order: seq<string>, caches: map<string, Cache>, url: string)
    requires forall n :: n in caches ==> n in order
    requires MatchIn(order, caches, url).None?
    ensures forall n :: n in caches ==> url !in caches[n]
  {
    forall n | n in caches ensures url !in caches[n] {
      var j :| 0 <= j < |order| && order[j] == n;
    }
  }

  /** After a miss, opening `CACHE_NAME` and putting the response under the
      URL makes that response the one the lookup finds. */
  lemma StoreAfterMiss(order: seq<string>, caches: map<string, Cache>, url: string, r: Response)
    requires WellFormed(order, caches)
    requires MatchIn(order, caches, url).None?
    ensures var order' := if CACHE_NAME in caches then order else order + [CACHE_NAME];
      var current := if CACHE_NAME in caches then caches[CACHE_NAME] else map[];
      && WellFormed(order', caches[CACHE_NAME := current[url := r]])
      && MatchIn(order', caches[CACHE_NAME := current[url := r]], url) == Some(r)
  {
    MatchMissHeldNowhere(order, caches, url);
    var order' := if CACHE_NAME in caches then order else order + [CACHE_NAME];
    var current := if CACHE_NAME in caches then caches[CACHE_NAME] else map[];
    assert CACHE_NAME in order';
    MatchOnlyHolder(order', caches[CACHE_NAME := current[url := r]], url, CACHE_NAME);
  }

  // ------------------------------------------------------------- fetch

  /** Which way the fetch handler goes (sw.js:54-84). */
  datatype Route =
    | CacheHit(cached: Response)        // answered from a cache, no network
    | PassThrough(response: Response)   // not cacheable: returned as it is
    | StoreAndReturn(response: Response)// put into CACHE_NAME and returned
    | OfflinePage(page: Option<Response>) // network failed on a document
    | NoResponse                        // network failed on anything else

  /** The response the handler resolves to on a route. */
  function Delivered(route: Route): Option<Response> {
    match route
    case CacheHit(r) => Some(r)
    case PassThrough(r) => Some(r)
    case StoreAndReturn(r) => Some(r)
    case OfflinePage(p) => p
    case NoResponse => None
  }

  /** The case split of the fetch handler, from the cache lookup `hit`, the
      network's answer `net`, the request's destination and the lookup of
      the offline page. */
  function RouteFetch(hit: Option<Response>, net: NetworkOutcome, destination: string,
                      offline: Option<Response>): (r: Route)
    ensures hit.Some? ==> Delivered(r) == hit && r.CacheHit?
    ensures hit.None? && net.Resp? ==> Delivered(r) == Some(net.response)
    ensures r.StoreAndReturn? <==> hit.None? && net.Resp? && Cacheable(net.response)
    ensures hit.None? && net.Failed? ==>
      Delivered(r) == (if destination == "document" then offline else None)
  {
    match hit
    case Some(cached) => CacheHit(cached)
    case None =>
      match net
      case Resp(response) =>
        if response.status != 200 || response.kind != Basic then PassThrough(response)
        else StoreAndReturn(response)
      case Failed =>
        if destination == "document" then OfflinePage(offline) else NoResponse
  }

  // ------------------------------------------------------------- install

  /** `addAll` succeeds only when every URL fetched to an ok response. */
  predicate AllFetchedOk(urls: seq<string>, fetchUrl: string -> NetworkOutcome) {
    forall i :: 0 <= i < |urls| ==> fetchUrl(urls[i]).Resp? && OkStatus(fetchUrl(urls[i]).response)
  }

  /** The entries `addAll` writes when it succeeds: each URL with its response. */
  function FetchedEntries(urls: seq<string>, fetchUrl: string -> NetworkOutcome): (r: Cache)
    requires AllFetchedOk(urls, fetchUrl)
    ensures r.Keys == set u | u in urls
    ensures forall u :: u in r ==> r[u] == fetchUrl(u).response
  {
    if urls == [] then map[]
    else FetchedEntries(urls[..|urls| - 1], fetchUrl)[urls[|urls| - 1] := fetchUrl(urls[|urls| - 1]).response]
  }

  /** The fetch stage of `Cache.addAll`: every URL is requested, and the
      batch of entries is usable only if every request gave an ok response. */
  method FetchAll(urls: seq<string>, fetchUrl: string -> NetworkOutcome) returns (ok: bool, batch: Cache)
    ensures ok == AllFetchedOk(urls, fetchUrl)
    ensures ok ==> batch == FetchedEntries(urls, fetchUrl)
  {
    ok, batch := true, map[];
    var i := 0;
    while i < |urls|
      invariant 0 <= i <= |urls|
      invariant ok == AllFetchedOk(urls[..i], fetchUrl)
      invariant ok ==> batch == FetchedEntries(urls[..i], fetchUrl)
    {
      assert urls[..i + 1] == urls[..i] + [urls[i]];
      FetchedStep(urls[..i], urls[i], fetchUrl);
      match fetchUrl(urls[i]) {
        case Failed =>
          ok := false;
        case Resp(response) =>
          if !OkStatus(response) {
            ok := false;
          } else if ok {
            batch := batch[urls[i] := response];
          }
      }
      i := i + 1;
    }
    assert urls[..i] == urls;
  }

  // ------------------------------------------------------------- activate

  predicate IsCurrent(name: string) {
    name == CACHE_NAME
  }

  /** The names `activate` keeps. */
  function KeptAtActivation(names: seq<string>): (r: seq<string>)
    ensures forall i :: 0 <= i < |r| ==> r[i] == CACHE_NAME
    ensures CACHE_NAME in names <==> CACHE_NAME in r
  {
    FilterMembers(names, IsCurrent);
    Filter(names, IsCurrent)
  }

  /** The names left after `caches.delete(name)`. */
  function WithoutName(names: seq<string>, name: string): (r: seq<string>)
    ensures forall i :: 0 <= i < |r| ==> r[i] != name && r[i] in names
    ensures forall i :: 0 <= i < |names| && names[i] != name ==> names[i] in r
  {
    var keep := (n: string) => n != name;
    FilterMembers(names, keep);
    Filter(names, keep)
  }

  /** Cache Storage's consistency: every cache is listed once, in creation order. */
  ghost predicate WellFormed(order: seq<string>, caches: map<string, Cache>) {
    Distinct(order) && (forall n :: n in order <==> n in caches)
  }

  /** `caches.delete(name)` keeps the storage consistent. */
  lemma DeleteKeepsWellFormed(order: seq<string>, caches: map<string, Cache>, name: string)
    requires WellFormed(order, caches)
    ensures WellFormed(WithoutName(order, name), caches - {name})
  {
    FilterDistinct(order, (n: string) => n != name);
  }

  /** Where the activation loop stands once it has gone through `names[..i]`,
      starting from the caches `original`. */
  ghost predicate ActivationAt(names: seq<string>, i: nat, order: seq<string>,
                               caches: map<string, Cache>, original: map<string, Cache>)
  {
    && i <= |names|
    && Distinct(names)
    && WellFormed(order, caches)
    && order == KeptAtActivation(names[..i]) + names[i..]
    && (forall n :: n in caches ==> n in original && caches[n] == original[n])
  }

  /** A turn of the activation loop on the current cache's name keeps it. */
  lemma ActivationKeeps(names: seq<string>, i: nat, order: seq<string>,
                        caches: map<string, Cache>, original: map<string, Cache>)
    requires ActivationAt(names, i, order, caches, original) && i < |names|
    requires names[i] == CACHE_NAME
    ensures ActivationAt(names, i + 1, order, caches, original)
  {
    var kept := KeptAtActivation(names[..i]);
    assert names[..i + 1] == names[..i] + [names[i]];
    assert names[i..] == [names[i]] + names[i + 1..];
    FilterSnoc(names[..i], names[i], IsCurrent);
    assert KeptAtActivation(names[..i + 1]) == kept + [names[i]];
    assert order == (kept + [names[i]]) + names[i + 1..];
  }

  /** A turn of the activation loop on any other name deletes that cache,
      and only that one. */
  lemma ActivationDeletes(names: seq<string>, i: nat, order: seq<string>,
                          caches: map<string, Cache>, original: map<string, Cache>)
    requires ActivationAt(names, i, order, caches, original) && i < |names|
    requires names[i] != CACHE_NAME
    ensures ActivationAt(names, i + 1, WithoutName(order, names[i]), caches - {names[i]}, original)
  {
    var name := names[i];
    var kept := KeptAtActivation(names[..i]);
    var later := names[i + 1..];
    assert names[..i + 1] == names[..i] + [name];
    assert names[i..] == [name] + later;
    assert order == kept + [name] + later;
    FilterSnoc(names[..i], name, IsCurrent);
    assert KeptAtActivation(names[..i + 1]) == kept;
    DistinctTail(names, i);
    FilterDropsOne(kept, name, later, (n: string) => n != name);
    assert WithoutName(order, name) == kept + later;
    DeleteKeepsWellFormed(order, caches, name);
  }

  /** When the loop has gone through every listed name, only the current
      cache can be left, untouched. */
  lemma ActivationDone(names: seq<string>, order: seq<string>,
                       caches: map<string, Cache>, original: map<string, Cache>)
    requires ActivationAt(names, |names|, order, caches, original)
    requires WellFormed(names, original)
    ensures order == KeptAtActivation(names)
    ensures forall n :: n in caches ==> n == CACHE_NAME
    ensures CACHE_NAME in original ==> CACHE_NAME in caches && caches[CACHE_NAME] == original[CACHE_NAME]
  {
    assert names[..|names|] == names;
    assert order == KeptAtActivation(names) + [];
    forall n | n in caches ensures n == CACHE_NAME {
      var k :| 0 <= k < |order| && order[k] == n;
    }
  }

  // ------------------------------------------------------------- storage

  /** The origin's Cache Storage as the service worker sees it. */
  class CacheStorage {
    var order: seq<string>
    var caches: map<string, Cache>

    ghost predicate Valid()
      reads this
    {
      WellFormed(order, caches)
    }

    constructor (names: seq<string>, contents: map<string, Cache>)
      requires WellFormed(names, contents)
      ensures Valid() && order == names && caches == contents
    {
      order := names;
      caches := contents;
    }

    /** `caches.match(url)` on the current storage: a miss exactly when no
        cache holds the URL, and otherwise the response of the first cache,
        in creation order, that holds it. */
    function Match(url: string): (r: Option<Response>)
      requires Valid()
      reads this
      ensures r.None? <==> forall n :: n in caches ==> url !in caches[n]
      ensures r.Some? ==>
        exists i :: (&& 0 <= i < |order| && order[i] in caches && url in caches[order[i]]
                     && r.value == caches[order[i]][url]
                     && forall j :: 0 <= j < i ==> url !in caches[order[j]])
    {
      MatchIn(order, caches, url)
    }

    /** The cache under `name`, or an empty one if there is none. */
    function CacheOrEmpty(name: string): Cache
      reads this
    {
      if name in caches then caches[name] else map[]
    }

    /** `caches.open(name)`: creates the cache, last in order, if absent. */
    method Open(name: string)
      requires Valid()
      modifies this
      ensures Valid() && name in caches
      ensures caches == old(caches)[name := old(CacheOrEmpty(name))]
      ensures order == if name in old(caches) then old(order) else old(order) + [name]
    {
      if name !in caches {
        order := order + [name];
        caches := caches[name := map[]];
      }
    }

    /** `caches.delete(name)`. */
    method Delete(name: string) returns (existed: bool)
      requires Valid()
      modifies this
      ensures Valid()
      ensures existed == (name in old(caches))
      ensures caches == old(caches) - {name}
      ensures order == WithoutName(old(order), name)
    {
      existed := name in caches;
      DeleteKeepsWellFormed(order, caches, name);
      order := WithoutName(order, name);
      caches := caches - {name};
    }

    /** The `install` handler (sw.js:25-33): open `CACHE_NAME`, then `addAll`
        the shell, which fetches every URL and writes all of them or none.
        `fetchUrl` is the network's answer for each URL. */
    method Install(shell: seq<string>, fetchUrl: string -> NetworkOutcome) returns (installed: bool)
      requires Valid()
      modifies this
      ensures Valid()
      ensures installed == AllFetchedOk(shell, fetchUrl)
      ensures order == if CACHE_NAME in old(caches) then old(order) else old(order) + [CACHE_NAME]
      ensures caches == old(caches)[CACHE_NAME :=
        if installed then old(CacheOrEmpty(CACHE_NAME)) + FetchedEntries(shell, fetchUrl)
        else old(CacheOrEmpty(CACHE_NAME))]
    {
      ghost var current := CacheOrEmpty(CACHE_NAME);
      Open(CACHE_NAME);
      assert caches[CACHE_NAME] == current;
      installed := AddAll(CACHE_NAME, shell, fetchUrl);
    }

    /** `cache.addAll(urls)` on the open cache `name`: fetch every URL, then
        write all the responses, or nothing if any request failed or was not ok. */
    method AddAll(name: string, urls: seq<string>, fetchUrl: string -> NetworkOutcome) returns (ok: bool)
      requires Valid() && name in caches
      modifies this
      ensures Valid() && order == old(order)
      ensures ok == AllFetchedOk(urls, fetchUrl)
      ensures caches == if ok then old(caches)[name := old(caches)[name] + FetchedEntries(urls, fetchUrl)]
                        else old(caches)
    {
      var batch;
      ok, batch := FetchAll(urls, fetchUrl);
      if ok {
        caches := caches[name := caches[name] + batch];
      }
    }

    /** The `activate` handler (sw.js:36-49): delete every cache whose name is
        not `CACHE_NAME`, going through the names `caches.keys()` listed. */
    method Activate()
      requires Valid()
      modifies this
      ensures Valid()
      ensures order == KeptAtActivation(old(order))
      ensures forall n :: n in caches ==> n == CACHE_NAME
      ensures CACHE_NAME in old(caches) ==> CACHE_NAME in caches && caches[CACHE_NAME] == old(caches)[CACHE_NAME]
    {
      var names := order;
      ghost var original := caches;
      var i := 0;
      while i < |names|
        invariant ActivationAt(names, i, order, caches, original)
        decreases |names| - i
      {
        DeleteIfOld(names, i, original);
        i := i + 1;
      }
      ActivationDone(names, order, caches, original);
    }

    /** One turn of the activation loop: `caches.delete(names[i])` unless it
        is the current cache. */
    method DeleteIfOld(names: seq<string>, i: nat, ghost original: map<string, Cache>)
      requires ActivationAt(names, i, order, caches, original) && i < |names|
      modifies this
      ensures ActivationAt(names, i + 1, order, caches, original)
    {
      if names[i] == CACHE_NAME {
        ActivationKeeps(names, i, order, caches, original);
      } else {
        ActivationDeletes(names, i, order, caches, original);
        var _ := Delete(names[i]);
      }
    }

    /** The `fetch` handler (sw.js:52-87) for `request`, with `net` standing
        for what `fetch` would settle to; `usedNetwork` says whether the
        network was asked at all. */
    method HandleFetch(request: Request, net: NetworkOutcome) returns (response: Option<Response>, usedNetwork: bool)
      requires Valid()
      modifies this
      ensures Valid()
      ensures response == Delivered(RouteFetch(old(Match(request.url)), net, request.destination,
                                               old(Match(OFFLINE_PAGE))))
      ensures usedNetwork <==> old(Match(request.url)).None?
      ensures !(old(Match(request.url)).None? && net.Resp? && Cacheable(net.response)) ==>
        caches == old(caches) && order == old(order)
      ensures old(Match(request.url)).None? && net.Resp? && Cacheable(net.response) ==>
        && caches == old(caches)[CACHE_NAME := old(CacheOrEmpty(CACHE_NAME))[request.url := net.response]]
        && order == (if CACHE_NAME in old(caches) then old(order) else old(order) + [CACHE_NAME])
        && Match(request.url) == Some(net.response)
    {
      var hit := Match(request.url);
      if hit.Some? {
        return hit, false;
      }
      usedNetwork := true;
      match net
      case Resp(r) =>
        if r.status != 200 || r.kind != Basic {
          return Some(r), true;
        }
        StoreMiss(request.url, r);
        response := Some(r);
      case Failed =>
        if request.destination == "document" {
          response := Match(OFFLINE_PAGE);
        } else {
          response := None;
        }
    }

    /** The cache-miss branch that keeps a copy: open `CACHE_NAME` and put the
        response under the URL, after which the lookup finds it (sw.js:72-76). */
    method StoreMiss(url: string, r: Response)
      requires Valid() && Match(url).None?
      modifies this
      ensures Valid()
      ensures caches == old(caches)[CACHE_NAME := old(CacheOrEmpty(CACHE_NAME))[url := r]]
      ensures order == if CACHE_NAME in old(caches) then old(order) else old(order) + [CACHE_NAME]
      ensures Match(url) == Some(r)
    {
      StoreAfterMiss(order, caches, url, r);
      var current := CacheOrEmpty(CACHE_NAME);
      if CACHE_NAME !in caches {
        order := order + [CACHE_NAME];
      }
      caches := caches[CACHE_NAME := current[url := r]];
    }
  }

  /** Extending the URL list by one adds one conjunct to the success test,
      and, on success, one entry to the batch. */
  lemma FetchedStep(urls: seq<string>, u: string, fetchUrl: string -> NetworkOutcome)
    ensures AllFetchedOk(urls + [u], fetchUrl) ==
      (AllFetchedOk(urls, fetchUrl) && fetchUrl(u).Resp? && OkStatus(fetchUrl(u).response))
    ensures AllFetchedOk(urls + [u], fetchUrl) ==>
      FetchedEntries(urls + [u], fetchUrl) == FetchedEntries(urls, fetchUrl)[u := fetchUrl(u).response]
  {
    var v := urls + [u];
    assert forall i :: 0 <= i < |urls| ==> v[i] == urls[i];
    assert v[|urls|] == u;
    assert v[..|v| - 1] == urls;
  }

  /** The shell list holds the page served to documents when offline. */
  lemma ShellHoldsOfflinePage()
    ensures OFFLINE_PAGE in URLS_TO_CACHE
  {
    assert URLS_TO_CACHE[1] == OFFLINE_PAGE;
  }

  /** No URL occurs twice in the shell list, so `addAll`, which rejects a
      batch with a repeated request, never fails on the list itself. */
  lemma ShellDistinct()
    ensures Distinct(URLS_TO_CACHE)
  {
    PagesDistinct();
    IconsDistinct();
    PagesApartFromIcons();
    DistinctConcat(SHELL_PAGES, SHELL_ICONS);
  }

  /** The pages and the manifest are five different URLs. */
  lemma PagesDistinct()
    ensures Distinct(SHELL_PAGES)
  {
  }

  /** The thirteen icons are different URLs. */
  lemma IconsDistinct()
    ensures Distinct(SHELL_ICONS)
  {
  }

  /** Every icon lies in the icons folder and no page does, so no page is an icon. */
  lemma PagesApartFromIcons()
    ensures forall i, j :: 0 <= i < |SHELL_PAGES| && 0 <= j < |SHELL_ICONS| ==> SHELL_PAGES[i] != SHELL_ICONS[j]
  {
    assert forall k :: 0 <= k < |SHELL_ICONS| ==> InIconsFolder(SHELL_ICONS[k]);
    assert forall k :: 0 <= k < |SHELL_PAGES| ==> !InIconsFolder(SHELL_PAGES[k]);
  }

  /** The URL starts with `/ic`, as the icons folder does and no page does. */
  predicate InIconsFolder(u: string) {
    |u| > 2 && u[1] == 'i' && u[2] == 'c'
  }

  /** Activation after an upgrade: the storage holds the previous generation
      "taskmaster-v1" and the freshly installed current one; afterwards only
      the current cache is left, with its contents untouched. */
  method UpgradeScenario(previous: Cache, installed: Cache)
    returns (names: seq<string>, current: Cache)
    ensures names == [CACHE_NAME]
    ensures current == installed
  {
    var storage := new CacheStorage(["taskmaster-v1", CACHE_NAME],
                                    map["taskmaster-v1" := previous, CACHE_NAME := installed]);
    storage.Activate();
    assert KeptAtActivation(["taskmaster-v1", CACHE_NAME]) == [CACHE_NAME] by {
      FilterConcat(["taskmaster-v1"], [CACHE_NAME], IsCurrent);
    }
    names := storage.order;
    current := storage.caches[CACHE_NAME];
  }

  /** Offline, a document request for a URL outside the shell is answered
      with the cached offline page. */
  method OfflineNavigationScenario(shell: seq<string>, url: string, page: Response)
    returns (response: Option<Response>)
    requires OkStatus(page) && OFFLINE_PAGE in shell && url !in shell
    ensures response == Some(page)
  {
    var storage := new CacheStorage([], map[]);
    var installed := storage.Install(shell, (u: string) => Resp(page));
    assert installed;
    assert OFFLINE_PAGE in storage.caches[CACHE_NAME];
    assert url !in storage.caches[CACHE_NAME];
    MatchOnlyHolder(storage.order, storage.caches, OFFLINE_PAGE, CACHE_NAME);
    assert storage.Match(OFFLINE_PAGE) == Some(page);
    assert storage.Match(url).None?;
    var usedNetwork;
    response, usedNetwork := storage.HandleFetch(Request(url, "document"), Failed);
  }
}
