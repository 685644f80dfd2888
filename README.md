# TaskMaster PWA: a verified model of its task list and offline cache

TaskMaster is an offline-first to-do list that runs in the browser. This
project models its two core parts in Dafny:

- **The task manager** (`TaskMasterPWA` in app.js). It keeps an in-memory
  list of task records. The list writes through to an IndexedDB object
  store keyed by `id`. Adding a task trims the typed text and refuses an
  empty one. It then builds a record whose id is the millisecond clock
  written in decimal, stores it, and only after that puts it at the head
  of the list. Loading reads every stored record and sorts the list
  newest first. Deleting removes the record from the store and then from
  the list. Toggling flips the completion flag of the first record with
  the id, then stores that record. The view filters the list by
  "completed", "pending" or anything else (everything). The priority
  label is the Spanish word for high, medium or low.
- **The service worker** (sw.js). At install it opens the cache
  `taskmaster-v2` and adds the application shell to it: all of it, or
  nothing if any request fails. At activation it deletes every cache with
  another name. Fetching is cache first:
  - a cached response is returned as it is;
  - on a miss, the network's answer is returned;
  - a 200 same-origin answer is also stored in the current cache;
  - when the network fails, a document request gets the cached
    `/index.html`.

Modules:

| file | module | contents |
|---|---|---|
| common.dfy | `Common` | `Option`, `Filter`, `FirstIndex`, `Distinct` and their lemmas |
| text.dfy | `Text` | `trim`, and the decimal form of the clock reading used as an id |
| tasks.dfy | `Tasks` | the task record and the pure list functions the manager is specified by |
| task_manager.dfy | `TaskManager` | class `TaskMaster`: the list, the store and the filter, updated in place |
| offline_cache.dfy | `OfflineCache` | class `CacheStorage` and the three service-worker handlers |

How the environment enters the model:

- Each IndexedDB request takes a boolean that says whether the browser
  answered `onsuccess` or `onerror`.
- The clock is a parameter `now`, in milliseconds.
- The network is a parameter. For the fetch handler it is one
  `NetworkOutcome`. For install it is a function from URL to outcome.

Three behaviours of the code that a reader might not expect, which the
model follows:

- **Ids are not always unique.** The code takes a task's id from the
  millisecond clock, so two adds in the same millisecond share an id.
  `TaskManager.SameMillisecondAdds` shows the result: the list then holds
  two records and the store only one.
- **A failed install still creates the cache.** The code opens
  `taskmaster-v2` before `addAll` runs. A failed `addAll` writes no shell
  entry, but the opened cache stays: empty if it was new, unchanged if it
  already existed. `OfflineCache.CacheStorage.Install` states this.
- **A failed toggle keeps the flip.** The code flips the record in the
  list before the put, so a rejected put leaves the flipped flag in
  memory while the store keeps the old record.
  `TaskManager.TaskMaster.ToggleTask` states this.

## Model

| member | source | states |
|---|---|---|
| Common.Filter | app.js:195 | `Array.prototype.filter`: the result is no longer than the input, and every kept element passes the test |
| Common.FilterMembers | app.js:248-250 | the filtered list holds only input elements, and it holds every input element that passes |
| Common.FilterConcat | app.js:195 | filtering commutes with concatenation, so the kept elements stay in their original order |
| Common.FilterSplit | app.js:248-250 | two complementary filters together hold each input element exactly as often as the input does |
| Common.FirstIndex | app.js:216 | `Array.prototype.find` as a position: it passes the test, no earlier element does, and None means no element does |
| Common.FilterDistinct | sw.js:41-43 | filtering a list without repeats gives a list without repeats, as used for deleting a cache name |
| Text.Trim | app.js:128 | `trim`: the result is empty exactly when every character is whitespace, and a non-empty result starts and ends with a non-whitespace character |
| Text.TrimIsInfix | app.js:128 | the trimmed text is one contiguous slice of the input, with only whitespace on either side |
| Text.TrimIdempotent | app.js:128 | trimming twice is the same as trimming once |
| Text.DecimalString | app.js:138 | `Date.now().toString()`: at least one character, all decimal digits, and no leading zero except for 0 itself |
| Text.DecimalRoundTrip | app.js:138 | reading the id's digits back gives the clock reading that produced it |
| Text.DecimalStringInjective | app.js:138 | two clock readings give the same id exactly when they are the same reading |
| Tasks.FirstWithId | app.js:216 | the record `find` returns is the first one with the id; None means no record has it |
| Tasks.FirstWithIdByIds | app.js:216 | which record `find` picks depends only on the ids in the list |
| Tasks.Toggled | app.js:216-220 | toggling keeps the length, changes no field other than the flag and the update time, flips the first match and stamps it with `now`, changes no other record, and is a no-op for an unknown id |
| Tasks.ToggleTwiceRestores | app.js:216-220 | toggling the same id twice restores every completion flag, and every field except the update time |
| Tasks.WithoutId | app.js:195 | after a delete no record has the id, every record with another id is kept, and nothing new appears |
| Tasks.WithoutIdKeepsOrder | app.js:195 | deleting commutes with splitting the list, so the remaining records keep their order |
| Tasks.WithoutAbsentId | app.js:195 | deleting an id no record has leaves the list unchanged |
| Tasks.FilteredView | app.js:245-254 | "completed" gives exactly the completed records, "pending" exactly the open ones, and any other filter the whole list |
| Tasks.CompletedAndPendingSplit | app.js:248-250 | the completed and pending views partition the list, as multisets and in size |
| Tasks.FilteredViewKeepsOrder | app.js:245-254 | every view keeps the list's order |
| Tasks.InsertByNewest | app.js:183-185 | inserting one record gives a list one longer, with the same records plus the new one |
| Tasks.InsertKeepsNewestFirst | app.js:183-185 | inserting into a list sorted newest first keeps it sorted |
| Tasks.SortByNewest | app.js:183-185 | the sort with the descending `createdAt` comparator returns a list sorted newest first that is a permutation of its input |
| Tasks.ListsStorePermutation | app.js:180-185 | reordering a list that holds each stored record once keeps it such a list |
| Tasks.PriorityText | app.js:293-300 | the intended label: "Alta" exactly for high, "Baja" exactly for low, and "Media" exactly for everything else |
| Tasks.PriorityLookupAsWritten | app.js:293-300 | the lookup as written returns an inherited member exactly for the names an object literal inherits, and otherwise the intended label |
| Tasks.InheritedKeyBypassesDefault | app.js:293-300 | for "toString" the lookup as written returns the inherited member, where the intended label is "Media" |
| TaskManager.TaskMaster.constructor | app.js:3-5 | a new manager starts with an empty list, the filter "all", and the store it is given, which is keyed by id |
| TaskManager.TaskMaster.SaveTask | app.js:165-174 | a successful put stores the record under its id, replacing any record there; a failed put changes nothing |
| TaskManager.TaskMaster.RemoveTaskFromDB | app.js:204-213 | a successful delete removes the key, whether or not it was present; a failed one changes nothing |
| TaskManager.TaskMaster.AddTask | app.js:123-163 | it refuses exactly the texts that trim to nothing and then changes nothing; otherwise it builds the record with the trimmed text, the decimal clock id, uncompleted, both times `now`; it is added to the store and at the head of the list exactly when the put succeeds, and on a failed put nothing changes |
| TaskManager.TaskMaster.LoadTasks | app.js:176-190 | after a successful read the list holds each stored record exactly once, newest first; a failed read leaves the list as it was |
| TaskManager.TaskMaster.DeleteTask | app.js:192-202 | the record leaves the store, and every record with the id leaves the list, only if the store delete succeeded; otherwise nothing changes |
| TaskManager.TaskMaster.ToggleTask | app.js:215-232 | the list becomes `Toggled` of the old list whether or not the put succeeds; an unknown id returns at once; the flipped record is stored only when the put succeeds |
| TaskManager.TaskMaster.SetFilter | app.js:234-235 | the current filter becomes the one chosen |
| TaskManager.TaskMaster.FilteredTasks | app.js:245-254 | with the filter "completed" the view holds exactly the completed records of the list, with "pending" exactly the open ones, and with any other filter the whole list |
| TaskManager.BuyMilkScenario | app.js:123-150 | adding "Buy milk" with priority high to an empty store leaves one stored record, heading the list, uncompleted, with the clock id |
| TaskManager.SameMillisecondAdds | app.js:138-150 | two adds with the same clock reading leave two records in the list but one in the store |
| OfflineCache.FirstHolding | sw.js:54 | the first cache, in creation order, that holds the URL; None means no cache does |
| OfflineCache.MatchIn | sw.js:54 | `caches.match` misses exactly when no cache holds the URL, and a hit is the response one of them holds |
| OfflineCache.MatchOnlyHolder | sw.js:82 | a URL held by one cache only matches that cache's response |
| OfflineCache.MatchMissHeldNowhere | sw.js:54-58 | a miss means no cache in the storage holds the URL |
| OfflineCache.StoreAfterMiss | sw.js:71-76 | after a miss, opening the current cache and putting the response keeps the storage consistent, and the next lookup finds exactly that response |
| OfflineCache.RouteFetch | sw.js:52-87 | a hit is returned without the network; a network answer after a miss is returned; it is stored exactly when it is status 200 and same-origin; a failed network gives the offline page to documents and nothing to other requests |
| OfflineCache.FetchedEntries | sw.js:30 | the entries a successful `addAll` writes: exactly the listed URLs, each with its own response |
| OfflineCache.FetchAll | sw.js:30 | the fetch stage of `addAll` succeeds exactly when every URL answered with an ok status, and then yields exactly `FetchedEntries` |
| OfflineCache.FetchedStep | sw.js:30 | one more URL adds one condition to success and, on success, one entry to the batch |
| OfflineCache.KeptAtActivation | sw.js:40-45 | activation keeps only the current name, and keeps it exactly when it was present |
| OfflineCache.WithoutName | sw.js:43 | `caches.delete` drops the name, and only that name, from the list of names |
| OfflineCache.DeleteKeepsWellFormed | sw.js:43 | deleting a cache keeps every cache listed exactly once |
| OfflineCache.ActivationKeeps | sw.js:40-45 | a turn of the activation loop on the current name keeps everything and advances the loop state |
| OfflineCache.ActivationDeletes | sw.js:40-45 | a turn of the activation loop on another name deletes that cache alone and advances the loop state |
| OfflineCache.ActivationDone | sw.js:36-49 | when the loop has gone through every name, only the current cache can remain, with its contents untouched |
| OfflineCache.CacheStorage.constructor | sw.js:27 | a storage over consistent names and caches, held as given |
| OfflineCache.CacheStorage.Match | sw.js:54 | `caches.match` on the current storage misses exactly when no cache holds the URL; a hit is the response of the first cache, in creation order, that holds it |
| OfflineCache.CacheStorage.Open | sw.js:27 | `caches.open` creates the named cache, empty and listed last, only if it is absent; otherwise nothing changes |
| OfflineCache.CacheStorage.Delete | sw.js:43 | `caches.delete` removes the cache and its name, and reports whether it existed |
| OfflineCache.CacheStorage.Install | sw.js:25-33 | install succeeds exactly when every shell URL answers with an ok status; the current cache then exists, and it gains all the shell entries on success and none on failure; no other cache changes |
| OfflineCache.CacheStorage.AddAll | sw.js:30 | `addAll` writes every fetched entry into the open cache, or nothing when any fetch failed; no other cache changes |
| OfflineCache.CacheStorage.Activate | sw.js:36-49 | after activation only the current cache can remain, with its contents unchanged, and the name list is the old one filtered to the current name |
| OfflineCache.CacheStorage.DeleteIfOld | sw.js:41-44 | one turn of the activation loop: delete the cache unless it is the current one |
| OfflineCache.CacheStorage.HandleFetch | sw.js:52-87 | the response is the one `RouteFetch` selects; the network is asked exactly on a miss; the storage changes only for a cacheable miss, which puts the response into the current cache (created last in order if absent) so that the next lookup finds it |
| OfflineCache.CacheStorage.StoreMiss | sw.js:71-76 | the response is put under the URL in the current cache; that cache is created last in order if absent, no other cache or name changes, and the lookup then returns the response |
| OfflineCache.ShellHoldsOfflinePage | sw.js:3-22 | the application shell includes `/index.html`, the page served when offline |
| OfflineCache.ShellDistinct | sw.js:3-22 | no URL occurs twice in the shell list, so `addAll` cannot reject it for a repeated request |
| OfflineCache.UpgradeScenario | sw.js:36-49 | activating with the previous generation and the current one leaves only the current cache, with its contents unchanged |
| OfflineCache.OfflineNavigationScenario | sw.js:25-33 | after a successful install of a shell holding `/index.html`, an offline document request for an uncached URL is answered with the cached `/index.html` |

## Left out

- Rendering, notifications, the install prompt and the registration of the service worker are left out. They are DOM and browser UI work, and no state of the model depends on them.
- `initializeDatabase` is left out. It opens the database and creates the `completed`, `priority` and `createdAt` indexes. The model starts from an open store keyed by `id`, and no modelled operation uses the indexes.
- The online and offline listeners and `syncTasks` are left out, and so are the `sync` handler with its `doBackgroundSync` stub, `push` and `notificationclick`. `syncTasks` only waits and shows a notification, the sync stub holds no logic, and the other two only show or open notifications.
- The form reset after a successful add is left out. It writes only DOM fields.
- `setFilter`'s button highlighting and re-render are left out. They are DOM work.
- Promise scheduling and concurrency are left out. Each operation runs to completion before the next one starts.
- The fetch handler does not wait for its `cache.put`. The model applies the put before the response is returned.
- The activation deletes run concurrently under `Promise.all`. The model runs them one after another in the order `caches.keys()` lists the names. Each delete touches only its own cache, so the final state is the same.
- `Request.clone` and `Response.clone` are left out. They do not change what is stored or returned.
- Timestamps are left out as ISO strings. The model has one clock reading `now`, in milliseconds. It is used for the id, `createdAt` and `updatedAt`, whereas the code reads the clock separately for each.
- `TaskManager.TaskMaster.LoadTasks` does not state the order of records with equal `createdAt`. `getAll` returns them in key order and the sort is stable. The model takes them in an unspecified order, so the contract promises only "each stored record once, newest first".
- Requests are identified by their URL string. The cache key also involves the method, the `Vary` header and URL normalisation. Non-GET requests are not modelled.
- `Cache.addAll` also rejects a batch with a repeated request (the shell has none, by `OfflineCache.ShellDistinct`) and responses whose `Vary` header is `*`. The model keeps only its all-or-nothing rule on ok statuses.
- `fetch` never settles to an undefined response, so the `!response` test of the fetch handler is not modelled.
- `OfflineCache.CacheStorage.Install` takes the list of shell URLs as a parameter. The handler passes `URLS_TO_CACHE`, which `OfflineCache.ShellHoldsOfflinePage` shows holds `/index.html`. The contract is stated for any list rather than for that constant.

## Findings

| source | as written | input that shows it | evidently intended | confidence | as-written member | corrected member |
|---|---|---|---|---|---|---|
| app.js:293-300 | the label is looked up as a property of an object literal with a fallback to "Media", so names the literal inherits from `Object.prototype` are found as well | priority "toString" gives the inherited function instead of a label | "Media" for every priority other than high, medium and low | low, not executed (the form's select offers only the three known values; a stored record with another priority is needed) | Tasks.PriorityLookupAsWritten | Tasks.PriorityText |
