/** The task record and the pure functions over task lists that the
    `TaskMasterPWA` methods are specified by: finding, toggling, deleting,
    filtering and ordering, and the priority label table. */
module Tasks {
  import opened Common
  import opened Text

  /** One task record as stored under its `id` (app.js:137-146). The two
      timestamps are milliseconds since the epoch. */
  datatype Task = Task(
    id: string,
    text: string,
    date: string,
    time: string,
    priority: string,
    completed: bool,
    createdAt: int,
    updatedAt: int)

  /** The object store uses `id` as its key path: each record sits under its own id. */
  predicate StoreKeyed(store: map<string, Task>) {
    forall k :: k in store ==> store[k].id == k
  }

  /** `s` holds the store's records, each once, in some order. Since the store
      is keyed, distinct keys hold distinct records, so the length condition
      makes this a permutation of the store's values. */
  predicate ListsStore(s: seq<Task>, store: map<string, Task>) {
    && |s| == |store|
    && (forall i :: 0 <= i < |s| ==> s[i].id in store && store[s[i].id] == s[i])
    && (forall k :: k in store ==> store[k] in s)
  }

  // ---------------------------------------------------------------- find

  /** `tasks.find(t => t.id === id)`, as the position it finds. */
  function FirstWithId(s: seq<Task>, id: string): (r: Option<nat>)
    ensures r.Some? ==> r.value < |s| && s[r.value].id == id
    ensures r.Some? ==> forall j :: 0 <= j < r.value ==> s[j].id != id
    ensures r.None? ==> forall j :: 0 <= j < |s| ==> s[j].id != id
  {
    FirstIndex(s, (t: Task) => t.id == id)
  }

  /** Where the first record with an id sits depends only on the ids. */
  lemma FirstWithIdByIds(s: seq<Task>, t: seq<Task>, id: string)
    requires |s| == |t|
    requires forall j :: 0 <= j < |s| ==> s[j].id == t[j].id
    ensures FirstWithId(s, id) == FirstWithId(t, id)
  {
    FirstIndexAgrees(s, (x: Task) => x.id == id, t, (x: Task) => x.id == id);
  }

  // -------------------------------------------------------------- toggle

  /** Two records that agree on everything `toggleTask` does not touch. */
  predicate SameButStatus(a: Task, b: Task) {
    && a.id == b.id && a.text == b.text && a.date == b.date && a.time == b.time
    && a.priority == b.priority && a.createdAt == b.createdAt
  }

  /** The list after `toggleTask(id)` at clock reading `now` (app.js:216-220):
      the first record with that id has its flag flipped and its update
      time set; no other record changes. */
  function Toggled(s: seq<Task>, id: string, now: int): (r: seq<Task>)
    ensures |r| == |s|
    ensures forall k :: 0 <= k < |s| ==> SameButStatus(r[k], s[k])
    ensures FirstWithId(s, id).None? ==> r == s
    ensures forall k :: 0 <= k < |s| && FirstWithId(s, id) != Some(k) ==> r[k] == s[k]
    ensures FirstWithId(s, id).Some? ==>
      var i := FirstWithId(s, id).value;
      r[i].completed == !s[i].completed && r[i].updatedAt == now
  {
    match FirstWithId(s, id)
    case None => s
    case Some(i) => s[i := s[i].(completed := !s[i].completed, updatedAt := now)]
  }

  /** Toggling the same id twice restores every completion flag and every
      field except the last update time of the record it found. */
  lemma ToggleTwiceRestores(s: seq<Task>, id: string, first: int, second: int)
    ensures var r := Toggled(Toggled(s, id, first), id, second);
      && |r| == |s|
      && (forall k :: 0 <= k < |s| ==> r[k].completed == s[k].completed)
      && (forall k :: 0 <= k < |s| ==> r[k] == s[k].(updatedAt := r[k].updatedAt))
  {
    FirstWithIdByIds(s, Toggled(s, id, first), id);
  }

  // -------------------------------------------------------------- delete

  /** `tasks.filter(task => task.id !== id)` (app.js:195). */
  function WithoutId(s: seq<Task>, id: string): (r: seq<Task>)
    ensures forall i :: 0 <= i < |r| ==> r[i].id != id
    ensures forall i :: 0 <= i < |s| && s[i].id != id ==> s[i] in r
    ensures forall i :: 0 <= i < |r| ==> r[i] in s
  {
    var keep := (t: Task) => t.id != id;
    FilterMembers(s, keep);
    Filter(s, keep)
  }

  /** Deleting keeps the other records in their original order: it commutes
      with splitting the list anywhere. */
  lemma WithoutIdKeepsOrder(a: seq<Task>, b: seq<Task>, id: string)
    ensures WithoutId(a + b, id) == WithoutId(a, id) + WithoutId(b, id)
  {
    FilterConcat(a, b, (t: Task) => t.id != id);
  }

  /** Deleting an id that no record has leaves the list as it was. */
  lemma WithoutAbsentId(s: seq<Task>, id: string)
    requires FirstWithId(s, id).None?
    ensures WithoutId(s, id) == s
  {
    FilterKeepsAll(s, (t: Task) => t.id != id);
  }

  // -------------------------------------------------------------- filter

  predicate IsCompleted(t: Task) {
    t.completed
  }

  predicate IsPending(t: Task) {
    !t.completed
  }

  /** `getFilteredTasks` for the filter name `filter` (app.js:245-254). */
  function FilteredView(s: seq<Task>, filter: string): (r: seq<Task>)
    ensures filter == "completed" ==>
      (forall i :: 0 <= i < |r| ==> r[i].completed && r[i] in s)
      && (forall i :: 0 <= i < |s| && s[i].completed ==> s[i] in r)
    ensures filter == "pending" ==>
      (forall i :: 0 <= i < |r| ==> !r[i].completed && r[i] in s)
      && (forall i :: 0 <= i < |s| && !s[i].completed ==> s[i] in r)
    ensures filter != "completed" && filter != "pending" ==> r == s
  {
    FilterMembers(s, IsCompleted);
    FilterMembers(s, IsPending);
    if filter == "completed" then Filter(s, IsCompleted)
    else if filter == "pending" then Filter(s, IsPending)
    else s
  }

  /** The completed and pending views split the list: every record is in
      exactly one of them, as often as in the list, so their sizes add up. */
  lemma CompletedAndPendingSplit(s: seq<Task>)
    ensures multiset(FilteredView(s, "completed")) + multiset(FilteredView(s, "pending")) == multiset(s)
    ensures |FilteredView(s, "completed")| + |FilteredView(s, "pending")| == |s|
  {
    FilterSplit(s, IsCompleted, IsPending);
  }

  /** Both views keep the list's order: they commute with splitting it. */
  lemma FilteredViewKeepsOrder(a: seq<Task>, b: seq<Task>, filter: string)
    ensures FilteredView(a + b, filter) == FilteredView(a, filter) + FilteredView(b, filter)
  {
    if filter == "completed" {
      FilterConcat(a, b, IsCompleted);
    } else if filter == "pending" {
      FilterConcat(a, b, IsPending);
    }
  }

  // ---------------------------------------------------------------- sort

  /** Sorted by the comparator `(a, b) => b.createdAt - a.createdAt`. */
  predicate NewestFirst(s: seq<Task>) {
    forall i, j :: 0 <= i < j < |s| ==> s[i].createdAt >= s[j].createdAt
  }

  /** Inserts `t` into a list sorted newest first, before the first record
      that is not newer than it. */
  function InsertByNewest(t: Task, s: seq<Task>): (r: seq<Task>)
    ensures |r| == |s| + 1
    ensures multiset(r) == multiset(s) + multiset{t}
  {
    if s == [] || s[0].createdAt <= t.createdAt then [t] + s
    else
      assert s == [s[0]] + s[1..];
      [s[0]] + InsertByNewest(t, s[1..])
  }

  /** No record in `s` was created after `bound`. */
  predicate NoneNewerThan(s: seq<Task>, bound: int) {
    forall i :: 0 <= i < |s| ==> s[i].createdAt <= bound
  }

  /** Inserting a record no newer than `bound` keeps every record no newer. */
  lemma {:induction false} InsertNoneNewer(t: Task, s: seq<Task>, bound: int)
    requires NoneNewerThan(s, bound) && t.createdAt <= bound
    ensures NoneNewerThan(InsertByNewest(t, s), bound)
  {
    if s != [] && s[0].createdAt > t.createdAt {
      InsertNoneNewer(t, s[1..], bound);
    }
  }

  /** A record no older than every record of a sorted list can head it. */
  lemma PrependNewestFirst(x: Task, s: seq<Task>)
    requires NewestFirst(s) && NoneNewerThan(s, x.createdAt)
    ensures NewestFirst([x] + s)
  {
    var r := [x] + s;
    assert forall i :: 1 <= i < |r| ==> r[i] == s[i - 1];
  }

  /** Inserting into a list sorted newest first keeps it sorted. */
  lemma {:induction false} InsertKeepsNewestFirst(t: Task, s: seq<Task>)
    requires NewestFirst(s)
    ensures NewestFirst(InsertByNewest(t, s))
  {
    if s == [] || s[0].createdAt <= t.createdAt {
      PrependNewestFirst(t, s);
    } else {
      var tail := s[1..];
      InsertKeepsNewestFirst(t, tail);
      InsertNoneNewer(t, tail, s[0].createdAt);
      PrependNewestFirst(s[0], InsertByNewest(t, tail));
    }
  }

  /** `Array.prototype.sort` with the newest-first comparator of app.js:183-185,
      as an insertion sort: ordered, and a permutation of its input. */
  function SortByNewest(s: seq<Task>): (r: seq<Task>)
    ensures NewestFirst(r)
    ensures multiset(r) == multiset(s)
  {
    if s == [] then []
    else
      assert s == [s[0]] + s[1..];
      var rest := SortByNewest(s[1..]);
      InsertKeepsNewestFirst(s[0], rest);
      InsertByNewest(s[0], rest)
  }

  /** Reordering a list of the store's records keeps it a list of them. */
  lemma ListsStorePermutation(s: seq<Task>, t: seq<Task>, store: map<string, Task>)
    requires ListsStore(s, store)
    requires multiset(t) == multiset(s)
    ensures ListsStore(t, store)
  {
    assert |t| == |multiset(t)| == |multiset(s)| == |s|;
    forall i | 0 <= i < |t| ensures t[i].id in store && store[t[i].id] == t[i] {
      assert t[i] in multiset(s);
    }
    forall k | k in store ensures store[k] in t {
      assert store[k] in multiset(t);
    }
  }

  // ------------------------------------------------------------ priority

  /** `getPriorityText` as intended (app.js:293-300): the Spanish label of the
      three known priorities, and "Media" for anything else. */
  function PriorityText(priority: string): (r: string)
    ensures r == "Alta" <==> priority == "high"
    ensures r == "Baja" <==> priority == "low"
    ensures r == "Media" <==> priority != "high" && priority != "low"
  {
    if priority == "high" then "Alta"
    else if priority == "low" then "Baja"
    else "Media"
  }

  /** The names a plain object literal inherits from `Object.prototype`. */
  const INHERITED_KEYS: set<string> := {
    "constructor", "hasOwnProperty", "isPrototypeOf", "propertyIsEnumerable",
    "toLocaleString", "toString", "valueOf", "__proto__", "__defineGetter__",
    "__defineSetter__", "__lookupGetter__", "__lookupSetter__"
  }

  /** What `priorities[priority] || 'Media'` evaluates to: a label string, or
      an inherited member of the object literal (a function or the prototype
      object), which is truthy and so returned in place of the default. */
  datatype Lookup = Label(text: string) | InheritedMember(key: string)

  /** `getPriorityText` as written (app.js:293-300). */
  function PriorityLookupAsWritten(priority: string): (r: Lookup)
    ensures r.InheritedMember? <==> priority in INHERITED_KEYS
    ensures priority !in INHERITED_KEYS ==> r == Label(PriorityText(priority))
  {
    if priority == "high" then Label("Alta")
    else if priority == "medium" then Label("Media")
    else if priority == "low" then Label("Baja")
    else if priority in INHERITED_KEYS then InheritedMember(priority)
    else Label("Media")
  }

  /** The lookup as written lets "toString" through: the result is not one of
      the three labels, and not the documented default. */
  lemma InheritedKeyBypassesDefault()
    ensures PriorityLookupAsWritten("toString") == InheritedMember("toString")
    ensures PriorityText("toString") == "Media"
  {
  }
}
