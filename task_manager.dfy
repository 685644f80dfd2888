/** The `TaskMasterPWA` object of app.js: an in-memory list of task records
    (`tasks`) that writes through to an IndexedDB object store keyed by `id`,
    here the map `store`. Each store request takes a flag that says whether
    the browser answered with `onsuccess` or with `onerror`; the clock is a
    parameter. */
module TaskManager {
  import opened Common
  import opened Text
  import opened Tasks

  /** How `addTask` ended (app.js:132-135, 148-162). */
  datatype AddOutcome =
    | EmptyText                  // "Por favor ingresa una tarea": nothing is written
    | Added(task: Task)          // stored, then prepended to the list
    | SaveFailed(task: Task)     // the put was rejected: the list is left alone

  /** How `toggleTask` ended (app.js:216-231). */
  datatype ToggleOutcome =
    | NotFound                   // no record with that id: returns at once
    | Saved(task: Task)          // flipped and stored
    | SaveRejected(task: Task)   // flipped in memory, the put was rejected

  class TaskMaster {
    var tasks: seq<Task>
    var store: map<string, Task>
    var currentFilter: string

    /** The object store is keyed by `id` (app.js:36). */
    ghost predicate Valid()
      reads this
    {
      StoreKeyed(store)
    }

    /** A manager over an opened database holding `persisted`, before
        `loadTasks` has run (app.js:3-5). */
    constructor (persisted: map<string, Task>)
      requires StoreKeyed(persisted)
      ensures Valid()
      ensures tasks == [] && store == persisted && currentFilter == "all"
    {
      tasks := [];
      store := persisted;
      currentFilter := "all";
    }

    /** `saveTask`: an IndexedDB `put`, which inserts or replaces the record
        under its id (app.js:165-174). */
    method SaveTask(task: Task, ok: bool) returns (saved: bool)
      requires Valid()
      modifies this`store
      ensures Valid()
      ensures saved == ok
      ensures store == if ok then old(store)[task.id := task] else old(store)
    {
      if ok {
        store := store[task.id := task];
      }
      saved := ok;
    }

    /** `removeTaskFromDB`: an IndexedDB `delete`, which succeeds whether or
        not the key is present (app.js:204-213). */
    method RemoveTaskFromDB(id: string, ok: bool) returns (removed: bool)
      requires Valid()
      modifies this`store
      ensures Valid()
      ensures removed == ok
      ensures store == if ok then old(store) - {id} else old(store)
    {
      if ok {
        store := store - {id};
      }
      removed := ok;
    }

    /** `addTask` with the form's raw text, date, time and priority, one clock
        reading `now` (the id is its decimal string) and the put's result
        (app.js:123-163). */
    method AddTask(input: string, date: string, time: string, priority: string,
                   now: nat, saveOk: bool) returns (outcome: AddOutcome)
      requires Valid()
      modifies this`tasks, this`store
      ensures Valid()
      ensures outcome == EmptyText <==> Trim(input) == []
      ensures outcome == EmptyText ==> tasks == old(tasks) && store == old(store)
      ensures outcome != EmptyText ==>
        outcome.task == Task(DecimalString(now), Trim(input), date, time, priority, false, now, now)
      ensures outcome.Added? <==> outcome != EmptyText && saveOk
      ensures outcome.Added? ==>
        && store == old(store)[outcome.task.id := outcome.task]
        && tasks == [outcome.task] + old(tasks)
      ensures outcome.SaveFailed? ==> tasks == old(tasks) && store == old(store)
    {
      var text := Trim(input);
      if text == [] {
        return EmptyText;
      }
      var task := Task(DecimalString(now), text, date, time, priority, false, now, now);
      var saved := SaveTask(task, saveOk);
      if saved {
        tasks := [task] + tasks;
        outcome := Added(task);
      } else {
        outcome := SaveFailed(task);
      }
    }

    /** `loadTasks`: `getAll` then a sort by descending `createdAt`
        (app.js:176-190). `readOk` is the request's result. */
    method LoadTasks(readOk: bool) returns (loaded: bool)
      requires Valid()
      modifies this`tasks
      ensures Valid()
      ensures loaded == readOk
      ensures readOk ==> ListsStore(tasks, store) && NewestFirst(tasks)
      ensures !readOk ==> tasks == old(tasks)
    {
      if !readOk {
        return false;
      }
      // getAll: every record of the store, each once
      var records: seq<Task> := [];
      var pending := store.Keys;
      while pending != {}
        invariant pending <= store.Keys
        invariant |records| + |pending| == |store|
        invariant forall i :: 0 <= i < |records| ==>
          records[i].id in store && store[records[i].id] == records[i] && records[i].id !in pending
        invariant forall k :: k in store && k !in pending ==> store[k] in records
        decreases |pending|
      {
        var k :| k in pending;
        records := records + [store[k]];
        pending := pending - {k};
      }
      tasks := SortByNewest(records);
      ListsStorePermutation(records, tasks, store);
      loaded := true;
    }

    /** `deleteTask`: delete from the store, and only once that succeeded drop
        every record with the id from the list (app.js:192-202). */
    method DeleteTask(id: string, removeOk: bool) returns (deleted: bool)
      requires Valid()
      modifies this`tasks, this`store
      ensures Valid()
      ensures deleted == removeOk
      ensures store == if removeOk then old(store) - {id} else old(store)
      ensures tasks == if removeOk then WithoutId(old(tasks), id) else old(tasks)
    {
      deleted := RemoveTaskFromDB(id, removeOk);
      if deleted {
        tasks := WithoutId(tasks, id);
      }
    }

    /** `toggleTask`: flip the first record with the id in the list, then put
        it; the flip stays even when the put is rejected (app.js:215-232). */
    method ToggleTask(id: string, now: int, saveOk: bool) returns (outcome: ToggleOutcome)
      requires Valid()
      modifies this`tasks, this`store
      ensures Valid()
      ensures tasks == Toggled(old(tasks), id, now)
      ensures outcome == NotFound <==> FirstWithId(old(tasks), id).None?
      ensures outcome != NotFound ==>
        outcome.task == tasks[FirstWithId(old(tasks), id).value]
      ensures outcome.Saved? <==> outcome != NotFound && saveOk
      ensures store == if outcome.Saved? then old(store)[id := outcome.task] else old(store)
    {
      var found := FirstWithId(tasks, id);
      if found.None? {
        return NotFound;
      }
      var i := found.value;
      var task := tasks[i].(completed := !tasks[i].completed, updatedAt := now);
      tasks := tasks[i := task];
      var saved := SaveTask(task, saveOk);
      outcome := if saved then Saved(task) else SaveRejected(task);
    }

    /** The filter part of `setFilter` (app.js:234-235). */
    method SetFilter(filter: string)
      modifies this`currentFilter
      ensures currentFilter == filter
    {
      currentFilter := filter;
    }

    /** `getFilteredTasks` on the current list and filter (app.js:245-254):
        the completed records, the pending ones, or the whole list. */
    function FilteredTasks(): (r: seq<Task>)
      reads this
      ensures currentFilter == "completed" ==>
        (forall i :: 0 <= i < |r| ==> r[i].completed && r[i] in tasks)
        && (forall i :: 0 <= i < |tasks| && tasks[i].completed ==> tasks[i] in r)
      ensures currentFilter == "pending" ==>
        (forall i :: 0 <= i < |r| ==> !r[i].completed && r[i] in tasks)
        && (forall i :: 0 <= i < |tasks| && !tasks[i].completed ==> tasks[i] in r)
      ensures currentFilter != "completed" && currentFilter != "pending" ==> r == tasks
    {
      FilteredView(tasks, currentFilter)
    }
  }

  /** The scenario "add `Buy milk` with priority high" on an empty store:
      one stored record, and it heads the list, uncompleted. */
  method BuyMilkScenario(now: nat) returns (stored: nat, first: Task)
    ensures stored == 1
    ensures first.text == "Buy milk" && first.priority == "high" && !first.completed
    ensures first.id == DecimalString(now) && first.createdAt == now
  {
    var app := new TaskMaster(map[]);
    var text := "Buy milk";
    assert !IsTrimmable(text[0]) && !IsTrimmable(text[|text| - 1]);
    assert Trim(text) == text;
    var outcome := app.AddTask(text, "", "", "high", now, true);
    stored := |app.store|;
    first := app.tasks[0];
  }

  /** Ids come from the millisecond clock, so two tasks added in the same
      millisecond share an id: the list then holds both records while the
      store keeps only the second, which replaced the first. */
  method SameMillisecondAdds(first: string, second: string, now: nat) returns (listed: nat, stored: nat)
    requires Trim(first) != [] && Trim(second) != []
    ensures listed == 2 && stored == 1
  {
    var app := new TaskMaster(map[]);
    var a := app.AddTask(first, "", "", "low", now, true);
    ghost var afterFirst := app.store;
    assert afterFirst == map[a.task.id := a.task];
    var b := app.AddTask(second, "", "", "low", now, true);
    assert app.store == afterFirst[a.task.id := b.task];
    listed := |app.tasks|;
    stored := |app.store|;
  }
}
