/**
  * `InMemoryStore<Task, String>` with its `TaskStore` specialisation: a map
  * from id to the stored `Task` object (the object itself, so a later patch
  * changes what `get` returns), the `ResourceStorageClient` operations over
  * it, and the Task filters of `listAll`. The clock and the UUID generator
  * are parameters (`now`, `freshId`).
  */
module Storage {
  import opened Wrappers
  import opened Text
  import opened TaskModel
  import opened Collections

  /** The code `batchGet` records for an id that is not stored. */
  const NotFoundCode := 404

  const PatchUnsupportedMessage := "patch() must be implemented in the entity-specific store"

  /** What `patch` does: empty `Optional`, the patched task, or an exception with its message. */
  datatype PatchResult = NotFound | Patched(task: Task) | Failed(message: string) | Unsupported(message: string)

  /** The results of `batchGet(ids)` against stored map `m`: every requested id that is stored. */
  function BatchResults<T>(m: map<string, T>, ids: seq<string>): map<string, T> {
    map id | id in ids && id in m :: m[id]
  }

  /** The errors of `batchGet(ids)` against stored map `m`: 404 for every requested id that is not stored. */
  function BatchErrors<T>(m: map<string, T>, ids: seq<string>): map<string, int> {
    map id | id in ids && id !in m :: NotFoundCode
  }

  /**
    * Every requested id lands in exactly one of the two maps, found ones with
    * the stored entity and missing ones with 404, and nothing else does; so
    * the two maps together have one entry per distinct requested id.
    */
  lemma BatchGetPartition<T>(m: map<string, T>, ids: seq<string>)
    ensures BatchResults(m, ids).Keys * BatchErrors(m, ids).Keys == {}
    ensures BatchResults(m, ids).Keys + BatchErrors(m, ids).Keys == set id | id in ids
    ensures forall id :: id in BatchResults(m, ids) <==> id in ids && id in m
    ensures forall id :: id in BatchResults(m, ids) ==> BatchResults(m, ids)[id] == m[id]
    ensures forall id :: id in BatchErrors(m, ids) ==> BatchErrors(m, ids)[id] == NotFoundCode
    ensures |BatchResults(m, ids)| + |BatchErrors(m, ids)| == |set id | id in ids|
  {
    var found, missing := BatchResults(m, ids).Keys, BatchErrors(m, ids).Keys;
    assert found + missing == set id | id in ids;
    assert |found + missing| == |found| + |missing| by {
      DisjointUnionSize(found, missing);
    }
  }

  lemma {:induction false} DisjointUnionSize<X>(a: set<X>, b: set<X>)
    requires a * b == {}
    ensures |a + b| == |a| + |b|
    decreases |a|
  {
    if a != {} {
      var x :| x in a;
      DisjointUnionSize(a - {x}, b);
      assert a + b == (a - {x} + b) + {x};
    }
  }

  /**
    * One filter of `matchesTaskFilters`, keyed by its lower-cased name:
    * `status` and `priority` need a constant named by the upper-cased value
    * (no such constant excludes the task) equal to the task's; `title` needs
    * a `null` title or one containing the value, both lower-cased; any other
    * name is ignored.
    */
  predicate FilterHolds(fs: TaskFields, key: string, value: string) {
    var name := ToLower(key);
    if name == "status" then
      ParseStatus(value).Some? && fs.status == ParseStatus(value)
    else if name == "priority" then
      ParsePriority(value).Some? && fs.priority == ParsePriority(value)
    else if name == "title" then
      fs.title.None? || Contains(ToLower(fs.title.value), ToLower(value))
    else
      true
  }

  /** `matchesTaskFilters(task, filters)`: every filter holds. */
  predicate FiltersHold(fs: TaskFields, filters: map<string, string>) {
    forall key :: key in filters ==> FilterHolds(fs, key, filters[key])
  }

  /** A status filter holds exactly when the task has a status whose constant name is the upper-cased value. */
  lemma StatusFilterIff(fs: TaskFields, key: string, value: string)
    requires ToLower(key) == "status"
    ensures FilterHolds(fs, key, value) <==> fs.status.Some? && StatusName(fs.status.value) == ToUpper(value)
  {
    if fs.status.Some? {
      ParseStatusIff(value, fs.status.value);
    }
  }

  /** A priority filter holds exactly when the task has a priority whose constant name is the upper-cased value. */
  lemma PriorityFilterIff(fs: TaskFields, key: string, value: string)
    requires ToLower(key) == "priority"
    ensures FilterHolds(fs, key, value) <==> fs.priority.Some? && PriorityName(fs.priority.value) == ToUpper(value)
  {
    if fs.priority.Some? {
      ParsePriorityIff(value, fs.priority.value);
    }
  }

  /** Filter names and filter values are both compared without regard to case. */
  lemma FilterIgnoresCase(fs: TaskFields, key: string, value: string)
    ensures FilterHolds(fs, ToLower(key), value) == FilterHolds(fs, key, value)
    ensures FilterHolds(fs, key, ToLower(value)) == FilterHolds(fs, key, value)
  {
    LowerOfLower(key);
    LowerOfLower(value);
    UpperOfLower(value);
  }

  /** A task without a title passes every title filter, and an empty title filter matches every task. */
  lemma TitleFilterPasses(fs: TaskFields, key: string, value: string)
    requires ToLower(key) == "title"
    ensures fs.title.None? ==> FilterHolds(fs, key, value)
    ensures FilterHolds(fs, key, "")
  {
    if fs.title.Some? {
      assert ToLower("") == "";
      assert OccursAt(ToLower(fs.title.value), "", 0);
    }
  }

  /** Filters under any other name never exclude a task. */
  lemma UnknownFilterIgnored(fs: TaskFields, filters: map<string, string>, key: string, value: string)
    requires ToLower(key) != "status" && ToLower(key) != "priority" && ToLower(key) != "title"
    ensures FiltersHold(fs, filters[key := value]) <==> FiltersHold(fs, filters - {key})
  {
    var with, without := filters[key := value], filters - {key};
    if FiltersHold(fs, without) {
      forall k | k in with ensures FilterHolds(fs, k, with[k]) {
        if k != key {
          assert k in without;
        }
      }
    }
    if FiltersHold(fs, with) {
      forall k | k in without ensures FilterHolds(fs, k, without[k]) {
        assert k in with && with[k] == without[k];
      }
    }
  }

  /** `ks` lists the keys of `m`, each once: an iteration order of the store. */
  ghost predicate Enumerates<T>(ks: seq<string>, m: map<string, T>) {
    ListsOnce(ks, m.Keys)
  }

  /** `ks` lists the elements of `seen`, each once. */
  ghost predicate ListsOnce(ks: seq<string>, seen: set<string>) {
    (forall i, j :: 0 <= i < j < |ks| ==> ks[i] != ks[j]) &&
    (forall k :: k in ks <==> k in seen) &&
    |ks| == |seen|
  }

  /** Listing one more unseen key keeps the listing exact. */
  lemma ListsOnceStep(ks: seq<string>, seen: set<string>, k: string)
    requires ListsOnce(ks, seen) && k !in seen
    ensures ListsOnce(ks + [k], seen + {k})
  {
  }

  /** The values stored under `ks`, in that order. */
  function ValuesAt<T>(m: map<string, T>, ks: seq<string>): (vs: seq<T>)
    requires forall k :: k in ks ==> k in m
    ensures |vs| == |ks|
    ensures forall i :: 0 <= i < |ks| ==> vs[i] == m[ks[i]]
  {
    seq(|ks|, i requires 0 <= i < |ks| => m[ks[i]])
  }

  /** Listing one more key appends its value. */
  lemma ValuesAtSnoc<T>(m: map<string, T>, ks: seq<string>, k: string)
    requires (forall j :: j in ks ==> j in m) && k in m
    ensures ValuesAt(m, ks + [k]) == ValuesAt(m, ks) + [m[k]]
  {
    var a, b := ValuesAt(m, ks + [k]), ValuesAt(m, ks) + [m[k]];
    forall i | 0 <= i < |a| ensures a[i] == b[i] {
      assert (ks + [k])[i] == if i < |ks| then ks[i] else k;
    }
  }

  /** Under an iteration order, the listed values are exactly the stored ones. */
  lemma ValuesAtMembers<T>(m: map<string, T>, ks: seq<string>)
    requires Enumerates(ks, m)
    ensures forall v :: v in ValuesAt(m, ks) <==> v in m.Values
  {
    var vs := ValuesAt(m, ks);
    forall v | v in m.Values ensures v in vs {
      var k :| k in m && m[k] == v;
      var i :| 0 <= i < |ks| && ks[i] == k;
      assert vs[i] == v;
    }
  }

  /** The tasks of `ts` that pass the filters, in their order: the stream filter of `listAll`. */
  function Selected(ts: seq<Task>, filters: map<string, string>): seq<Task>
    reads ts
  {
    if ts == [] then []
    else
      var last := ts[|ts| - 1];
      Selected(ts[..|ts| - 1], filters) + (if FiltersHold(last.Fields(), filters) then [last] else [])
  }

  /** Listing one more task selects it after the others exactly when it passes the filters. */
  lemma SelectedSnoc(ts: seq<Task>, t: Task, filters: map<string, string>)
    ensures Selected(ts + [t], filters) == Selected(ts, filters) + (if FiltersHold(t.Fields(), filters) then [t] else [])
  {
    assert (ts + [t])[..|ts|] == ts;
  }

  /** A task is selected exactly when it is listed and passes every filter. */
  lemma {:induction false} SelectedMembers(ts: seq<Task>, filters: map<string, string>)
    ensures forall t :: t in Selected(ts, filters) <==> t in ts && FiltersHold(t.Fields(), filters)
    ensures |Selected(ts, filters)| <= |ts|
  {
    if ts != [] {
      var init := ts[..|ts| - 1];
      SelectedMembers(init, filters);
      assert ts == init + [ts[|ts| - 1]];
    }
  }

  /** With no filters nothing is dropped. */
  lemma {:induction false} SelectedNoFilters(ts: seq<Task>)
    ensures Selected(ts, map[]) == ts
  {
    if ts != [] {
      SelectedNoFilters(ts[..|ts| - 1]);
      assert ts == ts[..|ts| - 1] + [ts[|ts| - 1]];
    }
  }

  /** A status (or priority) filter naming no constant excludes every task. */
  lemma {:induction false} UnknownConstantSelectsNothing(ts: seq<Task>, filters: map<string, string>, key: string)
    requires key in filters
    requires (ToLower(key) == "status" && ParseStatus(filters[key]).None?) ||
             (ToLower(key) == "priority" && ParsePriority(filters[key]).None?)
    ensures Selected(ts, filters) == []
  {
    if ts != [] {
      UnknownConstantSelectsNothing(ts[..|ts| - 1], filters, key);
      assert !FilterHolds(ts[|ts| - 1].Fields(), key, filters[key]);
    }
  }

  /** The single filter `status=todo` holds exactly for a task whose status is TODO. */
  lemma TodoFilterIff(fs: TaskFields)
    ensures FiltersHold(fs, map["status" := "todo"]) <==> fs.status == Some(Todo)
  {
    var filters := map["status" := "todo"];
    assert ToLower("status") == "status";
    assert ToUpper("todo") == StatusName(Todo);
    ParseStatusIff("todo", Todo);
    assert FiltersHold(fs, filters) <==> FilterHolds(fs, "status", "todo") by {
      assert "status" in filters && filters.Keys == {"status"};
    }
  }

  /** Three tasks with statuses TODO, TODO and DONE: the filter `status=todo` keeps exactly the first two. */
  lemma StatusFilterScenario(t1: Task, t2: Task, t3: Task)
    requires t1.status == Some(Todo) && t2.status == Some(Todo) && t3.status == Some(Done)
    ensures Selected([t1, t2, t3], map["status" := "todo"]) == [t1, t2]
  {
    var filters := map["status" := "todo"];
    TodoFilterIff(t1.Fields());
    TodoFilterIff(t2.Fields());
    TodoFilterIff(t3.Fields());
    assert Selected([], filters) == [];
    assert [t1] == [] + [t1];
    SelectedSnoc([], t1, filters);
    assert [t1, t2] == [t1] + [t2];
    SelectedSnoc([t1], t2, filters);
    assert [t1, t2, t3] == [t1, t2] + [t3];
    SelectedSnoc([t1, t2], t3, filters);
  }

  /** `Map<String, String> filters`, where `null` reads as no filter at all. */
  function FilterMap(filters: Option<map<string, string>>): map<string, string> {
    if filters.Some? then filters.value else map[]
  }

  class TaskStore {
    /** The `ConcurrentHashMap` from id to the stored task. */
    var store: map<string, Task>

    constructor ()
      ensures store == map[]
    {
      store := map[];
    }

    /** `get(id)`: the stored task itself, or empty. */
    function Get(id: string): (r: Option<Task>)
      reads this
      ensures r.Some? <==> id in store
      ensures r.Some? ==> r.value == store[id]
    {
      if id in store then Some(store[id]) else None
    }

    /** `exists(id)`. */
    function Exists(id: string): (b: bool)
      reads this
      ensures b <==> Get(id).Some?
    {
      id in store
    }

    /**
      * `create(entity)`: keeps a given id or takes `freshId`, keeps a given
      * `createdAt` or takes `now`, always sets `updatedAt` to `now`, and
      * stores the entity itself under its id, replacing any task there.
      */
    method Create(entity: Task, freshId: string, now: int) returns (r: Task)
      modifies this`store, entity`id, entity`createdAt, entity`updatedAt
      ensures r == entity
      ensures entity.id == (if old(entity.id).Some? then old(entity.id) else Some(freshId))
      ensures entity.createdAt == (if old(entity.createdAt).Some? then old(entity.createdAt) else Some(now))
      ensures entity.updatedAt == Some(now)
      ensures old(entity.createdAt).None? ==> entity.createdAt == entity.updatedAt
      ensures entity.Fields() == old(entity.Fields())
      ensures store == old(store)[entity.id.value := entity]
      ensures Get(entity.id.value) == Some(entity)
    {
      if entity.id.None? {
        entity.SetId(Some(freshId));
      }
      if entity.createdAt.None? {
        entity.SetCreatedAt(Some(now));
      }
      entity.SetUpdatedAt(Some(now));
      store := store[entity.id.value := entity];
      r := entity;
    }

    /** `batchGet(ids)`: a new collection holding every stored requested task, and 404 for the others. */
    method BatchGet(ids: seq<string>) returns (c: Collection<string, Task>)
      ensures fresh(c)
      ensures c.results == BatchResults(store, ids)
      ensures c.errors == BatchErrors(store, ids)
    {
      c := new Collection();
      var i := 0;
      while i < |ids|
        invariant 0 <= i <= |ids|
        invariant c.results == BatchResults(store, ids[..i])
        invariant c.errors == BatchErrors(store, ids[..i])
      {
        var entity := Get(ids[i]);
        if entity.Some? {
          c.AddResult(ids[i], entity.value);
        } else {
          c.AddError(ids[i], NotFoundCode);
        }
        assert ids[..i + 1] == ids[..i] + [ids[i]];
        i := i + 1;
      }
      assert ids[..i] == ids;
    }

    /**
      * `InMemoryStore.listAll(filters)`: every stored task, once per key, in
      * the store's iteration order. The base `matchesFilters` accepts every
      * entity, so the filters never drop anything.
      */
    method InMemoryListAll(filters: Option<map<string, string>>) returns (r: seq<Task>)
      ensures exists ks :: Enumerates(ks, store) && r == ValuesAt(store, ks)
      ensures forall t :: t in r <==> t in store.Values
      ensures |r| == |store|
    {
      ghost var ks: seq<string> := [];
      r := [];
      var remaining := store.Keys;
      while remaining != {}
        invariant remaining <= store.Keys
        invariant ListsOnce(ks, store.Keys - remaining)
        invariant r == ValuesAt(store, ks)
        decreases remaining
      {
        var k :| k in remaining;
        ListsOnceStep(ks, store.Keys - remaining, k);
        ValuesAtSnoc(store, ks, k);
        assert store.Keys - (remaining - {k}) == (store.Keys - remaining) + {k};
        ks := ks + [k];
        r := r + [store[k]];
        remaining := remaining - {k};
      }
      assert store.Keys - remaining == store.Keys;
      ValuesAtMembers(store, ks);
    }

    /**
      * `matchesTaskFilters(task, filters)`: visits the filters in any order
      * and returns false at the first one the task fails.
      */
    method MatchesTaskFilters(task: Task, filters: map<string, string>) returns (b: bool)
      ensures b <==> FiltersHold(task.Fields(), filters)
    {
      var remaining := filters.Keys;
      while remaining != {}
        invariant remaining <= filters.Keys
        invariant forall key :: key in filters.Keys - remaining ==> FilterHolds(task.Fields(), key, filters[key])
        decreases remaining
      {
        var key :| key in remaining;
        var name := ToLower(key);
        var value := filters[key];
        if name == "status" {
          var status := ParseStatus(value);
          if status.None? || task.status != status {
            return false;
          }
        } else if name == "priority" {
          var priority := ParsePriority(value);
          if priority.None? || task.priority != priority {
            return false;
          }
        } else if name == "title" {
          if task.title.Some? && !Contains(ToLower(task.title.value), ToLower(value)) {
            return false;
          }
        }
        remaining := remaining - {key};
      }
      return true;
    }

    /**
      * `TaskStore.listAll(filters)`: the stored tasks in iteration order,
      * keeping those that pass every filter; no filter (or `null`) keeps all.
      */
    method ListAll(filters: Option<map<string, string>>) returns (r: seq<Task>)
      ensures exists ks :: Enumerates(ks, store) && r == Selected(ValuesAt(store, ks), FilterMap(filters))
      ensures forall t :: t in r <==> t in store.Values && FiltersHold(t.Fields(), FilterMap(filters))
      ensures FilterMap(filters) == map[] ==> |r| == |store|
    {
      var all := InMemoryListAll(None);
      var fm := FilterMap(filters);
      if |fm| == 0 {
        SelectedNoFilters(all);
        r := all;
      } else {
        r := FilterTasks(all, fm);
      }
      SelectedMembers(all, fm);
      forall t ensures t in r <==> t in store.Values && FiltersHold(t.Fields(), fm) {
        assert t in all <==> t in store.Values;
      }
      ghost var ks :| Enumerates(ks, store) && all == ValuesAt(store, ks);
    }

    /** The stream filter of `listAll`: keeps, in order, the tasks `matchesTaskFilters` accepts. */
    method FilterTasks(all: seq<Task>, filters: map<string, string>) returns (r: seq<Task>)
      ensures r == Selected(all, filters)
    {
      r := [];
      var i := 0;
      while i < |all|
        invariant 0 <= i <= |all|
        invariant r == Selected(all[..i], filters)
      {
        var keep := MatchesTaskFilters(all[i], filters);
        assert all[..i + 1] == all[..i] + [all[i]];
        SelectedSnoc(all[..i], all[i], filters);
        if keep {
          r := r + [all[i]];
        }
        i := i + 1;
      }
      assert all[..i] == all;
    }

    /**
      * `update(id, entity)`: when `id` is stored, forces the entity's id to
      * `id`, stamps `updatedAt` with `now` and stores the entity under `id`;
      * otherwise changes nothing and returns empty.
      */
    method Update(id: string, entity: Task, now: int) returns (r: Option<Task>)
      modifies this`store, entity`id, entity`updatedAt
      ensures id !in old(store) ==> r.None? && store == old(store) && unchanged(entity)
      ensures id in old(store) ==> r == Some(entity) && store == old(store)[id := entity]
      ensures id in old(store) ==> entity.id == Some(id) && entity.updatedAt == Some(now)
      ensures entity.createdAt == old(entity.createdAt) && entity.Fields() == old(entity.Fields())
    {
      if !Exists(id) {
        return None;
      }
      entity.SetId(Some(id));
      entity.SetUpdatedAt(Some(now));
      store := store[id := entity];
      r := Some(entity);
    }

    /** `delete(id)`: true exactly when something was stored under `id`, which is then gone. */
    method Delete(id: string) returns (deleted: bool)
      modifies this`store
      ensures deleted <==> id in old(store)
      ensures store == old(store) - {id}
      ensures Get(id).None?
    {
      deleted := id in store;
      store := store - {id};
    }

    /** `InMemoryStore.patch`: the base store does not patch. */
    method InMemoryPatch(id: string, patch: map<string, Value>) returns (r: PatchResult)
      ensures r == Unsupported(PatchUnsupportedMessage)
    {
      r := Unsupported(PatchUnsupportedMessage);
    }

    /**
      * `TaskStore.patch(id, patchData)`: changes the stored task in place.
      * A missing id is not found. When every patched value converts, the
      * task holds the patched fields, its id is forced to `id` and its
      * `updatedAt` is `now`. When a conversion throws, the entries applied
      * before it stay applied and the timestamps are untouched.
      */
    method Patch(id: string, patch: map<string, Value>, now: int) returns (r: PatchResult)
      modifies this`store, if id in store then {store[id]} else {}
      ensures store == old(store)
      ensures id !in store ==> r == NotFound
      ensures id in store ==> (r.Patched? || r.Failed?) && (r.Patched? <==> PatchConvertible(patch))
      ensures r.Patched? ==> id in store && r.task == store[id]
      ensures r.Patched? ==> r.task.Fields() == PatchedFields(old(store[id].Fields()), patch)
      ensures r.Patched? ==> r.task.id == Some(id) && r.task.updatedAt == Some(now)
      ensures r.Failed? ==> id in store && store[id].id == old(store[id].id) && store[id].updatedAt == old(store[id].updatedAt)
      ensures r.Failed? ==> exists done ::
        done <= patch.Keys && ConvertibleOn(patch, done) &&
        store[id].Fields() == PatchedOn(old(store[id].Fields()), patch, done)
      ensures id in store ==> store[id].createdAt == old(store[id].createdAt)
    {
      var existing := Get(id);
      if existing.None? {
        return NotFound;
      }
      var task := existing.value;
      var error := task.ApplyPatch(patch);
      if error.Some? {
        return Failed(error.value);
      }
      task.SetUpdatedAt(Some(now));
      var updated := Update(id, task, now);
      assert store == old(store);
      r := Patched(updated.value);
    }
  }
}
