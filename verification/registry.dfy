/**
 * The invariant of the task registry (src/core/server.ts), stated over its
 * values: the keys and the order they were added in, the task objects stored
 * under them, and the broadcasts sent so far. Each lemma says how one change
 * of the registry keeps a part of it.
 */
module Registry {
  import opened Common
  import opened Ids
  import opened Tasks
  import opened Room

  /** The keys: distinct, in map order, already issued, and no task object stored twice. */
  ghost predicate KeysOk(order: seq<string>, m: map<string, Task>, last: nat) {
    && Distinct(order)
    && (forall k :: k in m <==> k in order)
    && (forall k :: k in m ==> k in Issued(last))
    && Injective(m)
  }

  /** No task object is stored under two keys. */
  ghost predicate Injective(m: map<string, Task>) {
    forall j, k :: j in m && k in m && j != k ==> m[j] != m[k]
  }

  /**
   * The tasks whose listeners were wired, under the id they relay with: every task in the
   * map among them under the same id, every id issued, no task wired twice. A closed task
   * leaves the map but keeps its listeners.
   */
  ghost predicate Wired(m: map<string, Task>, wired: map<string, Task>, last: nat) {
    && (forall k :: k in m ==> k in wired && wired[k] == m[k])
    && (forall k :: k in wired ==> k in Issued(last))
    && Injective(wired)
  }

  /** Every task in the map is valid. */
  ghost predicate TasksOk(m: map<string, Task>)
    reads m.Values
  {
    forall k :: k in m ==> m[k].Valid()
  }

  /** The tasks stored under keys other than `id`. */
  function Others(m: map<string, Task>, id: string): set<Task> {
    set k | k in m && k != id :: m[k]
  }

  /** Every task other than the one under `id` is valid. */
  ghost predicate ValidBut(m: map<string, Task>, id: string)
    reads Others(m, id)
  {
    forall k :: k in m && k != id ==> m[k].Valid()
  }

  /** In a map with no task stored twice, the task under `id` is none of the others. */
  lemma NotOther(m: map<string, Task>, id: string)
    requires Injective(m) && id in m && TasksOk(m)
    ensures m[id] !in Others(m, id) && ValidBut(m, id)
  {
  }

  lemma TasksJoin(m: map<string, Task>, id: string)
    requires id in m && ValidBut(m, id) && m[id].Valid()
    ensures TasksOk(m)
  {
  }

  lemma TasksAdd(m: map<string, Task>, id: string, t: Task)
    requires TasksOk(m) && t.Valid()
    ensures TasksOk(m[id := t])
  {
  }

  /** Deleting a key keeps the keys in order and distinct. */
  lemma KeysRemove(order: seq<string>, m: map<string, Task>, last: nat, id: string)
    requires KeysOk(order, m, last)
    ensures KeysOk(RemoveKey(order, id), m - {id}, last)
  {
    RemoveKeyDistinct(order, id);
  }

  /** Adding a task under an issued key not yet present keeps the keys distinct and issued. */
  lemma KeysInsert(order: seq<string>, m: map<string, Task>, last: nat, id: string, t: Task)
    requires KeysOk(order, m, last) && id in Issued(last) && id !in m && t !in m.Values
    ensures KeysOk(order + [id], m[id := t], last)
  {
  }

  /** Storing and wiring a new task under a new, issued id. */
  lemma WiredInsert(m: map<string, Task>, wired: map<string, Task>, last: nat, id: string, t: Task)
    requires Wired(m, wired, last) && id in Issued(last) && id !in wired && t !in wired.Values
    ensures Wired(m[id := t], wired[id := t], last)
  {
  }

  /** Every task in the map is among the wired ones. */
  lemma WiredValues(m: map<string, Task>, wired: map<string, Task>, last: nat)
    requires Wired(m, wired, last)
    ensures m.Values <= wired.Values
  {
    forall t | t in m.Values ensures t in wired.Values {
      var k :| k in m && m[k] == t;
      assert wired[k] == t;
    }
  }

  /** A task whose key was deleted from the map is held under no other key. */
  lemma WiredGone(m: map<string, Task>, wired: map<string, Task>, last: nat, id: string)
    requires Wired(m, wired, last) && id in wired && id !in m
    ensures wired[id] !in m.Values
  {
  }

  /** Deleting a key from the map keeps its task wired. */
  lemma WiredRemove(m: map<string, Task>, wired: map<string, Task>, last: nat, id: string)
    requires Wired(m, wired, last)
    ensures Wired(m - {id}, wired, last)
  {
  }

  /** Moving the counter on keeps the wired ids issued, and the next id is not wired yet. */
  lemma WiredNext(m: map<string, Task>, wired: map<string, Task>, last: nat)
    requires Wired(m, wired, last)
    ensures Wired(m, wired, last + 1) && IdOf(last + 1) !in wired
  {
    IssuedNext(last);
  }

  /** `m2` keeps every entry of `m1`. */
  ghost predicate Extends(m2: map<string, Task>, m1: map<string, Task>) {
    forall k :: k in m1 ==> k in m2 && m2[k] == m1[k]
  }

  /** Adding a new key to a map that keeps every entry of `m1` still keeps them. */
  lemma ExtendsAdd(m: map<string, Task>, m1: map<string, Task>, id: string, t: Task)
    requires Extends(m, m1) && id !in m
    ensures Extends(m[id := t], m1)
  {
  }

  /** The names of the tasks stored under `ids`, in order; an id with no task names nothing. */
  function NamesOf(m: map<string, Task>, ids: seq<string>): seq<string> {
    if ids == [] then []
    else
      var k := ids[|ids| - 1];
      NamesOf(m, ids[..|ids| - 1]) + (if k in m then [m[k].name] else [])
  }

  /** Storing a task under a key outside `ids` leaves their names alone. */
  lemma {:induction false} NamesOfOther(m: map<string, Task>, ids: seq<string>, id: string, t: Task)
    requires id !in ids
    ensures NamesOf(m[id := t], ids) == NamesOf(m, ids)
  {
    if ids != [] {
      NamesOfOther(m, ids[..|ids| - 1], id, t);
    }
  }

  /** Storing a task under a new key names one more id, and the others as before. */
  lemma NamesOfAdd(m: map<string, Task>, ids: seq<string>, id: string, t: Task)
    requires id !in ids
    ensures NamesOf(m[id := t], ids + [id]) == NamesOf(m, ids) + [t.name]
  {
    assert (ids + [id])[..|ids|] == ids;
    NamesOfOther(m, ids, id, t);
  }

  /** A `close` broadcast announces no task. */
  lemma CreatedAfterClose(room: seq<Broadcast>, id: string)
    ensures CreatedIds(room + [Closed(id)]) == CreatedIds(room)
  {
    CreatedIdsConcat(room, [Closed(id)]);
    assert CreatedIds([Closed(id)]) == {};
  }
}
