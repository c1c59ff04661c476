/**
  The task record (`Tarefa`) and the pure operations on the ordered task
  list: the `FirstOrDefault` search by id, the `Count` of completed tasks,
  and the list that results from completing, removing or adding a task.
  The store object that owns such a list is in module TaskStore.
 */
module Tasks {
  import opened Wrappers

  /** The calendar date a task is due; which strings parse to which date is not modelled. */
  datatype Date = Date(day: int, month: int, year: int)

  /** A task: `Id`, `Nome`, `Categoria`, `Prazo` and `Concluida`. */
  datatype Task = Task(id: int, name: string, category: string, due: Date, completed: bool)

  /** One line of user input for the add operation: name, category and parsed date. */
  datatype Entry = Entry(name: string, category: string, due: Date)

  /** The `Tarefa` constructor: the given fields, and not completed. */
  function NewTask(id: int, name: string, category: string, due: Date): (t: Task)
    ensures t.id == id && t.name == name && t.category == category && t.due == due
    ensures !t.completed
  {
    Task(id, name, category, due, false)
  }

  // ---------------------------------------------------------------------------
  // The store invariant

  /** Ids strictly increase in list order (and so are unique). */
  ghost predicate IdsIncreasing(ts: seq<Task>) {
    forall i, j :: 0 <= i < j < |ts| ==> ts[i].id < ts[j].id
  }

  /** No two positions of the list hold the same id. */
  ghost predicate IdsUnique(ts: seq<Task>) {
    forall i, j :: 0 <= i < |ts| && 0 <= j < |ts| && i != j ==> ts[i].id != ts[j].id
  }

  /** Every id was handed out by the counter: it lies in [1, nextId). */
  ghost predicate IdsBelow(ts: seq<Task>, nextId: int) {
    forall i :: 0 <= i < |ts| ==> 1 <= ts[i].id < nextId
  }

  /** What the list `tarefas` and the counter `proximoId` keep true between menu steps. */
  ghost predicate StoreInvariant(ts: seq<Task>, nextId: int) {
    1 <= nextId && IdsIncreasing(ts) && IdsBelow(ts, nextId)
  }

  lemma IncreasingIdsAreUnique(ts: seq<Task>)
    requires IdsIncreasing(ts)
    ensures IdsUnique(ts)
  {
  }

  // ---------------------------------------------------------------------------
  // Search by id: `tarefas.FirstOrDefault(t => t.Id == id)`

  /** The position of the first task whose id is `id`, if any. */
  function FindIndex(ts: seq<Task>, id: int): (r: Option<nat>)
    ensures r.Some? ==> r.value < |ts| && ts[r.value].id == id
    ensures r.Some? ==> forall j :: 0 <= j < r.value ==> ts[j].id != id
    ensures r.None? ==> forall j :: 0 <= j < |ts| ==> ts[j].id != id
    decreases |ts|
  {
    if |ts| == 0 then None
    else if ts[0].id == id then Some(0)
    else match FindIndex(ts[1..], id)
      case None => None
      case Some(i) => Some(i + 1)
  }

  /** The first task whose id is `id`; `None` plays the part of C#'s `null`. */
  function Lookup(ts: seq<Task>, id: int): (r: Option<Task>)
    ensures r.Some? ==> r.value in ts && r.value.id == id
    ensures r.None? <==> forall t :: t in ts ==> t.id != id
  {
    match FindIndex(ts, id)
    case None => None
    case Some(i) => Some(ts[i])
  }

  // ---------------------------------------------------------------------------
  // Complete: `tarefa.Concluida = true` on the task that was found

  /** The list after the first task with id `id` is marked completed; unchanged if there is none. */
  function MarkCompleted(ts: seq<Task>, id: int): (r: seq<Task>)
    ensures |r| == |ts|
    ensures forall k :: 0 <= k < |ts| ==> r[k].id == ts[k].id
  {
    match FindIndex(ts, id)
    case None => ts
    case Some(i) => ts[i := ts[i].(completed := true)]
  }

  /** In a store with unique ids, completing touches the task with that id and no other. */
  lemma MarkCompletedEffect(ts: seq<Task>, id: int)
    requires IdsIncreasing(ts)
    ensures forall k :: 0 <= k < |ts| ==>
      MarkCompleted(ts, id)[k] == if ts[k].id == id then ts[k].(completed := true) else ts[k]
  {
  }

  /** An id that no task has leaves the list as it was. */
  lemma MarkCompletedAbsent(ts: seq<Task>, id: int)
    requires forall t :: t in ts ==> t.id != id
    ensures MarkCompleted(ts, id) == ts
  {
  }

  /** Completing the same id twice is completing it once. */
  lemma MarkCompletedIdempotent(ts: seq<Task>, id: int)
    ensures MarkCompleted(MarkCompleted(ts, id), id) == MarkCompleted(ts, id)
  {
  }

  lemma MarkCompletedPreservesInvariant(ts: seq<Task>, nextId: int, id: int)
    requires StoreInvariant(ts, nextId)
    ensures StoreInvariant(MarkCompleted(ts, id), nextId)
  {
  }

  // ---------------------------------------------------------------------------
  // Remove: `tarefas.Remove(tarefa)` on the task that was found

  /** The list after the first task with id `id` is deleted; unchanged if there is none. */
  function RemoveById(ts: seq<Task>, id: int): (r: seq<Task>)
    ensures |r| == |ts| || |r| == |ts| - 1
    ensures forall t :: t in r ==> t in ts
  {
    match FindIndex(ts, id)
    case None => ts
    case Some(i) => ts[..i] + ts[i + 1..]
  }

  /** Removing a present id, found at `i`, drops exactly that task and keeps the others in their order. */
  lemma RemoveByIdEffect(ts: seq<Task>, id: int, i: nat)
    requires IdsIncreasing(ts)
    requires FindIndex(ts, id) == Some(i)
    ensures RemoveById(ts, id) == ts[..i] + ts[i + 1..]
    ensures |RemoveById(ts, id)| == |ts| - 1
    ensures multiset(RemoveById(ts, id)) + multiset{ts[i]} == multiset(ts)
    ensures forall t :: t in RemoveById(ts, id) ==> t.id != id
  {
    assert ts == ts[..i] + [ts[i]] + ts[i + 1..];
    RemovedIdGone(ts, i);
  }

  /** With increasing ids, deleting position `i` leaves no task with the id that was there. */
  lemma RemovedIdGone(ts: seq<Task>, i: nat)
    requires IdsIncreasing(ts) && i < |ts|
    ensures forall t :: t in ts[..i] + ts[i + 1..] ==> t.id != ts[i].id
  {
  }

  /** An id that no task has leaves the list as it was. */
  lemma RemoveByIdAbsent(ts: seq<Task>, id: int)
    requires forall t :: t in ts ==> t.id != id
    ensures RemoveById(ts, id) == ts
  {
  }

  lemma RemoveByIdPreservesInvariant(ts: seq<Task>, nextId: int, id: int)
    requires StoreInvariant(ts, nextId)
    ensures StoreInvariant(RemoveById(ts, id), nextId)
  {
  }

  // ---------------------------------------------------------------------------
  // Add: `tarefas.Add(new Tarefa(proximoId++, ...))`

  /** Appending a fresh task with the counter's id keeps the invariant for the incremented counter. */
  lemma AddPreservesInvariant(ts: seq<Task>, nextId: int, name: string, category: string, due: Date)
    requires StoreInvariant(ts, nextId)
    ensures StoreInvariant(ts + [NewTask(nextId, name, category, due)], nextId + 1)
  {
  }

  /** The tasks and the counter after adding `entries` one by one, in order. */
  function AddMany(ts: seq<Task>, nextId: int, entries: seq<Entry>): (r: (seq<Task>, int))
    decreases |entries|
  {
    if |entries| == 0 then (ts, nextId)
    else AddMany(ts + [NewTask(nextId, entries[0].name, entries[0].category, entries[0].due)],
                 nextId + 1, entries[1..])
  }

  /** Consecutive adds append in insertion order, with consecutive ids taken from the counter. */
  lemma {:induction false} AddManyAppends(ts: seq<Task>, nextId: int, entries: seq<Entry>)
    ensures var (r, n) := AddMany(ts, nextId, entries);
      n == nextId + |entries| &&
      |r| == |ts| + |entries| &&
      r[..|ts|] == ts &&
      forall k :: 0 <= k < |entries| ==>
        r[|ts| + k] == NewTask(nextId + k, entries[k].name, entries[k].category, entries[k].due)
    decreases |entries|
  {
    if |entries| > 0 {
      var e := entries[0];
      var ts' := ts + [NewTask(nextId, e.name, e.category, e.due)];
      AddManyAppends(ts', nextId + 1, entries[1..]);
      var (r, n) := AddMany(ts', nextId + 1, entries[1..]);
      assert r[..|ts'|] == ts';
      assert r[..|ts|] == ts'[..|ts|];
      forall k | 0 <= k < |entries|
        ensures r[|ts| + k] == NewTask(nextId + k, entries[k].name, entries[k].category, entries[k].due)
      {
        if k == 0 {
          assert r[|ts|] == ts'[|ts|];
        } else {
          assert entries[k] == entries[1..][k - 1];
          assert r[|ts| + k] == r[|ts'| + (k - 1)];
        }
      }
    }
  }

  /** From the empty store, N adds give N tasks in insertion order with ids 1..N, and the invariant holds. */
  lemma AddManyFromEmpty(entries: seq<Entry>)
    ensures var (r, n) := AddMany([], 1, entries);
      |r| == |entries| && n == |entries| + 1 &&
      (forall k :: 0 <= k < |entries| ==>
        r[k] == NewTask(k + 1, entries[k].name, entries[k].category, entries[k].due)) &&
      StoreInvariant(r, n)
  {
    var empty: seq<Task> := [];
    AddManyAppends(empty, 1, entries);
  }

  // ---------------------------------------------------------------------------
  // Summary: `tarefas.Count(t => t.Concluida)`

  function Flag(t: Task): (r: nat) {
    if t.completed then 1 else 0
  }

  /** The number of completed tasks. */
  function CountCompleted(ts: seq<Task>): (r: nat)
    ensures r <= |ts|
    decreases |ts|
  {
    if |ts| == 0 then 0 else Flag(ts[0]) + CountCompleted(ts[1..])
  }

  /** The ids of the completed tasks. */
  ghost function CompletedIds(ts: seq<Task>): set<int> {
    set t | t in ts && t.completed :: t.id
  }

  /** With unique ids, the count is the number of distinct completed ids. */
  lemma {:induction false} CountCompletedIsCardinality(ts: seq<Task>)
    requires IdsIncreasing(ts)
    ensures CountCompleted(ts) == |CompletedIds(ts)|
    decreases |ts|
  {
    if |ts| > 0 {
      var tail := ts[1..];
      assert IdsIncreasing(tail);
      CountCompletedIsCardinality(tail);
      CompletedIdsSplit(ts);
    }
  }

  /** The completed ids of a non-empty list: those of its head and those of its tail, disjoint. */
  lemma CompletedIdsSplit(ts: seq<Task>)
    requires IdsIncreasing(ts) && |ts| > 0
    ensures CompletedIds(ts) == (if ts[0].completed then {ts[0].id} else {}) + CompletedIds(ts[1..])
    ensures ts[0].id !in CompletedIds(ts[1..])
  {
  }

  lemma {:induction false} CountConcat(a: seq<Task>, b: seq<Task>)
    ensures CountCompleted(a + b) == CountCompleted(a) + CountCompleted(b)
    decreases |a|
  {
    if |a| == 0 {
      assert a + b == b;
    } else {
      assert (a + b)[1..] == a[1..] + b;
      CountConcat(a[1..], b);
    }
  }

  /** A new task is pending: adding one leaves the completed count as it was. */
  lemma AddCount(ts: seq<Task>, nextId: int, name: string, category: string, due: Date)
    ensures CountCompleted(ts + [NewTask(nextId, name, category, due)]) == CountCompleted(ts)
  {
    var t := NewTask(nextId, name, category, due);
    CountConcat(ts, [t]);
    assert [t][1..] == [];
  }

  /** Completing a pending task raises the count by one; anything else leaves it as it was. */
  lemma CompleteCount(ts: seq<Task>, id: int)
    ensures CountCompleted(MarkCompleted(ts, id)) ==
      match Lookup(ts, id)
      case None => CountCompleted(ts)
      case Some(t) => CountCompleted(ts) + 1 - Flag(t)
  {
    match FindIndex(ts, id)
    case None =>
    case Some(i) =>
      CountUpdate(ts, i, ts[i].(completed := true));
  }

  lemma {:induction false} CountUpdate(ts: seq<Task>, i: nat, v: Task)
    requires i < |ts|
    ensures CountCompleted(ts[i := v]) == CountCompleted(ts) - Flag(ts[i]) + Flag(v)
    decreases |ts|
  {
    if i == 0 {
      assert ts[i := v][1..] == ts[1..];
    } else {
      assert ts[i := v][1..] == ts[1..][i - 1 := v];
      CountUpdate(ts[1..], i - 1, v);
    }
  }

  /** Removing a task takes its flag off the count. */
  lemma RemoveCount(ts: seq<Task>, id: int)
    ensures CountCompleted(RemoveById(ts, id)) ==
      match Lookup(ts, id)
      case None => CountCompleted(ts)
      case Some(t) => CountCompleted(ts) - Flag(t)
  {
    match FindIndex(ts, id)
    case None =>
    case Some(i) =>
      assert ts == ts[..i] + [ts[i]] + ts[i + 1..];
      CountConcat(ts[..i], ts[i + 1..]);
      CountConcat(ts[..i] + [ts[i]], ts[i + 1..]);
      CountConcat(ts[..i], [ts[i]]);
      assert [ts[i]][1..] == [];
  }
}
