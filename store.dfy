/**
  The task store: the list `tarefas` and the counter `proximoId`, which the
  source keeps as static fields of `Program`, held here by one object that the
  menu is handed. Each operation is the store logic of one menu entry; what
  that entry prints is returned as an Outcome.
 */
module TaskStore {
  import opened Wrappers
  import opened Tasks

  /** The message an operation ends with. */
  datatype Outcome =
    | Added                              // "Tarefa adicionada com sucesso!"
    | InvalidDate                        // "Data inválida. Tente novamente."
    | Listed(tasks: seq<Task>)           // the task lines, or "Nenhuma tarefa cadastrada."
    | Completed(name: string)            // "Tarefa '<name>' concluída com sucesso!"
    | Removed(name: string)              // "Tarefa '<name>' removida com sucesso!"
    | NotFound                           // "Tarefa não encontrada."
    | InvalidId                          // "ID inválido."
    | Summarized(done: int, pending: int)
    | Exited                             // the farewell line, then the process ends
    | InvalidOption                      // "Opção inválida! ..."

  class Store {
    var tasks: seq<Task>
    var nextId: int

    ghost predicate Valid()
      reads this
    {
      StoreInvariant(tasks, nextId)
    }

    /** The state at start-up: no tasks, and the first id handed out is 1. */
    constructor ()
      ensures Valid()
      ensures tasks == [] && nextId == 1
    {
      tasks := [];
      nextId := 1;
    }

    /** Add Task; `due` is the result of parsing the date line. */
    method Add(name: string, category: string, due: Option<Date>) returns (r: Outcome)
      requires Valid()
      modifies this
      ensures Valid()
      ensures due.Some? ==>
        r == Added &&
        tasks == old(tasks) + [NewTask(old(nextId), name, category, due.value)] &&
        nextId == old(nextId) + 1
      ensures due.None? ==>
        r == InvalidDate && tasks == old(tasks) && nextId == old(nextId)
    {
      match due
      case None =>
        r := InvalidDate;
      case Some(d) =>
        AddPreservesInvariant(tasks, nextId, name, category, d);
        tasks := tasks + [NewTask(nextId, name, category, d)];
        nextId := nextId + 1;
        r := Added;
    }

    /** List Tasks: every task, in insertion order. */
    method List() returns (ts: seq<Task>)
      ensures ts == tasks
    {
      ts := tasks;
    }

    /** Complete Task; `id` is the result of parsing the id line. */
    method Complete(id: Option<int>) returns (r: Outcome)
      requires Valid()
      modifies this
      ensures Valid() && nextId == old(nextId)
      ensures tasks == if id.Some? then MarkCompleted(old(tasks), id.value) else old(tasks)
      ensures r == match id
        case None => InvalidId
        case Some(n) => (match Lookup(old(tasks), n)
          case None => NotFound
          case Some(t) => Completed(t.name))
    {
      match id
      case None =>
        r := InvalidId;
      case Some(n) =>
        var found := FindIndex(tasks, n);
        match found
        case None =>
          r := NotFound;
        case Some(i) =>
          MarkCompletedPreservesInvariant(tasks, nextId, n);
          tasks := tasks[i := tasks[i].(completed := true)];
          r := Completed(tasks[i].name);
    }

    /** Remove Task; `id` is the result of parsing the id line. */
    method Remove(id: Option<int>) returns (r: Outcome)
      requires Valid()
      modifies this
      ensures Valid() && nextId == old(nextId)
      ensures tasks == if id.Some? then RemoveById(old(tasks), id.value) else old(tasks)
      ensures r == match id
        case None => InvalidId
        case Some(n) => (match Lookup(old(tasks), n)
          case None => NotFound
          case Some(t) => Removed(t.name))
    {
      match id
      case None =>
        r := InvalidId;
      case Some(n) =>
        var found := FindIndex(tasks, n);
        match found
        case None =>
          r := NotFound;
        case Some(i) =>
          RemoveByIdPreservesInvariant(tasks, nextId, n);
          r := Removed(tasks[i].name);
          tasks := tasks[..i] + tasks[i + 1..];
    }

    /** Summary: completed and pending counts, which together are the number of tasks. */
    method Summary() returns (done: nat, pending: nat)
      requires Valid()
      ensures done == CountCompleted(tasks)
      ensures done == |CompletedIds(tasks)|
      ensures done + pending == |tasks|
    {
      done := CountCompleted(tasks);
      pending := |tasks| - done;
      CountCompletedIsCardinality(tasks);
    }
  }
}
