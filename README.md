# Task manager store, modelled in Dafny

Gerenciador de Tarefas is a console task manager written in C#. A user adds tasks (`Tarefa`: id, name, category, due date, completed flag). They can also list, complete and remove tasks and ask for a summary, all from a six-entry menu. State lives in memory only. There is the list `tarefas` and the id counter `proximoId`, which starts at 1 and which each add increments.

This project models that core:

- `wrappers.dfy`: module `Wrappers` defines `Option`. It stands for a `FirstOrDefault` that finds nothing and for a `TryParse` that fails.
- `tasks.dfy`: module `Tasks` holds the task record, the store invariant and the pure operations on the list. These are the search by id, marking completed, removal, appending, and the count of completed tasks. It also holds the lemmas about them.
- `store.dfy`: module `TaskStore` has class `Store`, which owns the list and the counter. The source keeps them as static fields of `Program`. Its methods are the store logic of each menu entry. Each method returns an `Outcome` saying which message the entry ends with.
- `menu.dfy`: module `Menu` holds the `switch` on the option line (`ParseOption`) and one menu step (`Dispatch`). `Run` is the `while (true)` loop over a finite run of input that stops at Exit. Two client sessions (`BuyMilkSession`, `FailureSession`) show what callers can conclude from the contracts.
- `findings.dfy`: module `Findings` models the 32-bit wrap-around of `proximoId++` (see Findings).

The store invariant (`Tasks.StoreInvariant`, kept by `Store.Valid`) says three things. The counter is at least 1. Ids strictly increase in list order, so they are unique. Every id lies in `[1, proximoId)`. Every store method that changes the store, and `Dispatch`, requires and ensures it, and none lets the counter decrease.

`AdicionarTarefa` returns nothing: it prints a message, and creates no task when the date does not parse (program.cs:96-104). `Store.Add` returns that message as an `Outcome`.

## Model

| member | source | states |
|---|---|---|
| `Tasks.NewTask` | program.cs:15-22 | a new task has exactly the given id, name, category and due date, and is not completed |
| `Tasks.IncreasingIdsAreUnique` | program.cs:98 | ids that strictly increase in list order are unique |
| `Tasks.FindIndex` | program.cs:138 | the search by id gives the first position holding that id; no earlier position holds it; when it finds nothing, no task has the id |
| `Tasks.Lookup` | program.cs:166-167 | `FirstOrDefault` gives a task of the list with that id, and gives nothing exactly when no task has the id |
| `Tasks.MarkCompleted` | program.cs:138-141 | completing keeps the length and every id in place |
| `Tasks.MarkCompletedEffect` | program.cs:141 | in a valid list, completing sets `completed` on the task with that id and changes no other task or field |
| `Tasks.MarkCompletedAbsent` | program.cs:144-147 | completing an id no task has leaves the list unchanged |
| `Tasks.MarkCompletedIdempotent` | program.cs:141 | completing the same id twice gives the same list as completing it once |
| `Tasks.MarkCompletedPreservesInvariant` | program.cs:141 | completing keeps the store invariant |
| `Tasks.CompleteCount` | program.cs:141 | completing a pending task raises the completed count by one; otherwise the count is unchanged |
| `Tasks.RemoveById` | program.cs:166-169 | removal drops at most one task and adds no task |
| `Tasks.RemoveByIdEffect` | program.cs:169 | removing a present id drops one task; the rest keep their relative order (`ts[..i] + ts[i+1..]`); the multiset loses only that task; no remaining task has the id |
| `Tasks.RemoveByIdAbsent` | program.cs:172-175 | removing an id no task has leaves the list unchanged |
| `Tasks.RemoveByIdPreservesInvariant` | program.cs:169 | removal keeps the store invariant |
| `Tasks.RemoveCount` | program.cs:169 | removing a task takes its completed flag off the completed count |
| `Tasks.AddPreservesInvariant` | program.cs:98 | appending a task with id `proximoId` and then incrementing the counter keeps the store invariant |
| `Tasks.AddManyAppends` | program.cs:98 | N consecutive adds append N tasks after the existing ones, in input order, with ids `proximoId` .. `proximoId + N - 1`; the counter ends N higher |
| `Tasks.AddManyFromEmpty` | program.cs:98 | from start-up, N adds give exactly N tasks in insertion order with ids 1..N, and the store invariant holds |
| `Tasks.AddCount` | program.cs:98 | a new task is pending: adding leaves the completed count unchanged |
| `Tasks.CountCompleted` | program.cs:190 | the completed count never exceeds the number of tasks |
| `Tasks.CountCompletedIsCardinality` | program.cs:190 | in a valid list, the completed count equals the number of distinct ids of completed tasks |
| `TaskStore.Store.constructor` | program.cs:33-34 | the store starts with no tasks and counter 1, and is valid |
| `TaskStore.Store.Add` | program.cs:96-104 | when the date parses: exactly one task `NewTask(old proximoId, …)` is appended at the end, earlier tasks are unchanged and in order, the counter rises by one, and a success outcome is returned. When it does not parse: tasks and counter are unchanged and an invalid-date outcome is returned. Either way the invariant holds |
| `TaskStore.Store.List` | program.cs:109-127 | gives all tasks in insertion order; the store is unchanged |
| `TaskStore.Store.Complete` | program.cs:136-152 | an id that fails to parse leaves the store unchanged and reports an invalid id. An absent id leaves it unchanged and reports not-found. A present id marks that task completed and reports its name. The counter is unchanged and the invariant holds |
| `TaskStore.Store.Remove` | program.cs:164-180 | an id that fails to parse leaves the store unchanged and reports an invalid id. An absent id leaves it unchanged and reports not-found. A present id removes that task and reports its name. The counter is unchanged and the invariant holds |
| `TaskStore.Store.Summary` | program.cs:190-191 | `concluidas` is the number of completed tasks, also the number of distinct completed ids; `pendentes` is the rest; both are non-negative and together they are the number of tasks |
| `Menu.ParseOption` | program.cs:57-80 | exactly the lines "1".."6" select a command, and each command is selected by its own line |
| `Menu.OptionKeyRoundTrip` | program.cs:48-53 | each menu entry's number selects that entry |
| `Menu.Dispatch` | program.cs:56-81 | one menu step. "1", "3" and "4" change the store as Add, Complete and Remove state. Every other line changes nothing, including the read-only "2" and "5". "2" returns the list, "5" the two counts, "6" the exit outcome, and anything else the invalid-option outcome. The invariant holds and the counter never decreases |
| `Menu.Run` | program.cs:38-41 | the loop runs menu steps in order until the first "6" or the end of input; the invariant holds throughout and the counter never decreases |
| `Findings.WrapIncrement` | program.cs:98 | `x++` on a 32-bit int adds one below 2147483647 and wraps 2147483647 to -2147483648 |
| `Findings.AddAsWritten` | program.cs:98 | add with the 32-bit counter appends one task with the counter's old value and keeps the counter in 32-bit range |
| `Findings.AddRemoveRoundsCount` | program.cs:98 | k rounds of add-then-remove-by-id from start-up leave no tasks and the counter at k + 1 |
| `Findings.AddAsWrittenBreaksInvariant` | program.cs:98 | from a valid, reachable store with counter 2147483647, one add leaves a task id that is not below the counter; a second add puts id -2147483648 after id 2147483647 |

## Left out

- Console I/O is not modelled: `Console.Clear`, `ReadLine`, `WriteLine`, the colours of `EscreverComCor`, and `Pausar` (program.cs:206-217). The message an operation prints is its `Outcome` value instead.
- `DateTime.TryParse` and `int.TryParse` are not modelled. They depend on the locale and on the .NET library. Their results are `Option` inputs, and `Date` is a plain (day, month, year) value without the time of day.
- `Tarefa.ToString` (program.cs:24-28) is not modelled. It is output formatting: ANSI colour codes and a `dd/MM/yyyy` date.
- The `ListarTarefas` call at the start of complete and remove (program.cs:134, 162) is not modelled. It prints the list and waits for Enter, because its `Pausar` reads and discards one line (program.cs:126, 216). It does not touch the store.
- `Environment.Exit(0)` (program.cs:203) is not modelled; option "6" returns the `Exited` outcome, and `Run` stops there. The unbounded `while (true)` is modelled only over a finite sequence of inputs.
- A `null` option line (end of input) is not modelled. The source sends it to the default branch like any unknown line.
- `Tarefa` is a reference type and completion mutates the object in place. The model holds tasks as values and replaces the list element. No reference to a task escapes the list, so no aliasing can be observed. `List.Remove` removes by reference, which is the found index because each task is a distinct object.
- `Menu.Run`: states the invariant, the counter's monotonicity and where the run stops, not the store after each step; `Menu.Dispatch` states that per step.
- `TaskStore.Store.Add`: uses an unbounded counter, not the source's 32-bit `int`; the wrap-around is modelled separately in module `Findings`.

## Findings

| source | as written | input that shows it | evidently intended | confidence | as-written member | corrected member |
|---|---|---|---|---|---|---|
| program.cs:34, 98 | `proximoId` is a 32-bit `int` and `proximoId++` wraps from 2147483647 to -2147483648 | 2147483646 rounds of add a task and remove it (the list stays empty, the counter reaches 2147483647), then add twice: the tasks get ids 2147483647 and -2147483648, out of order, and the counter -2147483647 is below the first id | ids are unique, increase in insertion order, and stay below the counter for the whole run (a wider or checked counter) | not executed; follows from C# unchecked `int` arithmetic | `Findings.AddAsWrittenBreaksInvariant` | `Tasks.AddPreservesInvariant` |
