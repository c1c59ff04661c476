/**
  The command loop: the `switch` of `MostrarMenu` on the option line, one
  menu step against the store, and a run of steps that ends at Exit.
  Console reads are given as an Input; what would be printed is the Outcome.
 */
module Menu {
  import opened Wrappers
  import opened Tasks
  import opened TaskStore

  /** The six menu entries. */
  datatype Command = AddTask | ListTasks | CompleteTask | RemoveTask | ShowSummary | Exit

  /** The option line that selects a command. */
  function OptionKey(c: Command): (key: string) {
    match c
    case AddTask => "1"
    case ListTasks => "2"
    case CompleteTask => "3"
    case RemoveTask => "4"
    case ShowSummary => "5"
    case Exit => "6"
  }

  /** The `switch (opcao)`: exactly the six option lines select a command, each its own. */
  function ParseOption(s: string): (c: Option<Command>)
    ensures c.None? <==> s !in {"1", "2", "3", "4", "5", "6"}
    ensures c.Some? ==> OptionKey(c.value) == s
  {
    if s == "1" then Some(AddTask)
    else if s == "2" then Some(ListTasks)
    else if s == "3" then Some(CompleteTask)
    else if s == "4" then Some(RemoveTask)
    else if s == "5" then Some(ShowSummary)
    else if s == "6" then Some(Exit)
    else None
  }

  lemma OptionKeyRoundTrip(c: Command)
    ensures ParseOption(OptionKey(c)) == Some(c)
  {
  }

  /**
    What the user types during one menu step: the option line, and the lines
    the chosen operation reads, already parsed (`due` by `DateTime.TryParse`,
    `id` by `int.TryParse`). Lines an operation does not read are ignored.
   */
  datatype Input = Input(option: string, name: string, category: string, due: Option<Date>, id: Option<int>)

  /** One pass of `MostrarMenu`: read the option and run the operation it selects. */
  method Dispatch(store: Store, input: Input) returns (r: Outcome)
    requires store.Valid()
    modifies store
    ensures store.Valid() && old(store.nextId) <= store.nextId
    ensures ParseOption(input.option) == Some(AddTask) ==>
      if input.due.Some? then
        store.tasks == old(store.tasks) + [NewTask(old(store.nextId), input.name, input.category, input.due.value)] &&
        store.nextId == old(store.nextId) + 1 && r == Added
      else
        store.tasks == old(store.tasks) && store.nextId == old(store.nextId) && r == InvalidDate
    ensures ParseOption(input.option) == Some(CompleteTask) ==>
      store.nextId == old(store.nextId) &&
      store.tasks == if input.id.Some? then MarkCompleted(old(store.tasks), input.id.value) else old(store.tasks)
    ensures ParseOption(input.option) == Some(RemoveTask) ==>
      store.nextId == old(store.nextId) &&
      store.tasks == if input.id.Some? then RemoveById(old(store.tasks), input.id.value) else old(store.tasks)
    ensures ParseOption(input.option) in {Some(CompleteTask), Some(RemoveTask)} ==>
      r == match input.id
        case None => InvalidId
        case Some(n) => (match Lookup(old(store.tasks), n)
          case None => NotFound
          case Some(t) => if ParseOption(input.option) == Some(CompleteTask) then Completed(t.name) else Removed(t.name))
    ensures ParseOption(input.option) !in {Some(AddTask), Some(CompleteTask), Some(RemoveTask)} ==>
      store.tasks == old(store.tasks) && store.nextId == old(store.nextId)
    ensures ParseOption(input.option) == Some(ListTasks) ==> r == Listed(store.tasks)
    ensures ParseOption(input.option) == Some(ShowSummary) ==>
      r == Summarized(CountCompleted(store.tasks), |store.tasks| - CountCompleted(store.tasks))
    ensures r == Exited <==> ParseOption(input.option) == Some(Exit)
    ensures r == InvalidOption <==> ParseOption(input.option).None?
  {
    match ParseOption(input.option)
    case None =>
      r := InvalidOption;
    case Some(AddTask) =>
      r := store.Add(input.name, input.category, input.due);
    case Some(ListTasks) =>
      var ts := store.List();
      r := Listed(ts);
    case Some(CompleteTask) =>
      r := store.Complete(input.id);
    case Some(RemoveTask) =>
      r := store.Remove(input.id);
    case Some(ShowSummary) =>
      var done, pending := store.Summary();
      r := Summarized(done, pending);
    case Some(Exit) =>
      r := Exited;
  }

  /**
    The `while (true)` loop of `Main` over a finite stretch of input: steps run
    in order until one selects Exit, which ends the session.
   */
  method Run(store: Store, inputs: seq<Input>) returns (consumed: nat, exited: bool)
    requires store.Valid()
    modifies store
    ensures store.Valid() && old(store.nextId) <= store.nextId
    ensures consumed <= |inputs|
    ensures exited ==> 0 < consumed && ParseOption(inputs[consumed - 1].option) == Some(Exit)
    ensures !exited ==> consumed == |inputs|
    ensures forall k :: 0 <= k < consumed && (k < consumed - 1 || !exited) ==>
      ParseOption(inputs[k].option) != Some(Exit)
  {
    consumed, exited := 0, false;
    while consumed < |inputs| && !exited
      invariant store.Valid() && old(store.nextId) <= store.nextId
      invariant consumed <= |inputs|
      invariant exited ==> 0 < consumed && ParseOption(inputs[consumed - 1].option) == Some(Exit)
      invariant forall k :: 0 <= k < consumed && (k < consumed - 1 || !exited) ==>
        ParseOption(inputs[k].option) != Some(Exit)
      decreases |inputs| - consumed, !exited
    {
      var r := Dispatch(store, inputs[consumed]);
      consumed := consumed + 1;
      exited := r == Exited;
    }
  }

  /** A session: add a task, complete it, remove it, then ask for the summary. */
  method BuyMilkSession() {
    var store := new Store();
    var due := Date(1, 1, 2025);
    var milk := Task(1, "Buy milk", "Personal", due, false);
    var r := store.Add("Buy milk", "Personal", Some(due));
    assert store.tasks == [milk];
    var listed := store.List();
    assert listed == [milk];
    assert FindIndex([milk], 1) == Some(0);
    r := store.Complete(Some(1));
    assert r == Completed("Buy milk");
    assert store.tasks == [milk.(completed := true)];
    assert FindIndex(store.tasks, 1) == Some(0);
    r := store.Remove(Some(1));
    assert r == Removed("Buy milk");
    assert store.tasks == [];
    var done, pending := store.Summary();
    assert done == 0 && pending == 0;
  }

  /** A session of failures: a date that does not parse, an unknown id, an unknown option. */
  method FailureSession() {
    var store := new Store();
    var r := Dispatch(store, Input("1", "Buy milk", "Personal", None, None));
    assert r == InvalidDate && store.tasks == [] && store.nextId == 1;
    r := Dispatch(store, Input("3", "", "", None, Some(99)));
    assert r == NotFound && store.tasks == [];
    r := Dispatch(store, Input("4", "", "", None, None));
    assert r == InvalidId && store.tasks == [];
    r := Dispatch(store, Input("7", "", "", None, None));
    assert r == InvalidOption && store.tasks == [] && store.nextId == 1;
  }
}
