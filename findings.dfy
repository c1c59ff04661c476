/**
  `proximoId` is a C# `int`: `proximoId++` wraps from 2147483647 to
  -2147483648. This module models the counter as written and shows a
  session after which the store invariant fails; the rest of the model uses
  an unbounded counter, for which Tasks.AddPreservesInvariant holds.
 */
module Findings {
  import opened Wrappers
  import opened Tasks

  const MinInt32: int := -0x8000_0000
  const MaxInt32: int := 0x7fff_ffff

  /** `x++` on a 32-bit `int` in an unchecked context. */
  function WrapIncrement(x: int): (r: int)
    requires MinInt32 <= x <= MaxInt32
    ensures MinInt32 <= r <= MaxInt32
    ensures x < MaxInt32 ==> r == x + 1
    ensures x == MaxInt32 ==> r == MinInt32
  {
    (x - MinInt32 + 1) % 0x1_0000_0000 + MinInt32
  }

  /** Add as the source writes it: the task takes the counter's value, then the counter wraps. */
  function AddAsWritten(ts: seq<Task>, nextId: int, e: Entry): (r: (seq<Task>, int))
    requires MinInt32 <= nextId <= MaxInt32
    ensures MinInt32 <= r.1 <= MaxInt32
    ensures |r.0| == |ts| + 1 && r.0[..|ts|] == ts && r.0[|ts|].id == nextId
  {
    (ts + [NewTask(nextId, e.name, e.category, e.due)], WrapIncrement(nextId))
  }

  /** The state after `k` rounds of "add a task, then remove it by its id", from start-up. */
  function AddRemoveRounds(k: nat, e: Entry): (r: (seq<Task>, int))
    requires k <= MaxInt32 - 1
  {
    if k == 0 then ([], 1)
    else
      var (ts, n) := AddRemoveRounds(k - 1, e);
      if MinInt32 <= n <= MaxInt32 then
        var (ts', n') := AddAsWritten(ts, n, e);
        (RemoveById(ts', n), n')
      else (ts, n)
  }

  /** Each round leaves the list empty and advances the 32-bit counter by one. */
  lemma {:induction false} AddRemoveRoundsCount(k: nat, e: Entry)
    requires k <= MaxInt32 - 1
    ensures AddRemoveRounds(k, e) == ([], k + 1)
    decreases k
  {
    if k > 0 {
      AddRemoveRoundsCount(k - 1, e);
      var ts' := [NewTask(k, e.name, e.category, e.due)];
      assert FindIndex(ts', k) == Some(0);
      assert RemoveById(ts', k) == [];
    }
  }

  /**
    The counterexample: after 2147483646 add/remove rounds the counter is
    2147483647 and the store is valid; two more adds leave a task whose id is
    not below the counter, and ids that decrease in list order.
   */
  lemma AddAsWrittenBreaksInvariant(e: Entry)
    ensures var (ts0, n0) := AddRemoveRounds(MaxInt32 - 1, e);
      StoreInvariant(ts0, n0) && n0 == MaxInt32 &&
      var (ts1, n1) := AddAsWritten(ts0, n0, e);
      !IdsBelow(ts1, n1) &&
      var (ts2, n2) := AddAsWritten(ts1, n1, e);
      |ts2| == 2 && ts2[0].id == MaxInt32 && ts2[1].id == MinInt32 &&
      !IdsIncreasing(ts2)
  {
    AddRemoveRoundsCount(MaxInt32 - 1, e);
  }
}
