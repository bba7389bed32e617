/** Worked runs of the round-robin scheduler with one process arriving at 0 and a
    quantum of 3. With a burst of 7, the first pass runs it for one quantum, the clock
    then ticks once more, and the loop ends because the process has a row: 4 units of
    the burst are never run. With a burst of 2, the one pass finishes it, and its slice
    is recorded as starting a whole quantum before the clock, at -1. */
module RoundRobinExample {
  import opened Processes
  import opened Timing
  import opened RoundRobin

  const Long: seq<Process> := [Process(1, 0, 7, 1)]
  const Short: seq<Process> := [Process(1, 0, 2, 1)]

  /** The state after the one pass over `Long`. */
  const LongEnd: Ledger := Ledger(4, 0, 0, [0], [4], [RoundRobinRow(1, 1, 7, 0, 0, 0)], [TimeSlice(1, 0, 3)])

  /** The state after the one pass over `Short`. */
  const ShortEnd: Ledger := Ledger(2, 2, 0, [0], [0], [RoundRobinRow(1, 1, 2, 0, 0, 0)], [TimeSlice(1, -1, 2)])

  lemma LongPass()
    ensures RoundRobinStep(Long, 3, InitialLedger(Long)) == LongEnd
  {
    var s := InitialLedger(Long);
    assert s == Ledger(0, 0, 0, [0], [7], [], []);
    assert !HasPid([], 1);
    var w := Scan(Long, 3, s, 1);
    assert w.ledger == Ledger(3, 0, 0, [0], [4], [RoundRobinRow(1, 1, 7, 0, 0, 0)], [TimeSlice(1, 0, 3)]);
    assert !w.completed;
    assert HasPid(LongEnd.schedule, 1) by {
      assert LongEnd.schedule[0].id == 1;
    }
  }

  lemma ShortPass()
    ensures RoundRobinStep(Short, 3, InitialLedger(Short)) == ShortEnd
  {
    var s := InitialLedger(Short);
    assert s == Ledger(0, 0, 0, [0], [2], [], []);
    assert !HasPid([], 1);
    var w := Scan(Short, 3, s, 1);
    assert w.ledger == ShortEnd;
    assert w.completed;
  }

  /** The states after zero and one passes (`k` names the second, so that the verifier
      does not evaluate the run on its own). */
  lemma {:induction false} OnePass(k: nat)
    requires k == 1
    ensures RoundRobinAfter(Long, 3, k - 1) == InitialLedger(Long)
    ensures RoundRobinAfter(Long, 3, k) == LongEnd
    ensures RoundRobinAfter(Short, 3, k - 1) == InitialLedger(Short)
    ensures RoundRobinAfter(Short, 3, k) == ShortEnd
  {
    LongPass();
    ShortPass();
  }

  /** Each run stops after its first pass. */
  lemma {:induction false} OnePassEach(k: nat)
    requires k == 1
    ensures RoundRobinInput(Long, 3) && RoundRobinInput(Short, 3)
    ensures RoundRobinPassesFrom(Long, 3, k - 1) == 1 && RoundRobinPassesFrom(Short, 3, k - 1) == 1
  {
    OnePass(k);
    assert InitialLedger(Long).schedule == [];
    assert InitialLedger(Short).schedule == [];
  }

  /** With burst 7, the run reports a single slice from 0 to 3 and leaves 4 units of
      work; with burst 2, it reports the slice from -1 to 2 and a turnaround total of 2.
      In both the last completion time is still 0. */
  lemma OneProcessRuns()
    ensures RoundRobinInput(Long, 3) && RoundRobinInput(Short, 3)
    ensures RoundRobinPasses(Long, 3) == 1 && RoundRobinRun(Long, 3) == LongEnd
    ensures RoundRobinPasses(Short, 3) == 1 && RoundRobinRun(Short, 3) == ShortEnd
  {
    OnePassEach(1);
    OnePass(1);
  }
}
