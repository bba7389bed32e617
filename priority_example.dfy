/** A worked run of the priority scheduler: process 1 arrives at 0 with burst 5 and
    priority 2, process 2 arrives at 1 with burst 3 and priority 1. As written, process
    1 is dispatched five times at time 0 and finishes; the clock then moves to 1, and
    process 2 is dispatched once, which gives it a row and ends the loop with two units
    of its burst never run. */
module PriorityExample {
  import opened Processes
  import opened Timing
  import opened Priority

  const Two: seq<Process> := [Process(1, 0, 5, 2), Process(2, 1, 3, 1)]

  const FirstRow: Row := Row(1, 2, 5, 0, 0, 0, 5)
  const SecondRow: Row := Row(2, 1, 3, 1, 0, 1, 4)
  const Tick: TimeSlice := TimeSlice(1, 0, 1)

  lemma TwoInput()
    ensures PriorityInput(Two)
  {
  }

  /** A busy pass from the state after `k` passes, dispatching `sel`. */
  lemma BusyPass(k: nat, sel: nat)
    requires PriorityInput(Two)
    requires SelectAmong(Two, PriorityAfter(Two, k).remainingTime, PriorityAfter(Two, k).serviceTime, 2) == sel
    ensures PriorityAfter(Two, k + 1) == PriorityDispatch(Two, PriorityAfter(Two, k), sel)
  {
    PriorityAfterInvariant(Two, k);
    PriorityStepDispatches(Two, PriorityAfter(Two, k));
  }

  /** An idle pass from the state after `k` passes. */
  lemma IdlePass(k: nat)
    requires PriorityInput(Two)
    requires SelectAmong(Two, PriorityAfter(Two, k).remainingTime, PriorityAfter(Two, k).serviceTime, 2) < 0
    ensures PriorityAfter(Two, k + 1) == PriorityAfter(Two, k).(serviceTime := PriorityAfter(Two, k).serviceTime + 1)
  {
    PriorityAfterInvariant(Two, k);
    PriorityIdleTick(Two, PriorityAfter(Two, k));
  }

  /** The state after `n` of the first five passes: process 1 has been dispatched `n`
      times at time 0; the fifth dispatch finishes it. */
  function FirstRunning(n: nat): Ledger
    requires n <= 5
  {
    Ledger(0, if n == 5 then 1 else 0, if n == 5 then 1 else 0, [0, 0], [5 - n, 3],
           if n == 0 then [] else [FirstRow], Ticks(n))
  }

  /** `n` unit slices of process 1 at time 0. */
  function Ticks(n: nat): (g: seq<TimeSlice>)
    ensures |g| == n
  {
    if n == 0 then [] else Ticks(n - 1) + [Tick]
  }

  /** The state after seven passes. */
  const Seven: Ledger := Ledger(1, 1, 1, [0, 0], [0, 2], [FirstRow, SecondRow],
                                Ticks(5) + [TimeSlice(2, 1, 2)])

  /** Process 2 has not arrived during the first five passes, so process 1 is
      dispatched each time. */
  lemma {:induction false} FirstProcessRuns(n: nat)
    requires n <= 5
    ensures PriorityAfter(Two, n) == FirstRunning(n)
  {
    if n == 0 {
      assert InitialLedger(Two).remainingTime == [5, 3];
      assert InitialLedger(Two).waitingTime == [0, 0];
    } else {
      TwoInput();
      FirstProcessRuns(n - 1);
      FirstProcessDispatched(n);
      BusyPass(n - 1, 0);
    }
  }

  /** One of the first five passes on its own: process 1 is selected and dispatched.
      The pass is named by a parameter `n`, not by five literal cases, so that the
      verifier does not try to evaluate the run by itself. */
  lemma FirstProcessDispatched(n: nat)
    requires 0 < n <= 5
    ensures SelectAmong(Two, FirstRunning(n - 1).remainingTime, FirstRunning(n - 1).serviceTime, 2) == 0
    ensures PriorityDispatch(Two, FirstRunning(n - 1), 0) == FirstRunning(n)
  {
    var s := FirstRunning(n - 1);
    assert s.remainingTime == [6 - n, 3];
    var d := PriorityDispatch(Two, s, 0);
    if n == 1 {
      assert !HasPid(s.schedule, 1);
      assert d.schedule == [FirstRow];
    } else {
      assert s.schedule[0].id == 1;
    }
    assert d.remainingTime == s.remainingTime[0 := 5 - n];
    assert d.remainingTime == [5 - n, 3];
    assert d.gantt == Ticks(n);
  }

  /** The state after pass `k` of the last three: process 1 done, then the clock at 1,
      then process 2 dispatched once. */
  function LateRunning(k: nat): Ledger
    requires 5 <= k <= 7
  {
    if k == 5 then FirstRunning(5)
    else if k == 6 then FirstRunning(5).(serviceTime := 1)
    else Seven
  }

  /** After the fifth pass an idle one moves the clock to 1, then process 2 is
      dispatched. */
  lemma {:induction false} LastPasses(k: nat)
    requires 5 <= k <= 7
    ensures PriorityAfter(Two, k) == LateRunning(k)
  {
    TwoInput();
    if k == 5 {
      FirstProcessRuns(k);
    } else {
      LastPasses(k - 1);
      SecondProcessDispatched();
      if k == 6 {
        IdlePass(k - 1);
      } else {
        BusyPass(k - 1, 1);
      }
    }
  }

  /** The sixth and seventh passes on their own. */
  lemma SecondProcessDispatched()
    ensures SelectAmong(Two, FirstRunning(5).remainingTime, 0, 2) == -1
    ensures SelectAmong(Two, FirstRunning(5).remainingTime, 1, 2) == 1
    ensures PriorityDispatch(Two, FirstRunning(5).(serviceTime := 1), 1) == Seven
  {
    var s := FirstRunning(5).(serviceTime := 1);
    assert SelectAmong(Two, s.remainingTime, 0, 2) == -1;
    assert SelectAmong(Two, s.remainingTime, 1, 2) == 1;
    assert !HasPid(s.schedule, 2);
    var d := PriorityDispatch(Two, s, 1);
    assert d.waitingTime == s.waitingTime[1 := 0];
    assert d.waitingTime == [0, 0];
    assert d.remainingTime == s.remainingTime[1 := 2];
    assert d.remainingTime == [0, 2];
    assert d.schedule == [FirstRow, SecondRow];
    assert d.gantt == Seven.gantt;
  }

  /** The run stops after the seventh pass, and not before. */
  lemma {:induction false} PassesFromSeven(n: nat)
    requires n <= 7
    ensures PriorityInput(Two)
    ensures PriorityPassesFrom(Two, n) == 7
    decreases 7 - n
  {
    TwoInput();
    if n < 5 {
      PassesFromSeven(n + 1);
      FirstProcessRuns(n);
    } else {
      LastPasses(n);
      if n < 7 {
        PassesFromSeven(n + 1);
      }
    }
  }

  /** The run takes seven passes and reports the two rows, five unit slices of process 1
      at time 0, one slice of process 2 from 1 to 2, a turnaround total of 1 and a last
      completion at 1. */
  lemma TwoProcessesRun()
    ensures PriorityInput(Two)
    ensures PriorityPasses(Two) == 7
    ensures PriorityRun(Two) == Seven
  {
    PassesFromSeven(0);
    LastPasses(7);
  }
}
