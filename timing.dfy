/** The timing ledger the two tick-by-tick schedulers of Project1/main.go keep
    (`SJFPrioritySchedule` and `RRSchedule`): the clock, the running totals, the
    per-process waiting and remaining times, the table and the Gantt trace. */
module Timing {
  import opened Processes
  import Helpers

  /** The local state of one priority or round-robin run, as a value. */
  datatype Ledger = Ledger(
    serviceTime: int,
    totalTurnaround: int,
    lastCompletion: int,
    waitingTime: seq<int>,
    remainingTime: seq<int>,
    schedule: seq<Row>,
    gantt: seq<TimeSlice>)

  /** The state both schedulers start from: clock and totals at 0, no waits, every
      process with its whole burst left, an empty table and trace. */
  function InitialLedger(ps: seq<Process>): (s: Ledger)
    ensures |s.waitingTime| == |ps| && |s.remainingTime| == |ps|
  {
    Ledger(0, 0, 0, seq(|ps|, i => 0), seq(|ps|, i requires 0 <= i < |ps| => ps[i].burstDuration), [], [])
  }

  /** Process `i` has arrived by `serviceTime` and still has work left. */
  predicate Ready(ps: seq<Process>, remaining: seq<int>, serviceTime: int, i: nat)
    requires |remaining| == |ps| && i < |ps|
  {
    ps[i].arrivalTime <= serviceTime && remaining[i] > 0
  }

  /** The loop condition of both schedulers: the clock is before the last arrival, or some process has no row. */
  predicate Continues(ps: seq<Process>, s: Ledger) {
    s.serviceTime < Helpers.LatestArrival(ps) || |s.schedule| < |ps|
  }

  /** What the loop uses up: the remaining work, plus the distance from the clock to
      the last arrival. */
  function Measure(ps: seq<Process>, s: Ledger): int {
    SumOf(s.remainingTime) +
    (if s.serviceTime < Helpers.LatestArrival(ps) then Helpers.LatestArrival(ps) - s.serviceTime else 0)
  }

  /** Some process has exactly the row's id, priority, burst and arrival. */
  predicate DescribesProcess(ps: seq<Process>, r: Row) {
    exists i :: 0 <= i < |ps| && r.id == ps[i].id && r.priority == ps[i].priority &&
      r.burst == ps[i].burstDuration && r.arrival == ps[i].arrivalTime
  }

  /** The waiting and remaining arrays line up with the processes. */
  predicate Shaped(ps: seq<Process>, s: Ledger) {
    |s.waitingTime| == |ps| && |s.remainingTime| == |ps|
  }

  /** Process `i` has been dispatched: part of its burst is used up. */
  predicate Started(ps: seq<Process>, remaining: seq<int>, i: nat)
    requires |remaining| == |ps| && i < |ps|
  {
    remaining[i] < ps[i].burstDuration
  }

  /** How many of the first `k` processes have been dispatched. */
  function CountStarted(ps: seq<Process>, remaining: seq<int>, k: nat): (c: nat)
    requires |remaining| == |ps| && k <= |ps|
    ensures c <= k
  {
    if k == 0 then 0
    else CountStarted(ps, remaining, k - 1) + (if Started(ps, remaining, k - 1) then 1 else 0)
  }

  /** Changing one remaining time changes the count only by whether that process
      counts as dispatched before and after. */
  lemma {:induction false} CountStartedUpdate(ps: seq<Process>, remaining: seq<int>, j: nat, v: int, k: nat)
    requires |remaining| == |ps| && j < |ps| && k <= |ps|
    ensures CountStarted(ps, remaining[j := v], k) ==
      CountStarted(ps, remaining, k)
      + (if j < k && v < ps[j].burstDuration then 1 else 0)
      - (if j < k && Started(ps, remaining, j) then 1 else 0)
  {
    if k > 0 {
      CountStartedUpdate(ps, remaining, j, v, k - 1);
    }
  }

  /** All of the first `k` processes are dispatched exactly when the count reaches `k`. */
  lemma {:induction false} CountStartedAll(ps: seq<Process>, remaining: seq<int>, k: nat)
    requires |remaining| == |ps| && k <= |ps|
    ensures CountStarted(ps, remaining, k) == k <==> forall i :: 0 <= i < k ==> Started(ps, remaining, i)
  {
    if k > 0 {
      CountStartedAll(ps, remaining, k - 1);
    }
  }

  /** What the bookkeeping of both tick loops keeps true: remaining times stay between
      0 and the burst; a process has a row exactly when it has been dispatched; a
      process never dispatched still has waiting time 0; no id appears twice in the
      table; and the table has one row per dispatched process. */
  ghost predicate Bookkeeping(ps: seq<Process>, s: Ledger) {
    Shaped(ps, s) &&
    (forall i :: 0 <= i < |ps| ==> 0 <= s.remainingTime[i] <= ps[i].burstDuration) &&
    (forall i :: 0 <= i < |ps| ==> (Started(ps, s.remainingTime, i) <==> HasPid(s.schedule, ps[i].id))) &&
    (forall i :: 0 <= i < |ps| && !Started(ps, s.remainingTime, i) ==> s.waitingTime[i] == 0) &&
    DistinctRowIds(s.schedule) &&
    |s.schedule| == CountStarted(ps, s.remainingTime, |ps|)
  }

  /** The bookkeeping holds of the initial state. */
  lemma InitialBookkeeping(ps: seq<Process>)
    requires PositiveBursts(ps)
    ensures Bookkeeping(ps, InitialLedger(ps))
  {
    var s := InitialLedger(ps);
    CountStartedAll(ps, s.remainingTime, |ps|);
    assert CountStarted(ps, s.remainingTime, |ps|) == 0 by {
      CountStartedNone(ps, s.remainingTime, |ps|);
    }
  }

  lemma {:induction false} CountStartedNone(ps: seq<Process>, remaining: seq<int>, k: nat)
    requires |remaining| == |ps| && k <= |ps|
    requires forall i :: 0 <= i < k ==> !Started(ps, remaining, i)
    ensures CountStarted(ps, remaining, k) == 0
  {
    if k > 0 {
      CountStartedNone(ps, remaining, k - 1);
    }
  }

  /** Once the table is full, every process has been dispatched and has a row. */
  lemma FullTableMeansAllStarted(ps: seq<Process>, s: Ledger)
    requires Bookkeeping(ps, s)
    requires |s.schedule| >= |ps|
    ensures |s.schedule| == |ps|
    ensures forall i :: 0 <= i < |ps| ==> Started(ps, s.remainingTime, i) && HasPid(s.schedule, ps[i].id)
  {
    CountStartedAll(ps, s.remainingTime, |ps|);
  }

  /** When every process has run to the end, the table is full. */
  lemma FinishedMeansFullTable(ps: seq<Process>, s: Ledger)
    requires Bookkeeping(ps, s) && PositiveBursts(ps)
    requires forall i :: 0 <= i < |ps| ==> s.remainingTime[i] <= 0
    ensures |s.schedule| == |ps|
  {
    CountStartedAll(ps, s.remainingTime, |ps|);
  }

  /** The loop that follows each step of both schedulers: a process that arrives exactly
      now, still has work and has no row gets its waiting time reset to 0. */
  function FreshWaitsCleared(ps: seq<Process>, waiting: seq<int>, remaining: seq<int>,
                             schedule: seq<Row>, serviceTime: int): (w: seq<int>)
    requires |waiting| == |ps| && |remaining| == |ps|
    ensures |w| == |ps|
  {
    seq(|ps|, i requires 0 <= i < |ps| =>
      if ps[i].arrivalTime == serviceTime && remaining[i] > 0 && !HasPid(schedule, ps[i].id)
      then 0 else waiting[i])
  }

  /** Under the bookkeeping, a process without a row has never been dispatched, so its
      waiting time is still 0. */
  lemma NoRowNoWait(ps: seq<Process>, s: Ledger, i: nat)
    requires Bookkeeping(ps, s) && i < |ps|
    ensures !HasPid(s.schedule, ps[i].id) ==> s.waitingTime[i] == 0
  {
    if !HasPid(s.schedule, ps[i].id) {
      assert !Started(ps, s.remainingTime, i);
    }
  }

  /** The reset changes nothing: a process without a row was never dispatched, so its
      waiting time is 0 already. */
  lemma FreshWaitsClearedUnchanged(ps: seq<Process>, s: Ledger)
    requires Bookkeeping(ps, s)
    ensures FreshWaitsCleared(ps, s.waitingTime, s.remainingTime, s.schedule, s.serviceTime) == s.waitingTime
  {
  }

  /** The reset loop itself, over the waiting-time array. */
  method ClearFreshWaits(ps: seq<Process>, waitingTime: array<int>, remainingTime: array<int>,
                         schedule: seq<Row>, serviceTime: int)
    requires waitingTime.Length == |ps| && remainingTime.Length == |ps|
    requires waitingTime != remainingTime
    modifies waitingTime
    ensures waitingTime[..] ==
      FreshWaitsCleared(ps, old(waitingTime[..]), remainingTime[..], schedule, serviceTime)
  {
    ghost var before := waitingTime[..];
    for i := 0 to |ps|
      invariant forall k :: i <= k < |ps| ==> waitingTime[k] == before[k]
      invariant forall k :: 0 <= k < i ==>
        waitingTime[k] == FreshWaitsCleared(ps, before, remainingTime[..], schedule, serviceTime)[k]
    {
      if ps[i].arrivalTime == serviceTime && remainingTime[i] > 0 {
        var known := Helpers.ContainsPid(schedule, ps[i].id);
        if !known {
          waitingTime[i] := 0;
        }
      }
    }
  }

  /** The arrays both schedulers allocate before their loops: waiting times all 0 and
      remaining times equal to the bursts. */
  method NewLedgerArrays(ps: seq<Process>) returns (waitingTime: array<int>, remainingTime: array<int>)
    ensures fresh(waitingTime) && fresh(remainingTime) && waitingTime != remainingTime
    ensures waitingTime[..] == InitialLedger(ps).waitingTime
    ensures remainingTime[..] == InitialLedger(ps).remainingTime
  {
    waitingTime := new int[|ps|](_ => 0);
    remainingTime := new int[|ps|];
    for i := 0 to |ps|
      modifies remainingTime
      invariant forall k :: 0 <= k < i ==> remainingTime[k] == ps[k].burstDuration
    {
      remainingTime[i] := ps[i].burstDuration;
    }
    assert waitingTime[..] == InitialLedger(ps).waitingTime;
    assert remainingTime[..] == InitialLedger(ps).remainingTime;
  }
}
