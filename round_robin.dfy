/** The round-robin scheduler (`RRSchedule`). Each pass of its loop scans the processes
    in index order; every process that has arrived by the current time and still has
    work runs for up to one quantum, and the clock moves on by what it ran. If nothing
    finished during the scan, the clock moves on by one more. As written, every slice
    in the Gantt trace is recorded as ending at the new time and starting one whole
    quantum earlier, the wait column holds the turnaround total so far, and the last
    completion time is never set. */
module RoundRobin {
  import opened Processes
  import opened Helpers
  import opened Timing

  /** What the source needs of its input for the loop to end: a positive quantum,
      positive bursts and distinct ids (rows are looked up by id). */
  predicate RoundRobinInput(ps: seq<Process>, quantum: int) {
    quantum > 0 && PositiveBursts(ps) && DistinctIds(ps)
  }

  /** The row a process gets on its first visit: its own columns, then the turnaround
      total so far as its wait, and that total plus its arrival as its turnaround. */
  function FirstVisitRow(p: Process, totalTurnaround: int): Row {
    RoundRobinRow(p.id, p.priority, p.burstDuration, p.arrivalTime,
                  totalTurnaround, totalTurnaround + p.arrivalTime)
  }

  /** One visit of the scan, to process `i`: nothing happens unless it is ready; then it
      runs for the quantum, or for what is left of its burst when that is no more than
      the quantum, in which case it finishes. */
  function Visit(ps: seq<Process>, quantum: int, s: Ledger, i: nat): (r: Ledger)
    requires Shaped(ps, s) && i < |ps|
    ensures Shaped(ps, r)
  {
    if !Ready(ps, s.remainingTime, s.serviceTime, i) then s
    else
      var p := ps[i];
      var t := s.serviceTime;
      var left := s.remainingTime[i];
      var waiting := if s.waitingTime[i] == 0 then s.waitingTime[i := t - p.arrivalTime] else s.waitingTime;
      var schedule := if HasPid(s.schedule, p.id) then s.schedule
                      else s.schedule + [FirstVisitRow(p, s.totalTurnaround)];
      var runs := left <= quantum;
      var now := if runs then t + left else t + quantum;
      s.(serviceTime := now,
         waitingTime := waiting,
         schedule := schedule,
         remainingTime := s.remainingTime[i := if runs then 0 else left - quantum],
         totalTurnaround := if runs then s.totalTurnaround + (now - p.arrivalTime) else s.totalTurnaround,
         gantt := s.gantt + [TimeSlice(p.id, now - quantum, now)])
  }

  /** The state part way through a scan, and whether a process has finished in it. */
  datatype Sweep = Sweep(ledger: Ledger, completed: bool)

  /** The scan over the first `k` processes, from state `s`. */
  function Scan(ps: seq<Process>, quantum: int, s: Ledger, k: nat): (w: Sweep)
    requires Shaped(ps, s) && k <= |ps|
    ensures Shaped(ps, w.ledger)
  {
    if k == 0 then Sweep(s, false)
    else
      var w := Scan(ps, quantum, s, k - 1);
      var finishes := Ready(ps, w.ledger.remainingTime, w.ledger.serviceTime, k - 1) &&
                      w.ledger.remainingTime[k - 1] <= quantum;
      Sweep(Visit(ps, quantum, w.ledger, k - 1), w.completed || finishes)
  }

  /** One pass of the main loop: the scan, one more tick when nothing finished, then the
      reset of fresh waiting times. */
  function RoundRobinStep(ps: seq<Process>, quantum: int, s: Ledger): (r: Ledger)
    requires Shaped(ps, s)
    ensures Shaped(ps, r)
  {
    var w := Scan(ps, quantum, s, |ps|);
    var s1 := if w.completed then w.ledger else w.ledger.(serviceTime := w.ledger.serviceTime + 1);
    s1.(waitingTime := FreshWaitsCleared(ps, s1.waitingTime, s1.remainingTime, s1.schedule, s1.serviceTime))
  }

  /** The state after `k` passes. */
  function RoundRobinAfter(ps: seq<Process>, quantum: int, k: nat): (s: Ledger)
    ensures Shaped(ps, s)
  {
    if k == 0 then InitialLedger(ps) else RoundRobinStep(ps, quantum, RoundRobinAfter(ps, quantum, k - 1))
  }

  /** A row of this scheduler: six columns, copied from its process, with a
      non-negative wait and turnaround - wait = arrival. */
  predicate RoundRobinRowOf(ps: seq<Process>, r: Row) {
    r.RoundRobinRow? && DescribesProcess(ps, r) && r.wait >= 0 && r.turnaround - r.wait == r.arrival
  }

  /** The invariant of the main loop: the shared bookkeeping, a non-negative turnaround
      total, a last completion time still 0, rows of this scheduler, and slices one
      quantum long that start strictly in order and end no later than the clock. */
  ghost predicate RoundRobinInvariant(ps: seq<Process>, quantum: int, s: Ledger) {
    Bookkeeping(ps, s) && s.totalTurnaround >= 0 && s.lastCompletion == 0 &&
    (forall k :: 0 <= k < |s.schedule| ==> RoundRobinRowOf(ps, s.schedule[k])) &&
    (forall k :: 0 <= k < |s.gantt| ==> s.gantt[k].stop - s.gantt[k].start == quantum) &&
    StartsStrictlyBy(s.gantt, s.serviceTime)
  }

  /** What a visit to a ready process does: the clock moves on by the time it runs,
      which is the quantum or, when that covers what is left, the rest of its burst;
      its remaining time drops by the same amount; one slice ending at the new time and
      starting a quantum before it is appended; a row is appended exactly on its first
      visit; and the turnaround total grows by new time - arrival exactly when it
      finishes. Nothing else changes, apart from its waiting time. */
  lemma VisitEffect(ps: seq<Process>, quantum: int, s: Ledger, i: nat)
    requires Shaped(ps, s) && i < |ps| && Ready(ps, s.remainingTime, s.serviceTime, i)
    ensures var r := Visit(ps, quantum, s, i);
            var p := ps[i];
            var ran := if s.remainingTime[i] <= quantum then s.remainingTime[i] else quantum;
            r.serviceTime == s.serviceTime + ran &&
            r.remainingTime == s.remainingTime[i := s.remainingTime[i] - ran] &&
            r.gantt == s.gantt + [TimeSlice(p.id, r.serviceTime - quantum, r.serviceTime)] &&
            r.schedule == (if HasPid(s.schedule, p.id) then s.schedule
                           else s.schedule + [FirstVisitRow(p, s.totalTurnaround)]) &&
            (r.remainingTime[i] == 0 ==> r.totalTurnaround == s.totalTurnaround + (r.serviceTime - p.arrivalTime)) &&
            (r.remainingTime[i] > 0 ==> r.totalTurnaround == s.totalTurnaround) &&
            r.lastCompletion == s.lastCompletion &&
            (forall j :: 0 <= j < |ps| && j != i ==> r.waitingTime[j] == s.waitingTime[j])
  {
  }

  /** A visit keeps the shared bookkeeping. */
  lemma VisitKeepsBookkeeping(ps: seq<Process>, quantum: int, s: Ledger, i: nat)
    requires RoundRobinInput(ps, quantum) && Bookkeeping(ps, s) && i < |ps|
    ensures Bookkeeping(ps, Visit(ps, quantum, s, i))
  {
    if Ready(ps, s.remainingTime, s.serviceTime, i) {
      var r := Visit(ps, quantum, s, i);
      var p := ps[i];
      VisitEffect(ps, quantum, s, i);
      if !HasPid(s.schedule, p.id) {
        var row := FirstVisitRow(p, s.totalTurnaround);
        forall j | 0 <= j < |ps|
          ensures HasPid(r.schedule, ps[j].id) <==> HasPid(s.schedule, ps[j].id) || j == i
        {
          HasPidAppend(s.schedule, row, ps[j].id);
        }
        DistinctRowIdsAppend(s.schedule, row);
      }
      CountStartedUpdate(ps, s.remainingTime, i, r.remainingTime[i], |ps|);
    }
  }

  /** A visit keeps the rest of the invariant. */
  lemma VisitKeepsRows(ps: seq<Process>, quantum: int, s: Ledger, i: nat)
    requires RoundRobinInput(ps, quantum) && RoundRobinInvariant(ps, quantum, s) && i < |ps|
    ensures var r := Visit(ps, quantum, s, i);
            r.totalTurnaround >= 0 && r.lastCompletion == 0 &&
            (forall k :: 0 <= k < |r.schedule| ==> RoundRobinRowOf(ps, r.schedule[k])) &&
            (forall k :: 0 <= k < |r.gantt| ==> r.gantt[k].stop - r.gantt[k].start == quantum) &&
            StartsStrictlyBy(r.gantt, r.serviceTime)
  {
    if Ready(ps, s.remainingTime, s.serviceTime, i) {
      var r := Visit(ps, quantum, s, i);
      VisitEffect(ps, quantum, s, i);
      StartsStrictlyAppend(s.gantt, s.serviceTime, quantum,
                           TimeSlice(ps[i].id, r.serviceTime - quantum, r.serviceTime), r.serviceTime);
      if !HasPid(s.schedule, ps[i].id) {
        assert RoundRobinRowOf(ps, r.schedule[|s.schedule|]);
      }
      forall k | 0 <= k < |r.schedule| ensures RoundRobinRowOf(ps, r.schedule[k]) {
        if k < |s.schedule| {
          assert r.schedule[k] == s.schedule[k];
        }
      }
      forall k | 0 <= k < |r.gantt| ensures r.gantt[k].stop - r.gantt[k].start == quantum {
        if k < |s.gantt| {
          assert r.gantt[k] == s.gantt[k];
        }
      }
    }
  }

  /** A visit to a ready process lowers the measure by at least one: the work left
      drops by what it ran, and the clock only moves towards the last arrival. */
  lemma VisitLowersMeasure(ps: seq<Process>, quantum: int, s: Ledger, i: nat)
    requires quantum > 0 && Shaped(ps, s) && i < |ps| && Ready(ps, s.remainingTime, s.serviceTime, i)
    ensures Measure(ps, Visit(ps, quantum, s, i)) < Measure(ps, s)
  {
    var r := Visit(ps, quantum, s, i);
    VisitEffect(ps, quantum, s, i);
    SumOfUpdate(s.remainingTime, i, r.remainingTime[i]);
  }

  /** A visit keeps the invariant. */
  lemma VisitKeepsInvariant(ps: seq<Process>, quantum: int, s: Ledger, i: nat)
    requires RoundRobinInput(ps, quantum) && RoundRobinInvariant(ps, quantum, s) && i < |ps|
    ensures RoundRobinInvariant(ps, quantum, Visit(ps, quantum, s, i))
  {
    VisitKeepsBookkeeping(ps, quantum, s, i);
    VisitKeepsRows(ps, quantum, s, i);
  }

  /** A visit never raises the measure, and leaves it where it was only when the
      process is not ready, in which case it changes nothing. */
  lemma VisitMeasure(ps: seq<Process>, quantum: int, s: Ledger, i: nat)
    requires quantum > 0 && Shaped(ps, s) && i < |ps|
    ensures Measure(ps, Visit(ps, quantum, s, i)) <= Measure(ps, s)
    ensures Measure(ps, Visit(ps, quantum, s, i)) == Measure(ps, s) ==>
              Visit(ps, quantum, s, i) == s && !Ready(ps, s.remainingTime, s.serviceTime, i)
  {
    if Ready(ps, s.remainingTime, s.serviceTime, i) {
      VisitLowersMeasure(ps, quantum, s, i);
    }
  }

  /** The scan keeps the invariant. */
  lemma {:induction false} ScanKeepsInvariant(ps: seq<Process>, quantum: int, s: Ledger, k: nat)
    requires RoundRobinInput(ps, quantum) && RoundRobinInvariant(ps, quantum, s) && k <= |ps|
    ensures RoundRobinInvariant(ps, quantum, Scan(ps, quantum, s, k).ledger)
  {
    if k > 0 {
      var w := Scan(ps, quantum, s, k - 1);
      ScanKeepsInvariant(ps, quantum, s, k - 1);
      VisitKeepsInvariant(ps, quantum, w.ledger, k - 1);
      assert Scan(ps, quantum, s, k).ledger == Visit(ps, quantum, w.ledger, k - 1);
    }
  }

  /** The scan never raises the measure, and leaves it where it was only when no
      process was ready at any visit, in which case it changes nothing at all. */
  lemma {:induction false} ScanMeasure(ps: seq<Process>, quantum: int, s: Ledger, k: nat)
    requires quantum > 0 && Shaped(ps, s) && k <= |ps|
    ensures Measure(ps, Scan(ps, quantum, s, k).ledger) <= Measure(ps, s)
    ensures Measure(ps, Scan(ps, quantum, s, k).ledger) == Measure(ps, s) ==>
              Scan(ps, quantum, s, k) == Sweep(s, false) &&
              forall i :: 0 <= i < k ==> !Ready(ps, s.remainingTime, s.serviceTime, i)
  {
    if k > 0 {
      var w := Scan(ps, quantum, s, k - 1);
      ScanMeasure(ps, quantum, s, k - 1);
      VisitMeasure(ps, quantum, w.ledger, k - 1);
    }
  }

  /** The reset of fresh waiting times after the scan changes nothing. */
  lemma RoundRobinStepIsScan(ps: seq<Process>, quantum: int, s: Ledger)
    requires Shaped(ps, s) && Bookkeeping(ps, Scan(ps, quantum, s, |ps|).ledger)
    ensures var w := Scan(ps, quantum, s, |ps|);
            RoundRobinStep(ps, quantum, s) ==
              (if w.completed then w.ledger else w.ledger.(serviceTime := w.ledger.serviceTime + 1))
  {
    var w := Scan(ps, quantum, s, |ps|);
    var s1 := if w.completed then w.ledger else w.ledger.(serviceTime := w.ledger.serviceTime + 1);
    FreshWaitsClearedUnchanged(ps, s1);
  }

  /** Every pass keeps the invariant. */
  lemma RoundRobinStepPreserves(ps: seq<Process>, quantum: int, s: Ledger)
    requires RoundRobinInput(ps, quantum) && RoundRobinInvariant(ps, quantum, s)
    ensures RoundRobinInvariant(ps, quantum, RoundRobinStep(ps, quantum, s))
  {
    ScanKeepsInvariant(ps, quantum, s, |ps|);
    RoundRobinStepIsScan(ps, quantum, s);
  }

  /** The invariant holds after any number of passes. */
  lemma {:induction false} RoundRobinAfterInvariant(ps: seq<Process>, quantum: int, k: nat)
    requires RoundRobinInput(ps, quantum)
    ensures RoundRobinInvariant(ps, quantum, RoundRobinAfter(ps, quantum, k))
  {
    if k == 0 {
      InitialBookkeeping(ps);
    } else {
      RoundRobinAfterInvariant(ps, quantum, k - 1);
      RoundRobinStepPreserves(ps, quantum, RoundRobinAfter(ps, quantum, k - 1));
    }
  }

  /** A scan only moves forward: the clock never goes back, and the table and the trace
      only have entries appended. */
  lemma {:induction false} ScanGrows(ps: seq<Process>, quantum: int, s: Ledger, k: nat)
    requires quantum > 0 && Shaped(ps, s) && k <= |ps|
    ensures var r := Scan(ps, quantum, s, k).ledger;
            s.serviceTime <= r.serviceTime && s.schedule <= r.schedule && s.gantt <= r.gantt
  {
    if k > 0 {
      ScanGrows(ps, quantum, s, k - 1);
    }
  }

  /** Passes only move forward: from pass `j` to a later pass `k` the clock never goes
      back, and the table and the trace only have entries appended. */
  lemma {:induction false} RoundRobinHistory(ps: seq<Process>, quantum: int, j: nat, k: nat)
    requires quantum > 0 && j <= k
    ensures RoundRobinAfter(ps, quantum, j).serviceTime <= RoundRobinAfter(ps, quantum, k).serviceTime
    ensures RoundRobinAfter(ps, quantum, j).schedule <= RoundRobinAfter(ps, quantum, k).schedule
    ensures RoundRobinAfter(ps, quantum, j).gantt <= RoundRobinAfter(ps, quantum, k).gantt
    decreases k - j
  {
    if j < k {
      RoundRobinHistory(ps, quantum, j, k - 1);
      ScanGrows(ps, quantum, RoundRobinAfter(ps, quantum, k - 1), |ps|);
    }
  }

  /** A scan in which no process is ready changes nothing. */
  lemma {:induction false} ScanIdle(ps: seq<Process>, quantum: int, s: Ledger, k: nat)
    requires Shaped(ps, s) && k <= |ps|
    requires forall i :: 0 <= i < k ==> !Ready(ps, s.remainingTime, s.serviceTime, i)
    ensures Scan(ps, quantum, s, k) == Sweep(s, false)
  {
    if k > 0 {
      ScanIdle(ps, quantum, s, k - 1);
    }
  }

  /** A pass in which no process is ready only advances the clock by one, and that
      happens only before the last arrival: afterwards a process without a row has
      arrived and has work, so the scan would reach it. */
  lemma RoundRobinIdlePass(ps: seq<Process>, quantum: int, s: Ledger)
    requires RoundRobinInput(ps, quantum) && RoundRobinInvariant(ps, quantum, s) && Continues(ps, s)
    requires forall i :: 0 <= i < |ps| ==> !Ready(ps, s.remainingTime, s.serviceTime, i)
    ensures s.serviceTime < LatestArrival(ps)
    ensures RoundRobinStep(ps, quantum, s) == s.(serviceTime := s.serviceTime + 1)
  {
    ScanIdle(ps, quantum, s, |ps|);
    RoundRobinStepIsScan(ps, quantum, s);
    if s.serviceTime >= LatestArrival(ps) {
      CountStartedAll(ps, s.remainingTime, |ps|);
      var i :| 0 <= i < |ps| && !Started(ps, s.remainingTime, i);
      assert Ready(ps, s.remainingTime, s.serviceTime, i);
      assert false;
    }
  }

  /** While the loop runs, each pass lowers the measure, which stays at or above zero.
      A pass in which no process is ready only advances the clock by one, and happens
      only before the last arrival. */
  lemma RoundRobinProgress(ps: seq<Process>, quantum: int, s: Ledger)
    requires RoundRobinInput(ps, quantum) && RoundRobinInvariant(ps, quantum, s) && Continues(ps, s)
    ensures 0 <= Measure(ps, RoundRobinStep(ps, quantum, s)) < Measure(ps, s)
    ensures (forall i :: 0 <= i < |ps| ==> !Ready(ps, s.remainingTime, s.serviceTime, i)) ==>
              s.serviceTime < LatestArrival(ps) &&
              RoundRobinStep(ps, quantum, s) == s.(serviceTime := s.serviceTime + 1)
  {
    var r := RoundRobinStep(ps, quantum, s);
    ScanKeepsInvariant(ps, quantum, s, |ps|);
    RoundRobinStepIsScan(ps, quantum, s);
    SumOfNonNegative(r.remainingTime);
    ScanMeasure(ps, quantum, s, |ps|);
    if forall i :: 0 <= i < |ps| ==> !Ready(ps, s.remainingTime, s.serviceTime, i) {
      RoundRobinIdlePass(ps, quantum, s);
    } else if Measure(ps, Scan(ps, quantum, s, |ps|).ledger) == Measure(ps, s) {
      assert false;
    }
  }

  /** When the loop stops, every process has exactly one row. */
  lemma RoundRobinExit(ps: seq<Process>, quantum: int, s: Ledger)
    requires RoundRobinInvariant(ps, quantum, s) && !Continues(ps, s)
    ensures |s.schedule| == |ps|
    ensures forall i :: 0 <= i < |ps| ==> HasPid(s.schedule, ps[i].id)
  {
    FullTableMeansAllStarted(ps, s);
  }

  /** Termination of the loop, stated on the passes of a run. */
  lemma RoundRobinRunProgress(ps: seq<Process>, quantum: int, k: nat)
    requires RoundRobinInput(ps, quantum) && Continues(ps, RoundRobinAfter(ps, quantum, k))
    ensures 0 <= Measure(ps, RoundRobinAfter(ps, quantum, k + 1)) < Measure(ps, RoundRobinAfter(ps, quantum, k))
  {
    RoundRobinAfterInvariant(ps, quantum, k);
    RoundRobinProgress(ps, quantum, RoundRobinAfter(ps, quantum, k));
  }

  /** The number of passes the loop makes when it has made `k` without stopping: the
      first `j >= k` at which the loop condition is false. */
  ghost function RoundRobinPassesFrom(ps: seq<Process>, quantum: int, k: nat): (n: nat)
    requires RoundRobinInput(ps, quantum)
    ensures k <= n
    decreases Measure(ps, RoundRobinAfter(ps, quantum, k))
  {
    if Continues(ps, RoundRobinAfter(ps, quantum, k)) then
      RoundRobinRunProgress(ps, quantum, k);
      RoundRobinPassesFrom(ps, quantum, k + 1)
    else k
  }

  /** The number of passes of a whole run. */
  ghost function RoundRobinPasses(ps: seq<Process>, quantum: int): nat
    requires RoundRobinInput(ps, quantum)
  {
    RoundRobinPassesFrom(ps, quantum, 0)
  }

  /** The state a whole run ends in: what `RRSchedule` reports. */
  ghost function RoundRobinRun(ps: seq<Process>, quantum: int): Ledger
    requires RoundRobinInput(ps, quantum)
  {
    RoundRobinAfter(ps, quantum, RoundRobinPasses(ps, quantum))
  }

  lemma {:induction false} RoundRobinPassesFromStops(ps: seq<Process>, quantum: int, k: nat)
    requires RoundRobinInput(ps, quantum)
    ensures !Continues(ps, RoundRobinAfter(ps, quantum, RoundRobinPassesFrom(ps, quantum, k)))
    ensures forall j :: k <= j < RoundRobinPassesFrom(ps, quantum, k) ==>
              Continues(ps, RoundRobinAfter(ps, quantum, j))
    decreases Measure(ps, RoundRobinAfter(ps, quantum, k))
  {
    if Continues(ps, RoundRobinAfter(ps, quantum, k)) {
      RoundRobinRunProgress(ps, quantum, k);
      RoundRobinPassesFromStops(ps, quantum, k + 1);
    }
  }

  /** The run stops at the first pass where the loop condition is false. */
  lemma RoundRobinRunStops(ps: seq<Process>, quantum: int)
    requires RoundRobinInput(ps, quantum)
    ensures !Continues(ps, RoundRobinRun(ps, quantum))
    ensures forall j :: 0 <= j < RoundRobinPasses(ps, quantum) ==> Continues(ps, RoundRobinAfter(ps, quantum, j))
  {
    RoundRobinPassesFromStops(ps, quantum, 0);
  }

  /** The table a run reports: one row per process, no id twice, each row of this
      scheduler; the turnaround total is non-negative, the last completion time is
      still 0; every slice is one quantum long, and the slices start strictly in order
      and end no later than the final clock. */
  lemma RoundRobinRunTable(ps: seq<Process>, quantum: int)
    requires RoundRobinInput(ps, quantum)
    ensures var s := RoundRobinRun(ps, quantum);
            |s.schedule| == |ps| && DistinctRowIds(s.schedule) &&
            (forall i :: 0 <= i < |ps| ==> HasPid(s.schedule, ps[i].id)) &&
            (forall k :: 0 <= k < |s.schedule| ==> RoundRobinRowOf(ps, s.schedule[k])) &&
            s.totalTurnaround >= 0 && s.lastCompletion == 0 &&
            (forall k :: 0 <= k < |s.gantt| ==> s.gantt[k].stop - s.gantt[k].start == quantum) &&
            StartsStrictlyBy(s.gantt, s.serviceTime)
  {
    RoundRobinRunStops(ps, quantum);
    RoundRobinAfterInvariant(ps, quantum, RoundRobinPasses(ps, quantum));
    RoundRobinExit(ps, quantum, RoundRobinRun(ps, quantum));
  }

  /** One pass of the main loop of `RRSchedule`, on the source's arrays and locals: it
      performs exactly `RoundRobinStep`. */
  method RoundRobinPass(ps: seq<Process>, quantum: int, waitingTime: array<int>, remainingTime: array<int>,
                        serviceTime0: int, totalTurnaround0: int, lastCompletion: int,
                        schedule0: seq<Row>, gantt0: seq<TimeSlice>)
    returns (serviceTime: int, totalTurnaround: int, schedule: seq<Row>, gantt: seq<TimeSlice>)
    requires waitingTime.Length == |ps| && remainingTime.Length == |ps| && waitingTime != remainingTime
    modifies waitingTime, remainingTime
    ensures Ledger(serviceTime, totalTurnaround, lastCompletion, waitingTime[..], remainingTime[..], schedule, gantt)
            == RoundRobinStep(ps, quantum, Ledger(serviceTime0, totalTurnaround0, lastCompletion,
                                                  old(waitingTime[..]), old(remainingTime[..]), schedule0, gantt0))
  {
    ghost var s := Ledger(serviceTime0, totalTurnaround0, lastCompletion,
                          waitingTime[..], remainingTime[..], schedule0, gantt0);
    serviceTime, totalTurnaround, schedule, gantt := serviceTime0, totalTurnaround0, schedule0, gantt0;
    var completed := false;
    for i := 0 to |ps|
      invariant Sweep(Ledger(serviceTime, totalTurnaround, lastCompletion, waitingTime[..], remainingTime[..],
                             schedule, gantt), completed) == Scan(ps, quantum, s, i)
    {
      serviceTime, totalTurnaround, schedule, gantt, completed :=
        VisitProcess(ps, quantum, i, waitingTime, remainingTime, serviceTime, totalTurnaround, lastCompletion,
                     schedule, gantt, completed);
    }
    if !completed {
      serviceTime := serviceTime + 1;
    }
    ClearFreshWaits(ps, waitingTime, remainingTime, schedule, serviceTime);
  }

  /** The body of the scan loop, for process `i`: it performs exactly `Visit`, and
      records whether the process finished. */
  method VisitProcess(ps: seq<Process>, quantum: int, i: nat, waitingTime: array<int>, remainingTime: array<int>,
                      serviceTime0: int, totalTurnaround0: int, lastCompletion: int,
                      schedule0: seq<Row>, gantt0: seq<TimeSlice>, completed0: bool)
    returns (serviceTime: int, totalTurnaround: int, schedule: seq<Row>, gantt: seq<TimeSlice>, completed: bool)
    requires waitingTime.Length == |ps| && remainingTime.Length == |ps| && waitingTime != remainingTime
    requires i < |ps|
    modifies waitingTime, remainingTime
    ensures var before := Ledger(serviceTime0, totalTurnaround0, lastCompletion,
                                 old(waitingTime[..]), old(remainingTime[..]), schedule0, gantt0);
            Sweep(Ledger(serviceTime, totalTurnaround, lastCompletion, waitingTime[..], remainingTime[..],
                         schedule, gantt), completed) ==
            Sweep(Visit(ps, quantum, before, i),
                  completed0 || (Ready(ps, before.remainingTime, serviceTime0, i) && before.remainingTime[i] <= quantum))
  {
    serviceTime, totalTurnaround, schedule, gantt, completed :=
      serviceTime0, totalTurnaround0, schedule0, gantt0, completed0;
    if ps[i].arrivalTime <= serviceTime && remainingTime[i] > 0 {
      if waitingTime[i] == 0 {
        waitingTime[i] := serviceTime - ps[i].arrivalTime;
      }
      var known := ContainsPid(schedule, ps[i].id);
      if !known {
        schedule := schedule + [FirstVisitRow(ps[i], totalTurnaround)];
      }
      if remainingTime[i] > quantum {
        serviceTime := serviceTime + quantum;
        remainingTime[i] := remainingTime[i] - quantum;
      } else {
        serviceTime := serviceTime + remainingTime[i];
        totalTurnaround := totalTurnaround + (serviceTime - ps[i].arrivalTime);
        remainingTime[i] := 0;
        completed := true;
      }
      gantt := gantt + [TimeSlice(ps[i].id, serviceTime - quantum, serviceTime)];
    }
  }

  /** `RRSchedule`, without the printing and the float averages. The arrays are the
      source's `waitingTime` and `remainingTime`. It reports the state a whole run ends
      in. */
  method RRSchedule(ps: seq<Process>, timeQuantum: int)
    returns (gantt: seq<TimeSlice>, schedule: seq<Row>, totalTurnaround: int, lastCompletion: int)
    requires RoundRobinInput(ps, timeQuantum)
    ensures gantt == RoundRobinRun(ps, timeQuantum).gantt && schedule == RoundRobinRun(ps, timeQuantum).schedule
    ensures totalTurnaround == RoundRobinRun(ps, timeQuantum).totalTurnaround
    ensures lastCompletion == RoundRobinRun(ps, timeQuantum).lastCompletion
  {
    var serviceTime := 0;
    totalTurnaround := 0;
    lastCompletion := 0;
    var waitingTime, remainingTime := NewLedgerArrays(ps);
    schedule := [];
    gantt := [];
    var last := LastArrivalTime(ps);
    ghost var steps := 0;
    while serviceTime < last || |schedule| < |ps|
      invariant waitingTime.Length == |ps| && remainingTime.Length == |ps|
      invariant Ledger(serviceTime, totalTurnaround, lastCompletion, waitingTime[..], remainingTime[..],
                       schedule, gantt) == RoundRobinAfter(ps, timeQuantum, steps)
      invariant RoundRobinPassesFrom(ps, timeQuantum, steps) == RoundRobinPasses(ps, timeQuantum)
      decreases Measure(ps, RoundRobinAfter(ps, timeQuantum, steps))
    {
      assert Continues(ps, RoundRobinAfter(ps, timeQuantum, steps));
      RoundRobinRunProgress(ps, timeQuantum, steps);
      serviceTime, totalTurnaround, schedule, gantt :=
        RoundRobinPass(ps, timeQuantum, waitingTime, remainingTime, serviceTime, totalTurnaround, lastCompletion,
                       schedule, gantt);
      steps := steps + 1;
    }
  }
}
