/** The priority scheduler (`SJFPrioritySchedule`). Each pass of its loop either
    dispatches the first ready process of highest priority (lowest number) for one unit
    of its burst, or, when nothing is ready, advances the clock by one. As written, the
    clock moves only on idle passes, so a dispatched process keeps the CPU, at one and
    the same time stamp, until its burst is used up. */
module Priority {
  import opened Processes
  import opened Helpers
  import opened Timing

  /** The selection scan over the first `k` processes: a later process replaces the
      current choice only when its priority is strictly smaller. -1 means none. */
  function SelectAmong(ps: seq<Process>, remaining: seq<int>, serviceTime: int, k: nat): (sel: int)
    requires |remaining| == |ps| && k <= |ps|
    ensures -1 <= sel < k
  {
    if k == 0 then -1
    else
      var best := SelectAmong(ps, remaining, serviceTime, k - 1);
      var shortest := if best < 0 then MaxInt64 else ps[best].priority;
      if Ready(ps, remaining, serviceTime, k - 1) && ps[k - 1].priority < shortest then k - 1 else best
  }

  /** `sel` is the first, among the first `k` processes, of the ready ones with the
      smallest priority below MaxInt64; or -1 when no ready process has one. */
  predicate FirstHighestAmong(ps: seq<Process>, remaining: seq<int>, serviceTime: int, k: nat, sel: int)
    requires |remaining| == |ps| && k <= |ps|
  {
    if sel < 0 then
      sel == -1 &&
      forall i :: 0 <= i < k && Ready(ps, remaining, serviceTime, i) ==> ps[i].priority >= MaxInt64
    else
      sel < k && Ready(ps, remaining, serviceTime, sel) && ps[sel].priority < MaxInt64 &&
      (forall i :: 0 <= i < k && Ready(ps, remaining, serviceTime, i) ==> ps[sel].priority <= ps[i].priority) &&
      (forall i :: 0 <= i < sel && Ready(ps, remaining, serviceTime, i) ==> ps[sel].priority < ps[i].priority)
  }

  /** The scan picks exactly the first ready process of highest priority. */
  lemma {:induction false} SelectionCharacterised(ps: seq<Process>, remaining: seq<int>, serviceTime: int, k: nat, sel: int)
    requires |remaining| == |ps| && k <= |ps|
    ensures FirstHighestAmong(ps, remaining, serviceTime, k, sel) <==> sel == SelectAmong(ps, remaining, serviceTime, k)
  {
    SelectAmongIsFirstHighest(ps, remaining, serviceTime, k);
  }

  lemma {:induction false} SelectAmongIsFirstHighest(ps: seq<Process>, remaining: seq<int>, serviceTime: int, k: nat)
    requires |remaining| == |ps| && k <= |ps|
    ensures FirstHighestAmong(ps, remaining, serviceTime, k, SelectAmong(ps, remaining, serviceTime, k))
  {
    if k > 0 {
      SelectAmongIsFirstHighest(ps, remaining, serviceTime, k - 1);
    }
  }

  /** The selection loop of `SJFPrioritySchedule`, run against the remaining-time array. */
  method SelectHighestPriority(ps: seq<Process>, remainingTime: array<int>, serviceTime: int)
    returns (selected: int)
    requires remainingTime.Length == |ps|
    ensures FirstHighestAmong(ps, remainingTime[..], serviceTime, |ps|, selected)
  {
    selected := -1;
    var shortest := MaxInt64;
    for i := 0 to |ps|
      invariant FirstHighestAmong(ps, remainingTime[..], serviceTime, i, selected)
      invariant shortest == if selected < 0 then MaxInt64 else ps[selected].priority
    {
      if ps[i].arrivalTime <= serviceTime && remainingTime[i] > 0 && ps[i].priority < shortest {
        selected := i;
        shortest := ps[i].priority;
      }
    }
  }

  /** The row written the first time process `sel` is dispatched, at `serviceTime`, with
      waiting time `wait` and the turnaround total so far. It hands the process's columns
      to `TimedRow` as plain integers, which keeps the row arithmetic cheap to verify. */
  function FirstDispatchRow(p: Process, wait: int, totalTurnaround: int, serviceTime: int): Row {
    TimedRow(p.id, p.priority, p.burstDuration, p.arrivalTime, wait, totalTurnaround, serviceTime)
  }

  /** The seven columns of that row, from the process's columns as plain integers: the
      turnaround column is the total so far plus the time since arrival, and the exit
      column adds the burst to it. */
  function TimedRow(id: int, priority: int, burst: int, arrival: int, wait: int,
                    totalTurnaround: int, serviceTime: int): Row {
    Row(id, priority, burst, arrival, wait,
        totalTurnaround + (serviceTime - arrival),
        totalTurnaround + (serviceTime - arrival + burst))
  }

  /** A busy pass: process `sel` gets one unit of CPU at the current time. */
  function PriorityDispatch(ps: seq<Process>, s: Ledger, sel: nat): (r: Ledger)
    requires Shaped(ps, s) && sel < |ps|
    ensures Shaped(ps, r)
  {
    var p := ps[sel];
    var t := s.serviceTime;
    var waiting := if s.waitingTime[sel] == 0 then s.waitingTime[sel := t - p.arrivalTime] else s.waitingTime;
    var schedule := if HasPid(s.schedule, p.id) then s.schedule
                    else s.schedule + [FirstDispatchRow(p, waiting[sel], s.totalTurnaround, t)];
    var finishes := !(s.remainingTime[sel] > 1);
    s.(waitingTime := waiting,
       schedule := schedule,
       remainingTime := s.remainingTime[sel := if finishes then 0 else s.remainingTime[sel] - 1],
       totalTurnaround := if finishes then s.totalTurnaround + (t - p.arrivalTime + 1) else s.totalTurnaround,
       lastCompletion := if finishes then t + 1 else s.lastCompletion,
       gantt := s.gantt + [TimeSlice(p.id, t, t + 1)])
  }

  /** One pass of the main loop: select, then dispatch or idle, then the reset of
      waiting times of fresh arrivals. (The selection the source repeats after a
      completion is discarded there, so it has no effect on the state.) */
  function PriorityStep(ps: seq<Process>, s: Ledger): (r: Ledger)
    requires Shaped(ps, s)
    ensures Shaped(ps, r)
  {
    var sel := SelectAmong(ps, s.remainingTime, s.serviceTime, |ps|);
    var s1 := if sel >= 0 then PriorityDispatch(ps, s, sel) else s.(serviceTime := s.serviceTime + 1);
    s1.(waitingTime := FreshWaitsCleared(ps, s1.waitingTime, s1.remainingTime, s1.schedule, s1.serviceTime))
  }

  /** The state after `k` passes. */
  function PriorityAfter(ps: seq<Process>, k: nat): (s: Ledger)
    ensures Shaped(ps, s)
  {
    if k == 0 then InitialLedger(ps) else PriorityStep(ps, PriorityAfter(ps, k - 1))
  }

  /** What the source needs of its input for the loop to end: positive bursts, distinct
      ids (rows are looked up by id) and priorities below the MaxInt64 sentinel. */
  predicate PriorityInput(ps: seq<Process>) {
    PositiveBursts(ps) && DistinctIds(ps) &&
    forall i :: 0 <= i < |ps| ==> ps[i].priority < MaxInt64
  }

  /** A row of this scheduler: seven columns, copied from its process, a non-negative
      wait no larger than the turnaround, and exit = turnaround + burst. */
  predicate PriorityRow(ps: seq<Process>, r: Row) {
    r.Row? && DescribesProcess(ps, r) && 0 <= r.wait <= r.turnaround && r.exit == r.turnaround + r.burst
  }

  /** The invariant of the main loop: the shared bookkeeping, a non-negative turnaround
      total, rows of this scheduler, and unit slices that start in order and never after
      the clock. */
  ghost predicate PriorityInvariant(ps: seq<Process>, s: Ledger) {
    Bookkeeping(ps, s) && s.totalTurnaround >= 0 &&
    (forall k :: 0 <= k < |s.schedule| ==> PriorityRow(ps, s.schedule[k])) &&
    (forall k :: 0 <= k < |s.gantt| ==> s.gantt[k].stop == s.gantt[k].start + 1) &&
    StartsInOrderBy(s.gantt, s.serviceTime)
  }

  /** When nothing is ready, a pass only advances the clock by one. */
  lemma PriorityIdleTick(ps: seq<Process>, s: Ledger)
    requires Bookkeeping(ps, s)
    requires SelectAmong(ps, s.remainingTime, s.serviceTime, |ps|) < 0
    ensures PriorityStep(ps, s) == s.(serviceTime := s.serviceTime + 1)
  {
    FreshWaitsClearedUnchanged(ps, s.(serviceTime := s.serviceTime + 1));
  }

  /** A busy pass on the selected process `sel` keeps the invariant, and the reset
      of fresh waiting times changes nothing after it. */
  lemma DispatchPreserves(ps: seq<Process>, s: Ledger, sel: nat)
    requires PriorityInput(ps) && PriorityInvariant(ps, s)
    requires sel < |ps| && Ready(ps, s.remainingTime, s.serviceTime, sel)
    ensures PriorityInvariant(ps, PriorityDispatch(ps, s, sel))
  {
    DispatchKeepsBookkeeping(ps, s, sel);
    DispatchKeepsRows(ps, s, sel);
  }

  lemma DispatchKeepsBookkeeping(ps: seq<Process>, s: Ledger, sel: nat)
    requires PriorityInput(ps) && Bookkeeping(ps, s)
    requires sel < |ps| && Ready(ps, s.remainingTime, s.serviceTime, sel)
    ensures Bookkeeping(ps, PriorityDispatch(ps, s, sel))
  {
    var r := PriorityDispatch(ps, s, sel);
    var p := ps[sel];
    NoRowNoWait(ps, s, sel);
    DispatchEffect(ps, s, sel);
    if !HasPid(s.schedule, p.id) {
      var row := r.schedule[|s.schedule|];
      assert r.schedule == s.schedule + [row];
      forall i | 0 <= i < |ps|
        ensures HasPid(r.schedule, ps[i].id) <==> HasPid(s.schedule, ps[i].id) || i == sel
      {
        HasPidAppend(s.schedule, row, ps[i].id);
      }
      DistinctRowIdsAppend(s.schedule, row);
    }
    CountStartedUpdate(ps, s.remainingTime, sel, s.remainingTime[sel] - 1, |ps|);
  }

  lemma DispatchKeepsRows(ps: seq<Process>, s: Ledger, sel: nat)
    requires PriorityInput(ps) && PriorityInvariant(ps, s)
    requires sel < |ps| && Ready(ps, s.remainingTime, s.serviceTime, sel)
    ensures var r := PriorityDispatch(ps, s, sel);
            r.totalTurnaround >= 0 &&
            (forall k :: 0 <= k < |r.schedule| ==> PriorityRow(ps, r.schedule[k])) &&
            (forall k :: 0 <= k < |r.gantt| ==> r.gantt[k].stop == r.gantt[k].start + 1) &&
            StartsInOrderBy(r.gantt, r.serviceTime)
  {
    var r := PriorityDispatch(ps, s, sel);
    NoRowNoWait(ps, s, sel);
    DispatchEffect(ps, s, sel);
    StartsInOrderAppend(s.gantt, s.serviceTime, TimeSlice(ps[sel].id, s.serviceTime, s.serviceTime + 1), s.serviceTime);
    if !HasPid(s.schedule, ps[sel].id) {
      assert PriorityRow(ps, r.schedule[|s.schedule|]);
    }
    forall k | 0 <= k < |r.schedule| ensures PriorityRow(ps, r.schedule[k]) {
      if k < |s.schedule| {
        assert r.schedule[k] == s.schedule[k];
      }
    }
    forall k | 0 <= k < |r.gantt| ensures r.gantt[k].stop == r.gantt[k].start + 1 {
      if k < |s.gantt| {
        assert r.gantt[k] == s.gantt[k];
      }
    }
  }

  /** A pass that selects a process is exactly a dispatch of it. */
  lemma PriorityStepDispatches(ps: seq<Process>, s: Ledger)
    requires PriorityInput(ps) && PriorityInvariant(ps, s)
    requires SelectAmong(ps, s.remainingTime, s.serviceTime, |ps|) >= 0
    ensures var sel := SelectAmong(ps, s.remainingTime, s.serviceTime, |ps|);
            Ready(ps, s.remainingTime, s.serviceTime, sel) &&
            PriorityStep(ps, s) == PriorityDispatch(ps, s, sel)
  {
    var sel := SelectAmong(ps, s.remainingTime, s.serviceTime, |ps|);
    SelectAmongIsFirstHighest(ps, s.remainingTime, s.serviceTime, |ps|);
    DispatchKeepsBookkeeping(ps, s, sel);
    FreshWaitsClearedUnchanged(ps, PriorityDispatch(ps, s, sel));
  }

  /** What a dispatch does to a process with work left that, if it has no row yet,
      still has waiting time 0 (as the bookkeeping keeps): the clock stays; the process loses
      exactly one unit; one slice `[t, t + 1)` is appended; a row is appended exactly
      when the process is dispatched for the first time, with wait t - arrival; and the
      turnaround total grows by t - arrival + 1, with the last completion set to t + 1,
      exactly when the process finishes. */
  lemma DispatchEffect(ps: seq<Process>, s: Ledger, sel: nat)
    requires Shaped(ps, s) && sel < |ps| && s.remainingTime[sel] > 0
    requires !HasPid(s.schedule, ps[sel].id) ==> s.waitingTime[sel] == 0
    ensures var r := PriorityDispatch(ps, s, sel);
            var p := ps[sel];
            var t := s.serviceTime;
            r.serviceTime == t &&
            r.remainingTime == s.remainingTime[sel := s.remainingTime[sel] - 1] &&
            r.gantt == s.gantt + [TimeSlice(p.id, t, t + 1)] &&
            r.schedule == (if HasPid(s.schedule, p.id) then s.schedule
                           else s.schedule + [Row(p.id, p.priority, p.burstDuration, p.arrivalTime,
                                                  t - p.arrivalTime,
                                                  s.totalTurnaround + (t - p.arrivalTime),
                                                  s.totalTurnaround + (t - p.arrivalTime) + p.burstDuration)]) &&
            (r.remainingTime[sel] == 0 ==> r.totalTurnaround == s.totalTurnaround + (t - p.arrivalTime + 1) &&
                                           r.lastCompletion == t + 1) &&
            (r.remainingTime[sel] > 0 ==> r.totalTurnaround == s.totalTurnaround &&
                                          r.lastCompletion == s.lastCompletion)
  {
  }

  /** Every pass keeps the invariant. */
  lemma PriorityStepPreserves(ps: seq<Process>, s: Ledger)
    requires PriorityInput(ps) && PriorityInvariant(ps, s)
    ensures PriorityInvariant(ps, PriorityStep(ps, s))
  {
    var sel := SelectAmong(ps, s.remainingTime, s.serviceTime, |ps|);
    if sel >= 0 {
      PriorityStepDispatches(ps, s);
      DispatchPreserves(ps, s, sel);
    } else {
      PriorityIdleTick(ps, s);
    }
  }

  /** The invariant holds after any number of passes. */
  lemma {:induction false} PriorityAfterInvariant(ps: seq<Process>, k: nat)
    requires PriorityInput(ps)
    ensures PriorityInvariant(ps, PriorityAfter(ps, k))
  {
    if k == 0 {
      InitialBookkeeping(ps);
    } else {
      PriorityAfterInvariant(ps, k - 1);
      PriorityStepPreserves(ps, PriorityAfter(ps, k - 1));
    }
  }

  /** Passes only move forward: from pass `j` to a later pass `k` the clock never goes
      back, and the table and the trace only have entries appended. */
  lemma {:induction false} PriorityHistory(ps: seq<Process>, j: nat, k: nat)
    requires j <= k
    ensures PriorityAfter(ps, j).serviceTime <= PriorityAfter(ps, k).serviceTime
    ensures PriorityAfter(ps, j).schedule <= PriorityAfter(ps, k).schedule
    ensures PriorityAfter(ps, j).gantt <= PriorityAfter(ps, k).gantt
    decreases k - j
  {
    if j < k {
      PriorityHistory(ps, j, k - 1);
    }
  }

  /** Non-preemption, as written: if the selected process still has work after its
      pass, the next pass selects it again. A process of higher priority that arrives
      meanwhile cannot take over, because the clock does not move on busy passes. */
  lemma PriorityKeepsRunning(ps: seq<Process>, s: Ledger)
    requires PriorityInput(ps) && PriorityInvariant(ps, s)
    requires SelectAmong(ps, s.remainingTime, s.serviceTime, |ps|) >= 0
    ensures var sel := SelectAmong(ps, s.remainingTime, s.serviceTime, |ps|);
            var r := PriorityStep(ps, s);
            r.remainingTime[sel] > 0 ==> SelectAmong(ps, r.remainingTime, r.serviceTime, |ps|) == sel
  {
    var sel := SelectAmong(ps, s.remainingTime, s.serviceTime, |ps|);
    var r := PriorityStep(ps, s);
    PriorityStepDispatches(ps, s);
    NoRowNoWait(ps, s, sel);
    DispatchEffect(ps, s, sel);
    SelectAmongIsFirstHighest(ps, s.remainingTime, s.serviceTime, |ps|);
    if r.remainingTime[sel] > 0 {
      assert forall i :: 0 <= i < |ps| ==>
        (Ready(ps, r.remainingTime, r.serviceTime, i) <==> Ready(ps, s.remainingTime, s.serviceTime, i));
      SelectionCharacterised(ps, r.remainingTime, r.serviceTime, |ps|, sel);
    }
  }

  /** While the loop runs, each pass either uses up one unit of the remaining work, or
      leaves it and advances a clock that is still before the last arrival. */
  lemma PriorityProgress(ps: seq<Process>, s: Ledger)
    requires PriorityInput(ps) && PriorityInvariant(ps, s) && Continues(ps, s)
    ensures var r := PriorityStep(ps, s);
            SumOf(r.remainingTime) == SumOf(s.remainingTime) - 1 ||
            (r.remainingTime == s.remainingTime && s.serviceTime < LatestArrival(ps) &&
             r.serviceTime == s.serviceTime + 1)
  {
    var sel := SelectAmong(ps, s.remainingTime, s.serviceTime, |ps|);
    if sel >= 0 {
      PriorityStepDispatches(ps, s);
      NoRowNoWait(ps, s, sel);
      DispatchEffect(ps, s, sel);
      SumOfUpdate(s.remainingTime, sel, s.remainingTime[sel] - 1);
    } else {
      PriorityIdleTick(ps, s);
      SelectAmongIsFirstHighest(ps, s.remainingTime, s.serviceTime, |ps|);
      if s.serviceTime >= LatestArrival(ps) {
        // Every process has arrived, so none has work left, and the table is full.
        FinishedMeansFullTable(ps, s);
      }
    }
  }

  /** When the loop stops, every process has exactly one row. */
  lemma PriorityExit(ps: seq<Process>, s: Ledger)
    requires PriorityInput(ps) && PriorityInvariant(ps, s) && !Continues(ps, s)
    ensures |s.schedule| == |ps|
    ensures forall i :: 0 <= i < |ps| ==> HasPid(s.schedule, ps[i].id)
  {
    FullTableMeansAllStarted(ps, s);
  }

  /** Termination of the loop: each pass it runs lowers the measure, which stays at or
      above zero. */
  lemma PriorityRunProgress(ps: seq<Process>, k: nat)
    requires PriorityInput(ps) && Continues(ps, PriorityAfter(ps, k))
    ensures 0 <= Measure(ps, PriorityAfter(ps, k + 1)) < Measure(ps, PriorityAfter(ps, k))
  {
    PriorityAfterInvariant(ps, k);
    PriorityAfterInvariant(ps, k + 1);
    SumOfNonNegative(PriorityAfter(ps, k + 1).remainingTime);
    PriorityProgress(ps, PriorityAfter(ps, k));
  }

  /** The number of passes the loop makes when it has made `k` without stopping: the
      first `j >= k` at which the loop condition is false. */
  ghost function PriorityPassesFrom(ps: seq<Process>, k: nat): (n: nat)
    requires PriorityInput(ps)
    ensures k <= n
    decreases Measure(ps, PriorityAfter(ps, k))
  {
    if Continues(ps, PriorityAfter(ps, k)) then
      PriorityRunProgress(ps, k);
      PriorityPassesFrom(ps, k + 1)
    else k
  }

  /** The number of passes of a whole run. */
  ghost function PriorityPasses(ps: seq<Process>): nat
    requires PriorityInput(ps)
  {
    PriorityPassesFrom(ps, 0)
  }

  /** The state a whole run ends in: what `SJFPrioritySchedule` reports. */
  ghost function PriorityRun(ps: seq<Process>): Ledger
    requires PriorityInput(ps)
  {
    PriorityAfter(ps, PriorityPasses(ps))
  }

  lemma {:induction false} PriorityPassesFromStops(ps: seq<Process>, k: nat)
    requires PriorityInput(ps)
    ensures !Continues(ps, PriorityAfter(ps, PriorityPassesFrom(ps, k)))
    ensures forall j :: k <= j < PriorityPassesFrom(ps, k) ==> Continues(ps, PriorityAfter(ps, j))
    decreases Measure(ps, PriorityAfter(ps, k))
  {
    if Continues(ps, PriorityAfter(ps, k)) {
      PriorityRunProgress(ps, k);
      PriorityPassesFromStops(ps, k + 1);
    }
  }

  /** The run stops at the first pass where the loop condition is false. */
  lemma PriorityRunStops(ps: seq<Process>)
    requires PriorityInput(ps)
    ensures !Continues(ps, PriorityRun(ps))
    ensures forall j :: 0 <= j < PriorityPasses(ps) ==> Continues(ps, PriorityAfter(ps, j))
  {
    PriorityPassesFromStops(ps, 0);
  }

  /** The table a run reports: one row per process, no id twice, each row a row of this
      scheduler; the turnaround total is non-negative; and the trace's slices start in
      order, none after the final clock. */
  lemma PriorityRunTable(ps: seq<Process>)
    requires PriorityInput(ps)
    ensures var s := PriorityRun(ps);
            |s.schedule| == |ps| && DistinctRowIds(s.schedule) &&
            (forall i :: 0 <= i < |ps| ==> HasPid(s.schedule, ps[i].id)) &&
            (forall k :: 0 <= k < |s.schedule| ==> PriorityRow(ps, s.schedule[k])) &&
            s.totalTurnaround >= 0 &&
            StartsInOrderBy(s.gantt, s.serviceTime)
  {
    PriorityRunStops(ps);
    PriorityAfterInvariant(ps, PriorityPasses(ps));
    PriorityExit(ps, PriorityRun(ps));
  }

  /** One pass of the main loop of `SJFPrioritySchedule`, on the source's arrays and
      locals: it performs exactly `PriorityStep`. */
  method PriorityPass(ps: seq<Process>, waitingTime: array<int>, remainingTime: array<int>,
                      serviceTime0: int, totalTurnaround0: int, lastCompletion0: int,
                      schedule0: seq<Row>, gantt0: seq<TimeSlice>)
    returns (serviceTime: int, totalTurnaround: int, lastCompletion: int,
             schedule: seq<Row>, gantt: seq<TimeSlice>)
    requires waitingTime.Length == |ps| && remainingTime.Length == |ps| && waitingTime != remainingTime
    requires PriorityInput(ps)
    requires PriorityInvariant(ps, Ledger(serviceTime0, totalTurnaround0, lastCompletion0,
                                          waitingTime[..], remainingTime[..], schedule0, gantt0))
    modifies waitingTime, remainingTime
    ensures Ledger(serviceTime, totalTurnaround, lastCompletion, waitingTime[..], remainingTime[..], schedule, gantt)
            == PriorityStep(ps, Ledger(serviceTime0, totalTurnaround0, lastCompletion0,
                                       old(waitingTime[..]), old(remainingTime[..]), schedule0, gantt0))
  {
    ghost var s := Ledger(serviceTime0, totalTurnaround0, lastCompletion0,
                          waitingTime[..], remainingTime[..], schedule0, gantt0);
    serviceTime, totalTurnaround, lastCompletion, schedule, gantt :=
      serviceTime0, totalTurnaround0, lastCompletion0, schedule0, gantt0;
    var selected := SelectHighestPriority(ps, remainingTime, serviceTime);
    SelectionCharacterised(ps, s.remainingTime, s.serviceTime, |ps|, selected);
    var completed := false;
    if selected >= 0 {
      PriorityStepDispatches(ps, s);
      ghost var d := PriorityDispatch(ps, s, selected);
      if waitingTime[selected] == 0 {
        waitingTime[selected] := serviceTime - ps[selected].arrivalTime;
      }
      var known := ContainsPid(schedule, ps[selected].id);
      if !known {
        schedule := schedule + [FirstDispatchRow(ps[selected], waitingTime[selected], totalTurnaround, serviceTime)];
      }
      if remainingTime[selected] > 1 {
        remainingTime[selected] := remainingTime[selected] - 1;
      } else {
        remainingTime[selected] := 0;
        completed := true;
        totalTurnaround := totalTurnaround + (serviceTime - ps[selected].arrivalTime + 1);
        lastCompletion := serviceTime + 1;
      }
      gantt := gantt + [TimeSlice(ps[selected].id, serviceTime, serviceTime + 1)];
      assert Ledger(serviceTime, totalTurnaround, lastCompletion, waitingTime[..], remainingTime[..],
                    schedule, gantt) == d;
    } else {
      serviceTime := serviceTime + 1;
    }
    ClearFreshWaits(ps, waitingTime, remainingTime, schedule, serviceTime);
    if completed {
      // The source selects again here and never reads the result.
      var _ := SelectHighestPriority(ps, remainingTime, serviceTime);
    }
  }

  /** `SJFPrioritySchedule`, without the printing and the float averages. The arrays
      are the source's `waitingTime` and `remainingTime`. It reports the state a whole
      run ends in. */
  method SJFPrioritySchedule(ps: seq<Process>)
    returns (gantt: seq<TimeSlice>, schedule: seq<Row>, totalTurnaround: int, lastCompletion: int)
    requires PriorityInput(ps)
    ensures gantt == PriorityRun(ps).gantt && schedule == PriorityRun(ps).schedule
    ensures totalTurnaround == PriorityRun(ps).totalTurnaround
    ensures lastCompletion == PriorityRun(ps).lastCompletion
  {
    var serviceTime := 0;
    totalTurnaround := 0;
    lastCompletion := 0;
    var waitingTime, remainingTime := NewLedgerArrays(ps);
    schedule := [];
    gantt := [];
    var last := LastArrivalTime(ps);
    ghost var steps := 0;
    while serviceTime < last || |schedule| < |ps|
      invariant waitingTime.Length == |ps| && remainingTime.Length == |ps|
      invariant Ledger(serviceTime, totalTurnaround, lastCompletion, waitingTime[..], remainingTime[..],
                       schedule, gantt) == PriorityAfter(ps, steps)
      invariant PriorityPassesFrom(ps, steps) == PriorityPasses(ps)
      decreases Measure(ps, PriorityAfter(ps, steps))
    {
      assert Continues(ps, PriorityAfter(ps, steps));
      PriorityRunProgress(ps, steps);
      PriorityAfterInvariant(ps, steps);
      serviceTime, totalTurnaround, lastCompletion, schedule, gantt :=
        PriorityPass(ps, waitingTime, remainingTime, serviceTime, totalTurnaround, lastCompletion,
                     schedule, gantt);
      steps := steps + 1;
    }
  }
}
