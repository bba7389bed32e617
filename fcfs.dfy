/** First-come, first-served (`FCFSSchedule`): one pass over the processes in input order.
    The same pass is the second half of `SJFSchedule`. */
module FirstCome {
  import opened Processes

  /** The last index below `k` whose arrival time is positive, or -1 if there is none. */
  function LastArrivedBefore(ps: seq<Process>, k: nat): (r: int)
    requires k <= |ps|
    ensures -1 <= r < k
    ensures r >= 0 ==> ps[r].arrivalTime > 0
  {
    if k == 0 then -1
    else if ps[k - 1].arrivalTime > 0 then k - 1
    else LastArrivedBefore(ps, k - 1)
  }

  /** No process after the one `LastArrivedBefore` finds has a positive arrival time. */
  lemma {:induction false} LastArrivedBeforeIsLast(ps: seq<Process>, k: nat)
    requires k <= |ps|
    ensures forall j :: LastArrivedBefore(ps, k) < j < k ==> ps[j].arrivalTime <= 0
  {
    if k > 0 && ps[k - 1].arrivalTime <= 0 {
      LastArrivedBeforeIsLast(ps, k - 1);
    }
  }

  /** The waiting time the pass reports for process `i`: a process with a positive
      arrival time waits for every earlier burst, less its arrival time; any other
      process keeps the previous process's wait, and the first one keeps 0. */
  function CarriedWait(ps: seq<Process>, i: nat): int
    requires i < |ps|
  {
    if ps[i].arrivalTime > 0 then BurstSum(ps, i) - ps[i].arrivalTime
    else if i == 0 then 0
    else CarriedWait(ps, i - 1)
  }

  /** The carried wait in closed form: it is the wait of the last process at or before
      `i` whose arrival time is positive, or 0 when there is none. */
  lemma {:induction false} CarriedWaitOfLastArrived(ps: seq<Process>, i: nat)
    requires i < |ps|
    ensures var j := LastArrivedBefore(ps, i + 1);
      CarriedWait(ps, i) == if j < 0 then 0 else BurstSum(ps, j) - ps[j].arrivalTime
  {
    if ps[i].arrivalTime <= 0 && i > 0 {
      CarriedWaitOfLastArrived(ps, i - 1);
    }
  }

  /** When no process up to `i` has a positive arrival time, none of them waits: the
      carried wait stays at its initial 0. */
  lemma {:induction false} NoLateArrivalsNoWait(ps: seq<Process>, i: nat)
    requires i < |ps|
    requires forall j :: 0 <= j <= i ==> ps[j].arrivalTime <= 0
    ensures CarriedWait(ps, i) == 0
  {
    if i > 0 {
      NoLateArrivalsNoWait(ps, i - 1);
    }
  }

  /** Sum of the Wait column. */
  function TotalWait(rows: seq<Row>): int {
    if rows == [] then 0 else TotalWait(rows[..|rows| - 1]) + rows[|rows| - 1].wait
  }

  /** Sum of the Turnaround column. */
  function TotalTurnaround(rows: seq<Row>): int {
    if rows == [] then 0 else TotalTurnaround(rows[..|rows| - 1]) + rows[|rows| - 1].turnaround
  }

  /** Row `r` is what the pass writes for process `i`. */
  predicate InOrderRow(ps: seq<Process>, i: nat, r: Row)
    requires i < |ps|
  {
    r.Row? &&
    r.id == ps[i].id && r.priority == ps[i].priority &&
    r.burst == ps[i].burstDuration && r.arrival == ps[i].arrivalTime &&
    r.wait == CarriedWait(ps, i) &&
    r.turnaround == r.burst + r.wait &&
    r.exit == r.arrival + r.turnaround
  }

  /** The first `|schedule|` rows the pass writes, in input order. */
  predicate RowsUpTo(ps: seq<Process>, schedule: seq<Row>) {
    |schedule| <= |ps| &&
    forall i {:trigger schedule[i]} :: 0 <= i < |schedule| ==> InOrderRow(ps, i, schedule[i])
  }

  /** The slice the pass draws for process `i`: from arrival plus wait up to the sum
      of the first `i + 1` bursts. */
  predicate InOrderSlice(ps: seq<Process>, i: nat, g: TimeSlice)
    requires i < |ps|
  {
    g == TimeSlice(ps[i].id, ps[i].arrivalTime + CarriedWait(ps, i), BurstSum(ps, i + 1))
  }

  /** The first `|gantt|` slices the pass draws, in input order. */
  predicate GanttUpTo(ps: seq<Process>, gantt: seq<TimeSlice>) {
    |gantt| <= |ps| &&
    forall i {:trigger gantt[i]} :: 0 <= i < |gantt| ==> InOrderSlice(ps, i, gantt[i])
  }

  /** One row per process, in input order, as the pass writes them. */
  predicate InOrderRows(ps: seq<Process>, schedule: seq<Row>) {
    |schedule| == |ps| && RowsUpTo(ps, schedule)
  }

  /** One slice per process, in input order. */
  predicate InOrderGantt(ps: seq<Process>, gantt: seq<TimeSlice>) {
    |gantt| == |ps| && GanttUpTo(ps, gantt)
  }

  lemma RowsUpToAppend(ps: seq<Process>, schedule: seq<Row>, row: Row)
    requires RowsUpTo(ps, schedule) && |schedule| < |ps|
    requires InOrderRow(ps, |schedule|, row)
    ensures RowsUpTo(ps, schedule + [row])
    ensures TotalWait(schedule + [row]) == TotalWait(schedule) + row.wait
    ensures TotalTurnaround(schedule + [row]) == TotalTurnaround(schedule) + row.turnaround
  {
    var rs := schedule + [row];
    assert rs[..|schedule|] == schedule;
    forall i | 0 <= i < |rs| ensures InOrderRow(ps, i, rs[i]) {
      if i < |schedule| { assert rs[i] == schedule[i]; }
    }
  }

  lemma GanttUpToAppend(ps: seq<Process>, gantt: seq<TimeSlice>, g: TimeSlice)
    requires GanttUpTo(ps, gantt) && |gantt| < |ps|
    requires InOrderSlice(ps, |gantt|, g)
    ensures GanttUpTo(ps, gantt + [g])
  {
    var gs := gantt + [g];
    forall i | 0 <= i < |gs| ensures InOrderSlice(ps, i, gs[i]) {
      if i < |gantt| { assert gs[i] == gantt[i]; }
    }
  }

  /** The outputs of one in-order pass over `ps`: its rows and slices, the column sums
      as totals, and the last row's exit (0 for no processes) as the last completion. */
  predicate InOrderSchedule(ps: seq<Process>, gantt: seq<TimeSlice>, schedule: seq<Row>,
                            totalWait: int, totalTurnaround: int, lastCompletion: int)
  {
    InOrderRows(ps, schedule) && InOrderGantt(ps, gantt) &&
    totalWait == TotalWait(schedule) &&
    totalTurnaround == TotalTurnaround(schedule) &&
    lastCompletion == (if |ps| == 0 then 0 else schedule[|ps| - 1].exit)
  }

  /** `FCFSSchedule`, without the printing and the float averages. */
  method FCFSSchedule(ps: seq<Process>)
    returns (gantt: seq<TimeSlice>, schedule: seq<Row>,
             totalWait: int, totalTurnaround: int, lastCompletion: int)
    ensures InOrderSchedule(ps, gantt, schedule, totalWait, totalTurnaround, lastCompletion)
  {
    var serviceTime := 0;
    var waitingTime := 0;
    totalWait, totalTurnaround, lastCompletion := 0, 0, 0;
    schedule, gantt := [], [];
    for i := 0 to |ps|
      invariant |schedule| == i && |gantt| == i
      invariant serviceTime == BurstSum(ps, i)
      invariant waitingTime == if i == 0 then 0 else CarriedWait(ps, i - 1)
      invariant RowsUpTo(ps, schedule) && GanttUpTo(ps, gantt)
      invariant totalWait == TotalWait(schedule)
      invariant totalTurnaround == TotalTurnaround(schedule)
      invariant lastCompletion == if i == 0 then 0 else schedule[i - 1].exit
    {
      var p := ps[i];
      if p.arrivalTime > 0 {
        waitingTime := serviceTime - p.arrivalTime;
      }
      totalWait := totalWait + waitingTime;
      var start := waitingTime + p.arrivalTime;
      var turnaround := p.burstDuration + waitingTime;
      totalTurnaround := totalTurnaround + turnaround;
      var completion := p.burstDuration + p.arrivalTime + waitingTime;
      lastCompletion := completion;
      var row := Row(p.id, p.priority, p.burstDuration, p.arrivalTime, waitingTime, turnaround, completion);
      RowsUpToAppend(ps, schedule, row);
      schedule := schedule + [row];
      serviceTime := serviceTime + p.burstDuration;
      GanttUpToAppend(ps, gantt, TimeSlice(p.id, start, serviceTime));
      gantt := gantt + [TimeSlice(p.id, start, serviceTime)];
    }
  }

  /** Total turnaround exceeds total wait by exactly the sum of all bursts. */
  lemma {:induction false} TurnaroundExceedsWaitByBursts(ps: seq<Process>, k: nat, schedule: seq<Row>)
    requires RowsUpTo(ps, schedule) && k <= |schedule|
    ensures TotalTurnaround(schedule[..k]) == TotalWait(schedule[..k]) + BurstSum(ps, k)
  {
    if k > 0 {
      assert schedule[..k][..k - 1] == schedule[..k - 1];
      TurnaroundExceedsWaitByBursts(ps, k - 1, schedule);
      assert InOrderRow(ps, k - 1, schedule[k - 1]);
    }
  }

  /** In any in-order schedule: every row's turnaround is its burst plus its wait and its
      exit is its slice start plus its burst; a process with a positive arrival time
      starts exactly where the previous slice stopped (at 0 for the first) and its
      exit is its slice's stop; and the totals differ by the sum of the bursts. */
  lemma InOrderTiming(ps: seq<Process>, gantt: seq<TimeSlice>, schedule: seq<Row>,
                      totalWait: int, totalTurnaround: int, lastCompletion: int)
    requires InOrderSchedule(ps, gantt, schedule, totalWait, totalTurnaround, lastCompletion)
    ensures forall i :: 0 <= i < |ps| ==>
      schedule[i].turnaround == schedule[i].burst + schedule[i].wait &&
      schedule[i].exit == gantt[i].start + schedule[i].burst
    ensures forall i :: 0 < i < |ps| && ps[i].arrivalTime > 0 ==> gantt[i].start == gantt[i - 1].stop
    ensures |ps| > 0 && ps[0].arrivalTime > 0 ==> gantt[0].start == 0
    ensures forall i :: 0 <= i < |ps| && ps[i].arrivalTime > 0 ==> schedule[i].exit == gantt[i].stop
    ensures totalTurnaround == totalWait + BurstSum(ps, |ps|)
  {
    forall i | 0 <= i < |ps|
      ensures ps[i].arrivalTime > 0 ==> gantt[i].start == BurstSum(ps, i)
    {
      assert InOrderSlice(ps, i, gantt[i]);
    }
    TurnaroundExceedsWaitByBursts(ps, |ps|, schedule);
    assert schedule[..|ps|] == schedule;
  }

  /** Three processes arriving at 0, 1 and 2 with bursts 5, 3 and 2. */
  const ThreeArrivals: seq<Process> := [Process(1, 0, 5, 0), Process(2, 1, 3, 0), Process(3, 2, 2, 0)]

  lemma ThreeArrivalsWaits()
    ensures CarriedWait(ThreeArrivals, 0) == 0 && BurstSum(ThreeArrivals, 1) == 5
    ensures CarriedWait(ThreeArrivals, 1) == 4 && BurstSum(ThreeArrivals, 2) == 8
    ensures CarriedWait(ThreeArrivals, 2) == 6 && BurstSum(ThreeArrivals, 3) == 10
  {
  }

  /** The three-process example: the processes wait 0, 4 and 6 and exit at 5, 8 and 10
      (the second one waits from its arrival at 1 until the first burst ends at 5). */
  lemma InOrderExample(gantt: seq<TimeSlice>, schedule: seq<Row>)
    requires InOrderRows(ThreeArrivals, schedule) && InOrderGantt(ThreeArrivals, gantt)
    ensures schedule == [Row(1, 0, 5, 0, 0, 5, 5), Row(2, 0, 3, 1, 4, 7, 8), Row(3, 0, 2, 2, 6, 8, 10)]
    ensures gantt == [TimeSlice(1, 0, 5), TimeSlice(2, 5, 8), TimeSlice(3, 8, 10)]
  {
    ThreeArrivalsWaits();
    assert InOrderRow(ThreeArrivals, 0, schedule[0]);
    assert InOrderRow(ThreeArrivals, 1, schedule[1]);
    assert InOrderRow(ThreeArrivals, 2, schedule[2]);
    assert gantt[0] == TimeSlice(1, 0, 5) && gantt[1] == TimeSlice(2, 5, 8) && gantt[2] == TimeSlice(3, 8, 10);
  }

  /** Two processes that both arrive at 0, with bursts 5 and 3. */
  const TwoAtZero: seq<Process> := [Process(1, 0, 5, 0), Process(2, 0, 3, 0)]

  /** As written, the slices of processes arriving at 0 overlap: the second process
      keeps the first one's wait of 0, so its slice starts at 0 and runs to the end of
      both bursts, over the first slice. */
  lemma OverlapExample(gantt: seq<TimeSlice>, schedule: seq<Row>)
    requires InOrderRows(TwoAtZero, schedule) && InOrderGantt(TwoAtZero, gantt)
    ensures schedule == [Row(1, 0, 5, 0, 0, 5, 5), Row(2, 0, 3, 0, 0, 3, 3)]
    ensures gantt == [TimeSlice(1, 0, 5), TimeSlice(2, 0, 8)]
  {
    assert CarriedWait(TwoAtZero, 1) == 0 && BurstSum(TwoAtZero, 2) == 8;
    assert InOrderRow(TwoAtZero, 0, schedule[0]);
    assert InOrderRow(TwoAtZero, 1, schedule[1]);
    assert gantt[0] == TimeSlice(1, 0, 5) && gantt[1] == TimeSlice(2, 0, 8);
  }

  /** A process that arrives after the CPU has gone idle. */
  const LateArrival: seq<Process> := [Process(1, 0, 1, 0), Process(2, 10, 1, 0)]

  /** As written, a wait is the earlier bursts less the arrival, with no floor at 0: the
      second process waits -9, runs in [1, 2) and exits at 2, before it arrives at 10. */
  lemma EarlyExitExample(gantt: seq<TimeSlice>, schedule: seq<Row>)
    requires InOrderRows(LateArrival, schedule) && InOrderGantt(LateArrival, gantt)
    ensures schedule == [Row(1, 0, 1, 0, 0, 1, 1), Row(2, 0, 1, 10, -9, -8, 2)]
    ensures gantt == [TimeSlice(1, 0, 1), TimeSlice(2, 1, 2)]
    ensures schedule[1].exit < LateArrival[1].arrivalTime
  {
    assert CarriedWait(LateArrival, 1) == -9 && BurstSum(LateArrival, 2) == 2;
    assert InOrderRow(LateArrival, 0, schedule[0]);
    assert InOrderRow(LateArrival, 1, schedule[1]);
    assert gantt[0] == TimeSlice(1, 0, 1) && gantt[1] == TimeSlice(2, 1, 2);
  }
}
