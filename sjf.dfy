/** Shortest-job-first (`SJFSchedule`): sort the caller's processes in place by burst
    duration, then run the in-order pass of first-come, first-served over them. */
module ShortestJob {
  import opened Processes
  import opened FirstCome

  /** Bursts never decrease along the sequence. */
  predicate SortedByBurst(ps: seq<Process>) {
    forall i, j :: 0 <= i < j < |ps| ==> ps[i].burstDuration <= ps[j].burstDuration
  }

  /** Exchanges `a[j - 1]` and `a[j]`. */
  method SwapDown(a: array<Process>, j: int)
    requires 0 < j < a.Length
    modifies a
    ensures a[j - 1] == old(a[j]) && a[j] == old(a[j - 1])
    ensures forall k :: 0 <= k < a.Length && k != j - 1 && k != j ==> a[k] == old(a[k])
    ensures multiset(a[..]) == old(multiset(a[..]))
  {
    a[j - 1], a[j] := a[j], a[j - 1];
  }

  /** Moves `a[i]` down into the sorted prefix `a[..i]`, leaving `a[..i + 1]` sorted
      and the rest of the array untouched. */
  method InsertByBurst(a: array<Process>, i: int)
    requires 0 <= i < a.Length
    requires SortedByBurst(a[..i])
    modifies a
    ensures SortedByBurst(a[..i + 1])
    ensures forall k :: i < k < a.Length ==> a[k] == old(a[k])
    ensures multiset(a[..]) == old(multiset(a[..]))
  {
    var j := i;
    while j > 0 && a[j - 1].burstDuration > a[j].burstDuration
      invariant 0 <= j <= i
      invariant forall k, l :: 0 <= k < l <= i && k != j && l != j ==>
        a[k].burstDuration <= a[l].burstDuration
      invariant forall l :: j < l <= i ==> a[j].burstDuration <= a[l].burstDuration
      invariant forall k :: i < k < a.Length ==> a[k] == old(a[k])
      invariant multiset(a[..]) == old(multiset(a[..]))
    {
      SwapDown(a, j);
      j := j - 1;
    }
  }

  /** The `sort.Slice` call with the "shorter burst first" comparison: afterwards the
      array holds the same processes, ordered by non-decreasing burst. The order of
      equal bursts is left open, as `sort.Slice` is not stable. */
  method SortByBurst(a: array<Process>)
    modifies a
    ensures SortedByBurst(a[..])
    ensures multiset(a[..]) == old(multiset(a[..]))
  {
    for i := 0 to a.Length
      invariant SortedByBurst(a[..i])
      invariant multiset(a[..]) == old(multiset(a[..]))
    {
      InsertByBurst(a, i);
    }
    assert a[..a.Length] == a[..];
  }

  /** `SJFSchedule`, without the printing and the float averages. The caller's array is
      left sorted, so later schedulers that share it see the sorted order. */
  method SJFSchedule(processes: array<Process>)
    returns (gantt: seq<TimeSlice>, schedule: seq<Row>,
             totalWait: int, totalTurnaround: int, lastCompletion: int)
    modifies processes
    ensures SortedByBurst(processes[..])
    ensures multiset(processes[..]) == old(multiset(processes[..]))
    ensures InOrderSchedule(processes[..], gantt, schedule, totalWait, totalTurnaround, lastCompletion)
  {
    SortByBurst(processes);
    gantt, schedule, totalWait, totalTurnaround, lastCompletion := FCFSSchedule(processes[..]);
  }
}
