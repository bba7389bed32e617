/** The order in which `main` runs the four schedulers on one array of processes
    (Project1/main.go), without reading the file and without printing. Because
    `SJFSchedule` sorts the array in place, the priority and round-robin schedulers
    that follow it see the processes ordered by burst. */
module Scheduler {
  import opened Processes
  import opened FirstCome
  import opened ShortestJob
  import Priority
  import RoundRobin

  /** What one scheduler reports: the Gantt trace, the table and the integer totals.
      The priority and round-robin schedulers average their turnaround total and
      print it as the average wait, so for them `totalWait` is that same total. */
  datatype Report = Report(gantt: seq<TimeSlice>, schedule: seq<Row>,
                           totalWait: int, totalTurnaround: int, lastCompletion: int)

  /** The quantum `main` passes to the round-robin scheduler. */
  const Quantum: int := 10

  /** A value at two places of a sequence occurs at least twice in it. */
  lemma {:induction false} TwiceCounted(s: seq<Process>, i: nat, j: nat)
    requires i < j < |s| && s[i] == s[j]
    ensures multiset(s)[s[i]] >= 2
  {
    assert s == s[..j] + [s[j]] + s[j + 1..];
    assert s[..j][i] == s[i];
    assert s[i] in multiset(s[..j]);
  }

  /** With distinct ids, no process occurs twice. */
  lemma {:induction false} CountedOnce(a: seq<Process>, x: Process)
    requires DistinctIds(a)
    ensures multiset(a)[x] <= 1
  {
    if a != [] {
      assert a == [a[0]] + a[1..];
      CountedOnce(a[1..], x);
      if a[0] == x {
        assert forall k :: 0 <= k < |a[1..]| ==> a[1..][k].id != x.id;
        assert x !in a[1..];
      }
    }
  }

  /** Reordering the processes keeps their ids distinct, their bursts positive and
      their priorities below the sentinel: what the priority scheduler needs of the
      sorted array, it has of the caller's. */
  lemma PriorityInputPermuted(a: seq<Process>, b: seq<Process>)
    requires multiset(a) == multiset(b) && Priority.PriorityInput(a)
    ensures Priority.PriorityInput(b)
  {
    forall i | 0 <= i < |b| ensures b[i].burstDuration > 0 && b[i].priority < MaxInt64 {
      assert b[i] in multiset(a);
    }
    forall i, j | 0 <= i < j < |b| ensures b[i].id != b[j].id {
      if b[i] == b[j] {
        CountedOnce(a, b[i]);
        TwiceCounted(b, i, j);
        assert false;
      } else {
        assert b[i] in multiset(a) && b[j] in multiset(a);
        var k :| 0 <= k < |a| && a[k] == b[i];
        var l :| 0 <= l < |a| && a[l] == b[j];
        assert a[k].id != a[l].id by {
          if k < l {} else {}
        }
      }
    }
  }

  /** `main` after loading: first-come, first-served on the array as given, then
      shortest-job-first, which sorts it, then priority and round robin (quantum 10)
      on the sorted array. */
  method ScheduleAll(processes: array<Process>)
    returns (firstCome: Report, shortestJob: Report, priority: Report, roundRobin: Report)
    requires Priority.PriorityInput(processes[..])
    modifies processes
    ensures InOrderSchedule(old(processes[..]), firstCome.gantt, firstCome.schedule, firstCome.totalWait,
                            firstCome.totalTurnaround, firstCome.lastCompletion)
    ensures SortedByBurst(processes[..]) && multiset(processes[..]) == old(multiset(processes[..]))
    ensures InOrderSchedule(processes[..], shortestJob.gantt, shortestJob.schedule, shortestJob.totalWait,
                            shortestJob.totalTurnaround, shortestJob.lastCompletion)
    ensures Priority.PriorityInput(processes[..]) && RoundRobin.RoundRobinInput(processes[..], Quantum)
    ensures var s := Priority.PriorityRun(processes[..]);
            priority == Report(s.gantt, s.schedule, s.totalTurnaround, s.totalTurnaround, s.lastCompletion)
    ensures var s := RoundRobin.RoundRobinRun(processes[..], Quantum);
            roundRobin == Report(s.gantt, s.schedule, s.totalTurnaround, s.totalTurnaround, s.lastCompletion)
  {
    var g, rows, w, t, c := FCFSSchedule(processes[..]);
    firstCome := Report(g, rows, w, t, c);
    g, rows, w, t, c := SJFSchedule(processes);
    shortestJob := Report(g, rows, w, t, c);
    PriorityInputPermuted(old(processes[..]), processes[..]);
    g, rows, t, c := Priority.SJFPrioritySchedule(processes[..]);
    priority := Report(g, rows, t, t, c);
    g, rows, t, c := RoundRobin.RRSchedule(processes[..], Quantum);
    roundRobin := Report(g, rows, t, t, c);
  }
}
