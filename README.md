# CPU scheduling simulators, modelled in Dafny

This project models the four CPU-scheduling simulators of `Project1/main.go` and proves properties of them. Each scheduler takes a sequence of processes (id, arrival time, burst duration, priority). It produces a Gantt trace of time slices and a table with one row per process.

- **First-come, first-served** (`FCFSSchedule`) makes one pass in input order. Each process waits for all earlier bursts, less its own arrival time. A process whose arrival time is not positive keeps the previous process's wait.
- **Shortest-job-first** (`SJFSchedule`) sorts the caller's slice in place by burst duration. It then makes the same pass.
- **Priority** (`SJFPrioritySchedule`) is a loop over per-process waiting and remaining times. Each pass dispatches, for one unit, the first ready process with the lowest priority number. When nothing is ready, the pass advances the clock by one instead.
- **Round robin** (`RRSchedule`) repeatedly scans the processes in index order. Each ready process runs for one quantum, or for whatever is left of its burst.
- **Helpers:** `containsPID` looks a row up by id, and `lastArrivalTime` computes the latest arrival.

The model follows the code as written, including these behaviours:

- **FCFS example.** Arrivals 0, 1, 2 with bursts 5, 3, 2 give waits 0, 4, 6 and exits 5, 8, 10 (`FirstCome.InOrderExample`).
- **Negative waits.** FCFS (and SJF after its sort) computes a late arrival's wait as the earlier bursts less its arrival, with no floor at 0. Arrivals 0, 10 with bursts 1, 1 give the second process a wait of -9, the slice [1, 2) and an exit at 2, before its own arrival (`FirstCome.EarlyExitExample`).
- **Priority is not preemptive.** The clock moves only on idle passes. A dispatched process therefore keeps the CPU, at one and the same time stamp, until its burst is used up or the loop stops (next bullet): while the loop runs, the next pass selects it again (`Priority.PriorityKeepsRunning`).
- **Priority stops early.** The loop stops as soon as the clock has reached the last arrival and every process has a row. Some processes may still have work left. For arrivals 0, 1, bursts 5, 3 and priorities 2, 1, the run is: process 1 is dispatched five times at time 0, the clock moves to 1, process 2 is dispatched once, and the run stops with 2 units of process 2 never run (`PriorityExample.TwoProcessesRun`).
- **Priority table identity.** The table's turnaround column minus its wait column is the turnaround total so far, not the burst.
- **Round-robin slices.** Every slice is recorded as one quantum long, even when the process ran for less.
- **Overlapping slices.** The trace can give the CPU to two processes at once.
  - FCFS: arrivals 0, 0 with bursts 5, 3 give the slices [0, 5) and [0, 8), because the second process keeps the first one's wait of 0 (`FirstCome.OverlapExample`).
  - Priority: the clock does not move on busy passes, so two processes that both arrive at 0 with burst 1 both get the slice [0, 1).
  - Round robin: a slice recorded as a full quantum after a shorter run starts before the previous slice ends.
  - What does hold: priority slices start in order and never after the clock, and round-robin slices start strictly in order and end by the clock (`Priority.PriorityRunTable`, `RoundRobin.RoundRobinRunTable`).
- **Round-robin columns.** The wait column holds the turnaround total so far.
- **Round-robin last completion.** The last completion time is never set, so it stays 0.
- **Round-robin example.** One process with burst 7 and quantum 3 yields the single slice [0, 3) and stops with 4 units left (`RoundRobinExample.OneProcessRuns`).

How the model is built:

- **Data.** `Processes.Process` and `Processes.TimeSlice` are the source's two record types (`Project1/main.go:63-75`). Rows are integer records. `containsPID` compares ids. The source compares decimal strings, and that comparison is the same because the decimal form of an int64 is unique.
- **Loops as methods.** The loops are methods over arrays and sequences, proved against pure specification functions. The priority and round-robin loops are each specified by a one-pass function (`Priority.PriorityStep`, `RoundRobin.RoundRobinStep`) and its iterate.
- **Run length.** The number of passes a whole run makes is a ghost function. It is justified by a measure: the remaining work, plus the distance from the clock to the last arrival.
- **Shared state.** The `Timing` module holds the timing state that the two loop schedulers share (the `Ledger` value). It also holds the bookkeeping invariant common to both: a process has a row exactly when it has been dispatched, no id appears twice, and remaining times stay between 0 and the burst.

Modules:

- `Processes`: records and sums.
- `Helpers`: the two helpers.
- `FirstCome`: FCFS.
- `ShortestJob`: SJF and its sort.
- `Timing`: the shared timing state (`Ledger`) and its bookkeeping.
- `Priority`: the priority scheduler.
- `PriorityExample`: a worked priority run.
- `RoundRobin`: the round-robin scheduler.
- `RoundRobinExample`: worked round-robin runs.
- `Scheduler`: the order in which `main` calls the four schedulers.

## Model

| member | source | states |
|---|---|---|
| `Helpers.LatestArrival` | Project1/main.go:387-395 | the latest arrival is at least 0, at least every arrival time, and either 0 or some process's arrival time |
| `Helpers.LastArrivalTime` | Project1/main.go:387-395 | the running-maximum loop returns exactly the latest arrival |
| `Helpers.ContainsPid` | Project1/main.go:379-386 | the scan answers true exactly when some row of the table has the id |
| `FirstCome.CarriedWait` | Project1/main.go:89-96 | the wait the pass carries into process i: a positive arrival resets it to the earlier bursts less the arrival, any other process keeps the previous one (its closed form is `FirstCome.CarriedWaitOfLastArrived`) |
| `FirstCome.CarriedWaitOfLastArrived` | Project1/main.go:93-96 | a process's wait is that of the last process at or before it with a positive arrival (the earlier bursts less its arrival), or 0 when there is none |
| `FirstCome.LastArrivedBeforeIsLast` | Project1/main.go:94-96 | the index found is the last one below k with a positive arrival time: no process after it has one |
| `FirstCome.NoLateArrivalsNoWait` | Project1/main.go:89-96 | when no process up to `i` has a positive arrival time, the wait carried into `i` is 0 |
| `FirstCome.FCFSSchedule` | Project1/main.go:83-133 | one row and one slice per process in input order; each row's wait is the carried wait, turnaround = burst + wait, exit = arrival + turnaround; slice i stops at the sum of bursts 0..i; the totals are the column sums; the last completion is the last exit |
| `FirstCome.TurnaroundExceedsWaitByBursts` | Project1/main.go:97-102 | over any prefix of the table, total turnaround = total wait + the sum of the bursts |
| `FirstCome.InOrderTiming` | Project1/main.go:93-123 | in every in-order schedule, exit = slice start + burst; a process with a positive arrival starts where the previous slice stopped (0 for the first) and exits at its slice's stop; total turnaround = total wait + all bursts |
| `FirstCome.OverlapExample` | Project1/main.go:93-123 | arrivals 0, 0 with bursts 5, 3 give rows with waits 0, 0 and exits 5, 3, and the overlapping slices [0,5) and [0,8) |
| `FirstCome.EarlyExitExample` | Project1/main.go:93-123 | arrivals 0, 10 with bursts 1, 1 give the second process a wait of -9, turnaround -8, the slice [1,2) and an exit at 2, before its arrival at 10 |
| `FirstCome.InOrderExample` | Project1/main.go:93-123 | arrivals 0, 1, 2 with bursts 5, 3, 2 give rows with waits 0, 4, 6 and exits 5, 8, 10, and slices [0,5), [5,8), [8,10) |
| `ShortestJob.InsertByBurst` | Project1/main.go:243-245 | one insertion step extends the sorted prefix by one, leaves the rest of the array alone and keeps the same multiset |
| `ShortestJob.SortByBurst` | Project1/main.go:243-245 | the array ends ordered by non-decreasing burst and is a permutation of what it was |
| `ShortestJob.SJFSchedule` | Project1/main.go:231-289 | the caller's array is left sorted by burst and a permutation of the input, and the outputs are exactly the in-order pass over the sorted array |
| `Timing.InitialLedger` | Project1/main.go:140-149 | the starting state has one wait and one remaining time per process (its bookkeeping is `Timing.InitialBookkeeping`) |
| `Timing.InitialBookkeeping` | Project1/main.go:140-149 | the zeroed waits, the remaining times set to the bursts and the empty table satisfy the shared bookkeeping |
| `Timing.NewLedgerArrays` | Project1/main.go:140-149 | the two fresh, distinct arrays hold all-zero waits and remaining times equal to the bursts |
| `Timing.ClearFreshWaits` | Project1/main.go:201-205 | the reset loop zeroes exactly the waits of processes that arrive now, still have work and have no row |
| `Timing.FreshWaitsCleared` | Project1/main.go:201-205 | the reset keeps one wait per process (what it changes is stated by `Timing.ClearFreshWaits` and `Timing.FreshWaitsClearedUnchanged`) |
| `Timing.FreshWaitsClearedUnchanged` | Project1/main.go:359-363 | under the bookkeeping the reset changes no waiting time, because a process without a row still has wait 0 |
| `Timing.NoRowNoWait` | Project1/main.go:167-169 | under the bookkeeping a process without a row still has waiting time 0, so its first dispatch or visit records its wait |
| `Timing.FullTableMeansAllStarted` | Project1/main.go:151 | once the table has a row per process, every process has been dispatched and has a row |
| `Timing.CountStartedAll` | Project1/main.go:151 | the table is full (count of dispatched processes = n) exactly when every process has been dispatched |
| `Priority.SelectAmong` | Project1/main.go:159-164 | the scan returns -1 or an index below k (which index is stated by `Priority.SelectionCharacterised`) |
| `Priority.SelectionCharacterised` | Project1/main.go:159-164 | the strict-`<` scan picks sel exactly when sel is the lowest index among ready processes of minimal priority below MaxInt64, or -1 exactly when no ready process has a priority below MaxInt64 |
| `Priority.SelectHighestPriority` | Project1/main.go:152-164 | the selection loop returns the first ready process of highest priority, or -1 |
| `Priority.PriorityDispatch` | Project1/main.go:166-196 | a dispatch keeps one wait and one remaining time per process (its effect is stated by `Priority.DispatchEffect`) |
| `Priority.PriorityStep` | Project1/main.go:152-217 | a pass keeps one wait and one remaining time per process (its effect is stated by `Priority.PriorityIdleTick` and `Priority.PriorityStepDispatches`) |
| `Priority.PriorityIdleTick` | Project1/main.go:197-199 | when nothing is ready, a pass only advances the clock by one |
| `Priority.DispatchEffect` | Project1/main.go:166-196 | for a process with work left (and wait 0 while it has no row), a dispatch keeps the clock, takes exactly one unit from it, appends the slice [t, t+1), appends a row with wait t - arrival exactly on the first dispatch, and adds t - arrival + 1 to the turnaround total and sets the last completion to t + 1 exactly when the process finishes |
| `Priority.PriorityStepDispatches` | Project1/main.go:166-205 | a pass that selects a process dispatches that ready process, and the reset that follows changes nothing |
| `Priority.DispatchKeepsBookkeeping` | Project1/main.go:166-196 | a dispatch keeps row-iff-dispatched, distinct row ids and remaining times between 0 and the burst |
| `Priority.DispatchKeepsRows` | Project1/main.go:171-196 | every row copies its process, has 0 <= wait <= turnaround and exit = turnaround + burst; every slice is one unit long; slices start in order and never after the clock |
| `Priority.DispatchPreserves` | Project1/main.go:166-196 | a dispatch keeps the whole loop invariant |
| `Priority.PriorityStepPreserves` | Project1/main.go:151-217 | every pass keeps the loop invariant |
| `Priority.PriorityAfterInvariant` | Project1/main.go:151-218 | the loop invariant holds after any number of passes |
| `Priority.PriorityHistory` | Project1/main.go:151-218 | from one pass to any later one the clock never goes back, and the table and the trace only grow by appending |
| `Priority.PriorityKeepsRunning` | Project1/main.go:166-199 | non-preemption as written: if the selected process still has work after its pass, the next pass selects it again |
| `Priority.PriorityProgress` | Project1/main.go:151-199 | while the loop runs, a pass either uses up exactly one unit of remaining work, or leaves the work and advances a clock that is still before the last arrival |
| `Priority.PriorityRunProgress` | Project1/main.go:151 | each pass the loop runs lowers the non-negative measure |
| `Priority.PriorityExit` | Project1/main.go:151 | when the loop condition fails, the table has exactly one row per process |
| `Priority.PriorityPassesFromStops` | Project1/main.go:151 | the pass count found is the first at which the loop condition fails |
| `Priority.PriorityRunStops` | Project1/main.go:151 | a whole run stops at the first pass where the loop condition fails |
| `Priority.PriorityRunTable` | Project1/main.go:151-218 | a run's table has one row per process, no id twice, every row a row of this scheduler, and a non-negative turnaround total; its slices start in order and none after the final clock |
| `Priority.PriorityPass` | Project1/main.go:152-217 | one pass on the arrays and locals performs exactly the pass function, including the discarded second selection |
| `Priority.SJFPrioritySchedule` | Project1/main.go:135-228 | the method reports the Gantt trace, table, turnaround total and last completion of the whole run |
| `PriorityExample.TwoProcessesRun` | Project1/main.go:135-228 | arrivals 0, 1, bursts 5, 3 and priorities 2, 1 take seven passes: five slices [0,1) for process 1, then one slice [1,2) for process 2; rows (1,2,5,0,0,0,5) and (2,1,3,1,0,1,4), a turnaround total of 1, a last completion at 1, and 2 units of process 2 left |
| `RoundRobin.Visit` | Project1/main.go:316-350 | a visit keeps one wait and one remaining time per process (its effect is stated by `RoundRobin.VisitEffect`) |
| `RoundRobin.Scan` | Project1/main.go:315-352 | the scan keeps one wait and one remaining time per process (its effect is stated by `RoundRobin.ScanKeepsInvariant`, `RoundRobin.ScanMeasure` and `RoundRobin.ScanGrows`) |
| `RoundRobin.RoundRobinStep` | Project1/main.go:312-363 | a pass keeps one wait and one remaining time per process (its effect is stated by `RoundRobin.RoundRobinStepIsScan`) |
| `RoundRobin.VisitEffect` | Project1/main.go:316-350 | a visit to a ready process advances the clock by min(remaining, quantum) and takes the same amount from the remaining time; it appends the slice [new time - quantum, new time); it appends a row (wait = turnaround total, turnaround = total + arrival) exactly on the first visit; it adds new time - arrival to the total exactly when the process finishes; the last completion is unchanged |
| `RoundRobin.VisitKeepsBookkeeping` | Project1/main.go:316-350 | a visit keeps row-iff-dispatched, distinct row ids and remaining times between 0 and the burst |
| `RoundRobin.VisitKeepsRows` | Project1/main.go:323-350 | every row copies its process with wait >= 0 and turnaround - wait = arrival; every slice is exactly one quantum long; slices start strictly in order and end no later than the clock; the last completion stays 0 |
| `RoundRobin.VisitKeepsInvariant` | Project1/main.go:316-350 | a visit keeps the whole loop invariant |
| `RoundRobin.VisitLowersMeasure` | Project1/main.go:335-343 | a visit to a ready process lowers the remaining work plus the distance to the last arrival |
| `RoundRobin.VisitMeasure` | Project1/main.go:316-350 | a visit never raises the measure, and leaves it only when the process is not ready and the visit changes nothing |
| `RoundRobin.ScanKeepsInvariant` | Project1/main.go:315-352 | the scan in index order, with readiness rechecked against the moving clock, keeps the loop invariant |
| `RoundRobin.ScanMeasure` | Project1/main.go:315-352 | the scan never raises the measure, and leaves it only when no process was ready at any visit and nothing changed |
| `RoundRobin.ScanGrows` | Project1/main.go:315-352 | with a positive quantum the scan never moves the clock back, and the table and the trace only grow by appending |
| `RoundRobin.ScanIdle` | Project1/main.go:315-352 | a scan in which no process is ready changes nothing |
| `RoundRobin.RoundRobinStepIsScan` | Project1/main.go:354-363 | a pass is the scan plus one more tick exactly when nothing finished; the reset after it changes nothing |
| `RoundRobin.RoundRobinStepPreserves` | Project1/main.go:311-364 | every pass keeps the loop invariant |
| `RoundRobin.RoundRobinAfterInvariant` | Project1/main.go:311-364 | the loop invariant holds after any number of passes |
| `RoundRobin.RoundRobinHistory` | Project1/main.go:311-364 | with a positive quantum, from one pass to any later one the clock never goes back, and the table and the trace only grow by appending |
| `RoundRobin.RoundRobinProgress` | Project1/main.go:311-364 | while the loop runs, each pass lowers the non-negative measure; a pass in which no process is ready only advances the clock by one, and happens only before the last arrival |
| `RoundRobin.RoundRobinRunProgress` | Project1/main.go:311 | each pass of a run lowers the non-negative measure |
| `RoundRobin.RoundRobinExit` | Project1/main.go:311 | when the loop condition fails, the table has exactly one row per process |
| `RoundRobin.RoundRobinPassesFromStops` | Project1/main.go:311 | the pass count found is the first at which the loop condition fails |
| `RoundRobin.RoundRobinRunStops` | Project1/main.go:311 | a whole run stops at the first pass where the loop condition fails |
| `RoundRobin.RoundRobinRunTable` | Project1/main.go:311-364 | a run's table has one row per process, no id twice, each row six columns with turnaround - wait = arrival; the total is non-negative, the last completion is 0, and every slice is one quantum long; the slices start strictly in order and end no later than the final clock |
| `RoundRobin.VisitProcess` | Project1/main.go:316-351 | the body of the scan loop performs exactly one visit and records whether the process finished |
| `RoundRobin.RoundRobinPass` | Project1/main.go:312-363 | one pass on the arrays and locals performs exactly the pass function |
| `RoundRobin.RRSchedule` | Project1/main.go:293-374 | the method reports the Gantt trace, table, turnaround total and last completion of the whole run |
| `RoundRobinExample.OneProcessRuns` | Project1/main.go:293-374 | with quantum 3 and one process arriving at 0: burst 7 gives one pass, the slice [0,3), clock 4, 4 units left; burst 2 gives one pass, the slice [-1,2) and a turnaround total of 2; the last completion stays 0 in both |
| `Scheduler.PriorityInputPermuted` | Project1/main.go:36-39 | reordering keeps bursts positive, priorities below the sentinel and ids distinct, so the sorted array is a valid input for the later schedulers |
| `Scheduler.ScheduleAll` | Project1/main.go:32-42 | FCFS reports the in-order pass over the array as given; SJF leaves the array sorted by burst and a permutation of the input; priority and round robin (quantum 10) report the whole runs over the sorted array |

## Left out

- **Command line and files.** `main`'s argument handling and file opening (`Project1/main.go:18-30`), plus `openProcessingFile`, `loadProcesses` and `mustStrToInt`, are I/O or foreign CSV and integer parsing. The model starts from an already-parsed sequence of processes.
- **Output.** `outputTitle`, `outputGantt` and `outputSchedule` are text formatting through a third-party table library.
- **Float averages and throughput.** The average wait, average turnaround and throughput are float64 divisions. The model keeps the totals they are computed from, but as integers (next bullet).
  - The priority and round-robin schedulers print their turnaround total divided by the count as the average wait. `Scheduler.Report` records that.
  - The round-robin throughput divides by a last completion time that is always 0.
- **Row strings.** `fmt.Sprint` stringifies row values. The model keeps integer rows instead.
- **float64 totals.** `totalWait`, `totalTurnaround` and `lastCompletion` are float64 in the source, and so are the priority and round-robin table columns built from the turnaround total. The model keeps them as integers, which is exact while they stay below 2^53; the rounding beyond that is not modelled.
- **int64 arithmetic.** Integers are unbounded, so int64 overflow of the clock, the waiting times and the remaining times is not modelled.
- **Loop guard.** Each priority and round-robin pass re-evaluates `lastArrivalTime` in the loop guard. The model computes it once before the loop, which is the same because the processes do not change during the loop.
- Priority.SJFPrioritySchedule: requires positive bursts, distinct ids and priorities below MaxInt64, because otherwise the source's loop never ends. A process with one of these faults never gets a row, or shares its row with another process.
- RoundRobin.RRSchedule: requires a positive quantum, positive bursts and distinct ids.
  - For bursts and ids, the source's loop never ends otherwise.
  - A quantum of 0 still ends in the source, with zero-length slices and no work done. A negative quantum can loop forever.
  - `main` passes 10.
- Scheduler.ScheduleAll: requires the priority scheduler's conditions on the input, for the same reason. The round-robin conditions follow from them.
- **Sort order on ties.** `sort.Slice` is not stable, and its exact order on equal bursts is left open. The model sorts by insertion and promises only order by burst and a permutation, which is all `sort.Slice` promises.
