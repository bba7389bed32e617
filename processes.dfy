/** The records the schedulers of Project1/main.go consume and produce:
    a process, a Gantt slice, and one row of the timing table. */
module Processes {

  /** The largest int64; the priority scan starts from it as "nothing found yet". */
  const MaxInt64: int := 0x7FFF_FFFF_FFFF_FFFF

  /** One input process (Go's `Process`). */
  datatype Process = Process(id: int, arrivalTime: int, burstDuration: int, priority: int)

  /** One Gantt slice: process `pid` holds the CPU from `start` to `stop` (Go's `TimeSlice`). */
  datatype TimeSlice = TimeSlice(pid: int, start: int, stop: int)

  /** One row of the timing table. The first three schedulers write all seven columns
      (ID, Priority, Burst, Arrival, Wait, Turnaround, Exit); Round-Robin writes six. */
  datatype Row =
    | Row(id: int, priority: int, burst: int, arrival: int, wait: int, turnaround: int, exit: int)
    | RoundRobinRow(id: int, priority: int, burst: int, arrival: int, wait: int, turnaround: int)

  /** Some row of the table carries the id `pid`. */
  predicate HasPid(rows: seq<Row>, pid: int) {
    exists k :: 0 <= k < |rows| && rows[k].id == pid
  }

  /** No two processes share an id. */
  predicate DistinctIds(ps: seq<Process>) {
    forall i, j :: 0 <= i < j < |ps| ==> ps[i].id != ps[j].id
  }

  /** No two rows share an id. */
  predicate DistinctRowIds(rows: seq<Row>) {
    forall a, b :: 0 <= a < b < |rows| ==> rows[a].id != rows[b].id
  }

  /** Every process asks for some CPU time. */
  predicate PositiveBursts(ps: seq<Process>) {
    forall i :: 0 <= i < |ps| ==> ps[i].burstDuration > 0
  }

  /** A trace whose slices start in order (equal starts allowed), none after time `t`. */
  predicate StartsInOrderBy(g: seq<TimeSlice>, t: int) {
    (forall k :: 0 <= k < |g| ==> g[k].start <= t) &&
    (forall j, k :: 0 <= j < k < |g| ==> g[j].start <= g[k].start)
  }

  /** A trace whose slices start strictly in order, none ending after time `t`. */
  predicate StartsStrictlyBy(g: seq<TimeSlice>, t: int) {
    (forall k :: 0 <= k < |g| ==> g[k].stop <= t) &&
    (forall j, k :: 0 <= j < k < |g| ==> g[j].start < g[k].start)
  }

  /** Total burst of the first `k` processes. */
  function BurstSum(ps: seq<Process>, k: nat): int
    requires k <= |ps|
  {
    if k == 0 then 0 else BurstSum(ps, k - 1) + ps[k - 1].burstDuration
  }

  /** Total of a sequence of remaining times. */
  function SumOf(xs: seq<int>): int {
    if xs == [] then 0 else SumOf(xs[..|xs| - 1]) + xs[|xs| - 1]
  }

  lemma HasPidAppend(rows: seq<Row>, r: Row, pid: int)
    ensures HasPid(rows + [r], pid) <==> HasPid(rows, pid) || r.id == pid
  {
    if HasPid(rows, pid) {
      var k :| 0 <= k < |rows| && rows[k].id == pid;
      assert (rows + [r])[k] == rows[k];
    }
    if r.id == pid {
      assert (rows + [r])[|rows|] == r;
    }
  }

  /** Appending a row whose id is new keeps the ids distinct. */
  lemma {:induction false} DistinctRowIdsAppend(rows: seq<Row>, r: Row)
    requires DistinctRowIds(rows)
    requires !HasPid(rows, r.id)
    ensures DistinctRowIds(rows + [r])
  {
    var rs := rows + [r];
    forall a, b | 0 <= a < b < |rs| ensures rs[a].id != rs[b].id {
      if b == |rows| {
        assert rs[a] == rows[a];
      } else {
        assert rs[a] == rows[a] && rs[b] == rows[b];
      }
    }
  }

  /** Lowering one entry by `d` lowers the total by `d`. */
  lemma {:induction false} SumOfUpdate(xs: seq<int>, j: nat, v: int)
    requires j < |xs|
    ensures SumOf(xs[j := v]) == SumOf(xs) - xs[j] + v
  {
    var ys := xs[j := v];
    if j < |xs| - 1 {
      assert ys[..|ys| - 1] == xs[..|xs| - 1][j := v];
      SumOfUpdate(xs[..|xs| - 1], j, v);
    } else {
      assert ys[..|ys| - 1] == xs[..|xs| - 1];
    }
  }

  /** A total of non-negative entries is non-negative. */
  lemma {:induction false} SumOfNonNegative(xs: seq<int>)
    requires forall i :: 0 <= i < |xs| ==> xs[i] >= 0
    ensures SumOf(xs) >= 0
  {
    if xs != [] {
      SumOfNonNegative(xs[..|xs| - 1]);
    }
  }

  /** Appending a slice that starts at or after `t` and no later than `u` keeps the
      starts in order, up to `u`. */
  lemma StartsInOrderAppend(g: seq<TimeSlice>, t: int, slice: TimeSlice, u: int)
    requires StartsInOrderBy(g, t) && t <= slice.start <= u
    ensures StartsInOrderBy(g + [slice], u)
  {
    var h := g + [slice];
    forall j, k | 0 <= j < k < |h| ensures h[j].start <= h[k].start {
      assert h[j] == g[j];
    }
  }

  /** Appending a slice that ends by `u` and starts after every slice of a trace ending
      by `t` whose slices are `q` long keeps the starts strictly in order, up to `u`. */
  lemma StartsStrictlyAppend(g: seq<TimeSlice>, t: int, q: int, slice: TimeSlice, u: int)
    requires StartsStrictlyBy(g, t) && t <= u
    requires forall k :: 0 <= k < |g| ==> g[k].stop - g[k].start == q
    requires t - q < slice.start && slice.stop <= u
    ensures StartsStrictlyBy(g + [slice], u)
  {
    var h := g + [slice];
    forall j, k | 0 <= j < k < |h| ensures h[j].start < h[k].start {
      assert h[j] == g[j];
    }
  }
}
