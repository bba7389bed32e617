/** The two helpers of Project1/main.go: `containsPID` and `lastArrivalTime`. */
module Helpers {
  import opened Processes

  /** The latest arrival time, or 0 when there is none later than 0. */
  function LatestArrival(ps: seq<Process>): (r: int)
    ensures r >= 0
    ensures forall i :: 0 <= i < |ps| ==> ps[i].arrivalTime <= r
    ensures r == 0 || exists i :: 0 <= i < |ps| && ps[i].arrivalTime == r
  {
    if ps == [] then 0
    else
      var rest := LatestArrival(ps[..|ps| - 1]);
      assert forall i :: 0 <= i < |ps| - 1 ==> ps[..|ps| - 1][i] == ps[i];
      if ps[|ps| - 1].arrivalTime > rest then ps[|ps| - 1].arrivalTime else rest
  }

  /** `lastArrivalTime`: a running maximum over the arrival times, starting at 0. */
  method LastArrivalTime(ps: seq<Process>) returns (lastArrival: int)
    ensures lastArrival == LatestArrival(ps)
  {
    lastArrival := 0;
    for i := 0 to |ps|
      invariant lastArrival == LatestArrival(ps[..i])
    {
      assert ps[..i + 1][..i] == ps[..i];
      if ps[i].arrivalTime > lastArrival {
        lastArrival := ps[i].arrivalTime;
      }
    }
    assert ps[..|ps|] == ps;
  }

  /** `containsPID`: a linear scan of the table for a row with id `pid`. */
  method ContainsPid(schedule: seq<Row>, pid: int) returns (found: bool)
    ensures found <==> HasPid(schedule, pid)
  {
    for k := 0 to |schedule|
      invariant forall j :: 0 <= j < k ==> schedule[j].id != pid
    {
      if schedule[k].id == pid {
        return true;
      }
    }
    return false;
  }
}
