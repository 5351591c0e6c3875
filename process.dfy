/**
 * The process record: the four input attributes a process is created with,
 * which never change, and the four output fields the simulation loops write.
 */
module ProcessRecord {

  /** The input attributes of one process, as a value. */
  datatype Job = Job(pid: int, arrival: int, burst: int, priority: int)

  /** The output fields of one process, as a value. */
  datatype Out = Out(remaining: int, waiting: int, turnaround: int, response: int)

  /** The value `responseTime` holds until the process is first dispatched. */
  const Unset: int := -1

  function Max(a: int, b: int): int
  {
    if a < b then b else a
  }

  function Min(a: int, b: int): int
  {
    if a < b then a else b
  }

  /** The output fields of a newly created process. */
  function FreshOut(j: Job): Out
  {
    Out(j.burst, 0, 0, Unset)
  }

  class Process {
    const pid: int
    const arrivalTime: int
    const burstTime: int
    /** Lower value means higher priority. */
    const priority: int
    var remainingTime: int
    var waitingTime: int
    var turnaroundTime: int
    var responseTime: int

    constructor (pid: int, arrivalTime: int, burstTime: int, priority: int)
      ensures Input() == Job(pid, arrivalTime, burstTime, priority)
      ensures remainingTime == burstTime
      ensures waitingTime == 0 && turnaroundTime == 0
      ensures responseTime == Unset
    {
      this.pid := pid;
      this.arrivalTime := arrivalTime;
      this.burstTime := burstTime;
      this.remainingTime := burstTime;
      this.priority := priority;
      this.waitingTime := 0;
      this.turnaroundTime := 0;
      this.responseTime := Unset;
    }

    function Input(): Job
    {
      Job(pid, arrivalTime, burstTime, priority)
    }

    ghost function Output(): Out
      reads this
    {
      Out(remainingTime, waitingTime, turnaroundTime, responseTime)
    }
  }

  /** The inputs of a batch, position by position. */
  function Jobs(ps: seq<Process>): (r: seq<Job>)
    ensures |r| == |ps| && forall i :: 0 <= i < |ps| ==> r[i] == ps[i].Input()
  {
    if ps == [] then [] else [ps[0].Input()] + Jobs(ps[1..])
  }

  /** The outputs of a batch, position by position. */
  ghost function Outcomes(ps: seq<Process>): (r: seq<Out>)
    reads ps
    ensures |r| == |ps| && forall i :: 0 <= i < |ps| ==> r[i] == ps[i].Output()
  {
    if ps == [] then [] else [ps[0].Output()] + Outcomes(ps[1..])
  }

  /** No process object occurs twice in the batch. */
  predicate Distinct(ps: seq<Process>)
  {
    forall i, j :: 0 <= i < |ps| && 0 <= j < |ps| && i != j ==> ps[i] != ps[j]
  }

  /** Every arrival time is non-negative and every burst time is positive. */
  ghost predicate WellFormedJobs(jobs: seq<Job>)
  {
    forall i :: 0 <= i < |jobs| ==> jobs[i].arrival >= 0 && jobs[i].burst > 0
  }

  /** A batch as the input reader builds it: one new object per line, with valid times. */
  ghost predicate WellFormed(ps: seq<Process>)
  {
    Distinct(ps) && WellFormedJobs(Jobs(ps))
  }

  /** Every process still holds the output fields it was created with. */
  ghost predicate FreshBatch(ps: seq<Process>)
    reads ps
  {
    forall i :: 0 <= i < |ps| ==>
      && ps[i].remainingTime == ps[i].burstTime && ps[i].waitingTime == 0
      && ps[i].turnaroundTime == 0 && ps[i].responseTime == Unset
  }

  /** The batch is ordered by ascending arrival time. */
  ghost predicate ArrivalOrdered(jobs: seq<Job>)
  {
    forall i, j :: 0 <= i < j < |jobs| ==> jobs[i].arrival <= jobs[j].arrival
  }
}
