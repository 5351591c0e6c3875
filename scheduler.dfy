/**
 * The scheduler object: the batch of processes and the Round Robin time
 * quantum. Each policy sorts the batch by arrival time, runs its simulation
 * loop, which writes the output fields of the processes in place, and ends
 * with the statistics totals.
 */
module Scheduler {
  import opened ProcessRecord
  import opened ArrivalSort
  import opened Statistics
  import FirstCome = Fcfs
  import Pool = QueuePolicy
  import RR = RoundRobinPolicy

  /** How a Round Robin request ends: rejected for its quantum, or run to the end with these totals. */
  datatype Report = Completed(totals: Totals) | InvalidQuantum

  class CPUScheduler {
    var processes: seq<Process>
    var timeQuantum: int

    /** A scheduler over a batch already read, with the quantum the user entered. */
    constructor (batch: seq<Process>, quantum: int)
      ensures processes == batch && timeQuantum == quantum
    {
      processes := batch;
      timeQuantum := quantum;
    }

    /** The summing loop of the statistics step: totals over the whole batch, and the count they are averaged over. */
    static method Summarize(processes: seq<Process>) returns (t: Totals)
      ensures t == Summary(Outcomes(processes))
    {
      ghost var outs := Outcomes(processes);
      var waiting, response, turnaround := 0, 0, 0;
      var k := 0;
      while k < |processes|
        invariant k <= |processes|
        invariant waiting == Total(outs[..k], Waiting)
        invariant response == Total(outs[..k], Response)
        invariant turnaround == Total(outs[..k], Turnaround)
      {
        assert outs[..k + 1][..k] == outs[..k];
        var p := processes[k];
        waiting := waiting + p.waitingTime;
        response := response + p.responseTime;
        turnaround := turnaround + p.turnaroundTime;
        k := k + 1;
      }
      assert outs[..k] == outs;
      t := Totals(|processes|, waiting, response, turnaround);
    }

    /**
     * The FCFS loop: each process in list order waits for the clock, is
     * stamped with its response and waiting times, runs to completion and is
     * stamped with its turnaround time. The statistics step then sums up.
     */
    method Simulate() returns (t: Totals)
      requires Distinct(processes) && FreshBatch(processes)
      modifies processes
      ensures Outcomes(processes) == FirstCome.Schedule(Jobs(processes))
      ensures t == Summary(Outcomes(processes))
      ensures t.count == |processes| && t.waiting >= 0 && t.response == t.waiting
      ensures t.turnaround == t.waiting + TotalBurst(Jobs(processes))
    {
      RunFcfs(processes);
      t := Summarize(processes);
      FirstCome.Totals(Jobs(processes));
    }

    /** The FCFS loop over the batch `ps`. */
    static method RunFcfs(ps: seq<Process>)
      requires Distinct(ps) && FreshBatch(ps)
      modifies ps
      ensures Outcomes(ps) == FirstCome.Schedule(Jobs(ps))
    {
      ghost var jobs := Jobs(ps);
      var currentTime := 0;
      var k := 0;
      while k < |ps|
        invariant k <= |ps|
        invariant currentTime == FirstCome.Finish(jobs, k)
        invariant forall i :: 0 <= i < k ==> ps[i].Output() == FirstCome.Outcome(jobs, i)
        invariant forall i :: k <= i < |ps| ==> ps[i].responseTime == Unset && ps[i].remainingTime == ps[i].burstTime
      {
        currentTime := RunToCompletion(ps[k], currentTime, jobs, k);
        k := k + 1;
      }
    }

    /** One FCFS dispatch: the clock waits for the arrival, then the process runs its whole burst. */
    static method RunToCompletion(process: Process, clock: int, ghost jobs: seq<Job>, ghost k: nat) returns (finish: int)
      requires k < |jobs| && process.Input() == jobs[k] && clock == FirstCome.Finish(jobs, k)
      requires process.responseTime == Unset && process.remainingTime == process.burstTime
      modifies process
      ensures process.Output() == FirstCome.Outcome(jobs, k)
      ensures finish == FirstCome.Finish(jobs, k + 1)
    {
      var currentTime := clock;
      if currentTime < process.arrivalTime {
        currentTime := process.arrivalTime;
      }
      if process.responseTime == Unset {
        process.responseTime := currentTime - process.arrivalTime;
      }
      process.waitingTime := currentTime - process.arrivalTime;
      currentTime := currentTime + process.burstTime;
      process.turnaroundTime := currentTime - process.arrivalTime;
      finish := currentTime;
    }

    /**
     * The pool loop shared by Shortest Job First and Priority scheduling:
     * admit every process that has arrived by the clock; if none is waiting,
     * jump the clock to the next arrival; otherwise poll a process with the
     * smallest key and run its whole remaining time. The ghost result is the
     * order in which the positions of the batch were dispatched.
     */
    method SimulateWithQueue(key: Pool.Key) returns (ghost order: seq<nat>, t: Totals)
      requires WellFormed(processes) && FreshBatch(processes) && ArrivalOrdered(Jobs(processes))
      modifies processes
      ensures Pool.IsSchedule(Jobs(processes), key, order)
      ensures forall j :: 0 <= j < |order| ==> processes[order[j]].Output() == Pool.Outcome(Jobs(processes), order, j)
      ensures t == Summary(Outcomes(processes))
      ensures t.count == |processes| && t.waiting == 0 && t.response >= 0
      ensures t.turnaround == t.response + TotalBurst(Jobs(processes))
    {
      order := RunPool(processes, key);
      t := Summarize(processes);
      Pool.Totals(Jobs(processes), key, order, Outcomes(processes));
    }

    /** The pool loop over the batch `ps`. */
    static method RunPool(ps: seq<Process>, key: Pool.Key) returns (ghost order: seq<nat>)
      requires WellFormed(ps) && FreshBatch(ps) && ArrivalOrdered(Jobs(ps))
      modifies ps
      ensures Pool.IsSchedule(Jobs(ps), key, order)
      ensures Pool.Positions(Jobs(ps), order) && RanAsScheduled(ps, Jobs(ps), order)
    {
      ghost var jobs := Jobs(ps);
      var pool: set<nat> := {};
      var currentTime := 0;
      var index := 0;
      order := [];
      Pool.StartState(jobs, key);
      while pool != {} || index < |ps|
        invariant Pool.PoolState(jobs, key, order, pool, index, currentTime)
        invariant Pool.EachEligible(jobs, key, order)
        invariant RanAsScheduled(ps, jobs, order) && StillFresh(ps, order)
        decreases 2 * (|ps| - index) + |pool|, if pool == {} && index < |ps| && ps[index].arrivalTime > currentTime then 1 else 0
      {
        pool, index := Admit(ps, pool, index, currentTime, jobs, key, order);
        if pool == {} {
          Pool.JumpKeepsState(jobs, key, order, pool, index, currentTime);
          currentTime := ps[index].arrivalTime;
          continue;
        }
        var polled;
        polled, pool, currentTime, order := Poll(ps, key, pool, index, currentTime, jobs, order);
      }
      Pool.EndIsSchedule(jobs, key, order, pool, index, currentTime);
    }

    /** The processes dispatched so far, at the positions `order` names, hold the outputs the pool policy gives them. */
    static ghost predicate RanAsScheduled(ps: seq<Process>, jobs: seq<Job>, order: seq<nat>)
      reads ps
      requires Pool.Positions(jobs, order)
    {
      forall j :: 0 <= j < |order| ==> order[j] < |ps| && ps[order[j]].Output() == Pool.Outcome(jobs, order, j)
    }

    /** The processes not dispatched yet still hold the output fields they were created with. */
    static ghost predicate StillFresh(ps: seq<Process>, order: seq<nat>)
      reads ps
    {
      forall q :: 0 <= q < |ps| && q !in order ==>
        ps[q].responseTime == Unset && ps[q].remainingTime == ps[q].burstTime && ps[q].waitingTime == 0
    }

    /** The admission step of the pool loop: every process that has arrived by the clock joins the pool. */
    static method Admit(ps: seq<Process>, pool: set<nat>, index: nat, clock: int, ghost jobs: seq<Job>, ghost key: Pool.Key, ghost order: seq<nat>)
      returns (pool': set<nat>, index': nat)
      requires |jobs| == |ps| && forall q :: 0 <= q < |ps| ==> jobs[q] == ps[q].Input()
      requires Pool.PoolState(jobs, key, order, pool, index, clock)
      requires pool != {} || index < |ps|
      ensures Pool.PoolState(jobs, key, order, pool', index', clock)
      ensures pool' != {} || index' < |ps|
      ensures index' == |ps| || ps[index'].arrivalTime > clock
      ensures 2 * (|ps| - index') + |pool'| <= 2 * (|ps| - index) + |pool|
      ensures index' == index || pool' != {}
    {
      pool', index' := pool, index;
      while index' < |ps| && ps[index'].arrivalTime <= clock
        invariant Pool.PoolState(jobs, key, order, pool', index', clock)
        invariant pool' != {} || index' < |ps|
        invariant 2 * (|ps| - index') + |pool'| <= 2 * (|ps| - index) + |pool|
        invariant index' == index || pool' != {}
        decreases |ps| - index'
      {
        Pool.AdmitKeepsState(jobs, key, order, pool', index', clock);
        pool' := pool' + {index'};
        index' := index' + 1;
      }
    }

    /** Polls a pooled process with the smallest key and runs its whole remaining time. */
    static method Poll(ps: seq<Process>, key: Pool.Key, pool: set<nat>, index: nat, clock: int, ghost jobs: seq<Job>, ghost order: seq<nat>)
      returns (i: nat, pool': set<nat>, finish: int, ghost order': seq<nat>)
      requires WellFormed(ps) && jobs == Jobs(ps) && ArrivalOrdered(jobs)
      requires Pool.PoolState(jobs, key, order, pool, index, clock) && Pool.EachEligible(jobs, key, order)
      requires pool != {} && (index < |ps| ==> ps[index].arrivalTime > clock)
      requires RanAsScheduled(ps, jobs, order) && StillFresh(ps, order)
      modifies ps
      ensures i in pool && forall q :: q in pool ==> Pool.KeyOf(key, jobs[i]) <= Pool.KeyOf(key, jobs[q])
      ensures order' == order + [i] && pool' == pool - {i} && |pool'| < |pool|
      ensures finish == Pool.Finish(jobs, order')
      ensures Pool.PoolState(jobs, key, order', pool', index, finish) && Pool.EachEligible(jobs, key, order')
      ensures RanAsScheduled(ps, jobs, order') && StillFresh(ps, order')
    {
      Pool.MinimumExists(ps, key, pool);
      i :| i in pool && forall q :: q in pool ==> Pool.KeyOf(key, ps[i].Input()) <= Pool.KeyOf(key, ps[q].Input());
      order', pool' := order + [i], pool - {i};
      Pool.PollIsEligible(jobs, key, order, pool, index, clock, i);
      Pool.PollKeepsState(jobs, key, order, pool, index, clock, i);
      finish := Dispatch(ps, clock, jobs, order, i);
    }

    /** Runs the polled process at position `i`; the other processes keep their output fields. */
    static method Dispatch(ps: seq<Process>, clock: int, ghost jobs: seq<Job>, ghost order: seq<nat>, i: nat)
      returns (finish: int)
      requires Distinct(ps) && |jobs| == |ps| && Pool.Positions(jobs, order)
      requires i < |ps| && i !in order && ps[i].Input() == jobs[i] && clock == Pool.Start(jobs, order, i)
      requires RanAsScheduled(ps, jobs, order) && StillFresh(ps, order)
      modifies ps[i]
      ensures Pool.Positions(jobs, order + [i])
      ensures RanAsScheduled(ps, jobs, order + [i]) && StillFresh(ps, order + [i])
      ensures finish == Pool.Finish(jobs, order + [i])
    {
      Pool.ExtendKeepsPrefix(jobs, order, i);
      label Before:
      finish := RunFromPool(ps[i], clock, jobs, order, i);
      var order' := order + [i];
      forall j | 0 <= j < |order'|
        ensures order'[j] < |ps| && ps[order'[j]].Output() == Pool.Outcome(jobs, order', j)
      {
        if j < |order| {
          assert order[j] != i && ps[order[j]] != ps[i];
          assert ps[order[j]].Output() == old@Before(ps[order[j]].Output());
        }
      }
      forall q | 0 <= q < |ps| && q !in order'
        ensures ps[q].responseTime == Unset && ps[q].remainingTime == ps[q].burstTime && ps[q].waitingTime == 0
      {
        assert q != i && ps[q] != ps[i];
      }
    }

    /** One poll of the pool loop: the polled process runs its whole remaining time from the current clock. */
    static method RunFromPool(process: Process, clock: int, ghost jobs: seq<Job>, ghost order: seq<nat>, ghost i: nat)
      returns (finish: int)
      requires Pool.Positions(jobs, order) && i < |jobs| && process.Input() == jobs[i]
      requires clock == Pool.Start(jobs, order, i)
      requires process.responseTime == Unset && process.remainingTime == process.burstTime && process.waitingTime == 0
      modifies process
      ensures Pool.Positions(jobs, order + [i])
      ensures process.Output() == Pool.Outcome(jobs, order + [i], |order|)
      ensures finish == Pool.Finish(jobs, order + [i])
    {
      var currentTime := clock;
      if process.responseTime == Unset {
        process.responseTime := currentTime - process.arrivalTime;
      }
      currentTime := currentTime + process.remainingTime;
      process.turnaroundTime := currentTime - process.arrivalTime;
      finish := currentTime;
      Pool.ExtendKeepsPrefix(jobs, order, i);
    }

    /**
     * The Round Robin loop: admit every process that has arrived by the
     * clock; if none is queued, jump the clock to the next arrival; otherwise
     * run the head of the queue for one slice and put it back at the tail
     * while work remains. The output fields end as the Round Robin state
     * machine leaves them.
     */
    method SimulateRoundRobin() returns (t: Totals)
      requires WellFormed(processes) && FreshBatch(processes) && timeQuantum > 0
      modifies processes
      ensures Outcomes(processes) == RR.Final(Jobs(processes), timeQuantum).outs
      ensures t == Summary(Outcomes(processes))
      ensures t.count == |processes| && t.waiting == 0 && t.response >= 0
      ensures t.turnaround >= t.response + TotalBurst(Jobs(processes))
    {
      ghost var jobs := Jobs(processes);
      RunRoundRobin(processes, timeQuantum);
      t := Summarize(processes);
      RR.FinalTotals(jobs, timeQuantum);
    }

    /** The output fields of the batch `ps` are `outs`, position by position. */
    static ghost predicate Holds(ps: seq<Process>, outs: seq<Out>)
      reads ps
    {
      |outs| == |ps| && forall i :: 0 <= i < |ps| ==> ps[i].Output() == outs[i]
    }

    static lemma HoldsOutcomes(ps: seq<Process>, outs: seq<Out>)
      requires Holds(ps, outs)
      ensures Outcomes(ps) == outs
    {
    }

    /** The Round Robin loop over the batch `ps`, tracked by the state machine's state `abs`. */
    static method RunRoundRobin(ps: seq<Process>, quantum: int)
      requires WellFormed(ps) && FreshBatch(ps) && quantum > 0
      modifies ps
      ensures Outcomes(ps) == RR.Final(Jobs(ps), quantum).outs
    {
      ghost var jobs := Jobs(ps);
      var queue: seq<nat> := [];
      var currentTime := 0;
      var index := 0;
      ghost var abs := RR.Init(jobs);
      RR.InitInv(jobs);
      while queue != [] || index < |ps|
        invariant RR.Inv(jobs, abs) && RR.Run(jobs, quantum, abs) == RR.Final(jobs, quantum)
        invariant abs.time == currentTime && abs.index == index && abs.queue == queue
        invariant Holds(ps, abs.outs)
        decreases RR.Work(jobs, abs), RR.Gap(jobs, abs)
      {
        RR.StepKeepsInv(jobs, quantum, abs);
        currentTime, index, queue := Iteration(ps, quantum, currentTime, index, queue, jobs, abs);
        abs := RR.Step(jobs, quantum, abs);
      }
      HoldsOutcomes(ps, abs.outs);
    }

    /** One iteration of the Round Robin loop, as the state machine's Step. */
    static method Iteration(ps: seq<Process>, quantum: int, clock: int, index: nat, queue: seq<nat>, ghost jobs: seq<Job>, ghost s: RR.State)
      returns (clock': int, index': nat, queue': seq<nat>)
      requires Distinct(ps) && jobs == Jobs(ps) && RR.Shaped(jobs, s) && !RR.Finished(jobs, s)
      requires s.time == clock && s.index == index && s.queue == queue && Holds(ps, s.outs)
      modifies ps
      ensures var r := RR.Step(jobs, quantum, s); clock' == r.time && index' == r.index && queue' == r.queue && Holds(ps, r.outs)
    {
      index', queue' := AdmitArrived(ps, index, queue, clock, jobs, s);
      ghost var a := RR.Admit(jobs, s);
      if queue' == [] {
        clock' := ps[index'].arrivalTime;
      } else {
        clock', queue' := RunSlice(ps, quantum, clock, queue', jobs, a);
      }
    }

    /** The admission step of the Round Robin loop: every process that has arrived by the clock joins the tail of the queue. */
    static method AdmitArrived(ps: seq<Process>, index: nat, queue: seq<nat>, clock: int, ghost jobs: seq<Job>, ghost s: RR.State)
      returns (index': nat, queue': seq<nat>)
      requires jobs == Jobs(ps) && RR.Shaped(jobs, s)
      requires s.time == clock && s.index == index && s.queue == queue
      ensures var a := RR.Admit(jobs, s); index' == a.index && queue' == a.queue
    {
      index', queue' := index, queue;
      ghost var cur := s;
      while index' < |ps| && ps[index'].arrivalTime <= clock
        invariant RR.Shaped(jobs, cur) && cur == s.(index := index', queue := queue')
        invariant RR.Admit(jobs, cur) == RR.Admit(jobs, s)
        decreases |ps| - index'
      {
        cur := cur.(queue := queue' + [index'], index := index' + 1);
        queue' := queue' + [index'];
        index' := index' + 1;
      }
    }

    /** Runs the head of the queue for one slice of at most `quantum` time units. */
    static method RunSlice(ps: seq<Process>, quantum: int, clock: int, queue: seq<nat>, ghost jobs: seq<Job>, ghost a: RR.State)
      returns (clock': int, queue': seq<nat>)
      requires Distinct(ps) && jobs == Jobs(ps) && RR.Shaped(jobs, a) && queue != []
      requires a.time == clock && a.queue == queue && Holds(ps, a.outs)
      modifies ps
      ensures var r := RR.Dispatch(jobs, quantum, a); clock' == r.time && queue' == r.queue && Holds(ps, r.outs)
    {
      var i := queue[0];
      var process := ps[i];
      queue' := queue[1..];
      label Before:
      if process.responseTime == Unset {
        process.responseTime := clock - process.arrivalTime;
      }
      var timeSlice := Min(quantum, process.remainingTime);
      process.remainingTime := process.remainingTime - timeSlice;
      clock' := clock + timeSlice;
      if process.remainingTime > 0 {
        queue' := queue' + [i];
      } else {
        process.turnaroundTime := clock' - process.arrivalTime;
      }
      ghost var r := RR.Dispatch(jobs, quantum, a);
      forall k | 0 <= k < |ps|
        ensures ps[k].Output() == r.outs[k]
      {
        if k != i {
          assert ps[k] != process;
          assert ps[k].Output() == old@Before(ps[k].Output());
        }
      }
    }

    /** The stable sort by arrival time every policy starts with; the batch keeps its objects and their fields. */
    method SortBatch()
      requires WellFormed(processes) && FreshBatch(processes)
      modifies this
      ensures processes == SortByArrival(old(processes)) && timeQuantum == old(timeQuantum)
      ensures WellFormed(processes) && FreshBatch(processes) && ArrivalOrdered(Jobs(processes))
      ensures forall i :: 0 <= i < |processes| ==> processes[i] in old(processes)
    {
      SortKeepsDistinct(processes);
      PermutationKeepsBatch(processes, SortByArrival(processes));
      processes := SortByArrival(processes);
    }

    /**
     * First Come First Serve: sort by arrival, then run the FCFS loop and sum
     * up. The total response time equals the total waiting time, and the
     * total turnaround time exceeds it by the total burst time.
     */
    method Fcfs() returns (t: Totals)
      requires WellFormed(processes) && FreshBatch(processes)
      modifies this, processes
      ensures processes == SortByArrival(old(processes)) && timeQuantum == old(timeQuantum)
      ensures Outcomes(processes) == FirstCome.Schedule(Jobs(processes))
      ensures t == Summary(Outcomes(processes))
      ensures t.count == |processes| && t.waiting >= 0 && t.response == t.waiting
      ensures t.turnaround == t.waiting + TotalBurst(Jobs(processes))
    {
      SortBatch();
      t := Simulate();
    }

    /**
     * Shortest Job First: sort by arrival, run the pool loop keyed by burst
     * time, sum up. No waiting time is ever recorded, and the total
     * turnaround time exceeds the total response time by the total burst time.
     */
    method Sjf() returns (ghost order: seq<nat>, t: Totals)
      requires WellFormed(processes) && FreshBatch(processes)
      modifies this, processes
      ensures processes == SortByArrival(old(processes)) && timeQuantum == old(timeQuantum)
      ensures Pool.IsSchedule(Jobs(processes), Pool.ByBurst, order)
      ensures forall j :: 0 <= j < |order| ==> processes[order[j]].Output() == Pool.Outcome(Jobs(processes), order, j)
      ensures t == Summary(Outcomes(processes))
      ensures t.count == |processes| && t.waiting == 0 && t.response >= 0
      ensures t.turnaround == t.response + TotalBurst(Jobs(processes))
    {
      SortBatch();
      order, t := SimulateWithQueue(Pool.ByBurst);
    }

    /**
     * Priority scheduling: sort by arrival, run the pool loop keyed by
     * priority (lower value first), sum up. It never preempts: a process that
     * arrives with a better priority waits for the running one to complete.
     */
    method PriorityScheduling() returns (ghost order: seq<nat>, t: Totals)
      requires WellFormed(processes) && FreshBatch(processes)
      modifies this, processes
      ensures processes == SortByArrival(old(processes)) && timeQuantum == old(timeQuantum)
      ensures Pool.IsSchedule(Jobs(processes), Pool.ByPriority, order)
      ensures forall j :: 0 <= j < |order| ==> processes[order[j]].Output() == Pool.Outcome(Jobs(processes), order, j)
      ensures t == Summary(Outcomes(processes))
      ensures t.count == |processes| && t.waiting == 0 && t.response >= 0
      ensures t.turnaround == t.response + TotalBurst(Jobs(processes))
    {
      SortBatch();
      order, t := SimulateWithQueue(Pool.ByPriority);
    }

    /**
     * Round Robin: a quantum that is not positive is rejected before anything
     * changes; otherwise sort by arrival, run the Round Robin loop, sum up.
     */
    method RoundRobin() returns (r: Report)
      requires WellFormed(processes) && FreshBatch(processes)
      modifies this, processes
      ensures timeQuantum == old(timeQuantum)
      ensures timeQuantum <= 0 ==> r == InvalidQuantum && processes == old(processes) && FreshBatch(processes)
      ensures timeQuantum > 0 ==>
        && processes == SortByArrival(old(processes)) && WellFormed(processes)
        && Outcomes(processes) == RR.Final(Jobs(processes), timeQuantum).outs
        && r == Completed(Summary(Outcomes(processes)))
        && r.totals.count == |processes| && r.totals.waiting == 0 && r.totals.response >= 0
        && r.totals.turnaround >= r.totals.response + TotalBurst(Jobs(processes))
    {
      if timeQuantum <= 0 {
        return InvalidQuantum;
      }
      SortBatch();
      var t := SimulateRoundRobin();
      r := Completed(t);
    }
  }
}
