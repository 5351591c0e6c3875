/**
 * First Come First Serve: the processes run one after another in list order,
 * each to completion; the clock waits for a process that has not yet arrived.
 */
module Fcfs {
  import opened ProcessRecord
  import opened Statistics
  import Pool = QueuePolicy

  /** The clock after the first `k` processes of the list have completed. */
  function Finish(jobs: seq<Job>, k: nat): int
    requires k <= |jobs|
  {
    if k == 0 then 0 else Max(Finish(jobs, k - 1), jobs[k - 1].arrival) + jobs[k - 1].burst
  }

  /** The clock when the process at position `i` is dispatched. */
  function Start(jobs: seq<Job>, i: nat): (t: int)
    requires i < |jobs|
    ensures t >= jobs[i].arrival && t >= Finish(jobs, i)
  {
    Max(Finish(jobs, i), jobs[i].arrival)
  }

  /**
   * The output fields FCFS leaves in the process at position `i`: the waiting
   * time is the delay the previous completion imposes and is never negative,
   * turnaround is waiting plus burst, and the response time equals the waiting time.
   */
  function Outcome(jobs: seq<Job>, i: nat): (o: Out)
    requires i < |jobs|
    ensures o.waiting == Max(0, Finish(jobs, i) - jobs[i].arrival) >= 0
    ensures o.turnaround == o.waiting + jobs[i].burst
    ensures o.response == o.waiting
    ensures o.remaining == jobs[i].burst
  {
    var waited := Start(jobs, i) - jobs[i].arrival;
    Out(jobs[i].burst, waited, Finish(jobs, i + 1) - jobs[i].arrival, waited)
  }

  /** The output fields of the whole list, position by position. */
  function Schedule(jobs: seq<Job>): (r: seq<Out>)
    ensures |r| == |jobs| && forall i :: 0 <= i < |jobs| ==> r[i] == Outcome(jobs, i)
  {
    seq(|jobs|, i requires 0 <= i < |jobs| => Outcome(jobs, i))
  }

  /** The positions `0 .. k - 1` in list order: the dispatch order FCFS follows. */
  function InOrder(k: nat): (r: seq<nat>)
    ensures |r| == k && forall i :: 0 <= i < k ==> r[i] == i
  {
    seq(k, i => i)
  }

  /**
   * The FCFS clock is the pool clock of the list-order dispatch. FCFS keeps
   * its own recurrence over a count because its order is fixed by the list,
   * while the pool policy's order is chosen by the loop.
   */
  lemma {:induction false} SameClockAsPool(jobs: seq<Job>, k: nat)
    requires k <= |jobs|
    ensures Pool.Positions(jobs, InOrder(k))
    ensures Finish(jobs, k) == Pool.Finish(jobs, InOrder(k))
    decreases k
  {
    if k > 0 {
      SameClockAsPool(jobs, k - 1);
      assert InOrder(k)[..k - 1] == InOrder(k - 1);
    }
  }

  /**
   * Dispatching the list in order under the pool policy's field assignment
   * gives each process the response time and turnaround FCFS gives it; the
   * two differ only in the waiting time, which FCFS writes and the pool
   * policy leaves at 0.
   */
  lemma PoolOutcomeInListOrder(jobs: seq<Job>, i: nat)
    requires i < |jobs|
    ensures Pool.Positions(jobs, InOrder(|jobs|))
    ensures var o, p := Outcome(jobs, i), Pool.Outcome(jobs, InOrder(|jobs|), i);
      && o.response == p.response && o.turnaround == p.turnaround && o.remaining == p.remaining
      && o.waiting == o.response && p.waiting == 0
  {
    SameClockAsPool(jobs, |jobs|);
    SameClockAsPool(jobs, i);
    assert InOrder(|jobs|)[..i] == InOrder(i);
  }

  /** A process is dispatched only after every earlier process in the list has completed. */
  lemma {:induction false} RunsAfterEarlier(jobs: seq<Job>, i: nat, j: nat)
    requires WellFormedJobs(jobs)
    requires i < j < |jobs|
    ensures Finish(jobs, i + 1) <= Start(jobs, j)
    decreases j
  {
    if i + 1 < j {
      RunsAfterEarlier(jobs, i, j - 1);
      assert Finish(jobs, j) == Start(jobs, j - 1) + jobs[j - 1].burst;
    }
  }

  /** Completion order is list order: a later process completes strictly later. */
  lemma CompletionOrder(jobs: seq<Job>, i: nat, j: nat)
    requires WellFormedJobs(jobs)
    requires i < j < |jobs|
    ensures Finish(jobs, i + 1) < Finish(jobs, j + 1)
  {
    RunsAfterEarlier(jobs, i, j);
  }

  /**
   * The totals FCFS ends with: the total waiting time is not negative, the
   * total response time equals it, and the total turnaround time exceeds it
   * by the total burst time.
   */
  lemma Totals(jobs: seq<Job>)
    ensures var t := Summary(Schedule(jobs));
      && t.count == |jobs| && t.waiting >= 0 && t.response == t.waiting
      && t.turnaround == t.waiting + TotalBurst(jobs)
  {
    var outs := Schedule(jobs);
    TotalOfNonNegative(outs, Waiting);
    TotalsAgree(outs, Response, Waiting);
    TotalPlusBurst(outs, jobs, Turnaround, Waiting);
  }

  /** The three-process example: completions at 5, 8 and 16, waiting times 0, 4 and 6. */
  lemma Example()
    ensures var jobs := [Job(1, 0, 5, 1), Job(2, 1, 3, 2), Job(3, 2, 8, 1)];
      && Finish(jobs, 1) == 5 && Finish(jobs, 2) == 8 && Finish(jobs, 3) == 16
      && Outcome(jobs, 0).waiting == 0 && Outcome(jobs, 1).waiting == 4 && Outcome(jobs, 2).waiting == 6
  {
  }
}
