/**
 * The dispatch rule shared by Shortest Job First and Priority scheduling.
 * Arrived processes wait in a ready pool ordered by a key (burst time or
 * priority); the process with the smallest key is taken out and runs its
 * whole remaining time; nothing is ever preempted. When the pool is empty
 * the clock jumps to the next arrival. Ties between equal keys are broken in
 * an unspecified way, so the rule is stated as a relation: which dispatch
 * orders the loop may produce.
 */
module QueuePolicy {
  import opened ProcessRecord
  import opened Statistics

  /** What the ready pool is ordered by. */
  datatype Key = ByBurst | ByPriority

  /** The key the ready pool compares a process by. */
  function KeyOf(key: Key, j: Job): int
  {
    match key
    case ByBurst => j.burst
    case ByPriority => j.priority
  }

  /** Every entry of `order` is a position of the batch. */
  ghost predicate Positions(jobs: seq<Job>, order: seq<nat>)
  {
    forall j :: 0 <= j < |order| ==> order[j] < |jobs|
  }

  /** The clock once the processes at positions `done` have run, in that order. */
  function Finish(jobs: seq<Job>, done: seq<nat>): int
    requires Positions(jobs, done)
  {
    if done == [] then 0
    else
      var last := done[|done| - 1];
      Max(Finish(jobs, done[..|done| - 1]), jobs[last].arrival) + jobs[last].burst
  }

  /** The clock when position `i` is dispatched right after the processes `done`. */
  function Start(jobs: seq<Job>, done: seq<nat>, i: nat): (t: int)
    requires Positions(jobs, done) && i < |jobs|
    ensures t >= jobs[i].arrival && t >= Finish(jobs, done)
  {
    Max(Finish(jobs, done), jobs[i].arrival)
  }

  /**
   * Position `i` may be dispatched right after `done`: it has not run yet; the
   * clock did not wait past the earliest pending arrival; and among the
   * pending processes that have arrived by the dispatch time, none has a
   * smaller key.
   */
  ghost predicate Eligible(jobs: seq<Job>, key: Key, done: seq<nat>, i: nat)
    requires Positions(jobs, done)
  {
    && i < |jobs| && i !in done
    && forall q :: 0 <= q < |jobs| && q !in done ==>
         && jobs[i].arrival <= Max(Finish(jobs, done), jobs[q].arrival)
         && (jobs[q].arrival <= Start(jobs, done, i) ==> KeyOf(key, jobs[i]) <= KeyOf(key, jobs[q]))
  }

  /** `order` is a dispatch order the pool policy with `key` can produce for the batch. */
  ghost predicate IsSchedule(jobs: seq<Job>, key: Key, order: seq<nat>)
  {
    && |order| == |jobs|
    && Positions(jobs, order)
    && (forall i :: 0 <= i < |jobs| ==> i in order)
    && (forall j, k :: 0 <= j < k < |order| ==> order[j] != order[k])
    && forall j :: 0 <= j < |order| ==> Eligible(jobs, key, order[..j], order[j])
  }

  /**
   * The output fields the pool policy leaves in the process dispatched `j`-th:
   * the response time is its delay before dispatch, never negative; the
   * turnaround is that delay plus its burst, since it runs uninterrupted; the
   * waiting time and the remaining time are never written.
   */
  function Outcome(jobs: seq<Job>, order: seq<nat>, j: nat): (o: Out)
    requires Positions(jobs, order) && j < |order|
    ensures var i := order[j];
      && o.response == Start(jobs, order[..j], i) - jobs[i].arrival >= 0
      && o.turnaround == o.response + jobs[i].burst
      && o.waiting == 0
      && o.remaining == jobs[i].burst
  {
    var i := order[j];
    var t := Start(jobs, order[..j], i);
    Out(jobs[i].burst, 0, t + jobs[i].burst - jobs[i].arrival, t - jobs[i].arrival)
  }

  /** A non-empty pool holds a process whose key no other pooled process undercuts. */
  lemma {:induction false} MinimumExists(ps: seq<Process>, key: Key, pool: set<nat>)
    requires pool != {} && forall q :: q in pool ==> q < |ps|
    ensures exists i :: i in pool && forall q :: q in pool ==> KeyOf(key, ps[i].Input()) <= KeyOf(key, ps[q].Input())
    decreases |pool|
  {
    var x :| x in pool;
    var rest := pool - {x};
    if rest != {} {
      MinimumExists(ps, key, rest);
      var m :| m in rest && forall q :: q in rest ==> KeyOf(key, ps[m].Input()) <= KeyOf(key, ps[q].Input());
      if KeyOf(key, ps[x].Input()) < KeyOf(key, ps[m].Input()) {
        assert forall q :: q in pool ==> KeyOf(key, ps[x].Input()) <= KeyOf(key, ps[q].Input());
      } else {
        assert forall q :: q in pool ==> KeyOf(key, ps[m].Input()) <= KeyOf(key, ps[q].Input());
      }
    } else {
      assert forall q :: q in pool ==> q == x;
    }
  }

  /**
   * The state of the pool loop at the top of an iteration: `order` holds the
   * admitted positions dispatched so far, in that order; the pool holds exactly the admitted positions that have not
   * run; the clock is at or past the last completion; every pooled process
   * has arrived; and if the clock jumped past the last completion, nothing
   * pending arrives before it.
   */
  ghost predicate PoolState(jobs: seq<Job>, key: Key, order: seq<nat>, pool: set<nat>, index: nat, t: int)
  {
    && index <= |jobs| && (forall j :: 0 <= j < |order| ==> order[j] < index)
    && (forall q :: q in pool <==> 0 <= q < index && q !in order)
    && |pool| + |order| == index
    && (forall j, k :: 0 <= j < k < |order| ==> order[j] != order[k])
    && Finish(jobs, order) <= t
    && (forall q :: q in pool ==> jobs[q].arrival <= t)
    && (t > Finish(jobs, order) ==> forall q :: 0 <= q < |jobs| && q !in order ==> jobs[q].arrival >= t)
  }

  /** Each entry of `order` was eligible when it was dispatched. */
  ghost predicate EachEligible(jobs: seq<Job>, key: Key, order: seq<nat>)
    requires Positions(jobs, order)
  {
    order != [] ==>
      var n := |order| - 1;
      EachEligible(jobs, key, order[..n]) && Eligible(jobs, key, order[..n], order[n])
  }

  lemma {:induction false} EachEligibleAt(jobs: seq<Job>, key: Key, order: seq<nat>, j: nat)
    requires Positions(jobs, order) && EachEligible(jobs, key, order) && j < |order|
    ensures Eligible(jobs, key, order[..j], order[j])
  {
    var n := |order| - 1;
    if j < n {
      EachEligibleAt(jobs, key, order[..n], j);
      assert order[..n][..j] == order[..j];
    }
  }

  lemma StartState(jobs: seq<Job>, key: Key)
    ensures PoolState(jobs, key, [], {}, 0, 0)
  {
  }

  /** Admitting the next process once it has arrived keeps the loop state. */
  lemma AdmitKeepsState(jobs: seq<Job>, key: Key, order: seq<nat>, pool: set<nat>, index: nat, t: int)
    requires PoolState(jobs, key, order, pool, index, t)
    requires index < |jobs| && jobs[index].arrival <= t
    ensures PoolState(jobs, key, order, pool + {index}, index + 1, t)
  {
    assert index !in pool;
  }

  /** With nothing pooled, jumping the clock to the next arrival keeps the loop state. */
  lemma JumpKeepsState(jobs: seq<Job>, key: Key, order: seq<nat>, pool: set<nat>, index: nat, t: int)
    requires ArrivalOrdered(jobs) && PoolState(jobs, key, order, pool, index, t)
    requires pool == {} && index < |jobs| && jobs[index].arrival > t
    ensures PoolState(jobs, key, order, pool, index, jobs[index].arrival)
  {
    forall q | 0 <= q < |jobs| && q !in order
      ensures jobs[q].arrival >= jobs[index].arrival
    {
      assert q !in pool;
    }
  }

  /**
   * Once the admission has stopped at a process that has not arrived, a
   * pooled position with the smallest key is eligible, and it is dispatched
   * at the current clock.
   */
  lemma PollIsEligible(jobs: seq<Job>, key: Key, order: seq<nat>, pool: set<nat>, index: nat, t: int, i: nat)
    requires ArrivalOrdered(jobs) && PoolState(jobs, key, order, pool, index, t)
    requires index < |jobs| ==> jobs[index].arrival > t
    requires i in pool && forall q :: q in pool ==> KeyOf(key, jobs[i]) <= KeyOf(key, jobs[q])
    ensures Eligible(jobs, key, order, i) && Start(jobs, order, i) == t
  {
    forall q | 0 <= q < |jobs| && q !in order && jobs[q].arrival <= t
      ensures q in pool
    {
      if q >= index {
        assert false;
      }
    }
  }

  /** Running an eligible pooled position to completion keeps the loop state, with the clock at its completion. */
  lemma PollKeepsState(jobs: seq<Job>, key: Key, order: seq<nat>, pool: set<nat>, index: nat, t: int, i: nat)
    requires WellFormedJobs(jobs) && PoolState(jobs, key, order, pool, index, t) && EachEligible(jobs, key, order)
    requires i in pool && Eligible(jobs, key, order, i) && Start(jobs, order, i) == t
    ensures PoolState(jobs, key, order + [i], pool - {i}, index, Finish(jobs, order + [i]))
    ensures EachEligible(jobs, key, order + [i])
  {
    ExtendKeepsPrefix(jobs, order, i);
    assert |pool - {i}| == |pool| - 1 by {
      assert pool == (pool - {i}) + {i};
    }
  }

  /** When the loop ends, its dispatch order is a schedule of the batch. */
  lemma EndIsSchedule(jobs: seq<Job>, key: Key, order: seq<nat>, pool: set<nat>, index: nat, t: int)
    requires PoolState(jobs, key, order, pool, index, t) && EachEligible(jobs, key, order)
    requires pool == {} && index == |jobs|
    ensures IsSchedule(jobs, key, order)
  {
    forall i | 0 <= i < |jobs|
      ensures i in order
    {
      assert i !in pool;
    }
    forall j | 0 <= j < |order|
      ensures Eligible(jobs, key, order[..j], order[j])
    {
      EachEligibleAt(jobs, key, order, j);
    }
  }

  /** Appending a dispatch leaves the earlier dispatches, their clocks and their outcomes as they were. */
  lemma ExtendKeepsPrefix(jobs: seq<Job>, order: seq<nat>, i: nat)
    requires Positions(jobs, order) && i < |jobs|
    ensures Positions(jobs, order + [i])
    ensures (order + [i])[..|order|] == order
    ensures Finish(jobs, order + [i]) == Start(jobs, order, i) + jobs[i].burst
    ensures forall j :: 0 <= j < |order| ==> (order + [i])[..j] == order[..j]
    ensures forall j :: 0 <= j < |order| ==> Outcome(jobs, order + [i], j) == Outcome(jobs, order, j)
  {
    var order' := order + [i];
    assert order'[..|order|] == order;
    forall j | 0 <= j < |order|
      ensures order'[..j] == order[..j]
      ensures Outcome(jobs, order', j) == Outcome(jobs, order, j)
    {
      assert order'[..j] == order[..j];
    }
  }

  /** The process dispatched `k`-th starts only after the one dispatched `j`-th, for `j < k`, has completed. */
  lemma {:induction false} NoOverlap(jobs: seq<Job>, order: seq<nat>, j: nat, k: nat)
    requires WellFormedJobs(jobs) && Positions(jobs, order)
    requires j < k < |order|
    ensures Finish(jobs, order[..j + 1]) <= Start(jobs, order[..k], order[k])
    decreases k
  {
    if j + 1 < k {
      NoOverlap(jobs, order, j, k - 1);
      assert order[..k][..k - 1] == order[..k - 1];
      assert Finish(jobs, order[..k]) == Start(jobs, order[..k - 1], order[k - 1]) + jobs[order[k - 1]].burst;
    } else {
      assert order[..k] == order[..j + 1];
    }
  }

  /** Completion times follow the dispatch order strictly. */
  lemma CompletionOrder(jobs: seq<Job>, order: seq<nat>, j: nat, k: nat)
    requires WellFormedJobs(jobs) && Positions(jobs, order)
    requires j < k < |order|
    ensures Finish(jobs, order[..j + 1]) < Finish(jobs, order[..k + 1])
  {
    NoOverlap(jobs, order, j, k);
    assert order[..k + 1][..k] == order[..k];
  }

  /**
   * The totals the pool policy ends with, where `outs` holds each position's
   * output fields: the total waiting time is zero, since the loop never writes
   * it, the total response time is not negative, and the total turnaround time
   * exceeds it by the total burst time.
   */
  lemma Totals(jobs: seq<Job>, key: Key, order: seq<nat>, outs: seq<Out>)
    requires IsSchedule(jobs, key, order) && |outs| == |jobs|
    requires forall j :: 0 <= j < |order| ==> outs[order[j]] == Outcome(jobs, order, j)
    ensures Total(outs, Waiting) == 0
    ensures Total(outs, Response) >= 0
    ensures Total(outs, Turnaround) == Total(outs, Response) + TotalBurst(jobs)
  {
    forall p | 0 <= p < |outs|
      ensures outs[p].waiting == 0 && outs[p].response >= 0
      ensures outs[p].turnaround == outs[p].response + jobs[p].burst
    {
      assert p in order;
      var j :| 0 <= j < |order| && order[j] == p;
      assert outs[p] == Outcome(jobs, order, j);
    }
    TotalOfZeros(outs, Waiting);
    TotalOfNonNegative(outs, Response);
    TotalPlusBurst(outs, jobs, Turnaround, Response);
  }

  function ExampleJobs(): seq<Job>
  {
    [Job(1, 0, 5, 1), Job(2, 1, 3, 2), Job(3, 2, 8, 1)]
  }

  /** The clock values of the example for the two dispatch orders the two keys produce. */
  lemma ExampleFinishes()
    ensures Finish(ExampleJobs(), [0]) == 5
    ensures Finish(ExampleJobs(), [0, 1]) == 8 && Finish(ExampleJobs(), [0, 1, 2]) == 16
    ensures Finish(ExampleJobs(), [0, 2]) == 13 && Finish(ExampleJobs(), [0, 2, 1]) == 16
  {
    var jobs := ExampleJobs();
    assert [0][..0] == [];
    assert Finish(jobs, [0]) == 5;
    assert [0, 1][..1] == [0] && [0, 2][..1] == [0];
    assert Finish(jobs, [0, 1]) == 8;
    assert Finish(jobs, [0, 2]) == 13;
    assert [0, 1, 2][..2] == [0, 1] && [0, 2, 1][..2] == [0, 2];
  }

  /** In the example only P1 has arrived at time 0, so every order starts with it. */
  lemma ExampleStartsWithFirst(key: Key, order: seq<nat>)
    requires IsSchedule(ExampleJobs(), key, order)
    ensures order[0] == 0 && order[..1] == [0]
  {
    var jobs := ExampleJobs();
    assert order[..0] == [];
    assert Eligible(jobs, key, [], order[0]);
    assert jobs[order[0]].arrival <= Max(Finish(jobs, []), jobs[0].arrival);
  }

  /** A schedule of the example is fixed by its first two dispatches. */
  lemma ExampleOrder(key: Key, order: seq<nat>, second: nat)
    requires IsSchedule(ExampleJobs(), key, order)
    requires order[0] == 0 && order[1] == second && second != 0
    ensures order == [0, second, 3 - second]
  {
    assert order[2] in {1, 2};
    assert order[2] != second;
  }

  /** [P1, P2, P3] is a Shortest Job First order of the example. */
  lemma SjfExampleIsSchedule()
    ensures IsSchedule(ExampleJobs(), ByBurst, [0, 1, 2])
  {
    var jobs, order := ExampleJobs(), [0, 1, 2];
    ExampleFinishes();
    assert order[..0] == [] && order[..1] == [0] && order[..2] == [0, 1];
    assert Eligible(jobs, ByBurst, [], 0);
    assert Eligible(jobs, ByBurst, [0], 1);
    assert Eligible(jobs, ByBurst, [0, 1], 2);
  }

  /** Shortest Job First has no other order on the example. */
  lemma SjfExampleIsUnique(order: seq<nat>)
    requires IsSchedule(ExampleJobs(), ByBurst, order)
    ensures order == [0, 1, 2]
  {
    var jobs := ExampleJobs();
    ExampleFinishes();
    ExampleStartsWithFirst(ByBurst, order);
    assert Eligible(jobs, ByBurst, [0], order[1]);
    assert Start(jobs, [0], 2) == 5;
    assert order[1] == 1;
    ExampleOrder(ByBurst, order, 1);
  }

  /** On the three-process example, Shortest Job First runs P1, then P2 (the shorter), then P3, completing at 5, 8 and 16. */
  lemma SjfExample(order: seq<nat>)
    ensures IsSchedule(ExampleJobs(), ByBurst, order) <==> order == [0, 1, 2]
    ensures Finish(ExampleJobs(), [0]) == 5 && Finish(ExampleJobs(), [0, 1]) == 8 && Finish(ExampleJobs(), [0, 1, 2]) == 16
  {
    ExampleFinishes();
    SjfExampleIsSchedule();
    if IsSchedule(ExampleJobs(), ByBurst, order) {
      SjfExampleIsUnique(order);
    }
  }

  /** [P1, P3, P2] is a Priority order of the example. */
  lemma PriorityExampleIsSchedule()
    ensures IsSchedule(ExampleJobs(), ByPriority, [0, 2, 1])
  {
    var jobs, order := ExampleJobs(), [0, 2, 1];
    ExampleFinishes();
    assert order[..0] == [] && order[..1] == [0] && order[..2] == [0, 2];
    assert Eligible(jobs, ByPriority, [], 0);
    assert Eligible(jobs, ByPriority, [0], 2);
    assert Eligible(jobs, ByPriority, [0, 2], 1);
  }

  /** Priority scheduling has no other order on the example. */
  lemma PriorityExampleIsUnique(order: seq<nat>)
    requires IsSchedule(ExampleJobs(), ByPriority, order)
    ensures order == [0, 2, 1]
  {
    var jobs := ExampleJobs();
    ExampleFinishes();
    ExampleStartsWithFirst(ByPriority, order);
    assert Eligible(jobs, ByPriority, [0], order[1]);
    assert Start(jobs, [0], 1) == 5;
    assert order[1] == 2;
    ExampleOrder(ByPriority, order, 2);
  }

  /** On the same batch, Priority scheduling runs P1, then P3 (priority 1 before 2), then P2, completing at 5, 13 and 16. */
  lemma PriorityExample(order: seq<nat>)
    ensures IsSchedule(ExampleJobs(), ByPriority, order) <==> order == [0, 2, 1]
    ensures Finish(ExampleJobs(), [0]) == 5 && Finish(ExampleJobs(), [0, 2]) == 13 && Finish(ExampleJobs(), [0, 2, 1]) == 16
  {
    ExampleFinishes();
    PriorityExampleIsSchedule();
    if IsSchedule(ExampleJobs(), ByPriority, order) {
      PriorityExampleIsUnique(order);
    }
  }
}
