/**
 * Round Robin: arrived processes wait in a first-in first-out queue; the
 * head runs for one time slice, the smaller of the time quantum and its
 * remaining time, and goes back to the tail while work remains. A process
 * put back at the tail is queued before the processes that arrived during
 * its slice, because arrivals are admitted only at the top of the next
 * iteration. The loop is deterministic, so it is specified by a state
 * machine: Step is one iteration of the outer loop and Run iterates it to
 * the exit.
 */
module RoundRobinPolicy {
  import opened ProcessRecord
  import opened Statistics

  /** Position `job` held the CPU from `start` to `end`. */
  datatype Slice = Slice(job: nat, start: int, end: int)

  /** The loop's variables at the top of an iteration: the clock, the admission cursor, the queue of positions, the output fields and the slices run so far. */
  datatype State = State(time: int, index: nat, queue: seq<nat>, outs: seq<Out>, slices: seq<Slice>)

  function FreshOuts(jobs: seq<Job>): seq<Out>
  {
    seq(|jobs|, i requires 0 <= i < |jobs| => FreshOut(jobs[i]))
  }

  /** The state before the first iteration. */
  function Init(jobs: seq<Job>): State
  {
    State(0, 0, [], FreshOuts(jobs), [])
  }

  /** The variables are in range: one output record per process, the cursor and the queued positions inside the batch. */
  ghost predicate Shaped(jobs: seq<Job>, s: State)
  {
    && |s.outs| == |jobs|
    && s.index <= |jobs|
    && forall k :: 0 <= k < |s.queue| ==> s.queue[k] < |jobs|
  }

  /** The loop condition fails: everything is admitted and the queue is empty. */
  predicate Finished(jobs: seq<Job>, s: State)
  {
    s.queue == [] && s.index >= |jobs|
  }

  /** The inner loop: admit, in list order, every process that has arrived by the current time. */
  function Admit(jobs: seq<Job>, s: State): (a: State)
    requires Shaped(jobs, s)
    ensures Shaped(jobs, a)
    ensures a.time == s.time && a.outs == s.outs && a.slices == s.slices
    ensures s.index <= a.index
    ensures |a.queue| == |s.queue| + (a.index - s.index) && a.queue[..|s.queue|] == s.queue
    ensures forall k :: |s.queue| <= k < |a.queue| ==> a.queue[k] == s.index + (k - |s.queue|)
    ensures forall i :: s.index <= i < a.index ==> jobs[i].arrival <= s.time
    ensures a.index < |jobs| ==> jobs[a.index].arrival > s.time
    decreases |jobs| - s.index
  {
    if s.index < |jobs| && jobs[s.index].arrival <= s.time then
      Admit(jobs, s.(queue := s.queue + [s.index], index := s.index + 1))
    else
      s
  }

  /**
   * One iteration of the outer loop: admit arrivals; if the queue is still
   * empty, move the clock to the next arrival; otherwise dispatch the head.
   */
  function Step(jobs: seq<Job>, quantum: int, s: State): State
    requires Shaped(jobs, s) && !Finished(jobs, s)
  {
    var a := Admit(jobs, s);
    if a.queue == [] then
      a.(time := jobs[a.index].arrival)
    else
      Dispatch(jobs, quantum, a)
  }

  /**
   * Run the head of the queue for one slice, stamping its response time on
   * its first slice, and either put it back at the tail or record its
   * turnaround time.
   */
  function Dispatch(jobs: seq<Job>, quantum: int, a: State): State
    requires Shaped(jobs, a) && a.queue != []
  {
    var i := a.queue[0];
    var o := a.outs[i];
    var response := if o.response == Unset then a.time - jobs[i].arrival else o.response;
    var slice := Min(quantum, o.remaining);
    var remaining := o.remaining - slice;
    var time := a.time + slice;
    var queue := if remaining > 0 then a.queue[1..] + [i] else a.queue[1..];
    var turnaround := if remaining > 0 then o.turnaround else time - jobs[i].arrival;
    State(time, a.index, queue, a.outs[i := Out(remaining, o.waiting, turnaround, response)],
          a.slices + [Slice(i, a.time, time)])
  }

  /** No position occurs twice in `q`. */
  ghost predicate NoRepeats(q: seq<nat>)
  {
    forall j, k :: 0 <= j < k < |q| ==> q[j] != q[k]
  }

  /**
   * The invariant of the loop: the queue holds, once each, exactly the
   * admitted processes with work left; processes not yet admitted are as
   * created; remaining times stay between 0 and the burst time; and every
   * admitted process arrived by the current time.
   */
  ghost predicate Inv(jobs: seq<Job>, s: State)
  {
    && Shaped(jobs, s)
    && NoRepeats(s.queue)
    && (forall k :: 0 <= k < |s.queue| ==> s.queue[k] < s.index && s.outs[s.queue[k]].remaining > 0)
    && (forall i :: 0 <= i < s.index && s.outs[i].remaining > 0 ==> i in s.queue)
    && (forall i :: s.index <= i < |jobs| ==> s.outs[i] == FreshOut(jobs[i]))
    && (forall i :: 0 <= i < |jobs| ==> 0 <= s.outs[i].remaining <= jobs[i].burst)
    && (forall i :: 0 <= i < s.index ==> jobs[i].arrival <= s.time)
  }

  /** Work still to do: total remaining time plus the processes not yet admitted. */
  function Work(jobs: seq<Job>, s: State): int
    requires Shaped(jobs, s)
  {
    Total(s.outs, Remaining) + (|jobs| - s.index)
  }

  /** How far the clock still has to jump when the queue is empty. */
  function Gap(jobs: seq<Job>, s: State): nat
    requires Shaped(jobs, s)
  {
    if s.queue == [] && s.index < |jobs| && jobs[s.index].arrival > s.time then
      jobs[s.index].arrival - s.time
    else
      0
  }

  lemma InitInv(jobs: seq<Job>)
    requires WellFormedJobs(jobs)
    ensures Inv(jobs, Init(jobs))
  {
  }

  /** Admission keeps the invariant. */
  lemma {:induction false} AdmitKeepsInv(jobs: seq<Job>, s: State)
    requires WellFormedJobs(jobs) && Inv(jobs, s)
    ensures Inv(jobs, Admit(jobs, s))
    decreases |jobs| - s.index
  {
    if s.index < |jobs| && jobs[s.index].arrival <= s.time {
      var s' := s.(queue := s.queue + [s.index], index := s.index + 1);
      forall i | 0 <= i < s'.index && s'.outs[i].remaining > 0 ensures i in s'.queue {
        if i < s.index {
          assert i in s.queue;
        }
      }
      assert Inv(jobs, s');
      AdmitKeepsInv(jobs, s');
    }
  }

  /** Taking the head off a queue without repeats leaves a queue without repeats that holds everything else. */
  lemma PopHead(q: seq<nat>)
    requires q != [] && NoRepeats(q)
    ensures NoRepeats(q[1..]) && q[0] !in q[1..]
    ensures forall x :: x in q ==> x == q[0] || x in q[1..]
  {
    forall k | 0 <= k < |q| - 1
      ensures q[1..][k] != q[0]
    {
      assert q[1..][k] == q[k + 1];
    }
    forall x | x in q
      ensures x == q[0] || x in q[1..]
    {
      var k :| 0 <= k < |q| && q[k] == x;
      if k > 0 {
        assert q[1..][k - 1] == x;
      }
    }
  }

  /** Putting a position that is not queued at the tail keeps the queue without repeats. */
  lemma PushFresh(q: seq<nat>, x: nat)
    requires NoRepeats(q) && x !in q
    ensures NoRepeats(q + [x])
  {
    forall j, k | 0 <= j < k < |q + [x]|
      ensures (q + [x])[j] != (q + [x])[k]
    {
      assert (q + [x])[j] == q[j];
    }
  }

  /** Dispatching keeps the queue part of the invariant: the queue holds, once each, exactly the admitted processes with work left. */
  lemma DispatchKeepsQueue(jobs: seq<Job>, quantum: int, a: State)
    requires quantum > 0 && Inv(jobs, a) && a.queue != []
    ensures var r := Dispatch(jobs, quantum, a);
      && NoRepeats(r.queue)
      && (forall k :: 0 <= k < |r.queue| ==> r.queue[k] < r.index && r.outs[r.queue[k]].remaining > 0)
      && (forall j :: 0 <= j < r.index && r.outs[j].remaining > 0 ==> j in r.queue)
  {
    var r := Dispatch(jobs, quantum, a);
    var i := a.queue[0];
    assert r.outs == a.outs[i := r.outs[i]];
    PopHead(a.queue);
    if r.queue != a.queue[1..] {
      PushFresh(a.queue[1..], i);
    }
    forall j | 0 <= j < a.index && r.outs[j].remaining > 0
      ensures j in r.queue
    {
      if j != i {
        assert j in a.queue;
      }
    }
    forall k | 0 <= k < |r.queue|
      ensures r.queue[k] < r.index && r.outs[r.queue[k]].remaining > 0
    {
      if k < |a.queue| - 1 {
        assert r.queue[k] == a.queue[k + 1];
      }
    }
  }

  /** Dispatching keeps the output part of the invariant. */
  lemma DispatchKeepsOuts(jobs: seq<Job>, quantum: int, a: State)
    requires quantum > 0 && Inv(jobs, a) && a.queue != []
    ensures var r := Dispatch(jobs, quantum, a);
      && Shaped(jobs, r) && r.time > a.time && r.index == a.index
      && (forall i :: r.index <= i < |jobs| ==> r.outs[i] == FreshOut(jobs[i]))
      && (forall i :: 0 <= i < |jobs| ==> 0 <= r.outs[i].remaining <= jobs[i].burst)
      && (forall i :: 0 <= i < r.index ==> jobs[i].arrival <= r.time)
  {
    var r := Dispatch(jobs, quantum, a);
    var i := a.queue[0];
    assert r.outs == a.outs[i := r.outs[i]];
  }

  /** Dispatching takes at least one unit off the total remaining time. */
  lemma DispatchReducesWork(jobs: seq<Job>, quantum: int, a: State)
    requires quantum > 0 && Inv(jobs, a) && a.queue != []
    ensures Shaped(jobs, Dispatch(jobs, quantum, a))
    ensures Work(jobs, Dispatch(jobs, quantum, a)) < Work(jobs, a)
  {
    var r := Dispatch(jobs, quantum, a);
    var i := a.queue[0];
    var o' := r.outs[i];
    assert r.outs == a.outs[i := o'];
    TotalAfterUpdate(a.outs, i, o', Remaining);
  }

  /** Dispatching keeps the invariant and takes at least one unit off the total remaining time. */
  lemma DispatchKeepsInv(jobs: seq<Job>, quantum: int, a: State)
    requires quantum > 0 && Inv(jobs, a) && a.queue != []
    ensures Inv(jobs, Dispatch(jobs, quantum, a))
    ensures Dispatch(jobs, quantum, a).time > a.time && Dispatch(jobs, quantum, a).index == a.index
    ensures Work(jobs, Dispatch(jobs, quantum, a)) < Work(jobs, a)
  {
    DispatchKeepsQueue(jobs, quantum, a);
    DispatchKeepsOuts(jobs, quantum, a);
    DispatchReducesWork(jobs, quantum, a);
  }

  /** One iteration keeps the invariant, never moves the clock or the cursor back, and makes progress. */
  lemma StepKeepsInv(jobs: seq<Job>, quantum: int, s: State)
    requires quantum > 0 && WellFormedJobs(jobs) && Inv(jobs, s) && !Finished(jobs, s)
    ensures Inv(jobs, Step(jobs, quantum, s))
    ensures Step(jobs, quantum, s).time >= s.time && Step(jobs, quantum, s).index >= s.index
    ensures Work(jobs, s) >= 0
    ensures Work(jobs, Step(jobs, quantum, s)) < Work(jobs, s)
         || (Work(jobs, Step(jobs, quantum, s)) == Work(jobs, s) && Gap(jobs, Step(jobs, quantum, s)) < Gap(jobs, s))
  {
    TotalOfNonNegative(s.outs, Remaining);
    AdmitKeepsInv(jobs, s);
    var a := Admit(jobs, s);
    if a.queue == [] {
      assert a.index == s.index;
    } else {
      DispatchKeepsInv(jobs, quantum, a);
    }
  }

  /**
   * The whole loop from state `s`. It ends with everything admitted, the
   * queue empty and no process with work left.
   */
  ghost function Run(jobs: seq<Job>, quantum: int, s: State): (r: State)
    requires quantum > 0 && WellFormedJobs(jobs) && Inv(jobs, s)
    ensures Inv(jobs, r) && Finished(jobs, r)
    ensures forall i :: 0 <= i < |jobs| ==> r.outs[i].remaining == 0
    decreases Work(jobs, s), Gap(jobs, s)
  {
    if Finished(jobs, s) then
      s
    else
      StepKeepsInv(jobs, quantum, s);
      Run(jobs, quantum, Step(jobs, quantum, s))
  }

  /** Position `i` has had at least one slice. */
  predicate Dispatched(slices: seq<Slice>, i: nat)
  {
    slices != [] && (slices[|slices| - 1].job == i || Dispatched(slices[..|slices| - 1], i))
  }

  /** When position `i` first got the CPU. */
  function FirstStart(slices: seq<Slice>, i: nat): int
    requires Dispatched(slices, i)
  {
    var n := |slices| - 1;
    if Dispatched(slices[..n], i) then FirstStart(slices[..n], i) else slices[n].start
  }

  /** When position `i` last gave up the CPU. */
  function LastEnd(slices: seq<Slice>, i: nat): int
    requires Dispatched(slices, i)
  {
    var n := |slices| - 1;
    if slices[n].job == i then slices[n].end else LastEnd(slices[..n], i)
  }

  /** The CPU time position `i` has received. */
  function Served(slices: seq<Slice>, i: nat): int
  {
    if slices == [] then 0
    else
      var n := |slices| - 1;
      Served(slices[..n], i) + (if slices[n].job == i then slices[n].end - slices[n].start else 0)
  }

  /** How the slice functions change when one more slice is run. */
  lemma AppendSlice(slices: seq<Slice>, x: Slice, i: nat)
    ensures Dispatched(slices + [x], i) == (x.job == i || Dispatched(slices, i))
    ensures Served(slices + [x], i) == Served(slices, i) + (if x.job == i then x.end - x.start else 0)
    ensures Dispatched(slices + [x], i) ==>
      FirstStart(slices + [x], i) == (if Dispatched(slices, i) then FirstStart(slices, i) else x.start)
    ensures Dispatched(slices + [x], i) ==>
      LastEnd(slices + [x], i) == (if x.job == i then x.end else LastEnd(slices, i))
  {
    assert (slices + [x])[..|slices|] == slices;
  }

  /** Some slice of `i` starts at its first start, and some slice of `i` ends at its last end. */
  lemma {:induction false} FirstAndLastAreSlices(slices: seq<Slice>, i: nat)
    requires Dispatched(slices, i)
    ensures exists k :: 0 <= k < |slices| && slices[k].job == i && slices[k].start == FirstStart(slices, i)
    ensures exists k :: 0 <= k < |slices| && slices[k].job == i && slices[k].end == LastEnd(slices, i)
  {
    var n := |slices| - 1;
    if Dispatched(slices[..n], i) {
      FirstAndLastAreSlices(slices[..n], i);
      var k :| 0 <= k < n && slices[..n][k].job == i && slices[..n][k].start == FirstStart(slices[..n], i);
      assert slices[k] == slices[..n][k];
      if slices[n].job != i {
        var l :| 0 <= l < n && slices[..n][l].job == i && slices[..n][l].end == LastEnd(slices[..n], i);
        assert slices[l] == slices[..n][l];
      }
    }
  }

  /** The slices are one after another in time, and none has ended after time `t`. */
  ghost predicate Chronological(slices: seq<Slice>, t: int)
  {
    && (forall j, k :: 0 <= j < k < |slices| ==> slices[j].end <= slices[k].start)
    && (forall k :: 0 <= k < |slices| ==> slices[k].start < slices[k].end <= t)
  }

  /** A process's slices fit between its first start and its last end without overlapping, so they add up to at most that span. */
  lemma {:induction false} ServedWithinSpan(slices: seq<Slice>, t: int, i: nat)
    requires Chronological(slices, t) && Dispatched(slices, i)
    ensures Served(slices, i) <= LastEnd(slices, i) - FirstStart(slices, i)
  {
    var n := |slices| - 1;
    var pre := slices[..n];
    assert pre + [slices[n]] == slices;
    AppendSlice(pre, slices[n], i);
    assert Chronological(pre, slices[n].start);
    if Dispatched(pre, i) {
      ServedWithinSpan(pre, slices[n].start, i);
      FirstAndLastAreSlices(pre, i);
      var l :| 0 <= l < n && pre[l].job == i && pre[l].end == LastEnd(pre, i);
      assert slices[l].end <= slices[n].start;
    } else {
      assert Served(pre, i) == 0 by {
        NotDispatchedNotServed(pre, i);
      }
    }
  }

  lemma {:induction false} NotDispatchedNotServed(slices: seq<Slice>, i: nat)
    requires !Dispatched(slices, i)
    ensures Served(slices, i) == 0
  {
    if slices != [] {
      NotDispatchedNotServed(slices[..|slices| - 1], i);
    }
  }

  /**
   * What the slices run so far say about one process's output fields: the
   * CPU time it received is its burst minus its remaining time; it has had a
   * slice exactly when that is positive; its response time is its first start
   * less its arrival, and stays unset until then; its turnaround time is
   * written when its remaining time reaches zero, as its last end less its
   * arrival; its waiting time is never written.
   */
  ghost predicate Accounted(job: Job, slices: seq<Slice>, i: nat, o: Out)
  {
    && Served(slices, i) == job.burst - o.remaining
    && (Dispatched(slices, i) <==> o.remaining < job.burst)
    && o.waiting == 0
    && o.response == (if Dispatched(slices, i) then FirstStart(slices, i) - job.arrival else Unset)
    && (o.remaining > 0 ==> o.turnaround == 0)
    && (o.remaining == 0 ==> Dispatched(slices, i) && o.turnaround == LastEnd(slices, i) - job.arrival)
  }

  /** Each slice is at most one quantum, after its process's arrival, and finishes its process if it is shorter than a quantum. */
  ghost predicate SliceBounds(jobs: seq<Job>, quantum: int, slices: seq<Slice>, outs: seq<Out>)
    requires |outs| == |jobs|
  {
    forall k :: 0 <= k < |slices| ==>
      && slices[k].job < |jobs|
      && slices[k].end - slices[k].start <= quantum
      && jobs[slices[k].job].arrival <= slices[k].start
      && (slices[k].end - slices[k].start < quantum ==> outs[slices[k].job].remaining == 0)
  }

  /** A slice followed later by another slice of the same process lasts exactly one quantum. */
  ghost predicate FullUntilLast(quantum: int, slices: seq<Slice>)
  {
    forall j, k :: 0 <= j < k < |slices| && slices[j].job == slices[k].job ==>
      slices[j].end - slices[j].start == quantum
  }

  /** The history invariant of the loop. */
  ghost predicate History(jobs: seq<Job>, quantum: int, s: State)
  {
    && |s.outs| == |jobs|
    && Chronological(s.slices, s.time)
    && SliceBounds(jobs, quantum, s.slices, s.outs)
    && FullUntilLast(quantum, s.slices)
    && forall i :: 0 <= i < |jobs| ==> Accounted(jobs[i], s.slices, i, s.outs[i])
  }

  lemma InitHistory(jobs: seq<Job>, quantum: int)
    requires WellFormedJobs(jobs)
    ensures History(jobs, quantum, Init(jobs))
  {
  }

  /** After a dispatch, each process's fields still agree with its slices. */
  lemma DispatchAccounted(jobs: seq<Job>, quantum: int, a: State, j: nat)
    requires quantum > 0 && WellFormedJobs(jobs) && Inv(jobs, a) && History(jobs, quantum, a) && a.queue != []
    requires j < |jobs|
    ensures Accounted(jobs[j], Dispatch(jobs, quantum, a).slices, j, Dispatch(jobs, quantum, a).outs[j])
  {
    var r := Dispatch(jobs, quantum, a);
    var i := a.queue[0];
    var x := Slice(i, a.time, r.time);
    assert r.slices == a.slices + [x];
    AppendSlice(a.slices, x, j);
    assert Accounted(jobs[j], a.slices, j, a.outs[j]);
    if Dispatched(a.slices, j) {
      FirstAndLastAreSlices(a.slices, j);
    }
  }

  /** After a dispatch, the slices are still one after another in time. */
  lemma DispatchChronological(jobs: seq<Job>, quantum: int, a: State)
    requires quantum > 0 && Inv(jobs, a) && History(jobs, quantum, a) && a.queue != []
    ensures var r := Dispatch(jobs, quantum, a); Chronological(r.slices, r.time)
  {
    var r := Dispatch(jobs, quantum, a);
    assert r.slices == a.slices + [Slice(a.queue[0], a.time, r.time)];
    forall j, k | 0 <= j < k < |r.slices|
      ensures r.slices[j].end <= r.slices[k].start
    {
      assert r.slices[j] == a.slices[j];
      if k < |a.slices| {
        assert r.slices[k] == a.slices[k];
      }
    }
  }

  /** After a dispatch, every slice is still within its bounds. */
  lemma DispatchSliceBounds(jobs: seq<Job>, quantum: int, a: State)
    requires quantum > 0 && Inv(jobs, a) && History(jobs, quantum, a) && a.queue != []
    ensures var r := Dispatch(jobs, quantum, a); SliceBounds(jobs, quantum, r.slices, r.outs)
  {
    var r := Dispatch(jobs, quantum, a);
    var i := a.queue[0];
    assert r.slices == a.slices + [Slice(i, a.time, r.time)];
    assert r.outs == a.outs[i := r.outs[i]];
    forall k | 0 <= k < |a.slices|
      ensures r.slices[k].end - r.slices[k].start < quantum ==> r.outs[r.slices[k].job].remaining == 0
    {
      assert r.slices[k] == a.slices[k];
    }
  }

  /** After a dispatch, every slice followed by another of the same process still lasts one quantum. */
  lemma DispatchFullUntilLast(jobs: seq<Job>, quantum: int, a: State)
    requires quantum > 0 && Inv(jobs, a) && History(jobs, quantum, a) && a.queue != []
    ensures FullUntilLast(quantum, Dispatch(jobs, quantum, a).slices)
  {
    var r := Dispatch(jobs, quantum, a);
    var i := a.queue[0];
    assert r.slices == a.slices + [Slice(i, a.time, r.time)];
    forall k | 0 <= k < |r.slices| - 1 && r.slices[k].job == i
      ensures r.slices[k].end - r.slices[k].start == quantum
    {
      assert r.slices[k] == a.slices[k];
    }
  }

  /** One iteration extends the history. */
  lemma StepKeepsHistory(jobs: seq<Job>, quantum: int, s: State)
    requires quantum > 0 && WellFormedJobs(jobs) && Inv(jobs, s) && History(jobs, quantum, s) && !Finished(jobs, s)
    ensures History(jobs, quantum, Step(jobs, quantum, s))
  {
    AdmitKeepsInv(jobs, s);
    var a := Admit(jobs, s);
    assert History(jobs, quantum, a);
    if a.queue != [] {
      DispatchChronological(jobs, quantum, a);
      DispatchSliceBounds(jobs, quantum, a);
      DispatchFullUntilLast(jobs, quantum, a);
      forall j | 0 <= j < |jobs| ensures Accounted(jobs[j], Dispatch(jobs, quantum, a).slices, j, Dispatch(jobs, quantum, a).outs[j]) {
        DispatchAccounted(jobs, quantum, a, j);
      }
    } else {
      var r := Step(jobs, quantum, s);
      assert r == a.(time := jobs[a.index].arrival);
    }
  }

  lemma {:induction false} RunKeepsHistory(jobs: seq<Job>, quantum: int, s: State)
    requires quantum > 0 && WellFormedJobs(jobs) && Inv(jobs, s) && History(jobs, quantum, s)
    ensures History(jobs, quantum, Run(jobs, quantum, s))
    decreases Work(jobs, s), Gap(jobs, s)
  {
    if !Finished(jobs, s) {
      StepKeepsInv(jobs, quantum, s);
      StepKeepsHistory(jobs, quantum, s);
      RunKeepsHistory(jobs, quantum, Step(jobs, quantum, s));
    }
  }

  /** The state the loop exits with, from a fresh batch. */
  ghost function Final(jobs: seq<Job>, quantum: int): State
    requires quantum > 0 && WellFormedJobs(jobs)
  {
    InitInv(jobs);
    Run(jobs, quantum, Init(jobs))
  }

  /**
   * When the loop exits, every process has run: its slices add up to its
   * burst time, each slice is at most one quantum and only its last may be
   * shorter; its response time is its first dispatch less its arrival and is
   * not negative; its turnaround time is its completion less its arrival and
   * covers at least its response time plus its burst; its remaining and
   * waiting times are zero.
   */
  lemma FinalOutcome(jobs: seq<Job>, quantum: int, i: nat)
    requires quantum > 0 && WellFormedJobs(jobs) && i < |jobs|
    ensures var r := Final(jobs, quantum);
      && r.outs[i].remaining == 0 && r.outs[i].waiting == 0
      && Dispatched(r.slices, i)
      && Served(r.slices, i) == jobs[i].burst
      && r.outs[i].response == FirstStart(r.slices, i) - jobs[i].arrival >= 0
      && r.outs[i].turnaround == LastEnd(r.slices, i) - jobs[i].arrival
      && r.outs[i].turnaround >= r.outs[i].response + jobs[i].burst
  {
    InitInv(jobs);
    InitHistory(jobs, quantum);
    RunKeepsHistory(jobs, quantum, Init(jobs));
    var r := Final(jobs, quantum);
    assert Accounted(jobs[i], r.slices, i, r.outs[i]);
    FirstAndLastAreSlices(r.slices, i);
    ServedWithinSpan(r.slices, r.time, i);
  }

  /**
   * The totals Round Robin ends with: the total waiting time is zero, since
   * the loop never writes it, the total response time is not negative, and
   * the total turnaround time is at least the total response time plus the
   * total burst time.
   */
  lemma FinalTotals(jobs: seq<Job>, quantum: int)
    requires quantum > 0 && WellFormedJobs(jobs)
    ensures var t := Summary(Final(jobs, quantum).outs);
      && t.count == |jobs| && t.waiting == 0 && t.response >= 0
      && t.turnaround >= t.response + TotalBurst(jobs)
  {
    var outs := Final(jobs, quantum).outs;
    forall i | 0 <= i < |outs|
      ensures outs[i].waiting == 0 && outs[i].response >= 0
      ensures outs[i].turnaround >= outs[i].response + jobs[i].burst
    {
      FinalOutcome(jobs, quantum, i);
    }
    TotalOfZeros(outs, Waiting);
    TotalOfNonNegative(outs, Response);
    TotalAtLeastPlusBurst(outs, jobs, Turnaround, Response);
    assert Summary(outs) == Totals(|outs|, Total(outs, Waiting), Total(outs, Response), Total(outs, Turnaround));
  }

  /** When the loop exits, each slice lasts between one unit and one quantum, and every slice followed by another of the same process lasts exactly one quantum. */
  lemma FinalSlices(jobs: seq<Job>, quantum: int)
    requires quantum > 0 && WellFormedJobs(jobs)
    ensures var sl := Final(jobs, quantum).slices;
      && Chronological(sl, Final(jobs, quantum).time)
      && (forall k :: 0 <= k < |sl| ==> 0 < sl[k].end - sl[k].start <= quantum)
      && (forall j, k :: 0 <= j < k < |sl| && sl[j].job == sl[k].job ==> sl[j].end - sl[j].start == quantum)
  {
    InitInv(jobs);
    InitHistory(jobs, quantum);
    RunKeepsHistory(jobs, quantum, Init(jobs));
  }

  function ExampleJobs(): seq<Job>
  {
    [Job(1, 0, 4, 0), Job(2, 1, 3, 0)]
  }

  /**
   * With quantum 2, P1 (arrival 0, burst 4) and P2 (arrival 1, burst 3) run
   * P1 0-2, P1 2-4, P2 4-6, P2 6-7: P1 goes back on the queue at time 2 before
   * P2, which arrived at time 1, is admitted. P1 completes with turnaround 4;
   * P2 first runs at 4 (response 3) and completes with turnaround 6.
   */
  lemma Example()
    ensures WellFormedJobs(ExampleJobs())
    ensures Final(ExampleJobs(), 2) == ExampleState(4)
  {
    var jobs := ExampleJobs();
    assert WellFormedJobs(jobs);
    InitInv(jobs);
    assert Init(jobs) == ExampleState(0);
    ExampleRun0();
  }

  /** The outputs and the slices of the example, written out. */
  lemma ExampleOutcome()
    ensures WellFormedJobs(ExampleJobs())
    ensures var f := Final(ExampleJobs(), 2);
      && f.time == 7
      && f.outs == [Out(0, 0, 4, 0), Out(0, 0, 6, 3)]
      && f.slices == [Slice(0, 0, 2), Slice(0, 2, 4), Slice(1, 4, 6), Slice(1, 6, 7)]
  {
    Example();
    assert ExampleState(4) == State(7, 2, [], [Out(0, 0, 4, 0), Out(0, 0, 6, 3)], [Slice(0, 0, 2), Slice(0, 2, 4), Slice(1, 4, 6), Slice(1, 6, 7)]);
  }

  /** The states of the example at the top of each iteration. */
  function ExampleState(k: nat): State
    requires k <= 4
  {
    if k == 0 then Init(ExampleJobs())
    else if k == 1 then State(2, 1, [0], [Out(2, 0, 0, 0), Out(3, 0, 0, Unset)], [Slice(0, 0, 2)])
    else if k == 2 then State(4, 2, [1], [Out(0, 0, 4, 0), Out(3, 0, 0, Unset)], [Slice(0, 0, 2), Slice(0, 2, 4)])
    else if k == 3 then State(6, 2, [1], [Out(0, 0, 4, 0), Out(1, 0, 0, 3)], [Slice(0, 0, 2), Slice(0, 2, 4), Slice(1, 4, 6)])
    else State(7, 2, [], [Out(0, 0, 4, 0), Out(0, 0, 6, 3)], [Slice(0, 0, 2), Slice(0, 2, 4), Slice(1, 4, 6), Slice(1, 6, 7)])
  }

  /** The loop run from each state of the example ends in the last one. */
  lemma ExampleRun0()
    requires Inv(ExampleJobs(), ExampleState(0))
    ensures Run(ExampleJobs(), 2, ExampleState(0)) == ExampleState(4)
  {
    var jobs := ExampleJobs();
    assert WellFormedJobs(jobs);
    assert !Finished(jobs, ExampleState(0));
    ExampleStep0();
    StepKeepsInv(jobs, 2, ExampleState(0));
    ExampleRun1();
  }

  lemma ExampleRun1()
    requires Inv(ExampleJobs(), ExampleState(1))
    ensures Run(ExampleJobs(), 2, ExampleState(1)) == ExampleState(4)
  {
    var jobs := ExampleJobs();
    assert WellFormedJobs(jobs);
    assert !Finished(jobs, ExampleState(1));
    ExampleStep1();
    StepKeepsInv(jobs, 2, ExampleState(1));
    ExampleRun2();
  }

  lemma ExampleRun2()
    requires Inv(ExampleJobs(), ExampleState(2))
    ensures Run(ExampleJobs(), 2, ExampleState(2)) == ExampleState(4)
  {
    var jobs := ExampleJobs();
    assert WellFormedJobs(jobs);
    assert !Finished(jobs, ExampleState(2));
    ExampleStep2();
    StepKeepsInv(jobs, 2, ExampleState(2));
    ExampleRun3();
  }

  lemma ExampleRun3()
    requires Inv(ExampleJobs(), ExampleState(3))
    ensures Run(ExampleJobs(), 2, ExampleState(3)) == ExampleState(4)
  {
    var jobs := ExampleJobs();
    assert WellFormedJobs(jobs);
    assert !Finished(jobs, ExampleState(3));
    ExampleStep3();
    StepKeepsInv(jobs, 2, ExampleState(3));
    assert Finished(jobs, ExampleState(4));
  }

  lemma ExampleStep0()
    ensures Step(ExampleJobs(), 2, ExampleState(0)) == ExampleState(1)
  {
    ExampleAdmit0();
    ExampleDispatch0();
  }

  /** At time 0 only P1 has arrived. */
  lemma ExampleAdmit0()
    ensures Admit(ExampleJobs(), ExampleState(0)) == State(0, 1, [0], [Out(4, 0, 0, Unset), Out(3, 0, 0, Unset)], [])
  {
    var jobs := ExampleJobs();
    var s := ExampleState(0);
    assert s.outs == [Out(4, 0, 0, Unset), Out(3, 0, 0, Unset)];
    var a := s.(queue := [0], index := 1);
    assert Admit(jobs, a) == a;
  }

  /** P1 runs its first slice and goes back on the queue. */
  lemma ExampleDispatch0()
    ensures Dispatch(ExampleJobs(), 2, State(0, 1, [0], [Out(4, 0, 0, Unset), Out(3, 0, 0, Unset)], [])) == ExampleState(1)
  {
    var a := State(0, 1, [0], [Out(4, 0, 0, Unset), Out(3, 0, 0, Unset)], []);
    var next := ExampleState(1);
    assert next.outs == a.outs[0 := Out(2, 0, 0, 0)];
    assert next.slices == a.slices + [Slice(0, 0, 2)];
  }

  lemma ExampleStep1()
    ensures Step(ExampleJobs(), 2, ExampleState(1)) == ExampleState(2)
  {
    var jobs := ExampleJobs();
    var s := ExampleState(1);
    var a := s.(queue := [0, 1], index := 2);
    assert Admit(jobs, a) == a;
    assert Admit(jobs, s) == a;
    var next := ExampleState(2);
    assert next.queue == a.queue[1..];
    assert next.outs == a.outs[0 := Out(0, 0, 4, 0)];
    assert next.slices == a.slices + [Slice(0, 2, 4)];
  }

  lemma ExampleStep2()
    ensures Step(ExampleJobs(), 2, ExampleState(2)) == ExampleState(3)
  {
    var jobs := ExampleJobs();
    var s := ExampleState(2);
    assert Admit(jobs, s) == s;
    var next := ExampleState(3);
    assert next.queue == s.queue[1..] + [1];
    assert next.outs == s.outs[1 := Out(1, 0, 0, 3)];
    assert next.slices == s.slices + [Slice(1, 4, 6)];
  }

  lemma ExampleStep3()
    ensures Step(ExampleJobs(), 2, ExampleState(3)) == ExampleState(4)
  {
    var jobs := ExampleJobs();
    var s := ExampleState(3);
    assert Admit(jobs, s) == s;
    var next := ExampleState(4);
    assert next.queue == s.queue[1..];
    assert next.outs == s.outs[1 := Out(0, 0, 6, 3)];
    assert next.slices == s.slices + [Slice(1, 6, 7)];
  }

  /** What stays true when the quantum is not positive: the loop condition holds and every admitted or waiting process still has work left. */
  ghost predicate NeverDone(jobs: seq<Job>, s: State)
  {
    && Shaped(jobs, s)
    && (s.queue != [] || s.index < |jobs|)
    && (forall k :: 0 <= k < |s.queue| ==> s.queue[k] < s.index && s.outs[s.queue[k]].remaining > 0)
    && (forall i :: s.index <= i < |jobs| ==> s.outs[i].remaining == jobs[i].burst)
  }

  /** With a quantum of zero or less, a slice gives no CPU time, so the head always goes back on the queue. */
  lemma NonPositiveQuantumStep(jobs: seq<Job>, quantum: int, s: State)
    requires quantum <= 0 && WellFormedJobs(jobs) && NeverDone(jobs, s)
    ensures NeverDone(jobs, Step(jobs, quantum, s))
  {
    var a := Admit(jobs, s);
    forall k | 0 <= k < |a.queue| ensures a.queue[k] < a.index && a.outs[a.queue[k]].remaining > 0 {
      if k < |s.queue| {
        assert a.queue[k] == s.queue[k];
      }
    }
    if a.queue != [] {
      var r := Dispatch(jobs, quantum, a);
      forall k | 0 <= k < |r.queue| ensures r.queue[k] < r.index && r.outs[r.queue[k]].remaining > 0 {
        if k < |a.queue| - 1 {
          assert r.queue[k] == a.queue[k + 1];
        }
      }
    }
  }

  /**
   * As written, nothing rejects a time quantum of zero or less: on any
   * non-empty batch NeverDone holds before the first iteration, implies the
   * loop condition, and survives every iteration, so the simulation never ends.
   */
  lemma NonPositiveQuantumNeverEnds(jobs: seq<Job>, quantum: int)
    requires quantum <= 0 && WellFormedJobs(jobs) && |jobs| > 0
    ensures NeverDone(jobs, Init(jobs))
    ensures forall s :: NeverDone(jobs, s) ==> !Finished(jobs, s) && NeverDone(jobs, Step(jobs, quantum, s))
  {
    forall s | NeverDone(jobs, s)
      ensures NeverDone(jobs, Step(jobs, quantum, s))
    {
      NonPositiveQuantumStep(jobs, quantum, s);
    }
  }
}
