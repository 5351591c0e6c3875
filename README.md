# CPU scheduler simulation, modelled in Dafny

This project models the scheduling engine of `CPUScheduler.java`. The engine
holds a batch of processes. Each process has a pid, an arrival time, a burst
time and a priority, and four output fields: remaining time, waiting time,
turnaround time, and response time (-1 until the first dispatch). The engine
also holds a Round Robin time quantum. Four policies run over the batch:

- First Come First Serve;
- Shortest Job First;
- Priority scheduling;
- Round Robin.

Each policy sorts the batch by arrival time. Its simulation loop then writes
the output fields of the processes in place, and the statistics step sums
them up.

The model keeps the program's imperative form:

- `ProcessRecord.Process` is a class. Its four inputs are `const`, since
  nothing writes them after construction. Its four outputs are `var`.
- `Scheduler.CPUScheduler` is a class. It has the batch as a `seq<Process>`
  field and the quantum as an `int` field.
- Each entry point (`Fcfs`, `Sjf`, `PriorityScheduling`, `RoundRobin`) is a
  method. Each sorts the batch and then calls its simulation method
  (`Simulate`, `SimulateWithQueue`, `SimulateRoundRobin`). Each simulation
  method runs its loop over the process objects and ends with `Summarize`,
  the summing loop of the statistics step.

Each loop is proved against a specification in its own module:

- `Fcfs`: functions giving each process's dispatch clock, completion clock
  and output fields, for the list in order.
- `QueuePolicy`: a relation saying which dispatch orders the ready-pool loop
  may produce (`IsSchedule`), and the output fields each order gives.
  Ties between equal keys in `java.util.PriorityQueue` are unspecified, so
  any pooled process with the smallest key may be polled.
- `RoundRobinPolicy`: a deterministic state machine. `Step` is one iteration
  of the outer loop, `Run` iterates it to the exit, and `Final` is the exit
  state for a fresh batch. `Final` also records every time slice. The
  lemmas about it state what the loop promises: slices sum to the burst
  time, response and turnaround times come from the first and last slices,
  and the example order shows that a preempted process goes back on the
  queue before the processes that arrived during its slice.
- `ArrivalSort`: the stable sort by arrival, as a reference insertion sort.
  It is proved sorted, a permutation, and stable.
- `Statistics`: the totals and the count the averages are taken over.

## Model

| member | source | states |
|---|---|---|
| ProcessRecord.Process.constructor | CPUScheduler.java:4-21 | A new process keeps the four inputs it is given, its remaining time is its burst time, its waiting and turnaround times are 0 and its response time is the unset value -1 |
| Scheduler.CPUScheduler.constructor | CPUScheduler.java:25-26 | The scheduler holds the batch it is given and the quantum |
| Scheduler.CPUScheduler.Summarize | CPUScheduler.java:150-158 | The result is the count of the batch and the plain sums of the waiting, response and turnaround times over every process of the batch |
| Scheduler.CPUScheduler.SortBatch | CPUScheduler.java:47 | The batch becomes its stable sort by arrival time: ordered by arrival, made of the same process objects, still distinct, and with every output field as created |
| ArrivalSort.SortByArrival | CPUScheduler.java:47 | The sorted batch is ordered by ascending arrival time and is a permutation of the input (same multiset, same length) |
| ArrivalSort.SortIsStable | CPUScheduler.java:47 | For every arrival time, the processes with that arrival time keep their relative order |
| ArrivalSort.SortKeepsDistinct | CPUScheduler.java:47 | Sorting a batch of distinct process objects gives distinct objects |
| ArrivalSort.PermutationKeepsBatch | CPUScheduler.java:47 | Any reordering of a valid, freshly read batch is again a valid fresh batch made of the same objects |
| ArrivalSort.Insert | CPUScheduler.java:47 | Inserting a process adds exactly that process to the multiset, and the new head is either the process or the old head |
| ArrivalSort.InsertKeepsOrder | CPUScheduler.java:47 | Inserting into a sequence ordered by arrival keeps it ordered by arrival |
| ArrivalSort.InsertIsStable | CPUScheduler.java:47 | Insertion puts the process in front of every process with the same arrival time, as if it had been prepended |
| Scheduler.CPUScheduler.Fcfs | CPUScheduler.java:46-49 | The batch is sorted by arrival and each process ends with the FCFS outputs. The totals equal the statistics sums. Total response equals total waiting, which is not negative, and total turnaround exceeds it by the total burst time |
| Scheduler.CPUScheduler.Simulate | CPUScheduler.java:72-87 | Over the batch in list order, every process ends with the output fields `Fcfs.Outcome` gives it, and the totals satisfy the FCFS relations above |
| Scheduler.CPUScheduler.RunFcfs | CPUScheduler.java:73-85 | The FCFS loop leaves each process at position i with `Fcfs.Outcome(jobs, i)` |
| Scheduler.CPUScheduler.RunToCompletion | CPUScheduler.java:75-83 | One iteration: the clock waits for the arrival, the response and waiting times are set to the delay, the clock advances by the burst, and the turnaround time is set. The process ends with the outcome for its position, and the returned clock is the completion clock of the first k+1 processes |
| Fcfs.Start | CPUScheduler.java:75-77 | A process is dispatched no earlier than its arrival and no earlier than the completion of the processes before it |
| Fcfs.Outcome | CPUScheduler.java:78-83 | The waiting time is the delay the previous completion imposes, max(0, finish - arrival), and so is never negative. Turnaround is waiting plus burst, response equals waiting, and the remaining time is untouched |
| Fcfs.RunsAfterEarlier | CPUScheduler.java:74-83 | A process starts only after every earlier process in the list has completed |
| Fcfs.CompletionOrder | CPUScheduler.java:74-83 | Completion order is list order: a later process completes strictly later |
| Fcfs.Totals | CPUScheduler.java:154-158 | On the FCFS outputs the total waiting time is not negative, the total response time equals it, and the total turnaround time exceeds it by the total burst time |
| Fcfs.Example | CPUScheduler.java:72-87 | P1 (0,5), P2 (1,3), P3 (2,8) complete at 5, 8 and 16 with waiting times 0, 4 and 6 |
| Fcfs.SameClockAsPool | CPUScheduler.java:74-83 | The FCFS clock after the first k processes equals the pool policy's clock after dispatching positions 0 to k-1 in list order |
| Fcfs.PoolOutcomeInListOrder | CPUScheduler.java:78-83 | Dispatching the list in order under the pool policy's field assignment gives each process the same response time, turnaround and remaining time as FCFS. Only the waiting time differs: FCFS sets it equal to the response time, while the pool policy leaves it at 0 |
| Scheduler.CPUScheduler.Sjf | CPUScheduler.java:52-56 | The batch is sorted by arrival. The dispatch order is one the pool policy keyed by burst time can produce, and each dispatched process holds that order's outputs. The total waiting time is 0, total response is not negative, and total turnaround exceeds it by the total burst time |
| Scheduler.CPUScheduler.PriorityScheduling | CPUScheduler.java:59-63 | As for Sjf, with the pool keyed by priority (lower value first). Nothing is preempted |
| Scheduler.CPUScheduler.SimulateWithQueue | CPUScheduler.java:89-113 | The pool loop dispatches every position exactly once, in an order `QueuePolicy.IsSchedule` admits for the key. Each process ends with `QueuePolicy.Outcome`, and the totals are as for Sjf |
| Scheduler.CPUScheduler.RunPool | CPUScheduler.java:90-111 | The loop terminates, its dispatch order is a schedule, and each process at a dispatched position holds the outcome of its dispatch |
| Scheduler.CPUScheduler.Admit | CPUScheduler.java:94-97 | Admission keeps the pool state. The cursor stops at the end or at the first process arriving after the clock, and the loop measure does not grow |
| Scheduler.CPUScheduler.Poll | CPUScheduler.java:104-109 | The polled position `i` is in the pool and no pooled process has a smaller key. It is appended to the order and removed from the pool, and the clock becomes the pool clock after the new order. The pool state and eligibility of the order are kept |
| Scheduler.CPUScheduler.Dispatch | CPUScheduler.java:104-109 | Only the polled process's fields change. It ends with the outcome of its dispatch, and the clock is its completion |
| Scheduler.CPUScheduler.RunFromPool | CPUScheduler.java:105-109 | The polled process gets the response time of its dispatch and runs its whole remaining time. Its turnaround time is its completion less its arrival. Its waiting and remaining times are not written |
| QueuePolicy.MinimumExists | CPUScheduler.java:104 | A non-empty pool holds a process whose key no other pooled process undercuts, so the poll always has a candidate |
| QueuePolicy.Outcome | CPUScheduler.java:104-109 | The response time is the delay before dispatch and is never negative. Turnaround is that delay plus the burst. Waiting stays 0 and remaining stays the burst |
| QueuePolicy.StartState | CPUScheduler.java:90-91 | The empty order, empty pool, cursor 0 and clock 0 satisfy the pool state |
| QueuePolicy.AdmitKeepsState | CPUScheduler.java:94-97 | Admitting a process that has arrived keeps the pool state |
| QueuePolicy.JumpKeepsState | CPUScheduler.java:99-101 | Jumping the clock to the next arrival when the pool is empty keeps the pool state |
| QueuePolicy.PollIsEligible | CPUScheduler.java:93-104 | Once admission has stopped, a pooled process with the smallest key is eligible, and it is dispatched at the current clock |
| QueuePolicy.PollKeepsState | CPUScheduler.java:104-109 | Running an eligible pooled process to completion keeps the pool state, with the clock at its completion |
| QueuePolicy.EndIsSchedule | CPUScheduler.java:93 | When the loop condition fails, the dispatch order is a complete schedule |
| QueuePolicy.NoOverlap | CPUScheduler.java:104-109 | A later dispatch starts only after an earlier one has completed |
| QueuePolicy.CompletionOrder | CPUScheduler.java:104-109 | Completion times strictly follow the dispatch order |
| QueuePolicy.Totals | CPUScheduler.java:154-158 | On the pool policy's outputs, the total waiting time is 0, total response is not negative, and total turnaround exceeds it by the total burst time |
| QueuePolicy.SjfExample | CPUScheduler.java:52-56 | On P1 (0,5), P2 (1,3), P3 (2,8), Shortest Job First has exactly one order, P1, P2, P3, completing at 5, 8 and 16 |
| QueuePolicy.PriorityExample | CPUScheduler.java:59-63 | On the same batch with priorities 1, 2, 1, Priority scheduling has exactly one order, P1, P3, P2: P3 is chosen over P2 at time 5 |
| Scheduler.CPUScheduler.RoundRobin | CPUScheduler.java:66-69 | A quantum that is not positive is rejected and nothing changes. Otherwise the batch is sorted by arrival, every process ends with the fields of `RoundRobinPolicy.Final`, and the totals have waiting 0, response not negative, and turnaround at least response plus total burst |
| Scheduler.CPUScheduler.SimulateRoundRobin | CPUScheduler.java:115-148 | The outputs of the batch are those of the state machine's exit state, and the totals are as for RoundRobin |
| Scheduler.CPUScheduler.RunRoundRobin | CPUScheduler.java:116-146 | The loop terminates with the outputs of the state machine's exit state |
| Scheduler.CPUScheduler.Iteration | CPUScheduler.java:120-145 | One iteration of the outer loop leaves the clock, the cursor, the queue and the output fields as `RoundRobinPolicy.Step` does |
| Scheduler.CPUScheduler.AdmitArrived | CPUScheduler.java:121-124 | The admission loop leaves the cursor and the queue as `RoundRobinPolicy.Admit` does |
| Scheduler.CPUScheduler.RunSlice | CPUScheduler.java:131-145 | One slice leaves the clock, the queue and the output fields as `RoundRobinPolicy.Dispatch` does |
| RoundRobinPolicy.Admit | CPUScheduler.java:121-124 | Admission appends, in list order, exactly the next processes that have arrived by the clock. It stops at the end or at a process arriving later, and changes nothing else |
| RoundRobinPolicy.InitInv | CPUScheduler.java:116-118 | The state before the first iteration satisfies the loop invariant |
| RoundRobinPolicy.AdmitKeepsInv | CPUScheduler.java:121-124 | Admission keeps the loop invariant |
| RoundRobinPolicy.DispatchKeepsQueue | CPUScheduler.java:131-141 | After a slice, the queue still holds each admitted process with work left exactly once |
| RoundRobinPolicy.DispatchKeepsOuts | CPUScheduler.java:132-138 | After a slice, the clock has moved forward, processes not yet admitted are as created, and each remaining time stays between 0 and the burst |
| RoundRobinPolicy.DispatchReducesWork | CPUScheduler.java:136-138 | A slice with a positive quantum takes at least one unit off the total remaining time |
| RoundRobinPolicy.DispatchKeepsInv | CPUScheduler.java:131-145 | A slice keeps the loop invariant, moves the clock forward and reduces the work left |
| RoundRobinPolicy.StepKeepsInv | CPUScheduler.java:120-145 | An iteration keeps the invariant and never moves the clock or the cursor back. It reduces the work left, or else shortens the idle gap to the next arrival, so the loop terminates |
| RoundRobinPolicy.Run | CPUScheduler.java:120-146 | The loop exits with everything admitted, the queue empty and every remaining time 0 |
| RoundRobinPolicy.InitHistory | CPUScheduler.java:116-118 | Before the first iteration, no slices have run and every process is accounted for |
| RoundRobinPolicy.DispatchAccounted | CPUScheduler.java:131-143 | After a slice, each process's fields still agree with its slices: CPU time received is burst less remaining. The response time is set on the first slice only and is the first start less the arrival. Turnaround is written when the remaining time reaches 0, as the last end less the arrival. Waiting is never written |
| RoundRobinPolicy.DispatchChronological | CPUScheduler.java:136-138 | Slices stay one after another in time and end by the clock |
| RoundRobinPolicy.DispatchSliceBounds | CPUScheduler.java:136-141 | Each slice lasts at most one quantum, starts after its process's arrival, and a shorter slice finishes its process |
| RoundRobinPolicy.DispatchFullUntilLast | CPUScheduler.java:136-141 | A slice followed later by another slice of the same process lasts exactly one quantum |
| RoundRobinPolicy.StepKeepsHistory | CPUScheduler.java:120-145 | An iteration extends the slice history and keeps every process accounted for |
| RoundRobinPolicy.RunKeepsHistory | CPUScheduler.java:120-146 | The whole loop keeps the history facts |
| RoundRobinPolicy.ServedWithinSpan | CPUScheduler.java:131-145 | A process's slices fit between its first start and its last end without overlapping |
| RoundRobinPolicy.FinalOutcome | CPUScheduler.java:131-145 | At the exit every process has run. Its slices add up to its burst time, and its remaining and waiting times are 0. Its response time is its first dispatch less its arrival and is not negative. Its turnaround time is its last end less its arrival and is at least response plus burst |
| RoundRobinPolicy.FinalSlices | CPUScheduler.java:136-141 | At the exit the slices are chronological. Each lasts between one unit and one quantum, and every slice followed by another of the same process lasts exactly one quantum |
| RoundRobinPolicy.FinalTotals | CPUScheduler.java:154-158 | On the exit outputs the total waiting time is 0, total response is not negative, and total turnaround is at least total response plus total burst |
| RoundRobinPolicy.Example | CPUScheduler.java:120-145 | With quantum 2, P1 (0,4) and P2 (1,3) pass through the four written-out states |
| RoundRobinPolicy.ExampleOutcome | CPUScheduler.java:120-145 | The example runs P1 0-2, P1 2-4, P2 4-6, P2 6-7. P1 goes back on the queue before P2 is admitted. P1 ends with turnaround 4, and P2 with response 3 and turnaround 6 |
| RoundRobinPolicy.NonPositiveQuantumStep | CPUScheduler.java:136-141 | On unbounded integers with a quantum of 0 or less, a slice gives no CPU time, so the head goes back on the queue and the loop condition still holds. For Java this is exact at quantum 0 |
| RoundRobinPolicy.NonPositiveQuantumNeverEnds | CPUScheduler.java:120-141 | On unbounded integers with a quantum of 0 or less on a non-empty batch, a predicate holds before the first iteration, implies the loop condition and survives every iteration, so the loop never exits |

## Left out

- `readInputFile` (CPUScheduler.java:29-44) is file input and line parsing. The model uses the constructor parameters instead. The batch it is given is `WellFormed`: one object per line, arrival time at least 0, burst time above 0, as the input format describes.
- The model keeps these demands on the batch. The reader itself checks neither bound.
- `start` and `main` (CPUScheduler.java:166-207) are the console menu. It reads the file name, the choice and the quantum. The entry points stand for its four cases, and the "Invalid choice." branch is not modelled.
- Console output is not modelled: the completion lines (CPUScheduler.java:84, 110, 144) and the printed averages (CPUScheduler.java:160-162).
- The averages are `double` divisions by the batch size, and an empty batch gives NaN. `Summarize` returns the integer totals and the count they are divided by.
- The algorithm-name parameter of `simulate` and `simulateWithQueue` is not modelled, since it only reaches the printed lines. This includes the label "Preemptive Priority Scheduling" at CPUScheduler.java:62, which is wrong: nothing is preempted.
- Java `int` overflow of the clock and the totals is not modelled. All arithmetic is on unbounded integers.
- RoundRobinPolicy.NonPositiveQuantumStep and RoundRobinPolicy.NonPositiveQuantumNeverEnds hold on unbounded integers. In Java they hold exactly for quantum 0. With a negative quantum, `remainingTime -= timeSlice` (CPUScheduler.java:137) makes the remaining time grow until the `int` wraps negative. The head is then not re-queued (CPUScheduler.java:140) and the loop can end. The model does not capture this wrap-around.
- Running a second policy on the same batch is not modelled. Fields are not reset between runs, so a second run would start from the first run's fields. Every entry point requires a freshly read batch (`FreshBatch`).
- `List.sort` is TimSort in place. The model reassigns the `processes` field with the result of a reference insertion sort. It proves that result is sorted, a permutation and stable, which are the properties `List.sort` promises. The sort algorithm itself is not modelled.
- The pools of the model hold positions in the sorted batch, not object references. The objects are distinct, so a position names one object.
- Scheduler.CPUScheduler.Sjf: the dispatch order is any order `QueuePolicy.IsSchedule` admits rather than the one order the JDK's heap would produce, because `PriorityQueue` leaves ties between equal keys unspecified.
- Scheduler.CPUScheduler.PriorityScheduling: same tie-order statement.
- Scheduler.CPUScheduler.SimulateWithQueue: same tie-order statement.
- `waitingTime` is written only on the FCFS path. On the queue and Round Robin paths it is never written (CPUScheduler.java:104-109, 131-145), so it stays 0. This holds even though the field's comment (CPUScheduler.java:10) calls it the total time a process spends waiting, and the model follows the code.
- Round Robin puts a preempted process back on the queue (CPUScheduler.java:141) before the processes that arrived during its slice. Those processes are admitted on the next iteration (CPUScheduler.java:121-124).
- The pool compares only burst time or priority (CPUScheduler.java:52, 59). No tie rule between equal keys, such as by arrival, is assumed.

## Findings

| source | as written | input that shows it | evidently intended | confidence | as-written member | corrected member |
|---|---|---|---|---|---|---|
| CPUScheduler.java:136-141 | Nothing checks the quantum read at CPUScheduler.java:183. With a quantum of 0 or less, `timeSlice` is never positive and the remaining time never drops. The process goes back on the queue forever and `simulateRoundRobin` never returns. This is exact for quantum 0. A negative quantum instead makes the remaining time grow until the Java `int` wraps, which the model does not capture | one process (pid 1, arrival 0, burst 3, priority 0) with quantum 0: the head is re-queued with remaining time 3 at every iteration | reject a quantum that is not positive before scheduling | not executed; the loop follows directly from the code | RoundRobinPolicy.NonPositiveQuantumNeverEnds | Scheduler.CPUScheduler.RoundRobin |
