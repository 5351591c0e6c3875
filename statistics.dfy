/**
 * The statistics a run ends with: the totals of the waiting, response and
 * turnaround times over the whole batch, and the number of processes they
 * are averaged over.
 */
module Statistics {
  import opened ProcessRecord

  datatype Field = Remaining | Waiting | Response | Turnaround

  function Get(o: Out, f: Field): int
  {
    match f
    case Remaining => o.remaining
    case Waiting => o.waiting
    case Response => o.response
    case Turnaround => o.turnaround
  }

  /** The sum of field `f` over `outs`. */
  function Total(outs: seq<Out>, f: Field): int
  {
    if outs == [] then 0 else Total(outs[..|outs| - 1], f) + Get(outs[|outs| - 1], f)
  }

  /** The sum of the burst times of a batch. */
  function TotalBurst(jobs: seq<Job>): int
  {
    if jobs == [] then 0 else TotalBurst(jobs[..|jobs| - 1]) + jobs[|jobs| - 1].burst
  }

  datatype Totals = Totals(count: nat, waiting: int, response: int, turnaround: int)

  /** What the statistics step sums up for a batch whose outputs are `outs`. */
  function Summary(outs: seq<Out>): Totals
  {
    Totals(|outs|, Total(outs, Waiting), Total(outs, Response), Total(outs, Turnaround))
  }

  /** When every process has `f` equal to `g` plus its burst time, the totals differ by the total burst. */
  lemma {:induction false} TotalPlusBurst(outs: seq<Out>, jobs: seq<Job>, f: Field, g: Field)
    requires |outs| == |jobs|
    requires forall i :: 0 <= i < |outs| ==> Get(outs[i], f) == Get(outs[i], g) + jobs[i].burst
    ensures Total(outs, f) == Total(outs, g) + TotalBurst(jobs)
  {
    if outs != [] {
      var n := |outs| - 1;
      TotalPlusBurst(outs[..n], jobs[..n], f, g);
    }
  }

  /** When every process has `f` at least `g` plus its burst time, the totals differ by at least the total burst. */
  lemma {:induction false} TotalAtLeastPlusBurst(outs: seq<Out>, jobs: seq<Job>, f: Field, g: Field)
    requires |outs| == |jobs|
    requires forall i :: 0 <= i < |outs| ==> Get(outs[i], f) >= Get(outs[i], g) + jobs[i].burst
    ensures Total(outs, f) >= Total(outs, g) + TotalBurst(jobs)
  {
    if outs != [] {
      var n := |outs| - 1;
      TotalAtLeastPlusBurst(outs[..n], jobs[..n], f, g);
    }
  }

  /** When every process has the same value in `f` and `g`, so do the totals. */
  lemma {:induction false} TotalsAgree(outs: seq<Out>, f: Field, g: Field)
    requires forall i :: 0 <= i < |outs| ==> Get(outs[i], f) == Get(outs[i], g)
    ensures Total(outs, f) == Total(outs, g)
  {
    if outs != [] {
      TotalsAgree(outs[..|outs| - 1], f, g);
    }
  }

  /** When no process has a non-zero `f`, the total is zero. */
  lemma {:induction false} TotalOfZeros(outs: seq<Out>, f: Field)
    requires forall i :: 0 <= i < |outs| ==> Get(outs[i], f) == 0
    ensures Total(outs, f) == 0
  {
    if outs != [] {
      TotalOfZeros(outs[..|outs| - 1], f);
    }
  }

  /** Changing one process's outputs changes each total by the difference at that process. */
  lemma {:induction false} TotalAfterUpdate(outs: seq<Out>, i: nat, o: Out, f: Field)
    requires i < |outs|
    ensures Total(outs[i := o], f) == Total(outs, f) - Get(outs[i], f) + Get(o, f)
  {
    var n := |outs| - 1;
    if i < n {
      assert outs[i := o][..n] == outs[..n][i := o];
      TotalAfterUpdate(outs[..n], i, o, f);
    } else {
      assert outs[i := o][..n] == outs[..n];
    }
  }

  /** A total of values that are never negative is not negative. */
  lemma {:induction false} TotalOfNonNegative(outs: seq<Out>, f: Field)
    requires forall i :: 0 <= i < |outs| ==> Get(outs[i], f) >= 0
    ensures Total(outs, f) >= 0
  {
    if outs != [] {
      TotalOfNonNegative(outs[..|outs| - 1], f);
    }
  }
}
