/**
 * The sort every policy entry point performs first: the batch is reordered
 * by ascending arrival time with a stable sort (processes that arrive at the
 * same time keep their input order).
 */
module ArrivalSort {
  import opened ProcessRecord

  /** Puts `p` in front of the first process of `s` that arrives no earlier than `p`. */
  function Insert(p: Process, s: seq<Process>): (r: seq<Process>)
    ensures multiset(r) == multiset(s) + multiset{p}
    ensures r != [] && (r[0] == p || (s != [] && r[0] == s[0]))
  {
    if s == [] then
      [p]
    else if p.arrivalTime <= s[0].arrivalTime then
      [p] + s
    else
      var rest := Insert(p, s[1..]);
      assert s == [s[0]] + s[1..];
      [s[0]] + rest
  }

  lemma {:induction false} InsertKeepsDistinct(p: Process, s: seq<Process>)
    requires Distinct(s) && p !in s
    ensures Distinct(Insert(p, s))
  {
    if s != [] && p.arrivalTime > s[0].arrivalTime {
      assert s == [s[0]] + s[1..];
      InsertKeepsDistinct(p, s[1..]);
      var rest := Insert(p, s[1..]);
      assert s[0] !in multiset(rest);
      PrependKeepsDistinct(s[0], rest);
    } else if s != [] {
      PrependKeepsDistinct(p, s);
    }
  }

  lemma PrependKeepsDistinct(p: Process, s: seq<Process>)
    requires Distinct(s) && p !in s
    ensures Distinct([p] + s)
  {
    var r := [p] + s;
    forall i, j | 0 <= i < j < |r| ensures r[i] != r[j] {
      assert r[j] == s[j - 1];
      if i > 0 {
        assert r[i] == s[i - 1];
      }
    }
  }

  lemma {:induction false} InsertKeepsOrder(p: Process, s: seq<Process>)
    requires ArrivalOrdered(Jobs(s))
    ensures ArrivalOrdered(Jobs(Insert(p, s)))
  {
    if s == [] {
    } else if p.arrivalTime <= s[0].arrivalTime {
      FrontKeepsOrder(p, s);
    } else {
      var rest := Insert(p, s[1..]);
      assert Jobs(s[1..]) == Jobs(s)[1..];
      InsertKeepsOrder(p, s[1..]);
      if |s| > 1 {
        assert Jobs(s)[0].arrival <= Jobs(s)[1].arrival;
      }
      FrontKeepsOrder(s[0], rest);
    }
  }

  /** Prepending a process that arrives no later than the current head keeps the order. */
  lemma FrontKeepsOrder(p: Process, s: seq<Process>)
    requires ArrivalOrdered(Jobs(s))
    requires s != [] ==> p.arrivalTime <= s[0].arrivalTime
    ensures ArrivalOrdered(Jobs([p] + s))
  {
    var js := Jobs([p] + s);
    forall i, j | 0 <= i < j < |js| ensures js[i].arrival <= js[j].arrival {
      if i == 0 {
        assert js[j] == Jobs(s)[j - 1];
        if j > 1 {
          assert Jobs(s)[0].arrival <= Jobs(s)[j - 1].arrival;
        }
      } else {
        assert js[i] == Jobs(s)[i - 1] && js[j] == Jobs(s)[j - 1];
      }
    }
  }

  /** The batch sorted by arrival time, ties kept in input order. */
  function SortByArrival(ps: seq<Process>): (r: seq<Process>)
    ensures multiset(r) == multiset(ps)
    ensures |r| == |ps|
    ensures ArrivalOrdered(Jobs(r))
  {
    if ps == [] then
      []
    else
      assert ps == [ps[0]] + ps[1..];
      var tail := SortByArrival(ps[1..]);
      assert ps[0] in multiset(tail) <==> ps[0] in multiset(ps[1..]);
      InsertKeepsOrder(ps[0], tail);
      Insert(ps[0], tail)
  }

  /** Sorting reorders the batch without duplicating any process. */
  lemma {:induction false} SortKeepsDistinct(ps: seq<Process>)
    requires Distinct(ps)
    ensures Distinct(SortByArrival(ps))
  {
    if ps != [] {
      assert ps == [ps[0]] + ps[1..];
      SortKeepsDistinct(ps[1..]);
      var tail := SortByArrival(ps[1..]);
      assert ps[0] !in multiset(ps[1..]);
      InsertKeepsDistinct(ps[0], tail);
    }
  }

  /** A reordering of a batch as the input reader builds it is such a batch again, made of the same process objects. */
  lemma PermutationKeepsBatch(ps: seq<Process>, r: seq<Process>)
    requires WellFormed(ps) && FreshBatch(ps)
    requires multiset(r) == multiset(ps) && Distinct(r)
    ensures WellFormed(r) && FreshBatch(r)
    ensures forall i :: 0 <= i < |r| ==> r[i] in ps
  {
    forall i | 0 <= i < |r|
      ensures r[i] in ps
      ensures Jobs(r)[i].arrival >= 0 && Jobs(r)[i].burst > 0
      ensures r[i].remainingTime == r[i].burstTime && r[i].waitingTime == 0
      ensures r[i].turnaroundTime == 0 && r[i].responseTime == Unset
    {
      assert r[i] in multiset(r) && r[i] in multiset(ps);
      var k :| 0 <= k < |ps| && ps[k] == r[i];
      assert Jobs(ps)[k] == r[i].Input();
    }
  }

  /** The processes of `ps` that arrive at time `a`, in their order in `ps`. */
  function WithArrival(ps: seq<Process>, a: int): seq<Process>
  {
    if ps == [] then []
    else (if ps[0].arrivalTime == a then [ps[0]] else []) + WithArrival(ps[1..], a)
  }

  lemma {:induction false} WithArrivalAppend(s: seq<Process>, t: seq<Process>, a: int)
    ensures WithArrival(s + t, a) == WithArrival(s, a) + WithArrival(t, a)
  {
    if s == [] {
      assert s + t == t;
    } else {
      var head := if s[0].arrivalTime == a then [s[0]] else [];
      assert (s + t)[0] == s[0] && (s + t)[1..] == s[1..] + t;
      assert WithArrival(s + t, a) == head + WithArrival(s[1..] + t, a);
      WithArrivalAppend(s[1..], t, a);
      assert WithArrival(s, a) == head + WithArrival(s[1..], a);
    }
  }

  lemma WithArrivalOne(p: Process, a: int)
    ensures WithArrival([p], a) == if p.arrivalTime == a then [p] else []
  {
    assert [p][1..] == [];
  }

  /** Inserting `p` into a sequence puts it in front of every process arriving with it. */
  lemma {:induction false} InsertIsStable(p: Process, s: seq<Process>, a: int)
    ensures WithArrival(Insert(p, s), a) == WithArrival([p] + s, a)
  {
    if s != [] && p.arrivalTime > s[0].arrivalTime {
      var s' := s[1..];
      InsertIsStable(p, s', a);
      InsertPast(p, s, a);
      WithArrivalAppend([p], s', a);
      WithArrivalAppend([p], s, a);
      SplitHead(s, a);
      WithArrivalOne(s[0], a);
      WithArrivalOne(p, a);
      Swap(WithArrival([s[0]], a), WithArrival([p], a), WithArrival(s', a));
    }
  }

  lemma InsertPast(p: Process, s: seq<Process>, a: int)
    requires s != [] && p.arrivalTime > s[0].arrivalTime
    ensures WithArrival(Insert(p, s), a) == WithArrival([s[0]], a) + WithArrival(Insert(p, s[1..]), a)
  {
    WithArrivalAppend([s[0]], Insert(p, s[1..]), a);
  }

  lemma SplitHead(s: seq<Process>, a: int)
    requires s != []
    ensures WithArrival(s, a) == WithArrival([s[0]], a) + WithArrival(s[1..], a)
  {
    assert s == [s[0]] + s[1..];
    WithArrivalAppend([s[0]], s[1..], a);
  }

  lemma Swap<T>(x: seq<T>, y: seq<T>, z: seq<T>)
    requires x == [] || y == []
    ensures x + (y + z) == y + (x + z)
  {
    if x == [] {
      assert x + (y + z) == y + z;
      assert x + z == z;
    } else {
      assert y + (x + z) == x + z;
      assert y + z == z;
    }
  }

  /** The sort is stable: for every arrival time, the processes arriving then keep their relative order. */
  lemma {:induction false} SortIsStable(ps: seq<Process>, a: int)
    ensures WithArrival(SortByArrival(ps), a) == WithArrival(ps, a)
  {
    if ps != [] {
      SortIsStable(ps[1..], a);
      InsertIsStable(ps[0], SortByArrival(ps[1..]), a);
      WithArrivalAppend([ps[0]], SortByArrival(ps[1..]), a);
      WithArrivalAppend([ps[0]], ps[1..], a);
      assert ps == [ps[0]] + ps[1..];
    }
  }
}
