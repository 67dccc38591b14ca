/**
 * The total emissions of a record list: the left fold the canister runs
 * (each record's emissions added to a running sum seeded at 0), and the sum it is
 * meant to compute, with the facts the pipeline relies on.
 */
module Totals {
  import opened Records

  /** The reference total: the emissions of the first record plus the total of the rest. */
  function TotalOf(rs: seq<EmissionRecord>): nat
  {
    if rs == [] then 0 else rs[0].emissions + TotalOf(rs[1..])
  }

  /** The canister's fold over a record list: starting from the accumulator,
      add each record's emissions in list order. */
  function Reduce(rs: seq<EmissionRecord>, acc: nat): nat
  {
    if rs == [] then acc else Reduce(rs[1..], acc + rs[0].emissions)
  }

  /** The fold adds exactly the reference total to its seed. */
  lemma {:induction false} ReduceIsTotal(rs: seq<EmissionRecord>, acc: nat)
    ensures Reduce(rs, acc) == acc + TotalOf(rs)
  {
    if rs != [] {
      ReduceIsTotal(rs[1..], acc + rs[0].emissions);
    }
  }

  /** The total of two lists placed end to end is the sum of their totals. */
  lemma {:induction false} TotalConcat(a: seq<EmissionRecord>, b: seq<EmissionRecord>)
    ensures TotalOf(a + b) == TotalOf(a) + TotalOf(b)
  {
    if a != [] {
      assert (a + b)[1..] == a[1..] + b;
      TotalConcat(a[1..], b);
    } else {
      assert a + b == b;
    }
  }

  /** Appending one record raises the total by exactly that record's emissions. */
  lemma TotalAppend(rs: seq<EmissionRecord>, r: EmissionRecord)
    ensures TotalOf(rs + [r]) == TotalOf(rs) + r.emissions
  {
    TotalConcat(rs, [r]);
  }

  /** Taking the record at index j out of a list takes its emissions out of
      the total and that one record out of the list's multiset. */
  lemma {:induction false} RemoveAt(b: seq<EmissionRecord>, j: nat)
    requires j < |b|
    ensures TotalOf(b[..j] + b[j + 1..]) + b[j].emissions == TotalOf(b)
    ensures multiset(b[..j] + b[j + 1..]) == multiset(b) - multiset{b[j]}
  {
    assert b == b[..j] + [b[j]] + b[j + 1..];
    assert multiset(b) == multiset(b[..j]) + multiset{b[j]} + multiset(b[j + 1..]);
    TotalConcat(b[..j] + [b[j]], b[j + 1..]);
    TotalConcat(b[..j], [b[j]]);
    TotalConcat(b[..j], b[j + 1..]);
  }

  /** The total does not depend on the order of the records: two lists that
      hold the same records, each as often, have the same total. */
  lemma {:induction false} TotalPermutation(a: seq<EmissionRecord>, b: seq<EmissionRecord>)
    requires multiset(a) == multiset(b)
    ensures TotalOf(a) == TotalOf(b)
    decreases |a|
  {
    if a == [] {
      assert |b| == |multiset(b)| == 0;
    } else {
      var x := a[0];
      assert x in multiset(b);
      var j :| 0 <= j < |b| && b[j] == x;
      RemoveAt(b, j);
      assert a == [x] + a[1..];
      assert multiset(a[1..]) == multiset(a) - multiset{x};
      TotalPermutation(a[1..], b[..j] + b[j + 1..]);
    }
  }
}
