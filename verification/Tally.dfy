/** Sums over the threads of a system. */
module Tally {
  function Total<T(!new)>(threads: seq<T>, weight: T -> nat): nat {
    if threads == [] then 0
    else Total(threads[..|threads| - 1], weight) + weight(threads[|threads| - 1])
  }

  /** A step of one thread changes the sum by what it changes for that thread. */
  lemma {:induction false} TotalUpdate<T(!new)>(threads: seq<T>, k: nat, t: T, weight: T -> nat)
    requires k < |threads|
    ensures Total(threads[k := t], weight) + weight(threads[k]) == Total(threads, weight) + weight(t)
    decreases |threads|
  {
    var last := |threads| - 1;
    if k == last {
      assert threads[k := t][..last] == threads[..last];
    } else {
      TotalUpdate(threads[..last], k, t, weight);
      assert threads[k := t][..last] == threads[..last][k := t];
    }
  }

  /** Threads without weight add up to nothing. */
  lemma {:induction false} NoTotal<T(!new)>(threads: seq<T>, weight: T -> nat)
    requires forall k :: 0 <= k < |threads| ==> weight(threads[k]) == 0
    ensures Total(threads, weight) == 0
  {
    if threads != [] {
      NoTotal(threads[..|threads| - 1], weight);
    }
  }
}
