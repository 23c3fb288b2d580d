/**
 * The circular doubly-linked list `todo_list` of ay-d19m.c and the loop
 * `list_for_each_safe(p, n, head)` that the release and cleanup paths use
 * to free its records.
 *
 * A list holding k records is a ring of k + 1 nodes: position 0 is the
 * list head `todo_list` itself (a static `struct list_head`, not an
 * allocated record) and positions 1..k are the records in queue order.
 * `next` of position p is Next(k, p).  The loop starts at the successor of
 * the node it is given and stops when it comes back to that node, so the
 * node it is given is the one it never visits.
 */
module KernelList {

  /** `->next` in a ring of k records. */
  function Next(k: nat, p: nat): (q: nat)
    requires p <= k
    ensures q <= k
  {
    if p == k then 0 else p + 1
  }

  /** How many `->next` steps lead from p to stop. */
  function Distance(k: nat, p: nat, stop: nat): nat
    requires p <= k && stop <= k
  {
    if p <= stop then stop - p else k + 1 - p + stop
  }

  /** The positions visited from p on until stop is reached, stop excluded. */
  function Around(k: nat, p: nat, stop: nat): seq<nat>
    requires p <= k && stop <= k
    decreases Distance(k, p, stop)
  {
    if p == stop then [] else [p] + Around(k, Next(k, p), stop)
  }

  /** `todo_list.next`: the first record, or the head itself when the list is empty. */
  function First(k: nat): nat
  {
    Next(k, 0)
  }

  /**
   * `list_for_each_safe(p, n, head)`: the positions whose records the loop
   * body unlinks and frees, in the order it reaches them.
   */
  method ForEachSafe(k: nat, head: nat) returns (visited: seq<nat>)
    requires head <= k
    ensures visited == Around(k, Next(k, head), head)
  {
    visited := [];
    var p: nat := Next(k, head);
    while p != head
      invariant p <= k
      invariant visited + Around(k, p, head) == Around(k, Next(k, head), head)
      decreases Distance(k, p, head)
    {
      visited := visited + [p];
      p := Next(k, p);
    }
  }

  /** Walking from p up to k and then reaching 0 visits p..k in order. */
  lemma {:induction false} AroundTail(k: nat, p: nat)
    requires 1 <= p <= k + 1
    ensures p <= k ==> Around(k, p, 0) == seq(k + 1 - p, i => p + i)
    decreases k + 1 - p
  {
    if p <= k {
      AroundTail(k, p + 1);
      if p < k {
        assert Around(k, p + 1, 0) == seq(k - p, i => p + 1 + i);
      }
    }
  }

  /**
   * The loop as the driver writes it, `list_for_each_safe(p, n,
   * todo_list.next)`: for a list with at least one record it stops at the
   * first record, which it therefore never frees, and on its way round it
   * reaches position 0, so it hands the static list head to `kfree`.
   */
  lemma DrainFromFirst(k: nat)
    requires k >= 1
    ensures 0 in Around(k, Next(k, First(k)), First(k))
    ensures First(k) !in Around(k, Next(k, First(k)), First(k))
    ensures |Around(k, Next(k, First(k)), First(k))| == k
  {
    if k == 1 {
      assert Around(1, 0, 1) == [0];
    } else {
      DrainFromFirstRound(k);
    }
  }

  lemma {:induction false} DrainFromFirstRound(k: nat)
    requires k >= 2
    ensures Around(k, 2, 1) == seq(k - 1, i => 2 + i) + [0]
  {
    AroundUpToEnd(k, 2, 1);
  }

  /** From p up to k, past 0, to the stop 1: p..k and then 0. */
  lemma {:induction false} AroundUpToEnd(k: nat, p: nat, stop: nat)
    requires stop == 1 && 2 <= p <= k + 1 && k >= 1
    ensures p <= k ==> Around(k, p, stop) == seq(k + 1 - p, i => p + i) + [0]
    decreases k + 1 - p
  {
    if p <= k {
      AroundUpToEnd(k, p + 1, stop);
      if p == k {
        assert Around(k, 0, 1) == [0];
      } else {
        assert Around(k, p + 1, stop) == seq(k - p, i => p + 1 + i) + [0];
      }
    }
  }

  /**
   * The loop given the list head, `list_for_each_safe(p, n, &todo_list)`:
   * it visits every record exactly once, in queue order, and never the head.
   */
  lemma DrainFromHead(k: nat)
    ensures Around(k, Next(k, 0), 0) == seq(k, i => i + 1)
    ensures 0 !in Around(k, Next(k, 0), 0)
  {
    if k >= 1 {
      AroundTail(k, 1);
      assert Around(k, 1, 0) == seq(k, i => 1 + i);
    }
  }
}
