/**
  The delay queue's heap (simulator/delayqueue.go): a slice kept as a binary min-heap by
  container/heap's up and down, refining a multiset that is drained in due order.
 */
module DelayHeap {
  datatype Item = Item(fireAt: int, msg: int)

  function Parent(j: nat): nat
    requires j > 0
  {
    (j - 1) / 2
  }

  /** Every item is due no earlier than its parent. */
  predicate IsHeap(h: seq<Item>) {
    forall j | 0 < j < |h| :: h[Parent(j)].fireAt <= h[j].fireAt
  }

  predicate Sorted(s: seq<Item>) {
    forall i, j | 0 <= i < j < |s| :: s[i].fireAt <= s[j].fireAt
  }

  function Swap(h: seq<Item>, i: nat, j: nat): (r: seq<Item>)
    requires i < |h| && j < |h|
    ensures |r| == |h| && multiset(r) == multiset(h)
  {
    h[i := h[j]][j := h[i]]
  }

  /** The root of a heap is the earliest. */
  lemma {:induction false} RootIsEarliest(h: seq<Item>, j: nat)
    requires IsHeap(h) && j < |h|
    ensures h[0].fireAt <= h[j].fireAt
    decreases j
  {
    if j > 0 {
      RootIsEarliest(h, Parent(j));
    }
  }

  /** Heap everywhere except possibly between `k` and its parent, with `k`'s children below that parent. */
  predicate HeapBut(h: seq<Item>, k: nat) {
    && (forall j | 0 < j < |h| && j != k :: h[Parent(j)].fireAt <= h[j].fireAt)
    && (forall j | 0 < j < |h| && Parent(j) == k && k > 0 :: h[Parent(k)].fireAt <= h[j].fireAt)
  }

  /** Heap except possibly between `k` and its children, whose items are below `k`'s parent. */
  predicate HeapBelow(h: seq<Item>, n: nat, k: nat)
    requires n <= |h|
  {
    && (forall j | 0 < j < n && Parent(j) != k :: h[Parent(j)].fireAt <= h[j].fireAt)
    && (forall j | 0 < j < n && Parent(j) == k && k > 0 :: h[Parent(k)].fireAt <= h[j].fireAt)
  }

  lemma {:induction false} UpStep(h: seq<Item>, j: nat)
    requires 0 < j < |h| && HeapBut(h, j) && h[j].fireAt < h[Parent(j)].fireAt
    ensures HeapBut(Swap(h, Parent(j), j), Parent(j))
  {
    var i := Parent(j);
    var g := Swap(h, i, j);
    forall k | 0 < k < |g| && k != i
      ensures g[Parent(k)].fireAt <= g[k].fireAt
    {
      if k != j && Parent(k) == i {
        assert h[i].fireAt <= h[k].fireAt;
      } else if Parent(k) == j {
        assert k != j;
      }
    }
    forall k | 0 < k < |g| && Parent(k) == i && i > 0
      ensures g[Parent(i)].fireAt <= g[k].fireAt
    {
      assert h[Parent(i)].fireAt <= h[i].fireAt;
      if k != j {
        assert h[i].fireAt <= h[k].fireAt;
      }
    }
  }

  /** heap.up */
  method SiftUp(h0: seq<Item>, k: nat) returns (h: seq<Item>)
    requires k < |h0| && HeapBut(h0, k)
    ensures IsHeap(h) && multiset(h) == multiset(h0) && |h| == |h0|
  {
    h := h0;
    var j: nat := k;
    while j > 0 && h[j].fireAt < h[Parent(j)].fireAt
      invariant j < |h| == |h0|
      invariant HeapBut(h, j)
      invariant multiset(h) == multiset(h0)
      decreases j
    {
      UpStep(h, j);
      h := Swap(h, Parent(j), j);
      j := Parent(j);
    }
  }

  /** The child that heap.down considers: the earlier of the two. */
  function EarlierChild(h: seq<Item>, n: nat, i: nat): (c: nat)
    requires 2 * i + 1 < n <= |h|
    ensures i < c < n && Parent(c) == i
    ensures forall j | 0 < j < n && Parent(j) == i :: h[c].fireAt <= h[j].fireAt
  {
    var left := 2 * i + 1;
    assert forall j | 0 < j < n && Parent(j) == i :: j == left || j == left + 1;
    if left + 1 < n && h[left + 1].fireAt < h[left].fireAt then left + 1 else left
  }

  lemma {:induction false} DownStep(h: seq<Item>, n: nat, i: nat)
    requires 2 * i + 1 < n <= |h| && HeapBelow(h, n, i)
    requires h[EarlierChild(h, n, i)].fireAt < h[i].fireAt
    ensures HeapBelow(Swap(h, i, EarlierChild(h, n, i)), n, EarlierChild(h, n, i))
  {
    var c := EarlierChild(h, n, i);
    var g := Swap(h, i, c);
    forall j | 0 < j < n && Parent(j) != c
      ensures g[Parent(j)].fireAt <= g[j].fireAt
    {
      if Parent(j) == i {
        assert h[c].fireAt <= h[j].fireAt;
      } else if j == i {
        assert Parent(c) == i;
      }
    }
    forall j | 0 < j < n && Parent(j) == c
      ensures g[Parent(c)].fireAt <= g[j].fireAt
    {
      assert Parent(j) != i;
    }
  }

  lemma {:induction false} DownDone(h: seq<Item>, n: nat, i: nat)
    requires n <= |h| && HeapBelow(h, n, i)
    requires 2 * i + 1 < n ==> !(h[EarlierChild(h, n, i)].fireAt < h[i].fireAt)
    ensures IsHeap(h[..n])
  {
  }

  /** heap.down on the first n items */
  method SiftDown(h0: seq<Item>, n: nat) returns (h: seq<Item>)
    requires n <= |h0| && HeapBelow(h0, n, 0)
    ensures |h| == |h0| && IsHeap(h[..n]) && h[n..] == h0[n..] && multiset(h[..n]) == multiset(h0[..n])
  {
    h := h0;
    var i: nat := 0;
    while 2 * i + 1 < n && h[EarlierChild(h, n, i)].fireAt < h[i].fireAt
      invariant |h| == |h0|
      invariant HeapBelow(h, n, i)
      invariant h[n..] == h0[n..]
      invariant multiset(h[..n]) == multiset(h0[..n])
      decreases n - i
    {
      var child := EarlierChild(h, n, i);
      DownStep(h, n, i);
      assert Swap(h, i, child)[..n] == Swap(h[..n], i, child);
      h := Swap(h, i, child);
      i := child;
    }
    DownDone(h, n, i);
  }

  class DelayQueue {
    var h: seq<Item>

    constructor ()
      ensures h == []
    {
      h := [];
    }

    /** heap.Push */
    method Push(d: Item)
      requires IsHeap(h)
      modifies this
      ensures IsHeap(h) && multiset(h) == old(multiset(h)) + multiset{d}
    {
      h := SiftUp(h + [d], |h|);
    }

    /** heap.Pop: the earliest item leaves. */
    method Pop() returns (d: Item)
      requires IsHeap(h) && h != []
      modifies this
      ensures IsHeap(h) && |h| == old(|h|) - 1
      ensures d == old(h[0]) && multiset(h) + multiset{d} == old(multiset(h))
    {
      ghost var was := h;
      var n := |h| - 1;
      var swapped := Swap(h, 0, n);
      assert swapped[..n] + [was[0]] == swapped;
      var s := SiftDown(swapped, n);
      assert s[n] == s[n..][0] == swapped[n..][0] == was[0];
      d := s[n];
      h := s[..n];
    }

    method NextDeadline() returns (deadline: int, ok: bool)
      requires IsHeap(h)
      ensures ok <==> h != []
      ensures ok ==> (exists d | d in h :: d.fireAt == deadline) && forall d | d in h :: deadline <= d.fireAt
    {
      if |h| == 0 {
        return 0, false;
      }
      forall j | 0 <= j < |h|
        ensures h[0].fireAt <= h[j].fireAt
      {
        RootIsEarliest(h, j);
      }
      assert h[0] in h;
      return h[0].fireAt, true;
    }

    /** Exactly the due items leave, earliest first; nothing is lost, invented or left behind. */
    method PopDue(now: int) returns (due: seq<Item>)
      requires IsHeap(h)
      modifies this
      ensures IsHeap(h) && Sorted(due)
      ensures multiset(due) + multiset(h) == old(multiset(h))
      ensures forall d | d in due :: d.fireAt <= now
      ensures forall d | d in h :: now < d.fireAt
    {
      due := [];
      while |h| > 0 && h[0].fireAt <= now
        invariant IsHeap(h) && Sorted(due)
        invariant multiset(due) + multiset(h) == old(multiset(h))
        invariant forall d | d in due :: d.fireAt <= now
        invariant forall d, x | d in due && x in h :: d.fireAt <= x.fireAt
        decreases |h|
      {
        ghost var was := h;
        EarliestFirst(h);
        var d := Pop();
        SubsetOf(h, was, d);
        due := due + [d];
      }
      EarliestFirst(h);
    }
  }

  lemma {:induction false} EarliestFirst(h: seq<Item>)
    requires IsHeap(h)
    ensures forall d | d in h :: h[0].fireAt <= d.fireAt
  {
    forall d | d in h
      ensures h[0].fireAt <= d.fireAt
    {
      var j :| 0 <= j < |h| && h[j] == d;
      RootIsEarliest(h, j);
    }
  }

  lemma {:induction false} SubsetOf(h: seq<Item>, was: seq<Item>, d: Item)
    requires multiset(h) + multiset{d} == multiset(was)
    ensures forall x | x in h :: x in was
    ensures d in was
  {
    assert d in multiset(was);
    forall x | x in h
      ensures x in was
    {
      assert x in multiset(h);
      assert x in multiset(was);
    }
  }

  // ---------------------------------------------------------------------------------------
  // Any sequence of operations refines a multiset drained by due time
  // ---------------------------------------------------------------------------------------

  datatype Op = PushOp(d: Item) | PopDueOp(now: int)

  function PushedBy(op: Op): multiset<Item> {
    if op.PushOp? then multiset{op.d} else multiset{}
  }

  function Pushed(ops: seq<Op>): multiset<Item> {
    if ops == [] then multiset{} else Pushed(ops[..|ops| - 1]) + PushedBy(ops[|ops| - 1])
  }

  function HandedOut(answers: seq<seq<Item>>): multiset<Item> {
    if answers == [] then multiset{}
    else HandedOut(answers[..|answers| - 1]) + multiset(answers[|answers| - 1])
  }

  /** How many copies of `d` are pending after the operations: the queue as a plain multiset. */
  function Pending(ops: seq<Op>, d: Item): nat {
    if ops == [] then 0
    else
      var before := Pending(ops[..|ops| - 1], d);
      match ops[|ops| - 1]
      case PushOp(x) => if x == d then before + 1 else before
      case PopDueOp(now) => if d.fireAt <= now then 0 else before
  }

  /** How many copies of `d` operation `i` has to hand out: all pending ones if they are due then. */
  function DueAt(ops: seq<Op>, i: nat, d: Item): nat
    requires i < |ops|
  {
    if ops[i].PopDueOp? && d.fireAt <= ops[i].now then Pending(ops[..i], d) else 0
  }

  ghost predicate Exactly(due: seq<Item>, ops: seq<Op>, i: nat)
    requires i < |ops|
  {
    forall d :: multiset(due)[d] == DueAt(ops, i, d)
  }

  ghost predicate Holds(h: seq<Item>, ops: seq<Op>) {
    forall d :: multiset(h)[d] == Pending(ops, d)
  }

  /** One operation on a queue that holds what is pending, and what it hands out. */
  method Serve(q: DelayQueue, ops: seq<Op>, i: nat) returns (due: seq<Item>)
    requires i < |ops| && IsHeap(q.h) && Holds(q.h, ops[..i])
    modifies q
    ensures IsHeap(q.h) && Sorted(due)
    ensures Exactly(due, ops, i)
    ensures Holds(q.h, ops[..i + 1])
  {
    ghost var before := multiset(q.h);
    assert ops[..i + 1][..i] == ops[..i];
    match ops[i]
    case PushOp(x) =>
      q.Push(x);
      due := [];
    case PopDueOp(now) =>
      due := q.PopDue(now);
      forall d
        ensures multiset(due)[d] == DueAt(ops, i, d) && multiset(q.h)[d] == Pending(ops[..i + 1], d)
      {
        DrainIsExact(before, multiset(due), multiset(q.h), now, d);
      }
  }

  /**
    Any client of the queue: over any operations, each drain hands out exactly the items pending
    and due at that moment, earliest first, and what was pushed is what was handed out plus what
    is pending.
   */
  method Drive(q: DelayQueue, ops: seq<Op>) returns (answers: seq<seq<Item>>)
    requires q.h == []
    modifies q
    ensures IsHeap(q.h) && |answers| == |ops|
    ensures forall i | 0 <= i < |answers| :: Sorted(answers[i]) && Exactly(answers[i], ops, i)
    ensures Holds(q.h, ops)
    ensures Pushed(ops) == HandedOut(answers) + multiset(q.h)
  {
    answers := [];
    for i := 0 to |ops|
      invariant IsHeap(q.h) && |answers| == i && Holds(q.h, ops[..i])
      invariant forall k | 0 <= k < |answers| :: Sorted(answers[k]) && Exactly(answers[k], ops, k)
    {
      var due := Serve(q, ops, i);
      answers := answers + [due];
    }
    assert ops[..|ops|] == ops;
    NothingIsLost(ops, answers, q.h);
  }

  /** Conservation follows from the drains being exact. */
  lemma {:induction false} NothingIsLost(ops: seq<Op>, answers: seq<seq<Item>>, h: seq<Item>)
    requires |answers| == |ops| && Holds(h, ops)
    requires forall i | 0 <= i < |ops| :: Exactly(answers[i], ops, i)
    ensures Pushed(ops) == HandedOut(answers) + multiset(h)
  {
    forall d: Item
      ensures Pushed(ops)[d] == (HandedOut(answers) + multiset(h))[d]
    {
      PushedIsTakenOrPending(ops, d);
      HandedOutIsTaken(ops, answers, |ops|, d);
      assert ops[..|ops|] == ops && answers[..|ops|] == answers;
    }
  }

  /** How many copies of `d` the operations hand out in all. */
  function TakenOut(ops: seq<Op>, d: Item): nat {
    if ops == [] then 0 else TakenOut(ops[..|ops| - 1], d) + DueAt(ops, |ops| - 1, d)
  }

  lemma {:induction false} PushedIsTakenOrPending(ops: seq<Op>, d: Item)
    ensures Pushed(ops)[d] == TakenOut(ops, d) + Pending(ops, d)
  {
    if ops != [] {
      PushedIsTakenOrPending(ops[..|ops| - 1], d);
    }
  }

  lemma {:induction false} HandedOutIsTaken(ops: seq<Op>, answers: seq<seq<Item>>, i: nat, d: Item)
    requires i <= |ops| == |answers|
    requires forall k | 0 <= k < |ops| :: Exactly(answers[k], ops, k)
    ensures HandedOut(answers[..i])[d] == TakenOut(ops[..i], d)
  {
    if i > 0 {
      var n := i - 1;
      HandedOutIsTaken(ops, answers, n, d);
      assert answers[..i][..n] == answers[..n] && ops[..i][..n] == ops[..n];
      DueBefore(ops, i, n, d);
      assert Exactly(answers[n], ops, n);
    }
  }

  lemma {:induction false} DueBefore(ops: seq<Op>, n: nat, i: nat, d: Item)
    requires i < n <= |ops|
    ensures DueAt(ops[..n], i, d) == DueAt(ops, i, d)
  {
    assert ops[..n][..i] == ops[..i];
  }

  /** A drain takes every copy of every due item and no copy of any other. */
  lemma {:induction false} DrainIsExact(
    before: multiset<Item>, due: multiset<Item>, rest: multiset<Item>, now: int, d: Item)
    requires due + rest == before
    requires forall x | x in due :: x.fireAt <= now
    requires forall x | x in rest :: now < x.fireAt
    ensures due[d] == (if d.fireAt <= now then before[d] else 0)
    ensures rest[d] == (if d.fireAt <= now then 0 else before[d])
  {
  }
}
