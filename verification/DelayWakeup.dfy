/**
  The wake/timer protocol of the delay queue (simulator/delayqueue.go): pushers insert under the
  mutex and then signal a one-slot channel without blocking; one worker peeks, arms its timer,
  parks, and drains. Steps of pushers and worker interleave at will.
 */
module DelayWakeup {
  import opened Events
  import opened DelayHeap

  /** Where the worker stands. */
  datatype Pc =
    | Top
    | Arming(deadline: Option<int>)
    | Parked
    | Draining
    | Writing(left: seq<Item>)
    | Stopped

  datatype Stamped = Stamped(d: Item, at: int)

  /**
    `heap` holds the pending items, `wake` is the buffered token, `timer` the armed deadline,
    `signalling` the pushers that inserted and have not yet signalled. `pushed` is the history
    of all inserted items.
   */
  datatype Queue = Queue(
    heap: multiset<Item>, wake: bool, timer: Option<int>, pc: Pc, signalling: nat,
    now: int, written: seq<Stamped>, pushed: multiset<Item>)

  datatype Action =
    | Insert(d: Item)
    | Signal
    | Peek
    | Arm
    | TakeWake
    | TimerFires
    | Drain(due: seq<Item>)
    | WriteOne
    | Cancel
    | Pass(ns: nat)

  function Init(now: int): Queue {
    Queue(multiset{}, false, None, Top, 0, now, [], multiset{})
  }

  /** `deadline` is the earliest fireAt, or None when nothing is pending: what nextDeadline returns. */
  ghost predicate Earliest(heap: multiset<Item>, deadline: Option<int>) {
    match deadline
    case None => heap == multiset{}
    case Some(t) => (exists d | d in heap :: d.fireAt == t) && forall d | d in heap :: t <= d.fireAt
  }

  /** What popDue(now) hands out: the due items, earliest first, and nothing else. */
  ghost predicate IsDrain(heap: multiset<Item>, now: int, due: seq<Item>) {
    && Sorted(due)
    && multiset(due) <= heap
    && (forall d | d in due :: d.fireAt <= now)
    && (forall d | d in heap - multiset(due) :: now < d.fireAt)
  }

  ghost predicate Step(q: Queue, a: Action, r: Queue) {
    match a
    case Insert(d) => r == q.(heap := q.heap + multiset{d}, signalling := q.signalling + 1,
        pushed := q.pushed + multiset{d})
    case Signal => q.signalling > 0 && r == q.(signalling := q.signalling - 1, wake := true)
    case Peek => q.pc.Top? && r.pc.Arming? && Earliest(q.heap, r.pc.deadline) && r == q.(pc := r.pc)
    case Arm => q.pc.Arming? && r == q.(pc := Parked, timer := q.pc.deadline)
    case TakeWake => q.pc.Parked? && q.wake && r == q.(pc := Top, wake := false)
    case TimerFires => q.pc.Parked? && q.timer.Some? && q.timer.value <= q.now && r == q.(pc := Draining, timer := None)
    case Drain(due) =>
      q.pc.Draining? && IsDrain(q.heap, q.now, due) && r == q.(pc := Writing(due), heap := q.heap - multiset(due))
    case WriteOne =>
      && q.pc.Writing?
      && r == if q.pc.left == [] then q.(pc := Top)
              else q.(pc := Writing(q.pc.left[1..]), written := q.written + [Stamped(q.pc.left[0], q.now)])
    case Cancel => q.pc.Parked? && r == q.(pc := Stopped)
    case Pass(ns) => r == q.(now := q.now + ns)
  }

  /** A run: consecutive states are joined by steps. */
  ghost predicate IsRun(start: int, states: seq<Queue>, actions: seq<Action>) {
    && |states| == |actions| + 1
    && states[0] == Init(start)
    && forall i | 0 <= i < |actions| :: Step(states[i], actions[i], states[i + 1])
  }

  /** Something will make the worker look again. */
  predicate WakeupPending(q: Queue) {
    q.wake || q.signalling > 0
  }

  ghost predicate NoLostWakeup(q: Queue) {
    && (q.pc.Parked? ==> Earliest(q.heap, q.timer) || WakeupPending(q))
    && (q.pc.Arming? ==> Earliest(q.heap, q.pc.deadline) || WakeupPending(q))
  }

  function WrittenItems(written: seq<Stamped>): multiset<Item> {
    if written == [] then multiset{} else WrittenItems(written[..|written| - 1]) + multiset{written[|written| - 1].d}
  }

  function InHand(q: Queue): multiset<Item> {
    if q.pc.Writing? then multiset(q.pc.left) else multiset{}
  }

  ghost predicate NothingLost(q: Queue) {
    forall d: Item :: q.pushed[d] == q.heap[d] + InHand(q)[d] + WrittenItems(q.written)[d]
  }

  ghost predicate NothingEarly(q: Queue) {
    && (forall w | w in q.written :: w.d.fireAt <= w.at <= q.now)
    && (q.pc.Writing? ==> forall d | d in q.pc.left :: d.fireAt <= q.now)
  }

  ghost predicate Inv(q: Queue) {
    NoLostWakeup(q) && NothingLost(q) && NothingEarly(q)
  }

  lemma {:induction false} StepKeepsWakeup(q: Queue, a: Action, r: Queue)
    requires NoLostWakeup(q) && Step(q, a, r)
    ensures NoLostWakeup(r)
  {
  }

  lemma {:induction false} StepKeepsEarly(q: Queue, a: Action, r: Queue)
    requires NothingEarly(q) && Step(q, a, r)
    ensures NothingEarly(r)
  {
  }

  lemma {:induction false} StepKeepsItems(q: Queue, a: Action, r: Queue)
    requires NothingLost(q) && Step(q, a, r)
    ensures NothingLost(r)
  {
    forall d: Item
      ensures r.pushed[d] == r.heap[d] + InHand(r)[d] + WrittenItems(r.written)[d]
    {
      StepKeepsItem(q, a, r, d);
    }
  }

  lemma {:induction false} StepKeepsItem(q: Queue, a: Action, r: Queue, d: Item)
    requires q.pushed[d] == q.heap[d] + InHand(q)[d] + WrittenItems(q.written)[d]
    requires Step(q, a, r)
    ensures r.pushed[d] == r.heap[d] + InHand(r)[d] + WrittenItems(r.written)[d]
  {
    if a.WriteOne? && q.pc.left != [] {
      WriteMovesOne(q.pc.left, q.written, q.now, d);
    }
  }

  lemma {:induction false} WriteMovesOne(left: seq<Item>, written: seq<Stamped>, now: int, d: Item)
    requires left != []
    ensures multiset(left)[d] + WrittenItems(written)[d]
            == multiset(left[1..])[d] + WrittenItems(written + [Stamped(left[0], now)])[d]
  {
    assert left == [left[0]] + left[1..];
    assert (written + [Stamped(left[0], now)])[..|written|] == written;
  }

  lemma {:induction false} RunKeepsInv(start: int, states: seq<Queue>, actions: seq<Action>, k: nat)
    requires IsRun(start, states, actions) && k < |states|
    ensures Inv(states[k])
  {
    if k > 0 {
      RunKeepsInv(start, states, actions, k - 1);
      assert Step(states[k - 1], actions[k - 1], states[k]);
      StepKeepsWakeup(states[k - 1], actions[k - 1], states[k]);
      StepKeepsEarly(states[k - 1], actions[k - 1], states[k]);
      StepKeepsItems(states[k - 1], actions[k - 1], states[k]);
    }
  }

  /**
    No lost wakeup, over every interleaving: when the worker is parked with items pending, its
    timer is armed at the earliest of them, or a token is buffered, or a pusher is about to send
    one. Hence a parked worker with a due item can always be moved.
   */
  lemma {:induction false} ParkedWorkerWillWake(start: int, states: seq<Queue>, actions: seq<Action>, k: nat)
    requires IsRun(start, states, actions) && k < |states| && states[k].pc.Parked? && states[k].heap != multiset{}
    ensures var q := states[k];
            || (q.timer.Some? && Earliest(q.heap, q.timer))
            || q.wake
            || q.signalling > 0
    ensures var q := states[k];
            (exists d | d in q.heap :: d.fireAt <= q.now) ==>
              exists a: Action, r: Queue :: (a.TimerFires? || a.TakeWake? || a.Signal?) && Step(q, a, r)
  {
    RunKeepsInv(start, states, actions, k);
    var q := states[k];
    if d :| d in q.heap && d.fireAt <= q.now {
      if q.wake {
        assert Step(q, TakeWake, q.(pc := Top, wake := false));
      } else if q.signalling > 0 {
        assert Step(q, Signal, q.(signalling := q.signalling - 1, wake := true));
      } else {
        assert Step(q, TimerFires, q.(pc := Draining, timer := None));
      }
    }
  }

  /** No item is written early, and none more often than it was pushed. */
  lemma {:induction false} NeverEarlyNeverTwice(start: int, states: seq<Queue>, actions: seq<Action>, k: nat, d: Item)
    requires IsRun(start, states, actions) && k < |states|
    ensures forall w | w in states[k].written :: w.d.fireAt <= w.at
    ensures WrittenItems(states[k].written)[d] <= states[k].pushed[d]
    ensures states[k].pc.Parked? ==> states[k].pushed[d] == states[k].heap[d] + WrittenItems(states[k].written)[d]
  {
    RunKeepsInv(start, states, actions, k);
    var q := states[k];
    assert q.pushed[d] == q.heap[d] + InHand(q)[d] + WrittenItems(q.written)[d];
  }

  // ---------------------------------------------------------------------------------------
  // The heap of the queue object takes the protocol's steps
  // ---------------------------------------------------------------------------------------

  /** The critical section of push. */
  method InsertStep(q: DelayQueue, d: Item, ghost s: Queue) returns (ghost r: Queue)
    requires IsHeap(q.h) && s.heap == multiset(q.h)
    modifies q
    ensures IsHeap(q.h) && r.heap == multiset(q.h) && Step(s, Insert(d), r)
  {
    q.Push(d);
    r := s.(heap := s.heap + multiset{d}, signalling := s.signalling + 1, pushed := s.pushed + multiset{d});
  }

  /** nextDeadline at the top of the worker's loop. */
  method PeekStep(q: DelayQueue, ghost s: Queue) returns (deadline: Option<int>, ghost r: Queue)
    requires IsHeap(q.h) && s.heap == multiset(q.h) && s.pc.Top?
    ensures Earliest(multiset(q.h), deadline)
    ensures r == s.(pc := Arming(deadline)) && Step(s, Peek, r)
  {
    var t, ok := q.NextDeadline();
    deadline := if ok then Some(t) else None;
    r := s.(pc := Arming(deadline));
    assert forall d :: d in s.heap <==> d in q.h;
  }

  /** popDue when the timer has fired. */
  method DrainStep(q: DelayQueue, ghost s: Queue, now: int) returns (due: seq<Item>, ghost r: Queue)
    requires IsHeap(q.h) && s.heap == multiset(q.h) && s.pc.Draining? && now == s.now
    modifies q
    ensures IsHeap(q.h) && r.heap == multiset(q.h) && r.pc == Writing(due) && Step(s, Drain(due), r)
  {
    due := q.PopDue(now);
    assert multiset(q.h) == s.heap - multiset(due);
    assert forall d :: d in multiset(q.h) <==> d in q.h;
    r := s.(pc := Writing(due), heap := s.heap - multiset(due));
  }
}
